/**
 * What the server promises about any request, proved of `Route` and
 * `Submit`: how the received text is split, which route each method and path
 * takes, that the query is ignored off `/submit`, that every page starts
 * with the same head, and what the form decoder greets.
 */
module ServerProperties {
  import opened Wrappers
  import opened Text
  import opened Url
  import opened Server

  /** A Request-Line `m SP t rest`, `rest` empty or starting with a space, splits into method `m` and target `t`. */
  lemma RequestLine(m: string, t: string, rest: string)
    requires ' ' !in m && ' ' !in t
    requires rest == [] || rest[0] == ' '
    ensures var request := Split(m + " " + t + rest, ' ');
      |request| >= 2 && request[0] == m && request[1] == t
  {
    assert m + " " + t + rest == m + [' '] + (t + rest);
    SplitAt(m, ' ', t + rest);
    SplitFirst(t, ' ', rest);
  }

  /**
   * In any received text with a space, the method is the text before the
   * first space and the target the text from there up to the next space or
   * the end.
   */
  lemma RequestParts(info: string)
    requires ' ' in info
    ensures var i := IndexOf(info, ' ');
      var after := info[i + 1..];
      var request := Split(info, ' ');
      && |request| >= 2
      && request[0] == info[..i]
      && request[1] == FirstPiece(after)
  {
    var i := IndexOf(info, ' ');
    var after := info[i + 1..];
    IndexOfSplit(info, ' ');
    SplitAt(info[..i], ' ', after);
    FirstPieceOfSplit(after);
  }

  /** The text of `s` up to its first space, or all of `s`. */
  function FirstPiece(s: string): string
  {
    if ' ' in s then s[..IndexOf(s, ' ')] else s
  }

  /** The first piece of `s.split(' ')` is the text up to the first space. */
  lemma FirstPieceOfSplit(s: string)
    ensures Split(s, ' ')[0] == FirstPiece(s)
  {
    if ' ' in s {
      var j := IndexOf(s, ' ');
      IndexOfSplit(s, ' ');
      SplitAt(s[..j], ' ', s[j + 1..]);
    }
  }

  /** A request in scope is routed by its method and parsed target alone. */
  lemma RouteOfLine(m: string, t: string, rest: string, info: string)
    requires ' ' !in m && ' ' !in t
    requires rest == [] || rest[0] == ' '
    requires info == m + " " + t + rest
    requires LineInScope(m, t, info)
    ensures InScope(info)
    ensures Route(info) == Dispatch(m, UrlParse(t), info)
  {
    RequestLine(m, t, rest);
  }

  /** `handle_submit` never returns silently: it sends a page or raises `KeyError`. */
  lemma SubmitSendsOrRaisesKeyError(q: string)
    requires PlainQuery(q)
    ensures Submit(q).Respond? || (Submit(q).Fail? && Submit(q).error.KeyError?)
  {
  }

  /** The outcome is `IndexError` exactly when the received text has no space. */
  lemma IndexErrorIffNoSpace(info: string)
    requires InScope(info)
    ensures Route(info) == Fail(IndexError) <==> ' ' !in info
  {
    SplitCount(info, ' ');
    var request := Split(info, ' ');
    if |request| >= 2 {
      DispatchNeverIndexError(request[0], UrlParse(request[1]), info);
    }
  }

  /** Once the request line has two pieces, no handler raises `IndexError`. */
  lemma DispatchNeverIndexError(m: string, u: UrlInfo, info: string)
    requires RouteInScope(m, u, info)
    ensures Dispatch(m, u, info) != Fail(IndexError)
  {
    if m == "GET" && u.path == "/submit" {
      SubmitSendsOrRaisesKeyError(SubmitQuery(u, info, "GET"));
    } else if m == "POST" && u.path == "/submit" {
      SubmitSendsOrRaisesKeyError(SubmitQuery(u, info, "POST"));
    }
  }

  /** A target with a `?` splits there into the path and the query, whatever the query holds. */
  lemma UrlParseQuery(p: string, q: string)
    requires '?' !in p
    requires PlainTarget(p + "?" + q)
    ensures PlainTarget(p)
    ensures UrlParse(p + "?" + q) == UrlInfo(p, q)
    ensures UrlParse(p) == UrlInfo(p, "")
  {
    var t := p + "?" + q;
    assert t == p + ['?'] + q;
    IndexOfAfter(p, '?', q);
    assert t[..|p|] == p && t[|p| + 1..] == q;
    assert forall k :: 0 <= k < |p| ==> t[k] == p[k];
  }

  // `GetLine` and `PostLine` regroup the request text around the method's space,
  // only so that the solver need not work them out inside a larger proof;
  // they state nothing about the server.
  lemma GetLine(t: string, rest: string)
    ensures "GET " + t + rest == "GET" + " " + t + rest
  {
  }

  lemma PostLine(t: string, rest: string)
    ensures "POST " + t + rest == "POST" + " " + t + rest
  {
  }

  /** GET of each fixed path sends that page. */
  lemma GetRoutes(t: string, rest: string)
    requires ' ' !in t && (rest == [] || rest[0] == ' ')
    requires PlainTarget(t) && UrlParse(t).path != "/submit"
    ensures var info := "GET " + t + rest;
      var path := UrlParse(t).path;
      && InScope(info)
      && (path == "/" ==> Route(info) == Respond(IndexPage))
      && (path == "/content" ==> Route(info) == Respond(ContentPage))
      && (path == "/file" ==> Route(info) == Respond(FilePage))
      && (path == "/image" ==> Route(info) == Respond(ImagePage))
      && (path == "/form" ==> Route(info) == Respond(FormPage))
  {
    var info := "GET " + t + rest;
    GetLine(t, rest);
    RouteOfLine("GET", t, rest, info);
  }

  /** GET of any other path than the fixed ones and `/submit` sends the "does not exist" page, with status 200. */
  lemma GetMissingRoute(t: string, rest: string)
    requires ' ' !in t && (rest == [] || rest[0] == ' ')
    requires PlainTarget(t)
    requires UrlParse(t).path !in ["/", "/content", "/file", "/image", "/form", "/submit"]
    ensures InScope("GET " + t + rest) && Route("GET " + t + rest) == Respond(NoPage)
  {
    var info := "GET " + t + rest;
    GetLine(t, rest);
    GetMissingDispatch(UrlParse(t), info);
    RouteOfLine("GET", t, rest, info);
  }

  lemma GetMissingDispatch(u: UrlInfo, info: string)
    requires u.path !in ["/", "/content", "/file", "/image", "/form", "/submit"]
    ensures RouteInScope("GET", u, info) && Dispatch("GET", u, info) == Respond(NoPage)
  {
  }

  /** GET of `/submit` decodes the URL's query. */
  lemma GetSubmitRoute(t: string, rest: string)
    requires ' ' !in t && (rest == [] || rest[0] == ' ')
    requires PlainTarget(t) && UrlParse(t).path == "/submit" && PlainQuery(UrlParse(t).query)
    ensures InScope("GET " + t + rest)
    ensures Route("GET " + t + rest) == Submit(UrlParse(t).query)
  {
    var info := "GET " + t + rest;
    GetLine(t, rest);
    GetSubmitDispatch(UrlParse(t), info);
    RouteOfLine("GET", t, rest, info);
  }

  lemma GetSubmitDispatch(u: UrlInfo, info: string)
    requires u.path == "/submit" && PlainQuery(u.query)
    ensures RouteInScope("GET", u, info) && Dispatch("GET", u, info) == Submit(u.query)
  {
  }

  /**
   * POST of `/submit` decodes the last line of the received text; POST of any
   * other path sends the fixed "Hello, world." page.
   */
  lemma PostRoutes(t: string, rest: string)
    requires ' ' !in t && (rest == [] || rest[0] == ' ')
    requires PlainTarget(t)
    requires UrlParse(t).path == "/submit" ==> PlainQuery(LastLine("POST " + t + rest))
    ensures var info := "POST " + t + rest;
      && InScope(info)
      && (UrlParse(t).path == "/submit" ==> Route(info) == Submit(LastLine(info)))
      && (UrlParse(t).path != "/submit" ==> Route(info) == Respond(PostPage))
  {
    var info := "POST " + t + rest;
    PostLine(t, rest);
    RouteOfLine("POST", t, rest, info);
  }

  /** Any method other than exactly `GET` or `POST` sends nothing (and the connection is still closed). */
  lemma OtherMethodsSendNothing(m: string, t: string, rest: string)
    requires ' ' !in m && ' ' !in t && (rest == [] || rest[0] == ' ')
    requires m != "GET" && m != "POST"
    requires PlainTarget(t)
    ensures InScope(m + " " + t + rest)
    ensures Route(m + " " + t + rest) == NoResponse
  {
    RouteOfLine(m, t, rest, m + " " + t + rest);
  }

  /** Off `/submit`, a query on the target changes nothing that is sent. */
  lemma QueryIgnored(m: string, p: string, q: string, rest: string)
    requires ' ' !in m && ' ' !in p && ' ' !in q && '?' !in p
    requires rest == [] || rest[0] == ' '
    requires PlainTarget(p + "?" + q) && p != "/submit"
    ensures InScope(m + " " + p + "?" + q + rest) && InScope(m + " " + p + rest)
    ensures Route(m + " " + p + "?" + q + rest) == Route(m + " " + p + rest)
  {
    UrlParseQuery(p, q);
    var t := p + "?" + q;
    QueryLine(m, p, q, rest);
    RouteOfLine(m, t, rest, m + " " + t + rest);
    RouteOfLine(m, p, rest, m + " " + p + rest);
    DispatchOffSubmit(m, UrlInfo(p, q), UrlInfo(p, ""), m + " " + t + rest, m + " " + p + rest);
  }

  // `QueryLine` regroups the target's text for the solver.
  lemma QueryLine(m: string, p: string, q: string, rest: string)
    requires ' ' !in p && ' ' !in q
    ensures ' ' !in p + "?" + q
    ensures m + " " + p + "?" + q + rest == m + " " + (p + "?" + q) + rest
  {
  }

  /** Off `/submit`, routing reads only the method and the path. */
  lemma DispatchOffSubmit(m: string, u1: UrlInfo, u2: UrlInfo, info1: string, info2: string)
    requires u1.path == u2.path && u1.path != "/submit"
    ensures RouteInScope(m, u1, info1) && RouteInScope(m, u2, info2)
    ensures Dispatch(m, u1, info1) == Dispatch(m, u2, info2)
  {
  }

  /** Every page sent begins with the Status-Line `HTTP/1.0 200 OK`, the `Content-type` header and the blank line. */
  lemma PagesStartWithHead(info: string)
    requires InScope(info) && Route(info).Respond?
    ensures Head <= Route(info).page
  {
    var request := Split(info, ' ');
    DispatchStartsWithHead(request[0], UrlParse(request[1]), info);
  }

  /** Every page a dispatch sends is the head and then a body. */
  lemma DispatchStartsWithHead(m: string, u: UrlInfo, info: string)
    requires RouteInScope(m, u, info) && Dispatch(m, u, info).Respond?
    ensures Head <= Dispatch(m, u, info).page
  {
    HeadPrefix(IndexBody);
    HeadPrefix("<h1><marquee>Look at all this content!</marquee></h1>");
    HeadPrefix("<h1>This is polavar3's file page.</h1>");
    HeadPrefix("<h1>This is polavar3's image page.</h1>");
    HeadPrefix(FormBody);
    HeadPrefix("<h2>This page does not exist.</h2>");
    HeadPrefix("<h1>Hello, world.</h1>");
    if u.path == "/submit" && (m == "GET" || m == "POST") {
      var data := ParseQs(SubmitQuery(u, info, m));
      if "firstName" in data && "lastName" in data {
        HeadPrefix("<p>" + "Hello Mr. " + data["firstName"][0] + " " + data["lastName"][0] + "." + "</p>");
      }
    }
  }

  lemma HeadPrefix(body: string)
    ensures Head <= Head + body
  {
    assert (Head + body)[..|Head|] == Head;
  }

  /**
   * `handle_submit` greets with the first non-empty values of `firstName` and
   * `lastName`; a missing or empty name raises `KeyError`, `firstName` first.
   */
  lemma SubmitGreets(q: string)
    requires PlainQuery(q)
    ensures var parts := Split(q, '&');
      var first := FirstValue(parts, "firstName");
      var last := FirstValue(parts, "lastName");
      && (first.None? ==> Submit(q) == Fail(KeyError("firstName")))
      && (first.Some? && last.None? ==> Submit(q) == Fail(KeyError("lastName")))
      && (first.Some? && last.Some? ==> Submit(q) == Respond(SubmitPage(first.value, last.value)))
  {
    ParseQsLookup(q, "firstName");
    ParseQsLookup(q, "lastName");
  }

  /** The form's own query, `firstName=F&lastName=L`, is greeted `Hello Mr. F L.`. */
  lemma SubmitOfForm(f: string, l: string)
    requires f != [] && l != []
    requires '&' !in f && '&' !in l
    requires PlainQuery(f) && PlainQuery(l)
    ensures PlainQuery("firstName=" + f + "&lastName=" + l)
    ensures Submit("firstName=" + f + "&lastName=" + l) == Respond(SubmitPage(f, l))
  {
    var a, b := "firstName=" + f, "lastName=" + l;
    FormText(f, l);
    FirstNameText();
    LastNameText();
    FieldsJoin("firstName=", f, "lastName=", l);
    FormPairs(a, b);
    FormFirstValues(f, l);
    SubmitGreets(a + "&" + b);
  }

  /** In the form's two pairs, each name is bound by its own pair. */
  lemma FormFirstValues(f: string, l: string)
    requires f != [] && l != []
    ensures var parts := ["firstName=" + f, "lastName=" + l];
      FirstValue(parts, "firstName") == Some(f) && FirstValue(parts, "lastName") == Some(l)
  {
    var a, b := "firstName=" + f, "lastName=" + l;
    BindsPair("firstName", f);
    BindsPair("lastName", l);
    assert a == "firstName" + "=" + f && b == "lastName" + "=" + l;
    assert !Binds(a, "lastName");
    assert [a, b][1..] == [b];
  }

  /** Two pairs joined by `&` split back into the two pairs. */
  lemma FormPairs(a: string, b: string)
    requires '&' !in a && '&' !in b
    ensures Split(a + "&" + b, '&') == [a, b]
  {
    assert a + "&" + b == a + ['&'] + b;
    SplitAt(a, '&', b);
    assert Split(b, '&') == [b];
  }

  /**
   * Names are matched case-sensitively: the form written with lower-case
   * `firstname` and `lastname` raises `KeyError` for `firstName`.
   */
  lemma LowercaseFormRaises(f: string, l: string)
    requires '&' !in f && '&' !in l
    requires PlainQuery(f) && PlainQuery(l)
    ensures PlainQuery("firstname=" + f + "&lastname=" + l)
    ensures Submit("firstname=" + f + "&lastname=" + l) == Fail(KeyError("firstName"))
  {
    var a, b := "firstname=" + f, "lastname=" + l;
    LowercaseFormText(f, l);
    LowerFirstNameText();
    LowerLastNameText();
    FieldsJoin("firstname=", f, "lastname=", l);
    FormPairs(a, b);
    LowercaseFirstValue(f, l);
    SubmitGreets(a + "&" + b);
  }

  lemma LowercaseFirstValue(f: string, l: string)
    ensures FirstValue(["firstname=" + f, "lastname=" + l], "firstName") == None
  {
    var a, b := "firstname=" + f, "lastname=" + l;
    PairBindsOnlyItsKey("firstname", f, "firstName");
    PairBindsOnlyItsKey("lastname", l, "firstName");
    assert [a, b][1..] == [b];
  }

  /** A pair `key=value` binds no other name than `key`. */
  lemma PairBindsOnlyItsKey(key: string, value: string, other: string)
    requires '=' !in key && key != other
    ensures !Binds(key + "=" + value, other)
  {
    IndexOfAfter(key, '=', value);
    var part := key + "=" + value;
    assert part == key + ['='] + value;
    assert part[..|key|] == key;
  }

  /** Text that can stand inside one field of a query: no `&`, and nothing `parse_qsl` would decode. */
  predicate FieldText(s: string) {
    '&' !in s && PlainQuery(s)
  }

  /** Text that can stand inside a request target: no space and no fragment mark. */
  predicate TargetText(s: string) {
    ' ' !in s && '#' !in s
  }

  // From `FirstNameText` to `PostSubmitText`, `FieldsJoin` aside, the lemmas state
  // facts about literals or regroup a concatenation,
  // only so that the solver need not work them out inside a larger proof;
  // they state nothing about the server.
  lemma FirstNameText()
    ensures FieldText("firstName=")
  {
  }

  lemma LastNameText()
    ensures FieldText("lastName=")
  {
  }

  lemma LowerFirstNameText()
    ensures FieldText("firstname=") && TargetText("firstname=")
  {
  }

  lemma LowerLastNameText()
    ensures FieldText("lastname=") && TargetText("lastname=")
  {
  }

  /** Two fields, each a name followed by its value, joined by `&`. */
  lemma FieldsJoin(n1: string, v1: string, n2: string, v2: string)
    requires FieldText(n1) && FieldText(v1) && FieldText(n2) && FieldText(v2)
    ensures FieldText(n1 + v1) && FieldText(n2 + v2)
    ensures PlainQuery(n1 + v1 + "&" + (n2 + v2))
    ensures TargetText(n1) && TargetText(v1) && TargetText(n2) && TargetText(v2) ==>
      TargetText(n1 + v1 + "&" + (n2 + v2))
  {
  }

  lemma FormText(f: string, l: string)
    ensures "firstName=" + f + "&lastName=" + l == ("firstName=" + f) + "&" + ("lastName=" + l)
  {
  }

  lemma LowercaseFormText(f: string, l: string)
    ensures "firstname=" + f + "&lastname=" + l == ("firstname=" + f) + "&" + ("lastname=" + l)
  {
  }

  lemma LowercaseGetText(f: string, l: string)
    ensures "GET /submit?firstname=" + f + "&lastname=" + l
      == "GET " + ("/submit" + "?" + ("firstname=" + f + "&lastname=" + l)) + ""
  {
  }

  lemma PostSubmitText(head: string, body: string)
    ensures "POST /submit" + head + body == "POST " + "/submit" + (head + body)
  {
  }

  /** A path that is a plain target stays one with a query after `?`. */
  lemma TargetWithQuery(p: string, q: string)
    requires p != [] && PlainTarget(p) && ' ' !in p
    requires ' ' !in q && '#' !in q && ';' !in q
    ensures PlainTarget(p + "?" + q) && ' ' !in p + "?" + q
  {
    var t := p + "?" + q;
    assert t[0] == p[0];
    if |p| >= 2 {
      assert t[1] == p[1];
    }
  }

  /** A GET of `/submit` with the lower-case form raises `KeyError` for `firstName`. */
  lemma GetLowercaseSubmit(f: string, l: string)
    requires FieldText(f) && FieldText(l) && TargetText(f) && TargetText(l)
    ensures var req := "GET /submit?firstname=" + f + "&lastname=" + l;
      InScope(req) && Route(req) == Fail(KeyError("firstName"))
  {
    var p, q := "/submit", "firstname=" + f + "&lastname=" + l;
    var t := p + "?" + q;
    LowercaseGetText(f, l);
    LowercaseFormText(f, l);
    LowerFirstNameText();
    LowerLastNameText();
    FieldsJoin("firstname=", f, "lastname=", l);
    SubmitTarget(p);
    TargetWithQuery(p, q);
    UrlParseQuery(p, q);
    LowercaseFormRaises(f, l);
    GetSubmitRoute(t, "");
  }

  /** A POST of `/submit` whose body is the lower-case form raises `KeyError` for `firstName`. */
  lemma PostLowercaseSubmit(head: string, f: string, l: string)
    requires head != [] && head[0] == ' ' && IsBreak(head[|head| - 1])
    requires '&' !in f && '&' !in l && PlainQuery(f) && PlainQuery(l)
    requires !HasBreak(f) && !HasBreak(l)
    ensures var req := "POST /submit" + head + "firstname=" + f + "&lastname=" + l;
      InScope(req) && Route(req) == Fail(KeyError("firstName"))
  {
    var body := "firstname=" + f + "&lastname=" + l;
    var req := "POST /submit" + head + body;
    assert req == "POST /submit" + head + "firstname=" + f + "&lastname=" + l;
    LowercaseFormRaises(f, l);
    LowercaseFormLine(f, l);
    PostSubmitRoute(head, body);
  }

  /** The lower-case form, free of line breaks, is one line. */
  lemma LowercaseFormLine(f: string, l: string)
    requires !HasBreak(f) && !HasBreak(l)
    ensures !HasBreak("firstname=" + f + "&lastname=" + l)
  {
    var body := "firstname=" + f + "&lastname=" + l;
    forall i | 0 <= i < |body|
      ensures !IsBreak(body[i])
    {
      if 10 <= i < 10 + |f| {
        assert body[i] == f[i - 10];
      } else if 10 + |f| + 10 <= i {
        assert body[i] == l[i - 20 - |f|];
      }
    }
  }

  /**
   * A POST of `/submit` whose last line holds no `name=value` pair raises
   * `KeyError` for `firstName`.
   */
  lemma PostSubmitNoPair(head: string, body: string)
    requires head != [] && head[0] == ' ' && IsBreak(head[|head| - 1])
    requires body != [] && !HasBreak(body) && PlainQuery(body) && '=' !in body && '&' !in body
    ensures InScope("POST /submit" + head + body)
    ensures Route("POST /submit" + head + body) == Fail(KeyError("firstName"))
  {
    PostSubmitRoute(head, body);
    NoPairRaises(body);
  }

  /** A query that is one piece without `=` binds no name, so `firstName` is missing. */
  lemma NoPairRaises(q: string)
    requires PlainQuery(q) && '=' !in q && '&' !in q
    ensures Submit(q) == Fail(KeyError("firstName"))
  {
    assert Split(q, '&') == [q];
    assert !Binds(q, "firstName");
    SubmitGreets(q);
  }

  /**
   * A POST of `/submit` with no body: once the final terminator is dropped
   * the text still ends in a line break, so the last line is blank and
   * `firstName` is missing.
   */
  lemma PostSubmitBlankLastLine(head: string)
    requires head != [] && head[0] == ' '
    requires var d := DropTerminator(head); d != [] && IsBreak(d[|d| - 1])
    ensures InScope("POST /submit" + head)
    ensures Route("POST /submit" + head) == Fail(KeyError("firstName"))
  {
    var t := "/submit";
    SubmitTarget(t);
    PostBlankLastLine(head);
    PostHeadText(head);
    PostRoutes(t, head);
    NoPairRaises("");
  }

  lemma PostBlankLastLine(head: string)
    requires head != [] && head[0] == ' '
    requires var d := DropTerminator(head); d != [] && IsBreak(d[|d| - 1])
    ensures LastLine("POST /submit" + head) == ""
  {
    var p, d := "POST /submit", DropTerminator(head);
    assert d[0] == head[0];
    DropTerminatorAppend(p, head);
    assert (p + d)[|p + d| - 1] == d[|d| - 1];
    LastLineBlank(p + head);
  }

  // `PostHeadText` regroups the request text for the solver.
  lemma PostHeadText(head: string)
    ensures "POST /submit" + head == "POST " + "/submit" + head
  {
  }

  /** A POST of `/submit` is answered from the body on the received text's last line. */
  lemma PostSubmitRoute(head: string, body: string)
    requires head != [] && head[0] == ' ' && IsBreak(head[|head| - 1])
    requires body != [] && !HasBreak(body) && PlainQuery(body)
    ensures InScope("POST /submit" + head + body)
    ensures Route("POST /submit" + head + body) == Submit(body)
  {
    var t, rest := "/submit", head + body;
    SubmitTarget(t);
    PostBodyIsLastLine(head, body);
    PostSubmitText(head, body);
    PostRoutes(t, rest);
  }

  // `SubmitTarget` states facts about the literal `/submit` for the solver.
  lemma SubmitTarget(t: string)
    requires t == "/submit"
    ensures PlainTarget(t) && ' ' !in t && '?' !in t && UrlParse(t).path == t
  {
    assert '?' !in t;
  }

  lemma PostBodyIsLastLine(head: string, body: string)
    requires head != [] && IsBreak(head[|head| - 1])
    requires body != [] && !HasBreak(body)
    ensures LastLine("POST /submit" + head + body) == body
  {
    var p := "POST /submit" + head;
    assert p[|p| - 1] == head[|head| - 1];
    assert "POST /submit" + head + body == p + body;
    LastLineIsBody(p, body);
  }
}
