/**
 * Scenarios: the three GET tests of the test suite, and what the server
 * code does on the suite's other requests (blank lines, a missing page,
 * POST of `/`, submissions with lower-case field names) and on a method it
 * does not know. Each is a lemma about `Route` on the request text and a
 * method that runs `HandleConnection` on a fresh `FakeConnection` holding it.
 */
module ServerTests {
  import opened Wrappers
  import opened Text
  import opened Url
  import opened Connection
  import opened Server
  import opened ServerProperties

  lemma IndexScenario(req: string)
    requires req == "GET / HTTP/1.0\r\n\r\n"
    ensures InScope(req) && Route(req) == Respond(IndexPage)
  {
    var t, rest := "/", " HTTP/1.0\r\n\r\n";
    assert req == "GET " + t + rest;
    assert PlainTarget(t) && ' ' !in t && '?' !in t;
    assert UrlParse(t).path == t;
    GetRoutes(t, rest);
  }

  lemma ContentScenario(req: string)
    requires req == "GET /content HTTP/1.0\r\n\r\n"
    ensures InScope(req) && Route(req) == Respond(ContentPage)
  {
    var t, rest := "/content", " HTTP/1.0\r\n\r\n";
    assert req == "GET " + t + rest;
    assert PlainTarget(t) && ' ' !in t && '?' !in t;
    assert UrlParse(t).path == t;
    GetRoutes(t, rest);
  }

  lemma FileScenario(req: string)
    requires req == "GET /file HTTP/1.0\r\n\r\n"
    ensures InScope(req) && Route(req) == Respond(FilePage)
  {
    var t, rest := "/file", " HTTP/1.0\r\n\r\n";
    assert req == "GET " + t + rest;
    assert PlainTarget(t) && ' ' !in t && '?' !in t;
    assert UrlParse(t).path == t;
    GetRoutes(t, rest);
  }

  /** A request of blank lines has no space and raises `IndexError` before anything is sent. */
  lemma EmptyScenario(req: string)
    requires req == "\r\n\r\n"
    ensures InScope(req) && Route(req) == Fail(IndexError)
  {
    assert ' ' !in req;
    assert Split(req, ' ') == [req];
    IndexErrorIffNoSpace(req);
  }

  /** A missing page is answered with status 200 and the "does not exist" page. */
  lemma NotFoundScenario(req: string)
    requires req == "GET /fake HTTP/1.0\r\n\r\n"
    ensures InScope(req) && Route(req) == Respond(NoPage)
  {
    var t, rest := "/fake", " HTTP/1.0\r\n\r\n";
    assert req == "GET " + t + rest;
    assert PlainTarget(t) && ' ' !in t && '?' !in t;
    assert UrlParse(t).path == t;
    GetMissingRoute(t, rest);
  }

  /** POST of a path other than `/submit` sends the "Hello, world." page. */
  lemma PostIndexScenario(req: string)
    requires req == "POST / HTTP/1.0\r\nContent-length: 0\r\n\r\n"
    ensures InScope(req) && Route(req) == Respond(PostPage)
  {
    var t, rest := "/", " HTTP/1.0\r\nContent-length: 0\r\n\r\n";
    PostIndexText();
    RootTarget();
    PostRoutes(t, rest);
  }

  // `PostIndexText` and `RootTarget` state facts about the request literal,
  // only so that the solver need not work them out inside a larger proof;
  // they state nothing about the server.
  lemma PostIndexText()
    ensures "POST / HTTP/1.0\r\nContent-length: 0\r\n\r\n" == "POST " + "/" + " HTTP/1.0\r\nContent-length: 0\r\n\r\n"
  {
  }

  lemma RootTarget()
    ensures PlainTarget("/") && ' ' !in "/" && UrlParse("/").path == "/" != "/submit"
  {
    assert '?' !in "/";
  }

  /** A method other than `GET` and `POST` sends nothing, and the connection is closed. */
  lemma HeadScenario(req: string)
    requires req == "HEAD / HTTP/1.0\r\n\r\n"
    ensures InScope(req) && Route(req) == NoResponse
  {
    var m, t, rest := "HEAD", "/", " HTTP/1.0\r\n\r\n";
    assert req == m + " " + t + rest;
    assert PlainTarget(t) && ' ' !in t && ' ' !in m;
    OtherMethodsSendNothing(m, t, rest);
  }

  /**
   * A GET of `/submit` with lower-case field names, the target running into
   * the version text, raises `KeyError` for `firstName`.
   */
  lemma SubmitGetLowercaseScenario(req: string, f: string, l: string)
    requires f == "Bill" && l == "NyeHTTP/1.1\r\n\r\n"
    requires req == "GET /submit?firstname=Bill&lastname=NyeHTTP/1.1\r\n\r\n"
    ensures InScope(req) && Route(req) == Fail(KeyError("firstName"))
  {
    SubmitGetText();
    BillText();
    VersionTailText();
    VersionTailTarget();
    GetLowercaseSubmit(f, l);
  }

  /**
   * The suite's GET submission with an empty last name: the version runs
   * into the `lastname` value, and the lower-case names raise `KeyError`
   * for `firstName`.
   */
  lemma SubmitNoLastNameScenario(req: string, f: string, l: string)
    requires f == "Bill" && l == "HTTP/1.1\r\n\r\n"
    requires req == "GET /submit?firstname=Bill&lastname=HTTP/1.1\r\n\r\n"
    ensures InScope(req) && Route(req) == Fail(KeyError("firstName"))
  {
    NoLastNameText();
    BillText();
    VersionText();
    VersionTarget();
    GetLowercaseSubmit(f, l);
  }

  // From `NoLastNameText` to `VersionTailTarget`, the lemmas regroup a request literal
  // or state facts about the literals in it,
  // only so that the solver need not work them out inside a larger proof;
  // they state nothing about the server.
  lemma NoLastNameText()
    ensures "GET /submit?firstname=Bill&lastname=HTTP/1.1\r\n\r\n"
      == "GET /submit?firstname=" + "Bill" + "&lastname=" + "HTTP/1.1\r\n\r\n"
  {
  }

  lemma VersionText()
    ensures FieldText("HTTP/1.1\r\n\r\n")
  {
  }

  lemma VersionTarget()
    ensures TargetText("HTTP/1.1\r\n\r\n")
  {
  }

  lemma SubmitGetText()
    ensures "GET /submit?firstname=Bill&lastname=NyeHTTP/1.1\r\n\r\n"
      == "GET /submit?firstname=" + "Bill" + "&lastname=" + "NyeHTTP/1.1\r\n\r\n"
  {
  }

  lemma BillText()
    ensures FieldText("Bill") && TargetText("Bill")
  {
  }

  lemma VersionTailText()
    ensures FieldText("NyeHTTP/1.1\r\n\r\n")
  {
  }

  lemma VersionTailTarget()
    ensures TargetText("NyeHTTP/1.1\r\n\r\n")
  {
  }

  /**
   * A POST of `/submit` whose body, `firstname=Bill&lastname=Nye`, has
   * lower-case field names raises `KeyError` for `firstName`.
   */
  lemma SubmitPostLowercaseScenario(head: string, f: string, l: string)
    requires head == " HTTP/1.1\r\nContent-Length: 31\r\n\r\n" && f == "Bill" && l == "Nye"
    ensures var req := "POST /submit" + head + "firstname=" + f + "&lastname=" + l;
      InScope(req) && Route(req) == Fail(KeyError("firstName"))
  {
    assert !HasBreak(f) && !HasBreak(l);
    PostLowercaseSubmit(head, f, l);
  }

  /**
   * The multipart POST of `/submit`: its last line is the closing boundary,
   * which holds no pair, so it raises `KeyError` for `firstName`.
   */
  lemma SubmitMultipartScenario(head: string, body: string)
    requires head == MultipartHead && body == MultipartEnd
    ensures var req := "POST /submit" + head + body;
      InScope(req) && Route(req) == Fail(KeyError("firstName"))
  {
    MultipartHeadText();
    MultipartEndInert();
    AllInertText(body);
    PostSubmitNoPair(head, body);
  }

  /** The multipart request after `POST /submit`, up to its last line. */
  const MultipartHead := MultipartLines + "\r\n"

  /** The multipart request's header and first parts, without the final line break. */
  const MultipartLines := " HTTP/1.1" + "\r\nContent-Length: 246\r\n\r\n------"
    + "WebKitFormBoundaryAaa127xQakMcNYm\r\n"
    + "Content-Disposition: form-data; name='firstname'\r\n\r\nBill"
    + "\r\n------WebKitFormBoundaryAaa127xQakxMcNYm\r\n"
    + "Content-Disposition: form-data; name='lastname'\r\n\r\nNye"

  /** The multipart request's last line, the closing boundary. */
  const MultipartEnd := "------WebKit" + "FormBoundary" + "Aaa127xWakxM" + "cNYm--')"

  // `MultipartHeadText` and the lemmas about inert text below state facts about the
  // request literal, split into short pieces; they are there for the solver.
  lemma MultipartHeadText()
    ensures MultipartHead != [] && MultipartHead[0] == ' '
    ensures IsBreak(MultipartHead[|MultipartHead| - 1])
  {
    assert MultipartLines[0] == " HTTP/1.1"[0];
    assert MultipartHead[0] == MultipartLines[0];
    var n := |MultipartLines|;
    assert MultipartHead[n + 1] == "\r\n"[1];
  }

  /** A character that is neither a line break nor special to `parse_qsl`. */
  predicate Inert(c: char) {
    !IsBreak(c) && c != '%' && c != '+' && c != ';' && c != '=' && c != '&'
  }

  predicate AllInert(s: string) {
    forall i :: 0 <= i < |s| ==> Inert(s[i])
  }

  lemma AllInertAppend(a: string, b: string)
    requires AllInert(a) && AllInert(b)
    ensures AllInert(a + b)
  {
    forall i | 0 <= i < |a + b|
      ensures Inert((a + b)[i])
    {
      if i >= |a| {
        assert (a + b)[i] == b[i - |a|];
      }
    }
  }

  /** Text of inert characters is one line, a plain query and no pair. */
  lemma AllInertText(s: string)
    requires AllInert(s)
    ensures !HasBreak(s) && PlainQuery(s) && '=' !in s && '&' !in s
  {
  }

  lemma MultipartEndInert()
    ensures AllInert(MultipartEnd)
  {
    var a, b, c, d := "------WebKit", "FormBoundary", "Aaa127xWakxM", "cNYm--')";
    assert AllInert(a);
    assert AllInert(b);
    assert AllInert(c);
    assert AllInert(d);
    AllInertAppend(a, b);
    AllInertAppend(a + b, c);
    AllInertAppend(a + b + c, d);
  }

  /**
   * A POST of `/submit` with headers but no body: the last line that
   * `splitlines()` gives is blank, so it raises `KeyError` for `firstName`.
   */
  lemma SubmitNoBodyScenario(head: string)
    requires head == " HTTP/1.0\r\n\r\n"
    ensures var req := "POST /submit" + head;
      InScope(req) && Route(req) == Fail(KeyError("firstName"))
  {
    NoBodyHeadText();
    PostSubmitBlankLastLine(head);
  }

  // `NoBodyHeadText` states facts about the request literal for the solver.
  lemma NoBodyHeadText()
    ensures var h := " HTTP/1.0\r\n\r\n"; var d := DropTerminator(h);
      h[0] == ' ' && d != [] && IsBreak(d[|d| - 1])
  {
    var h := " HTTP/1.0\r\n\r\n";
    assert DropTerminator(h) == h[..|h| - 2];
  }

  /** Each status line reads `HTTP/1.0 200`. */
  lemma HeadHasStatus200(body: string)
    ensures Contains(Head + body, "HTTP/1.0 200")
  {
    var code, rest := "HTTP/1.0 200", " OK\r\n";
    assert StatusLine == code + rest;
    var after := rest + ("Content-type: text/html\r\n\r\n" + body);
    assert Head + body == "" + code + after;
    OccursInMiddle("", code, after);
  }

  lemma IndexPageMentionsForm()
    ensures Contains(IndexPage, "HTTP/1.0 200") && Contains(IndexPage, "form")
  {
    HeadHasStatus200(IndexBody);
    IndexBodyMentionsForm();
    ContainsWithin(Head, IndexBody, "", "form");
    assert Head + IndexBody + "" == IndexPage;
  }

  /** The index body links to `/form`. */
  lemma IndexBodyMentionsForm()
    ensures Contains(IndexBody, "form")
  {
    var links := "<body bgcolor = \"green\">"
      + "<h1>Hello, world.</h1>"
      + "This is polavar3's Web server."
      + "<br>"
      + "<a href=\"/content\">Content</a><br>"
      + "<a href=\"/file\">File</a><br>"
      + "<a href=\"/image\">Image</a><br>";
    var link, end := "<a href=\"/form\">Form</a><br>", "</body>";
    assert IndexBody == links + link + end;
    FormLinkMentionsForm();
    ContainsWithin(links, link, end, "form");
  }

  lemma FormLinkMentionsForm()
    ensures Contains("<a href=\"/form\">Form</a><br>", "form")
  {
    OccursInMiddle("<a href=\"/", "form", "\">Form</a><br>");
    assert "<a href=\"/form\">Form</a><br>" == "<a href=\"/" + "form" + "\">Form</a><br>";
  }

  lemma ContentPageMentionsContent()
    ensures Contains(ContentPage, "HTTP/1.0 200") && Contains(ContentPage, "content")
  {
    HeadHasStatus200("<h1><marquee>Look at all this content!</marquee></h1>");
    var before := Head + "<h1><marquee>Look at all this ";
    assert ContentPage == before + "content" + "!</marquee></h1>";
    OccursInMiddle(before, "content", "!</marquee></h1>");
  }

  lemma FilePageMentionsFile()
    ensures Contains(FilePage, "HTTP/1.0 200") && Contains(FilePage, "file")
  {
    HeadHasStatus200("<h1>This is polavar3's file page.</h1>");
    var before := Head + "<h1>This is polavar3's ";
    assert FilePage == before + "file" + " page.</h1>";
    OccursInMiddle(before, "file", " page.</h1>");
  }

  /** `HandleConnection` on a fresh connection holding a request of at most 1000 characters. */
  method Run(req: string) returns (raised: Option<Error>, conn: FakeConnection)
    requires |req| <= ReadSize && InScope(req)
    ensures fresh(conn)
    ensures conn.toRecv == "" && conn.sent == SentBy(Route(req))
    ensures conn.isClosed == !Route(req).Fail? && raised == Raised(Route(req))
    ensures conn.trace == [Received(ReadSize)] + CallsAfterRead(Route(req))
  {
    conn := new FakeConnection(req);
    assert req[..Min(ReadSize, |req|)] == req;
    raised := HandleConnection(conn);
  }

  /** `GET /` sends the index page, which carries `HTTP/1.0 200` and `form`. */
  method TestHandleConnection() returns (sent: string, closed: bool)
    ensures sent == IndexPage && closed
    ensures Contains(sent, "HTTP/1.0 200") && Contains(sent, "form")
  {
    var req := "GET / HTTP/1.0\r\n\r\n";
    IndexScenario(req);
    var raised, conn := Run(req);
    sent, closed := conn.sent, conn.isClosed;
    IndexPageMentionsForm();
  }

  /** `GET /content` sends the content page, which carries `HTTP/1.0 200` and `content`. */
  method TestHandleConnectionContent() returns (sent: string, closed: bool)
    ensures sent == ContentPage && closed
    ensures Contains(sent, "HTTP/1.0 200") && Contains(sent, "content")
  {
    var req := "GET /content HTTP/1.0\r\n\r\n";
    ContentScenario(req);
    var raised, conn := Run(req);
    sent, closed := conn.sent, conn.isClosed;
    ContentPageMentionsContent();
  }

  /** `GET /file` sends the file page, which carries `HTTP/1.0 200` and `file`. */
  method TestHandleConnectionFile() returns (sent: string, closed: bool)
    ensures sent == FilePage && closed
    ensures Contains(sent, "HTTP/1.0 200") && Contains(sent, "file")
  {
    var req := "GET /file HTTP/1.0\r\n\r\n";
    FileScenario(req);
    var raised, conn := Run(req);
    sent, closed := conn.sent, conn.isClosed;
    FilePageMentionsFile();
  }

  /** `GET /fake` sends a page whose status line reads `HTTP/1.0 200`, not 404. */
  method TestHandleNotFound() returns (sent: string, closed: bool)
    ensures sent == NoPage && closed
    ensures Contains(sent, "HTTP/1.0 200")
  {
    var req := "GET /fake HTTP/1.0\r\n\r\n";
    NotFoundScenario(req);
    var raised, conn := Run(req);
    sent, closed := conn.sent, conn.isClosed;
    HeadHasStatus200("<h2>This page does not exist.</h2>");
  }

  /** `POST /` sends the "Hello, world." page. */
  method TestHandleConnectionPost() returns (sent: string, closed: bool)
    ensures sent == PostPage && closed
    ensures Contains(sent, "HTTP/1.0 200")
  {
    var req := "POST / HTTP/1.0\r\nContent-length: 0\r\n\r\n";
    PostIndexScenario(req);
    var raised, conn := Run(req);
    sent, closed := conn.sent, conn.isClosed;
    HeadHasStatus200("<h1>Hello, world.</h1>");
  }

  /** A request of blank lines raises `IndexError`: nothing is sent and the connection stays open. */
  method TestEmptyRequest() returns (raised: Option<Error>, sent: string, closed: bool)
    ensures raised == Some(IndexError) && sent == "" && !closed
  {
    var req := "\r\n\r\n";
    EmptyScenario(req);
    var conn;
    raised, conn := Run(req);
    sent, closed := conn.sent, conn.isClosed;
  }

  /** The lower-case GET submission raises `KeyError`: nothing is sent and the connection stays open. */
  method TestHandleSubmit() returns (raised: Option<Error>, sent: string, closed: bool)
    ensures raised == Some(KeyError("firstName")) && sent == "" && !closed
  {
    var req := "GET /submit?firstname=Bill&lastname=NyeHTTP/1.1\r\n\r\n";
    SubmitGetLowercaseScenario(req, "Bill", "NyeHTTP/1.1\r\n\r\n");
    var conn;
    raised, conn := Run(req);
    sent, closed := conn.sent, conn.isClosed;
  }

  /** The submission with an empty last name raises `KeyError` for `firstName` likewise. */
  method TestHandleSubmitNoLastName() returns (raised: Option<Error>, sent: string, closed: bool)
    ensures raised == Some(KeyError("firstName")) && sent == "" && !closed
  {
    var req := "GET /submit?firstname=Bill&lastname=" + "HTTP/1.1\r\n\r\n";
    SubmitNoLastNameScenario(req, "Bill", "HTTP/1.1\r\n\r\n");
    var conn;
    raised, conn := Run(req);
    sent, closed := conn.sent, conn.isClosed;
  }

  /** The lower-case POST submission raises `KeyError` likewise. */
  method TestHandleSubmitPost() returns (raised: Option<Error>, sent: string, closed: bool)
    ensures raised == Some(KeyError("firstName")) && sent == "" && !closed
  {
    var head, f, l := " HTTP/1.1\r\nContent-Length: 31\r\n\r\n", "Bill", "Nye";
    var req := "POST /submit" + head + "firstname=" + f + "&lastname=" + l;
    SubmitPostLowercaseScenario(head, f, l);
    var conn;
    raised, conn := Run(req);
    sent, closed := conn.sent, conn.isClosed;
  }

  /** The multipart submission raises `KeyError`: nothing is sent and the connection stays open. */
  method TestHandleSubmitMultipart() returns (raised: Option<Error>, sent: string, closed: bool)
    ensures raised == Some(KeyError("firstName")) && sent == "" && !closed
  {
    var req := "POST /submit" + MultipartHead + MultipartEnd;
    SubmitMultipartScenario(MultipartHead, MultipartEnd);
    MultipartLength();
    var conn;
    raised, conn := Run(req);
    sent, closed := conn.sent, conn.isClosed;
  }

  // `MultipartLength` bounds the request literal's length for the solver.
  lemma MultipartLength()
    ensures |"POST /submit" + MultipartHead + MultipartEnd| <= ReadSize
  {
  }

  /** A bodiless submission raises `KeyError`: nothing is sent and the connection stays open. */
  method TestHandleSubmitNoBody() returns (raised: Option<Error>, sent: string, closed: bool)
    ensures raised == Some(KeyError("firstName")) && sent == "" && !closed
  {
    var head := " HTTP/1.0\r\n\r\n";
    var req := "POST /submit" + head;
    SubmitNoBodyScenario(head);
    var conn;
    raised, conn := Run(req);
    sent, closed := conn.sent, conn.isClosed;
  }

  /** `HEAD /` sends nothing but still closes the connection. */
  method TestHeadRequest() returns (raised: Option<Error>, sent: string, closed: bool)
    ensures raised == None && sent == "" && closed
  {
    var req := "HEAD / HTTP/1.0\r\n\r\n";
    HeadScenario(req);
    var conn;
    raised, conn := Run(req);
    sent, closed := conn.sent, conn.isClosed;
  }
}
