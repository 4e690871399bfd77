/**
 * The request handling of the single-file HTTP/1.0 server: one read of at
 * most 1000 characters, a split of all of that text on single spaces whose
 * first piece is the method and second the target (so a target can run on
 * into later lines when the Request-Line of section 5.1 of RFC 1945 has no
 * version), routing on the method and then on the target's path, one fixed
 * response per page, and a close.
 *
 * `Route` is the pure reading of everything between the read and the close;
 * `HandleConnection` and the `Handle*` methods do the same step by step on a
 * `FakeConnection` and are proved to agree with it.
 */
module Server {
  import opened Wrappers
  import opened Text
  import opened Url
  import opened Connection

  /** The Python exceptions the request handling can raise. */
  datatype Error = IndexError | KeyError(key: string)

  /**
   * What handling one request does before the close: send one page, send
   * nothing (an unrouted method), or raise.
   */
  datatype Outcome = Respond(page: string) | NoResponse | Fail(error: Error)

  /** The one `recv` reads at most this many characters. */
  const ReadSize: nat := 1000

  /** The Status-Line of a success (section 6.1 of RFC 1945). */
  const StatusLine := "HTTP/1.0 200 OK\r\n"

  /** The Status-Line, the one header, and the blank line that ends the headers. */
  const Head := StatusLine + "Content-type: text/html\r\n\r\n"

  const IndexBody :=
    "<body bgcolor = \"green\">"
    + "<h1>Hello, world.</h1>"
    + "This is polavar3's Web server."
    + "<br>"
    + "<a href=\"/content\">Content</a><br>"
    + "<a href=\"/file\">File</a><br>"
    + "<a href=\"/image\">Image</a><br>"
    + "<a href=\"/form\">Form</a><br>"
    + "</body>"

  const FormBody :=
    "<form action=\"/submit\" method=\"GET\">"
    + "First Name:<input type=\"text\" name=\"firstName\">"
    + "Last Name:<input type=\"text\" name=\"lastName\">"
    + "<input type=\"submit\" value=\"Submit Get\">"
    + "</form>\r\n"
    + "<form action=\"/submit\" method=\"POST\">"
    + "First Name:<input type=\"text\" name=\"firstName\">"
    + "Last Name:<input type=\"text\" name=\"lastName\">"
    + "<input type=\"submit\" value=\"Submit Post\">"
    + "</form>\r\n"

  /** The pages of `handle_index`, `handle_content`, `handle_file`, `handle_image`, `handle_form`, `handle_no_page` and `handle_post`. */
  const IndexPage := Head + IndexBody
  const ContentPage := Head + "<h1><marquee>Look at all this content!</marquee></h1>"
  const FilePage := Head + "<h1>This is polavar3's file page.</h1>"
  const ImagePage := Head + "<h1>This is polavar3's image page.</h1>"
  const FormPage := Head + FormBody
  const NoPage := Head + "<h2>This page does not exist.</h2>"
  const PostPage := Head + "<h1>Hello, world.</h1>"

  /** The greeting page for a first and a last name. */
  function SubmitPage(firstName: string, lastName: string): string
  {
    Head + ("<p>" + "Hello Mr. " + firstName + " " + lastName + "." + "</p>")
  }

  /** The page `handle_submit` builds from its greeting is the greeting page. */
  lemma GreetingPage(firstName: string, lastName: string)
    ensures Head + "<p>" + ("Hello Mr. " + firstName + " " + lastName + ".") + "</p>" == SubmitPage(firstName, lastName)
  {
  }

  /** Where `handle_submit` takes its query from: the URL's query on GET, the last line of the request on POST. */
  function SubmitQuery(urlInfo: UrlInfo, info: string, reqType: string): string
    requires reqType == "GET" || (reqType == "POST" && info != [])
  {
    if reqType == "GET" then urlInfo.query else LastLine(info)
  }

  /** `handle_submit` once its query is chosen: look up both names, then greet. */
  function Submit(query: string): Outcome
    requires PlainQuery(query)
  {
    var data := ParseQs(query);
    if "firstName" !in data then Fail(KeyError("firstName"))
    else if "lastName" !in data then Fail(KeyError("lastName"))
    else Respond(SubmitPage(data["firstName"][0], data["lastName"][0]))
  }

  /**
   * The routes this model covers, for method `m` and parsed target `urlInfo`:
   * on the routes that decode a query, a plain query.
   */
  predicate RouteInScope(m: string, urlInfo: UrlInfo, info: string) {
    && (m == "GET" && urlInfo.path == "/submit" ==> PlainQuery(urlInfo.query))
    && (m == "POST" && urlInfo.path == "/submit" ==> info != [] && PlainQuery(LastLine(info)))
  }

  /** The requests this model covers: a plain target, and a route in scope. */
  predicate LineInScope(m: string, target: string, info: string) {
    PlainTarget(target) && RouteInScope(m, UrlParse(target), info)
  }

  /** The received texts this model covers. */
  predicate InScope(info: string) {
    var request := Split(info, ' ');
    |request| >= 2 ==> LineInScope(request[0], request[1], info)
  }

  /** The routing of `handle_connection`: on the method, case-sensitively, then on the path. */
  function Dispatch(m: string, urlInfo: UrlInfo, info: string): Outcome
    requires RouteInScope(m, urlInfo, info)
  {
    var urlPath := urlInfo.path;
    if m == "GET" then
      if urlPath == "/" then Respond(IndexPage)
      else if urlPath == "/content" then Respond(ContentPage)
      else if urlPath == "/file" then Respond(FilePage)
      else if urlPath == "/image" then Respond(ImagePage)
      else if urlPath == "/form" then Respond(FormPage)
      else if urlPath == "/submit" then Submit(SubmitQuery(urlInfo, info, "GET"))
      else Respond(NoPage)
    else if m == "POST" then
      if urlPath == "/submit" then Submit(SubmitQuery(urlInfo, info, "POST"))
      else Respond(PostPage)
    else NoResponse
  }

  /** What `handle_connection` does with the received text `info`, up to the close. */
  function Route(info: string): Outcome
    requires InScope(info)
  {
    var request := Split(info, ' ');
    if |request| < 2 then Fail(IndexError)
    else Dispatch(request[0], UrlParse(request[1]), info)
  }

  /** The text an outcome sends. */
  function SentBy(o: Outcome): string
  {
    if o.Respond? then o.page else ""
  }

  /** The calls an outcome makes on the connection after the read. */
  function CallsAfterRead(o: Outcome): seq<Event>
  {
    match o
    case Respond(page) => [Sent(page), Closed]
    case NoResponse => [Closed]
    case Fail(_) => []
  }

  /** A `send` and then a `close` make the calls a response makes. */
  lemma SendThenClose(t: seq<Event>, page: string)
    ensures t + [Sent(page)] + [Closed] == t + CallsAfterRead(Respond(page))
  {
  }

  /** The exception an outcome raises, if any. */
  function Raised(o: Outcome): Option<Error>
  {
    if o.Fail? then Some(o.error) else None
  }

  /** The connection changed only by one `send(page)`. */
  twostate predicate SendsOnly(conn: FakeConnection, page: string)
    reads conn
  {
    && conn.sent == old(conn.sent) + page
    && conn.toRecv == old(conn.toRecv)
    && conn.isClosed == old(conn.isClosed)
    && conn.trace == old(conn.trace) + [Sent(page)]
  }

  method HandleIndex(conn: FakeConnection, urlInfo: UrlInfo)
    modifies conn
    ensures SendsOnly(conn, IndexPage)
  {
    conn.Send(IndexPage);
  }

  method HandleContent(conn: FakeConnection, urlInfo: UrlInfo)
    modifies conn
    ensures SendsOnly(conn, ContentPage)
  {
    conn.Send(ContentPage);
  }

  method HandleFile(conn: FakeConnection, urlInfo: UrlInfo)
    modifies conn
    ensures SendsOnly(conn, FilePage)
  {
    conn.Send(FilePage);
  }

  method HandleImage(conn: FakeConnection, urlInfo: UrlInfo)
    modifies conn
    ensures SendsOnly(conn, ImagePage)
  {
    conn.Send(ImagePage);
  }

  method HandleForm(conn: FakeConnection, urlInfo: UrlInfo)
    modifies conn
    ensures SendsOnly(conn, FormPage)
  {
    conn.Send(FormPage);
  }

  method HandleNoPage(conn: FakeConnection, urlInfo: UrlInfo)
    modifies conn
    ensures SendsOnly(conn, NoPage)
  {
    conn.Send(NoPage);
  }

  /** `handle_post(conn, info)`: the received text is passed and not used. */
  method HandlePost(conn: FakeConnection, info: string)
    modifies conn
    ensures SendsOnly(conn, PostPage)
  {
    conn.Send(PostPage);
  }

  /**
   * Decodes the form fields and sends the greeting; a missing name raises
   * `KeyError` before anything is sent.
   */
  method HandleSubmit(conn: FakeConnection, urlInfo: UrlInfo, info: string, reqType: string)
    returns (raised: Option<Error>)
    requires reqType == "GET" || reqType == "POST"
    requires reqType == "GET" ==> PlainQuery(urlInfo.query)
    requires reqType == "POST" ==> info != [] && PlainQuery(LastLine(info))
    modifies conn
    ensures var o := Submit(SubmitQuery(urlInfo, info, reqType));
      && raised == Raised(o)
      && (o.Respond? ==> SendsOnly(conn, o.page))
      && (o.Fail? ==> unchanged(conn))
  {
    var query: string;
    if reqType == "GET" {
      query := urlInfo.query;
    } else {
      query := LastLine(info);
    }
    var data := ParseQs(query);
    if "firstName" !in data {
      return Some(KeyError("firstName"));
    }
    var firstName := data["firstName"][0];
    if "lastName" !in data {
      return Some(KeyError("lastName"));
    }
    var lastName := data["lastName"][0];
    var greeting := "Hello Mr. " + firstName + " " + lastName + ".";
    var toSend := Head + "<p>" + greeting + "</p>";
    GreetingPage(firstName, lastName);
    conn.Send(toSend);
    raised := None;
  }

  /**
   * The routing part of `handle_connection`, from the method and the parsed
   * target to the handler's one `send` and the `close`.
   */
  method RouteRequest(conn: FakeConnection, m: string, urlInfo: UrlInfo, info: string)
    returns (raised: Option<Error>)
    requires RouteInScope(m, urlInfo, info)
    modifies conn
    ensures conn.toRecv == old(conn.toRecv)
    ensures conn.sent == old(conn.sent) + SentBy(Dispatch(m, urlInfo, info))
    ensures conn.isClosed == (old(conn.isClosed) || !Dispatch(m, urlInfo, info).Fail?)
    ensures conn.trace == old(conn.trace) + CallsAfterRead(Dispatch(m, urlInfo, info))
    ensures raised == Raised(Dispatch(m, urlInfo, info))
  {
    raised := None;
    ghost var o := Dispatch(m, urlInfo, info);
    ghost var before := conn.trace;
    var urlPath := urlInfo.path;
    if m == "GET" {
      if urlPath == "/" {
        HandleIndex(conn, urlInfo);
      } else if urlPath == "/content" {
        HandleContent(conn, urlInfo);
      } else if urlPath == "/file" {
        HandleFile(conn, urlInfo);
      } else if urlPath == "/image" {
        HandleImage(conn, urlInfo);
      } else if urlPath == "/form" {
        HandleForm(conn, urlInfo);
      } else if urlPath == "/submit" {
        raised := HandleSubmit(conn, urlInfo, info, "GET");
        if raised.Some? {
          return;
        }
      } else {
        HandleNoPage(conn, urlInfo);
      }
    } else if m == "POST" {
      if urlPath == "/submit" {
        raised := HandleSubmit(conn, urlInfo, info, "POST");
        if raised.Some? {
          return;
        }
      } else {
        HandlePost(conn, info);
      }
    }
    if o.Respond? {
      SendThenClose(before, o.page);
    }
    conn.Close();
  }

  /**
   * `handle_connection(conn)`: one `recv(1000)`, then the route's one `send`
   * and the `close`; an exception leaves the connection open with nothing sent.
   */
  method HandleConnection(conn: FakeConnection) returns (raised: Option<Error>)
    requires InScope(conn.toRecv[..Min(ReadSize, |conn.toRecv|)])
    modifies conn
    ensures var info := old(conn.toRecv)[..Min(ReadSize, |old(conn.toRecv)|)];
      conn.toRecv == old(conn.toRecv)[|info|..]
    ensures var info := old(conn.toRecv)[..Min(ReadSize, |old(conn.toRecv)|)];
      conn.sent == old(conn.sent) + SentBy(Route(info))
    ensures var info := old(conn.toRecv)[..Min(ReadSize, |old(conn.toRecv)|)];
      conn.isClosed == (old(conn.isClosed) || !Route(info).Fail?)
    ensures var info := old(conn.toRecv)[..Min(ReadSize, |old(conn.toRecv)|)];
      conn.trace == old(conn.trace) + [Received(ReadSize)] + CallsAfterRead(Route(info))
    ensures var info := old(conn.toRecv)[..Min(ReadSize, |old(conn.toRecv)|)];
      raised == Raised(Route(info))
  {
    var info := conn.Recv(ReadSize);

    var request := Split(info, ' ');
    if |request| < 2 {
      return Some(IndexError);
    }
    var urlRequest := request[1];
    var urlInfo := UrlParse(urlRequest);
    raised := RouteRequest(conn, request[0], urlInfo, info);
  }
}
