# cse491-serverz in Dafny

A model of a small teaching web server (polavar3/cse491-serverz), with
proofs about it. Its core is `handle_connection` in `server.py`. It reads
up to 1000 characters from a connection and splits all of that text on
single spaces. The first piece is the method and the second the target,
which can run on into later lines when the Request-Line has no version.
It routes on the method and the path of the target. GET serves
fixed pages for `/`, `/content`, `/file`, `/image` and `/form`, and a
"does not exist" page with status 200 for any other path. `/submit`
greets the `firstName` and `lastName` fields of the query, on GET, or of
the request's last line, on POST. Any other POST gets a "Hello, world."
page, and any other method gets no answer. After a handler has sent its
one page, the connection is closed. An exception leaves the connection
open with nothing sent: `IndexError` when the request has no space,
`KeyError` when a name field is missing or has an empty value. The connection is the test
suite's `FakeConnection`, modelled as a class whose methods update its
buffer, its sent text and its closed flag. The model also covers the image
application's rule that picks an image's content type from its filename.

Files and modules:

- `wrappers.dfy` (`Wrappers`): `Option`.
- `text.dfy` (`Text`): the Python 2 string operations the code uses, namely
  `str.split(sep)`, `str.splitlines()`, `str.lower()`, `s.split(sep)[-1]` and
  `sub in s`. `split` and `splitlines` have round trips, the last pieces and
  the last line are characterised for every text, and the rest have laws.
- `url.dfy` (`Url`): `urlparse(t).path` and `.query`, and `parse_qs`.
- `connection.dfy` (`Connection`): `FakeConnection`, with a ghost `trace`
  of the calls made on it.
- `server.dfy` (`Server`): the pages, the pure routing function `Route` that
  states what `handle_connection` does, and the handlers,
  `RouteRequest` and `HandleConnection` as methods on a `FakeConnection`.
  The handlers are proved against their pages and `Submit`, `RouteRequest`
  against `Dispatch`, and `HandleConnection` against `Route`.
- `server_properties.dfy` (`ServerProperties`): lemmas about `Route` and
  `Submit` for all requests.
- `server_tests.dfy` (`ServerTests`): the test suite's scenarios, run on a
  fresh `FakeConnection`.
- `imageapp.dfy` (`ImageApp`): the content-type rule of `image_raw`.

An outcome of routing is `Respond(page)` (one `send(page)`, then
`close()`), `NoResponse` (only `close()`) or `Fail(error)` (the exception
escapes before anything is sent or closed). `HandleConnection` returns the
raised exception as `Option<Error>`.

## Model

| member | source | states |
|---|---|---|
| Connection.FakeConnection.constructor | test_server.py:8-11 | a fresh connection holds the given text to receive, has sent nothing and is open |
| Connection.FakeConnection.Recv | test_server.py:13-20 | returns the first min(n, remaining) characters and removes them; returned text followed by the new buffer is the old buffer; for n at least the remaining length, returns all and empties it; sent text and closed flag unchanged |
| Connection.FakeConnection.Send | test_server.py:22-23 | appends the text to what was sent; buffer and closed flag unchanged |
| Connection.FakeConnection.Close | test_server.py:25-26 | sets the closed flag and changes nothing else |
| Connection.CloseTwice | test_server.py:25-26 | closing twice leaves the buffer and the sent text as they were and the connection closed, as closing once does |
| Server.HandleIndex | server.py:70-82 | sends exactly the index page once and changes nothing else |
| Server.HandleContent | server.py:84-88 | sends exactly the content page once and changes nothing else |
| Server.HandleFile | server.py:90-94 | sends exactly the file page once and changes nothing else |
| Server.HandleImage | server.py:96-100 | sends exactly the image page once and changes nothing else |
| Server.HandleForm | server.py:102-116 | sends exactly the form page once and changes nothing else |
| Server.HandleSubmit | server.py:118-133 | query from the URL on GET and from the last line on POST; sends the greeting once, or raises the KeyError of the missing name and leaves the connection untouched |
| Server.HandleNoPage | server.py:135-139 | sends exactly the "does not exist" page once and changes nothing else |
| Server.HandlePost | server.py:141-145 | sends exactly the "Hello, world." page once, whatever was received |
| Server.SubmitQuery | server.py:119-122 | the query of the submit handler: the URL's on GET, the last line of the received text on POST; `GetSubmitRoute` and `PostRoutes` state which route uses which |
| Server.Submit | server.py:124-133 | `SubmitGreets` gives the outcome in terms of the first binding pairs and `SubmitSendsOrRaisesKeyError` bounds it to a greeting or a KeyError |
| Server.Dispatch | server.py:38-66 | the if/elif chain on the method and the path; `DispatchNeverIndexError`, `DispatchStartsWithHead` and `DispatchOffSubmit` state what every branch shares |
| Server.Route | server.py:34-68 | `handle_connection` between the read and the close; `IndexErrorIffNoSpace`, `RouteOfLine`, `GetRoutes` and `QueryIgnored` state what it does for the received text |
| Server.RouteRequest | server.py:39-68 | the if/elif routing: what is sent, whether the connection ends closed, the calls made and the exception raised are those of the routing outcome for the method and parsed target |
| Server.HandleConnection | server.py:31-68 | calls recv once with 1000; the rest of the input stays in the buffer; the sent text, the closed state, the calls made and the exception depend only on the first 1000 characters, as `Route` states |
| ServerProperties.RequestLine | server.py:34-35 | a received text `m SP t rest`, rest empty or starting with a space, splits into method m and target t |
| ServerProperties.RequestParts | server.py:34-37 | with a space present, the method is the text before the first space and the target runs up to the next space or the end |
| ServerProperties.RouteOfLine | server.py:34-37 | a request in scope is routed by its method and parsed target alone |
| ServerProperties.IndexErrorIffNoSpace | server.py:34-35 | the outcome is IndexError if and only if the received text has no space |
| ServerProperties.DispatchNeverIndexError | server.py:38-66 | once the request line has a method and a target, no handler outcome is IndexError (the `host` lookup catches its own) |
| ServerProperties.UrlParseQuery | server.py:36-37 | the path is the text before `?` and the query the text after; without `?` the query is empty |
| ServerProperties.GetRoutes | server.py:47-56 | GET of `/`, `/content`, `/file`, `/image` and `/form` sends that handler's page |
| ServerProperties.GetMissingRoute | server.py:59-60 | GET of any other path but `/submit` sends the "does not exist" page, with status 200 |
| ServerProperties.GetSubmitRoute | server.py:57-58 | GET of `/submit` is answered by decoding the URL query |
| ServerProperties.PostRoutes | server.py:62-66 | POST of `/submit` decodes the last line of the received text; any other POST sends the "Hello, world." page |
| ServerProperties.OtherMethodsSendNothing | server.py:39-68 | a method other than exactly `GET` or `POST` sends nothing and the connection is still closed |
| ServerProperties.QueryIgnored | server.py:36-60 | off `/submit`, adding a query to the target changes nothing in the outcome |
| ServerProperties.DispatchOffSubmit | server.py:39-66 | off `/submit`, routing reads only the method and the path |
| ServerProperties.PagesStartWithHead | server.py:70-145 | every page sent starts with `HTTP/1.0 200 OK`, the `Content-type: text/html` header and the blank line |
| ServerProperties.DispatchStartsWithHead | server.py:70-145 | every page any route sends, the greeting included, starts with the head |
| ServerProperties.SubmitSendsOrRaisesKeyError | server.py:124-133 | the submit handler either sends a page or raises KeyError, never anything else |
| ServerProperties.SubmitGreets | server.py:124-133 | greets with the first non-empty values of `firstName` and `lastName`; a missing or empty first name raises KeyError("firstName"), then a missing or empty last name KeyError("lastName") |
| ServerProperties.SubmitOfForm | server.py:118-133 | the query `firstName=F&lastName=L` is answered with `<p>Hello Mr. F L.</p>` after the head |
| ServerProperties.LowercaseFormRaises | server.py:124-125 | field names match case-sensitively: `firstname=F&lastname=L` raises KeyError("firstName") |
| ServerProperties.GetLowercaseSubmit | server.py:57-58 | a GET of `/submit` with lower-case field names raises KeyError("firstName") |
| ServerProperties.PostLowercaseSubmit | server.py:62-64 | a POST of `/submit` whose last line has lower-case field names raises KeyError("firstName") |
| ServerProperties.PostSubmitRoute | server.py:121-124 | a POST of `/submit` is answered from the body on the received text's last line |
| ServerProperties.PostSubmitBlankLastLine | server.py:62-64 | a POST of `/submit` whose text ends in a blank line, such as one with headers and no body, has a blank last line and raises KeyError("firstName") |
| ServerProperties.PostBlankLastLine | server.py:122 | the last line of such a POST is blank |
| ServerProperties.PostSubmitNoPair | server.py:118-125 | a POST of `/submit` whose last line holds no `=` and no `&` raises KeyError("firstName") |
| ServerProperties.NoPairRaises | server.py:124-125 | a query of one piece without `=` binds no name, so `firstName` is missing |
| ServerTests.IndexScenario | test_server.py:30-33 | `GET / HTTP/1.0` is answered with the index page |
| ServerTests.ContentScenario | test_server.py:38-41 | `GET /content HTTP/1.0` is answered with the content page |
| ServerTests.FileScenario | test_server.py:46-49 | `GET /file HTTP/1.0` is answered with the file page |
| ServerTests.NotFoundScenario | test_server.py:96-99 | `GET /fake` is answered with the "does not exist" page, status 200 |
| ServerTests.PostIndexScenario | test_server.py:108-112 | `POST /` is answered with the "Hello, world." page |
| ServerTests.EmptyScenario | test_server.py:162-165 | a request of blank lines raises IndexError |
| ServerTests.HeadScenario | server.py:39-68 | `HEAD /` gets no answer |
| ServerTests.SubmitGetLowercaseScenario | test_server.py:69-73 | the suite's GET submission, with lower-case names and no space before the version, raises KeyError("firstName") |
| ServerTests.SubmitPostLowercaseScenario | test_server.py:117-122 | the suite's POST submission, with lower-case names, raises KeyError("firstName") |
| ServerTests.SubmitNoLastNameScenario | test_server.py:87-89 | the suite's GET submission with an empty last name, whose version runs into the `lastname` value, raises KeyError("firstName") |
| ServerTests.SubmitNoBodyScenario | server.py:118-125 | `POST /submit HTTP/1.0` followed by a blank line and no body raises KeyError("firstName") |
| ServerTests.SubmitMultipartScenario | test_server.py:127-134 | the suite's multipart POST submission, whose last line is the closing boundary, raises KeyError("firstName") |
| ServerTests.AllInertText | server.py:122-124 | text with no line break and none of `%`, `+`, `;`, `=`, `&` is one line and a plain query without pairs |
| ServerTests.HeadHasStatus200 | server.py:71-72 | every page after the head contains `HTTP/1.0 200` |
| ServerTests.IndexPageMentionsForm | test_server.py:35 | the index page contains `HTTP/1.0 200` and `form` |
| ServerTests.ContentPageMentionsContent | test_server.py:43 | the content page contains `HTTP/1.0 200` and `content` |
| ServerTests.FilePageMentionsFile | test_server.py:51 | the file page contains `HTTP/1.0 200` and `file` |
| ServerTests.Run | test_server.py:31-33 | `handle_connection` on a fresh connection: buffer emptied, and sent text, closed state, calls and exception as `Route` states |
| ServerTests.TestHandleConnection | test_server.py:30-36 | the sent text is the index page, holds `HTTP/1.0 200` and `form`, and the connection is closed |
| ServerTests.TestHandleConnectionContent | test_server.py:38-44 | the sent text is the content page, holds `HTTP/1.0 200` and `content`, and the connection is closed |
| ServerTests.TestHandleConnectionFile | test_server.py:46-52 | the sent text is the file page, holds `HTTP/1.0 200` and `file`, and the connection is closed |
| ServerTests.TestHandleNotFound | test_server.py:96-102 | the sent text is the "does not exist" page and holds `HTTP/1.0 200` |
| ServerTests.TestHandleConnectionPost | test_server.py:108-115 | the sent text is the "Hello, world." page |
| ServerTests.TestEmptyRequest | test_server.py:162-168 | IndexError is raised, nothing is sent and the connection stays open |
| ServerTests.TestHandleSubmit | test_server.py:69-76 | KeyError("firstName") is raised, nothing is sent and the connection stays open |
| ServerTests.TestHandleSubmitPost | test_server.py:117-125 | KeyError("firstName") is raised, nothing is sent and the connection stays open |
| ServerTests.TestHandleSubmitNoLastName | test_server.py:87-94 | KeyError("firstName") is raised, nothing is sent and the connection stays open |
| ServerTests.TestHandleSubmitNoBody | server.py:118-133 | for the bodiless POST of `/submit`, KeyError("firstName") is raised, nothing is sent and the connection stays open |
| ServerTests.TestHandleSubmitMultipart | test_server.py:127-139 | KeyError("firstName") is raised, nothing is sent and the connection stays open |
| ServerTests.TestHeadRequest | server.py:39-68 | nothing is sent, no exception, and the connection is closed |
| Text.IndexOf | server.py:34 | the index found lies inside the text and holds the character |
| Text.IndexOfFirst | server.py:34 | no earlier position holds the character: the index is that of its first occurrence |
| Text.Split | server.py:34 | `s.split(sep)` has at least one piece |
| Text.SplitPiecesFree | server.py:34 | no piece of `s.split(sep)` contains the separator |
| Text.SplitJoin | server.py:34 | splitting the join of separator-free pieces gives the pieces back |
| Text.JoinSplit | server.py:34 | joining the pieces of a split gives the text back |
| Text.SplitCount | server.py:34-35 | the split has two or more pieces exactly when the separator occurs |
| Text.SplitLines | server.py:122 | `splitlines()` is empty exactly for empty text; `SplitLinesJoin` is its round trip and `LastLineFinal` fixes its last line |
| Text.SplitLinesJoin | server.py:122 | round trip: `splitlines()` of break-free lines, each ended by `\n`, gives the lines back |
| Text.SplitLinesNoBreak | server.py:122 | no line of `splitlines()` holds a line break |
| Text.LastLine | server.py:122 | `splitlines()[-1]` of non-empty text; `LastLineFinal` and `FinalLineUnique` state which line that is for every such text |
| Text.LastLineFinal | server.py:122 | for every non-empty text, the last line is the final line of the text once its one trailing `\r\n`, `\n` or `\r` is dropped: a break-free suffix that is all of that text or follows a line break |
| Text.FinalLineUnique | server.py:122 | a text has only one final line, so `LastLineFinal` decides the last line |
| Text.LastLineBlank | server.py:122 | when the text still ends in a line break after its final terminator is dropped, the last line is blank |
| Text.DropTerminatorAppend | server.py:122 | text put in front of two or more characters does not change which terminator is dropped |
| Text.LastLineIsBody | server.py:122 | text after a final line break, with no break itself, is the last line |
| Text.Lower | imageapp/root.py:75 | `lower()` keeps the length and lower-cases each ASCII letter, leaving every other character |
| Text.LowerAppend | imageapp/root.py:75 | `lower()` of a concatenation is the concatenation of the lowered parts |
| Text.LastPiece | imageapp/root.py:75 | `split(sep)[-1]`; `LastPieceSuffix` and `LastPieceOfSplit` state what it is |
| Text.LastPieceSuffix | imageapp/root.py:75 | `split(sep)[-1]` is the longest separator-free suffix: the whole text when there is no separator, otherwise what follows the last one |
| Text.LastPieceOfSplit | imageapp/root.py:75 | the last piece, found by moving past the first separator until none is left, is the last element of `split(sep)` |
| Text.SplitLastSuffix | imageapp/root.py:75 | the last element of `split(sep)` is the longest separator-free suffix of the text |
| Text.LastSuffixUnique | imageapp/root.py:75 | a text has only one longest separator-free suffix, so two descriptions of `split(sep)[-1]` agree |
| Text.SplitLast | imageapp/root.py:75 | the last piece of `p + sep + e`, e free of the separator, is e |
| Text.Contains | test_server.py:35 | `sub in s`; `OccursInMiddle`, `ContainsWithin` and `HeadHasStatus200` state when it holds |
| Url.UrlParse | server.py:36-37 | the path holds no `?`; with `?` the target is path, `?`, query; without, the path is the whole target and the query empty |
| Url.Fields | server.py:124 | the pairs kept have non-empty values and names free of `=`, and there are no more of them than pieces |
| Url.ParseQsl | server.py:124 | the pairs `parse_qs` keeps, one per `&`-piece that binds a non-empty value; `Fields` and `ParseQsLookup` state them |
| Url.Collect | server.py:124 | `parse_qs`'s loop that groups the kept values by name; `CollectKey` states its result |
| Url.CollectKey | server.py:124 | after `parse_qs`'s loop a name is present exactly when it was before or a pair gives it a value, and its list is the old one followed by those values in order |
| Url.ParseQs | server.py:124 | every list in the dictionary holds at least one value |
| Url.FirstValue | server.py:125-126 | the reading of `data[key][0]`: none exactly when no pair binds the key, else the value of the first pair that does |
| Url.FieldsValues | server.py:124-126 | the values kept for a key start with the first binding pair's value, and exist exactly when one binds it |
| Url.ParseQsLookup | server.py:124-126 | `parse_qs(q)` has the key exactly when some pair gives it a non-empty value, and its first value is that of the first such pair |
| ImageApp.Extension | imageapp/root.py:75 | the extension is a dot-free suffix of the name, following a dot, or the whole name when there is none |
| ImageApp.ContentType | imageapp/root.py:75-80 | exactly one of `image/jpeg`, `image/tiff`, `image/png` is chosen |
| ImageApp.ImageRaw | imageapp/root.py:75-81 | the bytes are returned unchanged, with the content type chosen from the name |
| ImageApp.JpegIff | imageapp/root.py:75-76 | JPEG exactly when the extension reads `jpg` or `jpeg` in any case |
| ImageApp.TiffIff | imageapp/root.py:77-78 | TIFF exactly when the extension reads `tif` or `tiff` in any case |
| ImageApp.PngIff | imageapp/root.py:79-80 | PNG exactly for every other extension, the empty one included |
| ImageApp.LastSegmentDecides | imageapp/root.py:75 | only the segment after the last dot decides the type |
| ImageApp.ExtensionOfLower | imageapp/root.py:75 | the extension of the lower-cased name is the lower-cased extension |
| ImageApp.ContentTypeIgnoresCase | imageapp/root.py:75-80 | lower-casing the whole name does not change the type |
| ImageApp.ExampleDoubleExtension | imageapp/root.py:75 | `a.jpg.png` is PNG |
| ImageApp.ExampleUpperCaseJpeg | imageapp/root.py:75-76 | `x.tar.JPEG` is JPEG |
| ImageApp.ExampleTrailingDot | imageapp/root.py:79-80 | `photo.` has the empty extension and is PNG |
| ImageApp.ExampleNoDot | imageapp/root.py:75-78 | a name without a dot is its own extension: `jpg` is JPEG, `TIFF` is TIFF |

## Left out

- `main()` (server.py:12-29): it creates a socket, looks up the host name, binds a random port and loops forever accepting. That is network I/O and randomness, and nothing is left to state once they are removed.
- The `host` extraction (server.py:41-45): its `IndexError` is caught and its value is never used. The model treats it as a no-op.
- Server.HandleConnection: the model requires the request to be "in scope" (`InScope`), which the source does not demand. The target must be empty or start with a single `/`, with no `#` and no `;`. A query that `/submit` decodes must have no `%`, `+` or `;`. Outside these, `urlparse`'s scheme, authority, parameter and fragment handling and `parse_qs`'s percent- and plus-decoding and `;` separators are not modelled. `Server.Route`, `Server.Dispatch`, `Server.RouteRequest`, `Server.HandleSubmit`, `Server.Submit`, `Url.ParseQs` and `Url.ParseQsl` carry the same restriction.
- Connection.FakeConnection.Recv: `n` is a natural number; what Python slicing does with a negative `n` is not modelled (the server only uses 1000).
- The trace of calls on a `FakeConnection` is a ghost field added to state "recv once, then one send, then close". The Python class has no such field.
- Server.RouteRequest: the routing half of `handle_connection` is a method of its own, so that `HandleConnection` stays short; together they do the same steps in the same order.
- Text.SplitLines: line breaks are `\r\n`, `\n` and `\r`, the ones Python 2's `str.splitlines` recognises.
- Test assertions that the server code does not meet are not proved. The scenarios prove what the code does instead:
  - a 404 for unknown paths (test_server.py:96-102, 141-149) and for the request of blank lines (162-168);
  - `form` in the reply to POST of `/` (108-115);
  - a greeting from the submit tests, which write `firstname`/`lastname` in lower case (69-94, 117-139, 151-160);
  - the exact image page text, which differs from `handle_image`'s (56-67).
- The submit test whose query holds `%` (test_server.py:78-85) and the 4000-character request (151-160) are left out: the first falls outside the plain-query restriction and the second is impractically long to write out.
- The rest of `imageapp/root.py`: the quixote directory and export routing, the template rendering, the file reads, the request and response objects and the image store. `ImageRaw` takes the looked-up image as a parameter and returns the content type instead of setting it on a response object.
- `imageapp/__init__.py` (quixote publisher setup and a file read) and `simple_app.py` (a wsgiref wrapper) are not part of this model.
