/**
 * The two routes that touch the downloads directory: `download` (app.py:85-142),
 * which extracts, selects a format, downloads and reserves the file with a
 * marker, and `download_file` (app.py:144-150), which serves the file and
 * releases the marker. Extraction and the download itself are foreign calls and
 * arrive as inputs.
 */
module Delivery {
  import opened Wrappers
  import opened Selection
  import opened Folder

  /** The form fields of a POST to /download that the route reads. */
  datatype Request = Request(quality: Option<string>, cookiesFilename: Option<string>)

  /** `request.form.get('quality', 'best')`. */
  function QualityOf(req: Request): string {
    req.quality.GetOr("best")
  }

  /** `if cookies_file:`: an uploaded file part is truthy when its file name is not empty. */
  predicate CookiesGiven(req: Request) {
    req.cookiesFilename.Some? && req.cookiesFilename.value != ""
  }

  /** What the download collaborator returned for the chosen format, or the text of what it raised. */
  datatype FetchResult = Fetched(title: string, ext: string) | FetchFailed(detail: string)

  /** The error messages the route renders on index.html. */
  datatype Message = MissingCookies | Unavailable | ErrorOccurred(detail: string)

  function Text(m: Message): string {
    match m
    case MissingCookies => "Please upload a cookies.txt file."
    case Unavailable => "Invalid URL or the video is unavailable."
    case ErrorOccurred(detail) => "An error occurred: " + detail
  }

  /** The page the route renders: index.html with an error, or download_complete.html. */
  datatype Page = IndexPage(error: Message) | DownloadComplete(videoName: string)

  /** `f"{result['title']}.{result['ext']}"`, the name that is reserved and served. */
  function VideoName(title: string, ext: string): string {
    title + "." + ext
  }

  /** The quote `repr` uses for a string: double quotes only when it holds a `'` and no `"`. */
  function ReprQuote(s: string): char {
    if '\'' in s && '"' !in s then '"' else '\''
  }

  /** One character as `repr` writes it between quotes `q`. */
  function EscapeChar(c: char, q: char): string {
    if c == '\\' then "\\\\"
    else if c == q then ['\\', q]
    else if c == '\n' then "\\n"
    else if c == '\r' then "\\r"
    else if c == '\t' then "\\t"
    else [c]
  }

  /** The characters `repr` escapes when the quote is `q`. */
  predicate Plain(c: char, q: char) {
    c != '\\' && c != q && c != '\n' && c != '\r' && c != '\t'
  }

  function Escape(s: string, q: char): string
    decreases |s|
  {
    if s == [] then [] else EscapeChar(s[0], q) + Escape(s[1..], q)
  }

  /** What the escape `\c` stands for in a Python string literal; an unknown escape keeps its backslash. */
  function EscapeMeaning(c: char): string {
    if c == 'n' then "\n"
    else if c == 'r' then "\r"
    else if c == 't' then "\t"
    else if c == '\\' || c == '\'' || c == '"' then [c]
    else ['\\', c]
  }

  /**
   * Reads the body of a Python string literal opened with the quote `q`, up to
   * the first quote that is not escaped: the text it denotes and what follows the
   * closing quote, or None when the literal is never closed.
   */
  function ReadBody(t: string, q: char): Option<(string, string)>
    decreases |t|
  {
    if t == [] then None
    else if t[0] == q then Some(([], t[1..]))
    else if t[0] == '\\' then
      if |t| < 2 then None
      else match ReadBody(t[2..], q)
        case None => None
        case Some(p) => Some((EscapeMeaning(t[1]) + p.0, p.1))
    else match ReadBody(t[1..], q)
      case None => None
      case Some(p) => Some(([t[0]] + p.0, p.1))
  }

  /** The string a whole Python string literal denotes, or None when `t` is not exactly one literal. */
  function ReadLiteral(t: string): Option<string> {
    if t != [] && (t[0] == '\'' || t[0] == '"') then
      match ReadBody(t[1..], t[0])
      case Some(p) => if p.1 == [] then Some(p.0) else None
      case None => None
    else None
  }

  /** Reading an escaped string back stops at the first unescaped quote and yields the string. */
  lemma {:induction false} ReadEscaped(s: string, q: char, rest: string)
    requires q == '\'' || q == '"'
    ensures ReadBody(Escape(s, q) + ([q] + rest), q) == Some((s, rest))
    decreases |s|
  {
    if s != [] {
      var u := Escape(s[1..], q) + ([q] + rest);
      ReadEscaped(s[1..], q, rest);
      var t := EscapeChar(s[0], q) + u;
      assert Escape(s, q) + ([q] + rest) == t;
      assert [s[0]] + s[1..] == s;
      var c := s[0];
      if Plain(c, q) {
        assert t == [c] + u;
        assert ReadBody(t, q) == Some(([c] + s[1..], rest));
      } else {
        assert t == ['\\', EscapeChar(c, q)[1]] + u;
        assert EscapeMeaning(EscapeChar(c, q)[1]) == [c];
        assert ReadBody(t, q) == Some(([c] + s[1..], rest));
      }
    } else {
      assert Escape(s, q) == [];
      var t := [q] + rest;
      assert t[0] == q && t[1..] == rest;
      assert ReadBody(t, q) == Some(([], rest));
      assert Escape(s, q) + ([q] + rest) == t;
    }
  }

  /** Python's `repr` of a string, for the escapes above: a literal that reads back as the string. */
  function PyRepr(s: string): (r: string)
    ensures |r| >= 2 && r[0] == r[|r| - 1] == ReprQuote(s)
    ensures r[0] == '"' <==> '\'' in s && '"' !in s
    ensures ReadLiteral(r) == Some(s)
  {
    var q := ReprQuote(s);
    ReadEscaped(s, q, []);
    assert ([q] + Escape(s, q) + [q])[1..] == Escape(s, q) + ([q] + []);
    [q] + Escape(s, q) + [q]
  }

  /** A string with nothing to escape is written unchanged between the quotes. */
  lemma {:induction false} EscapePlain(s: string, q: char)
    requires forall i :: 0 <= i < |s| ==> Plain(s[i], q)
    ensures Escape(s, q) == s
    decreases |s|
  {
    if s != [] {
      assert Plain(s[0], q);
      EscapePlain(s[1..], q);
      assert [s[0]] + s[1..] == s;
    }
  }

  /**
   * `str(e)` of the IsADirectoryError that `open(path, 'w')` raises on a
   * directory: `[Errno 21] Is a directory: ` and the `repr` of the path.
   */
  function LockDirectoryDetail(root: string, name: string): (r: string)
    ensures |r| > |IsADirectory| && r[..|IsADirectory|] == IsADirectory
    ensures ReadLiteral(r[|IsADirectory|..]) == Some(LockPath(root, name))
  {
    var r := IsADirectory + PyRepr(LockPath(root, name));
    assert r[|IsADirectory|..] == PyRepr(LockPath(root, name));
    r
  }

  /** The text CPython puts before the path in `str(e)` of an IsADirectoryError on Linux. */
  const IsADirectory := "[Errno 21] Is a directory: "

  /** `os.path.join(DOWNLOAD_FOLDER, f"{name}.lock")`. */
  function LockPath(root: string, name: string): string {
    root + "/" + LockName(name)
  }

  /** No character of `s` is a double quote or needs escaping inside double quotes. */
  predicate PlainInDoubleQuotes(s: string) {
    forall i :: 0 <= i < |s| ==> s[i] != '"' && Plain(s[i], '"')
  }

  lemma PlainInDoubleQuotesConcat(a: string, b: string)
    requires PlainInDoubleQuotes(a) && PlainInDoubleQuotes(b)
    ensures PlainInDoubleQuotes(a + b)
  {
    forall i | 0 <= i < |a + b| ensures (a + b)[i] != '"' && Plain((a + b)[i], '"') {
      if i >= |a| { assert (a + b)[i] == b[i - |a|]; }
    }
  }

  /** A string with an apostrophe and nothing else to escape: `repr` puts it in double quotes unchanged. */
  lemma {:induction false} DoubleQuotedRepr(s: string)
    requires '\'' in s && PlainInDoubleQuotes(s)
    ensures PyRepr(s) == "\"" + s + "\""
  {
    assert ReprQuote(s) == '"';
    EscapePlain(s, '"');
  }

  /**
   * A title with an apostrophe and no double quote (such as "Don't Stop"): the
   * marker path in the error text is shown in double quotes.
   */
  lemma ApostropheTitleDetail(root: string, title: string, ext: string)
    requires '\'' in title
    requires PlainInDoubleQuotes(root) && PlainInDoubleQuotes(title) && PlainInDoubleQuotes(ext)
    ensures LockDirectoryDetail(root, VideoName(title, ext))
         == IsADirectory + ("\"" + LockPath(root, VideoName(title, ext)) + "\"")
  {
    var path := LockPath(root, VideoName(title, ext));
    assert path == root + "/" + title + "." + ext + ".lock";
    PlainInDoubleQuotesConcat(root, "/");
    PlainInDoubleQuotesConcat(root + "/", title);
    PlainInDoubleQuotesConcat(root + "/" + title, ".");
    PlainInDoubleQuotesConcat(root + "/" + title + ".", ext);
    PlainInDoubleQuotesConcat(root + "/" + title + "." + ext, ".lock");
    var k :| 0 <= k < |title| && title[k] == '\'';
    assert path[|root| + 1 + k] == '\'';
    DoubleQuotedRepr(path);
  }

  /**
   * The `download` route. `formats` is what get_formats returned (None when it
   * failed), `fetch` what download_video returned for the format it was asked
   * for, and `requested` that format code (None when no download was attempted).
   */
  method Download(folder: DownloadsFolder, req: Request, formats: Option<seq<Format>>, fetch: FetchResult)
    returns (page: Page, requested: Option<string>)
    modifies folder
    ensures !CookiesGiven(req) ==> page == IndexPage(MissingCookies)
    ensures CookiesGiven(req) && (formats.None? || formats.value == []) ==> page == IndexPage(Unavailable)
    ensures requested.Some? <==>
              CookiesGiven(req) && formats.Some? && formats.value != [] && SelectFormat(formats.value, QualityOf(req)).Ok?
    ensures requested.Some? ==> requested.value == SelectFormat(formats.value, QualityOf(req)).value
    ensures CookiesGiven(req) && formats.Some? && formats.value != [] && SelectFormat(formats.value, QualityOf(req)).Err? ==>
              page == IndexPage(ErrorOccurred(Detail(SelectFormat(formats.value, QualityOf(req)).error)))
    ensures requested.Some? && fetch.FetchFailed? ==> page == IndexPage(ErrorOccurred(fetch.detail))
    ensures requested.Some? && fetch.Fetched? ==>
              var name := VideoName(fetch.title, fetch.ext);
              page == if WithLock(old(folder.entries), name).Some? then DownloadComplete(name)
                      else IndexPage(ErrorOccurred(LockDirectoryDetail(folder.root, name)))
    ensures folder.entries == if page.DownloadComplete? then WithLock(old(folder.entries), page.videoName).value
                              else old(folder.entries)
    ensures page.DownloadComplete? ==> folder.entries == Apply(old(folder.entries), CreateLock(page.videoName))
  {
    requested := None;
    var quality := QualityOf(req);
    if !CookiesGiven(req) {
      return IndexPage(MissingCookies), None;
    }
    if formats.None? || formats.value == [] {
      return IndexPage(Unavailable), None;
    }
    var selection := SelectFormatLoop(formats.value, quality);
    if selection.Err? {
      return IndexPage(ErrorOccurred(Detail(selection.error))), None;
    }
    requested := Some(selection.value);
    if fetch.FetchFailed? {
      return IndexPage(ErrorOccurred(fetch.detail)), requested;
    }
    var videoName := VideoName(fetch.title, fetch.ext);
    var locked := folder.CreateLockFile(videoName);
    if !locked {
      return IndexPage(ErrorOccurred(LockDirectoryDetail(folder.root, videoName))), requested;
    }
    page := DownloadComplete(videoName);
  }

  /** The answer of the `download_file` route. */
  datatype Response = NotFound | InternalError | SendFile(name: string)

  /**
   * The `download_file` route up to returning the response: a name that is not a
   * regular file is a 404 before anything changes; otherwise the marker is
   * released. The file itself is removed later, when the response is closed
   * (DownloadsFolder.DeleteAfterServing).
   */
  method DownloadFile(folder: DownloadsFolder, filename: string) returns (response: Response)
    modifies folder
    ensures response == NotFound <==> !(filename in old(folder.entries) && old(folder.entries)[filename] == File)
    ensures response != NotFound ==>
              response == if WithoutLock(old(folder.entries), filename).Some? then SendFile(filename) else InternalError
    ensures folder.entries == if response.SendFile? then WithoutLock(old(folder.entries), filename).value
                              else old(folder.entries)
    ensures folder.entries == Apply(old(folder.entries), Serve(filename))
  {
    if !(filename in folder.entries && folder.entries[filename] == File) {
      return NotFound;
    }
    var released := folder.DeleteLockFile(filename);
    response := if released then SendFile(filename) else InternalError;
  }

  /**
   * Labels "480p", "360p", "best" and quality "360p": the "360p" record's code is
   * downloaded, and the file the downloader wrote is reserved by a marker.
   */
  method ResolutionScenario() returns (page: Page, requested: Option<string>, entries: Listing)
    ensures requested == Some("134")
    ensures page == DownloadComplete("clip.mp4")
    ensures entries == map["clip.mp4" := File, "clip.mp4.lock" := File]
  {
    // the folder as the downloader leaves it: the video is written, not yet reserved
    var folder := new DownloadsFolder("/srv/app/downloads", map["clip.mp4" := File]);
    var formats := [Format(Str("135"), Str("480p")), Format(Str("134"), Str("360p")),
                    Format(Str("best"), Str("best"))];
    var req := Request(Some("360p"), Some("cookies.txt"));
    ResolutionExample();
    assert QualityOf(req) == "360p" && CookiesGiven(req);
    assert VideoName("clip", "mp4") == "clip.mp4" && LockName("clip.mp4") == "clip.mp4.lock";
    page, requested := Download(folder, req, Some(formats), Fetched("clip", "mp4"));
    entries := folder.entries;
  }

  /**
   * A reserved video is served: the response releases its marker, and closing
   * the response removes the video, leaving the directory empty.
   */
  method ServeScenario() returns (response: Response, served: Listing, closed: Listing)
    ensures response == SendFile("clip.mp4")
    ensures served == map["clip.mp4" := File]
    ensures closed == map[]
  {
    var folder := new DownloadsFolder("/srv/app/downloads", map["clip.mp4" := File, "clip.mp4.lock" := File]);
    assert LockName("clip.mp4") == "clip.mp4.lock";
    response := DownloadFile(folder, "clip.mp4");
    served := folder.entries;
    assert map["clip.mp4" := File, "clip.mp4.lock" := File] - {"clip.mp4.lock"} == map["clip.mp4" := File];
    folder.DeleteAfterServing("clip.mp4");
    closed := folder.entries;
    assert map["clip.mp4" := File] - {"clip.mp4"} == map[];
  }

  /** No formats: the unavailable message, no download attempted, no marker created. */
  method UnavailableScenario(entries: Listing) returns (page: Page, requested: Option<string>, after: Listing)
    ensures page.IndexPage? && Text(page.error) == "Invalid URL or the video is unavailable."
    ensures requested == None
    ensures after == entries
  {
    var folder := new DownloadsFolder("/srv/app/downloads", entries);
    page, requested := Download(folder, Request(None, Some("cookies.txt")), Some([]), Fetched("clip", "mp4"));
    after := folder.entries;
  }
}
