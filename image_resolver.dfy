/**
 * The image resolver behind the tracking pixel: it decides whether an image reference
 * is served from the upload folder, proxied from a remote URL, or replaced by the
 * built-in 1x1 GIF, and which image-read record (if any) is logged for it.
 */
module ImageResolver {
  import opened Wrappers
  import opened Records

  newtype byte = x: int | 0 <= x < 256

  /** The built-in transparent 1x1 GIF, 41 bytes. */
  const OneByOneGif: seq<byte> := [
    0x47, 0x49, 0x46, 0x38, 0x39, 0x61, 0x01, 0x00, 0x01, 0x00, 0x80, 0x00, 0x00, 0xff,
    0xff, 0xff, 0x00, 0xff, 0x21, 0xf9, 0x04, 0x01, 0x00, 0x00, 0x00, 0x00, 0x2c, 0x00,
    0x00, 0x00, 0x00, 0x01, 0x00, 0x01, 0x00, 0x00, 0x02, 0x01, 0x44, 0x00, 0x3b]

  const UploadFolder: string := "./uploads"

  /** The outcome of opening and reading a file, or of reading a response body. */
  datatype ReadResult = Bytes(content: seq<byte>) | ReadFailed(message: string)

  /**
   * The outcome of the outbound GET. `FetchFailed` is an exception from the request
   * itself. `Fetched` means the response headers arrived; its body is read afterwards
   * and that read can fail on its own. The status code is not looked at.
   */
  datatype FetchResult =
    | FetchFailed(message: string)
    | Fetched(contentType: Option<string>, body: ReadResult)

  /**
   * The library and system calls the resolver makes, as oracles: `unquote_plus`,
   * `os.path.exists`, the type `mimetypes.guess_type` guesses, reading a file, and
   * fetching a URL (with its 8-second timeout).
   */
  datatype Env = Env(
    unquote: string -> string,
    fileExists: string -> bool,
    guessType: string -> Option<string>,
    readFile: string -> ReadResult,
    fetch: string -> FetchResult)

  /** The body and the media type of the response. */
  datatype Reply = Reply(content: seq<byte>, mediaType: string)

  /** What resolving an image reference answers, and the image-read records it logs, in order. */
  datatype Resolution = Resolution(reply: Reply, logged: seq<Record>)

  /** Every fallback answers the 1x1 GIF as `image/gif`. */
  const Placeholder: Reply := Reply(OneByOneGif, "image/gif")

  /** The `image` query parameter after decoding; an absent or empty parameter gives None. */
  function ImageParam(image: Option<string>, unquote: string -> string): (p: Option<string>)
    ensures p.Some? <==> image.Some? && image.value != ""
    ensures p.Some? ==> p.value == unquote(image.value)
  {
    if image.Some? && image.value != "" then Some(unquote(image.value)) else None
  }

  /** Python truthiness of the decoded parameter: present and not empty. */
  predicate Truthy(p: Option<string>) {
    p.Some? && p.value != ""
  }

  predicate StartsWith(s: string, prefix: string) {
    |prefix| <= |s| && s[..|prefix|] == prefix
  }

  /** A reference is remote when it starts with `http://` or `https://` (case-sensitive). */
  predicate IsRemote(p: string) {
    StartsWith(p, "http://") || StartsWith(p, "https://")
  }

  /**
   * Only the two lower-case schemes are remote: a URL with another scheme, an upper-case
   * scheme, or a plain or relative file name is a local reference.
   */
  lemma RemoteSchemes()
    ensures IsRemote("http://example.com/pic.jpg") && IsRemote("https://example.com/pic.jpg")
    ensures !IsRemote("photo.png") && !IsRemote("../../etc/passwd")
    ensures !IsRemote("HTTP://example.com/pic.jpg") && !IsRemote("ftp://example.com/pic.jpg")
  {
    assert "https://example.com/pic.jpg"[..8] == "https://";
    assert "http://example.com/pic.jpg"[..7] == "http://";
    var local := ["photo.png", "../../etc/passwd", "HTTP://example.com/pic.jpg", "ftp://example.com/pic.jpg"];
    forall k | 0 <= k < |local|
      ensures !IsRemote(local[k])
    {
      var name := local[k];
      assert name[0] != 'h';
      if |name| >= 7 {
        assert name[..7][0] != "http://"[0];
      }
      if |name| >= 8 {
        assert name[..8][0] != "https://"[0];
      }
    }
    assert !IsRemote(local[0]) && !IsRemote(local[1]) && !IsRemote(local[2]) && !IsRemote(local[3]);
  }

  /**
   * The final segment of a POSIX path: the text after its last `/`, or the whole path
   * when it has none (empty when the path ends with `/`).
   */
  function Basename(p: string): (b: string)
    ensures '/' !in b
    ensures |b| <= |p| && p[|p| - |b|..] == b
    ensures |b| < |p| ==> p[|p| - |b| - 1] == '/'
    decreases |p|
  {
    if p == [] || p[|p| - 1] == '/' then [] else Basename(p[..|p| - 1]) + [p[|p| - 1]]
  }

  /** A reference without any `/` is its own basename. */
  lemma BasenameOfPlainName(p: string)
    requires '/' !in p
    ensures Basename(p) == p
  {
    var b := Basename(p);
    assert |b| == |p|;
    assert p[|p| - |b|..] == p;
  }

  /**
   * The file looked up for a local reference: the upload folder joined with the
   * reference's basename only (see `LocalPathInsideUploads`).
   */
  function LocalPath(p: string): (path: string)
    ensures path == UploadFolder + "/" + Basename(p)
  {
    UploadFolder + "/" + Basename(p)
  }

  /**
   * Whatever the reference, the looked-up path is the upload folder, a `/`, and a name
   * without any `/`: directory components the caller supplies are discarded.
   */
  lemma LocalPathInsideUploads(p: string)
    ensures |LocalPath(p)| > |UploadFolder| && LocalPath(p)[..|UploadFolder| + 1] == UploadFolder + "/"
    ensures '/' !in LocalPath(p)[|UploadFolder| + 1..]
  {
    var dir := UploadFolder + "/";
    var b := Basename(p);
    assert (dir + b)[..|dir|] == dir;
    assert (dir + b)[|dir|..] == b;
  }

  /** A plain file name is looked up unchanged inside the upload folder. */
  lemma PlainNameUnchanged(p: string)
    requires '/' !in p
    ensures LocalPath(p) == UploadFolder + "/" + p
  {
    BasenameOfPlainName(p);
  }

  /** A traversal attempt keeps only its last segment. */
  lemma TraversalDiscarded()
    ensures LocalPath("../../etc/passwd") == "./uploads/passwd"
  {
    var p := "../../etc/passwd";
    var b := Basename(p);
    assert p[9] == '/';
    assert |b| == 6;
    assert b == p[10..] == "passwd";
  }

  /** `mime or "application/octet-stream"`: no guess, or an empty one, gives the default. */
  function MimeOrDefault(guess: Option<string>): (m: string)
    ensures m != ""
    ensures guess.Some? && guess.value != "" ==> m == guess.value
    ensures !(guess.Some? && guess.value != "") ==> m == "application/octet-stream"
  {
    if guess.Some? && guess.value != "" then guess.value else "application/octet-stream"
  }

  /** The record is tagged with the request's identity and how the image was served. */
  predicate Tagged(rec: Record, email: string, messageId: Option<string>, served: string) {
    Get(rec, "email") == Str(email) && Get(rec, "message_id") == OptStr(messageId) && Get(rec, "served") == Str(served)
  }

  /** The record of a local file that was read: it names the reference as given and holds no error. */
  function LocalReadRecord(email: string, messageId: Option<string>, filename: string): (rec: Record)
    ensures Tagged(rec, email, messageId, "local")
    ensures Get(rec, "filename") == Str(filename) && "error" !in rec
  {
    map["email" := Str(email), "message_id" := OptStr(messageId), "served" := Str("local"), "filename" := Str(filename)]
  }

  /** The record of a local file whose read failed: it holds the error message. */
  function LocalErrorRecord(email: string, messageId: Option<string>, message: string): (rec: Record)
    ensures Tagged(rec, email, messageId, "local")
    ensures "error" in rec && rec["error"] == Str(message)
  {
    map["email" := Str(email), "message_id" := OptStr(messageId), "error" := Str(message), "served" := Str("local")]
  }

  /** The record of a remote image that was fetched: it holds the URL and no error. */
  function RemoteReadRecord(email: string, messageId: Option<string>, url: string): (rec: Record)
    ensures Tagged(rec, email, messageId, "remote")
    ensures Get(rec, "url") == Str(url) && "error" !in rec
  {
    map["email" := Str(email), "message_id" := OptStr(messageId), "served" := Str("remote"), "url" := Str(url)]
  }

  /** The record of a remote fetch that failed: it holds the URL and the error message. */
  function RemoteErrorRecord(email: string, messageId: Option<string>, url: string, message: string): (rec: Record)
    ensures Tagged(rec, email, messageId, "remote")
    ensures Get(rec, "url") == Str(url) && "error" in rec && rec["error"] == Str(message)
  {
    map["email" := Str(email), "message_id" := OptStr(messageId), "served" := Str("remote"), "url" := Str(url),
        "error" := Str(message)]
  }

  /**
   * A local reference. A missing file logs nothing and falls back to the GIF. An
   * existing file logs one record: on a successful read it records the reference as
   * given and answers the bytes with the guessed type; on a failed read it records the
   * error and answers the GIF.
   */
  function Local(param: string, email: string, messageId: Option<string>, env: Env): (r: Resolution)
    ensures var path := LocalPath(param);
      && (!env.fileExists(path) ==> r == Resolution(Placeholder, []))
      && (env.fileExists(path) ==>
            && |r.logged| == 1
            && Tagged(r.logged[0], email, messageId, "local")
            && ("error" in r.logged[0] <==> env.readFile(path).ReadFailed?)
            && (env.readFile(path).ReadFailed? ==>
                  r.reply == Placeholder && r.logged[0]["error"] == Str(env.readFile(path).message))
            && (env.readFile(path).Bytes? ==>
                  && r.reply == Reply(env.readFile(path).content, MimeOrDefault(env.guessType(path)))
                  && Get(r.logged[0], "filename") == Str(param)))
  {
    var path := LocalPath(param);
    if env.fileExists(path) then
      var mime := MimeOrDefault(env.guessType(path));
      match env.readFile(path)
      case Bytes(content) => Resolution(Reply(content, mime), [LocalReadRecord(email, messageId, param)])
      case ReadFailed(message) => Resolution(Placeholder, [LocalErrorRecord(email, messageId, message)])
    else
      Resolution(Placeholder, [])
  }

  /**
   * A remote reference, corrected: exactly one record is logged. It records the URL,
   * and an error exactly when the request or the body read failed, in which case the
   * GIF is answered; otherwise the fetched bytes are answered with the remote content
   * type, or `image/jpeg` when the response has none.
   */
  function Remote(url: string, email: string, messageId: Option<string>, f: FetchResult): (r: Resolution)
    ensures |r.logged| == 1
    ensures Tagged(r.logged[0], email, messageId, "remote") && Get(r.logged[0], "url") == Str(url)
    ensures "error" in r.logged[0] <==> f.FetchFailed? || f.body.ReadFailed?
    ensures f.FetchFailed? ==> r.reply == Placeholder && r.logged[0]["error"] == Str(f.message)
    ensures f.Fetched? && f.body.ReadFailed? ==> r.reply == Placeholder && r.logged[0]["error"] == Str(f.body.message)
    ensures f.Fetched? && f.body.Bytes? ==> r.reply == Reply(f.body.content, f.contentType.GetOr("image/jpeg"))
  {
    match f
    case FetchFailed(message) => Resolution(Placeholder, [RemoteErrorRecord(email, messageId, url, message)])
    case Fetched(contentType, body) =>
      match body
      case Bytes(content) =>
        Resolution(Reply(content, contentType.GetOr("image/jpeg")), [RemoteReadRecord(email, messageId, url)])
      case ReadFailed(message) => Resolution(Placeholder, [RemoteErrorRecord(email, messageId, url, message)])
  }

  /**
   * The remote branch as written: the success record is appended as soon as the headers
   * arrive, before the body is read inside the same `try`, so a failed body read logs the
   * success record and then an error record. In every other case it agrees with `Remote`.
   */
  function RemoteAsWritten(url: string, email: string, messageId: Option<string>, f: FetchResult): (r: Resolution)
    ensures r.reply == Remote(url, email, messageId, f).reply
    ensures |r.logged| == 2 <==> f.Fetched? && f.body.ReadFailed?
    ensures !(f.Fetched? && f.body.ReadFailed?) ==> r == Remote(url, email, messageId, f)
  {
    match f
    case FetchFailed(message) => Resolution(Placeholder, [RemoteErrorRecord(email, messageId, url, message)])
    case Fetched(contentType, body) =>
      var success := RemoteReadRecord(email, messageId, url);
      match body
      case Bytes(content) => Resolution(Reply(content, contentType.GetOr("image/jpeg")), [success])
      case ReadFailed(message) => Resolution(Placeholder, [success, RemoteErrorRecord(email, messageId, url, message)])
  }

  /** The discrepancy: a body read that fails after the headers arrived logs two records. */
  lemma BodyFailureLoggedTwice(url: string, email: string, messageId: Option<string>, contentType: Option<string>, message: string)
    ensures RemoteAsWritten(url, email, messageId, Fetched(contentType, ReadFailed(message))).logged
         == [RemoteReadRecord(email, messageId, url), RemoteErrorRecord(email, messageId, url, message)]
    ensures |Remote(url, email, messageId, Fetched(contentType, ReadFailed(message))).logged| == 1
  {
  }

  /**
   * `api_img`'s image handling for the decoded parameter. No image, or a local file
   * that does not exist, answers the GIF and logs nothing; a local file that exists,
   * or any http(s) reference, logs exactly one record. The answer is the GIF unless a
   * record without an error was logged.
   */
  function Resolve(param: Option<string>, email: string, messageId: Option<string>, env: Env): (r: Resolution)
    ensures |r.logged| <= 1
    ensures |r.logged| == 1 <==> Truthy(param) && (IsRemote(param.value) || env.fileExists(LocalPath(param.value)))
    ensures !Truthy(param) ==> r == Resolution(Placeholder, [])
    ensures Truthy(param) && IsRemote(param.value) ==> r == Remote(param.value, email, messageId, env.fetch(param.value))
    ensures Truthy(param) && !IsRemote(param.value) ==> r == Local(param.value, email, messageId, env)
    ensures forall k :: 0 <= k < |r.logged| ==>
      Tagged(r.logged[k], email, messageId, if IsRemote(param.value) then "remote" else "local")
    ensures r.reply != Placeholder ==> |r.logged| == 1 && "error" !in r.logged[0]
  {
    if Truthy(param) && IsRemote(param.value) then Remote(param.value, email, messageId, env.fetch(param.value))
    else if Truthy(param) then Local(param.value, email, messageId, env)
    else Resolution(Placeholder, [])
  }
}
