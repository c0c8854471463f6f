/**
 * The tracking server's state and endpoints: the two log files, appending to and
 * reading them, the dedup check, the pixel and click endpoints, and the query views.
 */
module Tracker {
  import opened Wrappers
  import opened Records
  import opened EventStore
  import opened Dedup
  import opened ImageResolver
  import opened Queries

  /** The two logs: the event log and the image-read log. */
  datatype LogFile = TrackingLog | ImgReadLog

  const RedirectStatus: int := 302

  /** The lines a request appends to the image-read log for a resolution, at the request's time. */
  function LoggedLines(res: Resolution, now: int): seq<Line> {
    StoredLines(res.logged, seq(|res.logged|, _ => now))
  }

  class TrackingServer {
    /** The lines of the event log, `tracking_logs.jsonl`; a missing file has none. */
    var eventLines: seq<Line>
    /** The lines of the image-read log, `img_reads.jsonl`. */
    var readLines: seq<Line>

    constructor (events: seq<Line>, imgReads: seq<Line>)
      ensures eventLines == events && readLines == imgReads
    {
      eventLines := events;
      readLines := imgReads;
    }

    function Lines(file: LogFile): seq<Line>
      reads this
    {
      if file == TrackingLog then eventLines else readLines
    }

    /**
     * `append_event`: the record, with a `time` added when it has none, is written as
     * one new line at the end of the chosen log; every earlier line and the other log
     * stay as they were.
     */
    method AppendEvent(file: LogFile, obj: Record, now: int) returns (stored: Record)
      modifies this
      ensures stored == Stamped(obj, now)
      ensures Lines(file) == old(Lines(file)) + [StoredLine(obj, now)]
      ensures file == TrackingLog ==> readLines == old(readLines)
      ensures file == ImgReadLog ==> eventLines == old(eventLines)
    {
      stored := Stamped(obj, now);
      if file == TrackingLog {
        eventLines := eventLines + [Parsed(Object(stored))];
      } else {
        readLines := readLines + [Parsed(Object(stored))];
      }
    }

    /**
     * `read_jsonl`: the lines in file order, skipping blank lines, lines that do not
     * parse and (corrected) lines that hold no object; the records of the rest.
     */
    method ReadJsonl(file: LogFile) returns (out: seq<Record>)
      ensures out == ParseLines(Lines(file))
    {
      var lines := Lines(file);
      out := [];
      for i := 0 to |lines|
        invariant out == ParseLines(lines[..i])
      {
        assert lines[..i + 1][..i] == lines[..i];
        match lines[i]
        case Parsed(Object(record)) =>
          out := out + [record];
        case _ =>
      }
      assert lines[..|lines|] == lines;
    }

    /**
     * `already_opened_recent`: scans the event log newest first and answers true as soon
     * as it meets a recent open of (email, message id): true exactly when the log holds one.
     */
    method AlreadyOpenedRecent(email: string, messageId: Option<string>, now: int, minutes: int) returns (found: bool)
      ensures found == OpenedRecent(ParseLines(eventLines), email, messageId, Cutoff(now, minutes))
    {
      var events := ReadJsonl(TrackingLog);
      var cutoff := Cutoff(now, minutes);
      var i := |events|;
      while i > 0
        invariant 0 <= i <= |events|
        invariant forall k :: i <= k < |events| ==> !IsRecentOpen(events[k], email, messageId, cutoff)
      {
        i := i - 1;
        var e := events[i];
        if Get(e, "type") == Str("pixel_open") && Get(e, "email") == Str(email) {
          if Get(e, "message_id") == OptStr(messageId) {
            match TimeOf(e)
            case Some(t) =>
              if t >= cutoff {
                return true;
              }
            case None =>
          }
        }
      }
      return false;
    }

    /**
     * The local branch of `api_img`: a file that exists in the upload folder is read and
     * one image-read record is logged; a missing file logs nothing and answers the GIF.
     */
    method ServeLocal(param: string, email: string, messageId: Option<string>, env: Env, now: int) returns (reply: Reply)
      modifies this
      ensures eventLines == old(eventLines)
      ensures readLines == old(readLines) + LoggedLines(Local(param, email, messageId, env), now)
      ensures reply == Local(param, email, messageId, env).reply
    {
      var path := LocalPath(param);
      if env.fileExists(path) {
        var mime := MimeOrDefault(env.guessType(path));
        var record;
        match env.readFile(path) {
          case Bytes(content) =>
            record := LocalReadRecord(email, messageId, param);
            reply := Reply(content, mime);
          case ReadFailed(message) =>
            record := LocalErrorRecord(email, messageId, message);
            reply := Placeholder;
        }
        assert Local(param, email, messageId, env) == Resolution(reply, [record]);
        var _ := AppendEvent(ImgReadLog, record, now);
        assert LoggedLines(Resolution(reply, [record]), now) == [StoredLine(record, now)];
      } else {
        reply := Placeholder;
        assert LoggedLines(Local(param, email, messageId, env), now) == [];
        assert readLines + [] == readLines;
      }
    }

    /**
     * The remote branch of `api_img` (corrected): one image-read record is logged, and the
     * fetched bytes are answered only when both the request and the body read succeed.
     */
    method ProxyRemote(url: string, email: string, messageId: Option<string>, env: Env, now: int) returns (reply: Reply)
      modifies this
      ensures eventLines == old(eventLines)
      ensures readLines == old(readLines) + LoggedLines(Remote(url, email, messageId, env.fetch(url)), now)
      ensures reply == Remote(url, email, messageId, env.fetch(url)).reply
    {
      var record;
      match env.fetch(url) {
        case FetchFailed(message) =>
          record := RemoteErrorRecord(email, messageId, url, message);
          reply := Placeholder;
        case Fetched(contentType, body) =>
          var ctype := contentType.GetOr("image/jpeg");
          match body {
            case Bytes(content) =>
              record := RemoteReadRecord(email, messageId, url);
              reply := Reply(content, ctype);
            case ReadFailed(message) =>
              record := RemoteErrorRecord(email, messageId, url, message);
              reply := Placeholder;
          }
      }
      assert Remote(url, email, messageId, env.fetch(url)) == Resolution(reply, [record]);
      var _ := AppendEvent(ImgReadLog, record, now);
      assert LoggedLines(Resolution(reply, [record]), now) == [StoredLine(record, now)];
    }

    /**
     * `api_img`: logs a `pixel_open` event unless the same open was logged in the last ten
     * minutes, then resolves the image, logging at most one image-read record.
     */
    method ApiImg(email: string, image: Option<string>, messageId: Option<string>, client: Client, now: int, env: Env)
      returns (reply: Reply)
      modifies this
      ensures OpenedRecent(ParseLines(old(eventLines)), email, messageId, Cutoff(now, DedupWindowMinutes)) ==>
        eventLines == old(eventLines)
      ensures !OpenedRecent(ParseLines(old(eventLines)), email, messageId, Cutoff(now, DedupWindowMinutes)) ==>
        eventLines == old(eventLines) + [StoredLine(PixelOpenEvent(email, messageId, ImageParam(image, env.unquote), client), now)]
      ensures readLines == old(readLines) + LoggedLines(Resolve(ImageParam(image, env.unquote), email, messageId, env), now)
      ensures reply == Resolve(ImageParam(image, env.unquote), email, messageId, env).reply
    {
      var param := ImageParam(image, env.unquote);
      var suppressed := AlreadyOpenedRecent(email, messageId, now, DedupWindowMinutes);
      if !suppressed {
        var _ := AppendEvent(TrackingLog, PixelOpenEvent(email, messageId, param, client), now);
      }
      if Truthy(param) && !IsRemote(param.value) {
        reply := ServeLocal(param.value, email, messageId, env, now);
      } else if Truthy(param) && IsRemote(param.value) {
        reply := ProxyRemote(param.value, email, messageId, env, now);
      } else {
        reply := Placeholder;
      }
    }

    /**
     * `api_img` without an `image` parameter, the plain tracking pixel: the open is
     * logged unless it was logged in the last ten minutes, no image-read record is
     * logged, and the answer is the 1x1 GIF.
     */
    method ApiPixel(email: string, messageId: Option<string>, client: Client, now: int, env: Env) returns (reply: Reply)
      modifies this
      ensures OpenedRecent(ParseLines(old(eventLines)), email, messageId, Cutoff(now, DedupWindowMinutes)) ==>
        eventLines == old(eventLines)
      ensures !OpenedRecent(ParseLines(old(eventLines)), email, messageId, Cutoff(now, DedupWindowMinutes)) ==>
        eventLines == old(eventLines) + [StoredLine(PixelOpenEvent(email, messageId, None, client), now)]
      ensures readLines == old(readLines)
      ensures reply == Placeholder
    {
      assert ImageParam(None, env.unquote) == None;
      reply := ApiImg(email, None, messageId, client, now, env);
      assert LoggedLines(Resolution(Placeholder, []), now) == [];
    }

    /** `api_click`: appends exactly one `click` event and redirects (302) to `redirect`. */
    method ApiClick(email: string, redirect: string, messageId: Option<string>, client: Client, now: int)
      returns (location: string, status: int)
      modifies this
      ensures location == redirect && status == RedirectStatus
      ensures eventLines == old(eventLines) + [StoredLine(ClickEvent(email, redirect, messageId, client), now)]
      ensures readLines == old(readLines)
    {
      var _ := AppendEvent(TrackingLog, ClickEvent(email, redirect, messageId, client), now);
      location, status := redirect, RedirectStatus;
    }

    /** `tracking_by_email`: the per-recipient views over what is read from both logs. */
    method TrackingByEmail(email: string) returns (v: ByEmail)
      ensures v == Queries.TrackingByEmail(ParseLines(eventLines), ParseLines(readLines), email)
    {
      var logs := ReadJsonl(TrackingLog);
      var imgReads := ReadJsonl(ImgReadLog);
      v := Queries.TrackingByEmail(logs, imgReads, email);
    }

    /**
     * `tracking_latest`: the newest `n` records of each log, newest first; a request
     * without `n` asks for 200.
     */
    method TrackingLatest(n: Option<int>) returns (v: Latest)
      ensures v == Queries.TrackingLatest(ParseLines(eventLines), ParseLines(readLines), n.GetOr(DefaultLatestCount))
    {
      var events := ReadJsonl(TrackingLog);
      var imgReads := ReadJsonl(ImgReadLog);
      v := Queries.TrackingLatest(events, imgReads, n.GetOr(DefaultLatestCount));
    }
  }

  /**
   * The guard's three answers in the scenario below: nothing on an empty log at T0; the
   * open stored at T0 suppresses at T0 + 5 minutes but no longer at T0 + 11 minutes.
   */
  lemma ScenarioGuardAnswers(email: string, messageId: Option<string>, client: Client, t0: int)
    ensures var open := StoredLine(PixelOpenEvent(email, messageId, None, client), t0);
      && !OpenedRecent(ParseLines([]), email, messageId, Cutoff(t0, DedupWindowMinutes))
      && OpenedRecent(ParseLines([open]), email, messageId, Cutoff(t0 + 5 * MicrosPerMinute, DedupWindowMinutes))
      && !OpenedRecent(ParseLines([open]), email, messageId, Cutoff(t0 + 11 * MicrosPerMinute, DedupWindowMinutes))
  {
    var open := StoredLine(PixelOpenEvent(email, messageId, None, client), t0);
    assert ParseLines([]) == [];
    assert [] + [open] == [open];
    EmptyLogNeverSuppresses(email, messageId, Cutoff(t0, DedupWindowMinutes));
    EmptyLogNeverSuppresses(email, messageId, Cutoff(t0 + 11 * MicrosPerMinute, DedupWindowMinutes));
    RepeatWithinWindowSuppressed([], email, messageId, None, client, t0, t0 + 5 * MicrosPerMinute);
    RepeatOutsideWindowLogged([], email, messageId, None, client, t0, t0 + 11 * MicrosPerMinute);
  }

  /**
   * Three opens of the same message on a fresh server, at T0, T0 + 5 minutes and
   * T0 + 11 minutes: the second is suppressed, the third is logged again. The sizes of
   * the event log after each call are 1, 1 and 2.
   */
  method DedupWindowScenario(email: string, messageId: Option<string>, client: Client, t0: int, env: Env)
    returns (sizes: seq<nat>)
    ensures sizes == [1, 1, 2]
  {
    ghost var open := StoredLine(PixelOpenEvent(email, messageId, None, client), t0);
    ScenarioGuardAnswers(email, messageId, client, t0);

    var server := new TrackingServer([], []);
    var first := server.ApiPixel(email, messageId, client, t0, env);
    var afterFirst := server.eventLines;
    assert afterFirst == [open];

    var second := server.ApiPixel(email, messageId, client, t0 + 5 * MicrosPerMinute, env);
    var afterSecond := server.eventLines;
    assert afterSecond == [open];

    var third := server.ApiPixel(email, messageId, client, t0 + 11 * MicrosPerMinute, env);
    sizes := [|afterFirst|, |afterSecond|, |server.eventLines|];
  }
}
