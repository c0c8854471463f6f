/**
 * The dedup guard: a new `pixel_open` event is suppressed when an equivalent one
 * was logged within the last few minutes.
 */
module Dedup {
  import opened Wrappers
  import opened Records
  import opened EventStore

  /** `api_img` calls the guard with its default window of ten minutes. */
  const DedupWindowMinutes: int := 10

  /** The earliest instant that still counts as recent when the clock reads `now`. */
  function Cutoff(now: int, minutes: int): int {
    now - minutes * MicrosPerMinute
  }

  /** An instant is no earlier than the cutoff exactly when it lies at most `minutes` minutes before `now`. */
  lemma CutoffIsWindowStart(t: int, now: int, minutes: int)
    ensures t >= Cutoff(now, minutes) <==> now - t <= minutes * MicrosPerMinute
  {
  }

  /**
   * Whether one logged event is a recent open of the message: a `pixel_open` event for
   * the same email and the same message id (a missing id matches a missing id), whose
   * time parses to an instant no earlier than the cutoff.
   */
  predicate IsRecentOpen(e: Record, email: string, messageId: Option<string>, cutoff: int) {
    && Get(e, "type") == Str("pixel_open")
    && Get(e, "email") == Str(email)
    && Get(e, "message_id") == OptStr(messageId)
    && TimeOf(e).Some? && TimeOf(e).value >= cutoff
  }

  /** The truth condition of the guard: some logged event is a recent open. */
  predicate OpenedRecent(events: seq<Record>, email: string, messageId: Option<string>, cutoff: int) {
    exists i :: 0 <= i < |events| && IsRecentOpen(events[i], email, messageId, cutoff)
  }

  /** Appending an event changes the answer only if that event itself is a recent open. */
  lemma OpenedRecentAppend(events: seq<Record>, e: Record, email: string, messageId: Option<string>, cutoff: int)
    ensures OpenedRecent(events + [e], email, messageId, cutoff)
        <==> OpenedRecent(events, email, messageId, cutoff) || IsRecentOpen(e, email, messageId, cutoff)
  {
    var all := events + [e];
    if OpenedRecent(all, email, messageId, cutoff) {
      var i :| 0 <= i < |all| && IsRecentOpen(all[i], email, messageId, cutoff);
      if i < |events| {
        assert all[i] == events[i];
      }
    }
    if OpenedRecent(events, email, messageId, cutoff) {
      var i :| 0 <= i < |events| && IsRecentOpen(events[i], email, messageId, cutoff);
      assert all[i] == events[i];
    }
    if IsRecentOpen(e, email, messageId, cutoff) {
      assert all[|events|] == e;
    }
  }

  /**
   * A longer window suppresses at least as much: any open that is recent for a window
   * of `minutes` is recent for every longer window as well.
   */
  lemma LongerWindowSuppressesMore(events: seq<Record>, email: string, messageId: Option<string>,
                                   now: int, minutes: int, longer: int)
    requires minutes <= longer
    requires OpenedRecent(events, email, messageId, Cutoff(now, minutes))
    ensures OpenedRecent(events, email, messageId, Cutoff(now, longer))
  {
    var i :| 0 <= i < |events| && IsRecentOpen(events[i], email, messageId, Cutoff(now, minutes));
    assert Cutoff(now, longer) <= Cutoff(now, minutes);
    assert IsRecentOpen(events[i], email, messageId, Cutoff(now, longer));
  }

  /** An empty log never suppresses. */
  lemma EmptyLogNeverSuppresses(email: string, messageId: Option<string>, cutoff: int)
    ensures !OpenedRecent([], email, messageId, cutoff)
  {
  }

  /**
   * An appended line that is not a recent open leaves the guard's answer unchanged:
   * clicks, events of other recipients or messages, events whose time does not parse,
   * and lines that hold no record at all.
   */
  lemma AppendNonOpenUnchanged(ls: seq<Line>, l: Line, email: string, messageId: Option<string>, cutoff: int)
    requires !IsRecordLine(l) || !IsRecentOpen(l.value.fields, email, messageId, cutoff)
    ensures OpenedRecent(ParseLines(ls + [l]), email, messageId, cutoff) == OpenedRecent(ParseLines(ls), email, messageId, cutoff)
  {
    assert (ls + [l])[..|ls|] == ls;
    assert ParseLines(ls + [l]) == ParseLines(ls) + Kept(l);
    if IsRecordLine(l) {
      assert Kept(l) == [l.value.fields];
      OpenedRecentAppend(ParseLines(ls), l.value.fields, email, messageId, cutoff);
    } else {
      assert ParseLines(ls + [l]) == ParseLines(ls);
    }
  }

  /** A click is never a recent open, whatever its identity and time. */
  lemma ClickNeverSuppresses(ls: seq<Line>, click: Record, now: int, email: string, messageId: Option<string>, cutoff: int)
    requires Get(click, "type") == Str("click")
    ensures OpenedRecent(ParseLines(ls + [StoredLine(click, now)]), email, messageId, cutoff) == OpenedRecent(ParseLines(ls), email, messageId, cutoff)
  {
    var l := StoredLine(click, now);
    assert Get(l.value.fields, "type") == Get(click, "type");
    AppendNonOpenUnchanged(ls, l, email, messageId, cutoff);
  }

  /**
   * Within the window, a repeated open is suppressed: once an open of (email, message id)
   * has been stored at `t0`, the guard answers true at any `t1` no more than ten minutes later.
   */
  lemma RepeatWithinWindowSuppressed(ls: seq<Line>, email: string, messageId: Option<string>,
                                     imageParam: Option<string>, client: Client, t0: int, t1: int)
    requires t1 - DedupWindowMinutes * MicrosPerMinute <= t0
    ensures OpenedRecent(ParseLines(ls + [StoredLine(PixelOpenEvent(email, messageId, imageParam, client), t0)]),
                         email, messageId, Cutoff(t1, DedupWindowMinutes))
  {
    var e := PixelOpenEvent(email, messageId, imageParam, client);
    ReadAfterAppend(ls, e, t0);
    OpenedRecentAppend(ParseLines(ls), Stamped(e, t0), email, messageId, Cutoff(t1, DedupWindowMinutes));
  }

  /**
   * Outside the window, an earlier open no longer suppresses: if nothing else in the log
   * is a recent open, an open stored more than ten minutes before `t1` leaves the answer false.
   */
  lemma RepeatOutsideWindowLogged(ls: seq<Line>, email: string, messageId: Option<string>,
                                  imageParam: Option<string>, client: Client, t0: int, t1: int)
    requires !OpenedRecent(ParseLines(ls), email, messageId, Cutoff(t1, DedupWindowMinutes))
    requires t0 < t1 - DedupWindowMinutes * MicrosPerMinute
    ensures !OpenedRecent(ParseLines(ls + [StoredLine(PixelOpenEvent(email, messageId, imageParam, client), t0)]),
                          email, messageId, Cutoff(t1, DedupWindowMinutes))
  {
    var l := StoredLine(PixelOpenEvent(email, messageId, imageParam, client), t0);
    AppendNonOpenUnchanged(ls, l, email, messageId, Cutoff(t1, DedupWindowMinutes));
  }

  /**
   * An open of another recipient or another message never suppresses: the guard's
   * answer for (email, message id) is the same before and after it is stored.
   */
  lemma OtherIdentityNeverSuppresses(ls: seq<Line>, email: string, messageId: Option<string>,
                                     otherEmail: string, otherId: Option<string>,
                                     imageParam: Option<string>, client: Client, t0: int, cutoff: int)
    requires otherEmail != email || otherId != messageId
    ensures OpenedRecent(ParseLines(ls + [StoredLine(PixelOpenEvent(otherEmail, otherId, imageParam, client), t0)]),
                         email, messageId, cutoff)
         == OpenedRecent(ParseLines(ls), email, messageId, cutoff)
  {
    var l := StoredLine(PixelOpenEvent(otherEmail, otherId, imageParam, client), t0);
    assert Get(l.value.fields, "email") == Str(otherEmail);
    assert Get(l.value.fields, "message_id") == OptStr(otherId);
    assert otherId != messageId ==> OptStr(otherId) != OptStr(messageId);
    AppendNonOpenUnchanged(ls, l, email, messageId, cutoff);
  }

  /**
   * The scan of `already_opened_recent` as written, over what `read_jsonl` as written
   * returns, newest first. Reaching a value that is not a JSON object makes `e.get`
   * raise, outside the `try`: the result is None (the request fails). A match found
   * before such a value returns true first.
   */
  function ScanAsWritten(vs: seq<Json>, email: string, messageId: Option<string>, cutoff: int): (r: Option<bool>)
    ensures NonObject !in vs ==> r.Some?
    ensures r == Some(false) ==> forall k :: 0 <= k < |vs| ==> vs[k].Object? && !IsRecentOpen(vs[k].fields, email, messageId, cutoff)
    decreases |vs|
  {
    if vs == [] then Some(false)
    else match vs[|vs| - 1]
      case NonObject => None
      case Object(e) =>
        if IsRecentOpen(e, email, messageId, cutoff) then Some(true)
        else ScanAsWritten(vs[..|vs| - 1], email, messageId, cutoff)
  }

  /**
   * Whenever the scan as written does not fail, it gives the corrected guard's answer.
   * (It fails only on a log holding a non-object line: see the contracts of
   * `ScanAsWritten` and `ReadJsonlAsWritten`.)
   */
  lemma {:induction false} ScanAsWrittenAgrees(ls: seq<Line>, email: string, messageId: Option<string>, cutoff: int)
    ensures var r := ScanAsWritten(ReadJsonlAsWritten(ls), email, messageId, cutoff);
      r.Some? ==> r.value == OpenedRecent(ParseLines(ls), email, messageId, cutoff)
    decreases |ls|
  {
    if ls != [] {
      var front := ls[..|ls| - 1];
      var last := ls[|ls| - 1];
      ScanAsWrittenAgrees(front, email, messageId, cutoff);
      var vf := ReadJsonlAsWritten(front);
      var vs := ReadJsonlAsWritten(ls);
      if IsRecordLine(last) {
        assert ls == front + [Parsed(Object(last.value.fields))];
        ScanAgreesAfterRecord(front, last.value.fields, email, messageId, cutoff);
      } else if last.Parsed? {
        assert vs == vf + [NonObject];
      } else {
        assert vs == vf;
        assert ParseLines(ls) == ParseLines(front);
      }
    }
  }

  /** The step of `ScanAsWrittenAgrees` for a log whose last line holds the record `e`. */
  lemma ScanAgreesAfterRecord(front: seq<Line>, e: Record, email: string, messageId: Option<string>, cutoff: int)
    requires var r := ScanAsWritten(ReadJsonlAsWritten(front), email, messageId, cutoff);
      r.Some? ==> r.value == OpenedRecent(ParseLines(front), email, messageId, cutoff)
    ensures var ls := front + [Parsed(Object(e))];
      var r := ScanAsWritten(ReadJsonlAsWritten(ls), email, messageId, cutoff);
      r.Some? ==> r.value == OpenedRecent(ParseLines(ls), email, messageId, cutoff)
  {
    var ls := front + [Parsed(Object(e))];
    assert ls[..|ls| - 1] == front;
    var vf := ReadJsonlAsWritten(front);
    var vs := ReadJsonlAsWritten(ls);
    assert vs == vf + [Object(e)];
    assert vs[..|vs| - 1] == vf;
    assert ParseLines(ls) == ParseLines(front) + [e];
    OpenedRecentAppend(ParseLines(front), e, email, messageId, cutoff);
  }

  /**
   * The discrepancy: a log holding the single line `42` makes the guard as written fail,
   * where a log without any record must answer false.
   */
  lemma NonObjectLineBreaksScan(email: string, messageId: Option<string>, cutoff: int)
    ensures ScanAsWritten(ReadJsonlAsWritten([Parsed(NonObject)]), email, messageId, cutoff) == None
    ensures !OpenedRecent(ParseLines([Parsed(NonObject)]), email, messageId, cutoff)
  {
    assert ReadJsonlAsWritten([Parsed(NonObject)]) == [NonObject];
    assert ParseLines([Parsed(NonObject)]) == [];
  }
}
