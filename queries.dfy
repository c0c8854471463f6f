/**
 * The read side: per-recipient views and newest-first views over the records read
 * from the two logs.
 */
module Queries {
  import opened Wrappers
  import opened Records
  import opened EventStore

  /** Which records a per-recipient view keeps: by event type and email, or by email alone. */
  datatype Selector = TypeAndEmail(eventType: string, email: string) | EmailOnly(email: string)

  predicate Selects(q: Selector, r: Record) {
    match q
    case TypeAndEmail(t, e) => Get(r, "type") == Str(t) && Get(r, "email") == Str(e)
    case EmailOnly(e) => Get(r, "email") == Str(e)
  }

  /** The list comprehension `[x for x in s if ...]`. */
  function Filter(s: seq<Record>, q: Selector): (r: seq<Record>)
    ensures |r| <= |s|
    decreases |s|
  {
    if s == [] then []
    else Filter(s[..|s| - 1], q) + (if Selects(q, s[|s| - 1]) then [s[|s| - 1]] else [])
  }

  /** The positions of the selected records, in order; each is a position of `s`. */
  function FilterIndices(s: seq<Record>, q: Selector): (idx: seq<nat>)
    ensures forall k :: 0 <= k < |idx| ==> idx[k] < |s|
    decreases |s|
  {
    if s == [] then []
    else FilterIndices(s[..|s| - 1], q) + (if Selects(q, s[|s| - 1]) then [|s| - 1] else [])
  }

  /** The k-th position `FilterIndices` lists holds the k-th record of the filter. */
  lemma {:induction false} FilterIndicesHoldRecords(s: seq<Record>, q: Selector)
    ensures |FilterIndices(s, q)| == |Filter(s, q)|
    ensures forall k :: 0 <= k < |FilterIndices(s, q)| ==> s[FilterIndices(s, q)[k]] == Filter(s, q)[k]
    decreases |s|
  {
    if s != [] {
      var front := s[..|s| - 1];
      var last := s[|s| - 1];
      FilterIndicesHoldRecords(front, q);
      var before, rf := FilterIndices(front, q), Filter(front, q);
      var idx, r := FilterIndices(s, q), Filter(s, q);
      assert r == rf + (if Selects(q, last) then [last] else []);
      assert idx == before + (if Selects(q, last) then [|s| - 1] else []);
      forall k | 0 <= k < |idx|
        ensures s[idx[k]] == r[k]
      {
        if k < |before| {
          assert idx[k] == before[k] && r[k] == rf[k];
          assert s[before[k]] == front[before[k]];
        }
      }
    }
  }

  /** The positions `FilterIndices` lists are strictly increasing. */
  lemma {:induction false} FilterIndicesIncrease(s: seq<Record>, q: Selector)
    ensures forall k, j :: 0 <= k < j < |FilterIndices(s, q)| ==> FilterIndices(s, q)[k] < FilterIndices(s, q)[j]
    decreases |s|
  {
    if s != [] {
      var front := s[..|s| - 1];
      FilterIndicesIncrease(front, q);
      var before, idx := FilterIndices(front, q), FilterIndices(s, q);
      assert idx == before + (if Selects(q, s[|s| - 1]) then [|s| - 1] else []);
      forall k, j | 0 <= k < j < |idx|
        ensures idx[k] < idx[j]
      {
        assert idx[k] == before[k];
      }
    }
  }

  /** Every selected position is listed by `FilterIndices`. */
  lemma {:induction false} FilterIndicesComplete(s: seq<Record>, q: Selector)
    ensures forall i :: 0 <= i < |s| && Selects(q, s[i]) ==> i in FilterIndices(s, q)
    decreases |s|
  {
    if s != [] {
      var front := s[..|s| - 1];
      FilterIndicesComplete(front, q);
      var before, idx := FilterIndices(front, q), FilterIndices(s, q);
      assert idx == before + (if Selects(q, s[|s| - 1]) then [|s| - 1] else []);
      forall i | 0 <= i < |s| && Selects(q, s[i])
        ensures i in idx
      {
        if i < |front| {
          assert s[i] == front[i];
          assert i in before;
        }
      }
    }
  }

  /**
   * A filter is an order-preserving subsequence: its k-th record is the record at the
   * k-th selected position of `s`, positions increase, and every selected position is kept.
   */
  lemma {:induction false} FilterKeepsSelectedInOrder(s: seq<Record>, q: Selector)
    ensures var idx := FilterIndices(s, q);
      && |idx| == |Filter(s, q)|
      && (forall k :: 0 <= k < |idx| ==> idx[k] < |s| && s[idx[k]] == Filter(s, q)[k])
      && (forall k, j :: 0 <= k < j < |idx| ==> idx[k] < idx[j])
      && (forall i :: 0 <= i < |s| && Selects(q, s[i]) ==> i in idx)
  {
    FilterIndicesHoldRecords(s, q);
    FilterIndicesIncrease(s, q);
    FilterIndicesComplete(s, q);
  }

  /** A record is in a filter exactly when it is in the log and selected. */
  lemma FilterMembership(s: seq<Record>, q: Selector)
    ensures forall x :: x in Filter(s, q) <==> x in s && Selects(q, x)
  {
    FilterKeepsSelectedInOrder(s, q);
    var idx := FilterIndices(s, q);
    var r := Filter(s, q);
    forall x | x in r ensures x in s {
      var k :| 0 <= k < |r| && r[k] == x;
      assert s[idx[k]] == x;
    }
    forall x | x in s && Selects(q, x) ensures x in r {
      var i :| 0 <= i < |s| && s[i] == x;
      assert i in idx;
      var k :| 0 <= k < |idx| && idx[k] == i;
      assert r[k] == x;
    }
  }

  /** Filtering a concatenation filters each part. */
  lemma {:induction false} FilterConcat(a: seq<Record>, b: seq<Record>, q: Selector)
    ensures Filter(a + b, q) == Filter(a, q) + Filter(b, q)
    decreases |b|
  {
    if b == [] {
      assert a + b == a;
    } else {
      var b' := b[..|b| - 1];
      assert (a + b)[..|a + b| - 1] == a + b';
      assert (a + b)[|a + b| - 1] == b[|b| - 1];
      FilterConcat(a, b', q);
    }
  }

  /** The three projections of `tracking_by_email`. */
  datatype ByEmail = ByEmail(opens: seq<Record>, clicks: seq<Record>, imgReads: seq<Record>)


  /**
   * The view for one recipient: the opens and the clicks among the events and the
   * image reads among the reads. A record is in a view exactly when it is in the log
   * and has that type and email.
   */
  function TrackingByEmail(events: seq<Record>, imgReads: seq<Record>, email: string): (v: ByEmail)
    ensures forall x :: x in v.opens <==> x in events && Get(x, "type") == Str("pixel_open") && Get(x, "email") == Str(email)
    ensures forall x :: x in v.clicks <==> x in events && Get(x, "type") == Str("click") && Get(x, "email") == Str(email)
    ensures forall x :: x in v.imgReads <==> x in imgReads && Get(x, "email") == Str(email)
  {
    FilterMembership(events, TypeAndEmail("pixel_open", email));
    FilterMembership(events, TypeAndEmail("click", email));
    FilterMembership(imgReads, EmailOnly(email));
    ByEmail(Filter(events, TypeAndEmail("pixel_open", email)),
            Filter(events, TypeAndEmail("click", email)),
            Filter(imgReads, EmailOnly(email)))
  }

  /** The end of the Python slice `[0:n]` over a list of `len` elements. */
  function SliceStop(n: int, len: nat): (k: nat)
    ensures k <= len
    ensures n >= 0 ==> k == if n < len then n else len
    ensures n < 0 ==> k == if len + n > 0 then len + n else 0
  {
    if n >= 0 then (if n < len then n else len)
    else if len + n > 0 then len + n else 0
  }

  /** `list(reversed(s))`. */
  function Reversed(s: seq<Record>): (r: seq<Record>)
    ensures |r| == |s|
    ensures forall k :: 0 <= k < |s| ==> r[k] == s[|s| - 1 - k]
    decreases |s|
  {
    if s == [] then [] else [s[|s| - 1]] + Reversed(s[..|s| - 1])
  }

  /**
   * `list(reversed(s))[0:n]`: the newest records first. For n >= 0 there are min(n, |s|)
   * of them; a negative n follows Python's slicing and drops the |n| oldest instead.
   */
  function Newest(s: seq<Record>, n: int): (r: seq<Record>)
    ensures |r| == SliceStop(n, |s|)
    ensures forall k :: 0 <= k < |r| ==> r[k] == s[|s| - 1 - k]
  {
    Reversed(s)[..SliceStop(n, |s|)]
  }

  /** The number of records `tracking_latest` returns when the request gives none. */
  const DefaultLatestCount: int := 200

  /**
   * With the default count, a log of at most 200 records is shown whole, newest first;
   * a longer log shows its 200 newest.
   */
  lemma DefaultLatestShowsNewest(s: seq<Record>)
    ensures |s| <= DefaultLatestCount ==> Newest(s, DefaultLatestCount) == Reversed(s)
    ensures |s| > DefaultLatestCount ==> Newest(s, DefaultLatestCount) == Reversed(s)[..DefaultLatestCount]
  {
  }

  /** The two lists of `tracking_latest`. */
  datatype Latest = Latest(events: seq<Record>, imgReads: seq<Record>)

  function TrackingLatest(events: seq<Record>, imgReads: seq<Record>, n: int): (v: Latest)
    ensures v.events == Newest(events, n) && v.imgReads == Newest(imgReads, n)
  {
    Latest(Newest(events, n), Newest(imgReads, n))
  }

  /** After appending three events, the latest two are the last two, newest first. */
  lemma LatestTwoOfThree(e1: Record, e2: Record, e3: Record)
    ensures Newest([e1, e2, e3], 2) == [e3, e2]
  {
  }

  /** The record appended last is the first of the newest; the rest are the older newest. */
  lemma {:induction false} NewestAfterAppend(s: seq<Record>, e: Record, n: int)
    requires n >= 1
    ensures Newest(s + [e], n) == [e] + Newest(s, n - 1)
  {
    var lhs := Newest(s + [e], n);
    var rhs := [e] + Newest(s, n - 1);
    assert |lhs| == |rhs|;
    forall k | 0 <= k < |lhs| ensures lhs[k] == rhs[k] {
      if k > 0 {
        assert rhs[k] == Newest(s, n - 1)[k - 1] == s[|s| - 1 - (k - 1)];
      }
    }
  }

  /**
   * A click stored for `email` shows up last among that recipient's clicks, and leaves
   * the recipient's opens as they were.
   */
  lemma ClickShowsUpLast(ls: seq<Line>, email: string, redirect: string, messageId: Option<string>, client: Client, now: int)
    ensures var after := ParseLines(ls + [StoredLine(ClickEvent(email, redirect, messageId, client), now)]);
      && Filter(after, TypeAndEmail("click", email))
         == Filter(ParseLines(ls), TypeAndEmail("click", email)) + [Stamped(ClickEvent(email, redirect, messageId, client), now)]
      && Filter(after, TypeAndEmail("pixel_open", email)) == Filter(ParseLines(ls), TypeAndEmail("pixel_open", email))
  {
    var c := Stamped(ClickEvent(email, redirect, messageId, client), now);
    ReadAfterAppend(ls, ClickEvent(email, redirect, messageId, client), now);
    FilterConcat(ParseLines(ls), [c], TypeAndEmail("click", email));
    FilterConcat(ParseLines(ls), [c], TypeAndEmail("pixel_open", email));
    assert Get(c, "type") == Str("click") && Get(c, "email") == Str(email);
  }

  /** A line without a record, injected into either log, appears in no query result. */
  lemma NonRecordLineInNoView(a: seq<Line>, l: Line, b: seq<Line>, other: seq<Line>, email: string, n: int)
    requires !IsRecordLine(l)
    ensures TrackingByEmail(ParseLines(a + [l] + b), ParseLines(other), email) == TrackingByEmail(ParseLines(a + b), ParseLines(other), email)
    ensures TrackingByEmail(ParseLines(other), ParseLines(a + [l] + b), email) == TrackingByEmail(ParseLines(other), ParseLines(a + b), email)
    ensures TrackingLatest(ParseLines(a + [l] + b), ParseLines(other), n) == TrackingLatest(ParseLines(a + b), ParseLines(other), n)
    ensures TrackingLatest(ParseLines(other), ParseLines(a + [l] + b), n) == TrackingLatest(ParseLines(other), ParseLines(a + b), n)
  {
    NonRecordLineInvisible(a, l, b);
  }
}
