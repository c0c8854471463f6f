/**
 * The line-delimited log files and what reading one yields. A log file is its
 * sequence of lines; appending writes one line holding the serialized record.
 */
module EventStore {
  import opened Records

  /** A JSON value parsed from one line: an object, or any other JSON value. */
  datatype Json = Object(fields: Record) | NonObject

  /**
   * One line of a log file.
   * - `Blank` is empty after stripping whitespace.
   * - `Malformed` fails to parse as JSON.
   * - `Parsed(v)` parses to the JSON value `v`.
   */
  datatype Line = Blank | Malformed | Parsed(value: Json)

  predicate IsRecordLine(l: Line) {
    l.Parsed? && l.value.Object?
  }

  /** The line `append_event` writes for `obj` when the clock reads `now`. */
  function StoredLine(obj: Record, now: int): (l: Line)
    ensures IsRecordLine(l) && l.value.fields == Stamped(obj, now)
  {
    Parsed(Object(Stamped(obj, now)))
  }

  /** What reading one line contributes: its record if it holds one, nothing otherwise. */
  function Kept(l: Line): seq<Record> {
    if IsRecordLine(l) then [l.value.fields] else []
  }

  /**
   * The records `read_jsonl` returns for a file: the records of its lines, in file
   * order; blank lines, malformed lines and lines holding non-object JSON are
   * skipped (the last of these is the corrected behaviour: the code keeps them).
   */
  function ParseLines(ls: seq<Line>): (rs: seq<Record>)
    ensures |rs| <= |ls|
    decreases |ls|
  {
    if ls == [] then [] else ParseLines(ls[..|ls| - 1]) + Kept(ls[|ls| - 1])
  }

  /** The positions of the lines that hold records, in file order; each is a position of `ls`. */
  function KeptIndices(ls: seq<Line>): (idx: seq<nat>)
    ensures forall k :: 0 <= k < |idx| ==> idx[k] < |ls|
    decreases |ls|
  {
    if ls == [] then []
    else KeptIndices(ls[..|ls| - 1]) + (if IsRecordLine(ls[|ls| - 1]) then [|ls| - 1] else [])
  }

  /** The k-th position `KeptIndices` lists holds the k-th record read. */
  lemma {:induction false} KeptIndicesHoldRecords(ls: seq<Line>)
    ensures |KeptIndices(ls)| == |ParseLines(ls)|
    ensures forall k :: 0 <= k < |KeptIndices(ls)| ==> ls[KeptIndices(ls)[k]] == Parsed(Object(ParseLines(ls)[k]))
    decreases |ls|
  {
    if ls != [] {
      var front := ls[..|ls| - 1];
      KeptIndicesHoldRecords(front);
      var before, rf := KeptIndices(front), ParseLines(front);
      var idx, rs := KeptIndices(ls), ParseLines(ls);
      assert rs == rf + Kept(ls[|ls| - 1]);
      assert idx == before + (if IsRecordLine(ls[|ls| - 1]) then [|ls| - 1] else []);
      forall k | 0 <= k < |idx|
        ensures ls[idx[k]] == Parsed(Object(rs[k]))
      {
        if k < |before| {
          assert idx[k] == before[k] && rs[k] == rf[k];
          assert ls[before[k]] == front[before[k]];
        }
      }
    }
  }

  /** The positions `KeptIndices` lists are strictly increasing. */
  lemma {:induction false} KeptIndicesIncrease(ls: seq<Line>)
    ensures forall k, j :: 0 <= k < j < |KeptIndices(ls)| ==> KeptIndices(ls)[k] < KeptIndices(ls)[j]
    decreases |ls|
  {
    if ls != [] {
      var front := ls[..|ls| - 1];
      KeptIndicesIncrease(front);
      var before, idx := KeptIndices(front), KeptIndices(ls);
      assert idx == before + (if IsRecordLine(ls[|ls| - 1]) then [|ls| - 1] else []);
      forall k, j | 0 <= k < j < |idx|
        ensures idx[k] < idx[j]
      {
        assert idx[k] == before[k];
      }
    }
  }

  /** Every line that holds a record is listed by `KeptIndices`. */
  lemma {:induction false} KeptIndicesComplete(ls: seq<Line>)
    ensures forall i :: 0 <= i < |ls| && IsRecordLine(ls[i]) ==> i in KeptIndices(ls)
    decreases |ls|
  {
    if ls != [] {
      var front := ls[..|ls| - 1];
      KeptIndicesComplete(front);
      var before, idx := KeptIndices(front), KeptIndices(ls);
      assert idx == before + (if IsRecordLine(ls[|ls| - 1]) then [|ls| - 1] else []);
      forall i | 0 <= i < |ls| && IsRecordLine(ls[i])
        ensures i in idx
      {
        if i < |front| {
          assert ls[i] == front[i];
          assert i in before;
        }
      }
    }
  }

  /**
   * The positions `KeptIndices` lists are strictly increasing, the k-th one holds the
   * k-th record read, and every record line is among them: reading yields exactly the
   * record lines, in file order.
   */
  lemma {:induction false} ReadKeepsRecordLinesInOrder(ls: seq<Line>)
    ensures var idx := KeptIndices(ls);
      && |idx| == |ParseLines(ls)|
      && (forall k :: 0 <= k < |idx| ==> idx[k] < |ls| && ls[idx[k]] == Parsed(Object(ParseLines(ls)[k])))
      && (forall k, j :: 0 <= k < j < |idx| ==> idx[k] < idx[j])
      && (forall i :: 0 <= i < |ls| && IsRecordLine(ls[i]) ==> i in idx)
  {
    KeptIndicesHoldRecords(ls);
    KeptIndicesIncrease(ls);
    KeptIndicesComplete(ls);
  }

  /** Reading a file that is the concatenation of two files reads one, then the other. */
  lemma {:induction false} ParseLinesConcat(a: seq<Line>, b: seq<Line>)
    ensures ParseLines(a + b) == ParseLines(a) + ParseLines(b)
    decreases |b|
  {
    if b == [] {
      assert a + b == a;
    } else {
      var b' := b[..|b| - 1];
      assert (a + b)[..|a + b| - 1] == a + b';
      ParseLinesConcat(a, b');
    }
  }

  /** Read after append: the appended record comes back last, after everything read before. */
  lemma ReadAfterAppend(ls: seq<Line>, obj: Record, now: int)
    ensures ParseLines(ls + [StoredLine(obj, now)]) == ParseLines(ls) + [Stamped(obj, now)]
  {
    assert (ls + [StoredLine(obj, now)])[..|ls|] == ls;
  }

  /** A line without a record, injected anywhere, changes nothing that is read. */
  lemma {:induction false} NonRecordLineInvisible(a: seq<Line>, l: Line, b: seq<Line>)
    requires !IsRecordLine(l)
    ensures ParseLines(a + [l] + b) == ParseLines(a + b)
  {
    ParseLinesConcat(a + [l], b);
    ParseLinesConcat(a, b);
    assert (a + [l])[..|a|] == a;
  }

  /**
   * Read after several appends: the records come back in append order, each stamped
   * with the clock reading of its own append.
   */
  lemma {:induction false} ReadAfterAppends(ls: seq<Line>, objs: seq<Record>, nows: seq<int>)
    requires |nows| == |objs|
    ensures ParseLines(ls + StoredLines(objs, nows)) == ParseLines(ls) + StampedAll(objs, nows)
    decreases |objs|
  {
    if objs != [] {
      var n := |objs| - 1;
      var front, fronts := objs[..n], nows[..n];
      assert StoredLines(objs, nows) == StoredLines(front, fronts) + [StoredLine(objs[n], nows[n])];
      assert ls + StoredLines(objs, nows) == (ls + StoredLines(front, fronts)) + [StoredLine(objs[n], nows[n])];
      ReadAfterAppend(ls + StoredLines(front, fronts), objs[n], nows[n]);
      ReadAfterAppends(ls, front, fronts);
    } else {
      assert ls + StoredLines(objs, nows) == ls;
    }
  }

  /** The lines written by appending each record of `objs` in turn, the k-th at `nows[k]`. */
  function StoredLines(objs: seq<Record>, nows: seq<int>): (ls: seq<Line>)
    requires |nows| == |objs|
    ensures |ls| == |objs|
    ensures forall k :: 0 <= k < |objs| ==> ls[k] == StoredLine(objs[k], nows[k])
    decreases |objs|
  {
    if objs == [] then []
    else StoredLines(objs[..|objs| - 1], nows[..|objs| - 1]) + [StoredLine(objs[|objs| - 1], nows[|objs| - 1])]
  }

  function StampedAll(objs: seq<Record>, nows: seq<int>): (rs: seq<Record>)
    requires |nows| == |objs|
    ensures |rs| == |objs|
    ensures forall k :: 0 <= k < |objs| ==> rs[k] == Stamped(objs[k], nows[k])
    decreases |objs|
  {
    if objs == [] then []
    else StampedAll(objs[..|objs| - 1], nows[..|objs| - 1]) + [Stamped(objs[|objs| - 1], nows[|objs| - 1])]
  }

  /**
   * `read_jsonl` as written: every line that parses is kept, whatever JSON value it
   * holds, so a line such as `42` yields a value that is not a record.
   */
  function ReadJsonlAsWritten(ls: seq<Line>): (vs: seq<Json>)
    ensures |vs| <= |ls|
    ensures forall v :: v in vs ==> Parsed(v) in ls
    decreases |ls|
  {
    if ls == [] then []
    else
      var last := ls[|ls| - 1];
      ReadJsonlAsWritten(ls[..|ls| - 1]) + (if last.Parsed? then [last.value] else [])
  }

  /** The positions of the lines that parse, in file order; each is a position of `ls`. */
  function ParsedIndices(ls: seq<Line>): (idx: seq<nat>)
    ensures forall k :: 0 <= k < |idx| ==> idx[k] < |ls|
    decreases |ls|
  {
    if ls == [] then []
    else ParsedIndices(ls[..|ls| - 1]) + (if ls[|ls| - 1].Parsed? then [|ls| - 1] else [])
  }

  /** The k-th position `ParsedIndices` lists holds the k-th value read as written. */
  lemma {:induction false} ParsedIndicesHoldValues(ls: seq<Line>)
    ensures |ParsedIndices(ls)| == |ReadJsonlAsWritten(ls)|
    ensures forall k :: 0 <= k < |ParsedIndices(ls)| ==> ls[ParsedIndices(ls)[k]] == Parsed(ReadJsonlAsWritten(ls)[k])
    decreases |ls|
  {
    if ls != [] {
      var front := ls[..|ls| - 1];
      var last := ls[|ls| - 1];
      ParsedIndicesHoldValues(front);
      var before, vf := ParsedIndices(front), ReadJsonlAsWritten(front);
      var idx, vs := ParsedIndices(ls), ReadJsonlAsWritten(ls);
      assert vs == vf + (if last.Parsed? then [last.value] else []);
      assert idx == before + (if last.Parsed? then [|ls| - 1] else []);
      forall k | 0 <= k < |idx|
        ensures ls[idx[k]] == Parsed(vs[k])
      {
        if k < |before| {
          assert idx[k] == before[k] && vs[k] == vf[k];
          assert ls[before[k]] == front[before[k]];
        }
      }
    }
  }

  /** The positions `ParsedIndices` lists are strictly increasing. */
  lemma {:induction false} ParsedIndicesIncrease(ls: seq<Line>)
    ensures forall k, j :: 0 <= k < j < |ParsedIndices(ls)| ==> ParsedIndices(ls)[k] < ParsedIndices(ls)[j]
    decreases |ls|
  {
    if ls != [] {
      var front := ls[..|ls| - 1];
      ParsedIndicesIncrease(front);
      var before, idx := ParsedIndices(front), ParsedIndices(ls);
      assert idx == before + (if ls[|ls| - 1].Parsed? then [|ls| - 1] else []);
      forall k, j | 0 <= k < j < |idx|
        ensures idx[k] < idx[j]
      {
        assert idx[k] == before[k];
      }
    }
  }

  /** Every line that parses is listed by `ParsedIndices`. */
  lemma {:induction false} ParsedIndicesComplete(ls: seq<Line>)
    ensures forall i :: 0 <= i < |ls| && ls[i].Parsed? ==> i in ParsedIndices(ls)
    decreases |ls|
  {
    if ls != [] {
      var front := ls[..|ls| - 1];
      ParsedIndicesComplete(front);
      var before, idx := ParsedIndices(front), ParsedIndices(ls);
      assert idx == before + (if ls[|ls| - 1].Parsed? then [|ls| - 1] else []);
      forall i | 0 <= i < |ls| && ls[i].Parsed?
        ensures i in idx
      {
        if i < |front| {
          assert ls[i] == front[i];
          assert i in before;
        }
      }
    }
  }

  /**
   * `read_jsonl` as written yields exactly the lines that parse, in file order: the
   * k-th value comes from the k-th parsed line, positions increase, and no parsed
   * line is missed.
   */
  lemma {:induction false} ReadJsonlAsWrittenInOrder(ls: seq<Line>)
    ensures var idx := ParsedIndices(ls);
      && |idx| == |ReadJsonlAsWritten(ls)|
      && (forall k :: 0 <= k < |idx| ==> idx[k] < |ls| && ls[idx[k]] == Parsed(ReadJsonlAsWritten(ls)[k]))
      && (forall k, j :: 0 <= k < j < |idx| ==> idx[k] < idx[j])
      && (forall i :: 0 <= i < |ls| && ls[i].Parsed? ==> i in idx)
  {
    ParsedIndicesHoldValues(ls);
    ParsedIndicesIncrease(ls);
    ParsedIndicesComplete(ls);
  }
}
