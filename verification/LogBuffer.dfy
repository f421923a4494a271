/**
 * The log viewer's line buffer: merging batches by time, the bounded buffer on screen and the
 * amortised trimming of what arrives while the view is paused.
 */
module LogBuffer {

  datatype Entry = Line(at: int, text: string) | Marker(caption: string)

  const MAX_ENTRIES := 20_000
  const PENDING_LIMIT := 25_000

  // ---- Merging by time -----------------------------------------------------------------------

  ghost predicate AllLines(s: seq<Entry>)
  {
    forall i | 0 <= i < |s| :: s[i].Line?
  }

  /** All lines are in time order, also across markers. */
  ghost predicate TimeOrdered(s: seq<Entry>)
  {
    forall i, j | 0 <= i < j < |s| && s[i].Line? && s[j].Line? :: s[i].at <= s[j].at
  }

  /** Stable: an entry goes behind those of the same time. */
  function Insert(s: seq<Entry>, e: Entry): (r: seq<Entry>)
    requires AllLines(s) && e.Line?
    ensures AllLines(r)
  {
    if s == [] || s[|s| - 1].at <= e.at then s + [e]
    else Insert(s[..|s| - 1], e) + [s[|s| - 1]]
  }

  lemma {:induction false} InsertPermutes(s: seq<Entry>, e: Entry)
    requires AllLines(s) && e.Line?
    ensures multiset(Insert(s, e)) == multiset(s) + multiset{e}
  {
    if s != [] {
      assert s == s[..|s| - 1] + [s[|s| - 1]];
      if s[|s| - 1].at > e.at {
        InsertPermutes(s[..|s| - 1], e);
      }
    }
  }

  lemma {:induction false} InsertOrdered(s: seq<Entry>, e: Entry)
    requires AllLines(s) && e.Line? && TimeOrdered(s)
    ensures TimeOrdered(Insert(s, e))
  {
    if s != [] && s[|s| - 1].at > e.at {
      var init := s[..|s| - 1];
      InsertOrdered(init, e);
      InsertPermutes(init, e);
      forall x | x in Insert(init, e) ensures x.at <= s[|s| - 1].at {
        assert x in multiset(Insert(init, e));
      }
    }
  }

  /** The stable sort by time of one run of lines. */
  function SortByTime(run: seq<Entry>): (r: seq<Entry>)
    requires AllLines(run)
    ensures AllLines(r)
  {
    if run == [] then [] else Insert(SortByTime(run[..|run| - 1]), run[|run| - 1])
  }

  lemma {:induction false} SortSorts(run: seq<Entry>)
    requires AllLines(run)
    ensures multiset(SortByTime(run)) == multiset(run) && TimeOrdered(SortByTime(run))
  {
    if run != [] {
      var init, last := run[..|run| - 1], run[|run| - 1];
      assert run == init + [last];
      SortSorts(init);
      InsertOrdered(SortByTime(init), last);
      InsertPermutes(SortByTime(init), last);
    }
  }

  lemma InsertLast(s: seq<Entry>, e: Entry)
    requires AllLines(s) && e.Line? && (s != [] ==> s[|s| - 1].at <= e.at)
    ensures Insert(s, e) == s + [e]
  {
  }

  lemma OrderedLast(s: seq<Entry>)
    requires AllLines(s) && TimeOrdered(s) && s != []
    ensures AllLines(s[..|s| - 1]) && TimeOrdered(s[..|s| - 1])
    ensures forall i | 0 <= i < |s| :: s[i].at <= s[|s| - 1].at
  {
  }

  lemma {:induction false} SortKeepsOrder(run: seq<Entry>)
    requires AllLines(run) && TimeOrdered(run)
    ensures SortByTime(run) == run
  {
    if run != [] {
      var init, last := run[..|run| - 1], run[|run| - 1];
      OrderedLast(run);
      SortKeepsOrder(init);
      assert init != [] ==> init[|init| - 1].at <= last.at;
      InsertLast(init, last);
    }
  }

  /** Two runs in time order become one; on a tie the first run goes first. */
  function Zip(a: seq<Entry>, b: seq<Entry>): (r: seq<Entry>)
    requires AllLines(a) && AllLines(b)
    ensures AllLines(r)
  {
    if a == [] then b
    else if b == [] then a
    else if a[0].at <= b[0].at then [a[0]] + Zip(a[1..], b)
    else [b[0]] + Zip(a, b[1..])
  }

  lemma FirstApart(s: seq<Entry>)
    requires s != []
    ensures multiset(s) == multiset{s[0]} + multiset(s[1..])
  {
    assert s == [s[0]] + s[1..];
  }

  lemma {:induction false} ZipPermutes(a: seq<Entry>, b: seq<Entry>)
    requires AllLines(a) && AllLines(b)
    ensures multiset(Zip(a, b)) == multiset(a) + multiset(b)
    decreases |a| + |b|
  {
    if a != [] && b != [] {
      if a[0].at <= b[0].at {
        ZipPermutes(a[1..], b);
        FirstApart(a);
      } else {
        ZipPermutes(a, b[1..]);
        FirstApart(b);
      }
    }
  }

  /** Where a run whose oldest line is at `at` starts: not before the last marker. */
  function InsertAt(s: seq<Entry>, at: int): (k: nat)
    ensures k <= |s| && AllLines(s[k..])
  {
    if s == [] || s[|s| - 1].Marker? || s[|s| - 1].at <= at then |s|
    else
      var k := InsertAt(s[..|s| - 1], at);
      assert s[k..] == s[..|s| - 1][k..] + [s[|s| - 1]];
      k
  }

  /** Merges a sorted run into the end of the buffer. */
  function Place(s: seq<Entry>, sorted: seq<Entry>): seq<Entry>
    requires AllLines(sorted)
  {
    if sorted == [] then s
    else
      var k := InsertAt(s, sorted[0].at);
      s[..k] + Zip(s[k..], sorted)
  }

  function MergeRun(s: seq<Entry>, run: seq<Entry>): seq<Entry>
    requires AllLines(run)
  {
    Place(s, SortByTime(run))
  }

  /** Number of leading lines. */
  function RunLength(batch: seq<Entry>): (n: nat)
    ensures n <= |batch| && AllLines(batch[..n]) && (n < |batch| ==> batch[n].Marker?)
  {
    if batch == [] || batch[0].Marker? then 0
    else
      assert batch == [batch[0]] + batch[1..];
      1 + RunLength(batch[1..])
  }

  /** Runs of lines are merged into the part behind the last marker; markers stay where they arrive. */
  function Merge(s: seq<Entry>, batch: seq<Entry>): seq<Entry>
    decreases |batch|
  {
    var n := RunLength(batch);
    var merged := MergeRun(s, batch[..n]);
    if n == |batch| then merged else Merge(merged + [batch[n]], batch[n + 1..])
  }

  lemma MergeRunPermutes(s: seq<Entry>, run: seq<Entry>)
    requires AllLines(run)
    ensures multiset(MergeRun(s, run)) == multiset(s) + multiset(run)
  {
    var sorted := SortByTime(run);
    SortSorts(run);
    if sorted != [] {
      var k := InsertAt(s, sorted[0].at);
      assert s == s[..k] + s[k..];
      ZipPermutes(s[k..], sorted);
    }
  }

  /** Nothing is lost and nothing is invented. */
  lemma {:induction false} MergePermutes(s: seq<Entry>, batch: seq<Entry>)
    ensures multiset(Merge(s, batch)) == multiset(s) + multiset(batch)
    decreases |batch|
  {
    var n := RunLength(batch);
    MergeRunPermutes(s, batch[..n]);
    if n < |batch| {
      assert batch == batch[..n] + ([batch[n]] + batch[n + 1..]);
      MergePermutes(MergeRun(s, batch[..n]) + [batch[n]], batch[n + 1..]);
    } else {
      assert batch[..n] == batch;
    }
  }

  // ---- The order on screen -----------------------------------------------------------------------

  /** Between two markers the lines are in time order. */
  ghost predicate RunsOrdered(s: seq<Entry>)
  {
    forall i | 0 < i < |s| && s[i - 1].Line? && s[i].Line? :: s[i - 1].at <= s[i].at
  }

  lemma {:induction false} RunIsOrdered(s: seq<Entry>)
    requires AllLines(s) && RunsOrdered(s)
    ensures TimeOrdered(s)
  {
    if |s| > 1 {
      RunIsOrdered(s[..|s| - 1]);
      assert s[|s| - 2] == s[..|s| - 1][|s| - 2];
    }
  }

  ghost predicate AtLeast(s: seq<Entry>, at: int)
    requires AllLines(s)
  {
    forall i | 0 <= i < |s| :: at <= s[i].at
  }

  lemma OrderedFirst(s: seq<Entry>)
    requires AllLines(s) && TimeOrdered(s) && s != []
    ensures AllLines(s[1..]) && TimeOrdered(s[1..]) && AtLeast(s[1..], s[0].at) && AtLeast(s, s[0].at)
  {
  }

  lemma OrderedPrepend(e: Entry, s: seq<Entry>)
    requires e.Line? && AllLines(s) && TimeOrdered(s) && AtLeast(s, e.at)
    ensures AllLines([e] + s) && TimeOrdered([e] + s)
  {
  }

  lemma {:induction false} ZipAtLeast(a: seq<Entry>, b: seq<Entry>, at: int)
    requires AllLines(a) && AllLines(b) && AtLeast(a, at) && AtLeast(b, at)
    ensures AtLeast(Zip(a, b), at)
    decreases |a| + |b|
  {
    if a != [] && b != [] {
      if a[0].at <= b[0].at {
        ZipAtLeast(a[1..], b, at);
      } else {
        ZipAtLeast(a, b[1..], at);
      }
    }
  }

  lemma {:induction false} ZipOrdered(a: seq<Entry>, b: seq<Entry>)
    requires AllLines(a) && AllLines(b) && TimeOrdered(a) && TimeOrdered(b)
    ensures TimeOrdered(Zip(a, b))
    decreases |a| + |b|
  {
    if a != [] && b != [] {
      OrderedFirst(a);
      OrderedFirst(b);
      if a[0].at <= b[0].at {
        ZipOrdered(a[1..], b);
        ZipAtLeast(a[1..], b, a[0].at);
        OrderedPrepend(a[0], Zip(a[1..], b));
      } else {
        ZipOrdered(a, b[1..]);
        ZipAtLeast(a, b[1..], b[0].at);
        OrderedPrepend(b[0], Zip(a, b[1..]));
      }
    }
  }

  /** The run goes behind the last line that is not newer than its oldest one. */
  lemma {:induction false} InsertsBehind(s: seq<Entry>, at: int)
    ensures var k := InsertAt(s, at);
            && (k > 0 && s[k - 1].Line? ==> s[k - 1].at <= at)
            && (k < |s| ==> s[k].at > at)
  {
    if s != [] && InsertAt(s, at) < |s| {
      InsertsBehind(s[..|s| - 1], at);
    }
  }

  lemma TailIsOrdered(s: seq<Entry>, k: nat)
    requires RunsOrdered(s) && k <= |s| && AllLines(s[k..])
    ensures TimeOrdered(s[k..])
  {
    assert forall i | 0 <= i < |s| - k :: s[k..][i] == s[k + i];
    RunIsOrdered(s[k..]);
  }

  lemma JoinedRuns(s: seq<Entry>, run: seq<Entry>)
    requires RunsOrdered(s) && AllLines(run) && TimeOrdered(run)
    requires s != [] && s[|s| - 1].Line? && run != [] ==> s[|s| - 1].at <= run[0].at
    ensures RunsOrdered(s + run)
  {
  }

  lemma MergeRunOrdered(s: seq<Entry>, run: seq<Entry>)
    requires RunsOrdered(s) && AllLines(run)
    ensures RunsOrdered(MergeRun(s, run))
  {
    var sorted := SortByTime(run);
    SortSorts(run);
    if sorted != [] {
      var k := InsertAt(s, sorted[0].at);
      InsertsBehind(s, sorted[0].at);
      TailIsOrdered(s, k);
      ZipOrdered(s[k..], sorted);
      ZipFirst(s[k..], sorted);
      assert RunsOrdered(s[..k]);
      JoinedRuns(s[..k], Zip(s[k..], sorted));
    }
  }

  lemma ZipFirst(a: seq<Entry>, b: seq<Entry>)
    requires AllLines(a) && AllLines(b) && b != []
    ensures Zip(a, b) != [] && Zip(a, b)[0] == if a != [] && a[0].at <= b[0].at then a[0] else b[0]
  {
  }

  /** Merging keeps the lines between markers in time order, whatever order they arrive in. */
  lemma {:induction false} MergeOrdered(s: seq<Entry>, batch: seq<Entry>)
    requires RunsOrdered(s)
    ensures RunsOrdered(Merge(s, batch))
    decreases |batch|
  {
    var n := RunLength(batch);
    MergeRunOrdered(s, batch[..n]);
    if n < |batch| {
      MergeOrdered(MergeRun(s, batch[..n]) + [batch[n]], batch[n + 1..]);
    }
  }

  lemma TimeOrderedParts(s: seq<Entry>, t: seq<Entry>)
    requires TimeOrdered(s + t)
    ensures TimeOrdered(s) && TimeOrdered(t)
    ensures s != [] && t != [] && s[|s| - 1].Line? && t[0].Line? ==> s[|s| - 1].at <= t[0].at
  {
    assert forall i | 0 <= i < |s| :: s[i] == (s + t)[i];
    assert forall i | 0 <= i < |t| :: t[i] == (s + t)[|s| + i];
  }

  lemma AtTheEnd(s: seq<Entry>, run: seq<Entry>)
    requires AllLines(run)
    ensures s[..|s|] + Zip(s[|s|..], run) == s + run
  {
    assert s[|s|..] == [] && s[..|s|] == s;
  }

  lemma MergeRunAppends(s: seq<Entry>, run: seq<Entry>)
    requires AllLines(run) && TimeOrdered(s + run)
    ensures MergeRun(s, run) == s + run
  {
    TimeOrderedParts(s, run);
    SortKeepsOrder(run);
    if run != [] {
      assert InsertAt(s, run[0].at) == |s|;
      AtTheEnd(s, run);
    } else {
      assert s + run == s;
    }
  }

  lemma Split(s: seq<Entry>, n: nat)
    requires n < |s|
    ensures s == s[..n] + ([s[n]] + s[n + 1..])
  {
  }

  lemma Regroup(a: seq<Entry>, b: seq<Entry>, c: seq<Entry>, d: seq<Entry>)
    ensures a + (b + (c + d)) == (a + b) + (c + d) == ((a + b) + c) + d
  {
  }

  /** A batch that arrives in time order is appended as it is. */
  lemma {:induction false} MergeAppends(s: seq<Entry>, batch: seq<Entry>)
    requires TimeOrdered(s + batch)
    ensures Merge(s, batch) == s + batch
    decreases |batch|
  {
    var n := RunLength(batch);
    var run := batch[..n];
    if n == |batch| {
      assert run == batch;
      MergeRunAppends(s, run);
    } else {
      var marker, rest := [batch[n]], batch[n + 1..];
      Split(batch, n);
      Regroup(s, run, marker, rest);
      TimeOrderedParts(s + run, marker + rest);
      MergeRunAppends(s, run);
      MergeAppends((s + run) + marker, rest);
    }
  }

  // ---- The buffer ------------------------------------------------------------------------------

  function Last(s: seq<Entry>, n: nat): (r: seq<Entry>)
    ensures |r| <= n
  {
    if |s| <= n then s else s[|s| - n..]
  }

  function Markers(s: seq<Entry>): nat
  {
    if s == [] then 0 else Markers(s[..|s| - 1]) + (if s[|s| - 1].Marker? then 1 else 0)
  }

  lemma {:induction false} MarkersConcat(a: seq<Entry>, b: seq<Entry>)
    ensures Markers(a + b) == Markers(a) + Markers(b)
    ensures AllLines(b) ==> Markers(b) == 0
  {
    if b == [] {
      assert a + b == a;
    } else {
      assert (a + b)[..|a + b| - 1] == a + b[..|b| - 1];
      MarkersConcat(a, b[..|b| - 1]);
    }
  }

  lemma MergeRunMarkers(s: seq<Entry>, run: seq<Entry>)
    requires AllLines(run)
    ensures Markers(MergeRun(s, run)) == Markers(s)
  {
    var sorted := SortByTime(run);
    if sorted != [] {
      var k := InsertAt(s, sorted[0].at);
      assert s == s[..k] + s[k..];
      MarkersConcat(s[..k], s[k..]);
      MarkersConcat(s[..k], Zip(s[k..], sorted));
    }
  }

  /** A batch up to and including its first marker holds one marker. */
  lemma MarkersFirst(batch: seq<Entry>, n: nat)
    requires n < |batch| && AllLines(batch[..n]) && batch[n].Marker?
    ensures Markers(batch) == 1 + Markers(batch[n + 1..])
  {
    Split(batch, n);
    MarkersConcat(batch[..n], [batch[n]] + batch[n + 1..]);
    MarkersConcat([batch[n]], batch[n + 1..]);
    MarkersConcat([], batch[..n]);
    assert Markers([batch[n]]) == 1 + Markers([]);
  }

  lemma {:induction false} MergeMarkers(s: seq<Entry>, batch: seq<Entry>)
    ensures Markers(Merge(s, batch)) == Markers(s) + Markers(batch)
    decreases |batch|
  {
    var n := RunLength(batch);
    var merged := MergeRun(s, batch[..n]);
    MergeRunMarkers(s, batch[..n]);
    if n == |batch| {
      MarkersConcat([], batch);
      assert batch[..n] == batch;
    } else {
      MarkersFirst(batch, n);
      var next := merged + [batch[n]];
      assert Markers(next) == Markers(merged) + 1 by { assert next[..|next| - 1] == merged; }
      MergeMarkers(next, batch[n + 1..]);
    }
  }

  /** What is on screen and what has arrived since. */
  datatype Buffer = Buffer(shown: seq<Entry>, pending: seq<Entry>)

  function Push(b: Buffer, e: Entry): Buffer
  {
    var pending := b.pending + [e];
    b.(pending := if |pending| > PENDING_LIMIT then Last(pending, MAX_ENTRIES) else pending)
  }

  function Flush(b: Buffer): Buffer
  {
    if b.pending == [] then b else Buffer(Last(Merge(b.shown, b.pending), MAX_ENTRIES), [])
  }

  datatype LogBuffer = LogBuffer(entries: seq<Entry>, markerCount: nat)

  lemma MarkersNext(s: seq<Entry>, i: nat)
    requires i < |s|
    ensures Markers(s[..i + 1]) == Markers(s[..i]) + if s[i].Marker? then 1 else 0
  {
    assert s[..i + 1][..i] == s[..i];
  }

  lemma MarkersLeft(s: seq<Entry>, n: nat)
    requires n <= |s|
    ensures Markers(s[n..]) == Markers(s) - Markers(s[..n])
  {
    assert s == s[..n] + s[n..];
    MarkersConcat(s[..n], s[n..]);
  }

  method AppendEntries(state: LogBuffer, batch: seq<Entry>) returns (r: LogBuffer)
    requires state.markerCount == Markers(state.entries)
    ensures r.markerCount == Markers(r.entries)
    ensures r.entries == if batch == [] then state.entries else Last(Merge(state.entries, batch), 20_000)
  {
    if batch == [] {
      return state;
    }
    var combined := Merge(state.entries, batch);
    var overflow := if |combined| > MAX_ENTRIES then |combined| - MAX_ENTRIES else 0;
    var markerCount: int := state.markerCount;
    for i := 0 to |batch|
      invariant markerCount == Markers(state.entries) + Markers(batch[..i])
    {
      MarkersNext(batch, i);
      if batch[i].Marker? {
        markerCount := markerCount + 1;
      }
    }
    assert batch[..|batch|] == batch;
    MergeMarkers(state.entries, batch);
    for i := 0 to overflow
      invariant markerCount == Markers(combined) - Markers(combined[..i])
    {
      MarkersNext(combined, i);
      if combined[i].Marker? {
        markerCount := markerCount - 1;
      }
    }
    MarkersLeft(combined, overflow);
    r := LogBuffer(combined[overflow..], markerCount);
  }

  class Viewer {
    var buffer: LogBuffer
    var pending: seq<Entry>
    var pendingLines: nat
    var pendingMarkers: nat
    var paused: bool
    var pendingCount: nat         // the numbers shown next to the paused view
    var pendingMarkerCount: nat

    ghost predicate Valid()
      reads this
    {
      && buffer.markerCount == Markers(buffer.entries)
      && |buffer.entries| <= MAX_ENTRIES
      && |pending| <= PENDING_LIMIT <= MAX_ENTRIES + MAX_ENTRIES / 4
      && |pending| <= pendingLines + pendingMarkers
    }

    ghost function Contents(): Buffer
      reads this
    {
      Buffer(buffer.entries, pending)
    }

    constructor ()
      ensures Valid() && Contents() == Buffer([], []) && !paused
    {
      buffer, pending, pendingLines, pendingMarkers := LogBuffer([], 0), [], 0, 0;
      paused, pendingCount, pendingMarkerCount := false, 0, 0;
    }

    method PushEntry(e: Entry)
      requires Valid()
      modifies this
      ensures Valid() && Contents() == Push(old(Contents()), e)
      ensures paused == old(paused) && buffer == old(buffer)
      ensures pendingCount == old(pendingCount) && pendingMarkerCount == old(pendingMarkerCount)
      ensures pendingLines == old(pendingLines) + (if e.Line? then 1 else 0)
      ensures pendingMarkers == old(pendingMarkers) + (if e.Marker? then 1 else 0)
    {
      pending := pending + [e];
      if e.Line? {
        pendingLines := pendingLines + 1;
      } else {
        pendingMarkers := pendingMarkers + 1;
      }
      if |pending| > PENDING_LIMIT {
        pending := pending[|pending| - MAX_ENTRIES..];
      }
    }

    /** While paused nothing moves to the screen; only the counts shown next to it are refreshed. */
    method FlushBuffered()
      requires Valid()
      modifies this
      ensures Valid() && paused == old(paused)
      ensures Contents() == if paused then old(Contents()) else Flush(old(Contents()))
      ensures if paused then pendingCount == pendingLines && pendingMarkerCount == pendingMarkers
              else pendingCount == old(pendingCount) && pendingMarkerCount == old(pendingMarkerCount)
      ensures if paused || old(pending) == [] then pendingLines == old(pendingLines)
              && pendingMarkers == old(pendingMarkers)
              else pendingLines == 0 && pendingMarkers == 0
    {
      if paused {
        pendingCount, pendingMarkerCount := pendingLines, pendingMarkers;
        return;
      }
      if pending == [] {
        return;
      }
      var batch := pending;
      pending, pendingLines, pendingMarkers := [], 0, 0;
      buffer := AppendEntries(buffer, batch);
    }

    method Pause()
      requires Valid()
      modifies this`paused
      ensures Valid() && paused
    {
      paused := true;
    }

    method Resume()
      requires Valid()
      modifies this
      ensures Valid() && !paused && Contents() == Flush(old(Contents()))
      ensures pendingCount == 0 && pendingMarkerCount == 0
    {
      paused, pendingCount, pendingMarkerCount := false, 0, 0;
      FlushBuffered();
    }
  }

  // ---- Trimming loses nothing visible --------------------------------------------------------

  datatype Op = Arrive(entry: Entry) | Tick  // `Tick`: a flush while the view is not paused

  function After(ops: seq<Op>): Buffer
  {
    if ops == [] then Buffer([], [])
    else
      var b := After(ops[..|ops| - 1]);
      match ops[|ops| - 1]
      case Arrive(e) => Push(b, e)
      case Tick => Flush(b)
  }

  /** The same viewer with no bound on either buffer. */
  function Unbounded(ops: seq<Op>): Buffer
  {
    if ops == [] then Buffer([], [])
    else
      var b := Unbounded(ops[..|ops| - 1]);
      match ops[|ops| - 1]
      case Arrive(e) => b.(pending := b.pending + [e])
      case Tick => Buffer(Merge(b.shown, b.pending), [])
  }

  function Arrivals(ops: seq<Op>): seq<Entry>
  {
    if ops == [] then []
    else Arrivals(ops[..|ops| - 1]) + (if ops[|ops| - 1].Arrive? then [ops[|ops| - 1].entry] else [])
  }

  ghost predicate IsSuffix(s: seq<Entry>, t: seq<Entry>)
  {
    |s| <= |t| && s == t[|t| - |s|..]
  }

  lemma LastOfConcat(a: seq<Entry>, b: seq<Entry>, a': seq<Entry>, b': seq<Entry>)
    requires a' == Last(a, MAX_ENTRIES) && IsSuffix(b', b) && (b' == b || |b'| >= MAX_ENTRIES)
    ensures Last(a' + b', MAX_ENTRIES) == Last(a + b, MAX_ENTRIES)
  {
  }

  lemma PartsOrdered(a: seq<Entry>, b: seq<Entry>, a': seq<Entry>, b': seq<Entry>)
    requires TimeOrdered(a + b) && IsSuffix(a', a) && IsSuffix(b', b)
    ensures TimeOrdered(a' + b')
  {
    var r := a' + b';
    forall i, j | 0 <= i < j < |r| && r[i].Line? && r[j].Line? ensures r[i].at <= r[j].at {
      var p := if i < |a'| then |a| - |a'| + i else |a| + |b| - |b'| + i - |a'|;
      var q := if j < |a'| then |a| - |a'| + j else |a| + |b| - |b'| + j - |a'|;
      assert (a + b)[p] == r[i] && (a + b)[q] == r[j];
    }
  }

  /** How the bounded viewer relates to the unbounded one. */
  ghost predicate Matches(b: Buffer, u: Buffer)
  {
    && b.shown == Last(u.shown, MAX_ENTRIES)
    && IsSuffix(b.pending, u.pending) && (b.pending == u.pending || |b.pending| >= MAX_ENTRIES)
    && |b.pending| <= PENDING_LIMIT
  }

  lemma TickAppends(b: Buffer, u: Buffer)
    requires Matches(b, u) && TimeOrdered(u.shown + u.pending)
    ensures Merge(u.shown, u.pending) == u.shown + u.pending
    ensures Merge(b.shown, b.pending) == b.shown + b.pending
  {
    MergeAppends(u.shown, u.pending);
    PartsOrdered(u.shown, u.pending, b.shown, b.pending);
    MergeAppends(b.shown, b.pending);
  }

  lemma TickMatches(b: Buffer, u: Buffer)
    requires Matches(b, u)
    requires Merge(b.shown, b.pending) == b.shown + b.pending
    ensures Matches(Flush(b), Buffer(u.shown + u.pending, []))
  {
    LastOfConcat(u.shown, u.pending, b.shown, b.pending);
    if b.pending == [] {
      assert b.shown + b.pending == b.shown;
    }
  }

  lemma FlushMatches(b: Buffer, u: Buffer)
    requires Matches(b, u) && TimeOrdered(u.shown + u.pending)
    ensures Merge(u.shown, u.pending) == u.shown + u.pending && Matches(Flush(b), Buffer(u.shown + u.pending, []))
    ensures u.shown + u.pending + [] == u.shown + u.pending
  {
    TickAppends(b, u);
    TickMatches(b, u);
  }

  lemma ArriveMatches(b: Buffer, u: Buffer, e: Entry)
    requires Matches(b, u)
    ensures Matches(Push(b, e), Buffer(u.shown, u.pending + [e]))
  {
  }

  lemma TickIsFlush(ops: seq<Op>)
    ensures After(ops + [Tick]) == Flush(After(ops)) && Arrivals(ops + [Tick]) == Arrivals(ops)
    ensures Unbounded(ops + [Tick]).pending == []
  {
    assert (ops + [Tick])[..|ops|] == ops;
    assert Arrivals(ops) + [] == Arrivals(ops);
  }

  lemma {:induction false} RunMatches(ops: seq<Op>)
    requires TimeOrdered(Arrivals(ops))
    ensures Unbounded(ops).shown + Unbounded(ops).pending == Arrivals(ops)
    ensures Matches(After(ops), Unbounded(ops))
  {
    if ops != [] {
      var before, op := ops[..|ops| - 1], ops[|ops| - 1];
      var (b, u) := (After(before), Unbounded(before));
      var arrived := if op.Arrive? then [op.entry] else [];
      TimeOrderedParts(Arrivals(before), arrived);
      RunMatches(before);
      if op.Tick? {
        FlushMatches(b, u);
      } else {
        ArriveMatches(b, u, op.entry);
        assert u.shown + (u.pending + [op.entry]) == Arrivals(before) + [op.entry];
      }
    }
  }

  /**
   * For arrivals in time order, whatever was trimmed on the way would not have been visible: the
   * next flush shows the newest entries of the unbounded viewer, and both bounds hold throughout.
   */
  lemma TrimmingIsInvisible(ops: seq<Op>)
    requires TimeOrdered(Arrivals(ops))
    ensures Flush(After(ops)).shown == Last(Unbounded(ops + [Tick]).shown, 20_000) == Last(Arrivals(ops), 20_000)
    ensures |After(ops).pending| <= 25_000 && |After(ops).shown| <= 20_000
  {
    TickIsFlush(ops);
    RunMatches(ops);
    RunMatches(ops + [Tick]);
    var u := Unbounded(ops + [Tick]);
    assert u.shown + [] == u.shown;
  }

  // ---- Exactly when trimming loses a line ----------------------------------------------------------

  function Without(s: seq<Entry>, gone: seq<Entry>): (r: seq<Entry>)
    ensures AllLines(s) ==> AllLines(r)
  {
    if s == [] then []
    else Without(s[..|s| - 1], gone) + if s[|s| - 1] in gone then [] else [s[|s| - 1]]
  }

  lemma {:induction false} WithoutMembers(s: seq<Entry>, gone: seq<Entry>)
    ensures forall e | e in Without(s, gone) :: e in s && e !in gone
  {
    if s != [] {
      WithoutMembers(s[..|s| - 1], gone);
    }
  }

  lemma {:induction false} WithoutConcat(a: seq<Entry>, b: seq<Entry>, gone: seq<Entry>)
    ensures Without(a + b, gone) == Without(a, gone) + Without(b, gone)
  {
    if b == [] {
      assert a + b == a;
    } else {
      assert (a + b)[..|a + b| - 1] == a + b[..|b| - 1];
      WithoutConcat(a, b[..|b| - 1], gone);
    }
  }

  lemma {:induction false} WithoutNone(s: seq<Entry>, gone: seq<Entry>)
    requires forall e | e in s :: e !in gone
    ensures Without(s, gone) == s
  {
    if s != [] {
      assert s == s[..|s| - 1] + [s[|s| - 1]];
      WithoutNone(s[..|s| - 1], gone);
    }
  }

  lemma {:induction false} WithoutAll(s: seq<Entry>, gone: seq<Entry>)
    requires forall e | e in s :: e in gone
    ensures Without(s, gone) == []
  {
    if s != [] {
      WithoutAll(s[..|s| - 1], gone);
    }
  }

  lemma WithoutFirst(e: Entry, s: seq<Entry>, gone: seq<Entry>)
    ensures Without([e] + s, gone) == if e in gone then Without(s, gone) else [e] + Without(s, gone)
  {
    WithoutConcat([e], s, gone);
    assert [e][..0] == [];
  }

  lemma WithoutLast(s: seq<Entry>, e: Entry, gone: seq<Entry>)
    ensures Without(s + [e], gone) == if e in gone then Without(s, gone) else Without(s, gone) + [e]
  {
    assert (s + [e])[..|s|] == s;
  }

  lemma {:induction false} WithoutOrdered(s: seq<Entry>, gone: seq<Entry>, at: int)
    requires AllLines(s)
    ensures (forall i | 0 <= i < |s| :: s[i].at <= at)
            ==> forall i | 0 <= i < |Without(s, gone)| :: Without(s, gone)[i].at <= at
    ensures AtLeast(s, at) ==> AtLeast(Without(s, gone), at)
  {
    if s != [] {
      WithoutOrdered(s[..|s| - 1], gone, at);
    }
  }

  lemma InsertBefore(s: seq<Entry>, last: Entry, e: Entry)
    requires AllLines(s) && last.Line? && e.Line? && last.at > e.at
    ensures Insert(s + [last], e) == Insert(s, e) + [last]
  {
    assert (s + [last])[..|s|] == s;
  }

  lemma InsertNewest(s: seq<Entry>, e: Entry, gone: seq<Entry>)
    requires AllLines(s) && e.Line? && forall i | 0 <= i < |s| :: s[i].at <= e.at
    ensures Without(Insert(s, e), gone) == if e in gone then Without(s, gone) else Insert(Without(s, gone), e)
  {
    InsertLast(s, e);
    WithoutLast(s, e, gone);
    WithoutOrdered(s, gone, e.at);
    InsertLast(Without(s, gone), e);
  }

  lemma InsertOlder(s: seq<Entry>, last: Entry, e: Entry, gone: seq<Entry>)
    requires AllLines(s) && last.Line? && e.Line? && last.at > e.at
    requires Without(Insert(s, e), gone) == if e in gone then Without(s, gone) else Insert(Without(s, gone), e)
    ensures Without(Insert(s + [last], e), gone)
         == if e in gone then Without(s + [last], gone) else Insert(Without(s + [last], gone), e)
  {
    InsertBefore(s, last, e);
    WithoutLast(Insert(s, e), last, gone);
    WithoutLast(s, last, gone);
    InsertBefore(Without(s, gone), last, e);
  }

  lemma {:induction false} InsertWithout(s: seq<Entry>, e: Entry, gone: seq<Entry>)
    requires AllLines(s) && TimeOrdered(s) && e.Line?
    ensures Without(Insert(s, e), gone) == if e in gone then Without(s, gone) else Insert(Without(s, gone), e)
  {
    if s == [] {
      InsertNewest(s, e, gone);
    } else {
      var init, last := s[..|s| - 1], s[|s| - 1];
      assert s == init + [last];
      OrderedLast(s);
      if last.at <= e.at {
        InsertNewest(s, e, gone);
      } else {
        InsertWithout(init, e, gone);
        InsertOlder(init, last, e, gone);
      }
    }
  }

  lemma {:induction false} SortWithout(run: seq<Entry>, gone: seq<Entry>)
    requires AllLines(run)
    ensures SortByTime(Without(run, gone)) == Without(SortByTime(run), gone)
  {
    if run != [] {
      var init, last := run[..|run| - 1], run[|run| - 1];
      assert run == init + [last];
      SortWithout(init, gone);
      SortSorts(init);
      SortSnoc(init, last);
      WithoutLast(init, last, gone);
      InsertWithout(SortByTime(init), last, gone);
      if last !in gone {
        SortSnoc(Without(init, gone), last);
      }
    }
  }

  lemma SortSnoc(run: seq<Entry>, last: Entry)
    requires AllLines(run) && last.Line?
    ensures SortByTime(run + [last]) == Insert(SortByTime(run), last)
  {
    assert (run + [last])[..|run|] == run;
  }

  lemma ZipHead(a: seq<Entry>, b: seq<Entry>)
    requires AllLines(a) && AllLines(b) && a != [] && AtLeast(b, a[0].at)
    ensures Zip(a, b) == [a[0]] + Zip(a[1..], b)
  {
    if b == [] {
      assert a == [a[0]] + a[1..];
    }
  }

  lemma {:induction false} ZipWithout(a: seq<Entry>, b: seq<Entry>, gone: seq<Entry>)
    requires AllLines(a) && AllLines(b) && TimeOrdered(b) && forall e | e in a :: e !in gone
    ensures Without(Zip(a, b), gone) == Zip(a, Without(b, gone))
    decreases |a| + |b|
  {
    if a == [] {
    } else if b == [] {
      WithoutNone(a, gone);
    } else if a[0].at <= b[0].at {
      OrderedFirst(b);
      ZipWithout(a[1..], b, gone);
      WithoutFirst(a[0], Zip(a[1..], b), gone);
      WithoutOrdered(b, gone, b[0].at);
      ZipHead(a, Without(b, gone));
    } else {
      OrderedFirst(b);
      ZipWithout(a, b[1..], gone);
      WithoutFirst(b[0], Zip(a, b[1..]), gone);
      SecondGoesFirst(a, b, gone);
    }
  }

  lemma SecondGoesFirst(a: seq<Entry>, b: seq<Entry>, gone: seq<Entry>)
    requires AllLines(a) && AllLines(b) && a != [] && b != [] && a[0].at > b[0].at
    ensures Zip(a, Without(b, gone))
         == if b[0] in gone then Zip(a, Without(b[1..], gone)) else [b[0]] + Zip(a, Without(b[1..], gone))
  {
    assert b == [b[0]] + b[1..];
    WithoutFirst(b[0], b[1..], gone);
    if b[0] !in gone {
      assert Without(b, gone)[1..] == Without(b[1..], gone);
    }
  }

  /** Lines that are not newer than the run's oldest stay in front of it. */
  lemma {:induction false} ZipSkips(a: seq<Entry>, b: seq<Entry>, m: nat)
    requires AllLines(a) && AllLines(b) && m <= |a| && b != [] && forall i | 0 <= i < m :: a[i].at <= b[0].at
    ensures Zip(a, b) == a[..m] + Zip(a[m..], b)
  {
    if m > 0 {
      ZipSkips(a[1..], b, m - 1);
      assert a[1..][..m - 1] == a[1..m] && a[1..][m - 1..] == a[m..];
      assert a[..m] == [a[0]] + a[1..m];
    } else {
      assert a[m..] == a;
    }
  }

  lemma {:induction false} InsertAtMonotone(s: seq<Entry>, at: int, later: int)
    requires at <= later
    ensures InsertAt(s, at) <= InsertAt(s, later)
  {
    if s != [] && s[|s| - 1].Line? && s[|s| - 1].at > later {
      InsertAtMonotone(s[..|s| - 1], at, later);
    }
  }

  lemma FrontStays(s: seq<Entry>, k: nat, zipped: seq<Entry>, gone: seq<Entry>)
    requires k <= |s| && forall e | e in s :: e !in gone
    ensures Without(s[..k] + zipped, gone) == s[..k] + Without(zipped, gone)
  {
    WithoutConcat(s[..k], zipped, gone);
    WithoutNone(s[..k], gone);
  }

  lemma PlaceFewer(s: seq<Entry>, sorted: seq<Entry>, gone: seq<Entry>)
    requires AllLines(sorted) && TimeOrdered(sorted) && sorted != [] && forall e | e in s :: e !in gone
    ensures var k := InsertAt(s, sorted[0].at);
            Without(Place(s, sorted), gone) == s[..k] + Zip(s[k..], Without(sorted, gone))
  {
    var k := InsertAt(s, sorted[0].at);
    FrontStays(s, k, Zip(s[k..], sorted), gone);
    assert forall e | e in s[k..] :: e in s;
    ZipWithout(s[k..], sorted, gone);
  }

  lemma PlaceWithout(s: seq<Entry>, sorted: seq<Entry>, gone: seq<Entry>)
    requires RunsOrdered(s) && AllLines(sorted) && TimeOrdered(sorted) && forall e | e in s :: e !in gone
    ensures Place(s, Without(sorted, gone)) == Without(Place(s, sorted), gone)
  {
    if sorted == [] {
      WithoutNone(s, gone);
    } else {
      PlaceFewer(s, sorted, gone);
      OrderedFirst(sorted);
      WithoutOrdered(sorted, gone, sorted[0].at);
      PlaceLater(s, sorted[0].at, Without(sorted, gone));
    }
  }

  lemma PlaceLater(s: seq<Entry>, at: int, run: seq<Entry>)
    requires RunsOrdered(s) && AllLines(run) && AtLeast(run, at)
    ensures s[..InsertAt(s, at)] + Zip(s[InsertAt(s, at)..], run) == Place(s, run)
  {
    if run == [] {
      assert s == s[..InsertAt(s, at)] + s[InsertAt(s, at)..];
    } else {
      LaterStart(s, at, run);
    }
  }

  /** Merging fewer lines shows the same without them. */
  lemma MergeRunWithout(s: seq<Entry>, run: seq<Entry>, gone: seq<Entry>)
    requires RunsOrdered(s) && AllLines(run) && forall e | e in s :: e !in gone
    ensures MergeRun(s, Without(run, gone)) == Without(MergeRun(s, run), gone)
  {
    SortWithout(run, gone);
    SortSorts(run);
    PlaceWithout(s, SortByTime(run), gone);
  }

  /** Where later lines start, nothing in between is newer than they are. */
  lemma LaterInsert(s: seq<Entry>, at: int, later: int)
    requires RunsOrdered(s) && at <= later
    ensures var k, n := InsertAt(s, at), InsertAt(s, later);
            k <= n && forall i | 0 <= i < n - k :: s[k..][i].at <= later
  {
    InsertAtMonotone(s, at, later);
    InsertsBehind(s, later);
    TailIsOrdered(s, InsertAt(s, at));
    UpTo(s, InsertAt(s, at), InsertAt(s, later), later);
  }

  lemma LaterStart(s: seq<Entry>, at: int, run: seq<Entry>)
    requires RunsOrdered(s) && AllLines(run) && run != [] && at <= run[0].at
    ensures var k, later := InsertAt(s, at), InsertAt(s, run[0].at);
            s[..k] + Zip(s[k..], run) == s[..later] + Zip(s[later..], run)
  {
    LaterInsert(s, at, run[0].at);
    ShiftStart(s, InsertAt(s, at), InsertAt(s, run[0].at), run);
  }

  lemma Parts(s: seq<Entry>, k: nat, later: nat)
    requires k <= later <= |s|
    ensures s[k..][later - k..] == s[later..] && s[..k] + s[k..][..later - k] == s[..later]
  {
  }

  lemma Regrouped(a: seq<Entry>, b: seq<Entry>, c: seq<Entry>)
    ensures a + (b + c) == (a + b) + c
  {
  }

  lemma ShiftStart(s: seq<Entry>, k: nat, later: nat, run: seq<Entry>)
    requires k <= later <= |s| && AllLines(s[k..]) && AllLines(s[later..]) && AllLines(run) && run != []
    requires forall i | 0 <= i < later - k :: s[k..][i].at <= run[0].at
    ensures s[..k] + Zip(s[k..], run) == s[..later] + Zip(s[later..], run)
  {
    ZipSkips(s[k..], run, later - k);
    Parts(s, k, later);
    Regrouped(s[..k], s[k..][..later - k], Zip(s[later..], run));
  }

  lemma UpTo(s: seq<Entry>, k: nat, later: nat, at: int)
    requires k <= later <= |s| && AllLines(s[k..]) && TimeOrdered(s[k..])
    requires later > k && s[later - 1].Line? ==> s[later - 1].at <= at
    ensures forall i | 0 <= i < later - k :: s[k..][i].at <= at
  {
    if later > k {
      assert s[k..][later - 1 - k] == s[later - 1];
    }
  }

  function PushAll(b: Buffer, arrivals: seq<Entry>): Buffer
  {
    if arrivals == [] then b else Push(PushAll(b, arrivals[..|arrivals| - 1]), arrivals[|arrivals| - 1])
  }

  ghost predicate HoldsBack(b: Buffer, shown: seq<Entry>, arrivals: seq<Entry>)
  {
    b.shown == shown && IsSuffix(b.pending, arrivals) && (b.pending == arrivals || |b.pending| >= MAX_ENTRIES)
  }

  lemma SuffixGrows(s: seq<Entry>, t: seq<Entry>, e: Entry)
    requires IsSuffix(s, t)
    ensures IsSuffix(s + [e], t + [e])
  {
  }

  lemma LastIsSuffix(s: seq<Entry>, t: seq<Entry>, n: nat)
    requires IsSuffix(s, t)
    ensures IsSuffix(Last(s, n), t)
  {
  }

  lemma PushHolds(b: Buffer, shown: seq<Entry>, before: seq<Entry>, e: Entry, arrivals: seq<Entry>)
    requires HoldsBack(b, shown, before) && arrivals == before + [e]
    ensures HoldsBack(Push(b, e), shown, arrivals)
  {
    SuffixGrows(b.pending, before, e);
    LastIsSuffix(b.pending + [e], before + [e], MAX_ENTRIES);
  }

  lemma NothingNew(b: Buffer)
    ensures HoldsBack(b, b.shown, b.pending)
  {
  }

  lemma PushAllLast(b: Buffer, before: seq<Entry>, e: Entry)
    ensures PushAll(b, before + [e]) == Push(PushAll(b, before), e)
  {
    assert (before + [e])[..|before|] == before;
  }

  /** A pause holds the newest entries back: all of them, or at least as many as the screen can show. */
  lemma {:induction false} PauseHolds(b: Buffer, arrivals: seq<Entry>)
    ensures HoldsBack(PushAll(b, arrivals), b.shown, b.pending + arrivals)
  {
    if arrivals == [] {
      NothingNew(b);
      assert b.pending + [] == b.pending;
    } else {
      var before, last := arrivals[..|arrivals| - 1], arrivals[|arrivals| - 1];
      assert arrivals == before + [last];
      PauseHolds(b, before);
      PushAllLast(b, before, last);
      PushHolds(PushAll(b, before), b.shown, b.pending + before, last, b.pending + arrivals);
    }
  }

  /** The entries that are no longer held back. */
  function Trimmed(b: Buffer, arrivals: seq<Entry>): seq<Entry>
  {
    var all, kept := b.pending + arrivals, |PushAll(b, arrivals).pending|;
    if kept <= |all| then all[..|all| - kept] else []
  }

  lemma KeptIsWithout(trimmed: seq<Entry>, kept: seq<Entry>)
    requires forall e | e in kept :: e !in trimmed
    ensures Without(trimmed + kept, trimmed) == kept
  {
    WithoutConcat(trimmed, kept, trimmed);
    WithoutAll(trimmed, trimmed);
    WithoutNone(kept, trimmed);
  }

  /** What is left at the end of a list without some of its entries. */
  lemma LastWithout(full: seq<Entry>, gone: seq<Entry>)
    requires |Without(full, gone)| >= MAX_ENTRIES && |full| >= MAX_ENTRIES
    ensures Last(Without(full, gone), MAX_ENTRIES) == Last(full, MAX_ENTRIES)
       <==> forall e | e in gone :: e !in Last(full, MAX_ENTRIES)
  {
    var front, last := full[..|full| - MAX_ENTRIES], full[|full| - MAX_ENTRIES..];
    assert full == front + last && last == Last(full, MAX_ENTRIES);
    WithoutConcat(front, last, gone);
    if forall e | e in last :: e !in gone {
      WithoutNone(last, gone);
    } else {
      WithoutMembers(full, gone);
      var e :| e in last && e in gone;
      assert e !in Last(Without(full, gone), MAX_ENTRIES);
    }
  }

  lemma MergeLines(s: seq<Entry>, run: seq<Entry>)
    requires AllLines(run)
    ensures Merge(s, run) == MergeRun(s, run) && |Merge(s, run)| == |s| + |run|
  {
    RunOfLines(run);
    assert run[..|run|] == run;
    MergePermutes(s, run);
    assert |multiset(Merge(s, run))| == |multiset(s)| + |multiset(run)|;
  }

  /**
   * Lines that arrive in any order while others are pending: resuming shows what it would show had
   * nothing been trimmed, if and only if no trimmed line belongs to the newest that fit on the screen.
   */
  lemma PauseLosesExactly(b: Buffer, arrivals: seq<Entry>)
    requires RunsOrdered(b.shown) && |b.shown| <= MAX_ENTRIES && AllLines(b.pending + arrivals)
    requires var all := b.shown + (b.pending + arrivals); forall i, j | 0 <= i < j < |all| :: all[i] != all[j]
    ensures var newest := Last(Merge(b.shown, b.pending + arrivals), 20_000);
            Flush(PushAll(b, arrivals)).shown == newest <==> forall e | e in Trimmed(b, arrivals) :: e !in newest
  {
    PauseHolds(b, arrivals);
    var lines, kept, trimmed := b.pending + arrivals, PushAll(b, arrivals).pending, Trimmed(b, arrivals);
    assert lines == trimmed + kept;
    if trimmed != [] {
      TrimmedAreElsewhere(b.shown, trimmed, kept);
      KeptIsWithout(trimmed, kept);
      MergeRunWithout(b.shown, lines, trimmed);
      MergeLines(b.shown, lines);
      MergeLines(b.shown, kept);
      LastWithout(Merge(b.shown, lines), trimmed);
    } else if kept == [] {
      MergeLines(b.shown, []);
    }
  }

  lemma TrimmedAreElsewhere(shown: seq<Entry>, trimmed: seq<Entry>, kept: seq<Entry>)
    requires var all := shown + (trimmed + kept); forall i, j | 0 <= i < j < |all| :: all[i] != all[j]
    ensures forall e | e in shown || e in kept :: e !in trimmed
  {
    var all := shown + (trimmed + kept);
    forall i, j | 0 <= i < |trimmed| && 0 <= j < |shown| ensures trimmed[i] != shown[j] {
      assert all[|shown| + i] == trimmed[i] && all[j] == shown[j];
    }
    forall i, j | 0 <= i < |trimmed| && 0 <= j < |kept| ensures trimmed[i] != kept[j] {
      assert all[|shown| + i] == trimmed[i] && all[|shown| + |trimmed| + j] == kept[j];
    }
  }

  // ---- The order of arrival matters ------------------------------------------------------------

  const OLD := Line(0, "old")
  const NEW := Line(1, "new")

  function Olds(n: nat): seq<Entry>
  {
    seq(n, _ => OLD)
  }

  /** The newest line arrives first, `n` older ones follow. */
  function NewestFirst(n: nat): seq<Op>
  {
    if n == 0 then [Arrive(NEW)] else NewestFirst(n - 1) + [Arrive(OLD)]
  }

  lemma {:induction false} NewestFirstPending(n: nat)
    ensures n < 25_000 ==> After(NewestFirst(n)) == Buffer([], [NEW] + Olds(n))
    ensures Unbounded(NewestFirst(n)) == Buffer([], [NEW] + Olds(n))
  {
    if n == 0 {
      assert NewestFirst(0)[..0] == [];
      assert [NEW] + Olds(0) == [] + [NEW] == [NEW];
    } else {
      NewestFirstPending(n - 1);
      var ops := NewestFirst(n);
      assert ops[..|ops| - 1] == NewestFirst(n - 1);
      assert ([NEW] + Olds(n - 1)) + [OLD] == [NEW] + Olds(n);
    }
  }

  lemma RunOfLines(run: seq<Entry>)
    requires AllLines(run)
    ensures RunLength(run) == |run|
  {
  }

  lemma MergeOfLines(run: seq<Entry>)
    requires AllLines(run)
    ensures Merge([], run) == SortByTime(run)
  {
    RunOfLines(run);
    assert run[..|run|] == run;
    var sorted := SortByTime(run);
    if sorted != [] {
      assert InsertAt([], sorted[0].at) == 0;
    }
  }

  lemma NewestIsLast(run: seq<Entry>, sorted: seq<Entry>)
    requires AllLines(sorted) && TimeOrdered(sorted) && multiset(sorted) == multiset(run)
    requires NEW in run && forall e | e in run :: e == NEW || e == OLD
    ensures sorted != [] && sorted[|sorted| - 1] == NEW
  {
    assert NEW in multiset(run);
    var i :| 0 <= i < |sorted| && sorted[i] == NEW;
    var last := sorted[|sorted| - 1];
    assert last in multiset(sorted);
    assert last in multiset(run);
    assert last in run;
    if i < |sorted| - 1 {
      assert sorted[i].at <= last.at;
    }
  }

  lemma TrimmedToOlds()
    ensures After(NewestFirst(PENDING_LIMIT)) == Buffer([], Olds(MAX_ENTRIES))
  {
    NewestFirstPending(PENDING_LIMIT - 1);
    var ops := NewestFirst(PENDING_LIMIT);
    assert ops[..|ops| - 1] == NewestFirst(PENDING_LIMIT - 1);
    var pending := [NEW] + Olds(PENDING_LIMIT - 1) + [OLD];
    assert pending[|pending| - MAX_ENTRIES..] == Olds(MAX_ENTRIES);
  }

  lemma OnlyOlds(n: nat)
    ensures NEW !in Last(Merge([], Olds(n)), MAX_ENTRIES)
  {
    MergePermutes([], Olds(n));
    var kept := Merge([], Olds(n));
    assert multiset(kept) == multiset(Olds(n));
    assert NEW !in Olds(n);
    assert NEW !in multiset(kept);
  }

  /** A line that is newer than everything behind it is trimmed although it belongs at the end. */
  lemma UnorderedArrivalsLoseNewest()
    ensures NEW in Last(Unbounded(NewestFirst(25_000) + [Tick]).shown, 20_000)
    ensures NEW !in Flush(After(NewestFirst(25_000))).shown
  {
    var ops, run := NewestFirst(PENDING_LIMIT), [NEW] + Olds(PENDING_LIMIT);
    assert (ops + [Tick])[..|ops|] == ops;
    NewestFirstPending(PENDING_LIMIT);
    MergeOfLines(run);
    SortSorts(run);
    NewestIsLast(run, SortByTime(run));
    var sorted := SortByTime(run);
    assert Last(sorted, MAX_ENTRIES)[|Last(sorted, MAX_ENTRIES)| - 1] == sorted[|sorted| - 1];
    TrimmedToOlds();
    OnlyOlds(MAX_ENTRIES);
  }
}
