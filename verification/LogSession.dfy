/**
 * The log viewer's socket handlers over their mutable state, for any number of sources on one
 * socket, and the bounded reconnect loop. `LogResume` is what each handler is proved against.
 */
module LogSession {
  import opened LogResume
  import opened Optional

  /** Last timestamp of a source and how often each line was seen at it. */
  datatype Cursor = Cursor(timestamp: string, frameCounts: map<string, nat>)

  datatype Entry = Entry(source: Source, frame: Frame)

  // ---- What the maps stand for -----------------------------------------------------------------

  ghost function Bag(counts: map<string, nat>): (bag: multiset<string>)
    ensures forall line :: bag[line] == if line in counts then counts[line] else 0
  {
    if counts == map[] then multiset{}
    else
      var line :| line in counts;
      Bag(counts - {line})[line := counts[line]]
  }

  ghost predicate ValidCursors(cursors: map<Source, Cursor>)
  {
    forall s | s in cursors ::
      cursors[s].frameCounts != map[] && Positive(cursors[s].frameCounts)
  }

  ghost function MarkOf(cursors: map<Source, Cursor>, source: Source): Option<Mark>
  {
    if source in cursors then Some(Mark(cursors[source].timestamp, Bag(cursors[source].frameCounts))) else None
  }

  function OfSource(entries: seq<Entry>, source: Source): seq<Frame>
  {
    if entries == [] then []
    else
      var e := entries[|entries| - 1];
      OfSource(entries[..|entries| - 1], source) + (if e.source == source then [e.frame] else [])
  }

  lemma OfSourceAppend(entries: seq<Entry>, e: Entry, source: Source)
    ensures OfSource(entries + [e], source) == OfSource(entries, source)
            + (if e.source == source then [e.frame] else [])
  {
    assert (entries + [e])[..|entries|] == entries;
  }

  ghost predicate Positive(counts: map<string, nat>)
  {
    forall line | line in counts :: counts[line] > 0
  }

  /** One frame less: a count of one disappears from the map. */
  lemma DropOne(counts: map<string, nat>, line: string, after: map<string, nat>)
    requires Positive(counts) && line in counts
    requires after == if counts[line] == 1 then counts - {line} else counts[line := counts[line] - 1]
    ensures Positive(after) && Bag(after) == Bag(counts) - multiset{line}
    ensures Bag(after) == multiset{} <==> after == map[]
  {
    if after != map[] {
      var l :| l in after;
      assert Bag(after)[l] > 0;
    }
  }

  lemma AddOne(counts: map<string, nat>, line: string, n: nat)
    requires n == (if line in counts then counts[line] else 0) + 1
    ensures Bag(counts[line := n]) == Bag(counts) + multiset{line}
  {
  }

  lemma RecordIn(cursors: map<Source, Cursor>, source: Source, timestamp: string, line: string,
                 counts: map<string, nat>, n: nat)
    requires ValidCursors(cursors)
    requires counts == if source in cursors && cursors[source].timestamp == timestamp then cursors[source].frameCounts
             else map[]
    requires n == (if line in counts then counts[line] else 0) + 1
    ensures var after := cursors[source := Cursor(timestamp, counts[line := n])];
            && ValidCursors(after)
            && MarkOf(after, source) == Record(MarkOf(cursors, source), Frame(timestamp, line))
            && forall s | s != source :: MarkOf(after, s) == MarkOf(cursors, s)
  {
    AddOne(counts, line, n);
    assert Positive(counts);
    assert counts == map[] ==> Bag(counts) + multiset{line} == multiset{line};
    assert line in counts[line := n];
  }

  // ---- The handlers ----------------------------------------------------------------------------

  class Session {
    var resumeCursors: map<Source, Cursor>
    var replayCursors: map<Source, Cursor>
    var entries: seq<Entry>

    ghost predicate Valid()
      reads this
    {
      ValidCursors(resumeCursors) && ValidCursors(replayCursors)
    }

    ghost function ViewOf(source: Source): View
      reads this
    {
      View(MarkOf(resumeCursors, source), MarkOf(replayCursors, source), OfSource(entries, source))
    }

    constructor ()
      ensures Valid() && forall s: Source :: ViewOf(s) == START.view
    {
      resumeCursors, replayCursors, entries := map[], map[], [];
    }

    /** A new socket: asks to resume every known source and expects its last timestamp again. */
    method Connect() returns (resumeAt: map<Source, string>)
      requires Valid()
      modifies this`replayCursors
      ensures Valid()
      ensures forall s: Source :: ViewOf(s) == old(ViewOf(s)).(replay := old(ViewOf(s)).cursor)
      ensures forall s: Source :: s in resumeAt <==> ViewOf(s).cursor.Some?
      ensures forall s: Source | s in resumeAt :: resumeAt[s] == ViewOf(s).cursor.value.timestamp
    {
      resumeAt := map s | s in resumeCursors :: resumeCursors[s].timestamp;
      replayCursors := resumeCursors;
    }

    method ConsumeReplayFrame(source: Source, timestamp: string, line: string) returns (eaten: bool)
      requires Valid()
      modifies this`replayCursors
      ensures Valid()
      ensures var (replay, e) := Consume(old(ViewOf(source)).replay, Frame(timestamp, line));
              eaten == e && ViewOf(source) == old(ViewOf(source)).(replay := replay)
      ensures forall s | s != source :: ViewOf(s) == old(ViewOf(s))
    {
      if source !in replayCursors {
        return false;
      }
      var cursor := replayCursors[source];
      if cursor.timestamp != timestamp {
        replayCursors := replayCursors - {source};
        return false;
      }
      var remaining := if line in cursor.frameCounts then cursor.frameCounts[line] else 0;
      if remaining == 0 {
        return false;
      }
      var counts := if remaining == 1 then cursor.frameCounts - {line} else cursor.frameCounts[line := remaining - 1];
      DropOne(cursor.frameCounts, line, counts);
      if counts == map[] {
        replayCursors := replayCursors - {source};
      } else {
        replayCursors := replayCursors[source := Cursor(timestamp, counts)];
      }
      return true;
    }

    method RecordResumeFrame(source: Source, timestamp: string, line: string)
      requires Valid()
      modifies this`resumeCursors
      ensures Valid()
      ensures ViewOf(source)
              == old(ViewOf(source)).(cursor := Record(old(ViewOf(source)).cursor, Frame(timestamp, line)))
      ensures forall s | s != source :: ViewOf(s) == old(ViewOf(s))
    {
      var seen := source in resumeCursors && resumeCursors[source].timestamp == timestamp;
      var counts := if seen then resumeCursors[source].frameCounts else map[];
      var n := (if line in counts then counts[line] else 0) + 1;
      RecordIn(resumeCursors, source, timestamp, line, counts, n);
      resumeCursors := resumeCursors[source := Cursor(timestamp, counts[line := n])];
    }

    /** A `line` message. */
    method OnLine(source: Source, timestamp: string, line: string)
      requires Valid()
      modifies this
      ensures Valid()
      ensures ViewOf(source) == Receive(old(ViewOf(source)), Frame(timestamp, line))
      ensures forall s | s != source :: ViewOf(s) == old(ViewOf(s))
    {
      if timestamp != "" {
        var eaten := ConsumeReplayFrame(source, timestamp, line);
        if eaten {
          return;
        }
        RecordResumeFrame(source, timestamp, line);
      }
      ghost var before := entries;
      entries := entries + [Entry(source, Frame(timestamp, line))];
      forall s: Source {
        OfSourceAppend(before, Entry(source, Frame(timestamp, line)), s);
      }
    }
  }

  // ---- Many sources on one socket ----------------------------------------------------------------

  datatype Happening =
    | Socket(feeds: map<Source, Feed>)
    | Line(source: Source)
    | Next(source: Source, rest: seq<string>)

  /** What one source notices of a happening. */
  function Noticed(h: Happening, source: Source): seq<Event>
  {
    match h
    case Socket(feeds) => [Event.Connect(if source in feeds then Some(feeds[source]) else None)]
    case Line(s) => if s == source then [Deliver] else []
    case Next(s, rest) => if s == source then [Advance(rest)] else []
  }

  /** A frame and the move to the next timestamp are for one source; a new socket is for all of them. */
  lemma NoticedByOne(hs: seq<Happening>, source: Source, other: Source, rest: seq<string>, feeds: map<Source, Feed>)
    ensures NoticedAll(hs + [Line(source)], source) == NoticedAll(hs, source) + [Deliver]
    ensures NoticedAll(hs + [Next(source, rest)], source) == NoticedAll(hs, source) + [Advance(rest)]
    ensures |NoticedAll(hs + [Socket(feeds)], source)| == |NoticedAll(hs, source)| + 1
    ensures other != source ==> NoticedAll(hs + [Line(other)], source) == NoticedAll(hs, source)
                                && NoticedAll(hs + [Next(other, rest)], source) == NoticedAll(hs, source)
  {
    assert (hs + [Line(source)])[..|hs|] == (hs + [Next(source, rest)])[..|hs|] == (hs + [Socket(feeds)])[..|hs|] == hs;
    assert (hs + [Line(other)])[..|hs|] == (hs + [Next(other, rest)])[..|hs|] == hs;
  }

  function NoticedAll(hs: seq<Happening>, source: Source): seq<Event>
  {
    if hs == [] then []
    else NoticedAll(hs[..|hs| - 1], source) + Noticed(hs[|hs| - 1], source)
  }

  lemma NoticedStep(log: seq<Group>, hs: seq<Happening>, k: nat, source: Source)
    requires k < |hs|
    ensures var events := NoticedAll(hs[..k], source);
            NoticedAll(hs[..k + 1], source) == events + Noticed(hs[k], source)
    ensures After(log, NoticedAll(hs[..k + 1], source))
         == if Noticed(hs[k], source) == [] then After(log, NoticedAll(hs[..k], source))
            else Step(log, After(log, NoticedAll(hs[..k], source)), Noticed(hs[k], source)[0])
  {
    assert hs[..k + 1][..k] == hs[..k];
    var events := NoticedAll(hs[..k], source);
    if Noticed(hs[k], source) != [] {
      AfterAppend(log, events, Noticed(hs[k], source)[0]);
      assert events + Noticed(hs[k], source) == events + [Noticed(hs[k], source)[0]];
    } else {
      assert events + Noticed(hs[k], source) == events;
    }
  }

  /** Every source sees a run its server may produce. */
  ghost predicate Served(logs: map<Source, seq<Group>>, hs: seq<Happening>)
  {
    && (forall s | s in logs :: ValidLog(logs[s]) && Run(logs[s], NoticedAll(hs, s)))
    && (forall i | 0 <= i < |hs| && !hs[i].Socket? :: hs[i].source in logs)
  }

  lemma {:induction false} RunTake(log: seq<Group>, events: seq<Event>, more: seq<Event>)
    requires Run(log, events + more)
    ensures Run(log, events)
    ensures more != [] ==> Enabled(log, After(log, events), more[0])
  {
    if more == [] {
      assert events + more == events;
    } else {
      var front := more[..|more| - 1];
      assert (events + more)[..|events + more| - 1] == events + front;
      RunTake(log, events, front);
      if front == [] {
        assert events + front == events;
      }
    }
  }

  lemma {:induction false} ServedPrefix(log: seq<Group>, hs: seq<Happening>, k: nat, source: Source)
    requires k <= |hs| && Run(log, NoticedAll(hs, source))
    ensures Run(log, NoticedAll(hs[..k], source))
    decreases |hs| - k
  {
    if k == |hs| {
      assert hs[..k] == hs;
    } else {
      ServedPrefix(log, hs, k + 1, source);
      NoticedStep(log, hs, k, source);
      RunTake(log, NoticedAll(hs[..k], source), Noticed(hs[k], source));
    }
  }

  lemma NoticedEnabled(log: seq<Group>, hs: seq<Happening>, k: nat, source: Source)
    requires k < |hs| && Run(log, NoticedAll(hs, source)) && Noticed(hs[k], source) != []
    ensures Enabled(log, After(log, NoticedAll(hs[..k], source)), Noticed(hs[k], source)[0])
  {
    NoticedStep(log, hs, k, source);
    ServedPrefix(log, hs, k + 1, source);
    RunTake(log, NoticedAll(hs[..k], source), Noticed(hs[k], source));
  }

  ghost function LinkOf(session: Session, feeds: map<Source, Feed>, source: Source): Link
    reads session
  {
    Link(session.ViewOf(source), if source in feeds then Some(feeds[source]) else None)
  }

  /** One happening moves every source by the event it notices, and no other source. */
  method Happen(logs: map<Source, seq<Group>>, session: Session, feeds: map<Source, Feed>, h: Happening)
    returns (next: map<Source, Feed>)
    requires session.Valid()
    requires !h.Socket? ==> h.source in logs
    requires forall s | s in logs && Noticed(h, s) != [] ::
             Enabled(logs[s], LinkOf(session, feeds, s), Noticed(h, s)[0])
    modifies session
    ensures session.Valid()
    ensures forall s | s in logs ::
      LinkOf(session, next, s) == if Noticed(h, s) == [] then old(LinkOf(session, feeds, s))
                                  else Step(logs[s], old(LinkOf(session, feeds, s)), Noticed(h, s)[0])
  {
    match h {
      case Socket(started) =>
        var _ := session.Connect();
        next := started;
      case Line(s) =>
        assert Noticed(h, s) == [Deliver];
        var feed := feeds[s];
        session.OnLine(s, logs[s][feed.group].timestamp, feed.rest[0]);
        next := feeds[s := feed.(rest := feed.rest[1..])];
      case Next(s, rest) =>
        assert Noticed(h, s) == [Advance(rest)];
        next := feeds[s := Feed(feeds[s].group + 1, rest)];
    }
  }

  /**
   * A whole viewing session: sockets are opened and dropped, and frames of all sources interleave.
   * The handlers leave, source by source, exactly one stretch of that source's log on screen.
   */
  method View(logs: map<Source, seq<Group>>, hs: seq<Happening>) returns (shown: seq<Entry>)
    requires Served(logs, hs)
    ensures forall s | s in logs :: OneStretch(logs[s], OfSource(shown, s), Due(logs[s], NoticedAll(hs, s)))
  {
    var session := new Session();
    var feeds: map<Source, Feed> := map[];
    var k := 0;
    assert hs[..0] == [];
    while k < |hs|
      invariant 0 <= k <= |hs| && session.Valid() && fresh(session)
      invariant forall s | s in logs :: LinkOf(session, feeds, s) == After(logs[s], NoticedAll(hs[..k], s))
    {
      forall s | s in logs && Noticed(hs[k], s) != []
        ensures Enabled(logs[s], After(logs[s], NoticedAll(hs[..k], s)), Noticed(hs[k], s)[0])
      {
        NoticedEnabled(logs[s], hs, k, s);
      }
      feeds := Happen(logs, session, feeds, hs[k]);
      forall s | s in logs ensures LinkOf(session, feeds, s) == After(logs[s], NoticedAll(hs[..k + 1], s)) {
        NoticedStep(logs[s], hs, k, s);
      }
      k := k + 1;
    }
    assert hs[..k] == hs;
    forall s | s in logs ensures OneStretch(logs[s], OfSource(session.entries, s), Due(logs[s], NoticedAll(hs, s))) {
      ExactlyOnce(logs[s], NoticedAll(hs, s));
      assert LinkOf(session, feeds, s) == After(logs[s], NoticedAll(hs, s));
    }
    shown := session.entries;
  }

  // ---- The reconnect loop ------------------------------------------------------------------------

  const MAX_RECONNECT_ATTEMPTS := 8
  const RECONNECT_BASE_MS := 500
  const RECONNECT_MAX_MS := 8000

  function Pow2(n: nat): nat
  {
    if n == 0 then 1 else 2 * Pow2(n - 1)
  }

  /** Doubling from half a second, capped at eight. */
  function ReconnectDelay(attempt: nat): nat
  {
    var delay := RECONNECT_BASE_MS * Pow2(if attempt == 0 then 0 else attempt - 1);
    if delay < RECONNECT_MAX_MS then delay else RECONNECT_MAX_MS
  }

  function TotalDelay(failures: nat): nat
  {
    if failures == 0 then 0 else TotalDelay(failures - 1) + ReconnectDelay(failures)
  }

  /** The waits in milliseconds: half a second twice as long each time, up to eight seconds. */
  lemma DelayDoubles(attempt: nat)
    requires attempt > 0
    ensures ReconnectDelay(1) == 500
    ensures 2 * ReconnectDelay(attempt) < 8000 ==> ReconnectDelay(attempt + 1) == 2 * ReconnectDelay(attempt)
    ensures 2 * ReconnectDelay(attempt) >= 8000 ==> ReconnectDelay(attempt + 1) == 8000
    ensures attempt >= 5 ==> ReconnectDelay(attempt) == 8000
  {
    assert Pow2(4) == 16;
    if attempt >= 5 {
      PowerGrows(4, attempt - 1);
    }
  }

  lemma {:induction false} PowerGrows(a: nat, b: nat)
    requires a <= b
    ensures 1 <= Pow2(a) <= Pow2(b)
    decreases b
  {
    if a < b {
      PowerGrows(a, b - 1);
    } else if 0 < a {
      PowerGrows(a - 1, a - 1);
    }
  }

  lemma DelayGrows(a: nat, b: nat)
    requires a <= b
    ensures 500 <= ReconnectDelay(a) <= ReconnectDelay(b) <= 8000
  {
    if 0 < a {
      PowerGrows(a - 1, b - 1);
    } else if 0 < b {
      PowerGrows(0, b - 1);
    }
  }

  /** The whole schedule: eight retries, and 39.5 s of waiting in all. */
  lemma WaitsAre()
    ensures [ReconnectDelay(1), ReconnectDelay(2), ReconnectDelay(3), ReconnectDelay(4), ReconnectDelay(5),
             ReconnectDelay(6), ReconnectDelay(7), ReconnectDelay(8)] == [500, 1000, 2000, 4000, 8000, 8000, 8000, 8000]
    ensures TotalDelay(8) == 39_500
  {
    DelayDoubles(1);
    DelayDoubles(2);
    DelayDoubles(3);
    DelayDoubles(4);
    DelayDoubles(5);
    DelayDoubles(6);
    DelayDoubles(7);
    DelayDoubles(8);
    assert TotalDelay(4) == 7_500;
    assert TotalDelay(6) == TotalDelay(4) + ReconnectDelay(5) + ReconnectDelay(6);
    assert TotalDelay(8) == TotalDelay(6) + ReconnectDelay(7) + ReconnectDelay(8);
  }

  lemma {:induction false} TotalGrows(a: nat, b: nat)
    requires a <= b
    ensures TotalDelay(a) <= TotalDelay(b)
    decreases b
  {
    if a < b {
      TotalGrows(a, b - 1);
    }
  }

  /** A connection that never becomes stable is given up after at most 39.5 s of waiting. */
  lemma TotalDelayBound(failures: nat)
    requires failures <= MAX_RECONNECT_ATTEMPTS
    ensures TotalDelay(failures) <= 39_500
  {
    WaitsAre();
    TotalGrows(failures, 8);
  }

  datatype CloseKind = Complete | NoStreams | Dropped
  datatype Phase = Connecting | Streaming | Reconnecting | Ended

  class Reconnector {
    var phase: Phase
    var failures: nat
    ghost var waited: nat   // total delay since the connection was last stable
    ghost var attempts: nat // sockets opened since then, the stable one (or first one) included

    ghost predicate Valid()
      reads this
    {
      && failures <= MAX_RECONNECT_ATTEMPTS
      && attempts == (if phase == Reconnecting then failures else failures + 1)
      && waited == TotalDelay(failures)
    }

    constructor ()
      ensures Valid() && failures == 0 && phase == Connecting
    {
      phase, failures, waited, attempts := Connecting, 0, 0, 1;
    }

    method OnOpen()
      requires Valid() && phase == Connecting
      modifies this`phase
      ensures Valid() && phase == Streaming
    {
      phase := Streaming;
    }

    /** The connection held for ten seconds. */
    method OnStable()
      requires Valid() && phase == Streaming
      modifies this`failures, this`waited, this`attempts
      ensures Valid() && failures == 0 && attempts == 1
    {
      failures, waited, attempts := 0, 0, 1;
    }

    /** Retries at most eight times in a row, then gives up for good. */
    method OnClose(kind: CloseKind) returns (delay: Option<nat>)
      requires Valid() && (phase == Connecting || phase == Streaming)
      modifies this`phase, this`failures, this`waited
      ensures Valid() && attempts == old(attempts)
      ensures delay.Some? <==> kind == Dropped && old(failures) < 8
      ensures delay.Some? ==>
              && failures == old(failures) + 1 && phase == Reconnecting
              && delay.value == [500, 1000, 2000, 4000, 8000, 8000, 8000, 8000][old(failures)]
      ensures delay.None? ==> failures == old(failures) && phase == Ended
    {
      if kind != Dropped || failures >= MAX_RECONNECT_ATTEMPTS {
        phase := Ended;
        return None;
      }
      failures := failures + 1;
      phase := Reconnecting;
      waited := waited + ReconnectDelay(failures);
      WaitsAre();
      return Some(ReconnectDelay(failures));
    }

    method OnRetryTimer()
      requires Valid() && phase == Reconnecting
      modifies this`phase, this`attempts
      ensures Valid() && phase == Connecting && attempts == old(attempts) + 1
    {
      phase, attempts := Connecting, attempts + 1;
    }
  }
}
