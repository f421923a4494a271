/**
 * How the log viewer stitches one stream out of many socket sessions.
 *
 * The viewer keeps, per source (pod/container), the last timestamp it has shown and the lines
 * it has shown at that timestamp. A new socket asks the server to resume at that timestamp; the
 * server then replays the whole timestamp, and the viewer counts the already shown lines off.
 */
module LogResume {

  type Source = string

  import opened Optional

  datatype Frame = Frame(timestamp: string, line: string)

  /** The last timestamp of a source together with the lines seen at it. */
  datatype Mark = Mark(timestamp: string, seen: multiset<string>)

  // ---- One source -------------------------------------------------------------------------

  /** What the viewer holds about one source. */
  datatype View = View(cursor: Option<Mark>, replay: Option<Mark>, pushed: seq<Frame>)

  /** Counts a replayed frame off; the flag says whether it was eaten. */
  function Consume(replay: Option<Mark>, f: Frame): (Option<Mark>, bool)
  {
    if replay.None? then (None, false)
    else if replay.value.timestamp != f.timestamp then (None, false)
    else if replay.value.seen[f.line] == 0 then (replay, false)
    else
      var left := replay.value.seen - multiset{f.line};
      (if left == multiset{} then None else Some(Mark(f.timestamp, left)), true)
  }

  function Record(cursor: Option<Mark>, f: Frame): Option<Mark>
  {
    if cursor.Some? && cursor.value.timestamp == f.timestamp
    then Some(Mark(f.timestamp, cursor.value.seen + multiset{f.line}))
    else Some(Mark(f.timestamp, multiset{f.line}))
  }

  function Receive(v: View, f: Frame): View
  {
    if f.timestamp == "" then v.(pushed := v.pushed + [f])
    else
      var (replay, eaten) := Consume(v.replay, f);
      if eaten then v.(replay := replay)
      else View(Record(v.cursor, f), replay, v.pushed + [f])
  }

  /**
   * A frame is kept back exactly if its line is still to be counted off at its timestamp, and one
   * without a timestamp never; every other frame is shown behind what was shown before.
   */
  lemma ShownExactly(v: View, f: Frame)
    ensures Receive(v, f).pushed
         == v.pushed + if v.replay.Some? && f.timestamp != "" && v.replay.value.timestamp == f.timestamp
                          && v.replay.value.seen[f.line] > 0
                       then [] else [f]
    ensures f.timestamp == "" ==> Receive(v, f).cursor == v.cursor && Receive(v, f).replay == v.replay
  {
  }

  // ---- The server's side of one source ------------------------------------------------------

  /** All lines a container wrote with one timestamp; a log is a sequence of such groups. */
  datatype Group = Group(timestamp: string, lines: seq<string>)

  /** Where the current socket's stream stands: the group being sent and what is left of it. */
  datatype Feed = Feed(group: nat, rest: seq<string>)

  ghost predicate ValidLog(log: seq<Group>)
  {
    && (forall i | 0 <= i < |log| :: log[i].timestamp != "" && log[i].lines != [])
    && (forall i, j | 0 <= i < j < |log| :: log[i].timestamp != log[j].timestamp)
  }

  /** The viewer's knowledge of a source next to the stream that serves it. */
  datatype Link = Link(view: View, feed: Option<Feed>)

  datatype Event =
    | Connect(feed: Option<Feed>)  // a new socket; the server picks where an unseen source starts
    | Deliver                      // the next frame of the stream arrives
    | Advance(rest: seq<string>)   // the stream moves on to the next timestamp

  /**
   * What the server may do. A source with a cursor is replayed from the first frame that carries
   * the cursor's timestamp; within a timestamp the order of the frames is left open.
   */
  ghost predicate Enabled(log: seq<Group>, s: Link, e: Event)
  {
    match e
    case Connect(None) => true
    case Connect(Some(f)) =>
      && f.group < |log|
      && (if s.view.cursor.Some?
          then log[f.group].timestamp == s.view.cursor.value.timestamp
              && multiset(f.rest) == multiset(log[f.group].lines)
          else f.rest != [] && multiset(f.rest) <= multiset(log[f.group].lines))
    case Deliver => s.feed.Some? && s.feed.value.group < |log| && s.feed.value.rest != []
    case Advance(rest) =>
      && s.feed.Some? && s.feed.value.rest == []
      && s.feed.value.group + 1 < |log|
      && multiset(rest) == multiset(log[s.feed.value.group + 1].lines)
  }

  function Step(log: seq<Group>, s: Link, e: Event): Link
  {
    match e
    case Connect(feed) => Link(s.view.(replay := s.view.cursor), feed)
    case Deliver =>
      if s.feed.None? || |log| <= s.feed.value.group || s.feed.value.rest == [] then s
      else
        var feed := s.feed.value;
        Link(Receive(s.view, Frame(log[feed.group].timestamp, feed.rest[0])), Some(feed.(rest := feed.rest[1..])))
    case Advance(rest) =>
      if s.feed.None? then s else s.(feed := Some(Feed(s.feed.value.group + 1, rest)))
  }

  const START := Link(View(None, None, []), None)

  function After(log: seq<Group>, events: seq<Event>): Link
  {
    if events == [] then START
    else Step(log, After(log, events[..|events| - 1]), events[|events| - 1])
  }

  /** A run: sockets come and go, and streams move on, in any order the server may choose. */
  ghost predicate Run(log: seq<Group>, events: seq<Event>)
  {
    events == [] ||
    var before := events[..|events| - 1];
    Run(log, before) && Enabled(log, After(log, before), events[|events| - 1])
  }

  // ---- Exactly once, whatever the order inside a timestamp ------------------------------------

  ghost function LinesAt(frames: seq<Frame>, timestamp: string): multiset<string>
  {
    if frames == [] then multiset{}
    else
      var last := frames[|frames| - 1];
      LinesAt(frames[..|frames| - 1], timestamp) +
      (if last.timestamp == timestamp then multiset{last.line} else multiset{})
  }

  lemma LinesAtAppend(frames: seq<Frame>, f: Frame, timestamp: string)
    ensures LinesAt(frames + [f], timestamp)
         == LinesAt(frames, timestamp) + (if f.timestamp == timestamp then multiset{f.line} else multiset{})
  {
    assert (frames + [f])[..|frames|] == frames;
  }

  /** Position of a timestamp in the log. */
  ghost function IndexOf(log: seq<Group>, timestamp: string): nat
  {
    if log == [] || log[0].timestamp == timestamp then 0 else 1 + IndexOf(log[1..], timestamp)
  }

  lemma {:induction false} IndexOfAt(log: seq<Group>, j: nat)
    requires ValidLog(log) && j < |log|
    ensures IndexOf(log, log[j].timestamp) == j
  {
    if j > 0 {
      IndexOfAt(log[1..], j - 1);
    }
  }

  /** Frames come in the order of their timestamps, all from the groups `first..last`. */
  ghost predicate InOrder(log: seq<Group>, pushed: seq<Frame>, first: nat, last: nat)
  {
    && (forall i | 0 <= i < |pushed| :: first <= IndexOf(log, pushed[i].timestamp) <= last)
    && (forall i, j | 0 <= i < j < |pushed| :: IndexOf(log, pushed[i].timestamp) <= IndexOf(log, pushed[j].timestamp))
  }

  ghost predicate Covers(log: seq<Group>, pushed: seq<Frame>, first: nat, last: nat, j: nat)
    requires j < |log|
  {
    var lines := LinesAt(pushed, log[j].timestamp);
    if first < j < last then lines == multiset(log[j].lines)
    else if j == first || j == last then lines <= multiset(log[j].lines)
    else lines == multiset{}
  }

  /**
   * The shown frames cover the groups `first..last` of the log in order: every group strictly
   * between them exactly, the last one without surplus, the first one from where the very first
   * socket happened to start.
   */
  ghost predicate Stitched(log: seq<Group>, pushed: seq<Frame>, first: nat, last: nat)
  {
    && first <= last < |log|
    && (forall j: nat | j < |log| :: Covers(log, pushed, first, last, j))
    && InOrder(log, pushed, first, last)
  }

  /** Of the first timestamp either what the first socket was to send is shown, or all there is. */
  ghost predicate FirstCovered(log: seq<Group>, pushed: seq<Frame>, first: nat, due: multiset<string>)
    requires first < |log|
  {
    var shown := LinesAt(pushed, log[first].timestamp);
    due <= multiset(log[first].lines) && (shown == due || shown == multiset(log[first].lines))
  }

  /**
   * `due` is what the first socket that delivered anything was to send of its timestamp, and
   * `whole` says that it started at that timestamp's first frame. The balance
   * `seen + rest == group + replay` is what makes the counting off exact.
   */
  ghost predicate Inv(log: seq<Group>, s: Link, first: nat, last: nat, due: multiset<string>, whole: bool)
  {
    match s.view.cursor
    case None =>
      && s.view.pushed == [] && s.view.replay == None
      && (s.feed.Some? ==>
            && s.feed.value.group < |log|
            && s.feed.value.rest != []
            && multiset(s.feed.value.rest) <= multiset(log[s.feed.value.group].lines)
            && (whole ==> multiset(s.feed.value.rest) == multiset(log[s.feed.value.group].lines)))
    case Some(mark) =>
      && Stitched(log, s.view.pushed, first, last)
      && mark.timestamp == log[last].timestamp && mark.seen != multiset{}
      && LinesAt(s.view.pushed, log[last].timestamp) == mark.seen
      && due <= multiset(log[first].lines) && (whole ==> due == multiset(log[first].lines))
      && (first < last ==> FirstCovered(log, s.view.pushed, first, due))
      && (s.view.replay.Some? ==>
            s.view.replay.value.timestamp == mark.timestamp && s.view.replay.value.seen != multiset{})
      && (s.feed.Some? ==> Balanced(log, s, first, last, due))
  }

  ghost predicate Balanced(log: seq<Group>, s: Link, first: nat, last: nat, due: multiset<string>)
    requires s.view.cursor.Some? && s.feed.Some? && last < |log|
  {
    var seen, rest := s.view.cursor.value.seen, multiset(s.feed.value.rest);
    var replay := Pending(s.view);
    var lines := multiset(log[last].lines);
    if s.feed.value.group == last then
      || seen + rest == lines + replay
      || (first == last && replay == multiset{} && seen + rest == due)
    else
      && s.feed.value.group == last + 1 < |log|
      && rest == multiset(log[last + 1].lines) && s.feed.value.rest != []
      && s.view.replay.None?
      && (seen == lines || (first == last && seen == due))
  }

  ghost predicate StartsWhole(log: seq<Group>, s: Link, e: Event)
  {
    e.Connect? && e.feed.Some? && s.view.cursor.None? && e.feed.value.group < |log|
    ==> multiset(e.feed.value.rest) == multiset(log[e.feed.value.group].lines)
  }


  lemma InOrderAppend(log: seq<Group>, pushed: seq<Frame>, first: nat, last: nat, to: nat, line: string)
    requires ValidLog(log) && InOrder(log, pushed, first, last) && first <= last <= to < |log|
    ensures InOrder(log, pushed + [Frame(log[to].timestamp, line)], first, to)
  {
    IndexOfAt(log, to);
  }

  /** One more frame of the group the viewer is at, or the first one of the next group. */
  lemma StitchedAppend(log: seq<Group>, pushed: seq<Frame>, first: nat, last: nat, to: nat, line: string)
    requires ValidLog(log) && Stitched(log, pushed, first, last) && last <= to <= last + 1 && to < |log|
    requires to == last ==> LinesAt(pushed, log[last].timestamp) + multiset{line} <= multiset(log[last].lines)
    requires to == last + 1 ==> first == last || LinesAt(pushed, log[last].timestamp) == multiset(log[last].lines)
    requires line in multiset(log[to].lines)
    ensures Stitched(log, pushed + [Frame(log[to].timestamp, line)], first, to)
  {
    var f := Frame(log[to].timestamp, line);
    InOrderAppend(log, pushed, first, last, to, line);
    forall j: nat | j < |log| ensures Covers(log, pushed + [f], first, to, j) {
      assert Covers(log, pushed, first, last, j);
      LinesAtAppend(pushed, f, log[j].timestamp);
    }
  }

  lemma StitchedFirst(log: seq<Group>, group: nat, line: string)
    requires ValidLog(log) && group < |log| && line in multiset(log[group].lines)
    ensures Stitched(log, [Frame(log[group].timestamp, line)], group, group)
    ensures LinesAt([Frame(log[group].timestamp, line)], log[group].timestamp) == multiset{line}
  {
    var f := Frame(log[group].timestamp, line);
    IndexOfAt(log, group);
    forall j: nat | j < |log| ensures LinesAt([f], log[j].timestamp) == if j == group then multiset{line}
        else multiset{} {
      LinesAtAppend([], f, log[j].timestamp);
      assert [] + [f] == [f];
    }
  }

  /** The first frame ever is shown and sets the cursor. */
  lemma FirstFrameShown(log: seq<Group>, s: Link)
    requires ValidLog(log) && s.view == START.view && Enabled(log, s, Deliver)
    ensures var group, rest := s.feed.value.group, s.feed.value.rest;
            Step(log, s, Deliver)
            == Link(View(Some(Mark(log[group].timestamp, multiset{rest[0]})), None,
                [Frame(log[group].timestamp, rest[0])]),
                    Some(Feed(group, rest[1..])))
  {
    var feed := s.feed.value;
    assert [] + [Frame(log[feed.group].timestamp, feed.rest[0])] == [Frame(log[feed.group].timestamp, feed.rest[0])];
  }

  lemma DeliverFirst(log: seq<Group>, s: Link, due: multiset<string>, whole: bool)
    requires ValidLog(log) && Inv(log, s, 0, 0, due, whole) && s.view.cursor.None? && Enabled(log, s, Deliver)
    ensures Inv(log, Step(log, s, Deliver), s.feed.value.group, s.feed.value.group, multiset(s.feed.value.rest), whole)
  {
    var feed := s.feed.value;
    assert feed.rest == [feed.rest[0]] + feed.rest[1..];
    assert multiset(feed.rest) == multiset{feed.rest[0]} + multiset(feed.rest[1..]);
    FirstFrameShown(log, s);
    StitchedFirst(log, feed.group, feed.rest[0]);
  }

  ghost function Pending(v: View): multiset<string>
  {
    if v.replay.Some? then v.replay.value.seen else multiset{}
  }

  /** A frame that is not on the replay list has not been shown as often as the log carries it. */
  lemma RoomForOne(seen: multiset<string>, rest: multiset<string>, lines: multiset<string>, replay: multiset<string>,
                   line: string)
    requires seen + rest <= lines + replay && seen <= lines
    requires replay[line] == 0 && line in rest
    ensures seen + multiset{line} <= lines
  {
    forall x ensures (seen + multiset{line})[x] <= lines[x] {
      assert (seen + rest)[x] <= (lines + replay)[x];
    }
  }

  lemma CountOff(seen: multiset<string>, rest: multiset<string>, lines: multiset<string>, replay: multiset<string>,
                 line: string)
    requires seen + (multiset{line} + rest) == lines + replay && line in replay
    ensures seen + rest == lines + (replay - multiset{line})
  {
    forall x ensures (seen + rest)[x] == (lines + (replay - multiset{line}))[x] {
      assert (seen + (multiset{line} + rest))[x] == (lines + replay)[x];
    }
  }

  lemma DeliverEaten(log: seq<Group>, s: Link, first: nat, last: nat, due: multiset<string>, whole: bool)
    requires ValidLog(log) && Inv(log, s, first, last, due, whole) && s.view.cursor.Some? && Enabled(log, s, Deliver)
    requires s.feed.value.group == last
    requires Consume(s.view.replay, Frame(log[last].timestamp, s.feed.value.rest[0])).1
    ensures Inv(log, Step(log, s, Deliver), first, last, due, whole)
  {
    var rest, line, replay := s.feed.value.rest, s.feed.value.rest[0], s.view.replay.value.seen;
    assert rest == [line] + rest[1..];
    assert multiset(rest) == multiset{line} + multiset(rest[1..]);
    CountOff(s.view.cursor.value.seen, multiset(rest[1..]), multiset(log[last].lines), replay, line);
  }

  /** Frames of later timestamps do not touch the first one. */
  lemma FirstStaysCovered(log: seq<Group>, pushed: seq<Frame>, first: nat, due: multiset<string>, f: Frame)
    requires first < |log| && FirstCovered(log, pushed, first, due) && f.timestamp != log[first].timestamp
    ensures FirstCovered(log, pushed + [f], first, due)
  {
    LinesAtAppend(pushed, f, log[first].timestamp);
  }

  /** A frame of the cursor's timestamp that is not counted off joins the screen and the cursor. */
  lemma FrameShown(log: seq<Group>, s: Link)
    requires Enabled(log, s, Deliver) && s.view.cursor.Some?
    requires log[s.feed.value.group].timestamp == s.view.cursor.value.timestamp != ""
    requires s.view.replay.Some? ==> s.view.replay.value.timestamp == s.view.cursor.value.timestamp
    requires Pending(s.view)[s.feed.value.rest[0]] == 0
    ensures var mark, rest := s.view.cursor.value, s.feed.value.rest;
            var view := View(Some(Mark(mark.timestamp, mark.seen + multiset{rest[0]})), s.view.replay,
                             s.view.pushed + [Frame(mark.timestamp, rest[0])]);
            Step(log, s, Deliver) == Link(view, Some(Feed(s.feed.value.group, rest[1..])))
  {
  }

  lemma DeliverShown(log: seq<Group>, s: Link, first: nat, last: nat, due: multiset<string>, whole: bool)
    requires ValidLog(log) && Inv(log, s, first, last, due, whole) && s.view.cursor.Some? && Enabled(log, s, Deliver)
    requires s.feed.value.group == last
    requires !Consume(s.view.replay, Frame(log[last].timestamp, s.feed.value.rest[0])).1
    ensures Inv(log, Step(log, s, Deliver), first, last, due, whole)
  {
    var rest, mark := s.feed.value.rest, s.view.cursor.value;
    var f := Frame(log[last].timestamp, rest[0]);
    assert rest == [f.line] + rest[1..];
    assert multiset(rest) == multiset{f.line} + multiset(rest[1..]);
    assert Covers(log, s.view.pushed, first, last, last);
    RoomForOne(mark.seen, multiset(rest), multiset(log[last].lines), Pending(s.view), f.line);
    FrameShown(log, s);
    StitchedAppend(log, s.view.pushed, first, last, last, f.line);
    LinesAtAppend(s.view.pushed, f, f.timestamp);
    if first < last {
      FirstStaysCovered(log, s.view.pushed, first, due, f);
    }
    assert (mark.seen + multiset{f.line}) + multiset(rest[1..]) == mark.seen + multiset(rest);
  }

  lemma DeliverSame(log: seq<Group>, s: Link, first: nat, last: nat, due: multiset<string>, whole: bool)
    requires ValidLog(log) && Inv(log, s, first, last, due, whole) && s.view.cursor.Some? && Enabled(log, s, Deliver)
    requires s.feed.value.group == last
    ensures Inv(log, Step(log, s, Deliver), first, last, due, whole)
  {
    if Consume(s.view.replay, Frame(log[last].timestamp, s.feed.value.rest[0])).1 {
      DeliverEaten(log, s, first, last, due, whole);
    } else {
      DeliverShown(log, s, first, last, due, whole);
    }
  }

  lemma DeliverNext(log: seq<Group>, s: Link, first: nat, last: nat, due: multiset<string>, whole: bool)
    requires ValidLog(log) && Inv(log, s, first, last, due, whole) && s.view.cursor.Some? && Enabled(log, s, Deliver)
    requires s.feed.value.group == last + 1
    ensures Inv(log, Step(log, s, Deliver), first, last + 1, due, whole)
  {
    var feed := s.feed.value;
    var f := Frame(log[last + 1].timestamp, feed.rest[0]);
    assert feed.rest == [f.line] + feed.rest[1..];
    assert multiset(feed.rest) == multiset{f.line} + multiset(feed.rest[1..]);
    assert Covers(log, s.view.pushed, first, last, last + 1);
    StitchedAppend(log, s.view.pushed, first, last, last + 1, f.line);
    LinesAtAppend(s.view.pushed, f, f.timestamp);
    FirstStaysCovered(log, s.view.pushed, first, due, f);
  }

  lemma ConnectKeepsInv(log: seq<Group>, s: Link, first: nat, last: nat, due: multiset<string>, whole: bool,
                        feed: Option<Feed>)
    requires ValidLog(log) && Inv(log, s, first, last, due, whole) && Enabled(log, s, Connect(feed))
    requires whole ==> StartsWhole(log, s, Connect(feed))
    ensures Inv(log, Step(log, s, Connect(feed)), first, last, due, whole)
  {
    if s.view.cursor.Some? && feed.Some? {
      IndexOfAt(log, last);
      IndexOfAt(log, feed.value.group);
    }
  }

  lemma NothingOwed(seen: multiset<string>, lines: multiset<string>, replay: multiset<string>)
    requires seen <= lines
    ensures seen == lines + replay ==> replay == multiset{}
  {
    if seen == lines + replay {
      forall x ensures replay[x] == 0 {
        assert seen[x] <= lines[x] && seen[x] == (lines + replay)[x];
      }
    }
  }

  lemma AdvanceKeepsInv(log: seq<Group>, s: Link, first: nat, last: nat, due: multiset<string>, whole: bool,
                        rest: seq<string>)
    requires ValidLog(log) && Inv(log, s, first, last, due, whole) && Enabled(log, s, Advance(rest))
    ensures Inv(log, Step(log, s, Advance(rest)), first, last, due, whole)
  {
    assert Covers(log, s.view.pushed, first, last, last);
    var seen, lines := s.view.cursor.value.seen, multiset(log[last].lines);
    assert seen + multiset([]) == seen;
    NothingOwed(seen, lines, Pending(s.view));
    assert multiset(rest) == multiset(log[last + 1].lines) && log[last + 1].lines[0] in multiset(rest);
  }

  /** The first frame ever fixes what its socket was to send of that timestamp. */
  ghost function DueAfter(s: Link, due: multiset<string>, e: Event): multiset<string>
  {
    if e.Deliver? && s.view.cursor.None? && s.feed.Some? then multiset(s.feed.value.rest) else due
  }

  ghost function Due(log: seq<Group>, events: seq<Event>): multiset<string>
  {
    if events == [] then multiset{}
    else
      var before := events[..|events| - 1];
      DueAfter(After(log, before), Due(log, before), events[|events| - 1])
  }

  lemma StepKeepsInv(log: seq<Group>, s: Link, first: nat, last: nat, due: multiset<string>, whole: bool, e: Event)
    returns (first': nat, last': nat)
    requires ValidLog(log) && Inv(log, s, first, last, due, whole) && Enabled(log, s, e)
    requires whole ==> StartsWhole(log, s, e)
    ensures Inv(log, Step(log, s, e), first', last', DueAfter(s, due, e), whole)
  {
    first', last' := first, last;
    match e {
      case Connect(feed) => ConnectKeepsInv(log, s, first, last, due, whole, feed);
      case Advance(rest) => AdvanceKeepsInv(log, s, first, last, due, whole, rest);
      case Deliver =>
        if s.view.cursor.None? {
          first', last' := s.feed.value.group, s.feed.value.group;
          DeliverFirst(log, s, due, whole);
        } else if s.feed.value.group == last {
          DeliverSame(log, s, first, last, due, whole);
        } else {
          last' := last + 1;
          DeliverNext(log, s, first, last, due, whole);
        }
    }
  }

  ghost predicate WholeStart(log: seq<Group>, events: seq<Event>)
  {
    events == [] ||
    var before := events[..|events| - 1];
    WholeStart(log, before) && StartsWhole(log, After(log, before), events[|events| - 1])
  }

  lemma {:induction false} RunInv(log: seq<Group>, events: seq<Event>, whole: bool) returns (first: nat, last: nat)
    requires ValidLog(log) && Run(log, events) && (whole ==> WholeStart(log, events))
    ensures Inv(log, After(log, events), first, last, Due(log, events), whole)
  {
    if events == [] {
      first, last := 0, 0;
    } else {
      var before := events[..|events| - 1];
      first, last := RunInv(log, before, whole);
      first, last := StepKeepsInv(log, After(log, before), first, last, Due(log, before), whole, events[|events| - 1]);
    }
  }

  ghost predicate OneStretch(log: seq<Group>, pushed: seq<Frame>, due: multiset<string>)
  {
    pushed == [] ||
    exists first: nat, last: nat ::
      Stitched(log, pushed, first, last) && (first < last ==> FirstCovered(log, pushed, first, due))
  }

  /**
   * Exactly once: after any number of sockets, dropped at any frame (also in the middle of a
   * replay), and with the server free to permute the frames of one timestamp on every replay,
   * what is shown is one stretch of the log without a repeated and without a missing frame: no
   * gap between the first and the last timestamp, and none in the first one from the moment on
   * that a later one is shown.
   */
  lemma ExactlyOnce(log: seq<Group>, events: seq<Event>)
    requires ValidLog(log) && Run(log, events)
    ensures OneStretch(log, After(log, events).view.pushed, Due(log, events))
  {
    var first, last := RunInv(log, events, false);
  }

  /** When the first socket starts at a timestamp's first frame, that group is complete. */
  lemma ExactlyOnceFromStart(log: seq<Group>, events: seq<Event>)
    requires ValidLog(log) && Run(log, events) && WholeStart(log, events)
    ensures var pushed := After(log, events).view.pushed;
            pushed == [] ||
            (exists first: nat, last: nat ::
               Stitched(log, pushed, first, last)
               && (first < last ==> LinesAt(pushed, log[first].timestamp) == multiset(log[first].lines)))
  {
    var first, last := RunInv(log, events, true);
  }

  // ---- A server that keeps the order -----------------------------------------------------------

  function Frames(g: Group): (fs: seq<Frame>)
    ensures |fs| == |g.lines| && forall i | 0 <= i < |fs| :: fs[i] == Frame(g.timestamp, g.lines[i])
  {
    seq(|g.lines|, i requires 0 <= i < |g.lines| => Frame(g.timestamp, g.lines[i]))
  }

  function Flat(log: seq<Group>): seq<Frame>
  {
    if log == [] then [] else Frames(log[0]) + Flat(log[1..])
  }

  lemma Regroup(a: seq<Frame>, b: seq<Frame>, c: seq<Frame>)
    ensures a + (b + c) == a + b + c
  {
  }

  lemma {:induction false} FlatConcat(a: seq<Group>, b: seq<Group>)
    ensures Flat(a + b) == Flat(a) + Flat(b)
  {
    if a == [] {
      assert a + b == b;
    } else {
      FlatConcat(a[1..], b);
      assert (a + b)[0] == a[0] && (a + b)[1..] == a[1..] + b;
      Regroup(Frames(a[0]), Flat(a[1..]), Flat(b));
    }
  }

  /** The server sends log order, and every source unseen so far from line `offset` of group `start`. */
  ghost predicate Orderly(log: seq<Group>, s: Link, e: Event, start: nat, offset: nat)
    requires start < |log| && offset < |log[start].lines|
  {
    match e
    case Connect(None) => true
    case Connect(Some(f)) =>
      f.group < |log| &&
      if s.view.cursor.Some? then f.rest == log[f.group].lines else f == Feed(start, log[start].lines[offset..])
    case Deliver => true
    case Advance(rest) => s.feed.Some? && s.feed.value.group + 1 < |log| && rest == log[s.feed.value.group + 1].lines
  }

  ghost predicate OrderlyRun(log: seq<Group>, events: seq<Event>, start: nat, offset: nat)
    requires start < |log| && offset < |log[start].lines|
  {
    events == [] ||
    var before := events[..|events| - 1];
    var s, e := After(log, before), events[|events| - 1];
    OrderlyRun(log, before, start, offset) && Enabled(log, s, e) && Orderly(log, s, e, start, offset)
  }

  /**
   * `shown` lines of group `last` are on screen, `sent` of them (or all of them) have come by
   * again on the current socket, and the replay list holds exactly the lines in between.
   */
  ghost predicate InvInOrder(log: seq<Group>, s: Link, first: nat, last: nat, shown: nat)
  {
    match s.view.cursor
    case None =>
      && first < |log| && s.view.pushed == [] && s.view.replay.None?
      && (s.feed.Some? ==> s.feed.value == Feed(first, log[first].lines))
    case Some(mark) =>
      && first <= last < |log| && 0 < shown <= |log[last].lines|
      && mark == Mark(log[last].timestamp, multiset(log[last].lines[..shown]))
      && s.view.pushed == Flat(log[first..last]) + Frames(log[last])[..shown]
      && (s.feed.Some? ==> Counted(log, s, last, shown))
  }

  ghost predicate Counted(log: seq<Group>, s: Link, last: nat, shown: nat)
    requires last < |log| && shown <= |log[last].lines| && s.feed.Some?
  {
    var lines := log[last].lines;
    if s.feed.value.group == last then
      var sent := |lines| - |s.feed.value.rest|;
      && 0 <= sent <= shown && s.feed.value.rest == lines[sent..]
      && s.view.replay == if sent < shown then Some(Mark(log[last].timestamp, multiset(lines[sent..shown]))) else None
    else
      && last + 1 < |log| && s.feed.value == Feed(last + 1, log[last + 1].lines)
      && s.view.replay.None? && shown == |lines|
  }

  lemma PeelFirst(lines: seq<string>, a: nat, b: nat)
    requires a < b <= |lines|
    ensures multiset(lines[a..b]) == multiset{lines[a]} + multiset(lines[a + 1..b])
  {
    assert lines[a..b] == [lines[a]] + lines[a + 1..b];
  }

  lemma ConsumeListed(timestamp: string, line: string, left: multiset<string>)
    ensures Consume(Some(Mark(timestamp, multiset{line} + left)), Frame(timestamp, line))
         == (if left == multiset{} then None else Some(Mark(timestamp, left)), true)
  {
    assert multiset{line} + left - multiset{line} == left;
  }

  /** The sent line is next on the replay list: it is eaten. */
  lemma EatInOrder(log: seq<Group>, s: Link, first: nat, last: nat, shown: nat)
    requires ValidLog(log) && InvInOrder(log, s, first, last, shown) && s.view.cursor.Some? && Enabled(log, s, Deliver)
    requires s.feed.value.group == last && |log[last].lines| - |s.feed.value.rest| < shown
    ensures InvInOrder(log, Step(log, s, Deliver), first, last, shown)
  {
    var lines, rest := log[last].lines, s.feed.value.rest;
    var sent := |lines| - |rest|;
    assert rest[0] == lines[sent] && rest[1..] == lines[sent + 1..];
    PeelFirst(lines, sent, shown);
    ConsumeListed(log[last].timestamp, lines[sent], multiset(lines[sent + 1..shown]));
    assert multiset(lines[sent + 1..shown]) == multiset{} <==> sent + 1 == shown by {
      if sent + 1 < shown {
        PeelFirst(lines, sent + 1, shown);
      }
    }
  }

  lemma ShowInOrder(log: seq<Group>, s: Link, first: nat, last: nat, shown: nat)
    requires ValidLog(log) && InvInOrder(log, s, first, last, shown) && s.view.cursor.Some? && Enabled(log, s, Deliver)
    requires s.feed.value.group == last && |log[last].lines| - |s.feed.value.rest| == shown
    ensures InvInOrder(log, Step(log, s, Deliver), first, last, shown + 1)
  {
    var lines, frames, rest := log[last].lines, Frames(log[last]), s.feed.value.rest;
    assert rest[0] == lines[shown] && rest[1..] == lines[shown + 1..];
    assert lines[..shown + 1] == lines[..shown] + [lines[shown]];
    assert multiset(lines[..shown + 1]) == multiset(lines[..shown]) + multiset{lines[shown]};
    assert frames[..shown + 1] == frames[..shown] + [frames[shown]];
    var flat := Flat(log[first..last]);
    assert (flat + frames[..shown]) + [frames[shown]] == flat + frames[..shown + 1];
  }

  lemma ShowNextGroup(log: seq<Group>, s: Link, first: nat, last: nat, shown: nat)
    requires ValidLog(log) && InvInOrder(log, s, first, last, shown) && s.view.cursor.Some? && Enabled(log, s, Deliver)
    requires s.feed.value.group == last + 1
    ensures InvInOrder(log, Step(log, s, Deliver), first, last + 1, 1)
  {
    var next := log[last + 1];
    assert next.lines[..1] == [next.lines[0]];
    assert Frames(next)[..1] == [Frame(next.timestamp, next.lines[0])];
    assert log[first..last + 1] == log[first..last] + [log[last]];
    FlatConcat(log[first..last], [log[last]]);
    assert Flat([log[last]]) == Frames(log[last]) by { assert Flat([]) == []; }
    assert Frames(log[last])[..shown] == Frames(log[last]);
  }

  lemma DeliverInOrder(log: seq<Group>, s: Link, first: nat, last: nat, shown: nat) returns (last': nat, shown': nat)
    requires ValidLog(log) && InvInOrder(log, s, first, last, shown) && Enabled(log, s, Deliver)
    ensures InvInOrder(log, Step(log, s, Deliver), first, last', shown')
  {
    var feed := s.feed.value;
    var lines := log[feed.group].lines;
    last', shown' := feed.group, 1;
    if s.view.cursor.None? {
      assert log[first..first] == [] && lines[..1] == [lines[0]];
      assert Frames(log[first])[..1] == [Frame(log[first].timestamp, lines[0])];
    } else if feed.group != last {
      ShowNextGroup(log, s, first, last, shown);
    } else if |lines| - |feed.rest| < shown {
      shown' := shown;
      EatInOrder(log, s, first, last, shown);
    } else {
      shown' := shown + 1;
      ShowInOrder(log, s, first, last, shown);
    }
  }

  lemma StepInOrder(log: seq<Group>, s: Link, first: nat, last: nat, shown: nat, e: Event)
    returns (last': nat, shown': nat)
    requires ValidLog(log) && InvInOrder(log, s, first, last, shown)
    requires first < |log| && Enabled(log, s, e) && Orderly(log, s, e, first, 0)
    ensures InvInOrder(log, Step(log, s, e), first, last', shown')
  {
    last', shown' := last, shown;
    match e {
      case Deliver => last', shown' := DeliverInOrder(log, s, first, last, shown);
      case Advance(_) =>
      case Connect(None) =>
      case Connect(Some(f)) =>
        if s.view.cursor.Some? {
          IndexOfAt(log, last);
          IndexOfAt(log, f.group);
        }
    }
  }

  lemma {:induction false} RunInOrder(log: seq<Group>, events: seq<Event>, start: nat) returns (last: nat, shown: nat)
    requires ValidLog(log) && start < |log| && OrderlyRun(log, events, start, 0)
    ensures InvInOrder(log, After(log, events), start, last, shown)
  {
    if events == [] {
      last, shown := start, 0;
    } else {
      var before := events[..|events| - 1];
      last, shown := RunInOrder(log, before, start);
      last, shown := StepInOrder(log, After(log, before), start, last, shown, events[|events| - 1]);
    }
  }

  /** What is shown is the log itself, from the line the first socket started at. */
  ghost predicate Segment(log: seq<Group>, pushed: seq<Frame>, start: nat, offset: nat)
    requires start < |log| && offset < |log[start].lines|
  {
    offset <= |Flat(log[start..])| && pushed <= Flat(log[start..])[offset..]
  }

  lemma InOrderIsSegment(log: seq<Group>, s: Link, start: nat, last: nat, shown: nat)
    requires start < |log| && log[start].lines != [] && InvInOrder(log, s, start, last, shown)
    ensures Segment(log, s.view.pushed, start, 0)
  {
    if s.view.cursor.Some? {
      assert log[start..] == log[start..last] + log[last..];
      FlatConcat(log[start..last], log[last..]);
      assert log[last..][1..] == log[last + 1..];
      assert Flat(log[last..]) == Frames(log[last]) + Flat(log[last + 1..]);
    }
  }

  // ---- The start matters ---------------------------------------------------------------------

  lemma AfterAppend(log: seq<Group>, events: seq<Event>, e: Event)
    ensures After(log, events + [e]) == Step(log, After(log, events), e)
  {
    assert (events + [e])[..|events|] == events;
  }

  lemma OrderlyAppend(log: seq<Group>, events: seq<Event>, e: Event, start: nat, offset: nat)
    requires start < |log| && offset < |log[start].lines|
    requires OrderlyRun(log, events, start, offset)
    requires Enabled(log, After(log, events), e) && Orderly(log, After(log, events), e, start, offset)
    ensures OrderlyRun(log, events + [e], start, offset)
  {
    assert (events + [e])[..|events|] == events;
  }

  /** Reading a replayed group to its end shows at least as many lines as the group has. */
  lemma {:induction false} DrainGroup(log: seq<Group>, events: seq<Event>, start: nat, offset: nat, size: nat)
    returns (run: seq<Event>)
    requires start < |log| && offset < |log[start].lines| && OrderlyRun(log, events, start, offset)
    requires var s := After(log, events);
             && s.feed.Some? && s.feed.value.group == start && s.view.cursor.Some?
             && log[start].timestamp != ""
             && s.view.cursor.value.timestamp == log[start].timestamp
             && (s.view.replay.Some? ==> s.view.replay.value.timestamp == log[start].timestamp)
             && |s.view.pushed| + |s.feed.value.rest| >= size + |Pending(s.view)|
             && (forall i | 0 <= i < |s.view.pushed| :: s.view.pushed[i].timestamp == log[start].timestamp)
    ensures OrderlyRun(log, run, start, offset)
    ensures var pushed := After(log, run).view.pushed;
            && |pushed| >= size && After(log, events).view.pushed <= pushed
            && forall i | 0 <= i < |pushed| :: pushed[i].timestamp == log[start].timestamp
    decreases |After(log, events).feed.value.rest|
  {
    var s := After(log, events);
    if s.feed.value.rest == [] {
      run := events;
    } else {
      OrderlyAppend(log, events, Deliver, start, offset);
      AfterAppend(log, events, Deliver);
      run := DrainGroup(log, events + [Deliver], start, offset, size);
    }
  }

  lemma FirstFrame(log: seq<Group>, start: nat, offset: nat) returns (run: seq<Event>)
    requires ValidLog(log) && start < |log| && 0 < offset < |log[start].lines|
    ensures OrderlyRun(log, run, start, offset)
    ensures var line := log[start].lines[offset]; var ts := log[start].timestamp;
            After(log, run).view == View(Some(Mark(ts, multiset{line})), None, [Frame(ts, line)])
  {
    var lines := log[start].lines;
    var first := Connect(Some(Feed(start, lines[offset..])));
    assert lines == lines[..offset] + lines[offset..];
    assert OrderlyRun(log, [], start, offset);
    OrderlyAppend(log, [], first, start, offset);
    AfterAppend(log, [], first);
    assert [] + [first] == [first];
    OrderlyAppend(log, [first], Deliver, start, offset);
    AfterAppend(log, [first], Deliver);
    run := [first] + [Deliver];
  }

  lemma {:induction false} OrderlyIsRun(log: seq<Group>, events: seq<Event>, start: nat, offset: nat)
    requires start < |log| && offset < |log[start].lines| && OrderlyRun(log, events, start, offset)
    ensures Run(log, events)
  {
    if events != [] {
      OrderlyIsRun(log, events[..|events| - 1], start, offset);
    }
  }

  lemma {:induction false} OneTimestamp(pushed: seq<Frame>, timestamp: string)
    requires forall i | 0 <= i < |pushed| :: pushed[i].timestamp == timestamp
    ensures |LinesAt(pushed, timestamp)| == |pushed|
  {
    if pushed != [] {
      OneTimestamp(pushed[..|pushed| - 1], timestamp);
    }
  }

  lemma AllOfThem(some: multiset<string>, lines: multiset<string>)
    requires some <= lines && |some| >= |lines|
    ensures some == lines
  {
    assert lines == some + (lines - some);
  }

  /** Many frames of one timestamp are all its frames. */
  lemma NoneRepeated(log: seq<Group>, events: seq<Event>, start: nat)
    requires ValidLog(log) && Run(log, events) && start < |log|
    requires var pushed := After(log, events).view.pushed;
             |pushed| >= |log[start].lines| && forall i | 0 <= i < |pushed| ::
                 pushed[i].timestamp == log[start].timestamp
    ensures LinesAt(After(log, events).view.pushed, log[start].timestamp) == multiset(log[start].lines)
  {
    var pushed := After(log, events).view.pushed;
    ExactlyOnce(log, events);
    OneTimestamp(pushed, log[start].timestamp);
    assert pushed != [];
    var first, last :| Stitched(log, pushed, first, last);
    assert Covers(log, pushed, first, last, start);
    AllOfThem(LinesAt(pushed, log[start].timestamp), multiset(log[start].lines));
  }

  /**
   * A first socket that starts inside a timestamp and drops after one frame: in the end every line
   * of the timestamp is shown, and none twice, but the line it started at comes first.
   */
  lemma MidGroupRun(log: seq<Group>, start: nat, offset: nat) returns (run: seq<Event>)
    requires ValidLog(log) && start < |log| && 0 < offset < |log[start].lines|
    ensures OrderlyRun(log, run, start, offset)
    ensures var pushed := After(log, run).view.pushed;
            && LinesAt(pushed, log[start].timestamp) == multiset(log[start].lines)
            && |pushed| >= |log[start].lines| && pushed[0].line == log[start].lines[offset]
            && forall i | 0 <= i < |pushed| :: pushed[i].timestamp == log[start].timestamp
  {
    var again := Connect(Some(Feed(start, log[start].lines)));
    run := FirstFrame(log, start, offset);
    OrderlyAppend(log, run, again, start, offset);
    AfterAppend(log, run, again);
    run := DrainGroup(log, run + [again], start, offset, |log[start].lines|);
    OrderlyIsRun(log, run, start, offset);
    NoneRepeated(log, run, start);
  }

  lemma FrameAfterGroup(log: seq<Group>, start: nat)
    requires ValidLog(log) && start < |log| && |Flat(log[start..])| > |log[start].lines|
    ensures Flat(log[start..])[|log[start].lines|].timestamp != log[start].timestamp
  {
    assert log[start..][1..] == log[start + 1..];
    assert Flat(log[start..]) == Frames(log[start]) + Flat(log[start + 1..]);
    assert log[start + 1..] != [];
    assert Flat(log[start + 1..])[0] == Frames(log[start + 1])[0];
  }

  lemma LongIsNoSegment(log: seq<Group>, pushed: seq<Frame>, start: nat, offset: nat)
    requires ValidLog(log) && start < |log| && 0 < offset < |log[start].lines|
    requires |pushed| >= |log[start].lines|
    requires forall i | 0 <= i < |pushed| :: pushed[i].timestamp == log[start].timestamp
    ensures !Segment(log, pushed, start, offset)
  {
    var flat, at := Flat(log[start..]), |log[start].lines| - offset;
    if at + offset < |flat| {
      FrameAfterGroup(log, start);
      assert flat[offset..][at] == flat[at + offset] != pushed[at];
    }
  }

  /**
   * With a server that keeps the order, every run shows a gap-free, duplicate-free stretch of the
   * log, beginning where the first socket started, exactly when that was a timestamp's first line.
   */
  lemma SegmentIffWholeStart(log: seq<Group>, start: nat, offset: nat)
    requires ValidLog(log) && start < |log| && offset < |log[start].lines|
    ensures (forall events | OrderlyRun(log, events, start, offset) ::
            Segment(log, After(log, events).view.pushed, start, offset))
       <==> offset == 0
  {
    if offset == 0 {
      forall events | OrderlyRun(log, events, start, offset)
        ensures Segment(log, After(log, events).view.pushed, start, offset)
      {
        var last, shown := RunInOrder(log, events, start);
        InOrderIsSegment(log, After(log, events), start, last, shown);
      }
    } else {
      var run := MidGroupRun(log, start, offset);
      LongIsNoSegment(log, After(log, run).view.pushed, start, offset);
    }
  }
}
