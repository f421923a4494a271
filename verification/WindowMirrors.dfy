/**
 * Every window mirrors the client state of the main process: it writes to its own copy first, tells
 * the main process, and is told about the writes of all other windows.
 */
module WindowMirrors {

  import opened ClientState
  import opened Optional

  type Window = nat

  /** One window's copy, its messages to the main process, and the messages on their way to it. */
  datatype Mirror = Mirror(booted: bool, snapshot: Items, up: seq<Op>, down: seq<Op>)

  datatype System = System(cache: Items, windows: map<Window, Mirror>)

  const OPENING := Mirror(false, map[], [], [])

  function Get(items: Items, key: string): Option<string>
  {
    if key in items then Some(items[key]) else None
  }

  function KeyOf(op: Op): string
  {
    op.name
  }

  function ValueOf(op: Op): Option<string>
  {
    match op
    case SetItem(_, value) => Some(value)
    case RemoveItem(_) => None
  }

  // ---- One window and the main process ---------------------------------------------------------

  /** The preload script's object in one window. */
  class Preload {
    var stateSnapshot: Items
    var sent: seq<Op>

    constructor (all: Items)
      ensures stateSnapshot == all && sent == []
    {
      stateSnapshot, sent := all, [];
    }

    method GetItem(name: string) returns (value: Option<string>)
      ensures value == Get(stateSnapshot, name)
    {
      value := if name in stateSnapshot then Some(stateSnapshot[name]) else None;
    }

    method Write(op: Op)
      modifies this
      ensures Mirror(true, stateSnapshot, sent, []) == WriteTo(Mirror(true, old(stateSnapshot), old(sent), []), op)
    {
      match op {
        case SetItem(name, value) => stateSnapshot := stateSnapshot[name := value];
        case RemoveItem(name) => stateSnapshot := stateSnapshot - {name};
      }
      sent := sent + [op];
    }

    method OnChanged(name: string, value: Option<string>)
      modifies this`stateSnapshot
      ensures forall key :: Get(stateSnapshot, key) == if key == name then value else Get(old(stateSnapshot), key)
      ensures forall op | KeyOf(op) == name && ValueOf(op) == value :: stateSnapshot == Apply(old(stateSnapshot), op)
    {
      match value {
        case Some(text) => stateSnapshot := stateSnapshot[name := text];
        case None => stateSnapshot := stateSnapshot - {name};
      }
    }
  }

  function WriteTo(m: Mirror, op: Op): Mirror
  {
    m.(snapshot := Apply(m.snapshot, op), up := m.up + [op])
  }

  function Told(m: Mirror, op: Op): Mirror
  {
    m.(down := m.down + [op])
  }

  function TellOthers(windows: map<Window, Mirror>, from: Window, op: Op): map<Window, Mirror>
  {
    map w | w in windows :: if w == from then windows[w] else Told(windows[w], op)
  }

  /** The main process passes a change on to every window but the sender. */
  method PassOn(windows: map<Window, Mirror>, from: Window, op: Op) returns (told: map<Window, Mirror>)
    ensures told == TellOthers(windows, from, op) && told.Keys == windows.Keys
    ensures from in windows ==> told[from] == windows[from]
    ensures forall w | w in windows && w != from ::
              && told[w].booted == windows[w].booted && told[w].snapshot == windows[w].snapshot
              && told[w].up == windows[w].up && told[w].down == windows[w].down + [op]
  {
    told := windows;
    var rest := windows.Keys;
    while rest != {}
      invariant rest <= windows.Keys && told.Keys == windows.Keys
      invariant forall w | w in windows :: told[w] == if w in rest || w == from then windows[w]
                else Told(windows[w], op)
      decreases |rest|
    {
      var w :| w in rest;
      rest := rest - {w};
      if w != from {
        told := told[w := Told(windows[w], op)];
      }
    }
  }

  // ---- All windows -------------------------------------------------------------------------------

  datatype Event =
    | Open(w: Window)                // listed from now on, but its preload has not run yet
    | Boot(w: Window, lost: nat)     // messages from before the preload may have been dropped
    | Write(w: Window, op: Op)
    | Up(w: Window)                  // the main process handles the window's oldest message
    | Down(w: Window)                // the window handles its oldest message
    | Close(w: Window)

  predicate Enabled(s: System, ev: Event)
  {
    match ev
    case Open(w) => w !in s.windows
    case Boot(w, lost) => w in s.windows && !s.windows[w].booted && lost <= |s.windows[w].down|
    case Write(w, _) => w in s.windows && s.windows[w].booted
    case Up(w) => w in s.windows && s.windows[w].up != []
    case Down(w) => w in s.windows && s.windows[w].booted && s.windows[w].down != []
    case Close(w) => w in s.windows
  }

  function Step(s: System, ev: Event): System
    requires Enabled(s, ev)
  {
    match ev
    case Open(w) => s.(windows := s.windows[w := OPENING])
    case Boot(w, lost) =>
      s.(windows := s.windows[w := Mirror(true, s.cache, [], s.windows[w].down[lost..])])
    case Write(w, op) => s.(windows := s.windows[w := WriteTo(s.windows[w], op)])
    case Up(w) =>
      var op := s.windows[w].up[0];
      var told := TellOthers(s.windows, w, op);
      System(Apply(s.cache, op), told[w := told[w].(up := told[w].up[1..])])
    case Down(w) =>
      var m := s.windows[w];
      s.(windows := s.windows[w := m.(snapshot := Apply(m.snapshot, m.down[0]), down := m.down[1..])])
    case Close(w) => s.(windows := s.windows - {w})
  }

  /** Which windows there are, and that a step of one window reaches the others only as one more message. */
  lemma OthersOnlyHear(s: System, ev: Event, v: Window)
    requires Enabled(s, ev)
    ensures var keys := Step(s, ev).windows.Keys;
            keys == match ev case Open(w) => s.windows.Keys
                + {w} case Close(w) => s.windows.Keys - {w} case _ => s.windows.Keys
    ensures v in s.windows && v != ev.w ==>
              Step(s, ev).windows[v] == if ev.Up?
                  then s.windows[v].(down := s.windows[v].down + [s.windows[ev.w].up[0]])
                                        else s.windows[v]
    ensures Step(s, ev).cache == if ev.Up? then Apply(s.cache, s.windows[ev.w].up[0]) else s.cache
  {
  }

  ghost predicate Next(states: seq<System>, events: seq<Event>, i: nat)
    requires |states| == |events| + 1 && i < |events|
  {
    Enabled(states[i], events[i]) && states[i + 1] == Step(states[i], events[i])
  }

  ghost predicate Run(states: seq<System>, events: seq<Event>)
  {
    |states| == |events| + 1 && forall i: nat | i < |events| :: Next(states, events, i)
  }

  ghost predicate Drained(s: System)
  {
    forall w | w in s.windows :: s.windows[w].booted && s.windows[w].up == [] && s.windows[w].down == []
  }

  /** Everybody reads the same value for the key. */
  ghost predicate Agrees(s: System, key: string)
  {
    forall w | w in s.windows :: Get(s.windows[w].snapshot, key) == Get(s.cache, key)
  }

  // ---- What is on its way ------------------------------------------------------------------------

  /** The last word a sequence of messages has on a key. */
  function Last(ops: seq<Op>, key: string): Option<Option<string>>
  {
    if ops == [] then None
    else if KeyOf(ops[|ops| - 1]) == key then Some(ValueOf(ops[|ops| - 1]))
    else Last(ops[..|ops| - 1], key)
  }

  /** What the window will read for the key after all messages to it have arrived. */
  function Will(m: Mirror, key: string): Option<string>
  {
    match Last(m.down, key)
    case Some(value) => value
    case None => Get(m.snapshot, key)
  }

  lemma GetApply(items: Items, op: Op, key: string)
    ensures Get(Apply(items, op), key) == if KeyOf(op) == key then ValueOf(op) else Get(items, key)
  {
  }

  lemma LastAppend(ops: seq<Op>, op: Op, key: string)
    ensures Last(ops + [op], key) == if KeyOf(op) == key then Some(ValueOf(op)) else Last(ops, key)
  {
    assert (ops + [op])[..|ops|] == ops;
  }

  /** The last word is that of the newer messages, if they have one. */
  lemma {:induction false} LastDrop(ops: seq<Op>, n: nat, key: string)
    requires n <= |ops|
    ensures Last(ops, key) == if Last(ops[n..], key).Some? then Last(ops[n..], key) else Last(ops[..n], key)
  {
    if n == |ops| {
      assert ops[..n] == ops;
    } else {
      var front := ops[..|ops| - 1];
      LastDrop(front, n, key);
      assert ops[n..][..|ops| - n - 1] == front[n..] && front[..n] == ops[..n];
    }
  }

  lemma LastFirst(ops: seq<Op>, key: string)
    requires ops != []
    ensures Last(ops, key) == if Last(ops[1..], key).Some? then Last(ops[1..], key)
                              else if KeyOf(ops[0]) == key then Some(ValueOf(ops[0])) else None
  {
    LastDrop(ops, 1, key);
    LastAppend([], ops[0], key);
    assert ops[..1] == [] + [ops[0]];
  }

  lemma WillDown(m: Mirror, key: string)
    requires m.down != []
    ensures Will(m.(snapshot := Apply(m.snapshot, m.down[0]), down := m.down[1..]), key) == Will(m, key)
  {
    LastFirst(m.down, key);
    GetApply(m.snapshot, m.down[0], key);
  }

  lemma WillTold(m: Mirror, op: Op, key: string)
    ensures Will(Told(m, op), key) == if KeyOf(op) == key then ValueOf(op) else Will(m, key)
    ensures Last(Told(m, op).down, key) == if KeyOf(op) == key then Some(ValueOf(op)) else Last(m.down, key)
  {
    LastAppend(m.down, op, key);
  }

  // ---- Writes that do not cross ------------------------------------------------------------------

  /** Nobody else is about to change the key, and no such change is still on its way here. */
  ghost predicate Clear(s: System, w: Window, key: string)
    requires w in s.windows
  {
    && (forall v | v in s.windows && v != w :: Last(s.windows[v].up, key).None?)
    && Last(s.windows[w].down, key).None?
  }

  ghost predicate MirrorOk(cache: Items, m: Mirror, key: string)
  {
    if !m.booted then m.up == [] && (Last(m.down, key).Some? ==> Last(m.down, key).value == Get(cache, key))
    else if Last(m.up, key).Some? then Last(m.down, key).None? && Last(m.up, key).value == Get(m.snapshot, key)
    else Will(m, key) == Get(cache, key)
  }

  ghost predicate OneWriter(s: System, key: string)
  {
    forall v, w | v in s.windows && w in s.windows && Last(s.windows[v].up, key).Some?
        && Last(s.windows[w].up, key).Some? :: v == w
  }

  ghost predicate KeyInv(s: System, key: string)
  {
    OneWriter(s, key) && forall w | w in s.windows :: MirrorOk(s.cache, s.windows[w], key)
  }

  lemma WriteOk(cache: Items, m: Mirror, op: Op, key: string)
    requires m.booted && MirrorOk(cache, m, key) && (KeyOf(op) == key ==> Last(m.down, key).None?)
    ensures MirrorOk(cache, WriteTo(m, op), key)
  {
    LastAppend(m.up, op, key);
    GetApply(m.snapshot, op, key);
  }

  lemma TellOk(cache: Items, m: Mirror, op: Op, key: string)
    requires MirrorOk(cache, m, key) && (KeyOf(op) == key ==> Last(m.up, key).None?)
    ensures MirrorOk(Apply(cache, op), Told(m, op), key)
  {
    WillTold(m, op, key);
    GetApply(cache, op, key);
  }

  /** The sender's own message reaches the main process. */
  lemma SentOk(cache: Items, m: Mirror, key: string)
    requires m.up != [] && MirrorOk(cache, m, key)
    ensures MirrorOk(Apply(cache, m.up[0]), m.(up := m.up[1..]), key)
    ensures Last(m.up[1..], key).Some? ==> Last(m.up, key).Some?
  {
    LastFirst(m.up, key);
    GetApply(cache, m.up[0], key);
  }

  lemma StepKeeps(s: System, ev: Event, key: string)
    requires KeyInv(s, key) && Enabled(s, ev)
    requires ev.Write? && KeyOf(ev.op) == key ==> Clear(s, ev.w, key)
    ensures KeyInv(Step(s, ev), key)
  {
    var s' := Step(s, ev);
    match ev {
      case Up(w) => UpKeeps(s, w, key);
      case Write(w, op) =>
        LastAppend(s.windows[w].up, op, key);
        WriteOk(s.cache, s.windows[w], op, key);
      case Boot(w, lost) => LastDrop(s.windows[w].down, lost, key);
      case Down(w) => DownOk(s.cache, s.windows[w], key);
      case _ =>
    }
  }

  lemma DownOk(cache: Items, m: Mirror, key: string)
    requires m.booted && m.down != [] && MirrorOk(cache, m, key)
    ensures MirrorOk(cache, m.(snapshot := Apply(m.snapshot, m.down[0]), down := m.down[1..]), key)
  {
    WillDown(m, key);
    LastFirst(m.down, key);
    GetApply(m.snapshot, m.down[0], key);
  }

  lemma UpKeeps(s: System, w: Window, key: string)
    requires KeyInv(s, key) && Enabled(s, Up(w))
    ensures KeyInv(Step(s, Up(w)), key)
  {
    var s', op := Step(s, Up(w)), s.windows[w].up[0];
    LastFirst(s.windows[w].up, key);
    SentOk(s.cache, s.windows[w], key);
    forall v | v in s'.windows ensures MirrorOk(s'.cache, s'.windows[v], key) {
      if v != w {
        TellOk(s.cache, s.windows[v], op, key);
      }
    }
  }

  lemma {:induction false} RunKeeps(states: seq<System>, events: seq<Event>, key: string, k: nat)
    requires Run(states, events) && k < |states| && KeyInv(states[0], key)
    requires forall i: nat | i < k && events[i].Write? && KeyOf(events[i].op) == key
             && Enabled(states[i], events[i]) :: Clear(states[i], events[i].w, key)
    ensures KeyInv(states[k], key)
  {
    if k > 0 {
      RunKeeps(states, events, key, k - 1);
      assert Next(states, events, k - 1);
      StepKeeps(states[k - 1], events[k - 1], key);
    }
  }

  lemma DrainedAgrees(s: System, key: string)
    requires KeyInv(s, key) && Drained(s)
    ensures Agrees(s, key)
  {
    forall w | w in s.windows ensures Get(s.windows[w].snapshot, key) == Get(s.cache, key) {
      assert MirrorOk(s.cache, s.windows[w], key);
    }
  }

  /** The main process before its first window. */
  ghost predicate Initial(s: System)
  {
    s.windows == map[]
  }

  /**
   * Windows may open, boot, write, close and be told in any order. If nobody writes the key while
   * another window's change of it is on its way, all copies agree with the main process as soon as
   * nothing is on its way any more.
   */
  lemma MirrorsConverge(states: seq<System>, events: seq<Event>, key: string, k: nat)
    requires Run(states, events) && Initial(states[0]) && k < |states| && Drained(states[k])
    requires forall i: nat | i < k && events[i].Write? && KeyOf(events[i].op) == key
             && Enabled(states[i], events[i]) :: Clear(states[i], events[i].w, key)
    ensures Agrees(states[k], key)
  {
    RunKeeps(states, events, key, k);
    DrainedAgrees(states[k], key);
  }

  // ---- Writes that cross -------------------------------------------------------------------------

  /** Two windows have a change of the key on its way to the main process. */
  ghost predicate Racing(s: System, key: string, v: Window, x: Option<string>, w: Window, y: Option<string>)
  {
    && v in s.windows && w in s.windows && v != w && s.windows[v].booted && s.windows[w].booted
    && Last(s.windows[v].up, key) == Some(x) && Last(s.windows[w].up, key) == Some(y)
    && forall u | u in s.windows && u != v && u != w :: Last(s.windows[u].up, key).None?
  }

  /** One window has the last word on the key, but is going to read another value itself. */
  ghost predicate Misled(s: System, key: string, w: Window, final: Option<string>, sees: Option<string>)
  {
    && w in s.windows && s.windows[w].booted && Will(s.windows[w], key) == sees
    && (forall u | u in s.windows && u != w :: Silent(s.windows[u], key))
    && match Last(s.windows[w].up, key)
       case Some(value) => value == final
       case None => Get(s.cache, key) == final && forall u | u in s.windows && u != w ::
           Expects(s.windows[u], key, final)
  }

  ghost predicate Silent(m: Mirror, key: string)
  {
    Last(m.up, key).None? && (!m.booted ==> m.up == [])
  }

  ghost predicate Expects(m: Mirror, key: string, final: Option<string>)
  {
    if m.booted then Will(m, key) == final
    else Last(m.down, key).Some? ==> Last(m.down, key).value == final
  }

  lemma ToldExpects(m: Mirror, op: Op, key: string, final: Option<string>)
    ensures KeyOf(op) == key && ValueOf(op) == final ==> Expects(Told(m, op), key, final)
    ensures KeyOf(op) != key ==> (Expects(Told(m, op), key, final) <==> Expects(m, key, final))
    ensures Silent(Told(m, op), key) <==> Silent(m, key)
  {
    WillTold(m, op, key);
  }

  predicate LeavesAlone(ev: Event, key: string)
  {
    !ev.Close? && (ev.Write? ==> KeyOf(ev.op) != key)
  }

  ghost predicate Crossed(s: System, key: string, x: Option<string>, y: Option<string>)
  {
    || (exists v, w :: Racing(s, key, v, x, w, y) && Unbooted(s))
    || (exists w :: Misled(s, key, w, x, y))
    || (exists w :: Misled(s, key, w, y, x))
  }

  ghost predicate Unbooted(s: System)
  {
    forall u | u in s.windows && !s.windows[u].booted :: s.windows[u].up == []
  }

  lemma QuietMirror(m: Mirror, op: Op, key: string)
    requires KeyOf(op) != key
    ensures Last(WriteTo(m, op).up, key) == Last(m.up, key)
    ensures Will(WriteTo(m, op), key) == Will(m, key)
  {
    LastAppend(m.up, op, key);
    GetApply(m.snapshot, op, key);
  }

  lemma RacingStep(s: System, ev: Event, key: string, v: Window, x: Option<string>, w: Window, y: Option<string>)
    requires Racing(s, key, v, x, w, y) && Unbooted(s) && Enabled(s, ev) && LeavesAlone(ev, key)
    ensures Crossed(Step(s, ev), key, x, y)
  {
    var s' := Step(s, ev);
    match ev {
      case Up(u) =>
        RacingUp(s, u, key, v, x, w, y);
      case Write(u, op) =>
        QuietMirror(s.windows[u], op, key);
        assert Racing(s', key, v, x, w, y) && Unbooted(s');
      case Open(_) => assert Racing(s', key, v, x, w, y) && Unbooted(s');
      case Boot(_, _) => assert Racing(s', key, v, x, w, y) && Unbooted(s');
      case Down(_) => assert Racing(s', key, v, x, w, y) && Unbooted(s');
      case Close(_) =>
    }
  }

  lemma RacingUp(s: System, u: Window, key: string, v: Window, x: Option<string>, w: Window, y: Option<string>)
    requires Racing(s, key, v, x, w, y) && Unbooted(s) && Enabled(s, Up(u))
    ensures Crossed(Step(s, Up(u)), key, x, y)
  {
    var s', op := Step(s, Up(u)), s.windows[u].up[0];
    LastFirst(s.windows[u].up, key);
    if u == v && Last(s'.windows[v].up, key).None? {
      WillTold(s.windows[w], op, key);
      assert Misled(s', key, w, y, x);
    } else if u == w && Last(s'.windows[w].up, key).None? {
      WillTold(s.windows[v], op, key);
      assert Misled(s', key, v, x, y);
    } else {
      assert Racing(s', key, v, x, w, y) && Unbooted(s');
    }
  }

  lemma MisledUp(s: System, u: Window, key: string, w: Window, final: Option<string>, sees: Option<string>)
    requires Misled(s, key, w, final, sees) && Enabled(s, Up(u))
    ensures Misled(Step(s, Up(u)), key, w, final, sees)
  {
    var op := s.windows[u].up[0];
    LastFirst(s.windows[u].up, key);
    GetApply(s.cache, op, key);
    if KeyOf(op) == key {
      MisledOwnUp(s, key, w, final, sees);
    } else {
      MisledOtherUp(s, u, key, w, final, sees);
    }
  }

  lemma MisledOwnUp(s: System, key: string, w: Window, final: Option<string>, sees: Option<string>)
    requires Misled(s, key, w, final, sees) && Enabled(s, Up(w)) && KeyOf(s.windows[w].up[0]) == key
    ensures Misled(Step(s, Up(w)), key, w, final, sees)
  {
    var s', op := Step(s, Up(w)), s.windows[w].up[0];
    LastFirst(s.windows[w].up, key);
    GetApply(s.cache, op, key);
    forall v | v in s.windows && v != w
      ensures Silent(s'.windows[v], key) && (ValueOf(op) == final ==> Expects(s'.windows[v], key, final))
    {
      ToldExpects(s.windows[v], op, key, final);
    }
  }

  lemma MisledOtherUp(s: System, u: Window, key: string, w: Window, final: Option<string>, sees: Option<string>)
    requires Misled(s, key, w, final, sees) && Enabled(s, Up(u)) && KeyOf(s.windows[u].up[0]) != key
    ensures Misled(Step(s, Up(u)), key, w, final, sees)
  {
    var s', op := Step(s, Up(u)), s.windows[u].up[0];
    LastFirst(s.windows[u].up, key);
    GetApply(s.cache, op, key);
    WillTold(s.windows[w], op, key);
    forall v | v in s.windows && v != w
      ensures Silent(s'.windows[v], key) && (Expects(s.windows[v], key, final) ==> Expects(s'.windows[v], key, final))
    {
      ToldExpects(s.windows[v], op, key, final);
    }
  }

  lemma MisledWindow(s: System, ev: Event, key: string, w: Window, final: Option<string>, sees: Option<string>)
    requires Misled(s, key, w, final, sees) && Enabled(s, ev) && LeavesAlone(ev, key)
    requires ev.Write? || ev.Boot? || ev.Down?
    ensures Misled(Step(s, ev), key, w, final, sees)
  {
    match ev {
      case Write(u, op) => QuietMirror(s.windows[u], op, key);
      case Boot(u, lost) => LastDrop(s.windows[u].down, lost, key);
      case Down(u) => WillDown(s.windows[u], key);
    }
  }

  lemma MisledStep(s: System, ev: Event, key: string, w: Window, final: Option<string>, sees: Option<string>)
    requires Misled(s, key, w, final, sees) && Enabled(s, ev) && LeavesAlone(ev, key)
    ensures Misled(Step(s, ev), key, w, final, sees)
  {
    match ev {
      case Up(u) => MisledUp(s, u, key, w, final, sees);
      case Open(_) =>
      case Close(_) =>
      case _ => MisledWindow(s, ev, key, w, final, sees);
    }
  }

  lemma CrossedStep(s: System, ev: Event, key: string, x: Option<string>, y: Option<string>)
    requires Crossed(s, key, x, y) && Enabled(s, ev) && LeavesAlone(ev, key)
    ensures Crossed(Step(s, ev), key, x, y)
  {
    if v, w :| Racing(s, key, v, x, w, y) && Unbooted(s) {
      RacingStep(s, ev, key, v, x, w, y);
    } else if w :| Misled(s, key, w, x, y) {
      MisledStep(s, ev, key, w, x, y);
    } else {
      var w :| Misled(s, key, w, y, x);
      MisledStep(s, ev, key, w, y, x);
    }
  }

  lemma {:induction false} CrossedRun(states: seq<System>, events: seq<Event>, key: string, x: Option<string>,
                                      y: Option<string>, i: nat, k: nat)
    requires Run(states, events) && i <= k < |states| && Crossed(states[i], key, x, y)
    requires forall j | i <= j < k :: LeavesAlone(events[j], key)
    ensures Crossed(states[k], key, x, y)
  {
    if i < k {
      CrossedRun(states, events, key, x, y, i, k - 1);
      assert Next(states, events, k - 1);
      CrossedStep(states[k - 1], events[k - 1], key, x, y);
    }
  }

  lemma CrossedDrained(s: System, key: string, x: Option<string>, y: Option<string>)
    requires Crossed(s, key, x, y) && Drained(s)
    ensures Agrees(s, key) <==> x == y
  {
    if w :| Misled(s, key, w, x, y) {
      MisledDrained(s, key, w, x, y);
    } else if w :| Misled(s, key, w, y, x) {
      MisledDrained(s, key, w, y, x);
    }
  }

  lemma MisledDrained(s: System, key: string, w: Window, final: Option<string>, sees: Option<string>)
    requires Misled(s, key, w, final, sees) && Drained(s)
    ensures Agrees(s, key) <==> final == sees
  {
    assert Get(s.windows[w].snapshot, key) == sees;
    forall u | u in s.windows && u != w ensures Get(s.windows[u].snapshot, key) == final {
      assert Expects(s.windows[u], key, final);
    }
  }

  /** The last change of the key by others that a writing window has not seen yet. */
  ghost function Unseen(s: System, w: Window, key: string): Option<string>
    requires w in s.windows && !Clear(s, w, key)
  {
    if exists v :: v in s.windows && v != w && Last(s.windows[v].up, key).Some? then
      var v :| v in s.windows && v != w && Last(s.windows[v].up, key).Some?;
      Last(s.windows[v].up, key).value
    else Last(s.windows[w].down, key).value
  }

  lemma WriteCrosses(s: System, w: Window, op: Op, key: string)
    requires KeyInv(s, key) && Enabled(s, Write(w, op)) && KeyOf(op) == key && !Clear(s, w, key)
    ensures Crossed(Step(s, Write(w, op)), key, ValueOf(op), Unseen(s, w, key))
  {
    var s' := Step(s, Write(w, op));
    LastAppend(s.windows[w].up, op, key);
    assert MirrorOk(s.cache, s.windows[w], key);
    if v :| v in s.windows && v != w && Last(s.windows[v].up, key).Some? {
      assert MirrorOk(s.cache, s.windows[v], key);
      assert Racing(s', key, w, ValueOf(op), v, Unseen(s, w, key));
    } else {
      assert Misled(s', key, w, ValueOf(op), Unseen(s, w, key));
    }
  }

  /**
   * The hypothesis is needed exactly: when all writes of a key had been clear so far, and one more
   * is followed by none, then all copies end up the same exactly if that write was clear as well or
   * happened to repeat the last value it did not know of.
   */
  lemma CrossingWriteExactly(states: seq<System>, events: seq<Event>, key: string, i: nat, k: nat)
    requires Run(states, events) && Initial(states[0]) && i < k < |states| && Drained(states[k])
    requires forall j: nat | j < i && events[j].Write? && KeyOf(events[j].op) == key
             && Enabled(states[j], events[j]) :: Clear(states[j], events[j].w, key)
    requires events[i].Write? && KeyOf(events[i].op) == key && Enabled(states[i], events[i])
    requires forall j | i < j < k :: LeavesAlone(events[j], key)
    ensures Agrees(states[k], key) <==>
            Clear(states[i], events[i].w, key)
            || ValueOf(events[i].op) == Unseen(states[i], events[i].w, key)
  {
    RunKeeps(states, events, key, i);
    if Clear(states[i], events[i].w, key) {
      RunKeeps(states, events, key, k);
      DrainedAgrees(states[k], key);
    } else {
      assert Next(states, events, i);
      WriteCrosses(states[i], events[i].w, events[i].op, key);
      CrossedRun(states, events, key, ValueOf(events[i].op), Unseen(states[i], events[i].w, key), i + 1, k);
      CrossedDrained(states[k], key, ValueOf(events[i].op), Unseen(states[i], events[i].w, key));
    }
  }

  ghost predicate Reaches(s: System)
  {
    exists states, events :: Run(states, events) && Initial(states[0]) && states[|states| - 1] == s
  }

  lemma ReachesNext(s: System, ev: Event)
    requires Reaches(s) && Enabled(s, ev)
    ensures Reaches(Step(s, ev))
  {
    var states, events :| Run(states, events) && Initial(states[0]) && states[|states| - 1] == s;
    var states', events' := states + [Step(s, ev)], events + [ev];
    forall i: nat | i < |events'| ensures Next(states', events', i) {
      assert i < |events| ==> Next(states, events, i);
    }
    assert Run(states', events') && states'[|states'| - 1] == Step(s, ev);
  }

  const READY := Mirror(true, map[], [], [])

  lemma OpenAndBoot(s: System, w: Window) returns (s': System)
    requires Reaches(s) && w !in s.windows && s.cache == map[]
    ensures Reaches(s') && s' == System(map[], s.windows[w := READY])
  {
    ReachesNext(s, Open(w));
    var listed := Step(s, Open(w));
    ReachesNext(listed, Boot(w, 0));
    s' := Step(listed, Boot(w, 0));
  }

  /** The main process has stored window 0's value and told window 1, which has not looked yet. */
  lemma FirstWrite(key: string, value: string) returns (s: System)
    ensures var items := map[key := value];
            Reaches(s) && s == System(items,
                map[0 := READY.(snapshot := items), 1 := READY.(down := [SetItem(key, value)])])
  {
    var start := System(map[], map[]);
    assert Run([start], []) && Initial([start][0]) && [start][|[start]| - 1] == start;
    var s0 := OpenAndBoot(start, 0);
    var s1 := OpenAndBoot(s0, 1);
    ReachesNext(s1, Write(0, SetItem(key, value)));
    var s2 := Step(s1, Write(0, SetItem(key, value)));
    assert s2.windows[0].up == [SetItem(key, value)];
    ReachesNext(s2, Up(0));
    s := Step(s2, Up(0));
    assert s.windows.Keys == {0, 1} && [SetItem(key, value)][1..] == [];
  }

  /** Window 1 then writes, too. In the end it alone still reads the first value. */
  lemma CrossingWriteDiverges(key: string, first: string, second: string)
    requires first != second
    ensures exists s :: Reaches(s) && Drained(s) && s.windows.Keys == {0, 1} && Get(s.cache, key) == Some(second)
              && Get(s.windows[0].snapshot, key) == Some(second) && Get(s.windows[1].snapshot, key) == Some(first)
  {
    var op := SetItem(key, second);
    var s0 := FirstWrite(key, first);
    ReachesNext(s0, Write(1, op));
    var s1 := Step(s0, Write(1, op));
    assert s1.windows[1].up == [op];
    ReachesNext(s1, Up(1));
    var s2 := Step(s1, Up(1));
    assert s2.windows[0].down == [op] && s2.windows[1].up == [] && s2.windows[1].down == [SetItem(key, first)];
    ReachesNext(s2, Down(1));
    var s3 := Step(s2, Down(1));
    ReachesNext(s3, Down(0));
    var s4 := Step(s3, Down(0));
    assert Drained(s4) && s4.windows.Keys == {0, 1};
  }
}
