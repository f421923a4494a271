/**
 * The desktop app's client state: a cache in the main process that is written behind to one file,
 * with coalesced writes and a slower retry after a failed one.
 */
module ClientState {

  import opened Optional

  type Items = map<string, string>

  /** A file that cannot be read, or does not hold an object, counts as empty. */
  datatype File = Unreadable | Readable(items: Items)

  datatype Op = SetItem(name: string, value: string) | RemoveItem(name: string)

  /** How an attempt to write ends: it may fail at each of its three steps. */
  datatype Outcome = Written | DirectoryFails | TemporaryFails | RenameFails

  datatype Notice = WriteFailed

  const FLUSH_MS: nat := 150
  const RETRY_MS: nat := 5000

  /** `timer` is the time that is left until the next write attempt. */
  datatype Store = Store(
    cache: Option<Items>,
    pending: Option<Items>,
    timer: Option<nat>,
    file: File,
    temporary: File)

  function Contents(f: File): Items
  {
    match f
    case Unreadable => map[]
    case Readable(items) => items
  }

  function Apply(items: Items, op: Op): Items
  {
    match op
    case SetItem(name, value) => items[name := value]
    case RemoveItem(name) => items - {name}
  }

  function Fold(items: Items, ops: seq<Op>): Items
  {
    if ops == [] then items else Apply(Fold(items, ops[..|ops| - 1]), ops[|ops| - 1])
  }

  // ---- The functions of the main process -----------------------------------------------------

  function Load(s: Store): Store
  {
    if s.cache.Some? then s else s.(cache := Some(Contents(s.file)))
  }

  function Schedule(s: Store, items: Items, delay: nat): Store
  {
    s.(pending := Some(items), cache := Some(items), timer := if s.timer.Some? then s.timer else Some(delay))
  }

  /** What is on disk after an attempt: the rename is the only step that touches the file itself. */
  function Save(s: Store, items: Items, outcome: Outcome): Store
  {
    match outcome
    case Written => s.(file := Readable(items), temporary := Unreadable, cache := Some(items))
    case DirectoryFails => s
    case TemporaryFails => s.(temporary := Unreadable)
    case RenameFails => s.(temporary := Readable(items))
  }

  function Flush(s: Store, outcome: Outcome): (Store, seq<Notice>)
  {
    var s' := s.(timer := None);
    if s.pending.None? then (s', [])
    else if outcome.Written? then (Save(s', s.pending.value, outcome).(pending := None), [])
    else (Schedule(Save(s', s.pending.value, outcome), s.pending.value, RETRY_MS), [WriteFailed])
  }

  function Change(s: Store, op: Op): Store
  {
    var loaded := Load(s);
    Schedule(loaded, Apply(loaded.cache.value, op), FLUSH_MS)
  }

  /** The module variables of the main process and the two files they are about. */
  class ClientStore {
    var cache: Option<Items>
    var pending: Option<Items>
    var timer: Option<nat>
    var file: File
    var temporary: File

    ghost function State(): Store
      reads this
    {
      Store(cache, pending, timer, file, temporary)
    }

    constructor (file: File)
      ensures State() == Store(None, None, None, file, Unreadable)
    {
      cache, pending, timer, temporary := None, None, None, Unreadable;
      this.file := file;
    }

    method LoadClientState() returns (items: Items)
      modifies this`cache
      ensures State() == Load(old(State())) && cache == Some(items)
    {
      if cache.None? {
        match file {
          case Unreadable => cache := Some(map[]);
          case Readable(stored) => cache := Some(stored);
        }
      }
      items := cache.value;
    }

    method ScheduleFlush(items: Items, delay: nat)
      modifies this
      ensures State() == Schedule(old(State()), items, delay)
    {
      pending, cache := Some(items), Some(items);
      if timer.None? {
        timer := Some(delay);
      }
    }

    /** `saved` is false when one of the file operations threw. */
    method SaveClientState(items: Items, outcome: Outcome) returns (saved: bool)
      modifies this`cache, this`file, this`temporary
      ensures State() == Save(old(State()), items, outcome) && (saved <==> outcome.Written?)
      ensures file == if saved then Readable(items) else old(file)
      ensures cache == if saved then Some(items) else old(cache)
      ensures temporary == match outcome
                           case DirectoryFails => old(temporary)
                           case RenameFails => Readable(items)
                           case _ => Unreadable
    {
      if outcome.DirectoryFails? {
        return false;
      }
      if outcome.TemporaryFails? {
        temporary := Unreadable;
        return false;
      }
      temporary := Readable(items);
      if outcome.RenameFails? {
        return false;
      }
      file, temporary := temporary, Unreadable;
      cache := Some(items);
      return true;
    }

    method FlushClientState(outcome: Outcome) returns (out: seq<Notice>)
      modifies this
      ensures (State(), out) == Flush(old(State()), outcome)
    {
      timer, out := None, [];
      match pending {
        case None =>
        case Some(items) =>
          var saved := SaveClientState(items, outcome);
          if saved {
            pending := None;
          } else {
            out := [WriteFailed];
            ScheduleFlush(items, RETRY_MS);
          }
      }
    }

    method OnSetItem(name: string, value: string)
      modifies this
      ensures State() == Change(old(State()), SetItem(name, value))
    {
      var items := LoadClientState();
      ScheduleFlush(items[name := value], FLUSH_MS);
    }

    method OnRemoveItem(name: string)
      modifies this
      ensures State() == Change(old(State()), RemoveItem(name))
    {
      var items := LoadClientState();
      ScheduleFlush(items - {name}, FLUSH_MS);
    }
  }

  // ---- Runs --------------------------------------------------------------------------------------

  datatype Event =
    | Changed(op: Op)
    | Snapshot                       // a window asks for all items
    | Passes(time: nat)
    | TimerFires(outcome: Outcome)
    | FlushNow(outcome: Outcome)     // before quitting or installing

  predicate Enabled(s: Store, ev: Event)
  {
    && (ev.Passes? && s.timer.Some? ==> ev.time <= s.timer.value)
    && (ev.TimerFires? ==> s.timer == Some(0))
  }

  function Step(s: Store, ev: Event): Store
  {
    match ev
    case Changed(op) => Change(s, op)
    case Snapshot => Load(s)
    case Passes(time) => if s.timer.Some? && time <= s.timer.value then s.(timer := Some(s.timer.value - time)) else s
    case TimerFires(outcome) => Flush(s, outcome).0
    case FlushNow(outcome) => Flush(s, outcome).0
  }

  /** The operations so far; folding them gives what a write-through store would hold. */
  function Ops(events: seq<Event>): seq<Op>
  {
    if events == [] then []
    else
      var last := events[|events| - 1];
      Ops(events[..|events| - 1]) + if last.Changed? then [last.op] else []
  }

  predicate Attempt(s: Store, ev: Event)
  {
    (ev.TimerFires? || ev.FlushNow?) && s.pending.Some?
  }

  ghost predicate Next(states: seq<Store>, events: seq<Event>, i: nat)
    requires |states| == |events| + 1 && i < |events|
  {
    Enabled(states[i], events[i]) && states[i + 1] == Step(states[i], events[i])
  }

  ghost predicate Run(initial: File, states: seq<Store>, events: seq<Event>)
  {
    && |states| == |events| + 1 && states[0] == Store(None, None, None, initial, Unreadable)
    && forall i: nat | i < |events| :: Next(states, events, i)
  }

  /** `written` of the operations have reached the disk. */
  ghost predicate Inv(initial: Items, ops: seq<Op>, written: nat, s: Store)
  {
    && written <= |ops|
    && (s.pending.Some? <==> s.timer.Some?)
    && (s.cache.None? ==> ops == [] && s.pending.None?)
    && (s.cache.Some? ==> s.cache.value == Fold(initial, ops))
    && (s.pending.Some? ==> s.pending == s.cache)
    && Contents(s.file) == Fold(initial, ops[..written])
    && (s.pending.None? ==> written == |ops|)
    && (s.timer.Some? ==> s.timer.value <= RETRY_MS)
  }

  lemma ChangeKeepsInv(initial: Items, ops: seq<Op>, written: nat, s: Store, op: Op)
    requires Inv(initial, ops, written, s)
    ensures Inv(initial, ops + [op], written, Change(s, op))
  {
    assert ops[..|ops|] == ops;
    assert (ops + [op])[..|ops|] == ops && (ops + [op])[..written] == ops[..written];
  }

  lemma FlushKeepsInv(initial: Items, ops: seq<Op>, written: nat, s: Store, outcome: Outcome) returns (written': nat)
    requires Inv(initial, ops, written, s)
    ensures Inv(initial, ops, written', Flush(s, outcome).0) && written' >= written
    ensures outcome.Written? || s.pending.None? ==> written' == |ops|
    ensures s.pending.Some? && !outcome.Written? ==> written' == written
  {
    assert ops[..|ops|] == ops;
    written' := if outcome.Written? then |ops| else written;
  }

  /** What one event adds to the operations. */
  function Added(ev: Event): seq<Op>
  {
    if ev.Changed? then [ev.op] else []
  }

  lemma StepKeepsInv(initial: Items, ops: seq<Op>, written: nat, s: Store, ev: Event) returns (written': nat)
    requires Inv(initial, ops, written, s) && Enabled(s, ev)
    ensures Inv(initial, ops + Added(ev), written', Step(s, ev)) && written' >= written
  {
    written' := written;
    match ev {
      case Changed(op) => ChangeKeepsInv(initial, ops, written, s, op);
      case TimerFires(outcome) =>
        written' := FlushKeepsInv(initial, ops, written, s, outcome);
        assert ops + [] == ops;
      case FlushNow(outcome) =>
        written' := FlushKeepsInv(initial, ops, written, s, outcome);
        assert ops + [] == ops;
      case _ =>
        assert ops + [] == ops && ops[..|ops|] == ops;
    }
  }

  lemma OpsNext(events: seq<Event>, k: nat)
    requires k < |events|
    ensures Ops(events[..k + 1]) == Ops(events[..k]) + Added(events[k])
  {
    assert events[..k + 1][..k] == events[..k];
  }

  lemma NextInv(initial: File, states: seq<Store>, events: seq<Event>, k: nat, written: nat) returns (written': nat)
    requires Run(initial, states, events) && k < |events|
             && Inv(Contents(initial), Ops(events[..k]), written, states[k])
    ensures Inv(Contents(initial), Ops(events[..k + 1]), written', states[k + 1]) && written' >= written
  {
    assert Next(states, events, k);
    OpsNext(events, k);
    written' := StepKeepsInv(Contents(initial), Ops(events[..k]), written, states[k], events[k]);
  }

  lemma {:induction false} RunInv(initial: File, states: seq<Store>, events: seq<Event>, k: nat) returns (written: nat)
    requires Run(initial, states, events) && k < |states|
    ensures Inv(Contents(initial), Ops(events[..k]), written, states[k])
  {
    written := 0;
    if k > 0 {
      written := RunInv(initial, states, events, k - 1);
      written := NextInv(initial, states, events, k - 1, written);
    }
  }

  // ---- Main results ----------------------------------------------------------------------------

  /**
   * However writes, failures and retries interleave: a timer is armed exactly while something is
   * pending; the cache holds the outcome of all operations so far; the file holds the outcome of a
   * prefix of them, and of all of them when nothing is pending.
   */
  lemma WriteBehind(initial: File, states: seq<Store>, events: seq<Event>, k: nat)
    requires Run(initial, states, events) && k < |states|
    ensures states[k].pending.Some? <==> states[k].timer.Some?
    ensures states[k].cache.Some? ==> states[k].cache.value == Fold(Contents(initial), Ops(events[..k]))
    ensures Load(states[k]).cache == Some(Fold(Contents(initial), Ops(events[..k])))
    ensures exists n: nat ::
            n <= |Ops(events[..k])|
            && Contents(states[k].file) == Fold(Contents(initial), Ops(events[..k])[..n])
    ensures states[k].pending.None? ==> Contents(states[k].file) == Fold(Contents(initial), Ops(events[..k]))
  {
    var written := RunInv(initial, states, events, k);
    var ops := Ops(events[..k]);
    assert ops[..|ops|] == ops;
  }

  /**
   * A successful attempt brings everything to disk; a failed one keeps it all pending, says so, tries
   * again in five seconds and leaves at most the temporary file behind.
   */
  lemma AttemptLosesNothing(initial: File, states: seq<Store>, events: seq<Event>, k: nat)
    requires Run(initial, states, events) && k < |events| && Attempt(states[k], events[k])
    ensures var all := Fold(Contents(initial), Ops(events[..k]));
            if events[k].outcome.Written? then
              && states[k + 1].file == Readable(all) && states[k + 1].cache == Some(all)
              && states[k + 1].temporary == Unreadable && states[k + 1].pending.None?
            else
              && states[k + 1].pending == Some(all) && states[k + 1].timer == Some(5_000)
              && states[k + 1].file == states[k].file && Flush(states[k], events[k].outcome).1 == [WriteFailed]
              && states[k + 1].temporary == match events[k].outcome
                                            case DirectoryFails => states[k].temporary
                                            case RenameFails => Readable(all)
                                            case _ => Unreadable
  {
    var written := RunInv(initial, states, events, k);
    assert Next(states, events, k);
  }

  /** The disk never goes back to fewer operations, whatever fails. */
  lemma {:induction false} DiskAdvances(initial: File, states: seq<Store>, events: seq<Event>, i: nat, j: nat)
      returns (early: nat, late: nat)
    requires Run(initial, states, events) && i <= j < |states|
    ensures early <= late && early <= |Ops(events[..i])| && late <= |Ops(events[..j])|
    ensures Contents(states[i].file) == Fold(Contents(initial), Ops(events[..i])[..early])
    ensures Inv(Contents(initial), Ops(events[..j]), late, states[j])
    decreases j - i
  {
    if i == j {
      early := RunInv(initial, states, events, i);
      late := early;
    } else {
      early, late := DiskAdvances(initial, states, events, i, j - 1);
      late := NextInv(initial, states, events, j - 1, late);
    }
  }

  function Elapsed(events: seq<Event>): nat
  {
    if events == [] then 0
    else Elapsed(events[..|events| - 1]) + if events[|events| - 1].Passes? then events[|events| - 1].time else 0
  }

  /** While no attempt is made, time only runs down the timer of what is pending. */
  lemma {:induction false} TimerRunsDown(initial: File, states: seq<Store>, events: seq<Event>, i: nat, j: nat)
    requires Run(initial, states, events) && i <= j < |states| && states[i].pending.Some?
    requires forall k | i <= k < j :: !Attempt(states[k], events[k])
    ensures states[i].timer.Some? && states[j].pending.Some? && states[j].timer.Some?
    ensures states[j].timer.value + Elapsed(events[i..j]) == states[i].timer.value
  {
    var _ := RunInv(initial, states, events, i);
    if i < j {
      TimerRunsDown(initial, states, events, i, j - 1);
      assert Next(states, events, j - 1);
      assert events[i..j][..j - 1 - i] == events[i..j - 1];
    }
  }

  /**
   * An operation waits at most five seconds for an attempt to write it, and at most 150 ms when
   * nothing was pending before it.
   */
  lemma WaitIsBounded(initial: File, states: seq<Store>, events: seq<Event>, i: nat, j: nat)
    requires Run(initial, states, events) && i < j < |states| && events[i].Changed?
    requires forall k | i < k < j :: !Attempt(states[k], events[k])
    ensures Elapsed(events[i + 1..j]) <= if states[i].pending.None? then 150 else 5_000
    ensures states[i].pending.None? ==> states[i + 1].timer == Some(150)
  {
    var _ := RunInv(initial, states, events, i);
    var _ := RunInv(initial, states, events, i + 1);
    assert Next(states, events, i);
    TimerRunsDown(initial, states, events, i + 1, j);
  }

  /** Whatever is pending can be attempted: its timer runs out and fires. */
  lemma TimerCanFire(initial: File, states: seq<Store>, events: seq<Event>, k: nat, outcome: Outcome)
    requires Run(initial, states, events) && k < |states| && states[k].pending.Some?
    ensures states[k].timer.Some?
    ensures var waited := Step(states[k], Passes(states[k].timer.value));
            && Enabled(states[k], Passes(states[k].timer.value)) && waited.pending == states[k].pending
            && Enabled(waited, TimerFires(outcome)) && Attempt(waited, TimerFires(outcome))
  {
    var _ := RunInv(initial, states, events, k);
  }
}
