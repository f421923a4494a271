/**
 * The updater of the Microsoft Store build: every operation is one call of a helper process, and
 * the helper's progress reports may arrive at any time.
 */
module StoreUpdater {

  import opened Optional

  datatype Status = Idle | Checking | UpToDate | Available | Installing | Updated | Error

  datatype Shown = Shown(status: Status, percent: Option<nat>)

  datatype Command = CheckStore | InstallFromStore

  datatype Answer = IsAvailable | IsUpToDate | IsUpdated | Canceled | Failed

  /** `Returned` lasts from the end of the run until its promise clears the field. */
  datatype Pending = NoRun | Running | Returned

  datatype Updater = Updater(shown: Shown, pending: Pending)

  datatype Action =
    | Broadcast(shown: Shown)
    | BeforeInstall
    | BridgeCall(command: Command)
    | BridgeReturn

  const FRESH := Updater(Shown(Idle, None), NoRun)

  function StatusOf(a: Answer): Status
  {
    match a
    case IsAvailable => Available
    case IsUpToDate => UpToDate
    case IsUpdated => Updated
    case Canceled => Available
    case Failed => Error
  }

  function Check(u: Updater): (Updater, seq<Action>)
  {
    if !u.pending.NoRun? || u.shown.status.Updated? then (u, [])
    else (Updater(Shown(Checking, None), Running), [Broadcast(Shown(Checking, None)), BridgeCall(CheckStore)])
  }

  predicate Accepts(u: Updater)
  {
    u.pending.NoRun? && u.shown.status.Available?
  }

  /** `saved` tells whether persisting the state before the install succeeded. */
  function RequestInstall(u: Updater, saved: bool): (Updater, seq<Action>)
  {
    if !Accepts(u) then (u, [])
    else if saved then
      (Updater(Shown(Installing, None), Running),
       [Broadcast(Shown(Installing, None)), BeforeInstall, BridgeCall(InstallFromStore)])
    else
      (Updater(Shown(Error, None), Returned),
       [Broadcast(Shown(Installing, None)), BeforeInstall, Broadcast(Shown(Error, None))])
  }

  function OnProgress(u: Updater, percent: nat): (Updater, seq<Action>)
  {
    if u.shown.percent == Some(percent) then (u, [])
    else (u.(shown := Shown(Installing, Some(percent))), [Broadcast(Shown(Installing, Some(percent)))])
  }

  function OnAnswer(u: Updater, a: Answer): (Updater, seq<Action>)
  {
    (Updater(Shown(StatusOf(a), None), Returned), [BridgeReturn, Broadcast(Shown(StatusOf(a), None))])
  }

  /** The object the main process talks to. */
  class StoreUpdaterObject {
    var shown: Shown
    var pending: Pending

    ghost function State(): Updater
      reads this
    {
      Updater(shown, pending)
    }

    constructor ()
      ensures State() == FRESH
    {
      shown, pending := Shown(Idle, None), NoRun;
    }

    method Show(next: Shown) returns (out: seq<Action>)
      modifies this`shown
      ensures State() == old(State()).(shown := next) && out == [Broadcast(next)]
    {
      shown := next;
      out := [Broadcast(next)];
    }

    /** `run` up to the point where the helper is at work, or has not been started at all. */
    method Run(command: Command, saved: bool) returns (out: seq<Action>)
      requires pending.NoRun? && (command.CheckStore? ==> saved)
      modifies this
      ensures shown == Shown(if command.CheckStore? then Checking else if saved then Installing else Error, None)
      ensures pending == if saved then Running else Returned
      ensures out == [Broadcast(Shown(if command.CheckStore? then Checking else Installing, None))]
                     + (if command.CheckStore? then [] else [BeforeInstall])
                     + [if saved then BridgeCall(command) else Broadcast(shown)]
    {
      out := Show(Shown(if command.CheckStore? then Checking else Installing, None));
      if command.InstallFromStore? {
        out := out + [BeforeInstall];
        if !saved {
          var failed := Show(Shown(Error, None));
          pending := Returned;
          out := out + failed;
          return;
        }
      }
      pending := Running;
      out := out + [BridgeCall(command)];
    }

    method CheckNow() returns (out: seq<Action>)
      modifies this
      ensures (State(), out) == Check(old(State()))
    {
      out := [];
      if pending.NoRun? && !shown.status.Updated? {
        out := Run(CheckStore, true);
        assert out == Check(old(State())).1;
      }
    }

    method InstallNow(saved: bool) returns (accepted: bool, out: seq<Action>)
      modifies this
      ensures accepted <==> Accepts(old(State()))
      ensures (State(), out) == RequestInstall(old(State()), saved)
    {
      accepted, out := false, [];
      if !pending.NoRun? || !shown.status.Available? {
        return;
      }
      accepted := true;
      out := Run(InstallFromStore, saved);
      assert out == RequestInstall(old(State()), saved).1;
    }

    method Progress(percent: nat) returns (out: seq<Action>)
      modifies this
      ensures (State(), out) == OnProgress(old(State()), percent)
    {
      out := [];
      if shown.percent != Some(percent) {
        out := Show(Shown(Installing, Some(percent)));
      }
    }

    method Answered(a: Answer) returns (out: seq<Action>)
      requires pending.Running?
      modifies this
      ensures (State(), out) == OnAnswer(old(State()), a)
      ensures shown.percent.None? && out == [BridgeReturn, Broadcast(shown)] && pending.Returned?
      ensures shown.status == match a
                              case IsAvailable => Available
                              case Canceled => Available
                              case IsUpToDate => UpToDate
                              case IsUpdated => Updated
                              case Failed => Error
    {
      out := Show(Shown(StatusOf(a), None));
      pending := Returned;
      out := [BridgeReturn] + out;
      assert out == OnAnswer(old(State()), a).1;
    }
  }

  // ---- Runs --------------------------------------------------------------------------------------

  datatype Event =
    | CheckNow
    | InstallClick(saved: bool)
    | Progress(percent: nat)
    | Answered(answer: Answer)
    | Cleared

  datatype Store = Store(updater: Updater, log: seq<Action>)

  predicate Enabled(u: Updater, ev: Event)
  {
    && (ev.Answered? ==> u.pending.Running?)
    && (ev.Cleared? ==> u.pending.Returned?)
  }

  function Handle(u: Updater, ev: Event): (Updater, seq<Action>)
  {
    match ev
    case CheckNow => Check(u)
    case InstallClick(saved) => RequestInstall(u, saved)
    case Progress(percent) => OnProgress(u, percent)
    case Answered(a) => OnAnswer(u, a)
    case Cleared => (u.(pending := NoRun), [])
  }

  ghost predicate Next(states: seq<Store>, events: seq<Event>, i: nat)
    requires |states| == |events| + 1 && i < |events|
  {
    && Enabled(states[i].updater, events[i])
    && var r := Handle(states[i].updater, events[i]);
       states[i + 1] == Store(r.0, states[i].log + r.1)
  }

  ghost predicate Run(states: seq<Store>, events: seq<Event>)
  {
    && |states| == |events| + 1 && states[0] == Store(FRESH, [])
    && forall i: nat | i < |events| :: Next(states, events, i)
  }

  function InFlight(log: seq<Action>): int
  {
    if log == [] then 0
    else
      var last := log[|log| - 1];
      InFlight(log[..|log| - 1]) + if last.BridgeCall? then 1 else if last.BridgeReturn? then -1 else 0
  }

  /** At no point of the log is more than one call of the helper open. */
  ghost predicate OneAtATime(log: seq<Action>)
  {
    log == [] || (OneAtATime(log[..|log| - 1]) && 0 <= InFlight(log) <= 1)
  }

  lemma {:induction false} OneAtATimeEverywhere(log: seq<Action>, k: nat)
    requires OneAtATime(log) && k <= |log|
    ensures 0 <= InFlight(log[..k]) <= 1
  {
    if k < |log| {
      OneAtATimeEverywhere(log[..|log| - 1], k);
      assert log[..|log| - 1][..k] == log[..k];
    } else {
      assert log[..k] == log;
    }
  }

  /** The helper installs only right after the state was persisted. */
  ghost predicate SavedFirst(log: seq<Action>)
  {
    forall k | 0 <= k < |log| && log[k] == BridgeCall(InstallFromStore) :: k > 0 && log[k - 1] == BeforeInstall
  }

  ghost predicate Inv(s: Store)
  {
    && OneAtATime(s.log) && SavedFirst(s.log) && InFlight(s.log) == (if s.updater.pending.Running? then 1 else 0)
    && (s.updater.shown.percent.Some? ==> s.updater.shown.status.Installing?)
    && (s.updater.shown.status.Updated? ==> !s.updater.pending.Running?)
  }

  lemma AppendOne(log: seq<Action>, a: Action)
    requires OneAtATime(log) && SavedFirst(log)
    requires a.BridgeCall? ==> InFlight(log) == 0
    requires a.BridgeReturn? ==> InFlight(log) == 1
    requires a == BridgeCall(InstallFromStore) ==> log != [] && log[|log| - 1] == BeforeInstall
    ensures OneAtATime(log + [a]) && SavedFirst(log + [a])
    ensures InFlight(log + [a]) == InFlight(log) + if a.BridgeCall? then 1 else if a.BridgeReturn? then -1 else 0
  {
    var log' := log + [a];
    assert log'[..|log'| - 1] == log;
  }

  lemma AppendTwo(log: seq<Action>, a: Action, b: Action)
    requires OneAtATime(log) && SavedFirst(log) && !a.BridgeCall? && b != BridgeCall(InstallFromStore)
    requires a.BridgeReturn? ==> InFlight(log) == 1
    requires !b.BridgeReturn? && (b.BridgeCall? ==> !a.BridgeReturn? && InFlight(log) == 0)
    ensures OneAtATime(log + [a, b]) && SavedFirst(log + [a, b])
    ensures InFlight(log + [a, b])
         == InFlight(log) + (if a.BridgeReturn? then -1 else 0) + if b.BridgeCall? then 1 else 0
  {
    AppendOne(log, a);
    AppendOne(log + [a], b);
    assert log + [a] + [b] == log + [a, b];
  }

  lemma AppendInstall(log: seq<Action>, shown: Shown, last: Action)
    requires OneAtATime(log) && SavedFirst(log) && InFlight(log) == 0
             && (last.Broadcast? || last == BridgeCall(InstallFromStore))
    ensures OneAtATime(log + [Broadcast(shown), BeforeInstall, last])
            && SavedFirst(log + [Broadcast(shown), BeforeInstall, last])
    ensures InFlight(log + [Broadcast(shown), BeforeInstall, last]) == if last.BridgeCall? then 1 else 0
  {
    AppendTwo(log, Broadcast(shown), BeforeInstall);
    AppendOne(log + [Broadcast(shown), BeforeInstall], last);
    assert log + [Broadcast(shown), BeforeInstall] + [last] == log + [Broadcast(shown), BeforeInstall, last];
  }

  lemma StepKeepsInv(s: Store, ev: Event)
    requires Inv(s) && Enabled(s.updater, ev)
    ensures var r := Handle(s.updater, ev); Inv(Store(r.0, s.log + r.1))
  {
    var out := Handle(s.updater, ev).1;
    if |out| == 0 {
      assert s.log + out == s.log;
    } else if |out| == 1 {
      AppendOne(s.log, out[0]);
      assert out == [out[0]];
    } else if |out| == 2 {
      AppendTwo(s.log, out[0], out[1]);
      assert out == [out[0], out[1]];
    } else {
      AppendInstall(s.log, out[0].shown, out[2]);
      assert out == [out[0], out[1], out[2]];
    }
  }

  lemma {:induction false} RunInv(states: seq<Store>, events: seq<Event>, k: nat)
    requires Run(states, events) && k < |states|
    ensures Inv(states[k])
  {
    if k > 0 {
      RunInv(states, events, k - 1);
      assert Next(states, events, k - 1);
      StepKeepsInv(states[k - 1], events[k - 1]);
    }
  }

  /** Whatever clicks, timers, answers and progress reports do. */
  lemma OneCallAndSavedFirst(states: seq<Store>, events: seq<Event>, k: nat)
    requires Run(states, events) && k < |states|
    ensures forall n | 0 <= n <= |states[k].log| :: 0 <= InFlight(states[k].log[..n]) <= 1
    ensures forall n | 0 <= n < |states[k].log| && states[k].log[n] == BridgeCall(InstallFromStore) ::
              n > 0 && states[k].log[n - 1] == BeforeInstall
  {
    RunInv(states, events, k);
    forall n | 0 <= n <= |states[k].log| ensures 0 <= InFlight(states[k].log[..n]) <= 1 {
      OneAtATimeEverywhere(states[k].log, n);
    }
  }

  // ---- What the windows show ---------------------------------------------------------------------

  function LastShown(log: seq<Action>): Shown
  {
    if log == [] then Shown(Idle, None)
    else
      match log[|log| - 1]
      case Broadcast(shown) => shown
      case _ => LastShown(log[..|log| - 1])
  }

  lemma LastShownAppend(log: seq<Action>, a: Action)
    ensures LastShown(log + [a]) == if a.Broadcast? then a.shown else LastShown(log)
  {
    assert (log + [a])[..|log|] == log;
  }

  lemma {:induction false} LastShownConcat(log: seq<Action>, out: seq<Action>)
    requires out != [] && (out[|out| - 1].Broadcast? || (|out| > 1 && out[|out| - 2].Broadcast?)
                           || (|out| > 2 && out[|out| - 3].Broadcast?))
    ensures LastShown(log + out) == LastShown(out)
    decreases |out|
  {
    var front, last := out[..|out| - 1], out[|out| - 1];
    assert log + out == log + front + [last];
    LastShownAppend(log + front, last);
    if !last.Broadcast? {
      LastShownConcat(log, front);
    }
  }

  lemma LastShownNext(log: seq<Action>, u: Updater, ev: Event)
    requires LastShown(log) == u.shown
    ensures LastShown(log + Handle(u, ev).1) == Handle(u, ev).0.shown
  {
    var out := Handle(u, ev).1;
    if out == [] {
      assert log + out == log;
    } else {
      LastShownConcat(log, out);
      LastShownOf(u, ev);
    }
  }

  lemma LastShownOf(u: Updater, ev: Event)
    requires Handle(u, ev).1 != []
    ensures LastShown(Handle(u, ev).1) == Handle(u, ev).0.shown
  {
    var out := Handle(u, ev).1;
    if |out| > 1 && !out[|out| - 1].Broadcast? {
      assert out == out[..|out| - 1] + [out[|out| - 1]];
      LastShownAppend(out[..|out| - 1], out[|out| - 1]);
      if |out| == 3 {
        assert out[..2] == [out[0]] + [out[1]];
        LastShownAppend([out[0]], out[1]);
      }
    }
  }

  /** The windows were last told what the updater now holds. */
  lemma {:induction false} WindowsAreUpToDate(states: seq<Store>, events: seq<Event>, k: nat)
    requires Run(states, events) && k < |states|
    ensures LastShown(states[k].log) == states[k].updater.shown
  {
    if k > 0 {
      WindowsAreUpToDate(states, events, k - 1);
      assert Next(states, events, k - 1);
      LastShownNext(states[k - 1].log, states[k - 1].updater, events[k - 1]);
    }
  }

  /** The answer to the last call decides, once the run is over, whether an install can be asked for. */
  lemma InstallableExactly(states: seq<Store>, events: seq<Event>, k: nat, saved: bool)
    requires Run(states, events) && k < |events| && events[k].Answered?
    ensures states[k + 1].updater.pending.Returned? && states[k + 1].updater.shown.percent.None?
    ensures var done := Handle(states[k + 1].updater, Cleared).0;
            && (Accepts(done) <==> events[k].answer.IsAvailable? || events[k].answer.Canceled?)
            && (done.shown.status.Error? <==> events[k].answer.Failed?)
            && (BridgeCall(InstallFromStore) in RequestInstall(done, saved).1 <==> saved && Accepts(done))
            && (BridgeCall(CheckStore) in Check(done).1 <==> !events[k].answer.IsUpdated?)
  {
    assert Next(states, events, k);
  }

  // ---- After the update --------------------------------------------------------------------------

  ghost predicate Calls(s: Store, s': Store)
  {
    exists n :: |s.log| <= n < |s'.log| && s'.log[n].BridgeCall?
  }

  ghost predicate Reported(events: seq<Event>, i: nat, j: nat)
    requires j <= |events|
  {
    exists k :: i <= k < j && events[k].Progress?
  }

  /** No run is pending any more: there was none, or its promise has cleared the field. */
  ghost predicate Free(u: Updater, events: seq<Event>, i: nat, j: nat)
    requires j <= |events|
  {
    u.pending.NoRun? || exists k :: i <= k < j && events[k].Cleared?
  }

  /** A progress report, and later a check while no run is pending. */
  ghost predicate CheckedAfterReport(u: Updater, events: seq<Event>, i: nat, j: nat)
    requires j <= |events|
  {
    exists m: nat :: i <= m < j && events[m].CheckNow? && Reported(events, i, m) && Free(u, events, i, m)
  }

  lemma Extends(u: Updater, events: seq<Event>, i: nat, j: nat)
    requires i < j <= |events|
    ensures Reported(events, i, j) <==> Reported(events, i, j - 1) || events[j - 1].Progress?
    ensures Free(u, events, i, j) <==> Free(u, events, i, j - 1) || events[j - 1].Cleared?
    ensures CheckedAfterReport(u, events, i, j)
       <==> CheckedAfterReport(u, events, i, j - 1)
            || (events[j - 1].CheckNow? && Reported(events, i, j - 1) && Free(u, events, i, j - 1))
  {
  }

  /** Where the updater is while the helper has not been called again. */
  ghost predicate Resting(u: Updater, reported: bool, free: bool)
  {
    && u.pending == (if free then NoRun else Returned)
    && u.shown.status == if reported then Installing else Updated
  }

  lemma {:induction false} UntilChecked(states: seq<Store>, events: seq<Event>, i: nat, j: nat)
    requires Run(states, events) && i <= j < |states| && states[i].updater.shown.status.Updated?
    ensures |states[i].log| <= |states[j].log|
    ensures CheckedAfterReport(states[i].updater, events, i, j) ==> Calls(states[i], states[j])
    ensures !CheckedAfterReport(states[i].updater, events, i, j) ==>
              && !Calls(states[i], states[j])
              && Resting(states[j].updater, Reported(events, i, j), Free(states[i].updater, events, i, j))
  {
    RunInv(states, events, i);
    if i < j {
      UntilChecked(states, events, i, j - 1);
      Extends(states[i].updater, events, i, j);
      assert Next(states, events, j - 1);
      RunInv(states, events, j - 1);
      UntilNext(states[i], states[j - 1], states[j], events[j - 1], Reported(events, i, j - 1),
                Free(states[i].updater, events, i, j - 1));
    }
  }

  lemma UntilNext(s: Store, s1: Store, s2: Store, ev: Event, reported: bool, free: bool)
    requires |s.log| <= |s1.log| && Enabled(s1.updater, ev)
    requires var r := Handle(s1.updater, ev); s2 == Store(r.0, s1.log + r.1)
    requires s1.updater.shown.percent.Some? ==> s1.updater.shown.status.Installing?
    ensures |s.log| <= |s2.log|
    ensures Calls(s, s1) ==> Calls(s, s2)
    ensures !Calls(s, s1) && Resting(s1.updater, reported, free) ==>
              if ev.CheckNow? && reported && free then Calls(s, s2)
              else !Calls(s, s2) && Resting(s2.updater, reported || ev.Progress?, free || ev.Cleared?)
  {
    if Calls(s, s1) {
      var n :| |s.log| <= n < |s1.log| && s1.log[n].BridgeCall?;
      assert s2.log[n].BridgeCall?;
    } else if Resting(s1.updater, reported, free) {
      if ev.CheckNow? && reported && free {
        assert s2.log[|s1.log| + 1].BridgeCall?;
      } else {
        assert forall n | |s.log| <= n < |s1.log| :: !s1.log[n].BridgeCall?;
      }
    }
  }

  /**
   * With a bridge that may report at any time, the helper is called again after the update exactly
   * if a check follows a report and finds no run pending.
   */
  lemma CalledAgainExactly(states: seq<Store>, events: seq<Event>, i: nat, j: nat)
    requires Run(states, events) && i <= j < |states| && states[i].updater.shown.status.Updated?
    ensures Calls(states[i], states[j]) <==> CheckedAfterReport(states[i].updater, events, i, j)
  {
    UntilChecked(states, events, i, j);
  }

  /** The shipped bridge: reports are lines of an install's output, and its call returns when that has ended. */
  ghost predicate ReportsOnlyWhileInstalling(states: seq<Store>, events: seq<Event>)
    requires |states| == |events| + 1
  {
    forall k | 0 <= k < |events| && events[k].Progress? ::
      states[k].updater.pending.Running? && states[k].updater.shown.status.Installing?
  }

  /** With that bridge the installed update ends the story: nothing is called, and nothing is shown, after it. */
  lemma {:induction false} UpdatedIsFinal(states: seq<Store>, events: seq<Event>, i: nat, j: nat)
    requires Run(states, events) && i <= j < |states| && states[i].updater.shown.status.Updated?
    requires ReportsOnlyWhileInstalling(states, events)
    ensures states[j].updater.shown == states[i].updater.shown && states[j].log == states[i].log
  {
    if i < j {
      UpdatedIsFinal(states, events, i, j - 1);
      assert Next(states, events, j - 1);
      RunInv(states, events, j - 1);
    }
  }

  lemma Then(states: seq<Store>, events: seq<Event>, ev: Event) returns (states': seq<Store>)
    requires Run(states, events) && Enabled(states[|events|].updater, ev)
    ensures Run(states', events + [ev])
    ensures var s := states[|events|];
            var r := Handle(s.updater, ev);
            states' == states + [Store(r.0, s.log + r.1)]
  {
    var s := states[|events|];
    states' := states + [Store(Handle(s.updater, ev).0, s.log + Handle(s.updater, ev).1)];
    forall i: nat | i < |events + [ev]| ensures Next(states', events + [ev], i) {
      assert i < |events| ==> Next(states, events, i);
    }
  }

  /** An update is found and installed. */
  lemma Installed() returns (states: seq<Store>, events: seq<Event>)
    ensures Run(states, events) && |events| == 5 && states[5].updater == Updater(Shown(Updated, None), Returned)
  {
    states := [Store(FRESH, [])];
    states := Then(states, [], CheckNow);
    states := Then(states, [CheckNow], Answered(IsAvailable));
    assert [CheckNow] + [Answered(IsAvailable)] == [CheckNow, Answered(IsAvailable)];
    states := Then(states, [CheckNow, Answered(IsAvailable)], Cleared);
    events := [CheckNow, Answered(IsAvailable)] + [Cleared];
    states := Then(states, events, InstallClick(true));
    events := events + [InstallClick(true)];
    states := Then(states, events, Answered(IsUpdated));
    events := events + [Answered(IsUpdated)];
  }

  /** A report between the answer and the end of the promise is enough for a bridge to be called again. */
  lemma LateReport() returns (states: seq<Store>, events: seq<Event>)
    ensures Run(states, events) && |events| == 8 && states[5].updater == Updater(Shown(Updated, None), Returned)
    ensures Calls(states[5], states[8])
  {
    states, events := Installed();
    var late := [Progress(50), Cleared, CheckNow];
    states := Then(states, events, late[0]);
    events := events + [late[0]];
    states := Then(states, events, late[1]);
    events := events + [late[1]];
    states := Then(states, events, late[2]);
    events := events + [late[2]];
    assert events[5] == Progress(50) && events[6] == Cleared && events[7] == CheckNow;
    assert Reported(events, 5, 7) && Free(states[5].updater, events, 5, 7);
    CalledAgainExactly(states, events, 5, 8);
  }
}
