/**
 * The desktop updater and the shutdown it is woven into: library events, user clicks, awaited
 * calls and a quit that races a timeout may interleave in any order.
 */
module DesktopUpdater {

  import opened Optional

  datatype Status = Disabled | Idle | Checking | UpToDate | Available | Downloading | Ready | Installing | Error

  /** The state every window sees. */
  datatype Shown = Shown(status: Status, version: Option<string>, percent: Option<nat>)

  /** `Returned` lasts from the end of the awaited call until its promise clears the field. */
  datatype CheckRun = NoCheck | CheckInFlight | CheckReturned

  datatype DownloadRun = NoDownload | AwaitingCheck | DownloadInFlight | DownloadReturned

  datatype Updater = Updater(shown: Shown, check: CheckRun, download: DownloadRun, timers: bool, listening: bool)

  datatype Closing = NotClosing | InProgress | TimedOut | Settled

  datatype Main = Main(updater: Updater, server: bool, closing: Closing, quittingForUpdate: bool)

  /** What the outside world notices, in order. */
  datatype Action =
    | Broadcast(shown: Shown)
    | CheckForUpdates
    | DownloadAsked
    | DownloadUpdate
    | UpdateArrived
    | InstallAccepted
    | QuitAndInstall
    | Recover
    | StateFlushed
    | CloseServer
    | WaitEnded
    | FinishedQuit
    | Exit

  // ---- The updater -----------------------------------------------------------------------------

  function Set(u: Updater, shown: Shown): (Updater, seq<Action>)
  {
    (u.(shown := shown), [Broadcast(shown)])
  }

  function Fail(u: Updater): (Updater, seq<Action>)
  {
    var r := Set(u, Shown(Error, u.shown.version, None));
    (r.0, r.1 + if u.shown.status.Installing? then [Recover] else [])
  }

  predicate Refuses(status: Status)
  {
    status.Disabled? || status.Ready? || status.Installing?
  }

  function Check(u: Updater): (Updater, seq<Action>)
  {
    if !u.download.NoDownload? || !u.check.NoCheck? || Refuses(u.shown.status) then (u, [])
    else
      var r := Set(u.(check := CheckInFlight), Shown(Checking, None, None));
      (r.0, r.1 + [CheckForUpdates])
  }

  function CheckSettles(u: Updater, ok: bool): (Updater, seq<Action>)
  {
    var u' := u.(check := CheckReturned);
    if ok then (u', []) else Fail(u')
  }

  function BeginDownload(u: Updater): (Updater, seq<Action>)
  {
    if u.shown.version.None? || !(u.shown.status.Available? || u.shown.status.Error?) then
      (u.(download := DownloadReturned), [])
    else
      var r := Set(u.(download := DownloadInFlight), Shown(Downloading, u.shown.version, Some(0)));
      (r.0, r.1 + [DownloadUpdate])
  }

  function Download(u: Updater): (Updater, seq<Action>)
  {
    if !u.download.NoDownload? then (u, [DownloadAsked])
    else if !u.check.NoCheck? then (u.(download := AwaitingCheck), [DownloadAsked])
    else
      var r := BeginDownload(u);
      (r.0, [DownloadAsked] + r.1)
  }

  function DownloadSettles(u: Updater, ok: bool): (Updater, seq<Action>)
  {
    var u' := u.(download := DownloadReturned);
    if ok then (u', []) else Fail(u')
  }

  function Accept(u: Updater): (Updater, seq<Action>)
  {
    var r := Set(u, u.shown.(status := Installing));
    (r.0.(timers := false), r.1 + [InstallAccepted])
  }

  function FinishInstall(u: Updater, throws: bool): (Updater, seq<Action>)
  {
    if !u.shown.status.Installing? then (u, [])
    else if throws then
      var r := Fail(u);
      (r.0, [QuitAndInstall] + r.1)
    else (u, [QuitAndInstall])
  }

  function Clamp(percent: real): nat
  {
    if percent <= 0.0 then 0 else if percent >= 100.0 then 100 else percent.Floor
  }

  function OnProgress(u: Updater, percent: real): (Updater, seq<Action>)
  {
    if !u.shown.status.Downloading? || u.shown.percent == Some(Clamp(percent)) then (u, [])
    else Set(u, u.shown.(percent := Some(Clamp(percent))))
  }

  function OnDownloaded(u: Updater, version: string): (Updater, seq<Action>)
  {
    if !u.shown.status.Downloading? then (u, [])
    else
      var r := Set(u, Shown(Ready, Some(version), Some(100)));
      (r.0, r.1 + [UpdateArrived])
  }

  // ---- Shutdown --------------------------------------------------------------------------------

  function BeforeQuit(m: Main): (Main, seq<Action>)
  {
    var m' := m.(updater := m.updater.(timers := false));
    if !m.server then (m', [StateFlushed, Exit])
    else if m.closing.NotClosing? then (m'.(closing := InProgress), [StateFlushed, CloseServer])
    else (m', [StateFlushed])
  }

  function FinishQuit(m: Main, force: bool, throws: bool): (Main, seq<Action>)
  {
    var m' := m.(server := false);
    if m.quittingForUpdate then
      var r := FinishInstall(m.updater, throws);
      (m'.(quittingForUpdate := false, updater := r.0), [FinishedQuit] + r.1)
    else if force then (m', [FinishedQuit, Exit])
    else
      var r := BeforeQuit(m');
      (r.0, [FinishedQuit] + r.1)
  }

  function ServerCloses(m: Main, throws: bool): (Main, seq<Action>)
  {
    if m.closing.TimedOut? then (m.(closing := Settled), [])
    else
      var r := FinishQuit(m.(closing := Settled), false, throws);
      (r.0, [WaitEnded] + r.1)
  }

  function TimerFires(m: Main, throws: bool): (Main, seq<Action>)
  {
    var r := FinishQuit(m.(closing := TimedOut), true, throws);
    (r.0, [StateFlushed, WaitEnded] + r.1)
  }

  function RequestInstall(m: Main): (Main, seq<Action>)
  {
    if !m.updater.shown.status.Ready? then (m, [])
    else
      var a := Accept(m.updater);
      var r := BeforeQuit(m.(updater := a.0, quittingForUpdate := true));
      (r.0, a.1 + r.1)
  }

  // ---- All interleavings -----------------------------------------------------------------------

  datatype Event =
    | CheckClick
    | CheckTimer
    | CheckDone(ok: bool)
    | CheckCleared
    | DownloadClick
    | DownloadResumes
    | DownloadDone(ok: bool)
    | DownloadCleared
    | InstallClick
    | LibraryError
    | LibraryNotAvailable
    | LibraryAvailable(version: string)
    | LibraryProgress(percent: real)
    | LibraryDownloaded(version: string)
    | Quit
    | ServerClosed(throws: bool)
    | Timeout(throws: bool)

  datatype Desktop = Desktop(main: Main, log: seq<Action>)

  predicate Enabled(m: Main, ev: Event)
  {
    match ev
    case CheckTimer => m.updater.timers
    case CheckDone(_) => m.updater.check.CheckInFlight?
    case CheckCleared => m.updater.check.CheckReturned?
    case DownloadResumes => m.updater.download.AwaitingCheck? && m.updater.check.NoCheck?
    case DownloadDone(_) => m.updater.download.DownloadInFlight?
    case DownloadCleared => m.updater.download.DownloadReturned?
    case LibraryError => m.updater.listening
    case LibraryNotAvailable => m.updater.listening
    case LibraryAvailable(_) => m.updater.listening
    case LibraryProgress(_) => m.updater.listening
    case LibraryDownloaded(_) => m.updater.listening
    case ServerClosed(_) => m.closing.InProgress? || m.closing.TimedOut?
    case Timeout(_) => m.closing.InProgress?
    case CheckClick => true
    case DownloadClick => true
    case InstallClick => true
    case Quit => true
  }

  /** The handlers that stay inside the updater. */
  function UpdaterStep(u: Updater, ev: Event): (Updater, seq<Action>)
  {
    match ev
    case CheckClick => Check(u)
    case CheckTimer => Check(u)
    case CheckDone(ok) => CheckSettles(u, ok)
    case CheckCleared => (u.(check := NoCheck), [])
    case DownloadClick => Download(u)
    case DownloadResumes => BeginDownload(u)
    case DownloadDone(ok) => DownloadSettles(u, ok)
    case DownloadCleared => (u.(download := NoDownload), [])
    case LibraryError => Fail(u)
    case LibraryNotAvailable => Set(u, Shown(UpToDate, None, None))
    case LibraryAvailable(version) => Set(u, Shown(Available, Some(version), None))
    case LibraryProgress(percent) => OnProgress(u, percent)
    case LibraryDownloaded(version) => OnDownloaded(u, version)
    case _ => (u, [])
  }

  function Handle(m: Main, ev: Event): (Main, seq<Action>)
  {
    match ev
    case InstallClick => RequestInstall(m)
    case Quit => BeforeQuit(m)
    case ServerClosed(throws) => ServerCloses(m, throws)
    case Timeout(throws) => TimerFires(m, throws)
    case _ =>
      var r := UpdaterStep(m.updater, ev);
      (m.(updater := r.0), r.1)
  }

  function Step(d: Desktop, ev: Event): Desktop
  {
    var r := Handle(d.main, ev);
    Desktop(r.0, d.log + r.1)
  }

  /** Right after `start()`: a build without self-update has no listeners and no timers. */
  function Started(disabled: bool): Desktop
  {
    var shown := Shown(if disabled then Disabled else Idle, None, None);
    Desktop(Main(Updater(shown, NoCheck, NoDownload, !disabled, !disabled), true, NotClosing, false), [])
  }

  ghost predicate Run(states: seq<Desktop>, events: seq<Event>)
  {
    && |states| == |events| + 1 && (states[0] == Started(true) || states[0] == Started(false))
    && forall i: nat | i < |events| :: Next(states, events, i)
  }

  ghost predicate Next(states: seq<Desktop>, events: seq<Event>, i: nat)
    requires |states| == |events| + 1 && i < |events|
  {
    Enabled(states[i].main, events[i]) && states[i + 1] == Step(states[i], events[i])
  }

  // ---- What every step keeps ---------------------------------------------------------------------

  /** The actions of `pattern` occur in the log in this order. */
  ghost predicate InOrder(log: seq<Action>, pattern: seq<Action>)
  {
    exists at: seq<nat> :: Occurs(log, pattern, at)
  }

  ghost predicate Occurs(log: seq<Action>, pattern: seq<Action>, at: seq<nat>)
  {
    && |at| == |pattern|
    && (forall i | 0 <= i < |at| :: at[i] < |log| && log[at[i]] == pattern[i])
    && (forall i, j | 0 <= i < j < |at| :: at[i] < at[j])
  }

  lemma InOrderGrows(log: seq<Action>, more: seq<Action>, pattern: seq<Action>)
    requires InOrder(log, pattern)
    ensures InOrder(log + more, pattern)
  {
    var at :| Occurs(log, pattern, at);
    assert Occurs(log + more, pattern, at);
  }

  lemma InOrderThen(log: seq<Action>, more: seq<Action>, pattern: seq<Action>, k: nat)
    requires InOrder(log, pattern) && k < |more|
    ensures InOrder(log + more, pattern + [more[k]])
  {
    var at :| Occurs(log, pattern, at);
    var last: nat := |log| + k;
    assert Occurs(log + more, pattern + [more[k]], at + [last]);
  }

  const ASKED := [DownloadAsked]
  const ARRIVED := [DownloadAsked, UpdateArrived]
  const PREPARED := [DownloadAsked, UpdateArrived, InstallAccepted, StateFlushed]
  const RELEASED := [DownloadAsked, UpdateArrived, InstallAccepted, StateFlushed, WaitEnded]

  function Count(log: seq<Action>, a: Action): nat
  {
    multiset(log)[a]
  }

  predicate Over(c: Closing)
  {
    c.TimedOut? || c.Settled?
  }

  /** A running check and the download stages exclude each other. */
  ghost predicate Exclusive(u: Updater)
  {
    && (u.shown.status.Disabled? <==> !u.listening)
    && (!u.listening ==> u.check.NoCheck? && !u.download.AwaitingCheck? && !u.download.DownloadInFlight?)
    && (!u.check.NoCheck? ==> !u.shown.status.Downloading? && !u.shown.status.Ready? && !u.shown.status.Installing?)
    && (u.download.DownloadInFlight? || u.download.DownloadReturned? ==> u.check.NoCheck?)
  }

  /** How far the log has come, stage by stage. */
  ghost predicate Staged(m: Main, log: seq<Action>)
  {
    && (!m.updater.download.NoDownload? ==> InOrder(log, ASKED))
    && (m.updater.shown.status.Downloading? ==> InOrder(log, ASKED))
    && (m.updater.shown.status.Ready? ==> InOrder(log, ARRIVED))
    && (m.updater.shown.status.Installing? || m.quittingForUpdate ==> InOrder(log, PREPARED))
  }

  /** Every install call comes after everything it needs. */
  ghost predicate Earned(log: seq<Action>)
  {
    forall k | 0 <= k < |log| && log[k] == QuitAndInstall :: InOrder(log[..k], RELEASED)
  }

  ghost predicate Counted(m: Main, log: seq<Action>)
  {
    && (m.server <==> !Over(m.closing))
    && Count(log, FinishedQuit) == (if Over(m.closing) then 1 else 0)
    && Count(log, WaitEnded) == Count(log, FinishedQuit)
    && Count(log, QuitAndInstall) <= Count(log, FinishedQuit)
    && Count(log, CloseServer) == (if m.closing.NotClosing? then 0 else 1)
  }

  /** Whether an install was accepted since the last recovery. */
  function Armed(armed: bool, log: seq<Action>): bool
  {
    if log == [] then armed
    else if log[|log| - 1].InstallAccepted? then true
    else if log[|log| - 1].Recover? then false
    else Armed(armed, log[..|log| - 1])
  }

  /** Every recovery answers an accepted install of its own. */
  predicate Paired(armed: bool, log: seq<Action>)
  {
    log == [] ||
    var before := log[..|log| - 1];
    Paired(armed, before) && (log[|log| - 1].Recover? ==> Armed(armed, before))
  }

  /** An update is being installed only while an accepted install is unanswered. */
  ghost predicate Answered(m: Main, log: seq<Action>)
  {
    Paired(false, log) && (m.updater.shown.status.Installing? ==> Armed(false, log))
  }

  ghost predicate Inv(d: Desktop)
  {
    && Exclusive(d.main.updater) && Staged(d.main, d.log) && Earned(d.log) && Counted(d.main, d.log)
    && Answered(d.main, d.log)
  }

  lemma StepExclusive(m: Main, ev: Event)
    requires Exclusive(m.updater) && Enabled(m, ev)
    ensures Exclusive(Handle(m, ev).0.updater)
  {
  }

  /** Nothing installs in this step, so the install calls stay earned. */
  lemma EarnedGrows(log: seq<Action>, more: seq<Action>)
    requires Earned(log) && QuitAndInstall !in more
    ensures Earned(log + more)
  {
    assert forall i | 0 <= i < |more| :: (log + more)[|log| + i] == more[i] && more[i] in more;
    forall k | 0 <= k < |log + more| && (log + more)[k] == QuitAndInstall ensures InOrder((log + more)[..k], RELEASED) {
      assert k < |log| by { assert |log| + (k - |log|) == k; }
      assert (log + more)[..k] == log[..k];
    }
  }

  /** One install call, right after the end of the wait. */
  lemma EarnedInstall(log: seq<Action>, before: seq<Action>, after: seq<Action>)
    requires Earned(log) && InOrder(log, PREPARED)
    requires WaitEnded in before && QuitAndInstall !in before && QuitAndInstall !in after
    ensures Earned(log + (before + [QuitAndInstall] + after))
  {
    var k :| 0 <= k < |before| && before[k] == WaitEnded;
    EarnedGrows(log, before);
    InOrderThen(log, before, PREPARED, k);
    assert PREPARED + [WaitEnded] == RELEASED;
    var log' := log + (before + [QuitAndInstall] + after);
    assert forall i | 0 <= i < |after| :: log'[|log + before| + 1 + i] == after[i] && after[i] in after;
    forall n | 0 <= n < |log'| && log'[n] == QuitAndInstall ensures InOrder(log'[..n], RELEASED) {
      if n < |log + before| {
        assert (log + before)[n] == log'[n] && log'[..n] == (log + before)[..n];
      } else {
        assert n == |log + before| by { assert |log + before| + 1 + (n - |log + before| - 1) == n; }
        assert log'[..n] == log + before;
      }
    }
  }

  lemma UpdaterActions(u: Updater, ev: Event)
    ensures var out := UpdaterStep(u, ev).1;
            QuitAndInstall !in out && InstallAccepted !in out && FinishedQuit !in out && WaitEnded !in out
                && CloseServer !in out
  {
  }

  lemma UpdaterStaged(m: Main, log: seq<Action>, ev: Event)
    requires Staged(m, log) && Enabled(m, ev) && !ev.InstallClick? && !ev.Quit? && !ev.ServerClosed? && !ev.Timeout?
    ensures Staged(Handle(m, ev).0, log + Handle(m, ev).1)
  {
    var m', more := Handle(m, ev).0, Handle(m, ev).1;
    StagedGrows(m, log, more);
    if ev.DownloadClick? {
      assert Occurs([], [], []);
      InOrderThen([], log + more, [], |log|);
      assert [] + (log + more) == log + more && [] + [DownloadAsked] == ASKED;
    }
    if ev.LibraryDownloaded? && m.updater.shown.status.Downloading? {
      InOrderThen(log, more, ASKED, 1);
      assert ASKED + [UpdateArrived] == ARRIVED;
    }
  }

  lemma StagedGrows(m: Main, log: seq<Action>, more: seq<Action>)
    requires Staged(m, log)
    ensures Staged(m, log + more)
  {
    if InOrder(log, ASKED) { InOrderGrows(log, more, ASKED); }
    if InOrder(log, ARRIVED) { InOrderGrows(log, more, ARRIVED); }
    if InOrder(log, PREPARED) { InOrderGrows(log, more, PREPARED); }
  }

  lemma InstallStaged(m: Main, log: seq<Action>)
    requires Staged(m, log)
    ensures Staged(RequestInstall(m).0, log + RequestInstall(m).1)
  {
    var more := RequestInstall(m).1;
    StagedGrows(m, log, more);
    if m.updater.shown.status.Ready? {
      var first, rest := more[..2], more[2..];
      assert more == first + rest && first[1] == InstallAccepted && rest[0] == StateFlushed;
      InOrderThen(log, first, ARRIVED, 1);
      InOrderThen(log + first, rest, ARRIVED + [InstallAccepted], 0);
      assert ARRIVED + [InstallAccepted] + [StateFlushed] == PREPARED;
      assert log + first + rest == log + more;
    }
  }

  lemma FinishActions(m: Main, force: bool, throws: bool)
    ensures var out := FinishQuit(m, force, throws).1;
            if m.quittingForUpdate && m.updater.shown.status.Installing?
            then exists after ::
                out == [FinishedQuit, QuitAndInstall] + after && QuitAndInstall !in after
                && FinishedQuit !in after && WaitEnded !in after
            else QuitAndInstall !in out
  {
    var out := FinishQuit(m, force, throws).1;
    if m.quittingForUpdate && m.updater.shown.status.Installing? {
      assert out == [FinishedQuit, QuitAndInstall] + out[2..];
    }
  }

  lemma FinishEarned(m: Main, log: seq<Action>, before: seq<Action>, force: bool, throws: bool)
    requires Earned(log) && Staged(m, log) && WaitEnded in before && QuitAndInstall !in before
    ensures Earned(log + (before + FinishQuit(m, force, throws).1))
  {
    FinishActions(m, force, throws);
    var out := FinishQuit(m, force, throws).1;
    if m.quittingForUpdate && m.updater.shown.status.Installing? {
      var after :| out == [FinishedQuit, QuitAndInstall] + after && QuitAndInstall !in after;
      EarnedInstall(log, before + [FinishedQuit], after);
      assert before + [FinishedQuit] + [QuitAndInstall] + after == before + out;
    } else {
      EarnedGrows(log, before + out);
    }
  }

  lemma StepEarned(m: Main, log: seq<Action>, ev: Event)
    requires Earned(log) && Staged(m, log) && Enabled(m, ev)
    ensures Earned(log + Handle(m, ev).1)
  {
    match ev {
      case ServerClosed(throws) =>
        if m.closing.TimedOut? {
          EarnedGrows(log, []);
        } else {
          FinishEarned(m.(closing := Settled), log, [WaitEnded], false, throws);
        }
      case Timeout(throws) => FinishEarned(m.(closing := TimedOut), log, [StateFlushed, WaitEnded], true, throws);
      case InstallClick => EarnedGrows(log, Handle(m, ev).1);
      case Quit => EarnedGrows(log, Handle(m, ev).1);
      case _ =>
        UpdaterActions(m.updater, ev);
        EarnedGrows(log, Handle(m, ev).1);
    }
  }

  lemma StepStaged(m: Main, log: seq<Action>, ev: Event)
    requires Staged(m, log) && Enabled(m, ev)
    ensures Staged(Handle(m, ev).0, log + Handle(m, ev).1)
  {
    if ev.InstallClick? {
      InstallStaged(m, log);
    } else if ev.Quit? || ev.ServerClosed? || ev.Timeout? {
      StagedGrows(m, log, Handle(m, ev).1);
    } else {
      UpdaterStaged(m, log, ev);
    }
  }

  /** What one step adds to the counters. */
  ghost predicate Balanced(m: Main, m': Main, out: seq<Action>)
  {
    && (m'.server <==> !Over(m'.closing))
    && Count(out, FinishedQuit) == (if Over(m'.closing) && !Over(m.closing) then 1 else 0)
         && (Over(m.closing) ==> Over(m'.closing))
    && Count(out, WaitEnded) == Count(out, FinishedQuit)
    && Count(out, QuitAndInstall) <= Count(out, FinishedQuit)
    && Count(out, CloseServer) == (if m.closing.NotClosing? && !m'.closing.NotClosing? then 1 else 0)
    && (m'.closing.NotClosing? ==> m.closing.NotClosing?)
  }

  predicate Fails(ev: Event)
  {
    ev.LibraryError? || ev == DownloadDone(false) || ev == CheckDone(false)
  }

  lemma NoRecovery(u: Updater, ev: Event)
    requires !Fails(ev)
    ensures Recover !in UpdaterStep(u, ev).1
    ensures UpdaterStep(u, ev).0.shown.status.Installing? ==> u.shown.status.Installing?
  {
  }

  lemma Absent(out: seq<Action>, a: Action)
    requires a !in out
    ensures Count(out, a) == 0
  {
  }

  lemma OwnStepBalanced(m: Main, u: Updater, out: seq<Action>)
    requires m.server <==> !Over(m.closing)
    requires QuitAndInstall !in out && FinishedQuit !in out && WaitEnded !in out && CloseServer !in out
    ensures Balanced(m, m.(updater := u), out)
  {
    Absent(out, QuitAndInstall);
    Absent(out, FinishedQuit);
    Absent(out, WaitEnded);
    Absent(out, CloseServer);
  }

  lemma UpdaterBalanced(m: Main, ev: Event)
    requires (m.server <==> !Over(m.closing)) && Enabled(m, ev) && !ev.InstallClick? && !ev.Quit? && !ev.ServerClosed?
             && !ev.Timeout?
    ensures Balanced(m, Handle(m, ev).0, Handle(m, ev).1)
  {
    var r := UpdaterStep(m.updater, ev);
    UpdaterActions(m.updater, ev);
    OwnStepBalanced(m, r.0, r.1);
  }

  lemma QuitBalanced(m: Main)
    requires m.server <==> !Over(m.closing)
    ensures Balanced(m, BeforeQuit(m).0, BeforeQuit(m).1)
  {
  }

  lemma InstallBalanced(m: Main)
    requires m.server <==> !Over(m.closing)
    ensures Balanced(m, RequestInstall(m).0, RequestInstall(m).1)
  {
    if m.updater.shown.status.Ready? {
      var a := Accept(m.updater);
      var quitting := m.(updater := a.0, quittingForUpdate := true);
      QuitBalanced(quitting);
      AcceptCounts(m.updater);
      AfterAccept(m, BeforeQuit(quitting).0, a.1, BeforeQuit(quitting).1);
    }
  }

  lemma AcceptCounts(u: Updater)
    ensures var out := Accept(u).1;
            FinishedQuit !in out && WaitEnded !in out && CloseServer !in out && QuitAndInstall !in out
  {
  }

  lemma AfterAccept(m: Main, m': Main, out: seq<Action>, more: seq<Action>)
    requires FinishedQuit !in out && WaitEnded !in out && CloseServer !in out && QuitAndInstall !in out
    requires Balanced(m.(updater := m.updater.(shown := m.updater.shown.(status := Installing))), m', more)
    ensures Balanced(m, m', out + more)
  {
  }

  lemma FinishInstallCounts(u: Updater, throws: bool)
    ensures var r := FinishInstall(u, throws);
            && FinishedQuit !in r.1 && WaitEnded !in r.1 && CloseServer !in r.1
            && Count(r.1, QuitAndInstall) <= 1
  {
  }

  /** Finishing the quit, after the wait has ended. */
  lemma FinishBalanced(m: Main, force: bool, throws: bool)
    requires Over(m.closing)
    ensures var r := FinishQuit(m, force, throws);
            && !r.0.server && r.0.closing == m.closing
            && Count(r.1, FinishedQuit) == 1 && Count(r.1, WaitEnded) == 0 && Count(r.1, QuitAndInstall) <= 1
            && Count(r.1, CloseServer) == 0
  {
    if m.quittingForUpdate {
      FinishInstallCounts(m.updater, throws);
      CountFirst(FinishInstall(m.updater, throws).1);
    }
  }

  lemma CountFirst(rest: seq<Action>)
    requires FinishedQuit !in rest && WaitEnded !in rest && CloseServer !in rest
    ensures var out := [FinishedQuit] + rest;
            && Count(out, FinishedQuit) == 1 && Count(out, WaitEnded) == 0 && Count(out, CloseServer) == 0
            && Count(out, QuitAndInstall) == Count(rest, QuitAndInstall)
  {
  }

  lemma CloseBalanced(m: Main, throws: bool)
    requires (m.server <==> !Over(m.closing)) && !m.closing.NotClosing? && !m.closing.Settled?
    ensures Balanced(m, ServerCloses(m, throws).0, ServerCloses(m, throws).1)
  {
    if m.closing.InProgress? {
      FinishBalanced(m.(closing := Settled), false, throws);
    }
  }

  lemma TimeoutBalanced(m: Main, throws: bool)
    requires (m.server <==> !Over(m.closing)) && m.closing.InProgress?
    ensures Balanced(m, TimerFires(m, throws).0, TimerFires(m, throws).1)
  {
    FinishBalanced(m.(closing := TimedOut), true, throws);
  }

  lemma StepBalanced(m: Main, ev: Event)
    requires (m.server <==> !Over(m.closing)) && Enabled(m, ev)
    ensures Balanced(m, Handle(m, ev).0, Handle(m, ev).1)
  {
    match ev {
      case InstallClick => InstallBalanced(m);
      case Quit => QuitBalanced(m);
      case ServerClosed(throws) => CloseBalanced(m, throws);
      case Timeout(throws) => TimeoutBalanced(m, throws);
      case _ => UpdaterBalanced(m, ev);
    }
  }

  lemma StepCounted(m: Main, log: seq<Action>, ev: Event)
    requires Counted(m, log) && Enabled(m, ev)
    ensures Counted(Handle(m, ev).0, log + Handle(m, ev).1)
  {
    StepBalanced(m, ev);
  }

  // ---- Recoveries answer installs ----------------------------------------------------------------

  lemma {:induction false} PairedConcat(armed: bool, log: seq<Action>, more: seq<Action>)
    ensures Armed(armed, log + more) == Armed(Armed(armed, log), more)
    ensures Paired(armed, log + more) <==> Paired(armed, log) && Paired(Armed(armed, log), more)
  {
    if more == [] {
      assert log + more == log;
    } else {
      assert (log + more)[..|log + more| - 1] == log + more[..|more| - 1];
      PairedConcat(armed, log, more[..|more| - 1]);
    }
  }

  lemma {:induction false} NeitherPaired(armed: bool, out: seq<Action>)
    requires Recover !in out && InstallAccepted !in out
    ensures Paired(armed, out) && Armed(armed, out) == armed
  {
    if out != [] {
      NeitherPaired(armed, out[..|out| - 1]);
      assert out[|out| - 1] in out;
    }
  }

  /** What a handler does to the pairing, given that an install in progress is unanswered before it. */
  ghost predicate Pairs(armed: bool, out: seq<Action>, u: Updater)
  {
    Paired(armed, out) && (u.shown.status.Installing? ==> Armed(armed, out))
  }

  lemma PairsAfter(armed: bool, before: seq<Action>, out: seq<Action>, u: Updater)
    requires Recover !in before && InstallAccepted !in before && Pairs(armed, out, u)
    ensures Pairs(armed, before + out, u)
  {
    NeitherPaired(armed, before);
    PairedConcat(armed, before, out);
  }

  lemma FailPairs(armed: bool, u: Updater)
    requires u.shown.status.Installing? ==> armed
    ensures Pairs(armed, Fail(u).1, Fail(u).0)
  {
    var told := [Broadcast(Fail(u).0.shown)];
    NeitherPaired(armed, told);
    if u.shown.status.Installing? {
      assert Fail(u).1 == told + [Recover];
      PairedConcat(armed, told, [Recover]);
      assert [Recover][..0] == [] && Paired(armed, []) && Armed(armed, []) == armed;
    }
  }

  lemma UpdaterPairs(armed: bool, u: Updater, ev: Event)
    requires u.shown.status.Installing? ==> armed
    ensures Pairs(armed, UpdaterStep(u, ev).1, UpdaterStep(u, ev).0)
  {
    if Fails(ev) {
      FailPairs(armed, u);
      assert UpdaterStep(u, ev).1 == Fail(u).1 && UpdaterStep(u, ev).0.shown == Fail(u).0.shown;
    } else {
      NoRecovery(u, ev);
      UpdaterActions(u, ev);
      NeitherPaired(armed, UpdaterStep(u, ev).1);
    }
  }

  lemma QuitPairs(armed: bool, m: Main)
    requires m.updater.shown.status.Installing? ==> armed
    ensures Pairs(armed, BeforeQuit(m).1, BeforeQuit(m).0.updater)
  {
    NeitherPaired(armed, BeforeQuit(m).1);
  }

  lemma InstallPairs(armed: bool, m: Main)
    requires m.updater.shown.status.Installing? ==> armed
    ensures Pairs(armed, RequestInstall(m).1, RequestInstall(m).0.updater)
  {
    if m.updater.shown.status.Ready? {
      var a := Accept(m.updater);
      var told := [Broadcast(a.0.shown)];
      assert a.1 == told + [InstallAccepted];
      NeitherPaired(armed, told);
      PairedConcat(armed, told, [InstallAccepted]);
      assert [InstallAccepted][..0] == [] && Paired(armed, []);
      QuitPairs(true, m.(updater := a.0, quittingForUpdate := true));
      PairedConcat(armed, a.1, BeforeQuit(m.(updater := a.0, quittingForUpdate := true)).1);
    }
  }

  lemma FinishPairs(armed: bool, m: Main, force: bool, throws: bool)
    requires m.updater.shown.status.Installing? ==> armed
    ensures Pairs(armed, FinishQuit(m, force, throws).1, FinishQuit(m, force, throws).0.updater)
  {
    var out := FinishQuit(m, force, throws).1;
    if m.quittingForUpdate && m.updater.shown.status.Installing? && throws {
      FailPairs(armed, m.updater);
      PairsAfter(armed, [FinishedQuit, QuitAndInstall], Fail(m.updater).1, Fail(m.updater).0);
      assert out == [FinishedQuit, QuitAndInstall] + Fail(m.updater).1;
    } else {
      NeitherPaired(armed, out);
    }
  }

  lemma StepPairs(armed: bool, m: Main, ev: Event)
    requires m.updater.shown.status.Installing? ==> armed
    ensures Pairs(armed, Handle(m, ev).1, Handle(m, ev).0.updater)
  {
    match ev {
      case InstallClick => InstallPairs(armed, m);
      case Quit => QuitPairs(armed, m);
      case ServerClosed(throws) =>
        if !m.closing.TimedOut? {
          var m' := m.(closing := Settled);
          FinishPairs(armed, m', false, throws);
          PairsAfter(armed, [WaitEnded], FinishQuit(m', false, throws).1, FinishQuit(m', false, throws).0.updater);
        }
      case Timeout(throws) =>
        var m' := m.(closing := TimedOut);
        FinishPairs(armed, m', true, throws);
        PairsAfter(armed, [StateFlushed, WaitEnded], FinishQuit(m', true, throws).1,
            FinishQuit(m', true, throws).0.updater);
      case _ => UpdaterPairs(armed, m.updater, ev);
    }
  }

  lemma StepAnswered(m: Main, log: seq<Action>, ev: Event)
    requires Answered(m, log)
    ensures Answered(Handle(m, ev).0, log + Handle(m, ev).1)
  {
    StepPairs(Armed(false, log), m, ev);
    PairedConcat(false, log, Handle(m, ev).1);
  }

  /** An unanswered install lies behind the last recovery. */
  lemma {:induction false} ArmedBy(log: seq<Action>) returns (a: nat)
    requires Armed(false, log)
    ensures a < |log| && log[a].InstallAccepted? && forall k | a < k < |log| :: !log[k].Recover?
  {
    a := |log| - 1;
    if !log[a].InstallAccepted? {
      a := ArmedBy(log[..a]);
    }
  }

  lemma {:induction false} PairedAt(log: seq<Action>, j: nat)
    requires Paired(false, log) && j < |log| && log[j].Recover?
    ensures Armed(false, log[..j])
  {
    if j < |log| - 1 {
      PairedAt(log[..|log| - 1], j);
      assert log[..|log| - 1][..j] == log[..j];
    }
  }

  lemma StepKeepsInv(d: Desktop, ev: Event)
    requires Inv(d) && Enabled(d.main, ev)
    ensures Inv(Step(d, ev))
  {
    StepExclusive(d.main, ev);
    StepStaged(d.main, d.log, ev);
    StepEarned(d.main, d.log, ev);
    StepCounted(d.main, d.log, ev);
    StepAnswered(d.main, d.log, ev);
  }

  lemma {:induction false} RunInv(states: seq<Desktop>, events: seq<Event>, k: nat)
    requires Run(states, events) && k < |states|
    ensures Inv(states[k])
  {
    if k > 0 {
      RunInv(states, events, k - 1);
      assert Next(states, events, k - 1);
      StepKeepsInv(states[k - 1], events[k - 1]);
    }
  }

  // ---- Main results ----------------------------------------------------------------------------

  /** The library is never asked to check and to download at the same time. */
  lemma NeverTogether(states: seq<Desktop>, events: seq<Event>, k: nat)
    requires Run(states, events) && k < |states|
    ensures !(states[k].main.updater.check.CheckInFlight? && states[k].main.updater.download.DownloadInFlight?)
  {
    RunInv(states, events, k);
  }

  /**
   * An install call comes only after a requested download, its arrival, the user's consent, a flush
   * of the client state, and the end of the wait for the server, in this order.
   */
  lemma InstallIsEarned(states: seq<Desktop>, events: seq<Event>, k: nat, n: nat)
    requires Run(states, events) && k < |states| && n < |states[k].log| && states[k].log[n] == QuitAndInstall
    ensures InOrder(states[k].log[..n], [DownloadAsked, UpdateArrived, InstallAccepted, StateFlushed, WaitEnded])
  {
    RunInv(states, events, k);
  }

  /**
   * Quitting finishes at most once, and exactly once as soon as the server has closed or timed out;
   * the server is closed once.
   */
  lemma QuitFinishesOnce(states: seq<Desktop>, events: seq<Event>, k: nat)
    requires Run(states, events) && k < |states|
    ensures var log := states[k].log;
            && Count(log, FinishedQuit) <= 1 && (Count(log, FinishedQuit) == 1 <==> WaitEnded in log)
            && Count(log, CloseServer) <= 1 && Count(log, QuitAndInstall) <= Count(log, FinishedQuit)
  {
    RunInv(states, events, k);
    var log := states[k].log;
    assert WaitEnded in log <==> WaitEnded in multiset(log);
  }

  /**
   * `recoverInstall` runs at most once for each accepted install: there is one before every
   * recovery, after the previous recovery if there was one.
   */
  lemma RecoversOncePerInstall(states: seq<Desktop>, events: seq<Event>, k: nat, j: nat)
    requires Run(states, events) && k < |states| && j < |states[k].log| && states[k].log[j].Recover?
    ensures exists a :: 0 <= a < j && states[k].log[a].InstallAccepted?
              && forall i | 0 <= i < j && states[k].log[i].Recover? :: i < a
  {
    RunInv(states, events, k);
    PairedAt(states[k].log, j);
    var a := ArmedBy(states[k].log[..j]);
    assert states[k].log[a].InstallAccepted?;
    assert forall i | a < i < j :: states[k].log[..j][i] == states[k].log[i];
  }

  // ---- Does an accepted install happen? ----------------------------------------------------------

  /** Events that take the updater out of `installing` behind the user's back. */
  predicate Moves(ev: Event)
  {
    ev.LibraryAvailable? || ev.LibraryNotAvailable? || ev.LibraryError? || ev == DownloadDone(false)
  }

  ghost predicate Undisturbed(events: seq<Event>, i: nat, j: nat)
    requires j <= |events|
  {
    forall k | i < k < j :: !Moves(events[k])
  }

  predicate Accepts(m: Main, ev: Event)
  {
    ev.InstallClick? && m.updater.shown.status.Ready?
  }

  predicate Finishes(m: Main, ev: Event)
  {
    m.closing.InProgress? && (ev.ServerClosed? || ev.Timeout?)
  }

  lemma InstallingStep(m: Main, ev: Event)
    requires Exclusive(m.updater) && Enabled(m, ev) && !Finishes(m, ev) && !Accepts(m, ev)
    ensures Handle(m, ev).0.updater.shown.status.Installing? <==> m.updater.shown.status.Installing? && !Moves(ev)
    ensures Handle(m, ev).0.quittingForUpdate == m.quittingForUpdate
  {
  }

  lemma OverStays(m: Main, ev: Event)
    requires Enabled(m, ev)
    ensures Over(m.closing) ==> Over(Handle(m, ev).0.closing)
  {
  }

  lemma {:induction false} StillClosing(states: seq<Desktop>, events: seq<Event>, i: nat, j: nat)
    requires Run(states, events) && i <= j < |states| && !Over(states[j].main.closing)
    ensures !Over(states[i].main.closing)
    decreases j - i
  {
    if i < j {
      StillClosing(states, events, i + 1, j);
      assert Next(states, events, i);
      OverStays(states[i].main, events[i]);
    }
  }

  lemma {:induction false} InstallingUntil(states: seq<Desktop>, events: seq<Event>, i: nat, j: nat)
    requires Run(states, events) && i < j < |states| && Accepts(states[i].main, events[i])
    requires forall k | i < k < j :: !Accepts(states[k].main, events[k])
    requires !Over(states[j].main.closing)
    ensures states[j].main.updater.shown.status.Installing? <==> Undisturbed(events, i, j)
    ensures states[j].main.quittingForUpdate
    decreases j - i
  {
    if i + 1 < j {
      StillClosing(states, events, j - 1, j);
      InstallingUntil(states, events, i, j - 1);
      InstallingNext(states, events, j - 1);
      assert Undisturbed(events, i, j) <==> Undisturbed(events, i, j - 1) && !Moves(events[j - 1]);
    } else {
      assert Next(states, events, i);
      AcceptedNow(states[i].main, events[i]);
    }
  }

  lemma AcceptedNow(m: Main, ev: Event)
    requires Accepts(m, ev)
    ensures Handle(m, ev).0.updater.shown.status.Installing? && Handle(m, ev).0.quittingForUpdate
  {
  }

  lemma InstallingNext(states: seq<Desktop>, events: seq<Event>, k: nat)
    requires Run(states, events) && k < |events| && !Over(states[k + 1].main.closing)
             && !Accepts(states[k].main, events[k])
    ensures states[k + 1].main.updater.shown.status.Installing? <==>
            states[k].main.updater.shown.status.Installing?
            && !Moves(events[k])
    ensures states[k + 1].main.quittingForUpdate == states[k].main.quittingForUpdate
  {
    RunInv(states, events, k);
    assert Next(states, events, k);
    if Finishes(states[k].main, events[k]) {
      FinishingEnds(states[k].main, events[k]);
    } else {
      InstallingStep(states[k].main, events[k]);
    }
  }

  lemma FinishingEnds(m: Main, ev: Event)
    requires Finishes(m, ev)
    ensures Over(Handle(m, ev).0.closing)
  {
  }

  /**
   * When the quit finishes, the last accepted install is carried out exactly if neither an error
   * nor an availability event of the library came in between.
   */
  lemma InstallsExactly(states: seq<Desktop>, events: seq<Event>, i: nat, j: nat)
    requires Run(states, events) && i < j < |events| && Accepts(states[i].main, events[i])
             && Finishes(states[j].main, events[j])
    requires forall k | i < k < j :: !Accepts(states[k].main, events[k])
    ensures QuitAndInstall in Handle(states[j].main, events[j]).1 <==> Undisturbed(events, i, j)
  {
    InstallingUntil(states, events, i, j);
    var m := states[j].main;
    FinishActions(m.(closing := Settled), false, events[j].throws);
    FinishActions(m.(closing := TimedOut), true, events[j].throws);
  }

  // ---- Does the app exit? ------------------------------------------------------------------------

  ghost predicate LastAccepted(states: seq<Desktop>, events: seq<Event>, i: nat, j: nat)
    requires |states| == |events| + 1 && j <= |events|
  {
    i < j && Accepts(states[i].main, events[i]) && forall k | i < k < j :: !Accepts(states[k].main, events[k])
  }

  lemma {:induction false} QuittingIsAccepted(states: seq<Desktop>, events: seq<Event>, k: nat)
    requires Run(states, events) && k < |states| && !Over(states[k].main.closing)
    ensures states[k].main.quittingForUpdate ==> exists i :: LastAccepted(states, events, i, k)
    ensures !states[k].main.quittingForUpdate ==> forall i | 0 <= i < k :: !Accepts(states[i].main, events[i])
  {
    if k > 0 {
      StillClosing(states, events, k - 1, k);
      QuittingIsAccepted(states, events, k - 1);
      if Accepts(states[k - 1].main, events[k - 1]) {
        assert Next(states, events, k - 1);
        AcceptedNow(states[k - 1].main, events[k - 1]);
        assert LastAccepted(states, events, k - 1, k);
      } else {
        InstallingNext(states, events, k - 1);
        if states[k].main.quittingForUpdate {
          var i :| LastAccepted(states, events, i, k - 1);
          assert LastAccepted(states, events, i, k);
        }
      }
    }
  }

  lemma FinishExits(m: Main, force: bool, throws: bool)
    ensures Exit in FinishQuit(m, force, throws).1 <==> !m.quittingForUpdate
  {
    var out := FinishQuit(m, force, throws).1;
    if !m.quittingForUpdate {
      assert out[|out| - 1] == Exit;
    }
  }

  /** What the step that ends the wait adds to the log. */
  lemma FinishingActions(m: Main, ev: Event)
    requires Finishes(m, ev)
    ensures Exit in Handle(m, ev).1 <==> !m.quittingForUpdate
    ensures QuitAndInstall in Handle(m, ev).1 <==> m.quittingForUpdate && m.updater.shown.status.Installing?
  {
    var m' := m.(closing := if ev.ServerClosed? then Settled else TimedOut);
    FinishActions(m', ev.Timeout?, ev.throws);
    FinishExits(m', ev.Timeout?, ev.throws);
    var before := if ev.ServerClosed? then [WaitEnded] else [StateFlushed, WaitEnded];
    assert Handle(m, ev).1 == before + FinishQuit(m', ev.Timeout?, ev.throws).1;
  }

  /**
   * When the server has closed or five seconds are over, the app exits exactly if no install was
   * accepted, and installs exactly if the last accepted one was not disturbed. Otherwise it does
   * neither and stays.
   */
  lemma WaitEndsExactly(states: seq<Desktop>, events: seq<Event>, j: nat)
    requires Run(states, events) && j < |events| && Finishes(states[j].main, events[j])
    ensures states[j].log <= states[j + 1].log
    ensures var out := states[j + 1].log[|states[j].log|..];
            && (Exit in out <==> forall i | 0 <= i < j :: !Accepts(states[i].main, events[i]))
            && (QuitAndInstall in out <==> exists i :: LastAccepted(states, events, i, j) && Undisturbed(events, i, j))
            && !(Exit in out && QuitAndInstall in out)
  {
    assert Next(states, events, j);
    var m, out := states[j].main, Handle(states[j].main, events[j]).1;
    assert states[j + 1].log[|states[j].log|..] == out;
    FinishingActions(m, events[j]);
    QuittingIsAccepted(states, events, j);
    forall i | LastAccepted(states, events, i, j)
      ensures m.quittingForUpdate && (m.updater.shown.status.Installing? <==> Undisturbed(events, i, j))
    {
      InstallingUntil(states, events, i, j);
    }
  }

  /** The app never exits before its state was flushed and its server had closed or timed out. */
  ghost predicate ExitsLast(log: seq<Action>)
  {
    forall k | 0 <= k < |log| && log[k] == Exit :: StateFlushed in log[..k] && WaitEnded in log[..k]
  }

  lemma ExitsLater(log: seq<Action>, more: seq<Action>)
    requires ExitsLast(log)
    requires forall n | 0 <= n < |more| && more[n] == Exit ::
               StateFlushed in more[..n] && (WaitEnded in log || WaitEnded in more[..n])
    ensures ExitsLast(log + more)
  {
    forall k | 0 <= k < |log + more| && (log + more)[k] == Exit
      ensures StateFlushed in (log + more)[..k] && WaitEnded in (log + more)[..k]
    {
      if k < |log| {
        assert (log + more)[..k] == log[..k];
      } else {
        assert (log + more)[..k] == log + more[..k - |log|];
      }
    }
  }

  lemma ExitPlaces(m: Main, ev: Event)
    requires Enabled(m, ev)
    ensures var out := Handle(m, ev).1;
            forall n | 0 <= n < |out| && out[n] == Exit ::
              StateFlushed in out[..n] && (WaitEnded in out[..n] || (!m.server && !ev.ServerClosed? && !ev.Timeout?))
  {
    match ev {
      case InstallClick => InstallExits(m);
      case Quit =>
        QuitExits(m);
        assert !m.server ==> Handle(m, ev).1[..1] == [StateFlushed];
      case ServerClosed(throws) =>
        if !m.closing.TimedOut? {
          FinishExitPlaces(m.(closing := Settled), [WaitEnded], false, throws);
        }
      case Timeout(throws) => FinishExitPlaces(m.(closing := TimedOut), [StateFlushed, WaitEnded], true, throws);
      case _ => NoExit(m.updater, ev);
    }
  }

  lemma NoExit(u: Updater, ev: Event)
    ensures Exit !in UpdaterStep(u, ev).1
  {
  }

  lemma QuitExits(m: Main)
    ensures var out := BeforeQuit(m).1;
            if m.server then Exit !in out else out == [StateFlushed, Exit]
  {
  }

  lemma InstallExits(m: Main)
    ensures var out := RequestInstall(m).1;
            forall n | 0 <= n < |out| && out[n] == Exit :: !m.server && StateFlushed in out[..n]
  {
    if m.updater.shown.status.Ready? {
      var a := Accept(m.updater);
      QuitExits(m.(updater := a.0, quittingForUpdate := true));
      var out := RequestInstall(m).1;
      assert !m.server ==> out == a.1 + [StateFlushed, Exit] && out[..3] == a.1 + [StateFlushed];
    }
  }

  lemma FinishExitPlaces(m: Main, before: seq<Action>, force: bool, throws: bool)
    requires WaitEnded in before && Exit !in before && |before| <= 2 && (force ==> StateFlushed in before)
    ensures var out := before + FinishQuit(m, force, throws).1;
            forall n | 0 <= n < |out| && out[n] == Exit :: StateFlushed in out[..n] && WaitEnded in out[..n]
  {
    FinishExits(m, force, throws);
    var last := FinishQuit(m, force, throws).1;
    var out := before + last;
    if m.quittingForUpdate {
      assert forall n | 0 <= n < |out| :: out[n] in before || out[n] in last;
    } else if force {
      assert out == before + [FinishedQuit, Exit] && out[..|before| + 1] == before + [FinishedQuit];
    } else {
      assert out == before + [FinishedQuit, StateFlushed, Exit];
      assert out[..|before| + 2] == before + [FinishedQuit, StateFlushed];
    }
  }

  lemma {:induction false} ExitComesLast(states: seq<Desktop>, events: seq<Event>, k: nat)
    requires Run(states, events) && k < |states|
    ensures ExitsLast(states[k].log)
  {
    if k > 0 {
      ExitComesLast(states, events, k - 1);
      RunInv(states, events, k - 1);
      assert Next(states, events, k - 1);
      ExitPlaces(states[k - 1].main, events[k - 1]);
      WaitedOnce(states[k - 1]);
      ExitsLater(states[k - 1].log, Handle(states[k - 1].main, events[k - 1]).1);
    }
  }

  lemma WaitedOnce(d: Desktop)
    requires Counted(d.main, d.log)
    ensures !d.main.server ==> WaitEnded in d.log
  {
    assert WaitEnded in d.log <==> WaitEnded in multiset(d.log);
  }

  /** A quit exits at once exactly if the server is gone already; the first one before closes it. */
  lemma QuitExactly(states: seq<Desktop>, events: seq<Event>, j: nat)
    requires Run(states, events) && j < |events| && events[j].Quit?
    ensures states[j].log <= states[j + 1].log
    ensures var out := states[j + 1].log[|states[j].log|..];
            && StateFlushed in out && (Exit in out <==> WaitEnded in states[j].log)
            && (CloseServer in out <==> CloseServer !in states[j].log)
  {
    RunInv(states, events, j);
    assert Next(states, events, j);
    var d, out := states[j], BeforeQuit(states[j].main).1;
    assert states[j + 1].log[|d.log|..] == out && out[0] == StateFlushed;
    assert forall a :: a in d.log <==> a in multiset(d.log);
    assert |out| == 2 ==> out[1] in out;
  }

  // ---- An install that is announced away ----------------------------------------------------------

  /** A library that announces versions only while it is checking. */
  ghost predicate AnnouncesOnlyWhenAsked(states: seq<Desktop>, events: seq<Event>)
    requires Run(states, events)
  {
    forall k | 0 <= k < |events| && (events[k].LibraryAvailable? || events[k].LibraryNotAvailable?) ::
      states[k].main.updater.check.CheckInFlight?
  }

  /** With such a library an accepted install is carried out, or the app has recovered from an error. */
  lemma {:induction false} AcceptedInstallHappens(states: seq<Desktop>, events: seq<Event>, i: nat, j: nat)
    requires Run(states, events) && i < j < |events| && Accepts(states[i].main, events[i])
             && Finishes(states[j].main, events[j])
    requires forall k | i < k < j :: !Accepts(states[k].main, events[k])
    requires AnnouncesOnlyWhenAsked(states, events)
    ensures QuitAndInstall in Handle(states[j].main, events[j]).1
            || exists k :: i < k < j && Recover in Handle(states[k].main, events[k]).1
  {
    InstallsExactly(states, events, i, j);
    if k :| i < k < j && Moves(events[k]) {
      var n := FirstMove(events, i, k);
      StillClosing(states, events, n, j);
      InstallingUntil(states, events, i, n);
      RunInv(states, events, n);
      MoveRecovers(states[n].main, events[n]);
    }
  }

  lemma MoveRecovers(m: Main, ev: Event)
    requires Exclusive(m.updater) && m.updater.shown.status.Installing? && Moves(ev)
    requires ev.LibraryAvailable? || ev.LibraryNotAvailable? ==> m.updater.check.CheckInFlight?
    ensures Recover in Handle(m, ev).1
  {
  }

  lemma {:induction false} FirstMove(events: seq<Event>, i: nat, k: nat) returns (n: nat)
    requires i < k < |events| && Moves(events[k])
    ensures i < n <= k && Moves(events[n]) && forall m | i < m < n :: !Moves(events[m])
  {
    n := i + 1;
    while !Moves(events[n])
      invariant i < n <= k
      invariant forall m | i < m < n :: !Moves(events[m])
      decreases k - n
    {
      n := n + 1;
    }
  }

  /**
   * A stray announcement strands the app: the server is gone, nothing is installed, and neither
   * does the app exit.
   */
  lemma StrayAnnouncementStrands(d: Desktop, throws: bool)
    requires d.main.updater.shown.status.Installing? && d.main.quittingForUpdate && d.main.closing.InProgress?
    requires d.main.updater.listening
    ensures Enabled(d.main, LibraryNotAvailable)
    ensures var d1 := Step(d, LibraryNotAvailable);
            && Enabled(d1.main, ServerClosed(throws))
            && var d2 := Step(d1, ServerClosed(throws));
               && !d2.main.server && Over(d2.main.closing)
               && forall k | |d.log| <= k < |d2.log| ::
                    d2.log[k] in {Broadcast(Shown(UpToDate, None, None)), WaitEnded, FinishedQuit}
  {
  }

  ghost predicate Reaches(d: Desktop)
  {
    exists states, events :: Run(states, events) && states[|states| - 1] == d
  }

  lemma ReachesNext(d: Desktop, ev: Event)
    requires Reaches(d) && Enabled(d.main, ev)
    ensures Reaches(Step(d, ev))
  {
    var states, events :| Run(states, events) && states[|states| - 1] == d;
    var states', events' := states + [Step(d, ev)], events + [ev];
    forall i: nat | i < |events'| ensures Next(states', events', i) {
      assert i < |events| ==> Next(states, events, i);
    }
    assert Run(states', events') && states'[|states'| - 1] == Step(d, ev);
  }

  /** A user checks for an update. */
  lemma Found(version: string) returns (d: Desktop)
    ensures Reaches(d)
    ensures d.log == [Broadcast(Shown(Checking, None, None)), CheckForUpdates,
                      Broadcast(Shown(Available, Some(version), None))]
    ensures var updater := Updater(Shown(Available, Some(version), None), NoCheck, NoDownload, true, true);
            d.main == Main(updater, true, NotClosing, false)
  {
    var d0 := Started(false);
    assert Run([d0], []) && [d0][|[d0]| - 1] == d0;
    ReachesNext(d0, CheckClick);
    var d1 := Step(d0, CheckClick);
    ReachesNext(d1, LibraryAvailable(version));
    var d2 := Step(d1, LibraryAvailable(version));
    ReachesNext(d2, CheckDone(true));
    var d3 := Step(d2, CheckDone(true));
    ReachesNext(d3, CheckCleared);
    d := Step(d3, CheckCleared);
  }

  /** It is downloaded. */
  lemma Fetched(version: string) returns (d: Desktop)
    ensures Reaches(d) && d.main.server && d.main.closing.NotClosing? && d.main.updater.shown.status.Ready?
            && d.main.updater.listening
    ensures QuitAndInstall !in d.log && Exit !in d.log && Recover !in d.log
  {
    var d0 := Found(version);
    ReachesNext(d0, DownloadClick);
    var d1 := Step(d0, DownloadClick);
    ReachesNext(d1, LibraryDownloaded(version));
    d := Step(d1, LibraryDownloaded(version));
  }

  /** The user agrees to install it. */
  lemma Agreed(version: string) returns (d: Desktop)
    ensures Reaches(d) && d.main.updater.shown.status.Installing? && d.main.quittingForUpdate
            && d.main.closing.InProgress?
    ensures d.main.updater.listening && InstallAccepted in d.log
    ensures QuitAndInstall !in d.log && Exit !in d.log && Recover !in d.log
  {
    var fetched := Fetched(version);
    ReachesNext(fetched, InstallClick);
    d := Step(fetched, InstallClick);
    assert d.log[|fetched.log| + 1] == InstallAccepted;
  }

  /** So a user who agreed to an update can be left with an app that has no server and keeps running. */
  lemma CanStrand()
    ensures exists d :: Reaches(d) && !d.main.server && Over(d.main.closing) && InstallAccepted in d.log
              && QuitAndInstall !in d.log && Exit !in d.log && Recover !in d.log
  {
    var d0 := Agreed("2.0");
    StrayAnnouncementStrands(d0, false);
    ReachesNext(d0, LibraryNotAvailable);
    var d1 := Step(d0, LibraryNotAvailable);
    ReachesNext(d1, ServerClosed(false));
    var d := Step(d1, ServerClosed(false));
    assert d0.log <= d.log;
  }

  // ---- What the windows see ----------------------------------------------------------------------

  /** The state that was broadcast last. */
  function LastTold(log: seq<Action>, start: Shown): Shown
  {
    if log == [] then start
    else if log[|log| - 1].Broadcast? then log[|log| - 1].shown
    else LastTold(log[..|log| - 1], start)
  }

  lemma {:induction false} LastToldConcat(log: seq<Action>, more: seq<Action>, start: Shown)
    ensures LastTold(log + more, start) == LastTold(more, LastTold(log, start))
  {
    if more == [] {
      assert log + more == log;
    } else {
      assert (log + more)[..|log + more| - 1] == log + more[..|more| - 1];
      LastToldConcat(log, more[..|more| - 1], start);
    }
  }

  lemma Untold(out: seq<Action>, start: Shown)
    requires |out| <= 3 && forall a | a in out :: !a.Broadcast?
    ensures LastTold(out, start) == start
  {
    if |out| > 0 {
      assert out[|out| - 1] in out;
      if |out| > 1 {
        assert out[..|out| - 1][|out| - 2] in out;
        if |out| > 2 {
          assert out[..|out| - 1][..|out| - 2][|out| - 3] in out;
        }
      }
    }
  }

  /** One broadcast, whatever else happens around it. */
  lemma Told(before: seq<Action>, shown: Shown, after: seq<Action>, start: Shown)
    requires |after| <= 3 && forall a | a in after :: !a.Broadcast?
    ensures LastTold(before + [Broadcast(shown)] + after, start) == shown
  {
    LastToldConcat(before + [Broadcast(shown)], after, start);
    LastToldConcat(before, [Broadcast(shown)], start);
    Untold(after, shown);
  }

  lemma SetTold(u: Updater, shown: Shown, before: seq<Action>, after: seq<Action>, start: Shown)
    requires |after| <= 3 && forall a | a in after :: !a.Broadcast?
    ensures LastTold(before + (Set(u, shown).1 + after), start) == Set(u, shown).0.shown
  {
    Told(before, shown, after, start);
    assert before + ([Broadcast(shown)] + after) == before + [Broadcast(shown)] + after;
  }

  lemma FailTold(u: Updater, before: seq<Action>, start: Shown)
    ensures LastTold(before + Fail(u).1, start) == Fail(u).0.shown
  {
    var after := if u.shown.status.Installing? then [Recover] else [];
    SetTold(u, Shown(Error, u.shown.version, None), before, after, start);
  }

  lemma UpdaterTold(u: Updater, ev: Event)
    ensures LastTold(UpdaterStep(u, ev).1, u.shown) == UpdaterStep(u, ev).0.shown
  {
    var out := UpdaterStep(u, ev).1;
    if Fails(ev) && ev != CheckDone(true) {
      FailTold(u, [], u.shown);
      assert [] + Fail(u).1 == out;
    } else if out == [] {
    } else if out == [DownloadAsked] {
      Untold(out, u.shown);
    } else {
      OneBroadcast(u, ev);
    }
  }

  /** The other steps send one broadcast with their new state. */
  lemma OneBroadcast(u: Updater, ev: Event)
    requires !Fails(ev) && UpdaterStep(u, ev).1 != [] && UpdaterStep(u, ev).1 != [DownloadAsked]
    ensures LastTold(UpdaterStep(u, ev).1, u.shown) == UpdaterStep(u, ev).0.shown
  {
    var out, shown := UpdaterStep(u, ev).1, UpdaterStep(u, ev).0.shown;
    var before := if ev.DownloadClick? then [DownloadAsked] else [];
    var after := out[|before| + 1..];
    BroadcastFirst(u, ev);
    assert out == before + [Broadcast(shown)] + after;
    Told(before, shown, after, u.shown);
  }

  lemma BroadcastFirst(u: Updater, ev: Event)
    requires !Fails(ev) && UpdaterStep(u, ev).1 != [] && UpdaterStep(u, ev).1 != [DownloadAsked]
    ensures var out := UpdaterStep(u, ev).1;
            var n := if ev.DownloadClick? then 1 else 0;
            && n < |out| <= 3 && out[n] == Broadcast(UpdaterStep(u, ev).0.shown)
            && (n == 1 ==> out[0] == DownloadAsked) && forall i | n < i < |out| :: !out[i].Broadcast?
  {
  }

  lemma FinishTold(m: Main, force: bool, throws: bool, before: seq<Action>)
    requires |before| <= 2 && forall a | a in before :: !a.Broadcast?
    ensures LastTold(before + FinishQuit(m, force, throws).1, m.updater.shown)
            == FinishQuit(m, force, throws).0.updater.shown
  {
    var out := FinishQuit(m, force, throws).1;
    if m.quittingForUpdate && m.updater.shown.status.Installing? && throws {
      FailTold(m.updater, before + [FinishedQuit, QuitAndInstall], m.updater.shown);
      assert before + [FinishedQuit, QuitAndInstall] + Fail(m.updater).1 == before + out;
    } else {
      LastToldConcat(before, out, m.updater.shown);
      Untold(before, m.updater.shown);
      Untold(out, m.updater.shown);
    }
  }

  lemma StepTold(m: Main, ev: Event)
    requires Enabled(m, ev)
    ensures LastTold(Handle(m, ev).1, m.updater.shown) == Handle(m, ev).0.updater.shown
  {
    match ev {
      case InstallClick =>
        if m.updater.shown.status.Ready? {
          var a := Accept(m.updater);
          var more := BeforeQuit(m.(updater := a.0, quittingForUpdate := true)).1;
          Told([], a.0.shown, [InstallAccepted] + more, m.updater.shown);
          assert [] + [Broadcast(a.0.shown)] + ([InstallAccepted] + more) == a.1 + more;
        }
      case Quit => Untold(BeforeQuit(m).1, m.updater.shown);
      case ServerClosed(throws) =>
        if m.closing.InProgress? {
          FinishTold(m.(closing := Settled), false, throws, [WaitEnded]);
        }
      case Timeout(throws) => FinishTold(m.(closing := TimedOut), true, throws, [StateFlushed, WaitEnded]);
      case _ => UpdaterTold(m.updater, ev);
    }
  }

  /** At every moment the windows have been told the current state. */
  lemma {:induction false} WindowsAreUpToDate(states: seq<Desktop>, events: seq<Event>, k: nat)
    requires Run(states, events) && k < |states|
    ensures LastTold(states[k].log, states[0].main.updater.shown) == states[k].main.updater.shown
  {
    if k > 0 {
      WindowsAreUpToDate(states, events, k - 1);
      assert Next(states, events, k - 1);
      LastToldConcat(states[k - 1].log, Handle(states[k - 1].main, events[k - 1]).1, states[0].main.updater.shown);
      StepTold(states[k - 1].main, events[k - 1]);
    }
  }

  /** A shown percentage is one, and an update that is ready is shown as complete. */
  ghost predicate ProperPercent(shown: Shown)
  {
    (shown.percent.Some? ==> shown.percent.value <= 100) && (shown.status.Ready? ==> shown.percent == Some(100))
  }

  lemma {:induction false} PercentIsOne(states: seq<Desktop>, events: seq<Event>, k: nat)
    requires Run(states, events) && k < |states|
    ensures ProperPercent(states[k].main.updater.shown)
  {
    if k > 0 {
      PercentIsOne(states, events, k - 1);
      assert Next(states, events, k - 1);
      PercentStep(states[k - 1].main, events[k - 1]);
    }
  }

  lemma PercentStep(m: Main, ev: Event)
    requires ProperPercent(m.updater.shown)
    ensures ProperPercent(Handle(m, ev).0.updater.shown)
  {
    match ev {
      case InstallClick =>
      case Quit =>
      case ServerClosed(_) =>
      case Timeout(_) =>
      case _ => PercentUpdaterStep(m.updater, ev);
    }
  }

  lemma PercentUpdaterStep(u: Updater, ev: Event)
    requires ProperPercent(u.shown)
    ensures ProperPercent(UpdaterStep(u, ev).0.shown)
  {
  }

  /** After a quit or an accepted install no timer starts another check. */
  lemma {:induction false} TimersStayOff(states: seq<Desktop>, events: seq<Event>, i: nat, j: nat)
    requires Run(states, events) && i < j < |states| && (events[i].Quit? || Accepts(states[i].main, events[i]))
    ensures !Enabled(states[j].main, CheckTimer)
    decreases j - i
  {
    assert Next(states, events, j - 1);
    TimerStep(states[j - 1].main, events[j - 1]);
    if i + 1 < j {
      TimersStayOff(states, events, i, j - 1);
    }
  }

  lemma TimerStep(m: Main, ev: Event)
    ensures Handle(m, ev).0.updater.timers ==> m.updater.timers && !ev.Quit? && !Accepts(m, ev)
  {
  }
}
