/**
 * The updater object and the shutdown variables of the main process, changed in place by clicks,
 * timers, awaited calls and library events.
 */
module DesktopApp {

  import opened DesktopUpdater
  import opened Optional

  /** One update operation for the whole app. */
  class UpdaterObject {
    var shown: Shown
    var pendingCheck: CheckRun
    var pendingDownload: DownloadRun
    var timers: bool
    const listening: bool

    ghost function State(): Updater
      reads this
    {
      Updater(shown, pendingCheck, pendingDownload, timers, listening)
    }

    constructor (disabled: bool)
      ensures State() == Started(disabled).main.updater.(timers := false)
    {
      shown := Shown(if disabled then Disabled else Idle, None, None);
      pendingCheck, pendingDownload, timers, listening := NoCheck, NoDownload, false, !disabled;
    }

    method Start()
      modifies this`timers
      ensures State() == old(State()).(timers := timers)
      ensures timers <==> old(timers) || !shown.status.Disabled?
    {
      if !shown.status.Disabled? {
        timers := true;
      }
    }

    method Stop()
      modifies this`timers
      ensures State() == old(State()).(timers := false)
    {
      timers := false;
    }

    method Show(next: Shown) returns (out: seq<Action>)
      modifies this`shown
      ensures (State(), out) == Set(old(State()), next)
    {
      shown := next;
      out := [Broadcast(next)];
    }

    method FailWith() returns (out: seq<Action>)
      modifies this`shown
      ensures (State(), out) == Fail(old(State()))
    {
      var installing := shown.status.Installing?;
      out := Show(Shown(Error, shown.version, None));
      if installing {
        out := out + [Recover];
      } else {
        assert out + [] == out;
      }
    }

    /** Up to the point where the call to the library is in flight. */
    method CheckNow() returns (out: seq<Action>)
      modifies this
      ensures (State(), out) == Check(old(State()))
    {
      out := [];
      if !pendingDownload.NoDownload? || !pendingCheck.NoCheck? || Refuses(shown.status) {
        return;
      }
      pendingCheck := CheckInFlight;
      out := Show(Shown(Checking, None, None));
      out := out + [CheckForUpdates];
    }

    method CheckReturns(ok: bool) returns (out: seq<Action>)
      modifies this
      ensures (State(), out) == CheckSettles(old(State()), ok)
    {
      pendingCheck := CheckReturned;
      out := [];
      if !ok {
        out := FailWith();
      }
    }

    method DownloadNow() returns (out: seq<Action>)
      modifies this
      ensures (State(), out) == Download(old(State()))
    {
      out := [DownloadAsked];
      if !pendingDownload.NoDownload? {
        return;
      }
      if !pendingCheck.NoCheck? {
        pendingDownload := AwaitingCheck;
        return;
      }
      var begun := DownloadAfterCheck();
      out := out + begun;
    }

    method DownloadAfterCheck() returns (out: seq<Action>)
      modifies this
      ensures (State(), out) == BeginDownload(old(State()))
    {
      out := [];
      if shown.version.None? || !(shown.status.Available? || shown.status.Error?) {
        pendingDownload := DownloadReturned;
        return;
      }
      pendingDownload := DownloadInFlight;
      out := Show(Shown(Downloading, shown.version, Some(0)));
      out := out + [DownloadUpdate];
    }

    method DownloadReturns(ok: bool) returns (out: seq<Action>)
      modifies this
      ensures (State(), out) == DownloadSettles(old(State()), ok)
    {
      pendingDownload := DownloadReturned;
      out := [];
      if !ok {
        out := FailWith();
      }
    }

    /** `requestInstall` up to the callback that quits the app. */
    method AcceptInstall() returns (accepted: bool, out: seq<Action>)
      modifies this
      ensures accepted <==> old(shown.status.Ready?)
      ensures (State(), out) == if accepted then Accept(old(State())) else (old(State()), [])
      ensures accepted ==> !timers && shown == old(shown).(status := Installing)
    {
      accepted, out := shown.status.Ready?, [];
      if accepted {
        out := Show(shown.(status := Installing));
        Stop();
        out := out + [InstallAccepted];
      }
    }

    method Install(throws: bool) returns (out: seq<Action>)
      modifies this
      ensures (State(), out) == FinishInstall(old(State()), throws)
    {
      out := [];
      if !shown.status.Installing? {
        return;
      }
      out := [QuitAndInstall];
      if throws {
        var failed := FailWith();
        out := out + failed;
      }
    }

    method Progress(percent: real) returns (out: seq<Action>)
      modifies this
      ensures (State(), out) == OnProgress(old(State()), percent)
    {
      out := [];
      if shown.status.Downloading? && shown.percent != Some(Clamp(percent)) {
        out := Show(shown.(percent := Some(Clamp(percent))));
      }
    }

    method Downloaded(version: string) returns (out: seq<Action>)
      modifies this
      ensures (State(), out) == OnDownloaded(old(State()), version)
    {
      out := [];
      if shown.status.Downloading? {
        out := Show(Shown(Ready, Some(version), Some(100)));
        out := out + [UpdateArrived];
      }
    }

    /** Everything that reaches the updater without involving the main process. */
    method Dispatch(ev: Event) returns (out: seq<Action>)
      modifies this
      ensures (State(), out) == UpdaterStep(old(State()), ev)
    {
      out := [];
      match ev {
        case CheckClick => out := CheckNow();
        case CheckTimer => out := CheckNow();
        case CheckDone(ok) => out := CheckReturns(ok);
        case CheckCleared => pendingCheck := NoCheck;
        case DownloadClick => out := DownloadNow();
        case DownloadResumes => out := DownloadAfterCheck();
        case DownloadDone(ok) => out := DownloadReturns(ok);
        case DownloadCleared => pendingDownload := NoDownload;
        case LibraryError => out := FailWith();
        case LibraryNotAvailable => out := Show(Shown(UpToDate, None, None));
        case LibraryAvailable(version) => out := Show(Shown(Available, Some(version), None));
        case LibraryProgress(percent) => out := Progress(percent);
        case LibraryDownloaded(version) => out := Downloaded(version);
        case _ =>
      }
    }
  }

  /** The main process as far as quitting is concerned. */
  class App {
    const updater: UpdaterObject
    var server: bool
    var closing: Closing
    var quittingForUpdate: bool

    ghost function State(): Main
      reads this, updater
    {
      Main(updater.State(), server, closing, quittingForUpdate)
    }

    constructor (disabled: bool)
      ensures State() == Started(disabled).main
      ensures fresh(updater)
    {
      updater := new UpdaterObject(disabled);
      server, closing, quittingForUpdate := true, NotClosing, false;
      new;
      updater.Start();
    }

    method OnBeforeQuit() returns (out: seq<Action>)
      modifies this, updater
      ensures (State(), out) == BeforeQuit(old(State()))
    {
      updater.Stop();
      out := [StateFlushed];
      if !server {
        out := [StateFlushed, Exit];
        return;
      }
      if closing.NotClosing? {
        closing := InProgress;
        out := [StateFlushed, CloseServer];
      }
    }

    method Finish(force: bool, throws: bool) returns (out: seq<Action>)
      modifies this, updater
      ensures (State(), out) == FinishQuit(old(State()), force, throws)
    {
      server := false;
      out := [FinishedQuit];
      if quittingForUpdate {
        quittingForUpdate := false;
        var installed := updater.Install(throws);
        out := out + installed;
      } else if force {
        out := [FinishedQuit, Exit];
      } else {
        var quit := OnBeforeQuit();
        out := out + quit;
      }
    }

    method OnServerClosed(throws: bool) returns (out: seq<Action>)
      requires closing.InProgress? || closing.TimedOut?
      modifies this, updater
      ensures (State(), out) == ServerCloses(old(State()), throws)
    {
      var timedOut := closing.TimedOut?;
      closing := Settled;
      if timedOut {
        return [];
      }
      var finished := Finish(false, throws);
      out := [WaitEnded] + finished;
    }

    method OnTimeout(throws: bool) returns (out: seq<Action>)
      requires closing.InProgress?
      modifies this, updater
      ensures (State(), out) == TimerFires(old(State()), throws)
    {
      closing := TimedOut;
      var finished := Finish(true, throws);
      out := [StateFlushed, WaitEnded] + finished;
    }

    method OnInstallClick() returns (accepted: bool, out: seq<Action>)
      modifies this, updater
      ensures accepted <==> Accepts(old(State()), InstallClick)
      ensures (State(), out) == RequestInstall(old(State()))
    {
      accepted, out := updater.AcceptInstall();
      if accepted {
        quittingForUpdate := true;
        var quit := OnBeforeQuit();
        out := out + quit;
      }
    }

    /** One event of the running app. */
    method On(ev: Event) returns (out: seq<Action>)
      requires Enabled(State(), ev)
      modifies this, updater
      ensures (State(), out) == Handle(old(State()), ev)
    {
      match ev {
        case InstallClick =>
          var _, requested := OnInstallClick();
          out := requested;
        case Quit => out := OnBeforeQuit();
        case ServerClosed(throws) => out := OnServerClosed(throws);
        case Timeout(throws) => out := OnTimeout(throws);
        case _ => out := updater.Dispatch(ev);
      }
    }
  }
}
