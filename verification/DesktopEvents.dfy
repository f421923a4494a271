/**
 * What each event does to the running app, event by event: what the windows are shown, which calls
 * are started and ended, and how far the shutdown is.
 */
module DesktopEvents {

  import opened DesktopUpdater
  import opened Optional

  /** Nothing is pending, and nothing is installed, ready to be, or switched off. */
  predicate CheckStarts(m: Main, ev: Event)
  {
    && (ev.CheckClick? || ev.CheckTimer?)
    && m.updater.check == NoCheck && m.updater.download == NoDownload
    && m.updater.shown.status !in {Disabled, Ready, Installing}
  }

  /** A click with nothing pending, or the end of the check that a click waited for. */
  predicate DownloadBegins(m: Main, ev: Event)
  {
    || (ev.DownloadClick? && m.updater.check == NoCheck && m.updater.download == NoDownload)
    || ev.DownloadResumes?
  }

  predicate DownloadStarts(m: Main, ev: Event)
  {
    DownloadBegins(m, ev) && m.updater.shown.version.Some? && m.updater.shown.status in {Available, Error}
  }

  /** An awaited call of the library failed, or the library said so. */
  predicate Fails(m: Main, ev: Event)
  {
    || ev == CheckDone(false) || ev == DownloadDone(false) || ev.LibraryError?
    || (Finishes(m, ev) && ev.throws && m.quittingForUpdate && m.updater.shown.status == Installing)
  }

  /** The whole number of percent, within 0 and 100. */
  ghost predicate WholePercent(n: nat, percent: real)
  {
    n <= 100 && (n as real <= percent || n == 0) && (percent < n as real + 1.0 || n == 100)
  }

  lemma ClampIs(percent: real)
    ensures WholePercent(Clamp(percent), percent) && forall n: nat | WholePercent(n, percent) :: n == Clamp(percent)
  {
    if 0.0 < percent < 100.0 {
      assert percent.Floor as real <= percent < percent.Floor as real + 1.0;
      forall n: nat | WholePercent(n, percent) ensures n == percent.Floor {
        assert n as real < percent.Floor as real + 1.0 && percent.Floor as real < n as real + 1.0;
      }
    }
  }

  /** Events that concern the main process as a whole. */
  predicate OfMain(ev: Event)
  {
    ev.InstallClick? || ev.Quit? || ev.ServerClosed? || ev.Timeout?
  }

  /** What the windows show after the event. */
  function ShownAfter(m: Main, ev: Event): Shown
  {
    var was := m.updater.shown;
    if CheckStarts(m, ev) then Shown(Checking, None, None)
    else if DownloadStarts(m, ev) then Shown(Downloading, was.version, Some(0))
    else if Fails(m, ev) then Shown(Error, was.version, None)
    else
      match ev
      case InstallClick => if was.status == Ready then was.(status := Installing) else was
      case LibraryNotAvailable => Shown(UpToDate, None, None)
      case LibraryAvailable(version) => Shown(Available, Some(version), None)
      case LibraryProgress(percent) =>
        if was.status == Downloading then was.(percent := Some(Clamp(percent))) else was
      case LibraryDownloaded(version) =>
        if was.status == Downloading then Shown(Ready, Some(version), Some(100)) else was
      case _ => was
  }

  /** Whether the actions are those that go with the new state. */
  predicate Fitting(m: Main, ev: Event, out: seq<Action>)
  {
    && (ShownAfter(m, ev) != m.updater.shown ==> Broadcast(ShownAfter(m, ev)) in out)
    && (CheckForUpdates in out <==> CheckStarts(m, ev)) && (DownloadUpdate in out <==> DownloadStarts(m, ev))
    && (Recover in out <==> Fails(m, ev) && m.updater.shown.status == Installing)
    && (DownloadAsked in out <==> ev.DownloadClick?)
    && (InstallAccepted in out <==> Accepts(m, ev))
  }

  lemma UpdaterShows(m: Main, ev: Event)
    requires Enabled(m, ev) && !OfMain(ev)
    ensures Handle(m, ev).0.updater.shown == ShownAfter(m, ev)
  {
  }

  predicate Begins(ev: Event)
  {
    ev.CheckClick? || ev.CheckTimer? || ev.DownloadClick? || ev.DownloadResumes?
  }

  lemma BeginFits(m: Main, ev: Event)
    requires Enabled(m, ev) && Begins(ev)
    ensures Fitting(m, ev, Handle(m, ev).1)
  {
  }

  lemma LibraryFits(m: Main, ev: Event)
    requires Enabled(m, ev) && !OfMain(ev) && !Begins(ev)
    ensures Fitting(m, ev, Handle(m, ev).1)
  {
  }

  lemma MainShows(m: Main, ev: Event)
    requires Enabled(m, ev) && OfMain(ev)
    ensures Handle(m, ev).0.updater.shown == ShownAfter(m, ev)
  {
  }

  lemma CloseFits(m: Main, ev: Event)
    requires Enabled(m, ev) && ev.ServerClosed?
    ensures Fitting(m, ev, Handle(m, ev).1)
  {
  }

  lemma TimeoutFits(m: Main, ev: Event)
    requires Enabled(m, ev) && ev.Timeout?
    ensures Fitting(m, ev, Handle(m, ev).1)
  {
  }

  lemma QuitFits(m: Main, ev: Event)
    requires Enabled(m, ev) && (ev.InstallClick? || ev.Quit?)
    ensures Fitting(m, ev, Handle(m, ev).1)
  {
  }

  /** The states that the windows go through, each of them told, and the calls that go with them. */
  lemma ShownExactly(m: Main, ev: Event)
    requires Enabled(m, ev)
    ensures Handle(m, ev).0.updater.shown == ShownAfter(m, ev) && Fitting(m, ev, Handle(m, ev).1)
  {
    if !OfMain(ev) {
      UpdaterShows(m, ev);
      if Begins(ev) {
        BeginFits(m, ev);
      } else {
        LibraryFits(m, ev);
      }
    } else {
      MainShows(m, ev);
      if ev.ServerClosed? {
        CloseFits(m, ev);
      } else if ev.Timeout? {
        TimeoutFits(m, ev);
      } else {
        QuitFits(m, ev);
      }
    }
  }

  /** Which calls of the library are in flight. */
  lemma CallsExactly(m: Main, ev: Event)
    requires Enabled(m, ev)
    ensures var after := Handle(m, ev).0.updater;
            && after.check == (if CheckStarts(m, ev) then CheckInFlight
                               else if ev.CheckDone? then CheckReturned
                               else if ev.CheckCleared? then NoCheck else m.updater.check)
            && after.download == if DownloadStarts(m, ev) then DownloadInFlight
                                 else if DownloadBegins(m, ev) || ev.DownloadDone? then DownloadReturned
                                 else if ev.DownloadCleared? then NoDownload
                                 else if ev.DownloadClick? && m.updater.download == NoDownload then AwaitingCheck
                                 else m.updater.download
  {
  }

  /** How far the shutdown is: who closes the server, who waits for it, and whether timers still run. */
  lemma ShutdownExactly(m: Main, ev: Event)
    requires Enabled(m, ev)
    ensures var (m', out) := Handle(m, ev);
            && m'.closing == (if ev.Timeout? then TimedOut else if ev.ServerClosed? then Settled
                              else if (ev.Quit? || Accepts(m, ev)) && m.server && m.closing == NotClosing
                                  then InProgress
                              else m.closing)
            && (m'.server <==> m.server && !Finishes(m, ev))
            && (m'.quittingForUpdate <==> Accepts(m, ev) || (m.quittingForUpdate && !Finishes(m, ev)))
            && (m'.updater.timers <==>
                m.updater.timers && !ev.Quit? && !Accepts(m, ev)
                && !(Finishes(m, ev) && ev.ServerClosed? && !m.quittingForUpdate))
            && m'.updater.listening == m.updater.listening
  {
  }

  /** The outside world is not restrained: whatever is in flight may end, and users may click at any time. */
  lemma AnythingMayHappen(m: Main, ok: bool, throws: bool, ev: Event)
    ensures ev.CheckClick? || ev.DownloadClick? || ev.InstallClick? || ev.Quit? ==> Enabled(m, ev)
    ensures m.updater.listening && (ev.LibraryError? || ev.LibraryNotAvailable? || ev.LibraryAvailable?)
            ==> Enabled(m, ev)
    ensures m.updater.listening && (ev.LibraryProgress? || ev.LibraryDownloaded?) ==> Enabled(m, ev)
    ensures m.updater.check == CheckInFlight ==> Enabled(m, CheckDone(ok))
    ensures m.updater.check == CheckReturned ==> Enabled(m, CheckCleared)
    ensures m.updater.download == AwaitingCheck && m.updater.check == NoCheck ==> Enabled(m, DownloadResumes)
    ensures m.updater.download == DownloadInFlight ==> Enabled(m, DownloadDone(ok))
    ensures m.updater.download == DownloadReturned ==> Enabled(m, DownloadCleared)
    ensures m.closing == InProgress ==> Enabled(m, Timeout(throws))
    ensures m.closing == InProgress || m.closing == TimedOut ==> Enabled(m, ServerClosed(throws))
    ensures m.updater.timers ==> Enabled(m, CheckTimer)
  {
  }
}
