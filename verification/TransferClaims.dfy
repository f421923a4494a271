/**
 * What one step does to the tabs, claims, sources and preparations of a window, for every step; and
 * over whole runs, that each claim that reaches its source is answered once.
 */
module TransferClaims {

  import opened Optional
  import opened TabTransfer
  import opened TransferOrder
  import opened TransferTerminals
  import TransferWindow

  /** The message is an offer of the tab that answers an open claim. */
  ghost predicate Received(e: End, m: Message, tab: Tab)
  {
    m.Offer? && m.offered == Some(tab) && m.request in e.claims
  }

  /** The source of the tab is told that its move is complete. */
  ghost predicate GivenAway(e: End, m: Message, tab: Tab)
  {
    m.Complete? && m.transfer in e.sources && e.sources[m.transfer].tab == tab
  }

  /** A page that takes the place of the blank tab sweeps the other pages away. */
  ghost predicate Swept(e: End, m: Message, tab: Tab)
  {
    && tab.surface == Page && m.Offer? && m.offered.Some? && m.offered.value.surface == Page && m.offered.value != tab
    && m.request in e.claims && e.claims[m.request].replacePlaceholder
  }

  ghost predicate Hears(ev: Event, w: Window)
  {
    ev.Deliver? && ev.packet.to == w
  }

  // ---- One message ---------------------------------------------------------------------------------

  lemma OpenAfterMessage(e: End, m: Message, tab: Tab)
    ensures tab in TransferWindow.Handle(e, m).0.tabs
       <==> Received(e, m, tab) || (tab in e.tabs && !GivenAway(e, m, tab) && !Swept(e, m, tab))
  {
  }

  lemma ClaimsAfterMessage(e: End, m: Message, request: RequestId)
    ensures request in TransferWindow.Handle(e, m).0.claims
       <==> request in e.claims && !(m.Offer? && m.request == request)
  {
  }

  lemma SourcesAfterMessage(e: End, m: Message, t: TransferId)
    ensures var e' := TransferWindow.Handle(e, m).0;
            && (t in e'.sources <==> t in e.sources && m != Complete(t))
            && (t in e'.sources ==> e'.sources[t].tab == e.sources[t].tab)
  {
  }

  lemma WaitsAfterMessage(e: End, m: Message, tab: Tab, t: TransferId)
    requires tab.surface == Dock && tab.live
    ensures Waits(TransferWindow.Handle(e, m).0, tab, t)
       <==> || (Received(e, m, tab) && tab !in e.tabs && e.claims[m.request].transfer == t)
            || (Waits(e, tab, t) && !GivenAway(e, m, tab))
  {
  }

  lemma WhereStepped(s: System, ev: Event, w: Window)
    requires Enabled(s, ev) && w in s.ends
    ensures w in Step(s, ev).ends && (w != At(ev) ==> Step(s, ev).ends[w] == s.ends[w])
    ensures Hears(ev, w) ==> Step(s, ev).ends[w] == TransferWindow.Handle(s.ends[w], ev.packet.message).0
  {
    if ev.Deliver? {
      DeliveryKeeps(s, ev.packet);
    } else {
      ActPosts(s, ev);
    }
  }

  // ---- One step, exactly -----------------------------------------------------------------------------

  lemma OwnTabs(s: System, ev: Event, tab: Tab)
    requires Enabled(s, ev) && !ev.Deliver?
    ensures tab in Step(s, ev).ends[At(ev)].tabs
       <==> (ev.Open? && ev.tab == tab) || (tab in s.ends[At(ev)].tabs && !(ev.Close? && ev.tab == tab))
  {
  }

  /** A tab is open in a window after a step exactly if it was opened or received there, or stayed. */
  lemma OpenExactly(s: System, ev: Event, w: Window, tab: Tab)
    requires Enabled(s, ev) && w in s.ends
    ensures w in Step(s, ev).ends
    ensures tab in Step(s, ev).ends[w].tabs
       <==> if Hears(ev, w) then
              var e, m := s.ends[w], ev.packet.message;
              Received(e, m, tab) || (tab in e.tabs && !GivenAway(e, m, tab) && !Swept(e, m, tab))
            else ev == Open(w, tab) || (tab in s.ends[w].tabs && ev != Close(w, tab))
  {
    WhereStepped(s, ev, w);
    if Hears(ev, w) {
      OpenAfterMessage(s.ends[w], ev.packet.message, tab);
    } else if w == At(ev) {
      OwnTabs(s, ev, tab);
    }
  }

  lemma OwnClaims(s: System, ev: Event, request: RequestId)
    requires Enabled(s, ev) && !ev.Deliver?
    ensures request in Step(s, ev).ends[At(ev)].claims
       <==> || (ev.Drop? && ev.request == request)
            || (request in s.ends[At(ev)].claims && !(ev.TimeOut? && ev.request == request))
  {
  }

  /** A claim is open exactly from the drop that starts it until an offer for it arrives or its time is up. */
  lemma ClaimOpenExactly(s: System, ev: Event, w: Window, request: RequestId)
    requires Enabled(s, ev) && w in s.ends
    ensures w in Step(s, ev).ends
    ensures request in Step(s, ev).ends[w].claims
       <==> || (ev.Drop? && ev.w == w && ev.request == request)
            || (request in s.ends[w].claims && ev != TimeOut(w, request)
                && !(Hears(ev, w) && ev.packet.message.Offer? && ev.packet.message.request == request))
  {
    WhereStepped(s, ev, w);
    if Hears(ev, w) {
      ClaimsAfterMessage(s.ends[w], ev.packet.message, request);
    } else if w == At(ev) {
      OwnClaims(s, ev, request);
    }
  }

  /** Claims are sent when they start, and again while they are open. */
  lemma ClaimsSent(s: System, ev: Event, request: RequestId, t: TransferId)
    requires Enabled(s, ev)
    ensures Claim(request, t) in Posts(s, ev)
       <==> || (ev.Drop? && ev.request == request && ev.t == t)
            || (ev.Retry? && ev.request == request && request in s.ends[ev.w].claims
                && s.ends[ev.w].claims[request].transfer == t)
  {
  }

  lemma OwnTokens(s: System, ev: Event, t: TransferId)
    requires Enabled(s, ev) && !ev.Deliver?
    ensures var after := Step(s, ev).ends[At(ev)].sources;
            && (t in after <==> (ev.Drag? && ev.t == t)
                                || (t in s.ends[At(ev)].sources && !(ev.Expire? && ev.t == t)))
            && (t in after ==> after[t].tab == if ev.Drag? && ev.t == t then ev.tab else s.ends[At(ev)].sources[t].tab)
  {
  }

  /** A token can be claimed exactly from the drag that registers it until it is complete or retired. */
  lemma SourceExactly(s: System, ev: Event, w: Window, t: TransferId)
    requires Enabled(s, ev) && w in s.ends
    ensures w in Step(s, ev).ends
    ensures var registers, after := ev.Drag? && ev.w == w && ev.t == t, Step(s, ev).ends[w].sources;
            && (t in after <==> registers || (t in s.ends[w].sources && ev != Expire(w, t)
                                              && !(Hears(ev, w) && ev.packet.message == Complete(t))))
            && (t in after ==> after[t].tab == if registers then ev.tab else s.ends[w].sources[t].tab)
  {
    WhereStepped(s, ev, w);
    if Hears(ev, w) {
      SourcesAfterMessage(s.ends[w], ev.packet.message, t);
    } else if w == At(ev) {
      OwnTokens(s, ev, t);
    }
  }

  // ---- Terminals that wait ---------------------------------------------------------------------------

  /** Only open terminals wait. */
  ghost predicate WaitersIn(e: End)
  {
    forall tab | tab in e.attaching :: tab in e.tabs && !Reported(tab)
  }

  ghost predicate WaitersOpen(s: System)
  {
    forall w | w in s.ends :: WaitersIn(s.ends[w])
  }

  lemma OwnWaits(s: System, ev: Event, tab: Tab, t: TransferId)
    requires Enabled(s, ev) && !ev.Deliver? && WaitersIn(s.ends[At(ev)])
    ensures Waits(Step(s, ev).ends[At(ev)], tab, t)
       <==> Waits(s.ends[At(ev)], tab, t) && !((ev.Session? || ev.Close?) && ev.tab == tab)
  {
  }

  /** A live terminal waits exactly from its adoption until its session is up or lost, or it is gone. */
  lemma WaitsExactly(s: System, ev: Event, w: Window, tab: Tab, t: TransferId)
    requires Enabled(s, ev) && w in s.ends && WaitersOpen(s) && tab.surface == Dock && tab.live
    ensures w in Step(s, ev).ends
    ensures Waits(Step(s, ev).ends[w], tab, t)
       <==> if Hears(ev, w) then
              var e, m := s.ends[w], ev.packet.message;
              || (Received(e, m, tab) && tab !in e.tabs && e.claims[m.request].transfer == t)
              || (Waits(e, tab, t) && !GivenAway(e, m, tab))
            else Waits(s.ends[w], tab, t) && ev != Close(w, tab) && !(ev.Session? && ev.w == w && ev.tab == tab)
  {
    WhereStepped(s, ev, w);
    if Hears(ev, w) {
      WaitsAfterMessage(s.ends[w], ev.packet.message, tab, t);
    } else if w == At(ev) {
      OwnWaits(s, ev, tab, t);
    }
  }

  lemma MessageKeepsWaiters(e: End, m: Message)
    requires WaitersIn(e)
    ensures WaitersIn(TransferWindow.Handle(e, m).0)
  {
  }

  lemma OwnKeepsWaiters(s: System, ev: Event)
    requires Enabled(s, ev) && !ev.Deliver? && WaitersIn(s.ends[At(ev)])
    ensures WaitersIn(Step(s, ev).ends[At(ev)])
  {
  }

  lemma StepWaitersOpen(s: System, ev: Event)
    requires Enabled(s, ev) && WaitersOpen(s)
    ensures WaitersOpen(Step(s, ev))
  {
    StepPosts(s, ev);
    forall w | w in s.ends
      ensures WaitersIn(Step(s, ev).ends[w])
    {
      WhereStepped(s, ev, w);
      if Hears(ev, w) {
        MessageKeepsWaiters(s.ends[w], ev.packet.message);
      } else if w == At(ev) {
        OwnKeepsWaiters(s, ev);
      }
    }
  }

  lemma {:induction false} RunWaitersOpen(states: seq<System>, events: seq<Event>, k: nat)
    requires Run(states, events) && k < |states|
    ensures WaitersOpen(states[k])
  {
    if k > 0 {
      RunWaitersOpen(states, events, k - 1);
      assert Next(states, events, k - 1);
      StepWaitersOpen(states[k - 1], events[k - 1]);
    }
  }

  // ---- Preparations ----------------------------------------------------------------------------------

  /** A claim of the token reaches its source. */
  ghost predicate Asks(s: System, ev: Event, w: Window, t: TransferId)
  {
    && Hears(ev, w) && ev.packet.message.Claim? && ev.packet.message.transfer == t
    && w in s.ends && t in s.ends[w].sources
  }

  ghost predicate Cancels(ev: Event, w: Window, t: TransferId)
  {
    Hears(ev, w) && ev.packet.message == Cancel(t)
  }

  /** The token was claimed here, and no cancel has come since. */
  ghost predicate AskedSince(states: seq<System>, events: seq<Event>, k: nat, w: Window, t: TransferId)
    requires |states| == |events| + 1 && k <= |events|
  {
    exists i: nat :: i < k && Asks(states[i], events[i], w, t) && forall j: nat | i < j < k :: !Cancels(events[j], w, t)
  }

  lemma AskedNext(states: seq<System>, events: seq<Event>, k: nat, w: Window, t: TransferId)
    requires |states| == |events| + 1 && k < |events|
    ensures AskedSince(states, events, k + 1, w, t)
       <==> Asks(states[k], events[k], w, t) || (AskedSince(states, events, k, w, t) && !Cancels(events[k], w, t))
  {
    if AskedSince(states, events, k + 1, w, t) {
      var i: nat :| i < k + 1 && Asks(states[i], events[i], w, t) && forall j: nat | i < j < k + 1 ::
          !Cancels(events[j], w, t);
    }
    if AskedSince(states, events, k, w, t) && !Cancels(events[k], w, t) {
      var i: nat :| i < k && Asks(states[i], events[i], w, t) && forall j: nat | i < j < k :: !Cancels(events[j], w, t);
      assert i < k + 1 && Asks(states[i], events[i], w, t) && forall j: nat | i < j < k + 1 ::
             !Cancels(events[j], w, t);
    }
  }

  lemma PreparedAfterMessage(e: End, m: Message, t: TransferId)
    requires t in TransferWindow.Handle(e, m).0.sources
    ensures t in e.sources
    ensures TransferWindow.Handle(e, m).0.sources[t].prepared.Some?
       <==> (m.Claim? && m.transfer == t) || (e.sources[t].prepared.Some? && m != Cancel(t))
  {
  }

  lemma OwnPrepared(s: System, ev: Event, t: TransferId)
    requires Enabled(s, ev) && !ev.Deliver? && t in Step(s, ev).ends[At(ev)].sources
    ensures ev.Drag? && ev.t == t ==> !Step(s, ev).ends[At(ev)].sources[t].prepared.Some?
    ensures !(ev.Drag? && ev.t == t) ==>
              && t in s.ends[At(ev)].sources
              && Step(s, ev).ends[At(ev)].sources[t].prepared == s.ends[At(ev)].sources[t].prepared
  {
  }

  lemma PreparedNext(s: System, ev: Event, w: Window, t: TransferId)
    requires Enabled(s, ev) && w in s.ends
    ensures w in Step(s, ev).ends
    ensures t in Step(s, ev).ends[w].sources && !(ev.Drag? && ev.t == t) ==>
              && t in s.ends[w].sources
              && (Step(s, ev).ends[w].sources[t].prepared.Some?
                  <==> Asks(s, ev, w, t) || (s.ends[w].sources[t].prepared.Some? && !Cancels(ev, w, t)))
    ensures t in Step(s, ev).ends[w].sources && ev.Drag? && ev.t == t && w == ev.w ==>
              Step(s, ev).ends[w].sources[t].prepared.None?
  {
    WhereStepped(s, ev, w);
    if t in Step(s, ev).ends[w].sources {
      if Hears(ev, w) {
        PreparedAfterMessage(s.ends[w], ev.packet.message, t);
      } else if w == At(ev) {
        OwnPrepared(s, ev, t);
      }
    }
  }

  lemma NeverAsked(states: seq<System>, events: seq<Event>, k: nat, w: Window, t: TransferId)
    requires Run(states, events) && k < |states| && t !in states[k].registry
    ensures !AskedSince(states, events, k, w, t)
  {
    if AskedSince(states, events, k, w, t) {
      var i: nat :| i < k && Asks(states[i], events[i], w, t) && forall j: nat | i < j < k :: !Cancels(events[j], w, t);
      RunWellFormed(states, events, i);
      assert SourceOk(states[i], w, states[i].ends[w], t);
      AdoptionsGrow(states, events, i, k);
    }
  }

  lemma SourceIsRegistered(s: System, w: Window, t: TransferId)
    requires WellFormed(s) && w in s.ends && t in s.ends[w].sources
    ensures SourceOk(s, w, s.ends[w], t)
  {
  }

  /** A source holds a preparation exactly if its token was claimed since it was dragged and last cancelled. */
  lemma {:induction false} PreparedExactly(states: seq<System>, events: seq<Event>, k: nat, w: Window, t: TransferId)
    requires Run(states, events) && k < |states| && w in states[k].ends && t in states[k].ends[w].sources
    ensures states[k].ends[w].sources[t].prepared.Some? <==> AskedSince(states, events, k, w, t)
  {
    if k > 0 {
      var s, ev := states[k - 1], events[k - 1];
      assert Next(states, events, k - 1);
      StepPosts(s, ev);
      PreparedNext(s, ev, w, t);
      AskedNext(states, events, k - 1, w, t);
      if ev.Drag? && ev.t == t {
        NeverAsked(states, events, k - 1, w, t);
        WhereStepped(s, ev, w);
        if w != ev.w {
          RunWellFormed(states, events, k - 1);
          SourceIsRegistered(s, w, t);
          assert false;
        }
      } else {
        PreparedExactly(states, events, k - 1, w, t);
      }
    }
  }

  lemma ClaimPrepares(e: End, request: RequestId, t: TransferId)
    requires t in e.sources
    requires e.sources[t].prepared.Some? ==> e.sources[t].prepared.value < |e.preparations|
    ensures var after := OnClaim(e, request, t).0.preparations;
            if e.sources[t].prepared.None? then after == e.preparations + [Running(t, e.sources[t].tab, [request])]
            else |after| == |e.preparations|
  {
  }

  /** A claim makes its source prepare the tab exactly if it is the first one since the drag and the last cancel. */
  lemma PreparesExactly(states: seq<System>, events: seq<Event>, k: nat, w: Window, t: TransferId)
    requires Run(states, events) && k < |events| && Asks(states[k], events[k], w, t)
    ensures w in states[k + 1].ends
    ensures var e, after := states[k].ends[w], states[k + 1].ends[w].preparations;
            if AskedSince(states, events, k, w, t) then |after| == |e.preparations|
            else after == e.preparations + [Running(t, e.sources[t].tab, [events[k].packet.message.request])]
  {
    assert Next(states, events, k);
    RunWellFormed(states, events, k);
    SourceIsRegistered(states[k], w, t);
    PreparedExactly(states, events, k, w, t);
    WhereStepped(states[k], events[k], w);
    ClaimPrepares(states[k].ends[w], events[k].packet.message.request, t);
  }

  // ---- Every claim is answered -----------------------------------------------------------------------

  /** How often the claim waits for the preparation. */
  function Pending(p: Preparation, r: RequestId): nat
  {
    if p.Running? then multiset(p.waiting)[r] else 0
  }

  /** How often the claim waits for the first `k` preparations. */
  function Waiting(ps: seq<Preparation>, k: nat, r: RequestId): nat
    requires k <= |ps|
  {
    if k == 0 then 0 else Waiting(ps, k - 1, r) + Pending(ps[k - 1], r)
  }

  function WaitingIn(ps: seq<Preparation>, r: RequestId): nat
  {
    Waiting(ps, |ps|, r)
  }

  /** How many of the first `k` messages answer the claim. */
  function Answering(out: seq<Message>, k: nat, r: RequestId): nat
    requires k <= |out|
  {
    if k == 0 then 0
    else Answering(out, k - 1, r) + if out[k - 1].Offer? && out[k - 1].request == r then 1 else 0
  }

  function Answers(out: seq<Message>, r: RequestId): nat
  {
    Answering(out, |out|, r)
  }

  lemma {:induction false} WaitingSame(ps: seq<Preparation>, ps': seq<Preparation>, k: nat, r: RequestId)
    requires k <= |ps| && k <= |ps'| && forall i | 0 <= i < k :: ps'[i] == ps[i]
    ensures Waiting(ps', k, r) == Waiting(ps, k, r)
  {
    if k > 0 {
      WaitingSame(ps, ps', k - 1, r);
    }
  }

  lemma {:induction false} WaitingUpdate(ps: seq<Preparation>, ps': seq<Preparation>, n: nat, k: nat, r: RequestId)
    requires n < k <= |ps| == |ps'| && forall i | 0 <= i < |ps| && i != n :: ps'[i] == ps[i]
    ensures Waiting(ps', k, r) + Pending(ps[n], r) == Waiting(ps, k, r) + Pending(ps'[n], r)
  {
    if n == k - 1 {
      WaitingSame(ps, ps', n, r);
    } else {
      WaitingUpdate(ps, ps', n, k - 1, r);
    }
  }

  lemma WaitingAppend(ps: seq<Preparation>, p: Preparation, r: RequestId)
    ensures WaitingIn(ps + [p], r) == WaitingIn(ps, r) + Pending(p, r)
  {
    WaitingSame(ps, ps + [p], |ps|, r);
  }

  lemma {:induction false} AnswersAll(waiting: seq<RequestId>, out: seq<Message>, k: nat, r: RequestId)
    requires k <= |out| == |waiting| && forall i | 0 <= i < |out| :: out[i].Offer? && out[i].request == waiting[i]
    ensures Answering(out, k, r) == multiset(waiting[..k])[r]
  {
    if k > 0 {
      AnswersAll(waiting, out, k - 1, r);
      assert waiting[..k] == waiting[..k - 1] + [waiting[k - 1]];
    }
  }

  lemma {:induction false} AnswersNone(out: seq<Message>, k: nat, r: RequestId)
    requires k <= |out| && forall i | 0 <= i < |out| :: !out[i].Offer?
    ensures Answering(out, k, r) == 0
  {
    if k > 0 {
      AnswersNone(out, k - 1, r);
    }
  }

  lemma ClaimConserved(e: End, request: RequestId, t: TransferId, r: RequestId)
    ensures var (e', out) := OnClaim(e, request, t);
            WaitingIn(e'.preparations, r) + Answers(out, r)
            == WaitingIn(e.preparations, r) + if t in e.sources && r == request then 1 else 0
  {
    if t in e.sources {
      var s := e.sources[t];
      if s.prepared.None? || s.prepared.value >= |e.preparations| {
        WaitingAppend(e.preparations, Running(t, s.tab, [request]), r);
      } else if e.preparations[s.prepared.value].Running? {
        var n := s.prepared.value;
        WaitingUpdate(e.preparations, OnClaim(e, request, t).0.preparations, n, |e.preparations|, r);
      } else {
        assert Answering(OnClaim(e, request, t).1, 0, r) == 0;
      }
    }
  }

  lemma SettleConserved(e: End, n: nat, ready: bool, r: RequestId)
    requires n < |e.preparations| && e.preparations[n].Running?
    ensures var (e', out) := Settle(e, n, ready);
            WaitingIn(e'.preparations, r) + Answers(out, r) == WaitingIn(e.preparations, r)
  {
    var after, out, waiting := Settle(e, n, ready).0.preparations, Settle(e, n, ready).1, e.preparations[n].waiting;
    AnswersAll(waiting, out, |out|, r);
    assert waiting[..|out|] == waiting;
    WaitingUpdate(e.preparations, after, n, |after|, r);
  }

  lemma OtherMessage(e: End, m: Message)
    requires !m.Claim?
    ensures var (e', out) := TransferWindow.Handle(e, m);
            e'.preparations == e.preparations && forall i | 0 <= i < |out| :: !out[i].Offer?
  {
  }

  lemma MessageConserved(e: End, m: Message, r: RequestId)
    ensures var (e', out) := TransferWindow.Handle(e, m);
            WaitingIn(e'.preparations, r) + Answers(out, r)
            == WaitingIn(e.preparations, r) + if m.Claim? && m.transfer in e.sources && m.request == r then 1 else 0
  {
    if m.Claim? {
      ClaimConserved(e, m.request, m.transfer, r);
    } else {
      OtherMessage(e, m);
      AnswersNone(TransferWindow.Handle(e, m).1, |TransferWindow.Handle(e, m).1|, r);
    }
  }

  lemma OtherEvent(s: System, ev: Event)
    requires Enabled(s, ev) && !ev.Deliver? && !ev.Prepared?
    ensures Step(s, ev).ends[At(ev)].preparations == s.ends[At(ev)].preparations
    ensures forall i | 0 <= i < |Posts(s, ev)| :: !Posts(s, ev)[i].Offer?
  {
  }

  lemma OwnConserved(s: System, ev: Event, r: RequestId)
    requires Enabled(s, ev) && !ev.Deliver?
    ensures WaitingIn(Step(s, ev).ends[At(ev)].preparations, r) + Answers(Posts(s, ev), r)
         == WaitingIn(s.ends[At(ev)].preparations, r)
  {
    if ev.Prepared? {
      SettleConserved(s.ends[ev.w], ev.n, ev.ready, r);
    } else {
      OtherEvent(s, ev);
      AnswersNone(Posts(s, ev), |Posts(s, ev)|, r);
    }
  }

  /** The event brings the claim to its source in the window. */
  ghost predicate Brings(s: System, ev: Event, w: Window, r: RequestId)
  {
    && Hears(ev, w) && ev.packet.message.Claim? && ev.packet.message.request == r
    && w in s.ends && ev.packet.message.transfer in s.ends[w].sources
  }

  ghost function AnsweredAt(s: System, ev: Event, w: Window, r: RequestId): nat
  {
    if Enabled(s, ev) && At(ev) == w then Answers(Posts(s, ev), r) else 0
  }

  lemma StepConserved(s: System, ev: Event, w: Window, r: RequestId)
    requires Enabled(s, ev) && w in s.ends
    ensures w in Step(s, ev).ends
    ensures WaitingIn(Step(s, ev).ends[w].preparations, r) + AnsweredAt(s, ev, w, r)
         == WaitingIn(s.ends[w].preparations, r) + if Brings(s, ev, w, r) then 1 else 0
  {
    WhereStepped(s, ev, w);
    if Hears(ev, w) {
      MessageConserved(s.ends[w], ev.packet.message, r);
    } else if w == At(ev) {
      OwnConserved(s, ev, r);
    }
  }

  /** How often the claim has reached its source in the window. */
  ghost function Asked(states: seq<System>, events: seq<Event>, k: nat, w: Window, r: RequestId): nat
    requires |states| == |events| + 1 && k <= |events|
  {
    if k == 0 then 0
    else Asked(states, events, k - 1, w, r) + if Brings(states[k - 1], events[k - 1], w, r) then 1 else 0
  }

  /** How many offers the window has sent for the claim. */
  ghost function Answered(states: seq<System>, events: seq<Event>, k: nat, w: Window, r: RequestId): nat
    requires |states| == |events| + 1 && k <= |events|
  {
    if k == 0 then 0
    else Answered(states, events, k - 1, w, r) + AnsweredAt(states[k - 1], events[k - 1], w, r)
  }

  ghost predicate Conserved(states: seq<System>, events: seq<Event>, k: nat, w: Window, r: RequestId)
    requires |states| == |events| + 1 && k <= |events|
  {
    w in states[k].ends ==>
      Asked(states, events, k, w, r)
      == Answered(states, events, k, w, r) + WaitingIn(states[k].ends[w].preparations, r)
  }

  lemma ConservedNext(states: seq<System>, events: seq<Event>, i: nat, w: Window, r: RequestId)
    requires Run(states, events) && i < |events| && Conserved(states, events, i, w, r)
    ensures Conserved(states, events, i + 1, w, r)
  {
    assert Next(states, events, i);
    StepPosts(states[i], events[i]);
    if w in states[i].ends {
      StepConserved(states[i], events[i], w, r);
    }
  }

  lemma {:induction false} RunConserved(states: seq<System>, events: seq<Event>, k: nat, w: Window, r: RequestId)
    requires Run(states, events) && k < |states|
    ensures Conserved(states, events, k, w, r)
  {
    if k > 0 {
      RunConserved(states, events, k - 1, w, r);
      ConservedNext(states, events, k - 1, w, r);
    }
  }

  /**
   * In every run a claim is answered by as many offers as it reached its source, retries included,
   * save for those that still wait for the preparation.
   */
  lemma ClaimsAreConserved(states: seq<System>, events: seq<Event>, k: nat, w: Window, r: RequestId)
    requires Run(states, events) && k < |states| && w in states[k].ends
    ensures Asked(states, events, k, w, r)
         == Answered(states, events, k, w, r) + WaitingIn(states[k].ends[w].preparations, r)
  {
    RunConserved(states, events, k, w, r);
  }

  // ---- What is offered -------------------------------------------------------------------------------

  /**
   * An offer holds the tab exactly if its preparation succeeded while the tab was open; it goes to
   * those who waited, and to later claims as it was.
   */
  lemma OffersExactly(s: System, ev: Event, request: RequestId, t: TransferId, offered: Option<Tab>)
    requires Enabled(s, ev)
    ensures var e := s.ends[At(ev)];
            Offer(request, t, offered) in Posts(s, ev)
            <==> || (&& ev.Prepared? && e.preparations[ev.n].transfer == t && request in e.preparations[ev.n].waiting
                     && var tab := e.preparations[ev.n].tab;
                        offered == if ev.ready && tab in e.tabs then Some(tab) else None)
                 || (&& ev.Deliver? && ev.packet.message == Claim(request, t) && t in e.sources
                     && e.sources[t].prepared.Some?
                     && var n := e.sources[t].prepared.value;
                        n < |e.preparations| && e.preparations[n].Done? && e.preparations[n].offered == offered)
  {
    if ev.Prepared? {
      var p := s.ends[ev.w].preparations[ev.n];
      var out := Posts(s, ev);
      assert forall i | 0 <= i < |p.waiting| :: out[i].request == p.waiting[i];
    }
  }

  /** A finished preparation stays as it is, and offers the tab exactly if it was ready and open. */
  lemma PreparationExactly(s: System, ev: Event, w: Window, n: nat)
    requires Enabled(s, ev) && w in s.ends && n < |s.ends[w].preparations|
    ensures w in Step(s, ev).ends && n < |Step(s, ev).ends[w].preparations|
    ensures var p, p' := s.ends[w].preparations[n], Step(s, ev).ends[w].preparations[n];
            && p'.transfer == p.transfer && p'.tab == p.tab && (p.Done? ==> p' == p)
            && (p.Running? && p'.Running? ==> p.waiting <= p'.waiting)
            && (p.Running? ==> (p'.Done? <==> ev.Prepared? && ev.w == w && ev.n == n))
            && (p.Running? && p'.Done? ==>
                  p'.offered == if ev.ready && p.tab in s.ends[w].tabs then Some(p.tab) else None)
  {
    WhereStepped(s, ev, w);
    if Hears(ev, w) && ev.packet.message.Claim? {
      ClaimKeepsPreparation(s.ends[w], ev.packet.message.request, ev.packet.message.transfer, n);
    } else if w == At(ev) && !ev.Deliver? {
      OwnKeepsPreparation(s, ev, n);
    }
  }

  lemma ClaimKeepsPreparation(e: End, request: RequestId, t: TransferId, n: nat)
    requires n < |e.preparations|
    ensures var after := OnClaim(e, request, t).0.preparations;
            && n < |after| && (e.preparations[n].Done? ==> after[n] == e.preparations[n])
            && (e.preparations[n].Running? ==>
                  after[n] == e.preparations[n]
                      || after[n] == e.preparations[n].(waiting := e.preparations[n].waiting + [request]))
  {
  }

  lemma OwnKeepsPreparation(s: System, ev: Event, n: nat)
    requires Enabled(s, ev) && !ev.Deliver? && n < |s.ends[At(ev)].preparations|
    ensures var e, after := s.ends[At(ev)], Step(s, ev).ends[At(ev)].preparations;
            && n < |after|
            && (!(ev.Prepared? && ev.n == n) ==> after[n] == e.preparations[n])
            && (ev.Prepared? && ev.n == n ==>
                  var p := e.preparations[n];
                  after[n] == Done(p.transfer, p.tab, if ev.ready && p.tab in e.tabs then Some(p.tab) else None))
  {
  }
}
