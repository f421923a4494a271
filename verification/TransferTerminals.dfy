/**
 * Live terminals on the move: the source is told to close its tab when the new window is attached to
 * the server session, and to keep it when the socket closes first.
 */
module TransferTerminals {

  import opened Optional
  import opened TabTransfer
  import opened TransferOrder
  import TransferWindow

  /** A terminal that waits for its server session, adopted under the token. */
  ghost predicate Waits(e: End, tab: Tab, t: TransferId)
  {
    tab in e.attaching && tab in e.tabs && e.attaching[tab] == t
  }

  /** A packet was added to the bus. */
  ghost predicate Added(s: System, s': System, p: Packet)
  {
    s'.bus[p] > s.bus[p]
  }

  /** The arrival of an offer that the window adopts under the token. */
  ghost predicate Adopting(s: System, ev: Event, t: TransferId)
  {
    && ev.Deliver? && ev.packet.to in s.ends && ev.packet.message.Offer?
    && var e, m := s.ends[ev.packet.to], ev.packet.message;
       Adopts(e, m.request, m.offered) && e.claims[m.request].transfer == t
  }

  /** An offer of a tab that is there already. */
  ghost predicate Declining(s: System, ev: Event, t: TransferId)
  {
    && ev.Deliver? && ev.packet.to in s.ends && ev.packet.message.Offer?
    && var e, m := s.ends[ev.packet.to], ev.packet.message;
       && m.request in e.claims && e.claims[m.request].transfer == t
       && m.offered.Some? && !Adopts(e, m.request, m.offered)
  }

  /** The server session of a waiting terminal attached, or its socket closed first. */
  ghost predicate SessionEnds(s: System, ev: Event, t: TransferId, attached: bool)
  {
    ev.Session? && ev.w in s.ends && ev.attached == attached && Waits(s.ends[ev.w], ev.tab, t)
  }

  // ---- What is sent ----------------------------------------------------------------------------------

  lemma OfferSays(e: End, request: RequestId, offered: Option<Tab>, t: TransferId)
    ensures var out := OnOffer(e, request, offered).1;
            && (Complete(t) in out
                <==> Adopts(e, request, offered) && Reported(offered.value) && e.claims[request].transfer == t)
            && (Cancel(t) in out
                <==> && request in e.claims && offered.Some? && !Adopts(e, request, offered)
                     && e.claims[request].transfer == t)
  {
  }

  lemma DeliverySays(s: System, p: Packet, t: TransferId)
    requires Enabled(s, Deliver(p))
    ensures Complete(t) in Posts(s, Deliver(p))
       <==> Adopting(s, Deliver(p), t) && Reported(p.message.offered.value)
    ensures Cancel(t) in Posts(s, Deliver(p)) <==> Declining(s, Deliver(p), t)
  {
    match p.message {
      case Offer(request, _, offered) => OfferSays(s.ends[p.to], request, offered, t);
      case _ =>
    }
  }

  lemma SessionSays(e: End, tab: Tab, attached: bool, t: TransferId)
    ensures var out := Attach(e, tab, attached).1;
            && (Complete(t) in out <==> Waits(e, tab, t) && attached)
            && (Cancel(t) in out <==> Waits(e, tab, t) && !attached)
  {
  }

  lemma PreparedSays(e: End, n: nat, ready: bool, t: TransferId)
    requires n < |e.preparations| && e.preparations[n].Running?
    ensures Complete(t) !in Settle(e, n, ready).1 && Cancel(t) !in Settle(e, n, ready).1
  {
  }

  lemma OwnStepSays(s: System, ev: Event, t: TransferId)
    requires Enabled(s, ev) && !ev.Deliver?
    ensures Complete(t) in Posts(s, ev) <==> SessionEnds(s, ev, t, true)
    ensures Cancel(t) in Posts(s, ev)
       <==> || SessionEnds(s, ev, t, false)
            || (ev.TimeOut? && ev.request in s.ends[ev.w].claims && s.ends[ev.w].claims[ev.request].transfer == t)
  {
    match ev {
      case Session(w, tab, attached) => SessionSays(s.ends[w], tab, attached, t);
      case Prepared(w, n, ready) => PreparedSays(s.ends[w], n, ready, t);
      case _ =>
    }
  }

  lemma AddedIsPosted(s: System, ev: Event, v: Window, m: Message)
    requires Enabled(s, ev) && v in s.ends && v != At(ev)
    ensures Added(s, Step(s, ev), Packet(At(ev), v, m)) <==> m in Posts(s, ev)
  {
    var p := Packet(At(ev), v, m);
    StepPosts(s, ev);
    SentCount(s, At(ev), Posts(s, ev), p);
    assert ev.Deliver? ==> p != ev.packet;
    assert m in multiset(Posts(s, ev)) <==> m in Posts(s, ev);
  }

  /**
   * A step tells the other windows that a token is complete exactly if a live terminal's session
   * attached, or a tab of any other kind is adopted: for a live terminal not on adoption.
   */
  lemma CompletesExactly(s: System, ev: Event, v: Window, t: TransferId)
    requires Enabled(s, ev) && v in s.ends && v != At(ev)
    ensures Added(s, Step(s, ev), Packet(At(ev), v, Complete(t)))
       <==> || SessionEnds(s, ev, t, true)
            || (Adopting(s, ev, t) && Reported(ev.packet.message.offered.value))
  {
    AddedIsPosted(s, ev, v, Complete(t));
    if ev.Deliver? {
      DeliverySays(s, ev.packet, t);
    } else {
      OwnStepSays(s, ev, t);
    }
  }

  /** It cancels one exactly if the socket closed first, a claim timed out, or the tab is there already. */
  lemma CancelsExactly(s: System, ev: Event, v: Window, t: TransferId)
    requires Enabled(s, ev) && v in s.ends && v != At(ev)
    ensures Added(s, Step(s, ev), Packet(At(ev), v, Cancel(t)))
       <==> || SessionEnds(s, ev, t, false)
            || (ev.TimeOut? && ev.request in s.ends[ev.w].claims && s.ends[ev.w].claims[ev.request].transfer == t)
            || Declining(s, ev, t)
  {
    AddedIsPosted(s, ev, v, Cancel(t));
    if ev.Deliver? {
      DeliverySays(s, ev.packet, t);
    } else {
      OwnStepSays(s, ev, t);
    }
  }

  // ---- Who waits -------------------------------------------------------------------------------------

  /** A waiting terminal belongs to its token and comes from another window. */
  ghost predicate WaitOk(s: System, w: Window, tab: Tab, t: TransferId)
  {
    !Reported(tab) && t in s.registry && s.registry[t].tab == tab && s.registry[t].window != w
  }

  ghost predicate WaitingOk(s: System)
  {
    forall w, tab | w in s.ends && tab in s.ends[w].attaching :: WaitOk(s, w, tab, s.ends[w].attaching[tab])
  }

  lemma DeliveredWaits(e: End, m: Message, tab: Tab)
    requires tab in TransferWindow.Handle(e, m).0.attaching
    ensures var t := TransferWindow.Handle(e, m).0.attaching[tab];
            || (tab in e.attaching && e.attaching[tab] == t)
            || (m.Offer? && Adopts(e, m.request, m.offered) && e.claims[m.request].transfer == t
                && m.offered == Some(tab) && !Reported(tab))
  {
  }

  lemma OwnStepWaits(s: System, ev: Event, tab: Tab)
    requires Enabled(s, ev) && !ev.Deliver? && tab in Step(s, ev).ends[At(ev)].attaching
    ensures tab in s.ends[At(ev)].attaching && Step(s, ev).ends[At(ev)].attaching[tab] == s.ends[At(ev)].attaching[tab]
    ensures ev.Session? && ev.tab in s.ends[At(ev)].tabs ==> tab != ev.tab
  {
  }

  /** A step makes a terminal wait only by adopting it. */
  lemma WaitsBefore(s: System, ev: Event, w: Window, tab: Tab)
    requires Enabled(s, ev) && w in s.ends && tab in Step(s, ev).ends[w].attaching
    ensures var t := Step(s, ev).ends[w].attaching[tab];
            || (tab in s.ends[w].attaching && s.ends[w].attaching[tab] == t)
            || (Adopting(s, ev, t) && ev.packet.to == w && ev.packet.message.offered == Some(tab) && !Reported(tab))
  {
    if ev.Deliver? {
      DeliveryKeeps(s, ev.packet);
      if ev.packet.to == w {
        DeliveredWaits(s.ends[w], ev.packet.message, tab);
      }
    } else {
      ActPosts(s, ev);
      if At(ev) == w {
        OwnStepWaits(s, ev, tab);
      }
    }
  }

  lemma RegistryGrows(s: System, ev: Event)
    requires Enabled(s, ev)
    ensures forall t | t in s.registry :: t in Step(s, ev).registry && Step(s, ev).registry[t] == s.registry[t]
  {
  }

  /** An adopted tab belongs to its token, and the offer came from elsewhere. */
  lemma AdoptingFrom(s: System, ev: Event, t: TransferId)
    requires WellFormed(s) && Travels(s) && Enabled(s, ev) && Adopting(s, ev, t)
    ensures t in s.registry && s.registry[t].tab == ev.packet.message.offered.value
    ensures s.registry[t].window != ev.packet.to && ev.packet.message.transfer == t
  {
    assert Away(s, ev.packet) && MessageOk(s, ev.packet.message);
    OffersExpected(s, ev.packet.to, ev.packet.message);
  }

  lemma StepWaitingOk(s: System, ev: Event)
    requires WellFormed(s) && Travels(s) && WaitingOk(s) && Enabled(s, ev)
    ensures WaitingOk(Step(s, ev))
  {
    var s' := Step(s, ev);
    RegistryGrows(s, ev);
    StepPosts(s, ev);
    forall w, tab | w in s'.ends && tab in s'.ends[w].attaching
      ensures WaitOk(s', w, tab, s'.ends[w].attaching[tab])
    {
      var t := s'.ends[w].attaching[tab];
      WaitsBefore(s, ev, w, tab);
      assert tab in s.ends[w].attaching ==> WaitOk(s, w, tab, s.ends[w].attaching[tab]);
      if Adopting(s, ev, t) {
        AdoptingFrom(s, ev, t);
      }
    }
  }

  lemma InitialWaitingOk(s: System)
    requires Initial(s)
    ensures WaitingOk(s)
  {
  }

  lemma NextWaitingOk(states: seq<System>, events: seq<Event>, i: nat)
    requires |states| == |events| + 1 && i < |events| && Next(states, events, i)
    requires WellFormed(states[i]) && Travels(states[i]) && WaitingOk(states[i])
    ensures WaitingOk(states[i + 1])
  {
    StepWaitingOk(states[i], events[i]);
  }

  lemma {:induction false} RunWaitingOk(states: seq<System>, events: seq<Event>, k: nat)
    requires Run(states, events) && k < |states|
    ensures WaitingOk(states[k])
  {
    if k > 0 {
      RunWaitingOk(states, events, k - 1);
      RunSound(states, events, k - 1);
      NextWaitingOk(states, events, k - 1);
    } else {
      InitialWaitingOk(states[0]);
    }
  }

  // ---- An attached terminal ----------------------------------------------------------------------------

  /** The source has heard of the adoption, or is about to. */
  ghost predicate Announced(s: System, t: TransferId)
  {
    t in s.registry && (Active(s, t) ==> OnItsWay(s, s.registry[t].window, Complete(t)))
  }

  lemma HandledSources(e: End, m: Message)
    ensures var e' := TransferWindow.Handle(e, m).0;
            e'.sources.Keys <= e.sources.Keys && (m.Complete? ==> m.transfer !in e'.sources)
  {
  }

  lemma OwnSources(s: System, ev: Event, t: TransferId)
    requires Enabled(s, ev) && !ev.Deliver? && t in Step(s, ev).ends[At(ev)].sources
    ensures t in s.ends[At(ev)].sources || (ev.Drag? && ev.t == t)
  {
  }

  lemma SourcesShrink(s: System, ev: Event, t: TransferId)
    requires Enabled(s, ev) && t in s.registry && Active(Step(s, ev), t)
    ensures Active(s, t)
    ensures ev.Deliver? && ev.packet.message == Complete(t) ==> ev.packet.to != s.registry[t].window
  {
    RegistryGrows(s, ev);
    var home := s.registry[t].window;
    if ev.Deliver? {
      DeliveryKeeps(s, ev.packet);
      HandledSources(s.ends[ev.packet.to], ev.packet.message);
    } else {
      ActPosts(s, ev);
      if home == At(ev) {
        OwnSources(s, ev, t);
      }
    }
  }

  lemma StepAnnounced(s: System, ev: Event, t: TransferId)
    requires Enabled(s, ev) && Announced(s, t)
    ensures Announced(Step(s, ev), t)
  {
    RegistryGrows(s, ev);
    if Active(Step(s, ev), t) {
      SourcesShrink(s, ev, t);
      BusGrows(s, ev);
      var p :| p in s.bus && p.to == s.registry[t].window && p.message == Complete(t);
      assert p in Step(s, ev).bus;
    }
  }

  lemma AttachedAnnounces(s: System, ev: Event, t: TransferId)
    requires WaitingOk(s) && Enabled(s, ev) && SessionEnds(s, ev, t, true)
    ensures Announced(Step(s, ev), t)
  {
    RegistryGrows(s, ev);
    assert WaitOk(s, ev.w, ev.tab, t);
    if Active(Step(s, ev), t) {
      SourcesShrink(s, ev, t);
      var home := s.registry[t].window;
      CompletesExactly(s, ev, home, t);
      assert Packet(ev.w, home, Complete(t)) in Step(s, ev).bus;
    }
  }

  lemma {:induction false} StaysAnnounced(states: seq<System>, events: seq<Event>, j: nat, k: nat, t: TransferId)
    requires Run(states, events) && j < k < |states| && SessionEnds(states[j], events[j], t, true)
    ensures Announced(states[k], t)
    decreases k
  {
    assert Next(states, events, k - 1);
    if j == k - 1 {
      RunWaitingOk(states, events, j);
      AttachedAnnounces(states[j], events[j], t);
    } else {
      StaysAnnounced(states, events, j, k - 1, t);
      StepAnnounced(states[k - 1], events[k - 1], t);
    }
  }

  /**
   * A docked tab that was adopted once and whose session attached is open in the adopting window and
   * nowhere else, once every `complete` of its token has arrived and unless the token ran out first.
   */
  lemma AttachedMoves(states: seq<System>, events: seq<Event>, j: nat, k: nat, tab: Tab, i: nat)
    requires Run(states, events) && j < k < |states| && Present(states[k], tab) && tab.surface == Dock
    requires AdoptionsOf(states[k], tab) == {i} && i < |states[k].adoptions|
    requires SessionEnds(states[j], events[j], states[k].adoptions[i].transfer, true)
    requires states[k].adoptions[i].transfer !in states[k].retired
    requires forall p | p in states[k].bus :: p.message != Complete(states[k].adoptions[i].transfer)
    ensures Holders(states[k], tab) == {states[k].adoptions[i].window}
  {
    StaysAnnounced(states, events, j, k, states[k].adoptions[i].transfer);
    RunOneWay(states, events, k, tab);
    RunTokensEnd(states, events, k);
    assert states[k].adoptions[i].transfer in states[k].completed;
  }

  // ---- A terminal whose socket closed first --------------------------------------------------------------

  ghost predicate Unreported(s: System, t: TransferId)
  {
    t !in s.completed && forall p | p in s.bus :: p.message != Complete(t)
  }

  /** While the terminal waits, it waits in the window that adopted it, and nothing was reported. */
  ghost predicate WaitsQuietly(s: System, t: TransferId, w: Window)
  {
    forall u, tab | u in s.ends && tab in s.ends[u].attaching && s.ends[u].attaching[tab] == t :: u == w
        && Unreported(s, t)
  }

  ghost predicate NobodyWaits(s: System, t: TransferId)
  {
    forall u, tab | u in s.ends && tab in s.ends[u].attaching :: s.ends[u].attaching[tab] != t
  }

  lemma NewOnBus(s: System, ev: Event, p: Packet)
    requires Enabled(s, ev) && p in Step(s, ev).bus && p !in s.bus
    ensures p.from == At(ev) && p.to in s.ends && p.to != At(ev) && Added(s, Step(s, ev), p)
  {
    StepPosts(s, ev);
    SentCount(s, At(ev), Posts(s, ev), p);
  }

  lemma CompletedNow(s: System, ev: Event, t: TransferId)
    requires Enabled(s, ev) && t in Step(s, ev).completed && t !in s.completed
    ensures ev.Deliver? && ev.packet.message == Complete(t)
  {
  }

  lemma StaysUnreported(s: System, ev: Event, t: TransferId)
    requires Enabled(s, ev) && Unreported(s, t) && !SessionEnds(s, ev, t, true)
    requires Adopting(s, ev, t) ==> !Reported(ev.packet.message.offered.value)
    ensures Unreported(Step(s, ev), t)
  {
    forall p | p in Step(s, ev).bus ensures p.message != Complete(t) {
      if p.message == Complete(t) {
        NewOnBus(s, ev, p);
        CompletesExactly(s, ev, p.to, t);
      }
    }
    if t in Step(s, ev).completed {
      CompletedNow(s, ev, t);
    }
  }

  /** After its session ended, the terminal does not wait any more. */
  lemma SessionEndsWaiting(s: System, ev: Event, t: TransferId, attached: bool, w: Window, tab: Tab)
    requires WaitingOk(s) && Enabled(s, ev) && SessionEnds(s, ev, t, attached) && w == ev.w
    requires tab in Step(s, ev).ends[w].attaching
    ensures Step(s, ev).ends[w].attaching[tab] != t
  {
    OwnStepWaits(s, ev, tab);
    assert WaitOk(s, w, ev.tab, t) && WaitOk(s, w, tab, s.ends[w].attaching[tab]);
  }

  lemma StaysWaiting(s: System, ev: Event, t: TransferId, w: Window)
    requires WaitingOk(s) && WaitsQuietly(s, t, w) && Enabled(s, ev) && !Adopting(s, ev, t)
    ensures WaitsQuietly(Step(s, ev), t, w)
  {
    var s' := Step(s, ev);
    StepPosts(s, ev);
    forall u, tab | u in s'.ends && tab in s'.ends[u].attaching && s'.ends[u].attaching[tab] == t
      ensures u == w && Unreported(s', t)
    {
      WaitsBefore(s, ev, u, tab);
      assert u == w && Unreported(s, t);
      if SessionEnds(s, ev, t, true) {
        assert ev.w == w;
        SessionEndsWaiting(s, ev, t, true, w, tab);
      }
      StaysUnreported(s, ev, t);
    }
  }

  /** Before its first adoption nobody has heard of a token. */
  lemma NotAdoptedIsSilent(s: System, t: TransferId)
    requires WellFormed(s) && TokensEnd(s) && t !in Adopted(s)
    ensures Unreported(s, t) && NobodyWaits(s, t)
  {
    forall u, tab | u in s.ends && tab in s.ends[u].attaching ensures s.ends[u].attaching[tab] != t {
      assert EndOk(s, u, s.ends[u]);
    }
  }

  lemma StartsWaiting(s: System, ev: Event, t: TransferId)
    requires Enabled(s, ev) && Adopting(s, ev, t) && !Reported(ev.packet.message.offered.value)
    requires Unreported(s, t) && NobodyWaits(s, t)
    ensures WaitsQuietly(Step(s, ev), t, ev.packet.to)
  {
    var s' := Step(s, ev);
    StepPosts(s, ev);
    StaysUnreported(s, ev, t);
    forall u, tab | u in s'.ends && tab in s'.ends[u].attaching && s'.ends[u].attaching[tab] == t
      ensures u == ev.packet.to
    {
      WaitsBefore(s, ev, u, tab);
    }
  }

  /** A step adopts at most one tab, and only when an offer arrives. */
  lemma AdoptionsAfter(s: System, ev: Event)
    requires Enabled(s, ev)
    ensures || Step(s, ev).adoptions == s.adoptions
            || (exists t :: Adopting(s, ev, t)
                  && Step(s, ev).adoptions == s.adoptions
                       + [Adoption(ev.packet.message.offered.value, t, ev.packet.to)])
    ensures forall t | Adopting(s, ev, t) ::
              Step(s, ev).adoptions == s.adoptions + [Adoption(ev.packet.message.offered.value, t, ev.packet.to)]
  {
  }

  lemma {:induction false} AdoptionsGrow(states: seq<System>, events: seq<Event>, m: nat, k: nat)
    requires Run(states, events) && m <= k < |states|
    ensures states[m].adoptions <= states[k].adoptions
    ensures forall t | t in states[m].registry ::
            t in states[k].registry
            && states[k].registry[t] == states[m].registry[t]
    decreases k
  {
    if m < k {
      AdoptionsGrow(states, events, m, k - 1);
      assert Next(states, events, k - 1);
      AdoptionsAfter(states[k - 1], events[k - 1]);
      RegistryGrows(states[k - 1], events[k - 1]);
    }
  }

  lemma OnlyOne(s: System, s': System, tab: Tab, i: nat)
    requires s.adoptions <= s'.adoptions && AdoptionsOf(s', tab) == {i}
    ensures AdoptionsOf(s, tab) == {}
            || (AdoptionsOf(s, tab) == {i} && i < |s.adoptions| && s.adoptions[i] == s'.adoptions[i])
  {
    assert AdoptionsOf(s, tab) <= AdoptionsOf(s', tab);
    assert i in AdoptionsOf(s', tab);
    if n :| n in AdoptionsOf(s, tab) {
      assert n in {i};
    }
  }

  lemma AdoptingCounts(s: System, ev: Event, t: TransferId)
    requires Sound(s) && Enabled(s, ev) && Adopting(s, ev, t)
    ensures t in s.registry && |s.adoptions| in AdoptionsOf(Step(s, ev), s.registry[t].tab)
  {
    AdoptingFrom(s, ev, t);
    AdoptionsAfter(s, ev);
  }

  /** Another adoption of the token's tab would be a second one. */
  lemma NotAgain(s: System, ev: Event, t: TransferId, i: nat)
    requires Sound(s) && Enabled(s, ev) && t in s.registry && i in AdoptionsOf(s, s.registry[t].tab)
    requires AdoptionsOf(Step(s, ev), s.registry[t].tab) == {i}
    ensures !Adopting(s, ev, t)
  {
    if Adopting(s, ev, t) {
      AdoptingCounts(s, ev, t);
    }
  }

  lemma AdoptedNow(s: System, ev: Event, tab: Tab, i: nat)
    requires Sound(s) && TokensEnd(s) && Enabled(s, ev) && !Reported(tab)
    requires AdoptionsOf(s, tab) == {} && AdoptionsOf(Step(s, ev), tab) == {i} && i < |Step(s, ev).adoptions|
    ensures var a := Step(s, ev).adoptions[i]; WaitsQuietly(Step(s, ev), a.transfer, a.window)
  {
    AdoptionsAfter(s, ev);
    assert i in AdoptionsOf(Step(s, ev), tab);
    assert i < |s.adoptions| ==> i in AdoptionsOf(s, tab);
    var t := Step(s, ev).adoptions[i].transfer;
    assert Adopting(s, ev, t);
    AdoptingFrom(s, ev, t);
    assert t !in Adopted(s) by { if t in Adopted(s) { AdoptedCounts(s, t); } }
    NotAdoptedIsSilent(s, t);
    StartsWaiting(s, ev, t);
  }

  lemma AdoptedBefore(s: System, ev: Event, tab: Tab, i: nat)
    requires Sound(s) && WaitingOk(s) && Enabled(s, ev) && i < |s.adoptions|
    requires AdoptionsOf(s, tab) == {i} && AdoptionsOf(Step(s, ev), tab) == {i}
    requires WaitsQuietly(s, s.adoptions[i].transfer, s.adoptions[i].window)
    ensures WaitsQuietly(Step(s, ev), s.adoptions[i].transfer, s.adoptions[i].window)
  {
    assert i in AdoptionsOf(s, tab) && s.adoptions[i] in s.adoptions;
    assert TokensOk(s);
    NotAgain(s, ev, s.adoptions[i].transfer, i);
    StaysWaiting(s, ev, s.adoptions[i].transfer, s.adoptions[i].window);
  }

  /** If adoption `i` is the only one of the tab, its terminal waits quietly. */
  ghost predicate WaitsIfOnly(s: System, tab: Tab, i: nat)
  {
    AdoptionsOf(s, tab) == {i} && i < |s.adoptions| ==>
      WaitsQuietly(s, s.adoptions[i].transfer, s.adoptions[i].window)
  }

  lemma WaitsNext(s: System, ev: Event, tab: Tab, i: nat)
    requires Sound(s) && TokensEnd(s) && WaitingOk(s) && Enabled(s, ev) && !Reported(tab)
    requires WaitsIfOnly(s, tab, i)
    ensures WaitsIfOnly(Step(s, ev), tab, i)
  {
    if AdoptionsOf(Step(s, ev), tab) == {i} && i < |Step(s, ev).adoptions| {
      AdoptionsAfter(s, ev);
      OnlyOne(s, Step(s, ev), tab, i);
      if AdoptionsOf(s, tab) == {i} {
        AdoptedBefore(s, ev, tab, i);
      } else {
        AdoptedNow(s, ev, tab, i);
      }
    }
  }

  lemma {:induction false} RunWaits(states: seq<System>, events: seq<Event>, k: nat, tab: Tab, i: nat)
    requires Run(states, events) && k < |states| && !Reported(tab)
    ensures WaitsIfOnly(states[k], tab, i)
  {
    if k > 0 {
      assert Next(states, events, k - 1);
      RunSound(states, events, k - 1);
      RunTokensEnd(states, events, k - 1);
      RunWaitingOk(states, events, k - 1);
      RunWaits(states, events, k - 1, tab, i);
      WaitsNext(states[k - 1], events[k - 1], tab, i);
    }
  }

  lemma DropsSilently(s: System, ev: Event, t: TransferId, w: Window)
    requires WaitingOk(s) && WaitsQuietly(s, t, w) && Enabled(s, ev) && SessionEnds(s, ev, t, false)
    ensures Unreported(Step(s, ev), t) && NobodyWaits(Step(s, ev), t)
  {
    var s' := Step(s, ev);
    StepPosts(s, ev);
    StaysUnreported(s, ev, t);
    forall u, tab | u in s'.ends && tab in s'.ends[u].attaching ensures s'.ends[u].attaching[tab] != t {
      WaitsBefore(s, ev, u, tab);
      if s'.ends[u].attaching[tab] == t {
        assert u == w == ev.w;
        SessionEndsWaiting(s, ev, t, false, w, tab);
      }
    }
  }

  lemma StaysSilent(s: System, ev: Event, t: TransferId)
    requires Enabled(s, ev) && Unreported(s, t) && NobodyWaits(s, t) && !Adopting(s, ev, t)
    ensures Unreported(Step(s, ev), t) && NobodyWaits(Step(s, ev), t)
  {
    var s' := Step(s, ev);
    StepPosts(s, ev);
    StaysUnreported(s, ev, t);
    forall u, tab | u in s'.ends && tab in s'.ends[u].attaching ensures s'.ends[u].attaching[tab] != t {
      WaitsBefore(s, ev, u, tab);
    }
  }

  /** The only adoption of the tab is older than the terminal's session. */
  lemma AdoptedWhenWaiting(s: System, s': System, ev: Event, tab: Tab, i: nat)
    requires Sound(s) && WaitingOk(s) && s.adoptions <= s'.adoptions && AdoptionsOf(s', tab) == {i}
             && i < |s'.adoptions|
    requires SessionEnds(s, ev, s'.adoptions[i].transfer, false)
    requires forall t | t in s.registry :: t in s'.registry && s'.registry[t] == s.registry[t]
    requires TokensOk(s')
    ensures AdoptionsOf(s, tab) == {i} && i < |s.adoptions| && s.adoptions[i] == s'.adoptions[i] && !Reported(tab)
    ensures var t := s'.adoptions[i].transfer; t in s.registry && s.registry[t].tab == tab
  {
    var t := s'.adoptions[i].transfer;
    assert i in AdoptionsOf(s', tab) && s'.adoptions[i] in s'.adoptions;
    assert t in Adopted(s) by { assert EndOk(s, ev.w, s.ends[ev.w]); }
    AdoptedCounts(s, t);
    assert WaitOk(s, ev.w, ev.tab, t);
    OnlyOne(s, s', tab, i);
  }

  ghost predicate Silent(s: System, t: TransferId)
  {
    Unreported(s, t) && NobodyWaits(s, t)
  }

  lemma {:induction false} StaysSilentUntil(states: seq<System>, events: seq<Event>, j: nat, k: nat, t: TransferId,
                                            i: nat)
    requires Run(states, events) && j <= k < |states| && Silent(states[j], t) && t in states[j].registry
    requires i in AdoptionsOf(states[j], states[j].registry[t].tab)
    requires AdoptionsOf(states[k], states[j].registry[t].tab) == {i}
    ensures Silent(states[k], t)
    decreases k
  {
    if j < k {
      var s := states[k - 1];
      assert Next(states, events, k - 1);
      AdoptionsGrow(states, events, j, k - 1);
      AdoptionsGrow(states, events, k - 1, k);
      assert i in AdoptionsOf(s, s.registry[t].tab);
      OnlyOne(s, states[k], s.registry[t].tab, i);
      StaysSilentUntil(states, events, j, k - 1, t, i);
      RunSound(states, events, k - 1);
      NotAgain(s, events[k - 1], t, i);
      StaysSilent(s, events[k - 1], t);
    }
  }

  lemma DroppedNow(states: seq<System>, events: seq<Event>, j: nat, tab: Tab, i: nat, t: TransferId)
    requires Run(states, events) && j < |events| && !Reported(tab) && SessionEnds(states[j], events[j], t, false)
    requires AdoptionsOf(states[j], tab) == {i} && i < |states[j].adoptions| && states[j].adoptions[i].transfer == t
    ensures Silent(states[j + 1], t) && states[j + 1].adoptions == states[j].adoptions
    ensures states[j + 1].registry == states[j].registry
  {
    assert Next(states, events, j);
    RunWaitingOk(states, events, j);
    RunWaits(states, events, j, tab, i);
    DropsSilently(states[j], events[j], t, states[j].adoptions[i].window);
    QuietEvent(states[j], events[j]);
  }

  lemma DroppedIsSilent(states: seq<System>, events: seq<Event>, j: nat, k: nat, tab: Tab, i: nat)
    requires Run(states, events) && j < k < |states|
    requires AdoptionsOf(states[k], tab) == {i} && i < |states[k].adoptions|
    requires SessionEnds(states[j], events[j], states[k].adoptions[i].transfer, false)
    ensures Unreported(states[k], states[k].adoptions[i].transfer)
  {
    var t := states[k].adoptions[i].transfer;
    RunSound(states, events, j);
    RunSound(states, events, k);
    RunWaitingOk(states, events, j);
    AdoptionsGrow(states, events, j, k);
    AdoptedWhenWaiting(states[j], states[k], events[j], tab, i);
    DroppedNow(states, events, j, tab, i, t);
    assert i in AdoptionsOf(states[j], tab);
    assert i in AdoptionsOf(states[j + 1], tab);
    StaysSilentUntil(states, events, j + 1, k, t, i);
  }

  /**
   * A terminal that was adopted once and whose socket closed before its session was up stays open at
   * its source, whatever else happens.
   */
  lemma DroppedStays(states: seq<System>, events: seq<Event>, j: nat, k: nat, tab: Tab, i: nat)
    requires Run(states, events) && j < k < |states| && Present(states[k], tab) && tab.surface == Dock
    requires AdoptionsOf(states[k], tab) == {i} && i < |states[k].adoptions|
    requires SessionEnds(states[j], events[j], states[k].adoptions[i].transfer, false)
    ensures var a := states[k].adoptions[i];
            && a.transfer in states[k].registry && a.transfer !in states[k].completed
            && Holders(states[k], tab) == {states[k].registry[a.transfer].window, a.window}
  {
    DroppedIsSilent(states, events, j, k, tab, i);
    RunOneWay(states, events, k, tab);
    assert OneWay(states[k], tab);
  }
}
