/**
 * Handing a tab from one window to another over a broadcast channel: the message handlers of one
 * window, the system of all windows, and why a tab is never lost on the way.
 */
module TabTransfer {

  type Window = nat
  type TransferId = string
  type RequestId = string

  import opened Optional

  datatype Surface = Page | Dock

  /** A tab's identity; `live` marks a terminal whose server session moves along. */
  datatype Tab = Tab(id: string, surface: Surface, live: bool)

  datatype Message =
    | Claim(request: RequestId, transfer: TransferId)
    | Offer(request: RequestId, transfer: TransferId, offered: Option<Tab>)
    | Cancel(transfer: TransferId)
    | Complete(transfer: TransferId)

  /** A registered source; `prepared` names the preparation its offers come from. */
  datatype Source = Source(tab: Tab, prepared: Option<nat>)

  datatype Preparation =
    | Running(transfer: TransferId, tab: Tab, waiting: seq<RequestId>)
    | Done(transfer: TransferId, tab: Tab, offered: Option<Tab>)

  datatype ClaimInfo = ClaimInfo(transfer: TransferId, replacePlaceholder: bool)

  /** One window: its tabs and the module state of its end of the channel. */
  datatype End = End(
    tabs: set<Tab>,
    sources: map<TransferId, Source>,
    claims: map<RequestId, ClaimInfo>,
    preparations: seq<Preparation>,
    attaching: map<Tab, TransferId>,   // adopted terminals that wait for their server session
    resolved: multiset<RequestId>,     // how often each claim was answered
    prepares: multiset<TransferId>)    // how often `prepare` ran since the source was last cancelled

  const NEW_END := End({}, map[], map[], [], map[], multiset{}, multiset{})

  // ---- The handlers of one window ------------------------------------------------------------

  function Register(e: End, t: TransferId, tab: Tab): End
  {
    e.(sources := e.sources[t := Source(tab, None)])
  }

  function OnClaim(e: End, request: RequestId, t: TransferId): (End, seq<Message>)
  {
    if t !in e.sources then (e, [])
    else
      var s := e.sources[t];
      if s.prepared.None? || s.prepared.value >= |e.preparations| then
        (e.(sources := e.sources[t := s.(prepared := Some(|e.preparations|))],
            preparations := e.preparations + [Running(t, s.tab, [request])],
            prepares := e.prepares + multiset{t}),
         [])
      else
        var p := e.preparations[s.prepared.value];
        if p.Done? then (e, [Offer(request, t, p.offered)])
        else (e.(preparations := e.preparations[s.prepared.value := p.(waiting := p.waiting + [request])]), [])
  }

  /** A preparation settles: everyone waiting for it gets the same offer. */
  function Settle(e: End, n: nat, ready: bool): (End, seq<Message>)
    requires n < |e.preparations| && e.preparations[n].Running?
  {
    var p := e.preparations[n];
    var offered := if ready && p.tab in e.tabs then Some(p.tab) else None;
    (e.(preparations := e.preparations[n := Done(p.transfer, p.tab, offered)]),
     seq(|p.waiting|, i requires 0 <= i < |p.waiting| => Offer(p.waiting[i], p.transfer, offered)))
  }

  function Pages(tabs: set<Tab>): set<Tab>
  {
    set t | t in tabs && t.surface == Page
  }

  /** The tabs an adopted tab is inserted into. */
  function AdoptInto(e: End, tab: Tab, replacePlaceholder: bool): set<Tab>
  {
    if tab.surface == Page && replacePlaceholder then e.tabs - Pages(e.tabs) else e.tabs
  }

  /** Inserts an offered tab; a terminal is reported complete only once its session is attached. */
  function Adopt(e: End, tab: Tab, claim: ClaimInfo): (End, seq<Message>)
  {
    var into := AdoptInto(e, tab, claim.replacePlaceholder);
    if tab in into then (e.(tabs := into), [Cancel(claim.transfer)])
    else if tab.surface == Dock && tab.live then
      (e.(tabs := into + {tab}, attaching := e.attaching[tab := claim.transfer]), [])
    else
      (e.(tabs := into + {tab}), [Complete(claim.transfer)])
  }

  function Answer(e: End, request: RequestId): End
  {
    e.(claims := e.claims - {request}, resolved := e.resolved + multiset{request})
  }

  function OnOffer(e: End, request: RequestId, offered: Option<Tab>): (End, seq<Message>)
  {
    if request !in e.claims then (e, [])
    else if offered.None? then (Answer(e, request), [])
    else Adopt(Answer(e, request), offered.value, e.claims[request])
  }

  function OnCancel(e: End, t: TransferId): End
  {
    if t !in e.sources then e
    else e.(sources := e.sources[t := e.sources[t].(prepared := None)], prepares := e.prepares[t := 0])
  }

  function OnComplete(e: End, t: TransferId): End
  {
    if t !in e.sources then e
    else
      var tab := e.sources[t].tab;
      e.(sources := e.sources - {t}, tabs := e.tabs - {tab}, attaching := e.attaching - {tab})
  }

  /** The source's time is up, or a local drop retired the token. */
  function Retire(e: End, t: TransferId): End
  {
    e.(sources := e.sources - {t})
  }

  function StartClaim(e: End, request: RequestId, t: TransferId, replacePlaceholder: bool): (End, seq<Message>)
  {
    (e.(claims := e.claims[request := ClaimInfo(t, replacePlaceholder)]), [Claim(request, t)])
  }

  /** Every 250 ms until the claim is settled. */
  function RetryClaim(e: End, request: RequestId): seq<Message>
  {
    if request in e.claims then [Claim(request, e.claims[request].transfer)] else []
  }

  function ClaimTimeout(e: End, request: RequestId): (End, seq<Message>)
  {
    if request !in e.claims then (e, [])
    else
      (Answer(e, request), [Cancel(e.claims[request].transfer)])
  }

  /** The server session of an adopted terminal is up, or its socket closed first. */
  function Attach(e: End, tab: Tab, attached: bool): (End, seq<Message>)
  {
    if tab !in e.attaching || tab !in e.tabs then (e, [])
    else
      (e.(attaching := e.attaching - {tab}),
       [if attached then Complete(e.attaching[tab]) else Cancel(e.attaching[tab])])
  }

  // ---- All windows -----------------------------------------------------------------------------

  datatype Packet = Packet(from: Window, to: Window, message: Message)

  datatype Registration = Registration(window: Window, tab: Tab)

  datatype Request = Request(window: Window, transfer: TransferId)

  datatype Adoption = Adoption(tab: Tab, transfer: TransferId, window: Window)

  /**
   * The bus holds what is still to be delivered, in no particular order. The remaining fields are
   * history: which tokens were ever registered and who ever claimed one, who adopted what, which
   * tokens were completed or retired, and which tabs exist or were closed by a user. The blank tab
   * every new window starts with is not among the tabs.
   */
  datatype System = System(
    ends: map<Window, End>,
    bus: multiset<Packet>,
    registry: map<TransferId, Registration>,
    requests: map<RequestId, Request>,
    adoptions: seq<Adoption>,
    completed: set<TransferId>,
    retired: set<TransferId>,
    tabs: set<Tab>,
    closed: set<Tab>)

  datatype Event =
    | Open(w: Window, tab: Tab)
    | Close(w: Window, tab: Tab)
    | Drag(w: Window, t: TransferId, tab: Tab)
    | Drop(w: Window, request: RequestId, t: TransferId, replacePlaceholder: bool)
    | Retry(w: Window, request: RequestId)
    | TimeOut(w: Window, request: RequestId)
    | Expire(w: Window, t: TransferId)
    | Prepared(w: Window, n: nat, ready: bool)
    | Session(w: Window, tab: Tab, attached: bool)
    | Deliver(packet: Packet)

  ghost predicate Enabled(s: System, ev: Event)
  {
    match ev
    case Deliver(p) => p in s.bus && p.to in s.ends
    case Open(w, tab) => w in s.ends && tab !in s.tabs
    case Close(w, tab) => w in s.ends && tab in s.tabs
    case Drag(w, t, tab) => w in s.ends && tab in s.ends[w].tabs && t !in s.registry
    case Drop(w, request, _, _) => w in s.ends && request !in s.requests
    case Prepared(w, n, _) => w in s.ends && n < |s.ends[w].preparations| && s.ends[w].preparations[n].Running?
    case Retry(w, _) => w in s.ends
    case TimeOut(w, _) => w in s.ends
    case Expire(w, _) => w in s.ends
    case Session(w, _, _) => w in s.ends
  }

  function Sent(s: System, from: Window, messages: seq<Message>): multiset<Packet>
  {
    if messages == [] then multiset{}
    else
      multiset(set w | w in s.ends && w != from :: Packet(from, w, messages[0])) + Sent(s, from, messages[1..])
  }

  function Act(s: System, w: Window, r: (End, seq<Message>)): System
  {
    s.(ends := s.ends[w := r.0], bus := s.bus + Sent(s, w, r.1))
  }

  function DeliverTo(s: System, w: Window, m: Message): System
    requires w in s.ends
  {
    var e := s.ends[w];
    match m
    case Claim(request, t) => Act(s, w, OnClaim(e, request, t))
    case Offer(request, _, offered) =>
      var adopts := request in e.claims && offered.Some?
        && offered.value !in AdoptInto(e, offered.value, e.claims[request].replacePlaceholder);
      Act(s, w, OnOffer(e, request, offered))
        .(adoptions := if adopts then s.adoptions + [Adoption(offered.value, e.claims[request].transfer, w)]
            else s.adoptions)
    case Cancel(t) => Act(s, w, (OnCancel(e, t), []))
    case Complete(t) =>
      Act(s, w, (OnComplete(e, t), [])).(completed := if t in e.sources then s.completed + {t} else s.completed)
  }

  function Step(s: System, ev: Event): System
    requires Enabled(s, ev)
  {
    match ev
    case Deliver(p) => DeliverTo(s.(bus := s.bus - multiset{p}), p.to, p.message)
    case Open(w, tab) => Act(s, w, (s.ends[w].(tabs := s.ends[w].tabs + {tab}), [])).(tabs := s.tabs + {tab})
    case Close(w, tab) =>
      Act(s, w, (s.ends[w].(tabs := s.ends[w].tabs - {tab}, attaching := s.ends[w].attaching - {tab}), []))
        .(closed := s.closed + {tab})
    case Drag(w, t, tab) =>
      Act(s, w, (Register(s.ends[w], t, tab), [])).(registry := s.registry[t := Registration(w, tab)])
    case Drop(w, request, t, replacePlaceholder) =>
      Act(s, w, StartClaim(s.ends[w], request, t, replacePlaceholder))
        .(requests := s.requests[request := Request(w, t)])
    case Retry(w, request) => Act(s, w, (s.ends[w], RetryClaim(s.ends[w], request)))
    case TimeOut(w, request) => Act(s, w, ClaimTimeout(s.ends[w], request))
    case Expire(w, t) =>
      Act(s, w, (Retire(s.ends[w], t), [])).(retired := if t in s.ends[w].sources then s.retired + {t} else s.retired)
    case Prepared(w, n, ready) => Act(s, w, Settle(s.ends[w], n, ready))
    case Session(w, tab, attached) => Act(s, w, Attach(s.ends[w], tab, attached))
  }

  ghost predicate Initial(s: System)
  {
    && (forall w | w in s.ends :: s.ends[w] == NEW_END)
    && s == System(s.ends, multiset{}, map[], map[], [], {}, {}, {}, {})
  }

  ghost predicate Run(states: seq<System>, events: seq<Event>)
  {
    |states| == |events| + 1 && Initial(states[0]) && forall i: nat | i < |events| :: Next(states, events, i)
  }

  ghost predicate Next(states: seq<System>, events: seq<Event>, i: nat)
    requires |states| == |events| + 1 && i < |events|
  {
    Enabled(states[i], events[i]) && states[i + 1] == Step(states[i], events[i])
  }

  // ---- Every tab is held somewhere -----------------------------------------------------------

  ghost function Holders(s: System, tab: Tab): set<Window>
  {
    set w | w in s.ends && tab in s.ends[w].tabs
  }

  ghost function Adopted(s: System): set<TransferId>
  {
    set a | a in s.adoptions :: a.transfer
  }

  ghost predicate Active(s: System, t: TransferId)
  {
    t in s.registry && s.registry[t].window in s.ends && t in s.ends[s.registry[t].window].sources
  }

  /** The tokens of a tab that somebody has adopted it with and whose source may still close it. */
  ghost function Debt(s: System, tab: Tab): set<TransferId>
  {
    set t | t in s.registry && t in Adopted(s) && s.registry[t].tab == tab && Active(s, t)
  }

  ghost predicate IsRequest(s: System, request: RequestId, t: TransferId)
  {
    request in s.requests && s.requests[request].transfer == t
  }

  ghost predicate MessageOk(s: System, m: Message)
  {
    match m
    case Claim(request, t) => IsRequest(s, request, t)
    case Offer(request, t, offered) =>
      IsRequest(s, request, t) && (offered.Some? ==> t in s.registry && s.registry[t].tab == offered.value)
    case Complete(t) => t in Adopted(s)
    case Cancel(_) => true
  }

  ghost predicate PreparationOk(s: System, p: Preparation)
  {
    && p.transfer in s.registry && s.registry[p.transfer].tab == p.tab
    && (p.Running? ==> forall i | 0 <= i < |p.waiting| :: IsRequest(s, p.waiting[i], p.transfer))
    && (p.Done? && p.offered.Some? ==> p.offered.value == p.tab)
  }

  ghost predicate SourceOk(s: System, w: Window, e: End, t: TransferId)
    requires t in e.sources
  {
    var source := e.sources[t];
    && t in s.registry && s.registry[t] == Registration(w, source.tab)
    && (source.prepared.Some? ==>
          source.prepared.value < |e.preparations| && e.preparations[source.prepared.value].transfer == t)
  }

  /** Sources, preparations and attaching terminals agree with the history of tokens. */
  ghost predicate LinksOk(s: System, w: Window, e: End)
  {
    && e.tabs <= s.tabs
    && (forall t | t in e.sources :: SourceOk(s, w, e, t))
    && (forall i | 0 <= i < |e.preparations| :: PreparationOk(s, e.preparations[i]))
    && (forall tab | tab in e.attaching :: e.attaching[tab] in Adopted(s))
  }

  /** A claim that is still open was never answered, and none was answered twice. */
  ghost predicate AnswersOk(s: System, w: Window, e: End)
  {
    && (forall r | r in e.claims :: IsRequest(s, r, e.claims[r].transfer) && s.requests[r].window == w
         && e.resolved[r] == 0)
    && (forall r :: e.resolved[r] <= 1)
    && (forall r | r in e.resolved :: r in s.requests && s.requests[r].window == w)
  }

  /** `prepare` ran at most once since the last cancel, and then the source still offers its result. */
  ghost predicate CountsOk(s: System, e: End)
  {
    && (forall t :: e.prepares[t] <= 1)
    && (forall t | t in e.prepares :: t in s.registry)
    && (forall t | t in e.sources && e.sources[t].prepared.None? :: e.prepares[t] == 0)
  }

  ghost predicate EndOk(s: System, w: Window, e: End)
  {
    LinksOk(s, w, e) && AnswersOk(s, w, e) && CountsOk(s, e)
  }

  ghost predicate WellFormed(s: System)
  {
    && (forall p | p in s.bus :: MessageOk(s, p.message))
    && (forall w | w in s.ends :: EndOk(s, w, s.ends[w]))
    && TokensOk(s)
  }

  /** Every token names an existing tab, and tabs are adopted under their own tokens. */
  ghost predicate TokensOk(s: System)
  {
    && (forall t | t in s.registry :: s.registry[t].tab in s.tabs)
    && (forall a | a in s.adoptions :: a.transfer in s.registry && s.registry[a.transfer].tab == a.tab)
  }

  /** A tab is open in more windows than there are sources that may still close it. */
  ghost predicate Held(s: System, tab: Tab)
  {
    |Holders(s, tab)| >= 1 + |Debt(s, tab)|
  }

  // ---- Well-formedness is kept -----------------------------------------------------------------

  /** History only grows, and what was said about tokens and requests stays true. */
  ghost predicate Grows(s: System, s': System)
  {
    && (forall t | t in s.registry :: t in s'.registry && s'.registry[t] == s.registry[t])
    && (forall r | r in s.requests :: r in s'.requests && s'.requests[r] == s.requests[r])
    && s.adoptions <= s'.adoptions && s.tabs <= s'.tabs
  }

  lemma GrowsKeeps(s: System, s': System)
    requires Grows(s, s')
    ensures Adopted(s) <= Adopted(s')
    ensures forall m | MessageOk(s, m) :: MessageOk(s', m)
    ensures forall p | PreparationOk(s, p) :: PreparationOk(s', p)
  {
    assert forall a | a in s.adoptions :: a in s'.adoptions;
  }

  lemma EndStaysOk(s: System, s': System, w: Window, e: End)
    requires Grows(s, s') && EndOk(s, w, e)
    ensures EndOk(s', w, e)
  {
    GrowsKeeps(s, s');
    assert forall t | t in e.sources :: SourceOk(s, w, e, t) ==> SourceOk(s', w, e, t);
  }

  lemma SentFirst(s: System, from: Window, messages: seq<Message>, p: Packet)
    requires messages != []
    ensures p in Sent(s, from, messages)
       <==> || p in Sent(s, from, messages[1..])
            || (p.from == from && p.to in s.ends && p.to != from && p.message == messages[0])
  {
    var first := set w | w in s.ends && w != from :: Packet(from, w, messages[0]);
    assert p in first <==> p.from == from && p.to in s.ends && p.to != from && p.message == messages[0];
    assert p in multiset(first) <==> p in first;
  }

  lemma {:induction false} SentOk(s: System, from: Window, messages: seq<Message>)
    ensures forall p | p in Sent(s, from, messages) ::
              p.from == from && p.message in messages && p.to in s.ends && p.to != from
    ensures forall m, v | m in messages && v in s.ends && v != from :: Packet(from, v, m) in Sent(s, from, messages)
  {
    if messages != [] {
      SentOk(s, from, messages[1..]);
      forall p | p in Sent(s, from, messages)
        ensures p.from == from && p.message in messages && p.to in s.ends && p.to != from
      {
        SentFirst(s, from, messages, p);
      }
      forall m, v | m in messages && v in s.ends && v != from ensures Packet(from, v, m) in Sent(s, from, messages) {
        SentFirst(s, from, messages, Packet(from, v, m));
        assert m == messages[0] || m in messages[1..];
      }
    }
  }

  /** A handler's effect, when its new state and what it sends are in order. */
  lemma ActKeeps(s: System, s': System, w: Window, r: (End, seq<Message>))
    requires WellFormed(s) && w in s.ends && Grows(s, s')
    requires s'.ends == s.ends[w := r.0] && s'.bus == s.bus + Sent(s, w, r.1)
    requires EndOk(s', w, r.0)
    requires forall m | m in r.1 :: MessageOk(s', m)
    requires TokensOk(s')
    ensures WellFormed(s')
  {
    SentOk(s, w, r.1);
    GrowsKeeps(s, s');
    forall v | v in s'.ends ensures EndOk(s', v, s'.ends[v]) {
      if v != w {
        EndStaysOk(s, s', v, s.ends[v]);
      }
    }
  }

  lemma PreparesOk(s: System, w: Window, e: End, request: RequestId, t: TransferId)
    requires EndOk(s, w, e) && IsRequest(s, request, t) && t in e.sources && e.sources[t].prepared.None?
    ensures EndOk(s, w, OnClaim(e, request, t).0)
  {
    var e' := OnClaim(e, request, t).0;
    assert SourceOk(s, w, e, t);
    assert LinksOk(s, w, e') by {
      forall t' | t' in e'.sources ensures SourceOk(s, w, e', t') {
        assert SourceOk(s, w, e, t');
      }
    }
    assert CountsOk(s, e');
  }

  lemma JoinsOk(s: System, w: Window, e: End, request: RequestId, t: TransferId)
    requires EndOk(s, w, e) && IsRequest(s, request, t) && t in e.sources && e.sources[t].prepared.Some?
    ensures EndOk(s, w, OnClaim(e, request, t).0)
    ensures forall m | m in OnClaim(e, request, t).1 :: MessageOk(s, m)
  {
    var e' := OnClaim(e, request, t).0;
    assert SourceOk(s, w, e, t);
    var n := e.sources[t].prepared.value;
    assert PreparationOk(s, e.preparations[n]);
    assert PreparationOk(s, e'.preparations[n]);
    assert LinksOk(s, w, e') by {
      forall t' | t' in e'.sources ensures SourceOk(s, w, e', t') {
        assert SourceOk(s, w, e, t');
      }
    }
  }

  lemma ClaimOk(s: System, w: Window, e: End, request: RequestId, t: TransferId)
    requires EndOk(s, w, e) && IsRequest(s, request, t)
    ensures EndOk(s, w, OnClaim(e, request, t).0)
    ensures forall m | m in OnClaim(e, request, t).1 :: MessageOk(s, m)
  {
    if t in e.sources {
      assert SourceOk(s, w, e, t);
      if e.sources[t].prepared.None? {
        PreparesOk(s, w, e, request, t);
      } else {
        JoinsOk(s, w, e, request, t);
      }
    }
  }

  lemma SettleOk(s: System, w: Window, e: End, n: nat, ready: bool)
    requires EndOk(s, w, e) && n < |e.preparations| && e.preparations[n].Running?
    ensures EndOk(s, w, Settle(e, n, ready).0)
    ensures forall m | m in Settle(e, n, ready).1 :: MessageOk(s, m)
  {
    var e' := Settle(e, n, ready).0;
    assert PreparationOk(s, e.preparations[n]);
    assert LinksOk(s, w, e') by {
      assert forall t | t in e'.sources :: SourceOk(s, w, e, t) ==> SourceOk(s, w, e', t);
    }
  }

  /** Fewer tabs, sources and attaching terminals, or sources that lost their preparation. */
  lemma LinksShrink(s: System, w: Window, e: End, e': End)
    requires LinksOk(s, w, e)
    requires e'.preparations == e.preparations && e'.tabs <= s.tabs && e'.sources.Keys <= e.sources.Keys
    requires forall t | t in e'.sources ::
             e'.sources[t] == e.sources[t]
             || e'.sources[t] == e.sources[t].(prepared := None)
    requires forall tab | tab in e'.attaching :: e'.attaching[tab] in Adopted(s)
    ensures LinksOk(s, w, e')
  {
    assert forall t | t in e'.sources :: SourceOk(s, w, e, t) ==> SourceOk(s, w, e', t);
  }

  lemma RetireOk(s: System, w: Window, e: End, t: TransferId)
    requires EndOk(s, w, e)
    ensures EndOk(s, w, Retire(e, t))
  {
    LinksShrink(s, w, e, Retire(e, t));
  }

  lemma CompleteOk(s: System, w: Window, e: End, t: TransferId)
    requires EndOk(s, w, e)
    ensures EndOk(s, w, OnComplete(e, t))
  {
    LinksShrink(s, w, e, OnComplete(e, t));
  }

  lemma CancelOk(s: System, w: Window, e: End, t: TransferId)
    requires EndOk(s, w, e)
    ensures EndOk(s, w, OnCancel(e, t))
  {
    LinksShrink(s, w, e, OnCancel(e, t));
    assert CountsOk(s, OnCancel(e, t));
  }

  ghost predicate Adopts(e: End, request: RequestId, offered: Option<Tab>)
  {
    && request in e.claims && offered.Some?
    && offered.value !in AdoptInto(e, offered.value, e.claims[request].replacePlaceholder)
  }

  lemma AnswerOk(s: System, w: Window, e: End, request: RequestId)
    requires EndOk(s, w, e) && request in e.claims
    ensures EndOk(s, w, Answer(e, request))
  {
    LinksShrink(s, w, e, Answer(e, request));
    assert AnswersOk(s, w, Answer(e, request));
  }

  lemma AdoptOk(s: System, w: Window, e: End, tab: Tab, claim: ClaimInfo)
    requires EndOk(s, w, e) && tab in s.tabs
    requires tab !in AdoptInto(e, tab, claim.replacePlaceholder) ==> claim.transfer in Adopted(s)
    ensures EndOk(s, w, Adopt(e, tab, claim).0)
    ensures forall m | m in Adopt(e, tab, claim).1 :: MessageOk(s, m)
  {
    LinksShrink(s, w, e, Adopt(e, tab, claim).0);
  }

  lemma OfferOk(s: System, w: Window, e: End, request: RequestId, offered: Option<Tab>)
    requires EndOk(s, w, e)
    requires offered.Some? ==> offered.value in s.tabs
    requires Adopts(e, request, offered) ==> e.claims[request].transfer in Adopted(s)
    ensures EndOk(s, w, OnOffer(e, request, offered).0)
    ensures forall m | m in OnOffer(e, request, offered).1 :: MessageOk(s, m)
  {
    if request in e.claims {
      AnswerOk(s, w, e, request);
      if offered.Some? {
        AdoptOk(s, w, Answer(e, request), offered.value, e.claims[request]);
      }
    }
  }

  lemma AttachOk(s: System, w: Window, e: End, tab: Tab, attached: bool)
    requires EndOk(s, w, e)
    ensures EndOk(s, w, Attach(e, tab, attached).0)
    ensures forall m | m in Attach(e, tab, attached).1 :: MessageOk(s, m)
  {
    LinksShrink(s, w, e, Attach(e, tab, attached).0);
  }

  lemma ClaimingOk(s: System, s': System, w: Window, e: End, request: RequestId, t: TransferId,
                   replacePlaceholder: bool)
    requires EndOk(s, w, e) && Grows(s, s') && request !in s.requests
    requires s'.requests == s.requests[request := Request(w, t)]
    ensures EndOk(s', w, StartClaim(e, request, t, replacePlaceholder).0)
  {
    EndStaysOk(s, s', w, e);
    var e' := StartClaim(e, request, t, replacePlaceholder).0;
    LinksShrink(s', w, e, e');
    assert e.resolved[request] == 0;
    assert AnswersOk(s', w, e');
  }

  lemma TimeoutOk(s: System, w: Window, e: End, request: RequestId)
    requires EndOk(s, w, e)
    ensures EndOk(s, w, ClaimTimeout(e, request).0)
    ensures forall m | m in ClaimTimeout(e, request).1 :: MessageOk(s, m)
    ensures forall m | m in RetryClaim(e, request) :: MessageOk(s, m)
  {
    if request in e.claims {
      AnswerOk(s, w, e, request);
    }
  }

  lemma RegisterOk(s: System, s': System, w: Window, e: End, t: TransferId, tab: Tab)
    requires EndOk(s, w, e) && Grows(s, s') && t !in s.registry && s'.registry == s.registry[t := Registration(w, tab)]
    ensures EndOk(s', w, Register(e, t, tab))
  {
    EndStaysOk(s, s', w, e);
    var e' := Register(e, t, tab);
    assert LinksOk(s', w, e') by {
      forall t' | t' in e'.sources ensures SourceOk(s', w, e', t') {
        assert t' != t ==> SourceOk(s', w, e, t');
      }
    }
    assert e.prepares[t] == 0;
  }

  lemma TabsOk(s: System, w: Window, e: End, e': End)
    requires EndOk(s, w, e) && e'.tabs <= s.tabs
    requires e' == e.(tabs := e'.tabs, attaching := e'.attaching)
    requires forall tab | tab in e'.attaching :: tab in e.attaching && e'.attaching[tab] == e.attaching[tab]
    ensures EndOk(s, w, e')
  {
    LinksShrink(s, w, e, e');
  }

  /** Taking a packet off the bus, before its handler runs. */
  lemma TakeWellFormed(s: System, p: Packet)
    requires WellFormed(s)
    ensures WellFormed(s.(bus := s.bus - multiset{p}))
  {
    var s0 := s.(bus := s.bus - multiset{p});
    GrowsKeeps(s, s0);
    forall v | v in s0.ends ensures EndOk(s0, v, s0.ends[v]) {
      EndStaysOk(s, s0, v, s.ends[v]);
    }
  }

  lemma DeliverWellFormed(s: System, w: Window, m: Message)
    requires WellFormed(s) && w in s.ends && MessageOk(s, m)
    ensures WellFormed(DeliverTo(s, w, m))
  {
    var e, s' := s.ends[w], DeliverTo(s, w, m);
    GrowsKeeps(s, s');
    EndStaysOk(s, s', w, e);
    match m {
      case Claim(request, t) =>
        ClaimOk(s', w, e, request, t);
        ActKeeps(s, s', w, OnClaim(e, request, t));
      case Offer(request, t, offered) =>
        OfferWellFormed(s, w, request, t, offered);
      case Cancel(t) =>
        CancelOk(s', w, e, t);
        ActKeeps(s, s', w, (OnCancel(e, t), []));
      case Complete(t) =>
        CompleteOk(s', w, e, t);
        ActKeeps(s, s', w, (OnComplete(e, t), []));
    }
  }

  lemma OfferEnd(s: System, w: Window, request: RequestId, t: TransferId, offered: Option<Tab>)
    requires WellFormed(s) && w in s.ends && MessageOk(s, Offer(request, t, offered))
    ensures var s' := DeliverTo(s, w, Offer(request, t, offered));
            && Grows(s, s') && TokensOk(s')
            && (offered.Some? ==> offered.value in s'.tabs)
            && (Adopts(s.ends[w], request, offered) ==> s.ends[w].claims[request].transfer in Adopted(s'))
  {
    var e, s' := s.ends[w], DeliverTo(s, w, Offer(request, t, offered));
    assert EndOk(s, w, e);
    assert request in e.claims ==> e.claims[request].transfer == t by { assert AnswersOk(s, w, e); }
    if Adopts(e, request, offered) {
      assert Adoption(offered.value, t, w) in s'.adoptions;
    }
  }

  lemma OfferWellFormed(s: System, w: Window, request: RequestId, t: TransferId, offered: Option<Tab>)
    requires WellFormed(s) && w in s.ends && MessageOk(s, Offer(request, t, offered))
    ensures WellFormed(DeliverTo(s, w, Offer(request, t, offered)))
  {
    var e, s' := s.ends[w], DeliverTo(s, w, Offer(request, t, offered));
    OfferEnd(s, w, request, t, offered);
    EndStaysOk(s, s', w, e);
    OfferOk(s', w, e, request, offered);
    ActKeeps(s, s', w, OnOffer(e, request, offered));
  }

  lemma DragTokens(s: System, w: Window, t: TransferId, tab: Tab)
    requires TokensOk(s) && Enabled(s, Drag(w, t, tab)) && tab in s.tabs
    ensures Grows(s, Step(s, Drag(w, t, tab))) && TokensOk(Step(s, Drag(w, t, tab)))
  {
  }

  lemma DragWellFormed(s: System, w: Window, t: TransferId, tab: Tab)
    requires WellFormed(s) && Enabled(s, Drag(w, t, tab))
    ensures WellFormed(Step(s, Drag(w, t, tab)))
  {
    var s' := Step(s, Drag(w, t, tab));
    assert tab in s.tabs by { assert EndOk(s, w, s.ends[w]); }
    DragTokens(s, w, t, tab);
    RegisterOk(s, s', w, s.ends[w], t, tab);
    ActKeeps(s, s', w, (Register(s.ends[w], t, tab), []));
  }

  lemma DropTokens(s: System, w: Window, request: RequestId, t: TransferId, replacePlaceholder: bool)
    requires TokensOk(s) && Enabled(s, Drop(w, request, t, replacePlaceholder))
    ensures var s' := Step(s, Drop(w, request, t, replacePlaceholder));
            Grows(s, s') && TokensOk(s') && MessageOk(s', Claim(request, t))
  {
  }

  lemma DropEnd(s: System, w: Window, request: RequestId, t: TransferId, replacePlaceholder: bool)
    requires TokensOk(s) && Enabled(s, Drop(w, request, t, replacePlaceholder)) && EndOk(s, w, s.ends[w])
    ensures var s' := Step(s, Drop(w, request, t, replacePlaceholder));
            var r := StartClaim(s.ends[w], request, t, replacePlaceholder);
            && Grows(s, s') && TokensOk(s') && EndOk(s', w, r.0)
            && (forall m | m in r.1 :: MessageOk(s', m))
            && s'.ends == s.ends[w := r.0] && s'.bus == s.bus + Sent(s, w, r.1)
  {
    DropTokens(s, w, request, t, replacePlaceholder);
    ClaimingOk(s, Step(s, Drop(w, request, t, replacePlaceholder)), w, s.ends[w], request, t, replacePlaceholder);
  }

  lemma DropWellFormed(s: System, w: Window, request: RequestId, t: TransferId, replacePlaceholder: bool)
    requires WellFormed(s) && Enabled(s, Drop(w, request, t, replacePlaceholder))
    ensures WellFormed(Step(s, Drop(w, request, t, replacePlaceholder)))
  {
    DropEnd(s, w, request, t, replacePlaceholder);
    ActKeeps(s, Step(s, Drop(w, request, t, replacePlaceholder)), w,
        StartClaim(s.ends[w], request, t, replacePlaceholder));
  }

  lemma UserWellFormed(s: System, ev: Event)
    requires WellFormed(s) && Enabled(s, ev) && (ev.Open? || ev.Close?)
    ensures WellFormed(Step(s, ev))
  {
    var s', w := Step(s, ev), ev.w;
    EndStaysOk(s, s', w, s.ends[w]);
    TabsOk(s', w, s.ends[w], s'.ends[w]);
    ActKeeps(s, s', w, (s'.ends[w], []));
  }

  lemma TimerWellFormed(s: System, w: Window, request: RequestId)
    requires WellFormed(s) && w in s.ends
    ensures WellFormed(Step(s, Retry(w, request))) && WellFormed(Step(s, TimeOut(w, request)))
  {
    var retried, timedOut := Step(s, Retry(w, request)), Step(s, TimeOut(w, request));
    EndStaysOk(s, retried, w, s.ends[w]);
    TimeoutOk(retried, w, s.ends[w], request);
    ActKeeps(s, retried, w, (s.ends[w], RetryClaim(s.ends[w], request)));
    EndStaysOk(s, timedOut, w, s.ends[w]);
    TimeoutOk(timedOut, w, s.ends[w], request);
    ActKeeps(s, timedOut, w, ClaimTimeout(s.ends[w], request));
  }

  lemma ExpireWellFormed(s: System, w: Window, t: TransferId)
    requires WellFormed(s) && w in s.ends
    ensures WellFormed(Step(s, Expire(w, t)))
  {
    var s' := Step(s, Expire(w, t));
    EndStaysOk(s, s', w, s.ends[w]);
    RetireOk(s', w, s.ends[w], t);
    ActKeeps(s, s', w, (Retire(s.ends[w], t), []));
  }

  lemma PreparedWellFormed(s: System, w: Window, n: nat, ready: bool)
    requires WellFormed(s) && Enabled(s, Prepared(w, n, ready))
    ensures WellFormed(Step(s, Prepared(w, n, ready)))
  {
    var s' := Step(s, Prepared(w, n, ready));
    EndStaysOk(s, s', w, s.ends[w]);
    SettleOk(s', w, s.ends[w], n, ready);
    ActKeeps(s, s', w, Settle(s.ends[w], n, ready));
  }

  lemma SessionWellFormed(s: System, w: Window, tab: Tab, attached: bool)
    requires WellFormed(s) && w in s.ends
    ensures WellFormed(Step(s, Session(w, tab, attached)))
  {
    var s' := Step(s, Session(w, tab, attached));
    EndStaysOk(s, s', w, s.ends[w]);
    AttachOk(s', w, s.ends[w], tab, attached);
    ActKeeps(s, s', w, Attach(s.ends[w], tab, attached));
  }

  lemma StepWellFormed(s: System, ev: Event)
    requires WellFormed(s) && Enabled(s, ev)
    ensures WellFormed(Step(s, ev))
  {
    match ev {
      case Deliver(p) =>
        var s0 := s.(bus := s.bus - multiset{p});
        TakeWellFormed(s, p);
        GrowsKeeps(s, s0);
        DeliverWellFormed(s0, p.to, p.message);
      case Drag(w, t, tab) => DragWellFormed(s, w, t, tab);
      case Drop(w, request, t, replacePlaceholder) => DropWellFormed(s, w, request, t, replacePlaceholder);
      case Open(_, _) => UserWellFormed(s, ev);
      case Close(_, _) => UserWellFormed(s, ev);
      case Retry(w, request) => TimerWellFormed(s, w, request);
      case TimeOut(w, request) => TimerWellFormed(s, w, request);
      case Expire(w, t) => ExpireWellFormed(s, w, t);
      case Prepared(w, n, ready) => PreparedWellFormed(s, w, n, ready);
      case Session(w, tab, attached) => SessionWellFormed(s, w, tab, attached);
    }
  }

  // ---- What an offer changes -------------------------------------------------------------------

  /** The adopted tab takes the place of the blank one, and of every other page beside it. */
  ghost predicate Sweeps(e: End, request: RequestId, offered: Option<Tab>)
  {
    Adopts(e, request, offered) && offered.value.surface == Page && e.claims[request].replacePlaceholder
  }

  lemma HoldersAfter(s: System, s': System, w: Window, tab: Tab)
    requires w in s.ends && w in s'.ends && s'.ends == s.ends[w := s'.ends[w]]
    ensures (tab in s'.ends[w].tabs <==> tab in s.ends[w].tabs) ==> Holders(s', tab) == Holders(s, tab)
    ensures tab in s'.ends[w].tabs ==> Holders(s', tab) == Holders(s, tab) + {w}
    ensures tab !in s'.ends[w].tabs ==> Holders(s', tab) == Holders(s, tab) - {w}
  {
  }

  lemma OfferTabs(e: End, request: RequestId, offered: Option<Tab>, tab: Tab)
    ensures var e' := OnOffer(e, request, offered).0;
            && e'.sources == e.sources
            && (tab in e'.tabs <==>
                  || (Adopts(e, request, offered) && tab == offered.value)
                  || (tab in e.tabs && !(Sweeps(e, request, offered) && tab.surface == Page)))
  {
  }

  lemma AdoptDebt(s: System, s': System, w: Window, t: TransferId, adopted: Tab, tab: Tab)
    requires TokensOk(s) && w in s.ends && w in s'.ends && s'.ends == s.ends[w := s'.ends[w]]
    requires s'.registry == s.registry && s'.adoptions == s.adoptions + [Adoption(adopted, t, w)]
    requires s'.ends[w].sources == s.ends[w].sources
    requires t in s.registry && s.registry[t].tab == adopted
    ensures Debt(s', tab) == Debt(s, tab) + if tab == adopted && Active(s, t) then {t} else {}
  {
    assert forall a | a in s'.adoptions :: a in s.adoptions || a == Adoption(adopted, t, w);
    assert Adoption(adopted, t, w) in s'.adoptions && forall a | a in s.adoptions :: a in s'.adoptions;
    assert Adopted(s') == Adopted(s) + {t};
    assert forall x :: Active(s', x) <==> Active(s, x);
  }

  /** What an offer's handler may rely on. */
  ghost predicate Expected(s: System, w: Window, m: Message)
    requires m.Offer? && w in s.ends
  {
    && TokensOk(s) && (m.request in s.ends[w].claims ==> s.ends[w].claims[m.request].transfer == m.transfer)
    && (m.offered.Some? ==> m.transfer in s.registry && s.registry[m.transfer].tab == m.offered.value)
  }

  lemma OffersExpected(s: System, w: Window, m: Message)
    requires WellFormed(s) && w in s.ends && m.Offer? && MessageOk(s, m)
    ensures Expected(s, w, m)
  {
    assert EndOk(s, w, s.ends[w]);
  }

  lemma NoAdoption(s: System, w: Window, m: Message)
    requires w in s.ends && m.Offer? && !Adopts(s.ends[w], m.request, m.offered)
    ensures var s' := DeliverTo(s, w, m);
            && s'.adoptions == s.adoptions && s'.registry == s.registry && s'.ends == s.ends[w := s'.ends[w]]
            && s'.ends[w].sources == s.ends[w].sources
  {
    OfferTabs(s.ends[w], m.request, m.offered, Tab("", Page, false));
  }

  lemma AnAdoption(s: System, w: Window, m: Message)
    requires w in s.ends && m.Offer? && Adopts(s.ends[w], m.request, m.offered) && Expected(s, w, m)
    ensures var s' := DeliverTo(s, w, m);
            && s'.adoptions == s.adoptions + [Adoption(m.offered.value, m.transfer, w)]
            && s'.registry == s.registry && s'.ends == s.ends[w := s'.ends[w]]
            && s'.ends[w].sources == s.ends[w].sources
  {
    OfferTabs(s.ends[w], m.request, m.offered, m.offered.value);
  }

  lemma SameDebt(s: System, s': System, w: Window, tab: Tab)
    requires w in s.ends && w in s'.ends && s'.ends == s.ends[w := s'.ends[w]]
    requires s'.registry == s.registry && s'.adoptions == s.adoptions
             && s'.ends[w].sources.Keys == s.ends[w].sources.Keys
    ensures Debt(s', tab) == Debt(s, tab)
  {
  }

  /** Who may still close a tab after an offer arrived. */
  lemma OfferDebt(s: System, w: Window, m: Message, tab: Tab)
    requires w in s.ends && m.Offer? && Expected(s, w, m)
    ensures Debt(DeliverTo(s, w, m), tab)
            == if Adopts(s.ends[w], m.request, m.offered) && m.offered.value == tab && Active(s, m.transfer)
               then Debt(s, tab) + {m.transfer} else Debt(s, tab)
  {
    if Adopts(s.ends[w], m.request, m.offered) {
      AnAdoption(s, w, m);
      AdoptDebt(s, DeliverTo(s, w, m), w, m.transfer, m.offered.value, tab);
    } else {
      NoAdoption(s, w, m);
      SameDebt(s, DeliverTo(s, w, m), w, tab);
    }
  }

  /** Who holds a tab after an offer arrived. */
  lemma OfferHolders(s: System, w: Window, m: Message, tab: Tab)
    requires w in s.ends && m.Offer?
    ensures Holders(DeliverTo(s, w, m), tab)
            == if Adopts(s.ends[w], m.request, m.offered) && m.offered.value == tab then Holders(s, tab) + {w}
               else if Sweeps(s.ends[w], m.request, m.offered) && tab.surface == Page then Holders(s, tab) - {w}
               else Holders(s, tab)
  {
    var s' := DeliverTo(s, w, m);
    OfferTabs(s.ends[w], m.request, m.offered, tab);
    assert s'.ends == s.ends[w := OnOffer(s.ends[w], m.request, m.offered).0];
    HoldersAfter(s, s', w, tab);
  }

  // ---- No tab is lost while only blank tabs are replaced ----------------------------------------

  /**
   * A window that replaces its blank tab by the arriving one empties its tab bar first. That is
   * harmless as long as nothing else has been opened or adopted there meanwhile.
   */
  ghost predicate OnlyBlank(s: System, ev: Event)
  {
    ev.Deliver? && ev.packet.message.Offer? && ev.packet.to in s.ends ==>
      var e := s.ends[ev.packet.to];
      Sweeps(e, ev.packet.message.request, ev.packet.message.offered) ==> Pages(e.tabs) == {}
  }

  lemma SubsetSize<T>(a: set<T>, b: set<T>)
    requires a <= b
    ensures |a| <= |b|
  {
    assert b == a + (b - a);
  }

  lemma HeldWhenMore(s: System, s': System, tab: Tab)
    requires Held(s, tab) && Holders(s, tab) <= Holders(s', tab) && Debt(s', tab) <= Debt(s, tab)
    ensures Held(s', tab)
  {
    SubsetSize(Holders(s, tab), Holders(s', tab));
    SubsetSize(Debt(s', tab), Debt(s, tab));
  }

  lemma HeldByAdopter(s: System, s': System, tab: Tab, w: Window, t: TransferId)
    requires Held(s, tab) && w !in Holders(s, tab) && Holders(s, tab) + {w} <= Holders(s', tab)
    requires Debt(s', tab) <= Debt(s, tab) + {t}
    ensures Held(s', tab)
  {
    SubsetSize(Holders(s, tab) + {w}, Holders(s', tab));
    SubsetSize(Debt(s', tab), Debt(s, tab) + {t});
  }

  lemma HeldByReceiver(s: System, s': System, tab: Tab, w: Window, t: TransferId)
    requires Held(s, tab) && Holders(s, tab) - {w} <= Holders(s', tab)
    requires t in Debt(s, tab) && Debt(s', tab) <= Debt(s, tab) - {t}
    ensures Held(s', tab)
  {
    SubsetSize(Holders(s, tab) - {w}, Holders(s', tab));
    SubsetSize(Debt(s', tab), Debt(s, tab) - {t});
  }

  lemma HeldOffer(s: System, p: Packet, tab: Tab)
    requires Held(s, tab) && p.message.Offer? && Ready(s, p)
    requires tab.surface == Page ==> OnlyBlank(s, Deliver(p))
    ensures Held(DeliverTo(s, p.to, p.message), tab)
  {
    var e, m, s' := s.ends[p.to], p.message, DeliverTo(s, p.to, p.message);
    OfferHolders(s, p.to, m, tab);
    OfferDebt(s, p.to, m, tab);
    assert tab.surface == Page && Sweeps(e, m.request, m.offered) ==> tab !in e.tabs by {
      assert tab in e.tabs && tab.surface == Page ==> tab in Pages(e.tabs);
    }
    if Adopts(e, m.request, m.offered) && m.offered.value == tab {
      HeldByAdopter(s, s', tab, p.to, m.transfer);
    } else {
      HeldWhenMore(s, s', tab);
    }
  }

  ghost predicate Known(s: System, w: Window, t: TransferId)
    requires w in s.ends
  {
    && t in Adopted(s)
    && (t in s.ends[w].sources ==>
          t in s.registry && s.registry[t] == Registration(w, s.ends[w].sources[t].tab))
  }

  lemma CompletesKnown(s: System, w: Window, t: TransferId)
    requires WellFormed(s) && w in s.ends && MessageOk(s, Complete(t))
    ensures Known(s, w, t)
  {
    if t in s.ends[w].sources {
      assert SourceOk(s, w, s.ends[w], t) by { assert EndOk(s, w, s.ends[w]); }
    }
  }

  ghost predicate Closes(e: End, t: TransferId, tab: Tab)
  {
    t in e.sources && e.sources[t].tab == tab
  }

  /** A `complete` that reaches its source takes the tab out of one window and one token off the debt. */
  lemma CompleteEffect(s: System, w: Window, t: TransferId, tab: Tab)
    requires w in s.ends && Known(s, w, t)
    ensures var s' := DeliverTo(s, w, Complete(t));
            if Closes(s.ends[w], t, tab) then
              && t in Debt(s, tab) && s.registry[t].window == w
              && Holders(s', tab) == Holders(s, tab) - {w} && Debt(s', tab) == Debt(s, tab) - {t}
            else
              Holders(s', tab) == Holders(s, tab) && Debt(s', tab) == Debt(s, tab)
  {
    var s' := DeliverTo(s, w, Complete(t));
    HoldersAfter(s, s', w, tab);
    if t in s.ends[w].sources {
      assert Active(s, t) && !Active(s', t);
    }
    assert forall x | x in s.registry && x != t :: Active(s', x) <==> Active(s, x);
    assert t !in s.ends[w].sources ==> (Active(s', t) <==> Active(s, t));
  }

  lemma HeldComplete(s: System, w: Window, t: TransferId, tab: Tab)
    requires Held(s, tab) && w in s.ends && Known(s, w, t)
    ensures Held(DeliverTo(s, w, Complete(t)), tab)
  {
    var s' := DeliverTo(s, w, Complete(t));
    CompleteEffect(s, w, t, tab);
    if Closes(s.ends[w], t, tab) {
      HeldByReceiver(s, s', tab, w, t);
    } else {
      HeldWhenMore(s, s', tab);
    }
  }

  /** What a handler that neither adopts nor completes leaves alone. */
  ghost predicate Quiet(s: System, s': System, w: Window)
  {
    && w in s.ends && w in s'.ends && s'.ends == s.ends[w := s'.ends[w]]
    && s'.registry == s.registry && s'.adoptions == s.adoptions && s'.tabs == s.tabs && s'.closed == s.closed
    && s'.ends[w].sources.Keys <= s.ends[w].sources.Keys && s'.ends[w].tabs == s.ends[w].tabs
  }

  lemma QuietMessage(s: System, w: Window, m: Message)
    requires w in s.ends && (m.Claim? || m.Cancel?)
    ensures Quiet(s, DeliverTo(s, w, m), w)
  {
  }

  lemma QuietEvent(s: System, ev: Event)
    requires Enabled(s, ev)
    requires ev.Drop? || ev.Retry? || ev.TimeOut? || ev.Expire? || ev.Prepared? || ev.Session?
    ensures Quiet(s, Step(s, ev), ev.w)
  {
  }

  lemma QuietEffect(s: System, s': System, w: Window, tab: Tab)
    requires Quiet(s, s', w)
    ensures Holders(s', tab) == Holders(s, tab) && Debt(s', tab) <= Debt(s, tab)
  {
    HoldersAfter(s, s', w, tab);
  }

  /** Opening or closing another tab, and dragging any. */
  lemma UserEffect(s: System, ev: Event, tab: Tab)
    requires TokensOk(s) && Enabled(s, ev) && (ev.Open? || ev.Close? || ev.Drag?) && (!ev.Drag? ==> ev.tab != tab)
    ensures Holders(Step(s, ev), tab) == Holders(s, tab) && Debt(Step(s, ev), tab) == Debt(s, tab)
  {
    var s' := Step(s, ev);
    HoldersAfter(s, s', ev.w, tab);
    assert ev.Drag? ==> ev.t !in Adopted(s);
    assert forall t | t in s.registry :: Active(s', t) <==> Active(s, t);
  }

  /** A tab that did not exist before is held by its window, and no token may close it. */
  lemma NewTab(s: System, w: Window, tab: Tab)
    requires WellFormed(s) && Enabled(s, Open(w, tab))
    ensures Holders(Step(s, Open(w, tab)), tab) == {w} && Debt(Step(s, Open(w, tab)), tab) == {}
  {
    var s' := Step(s, Open(w, tab));
    assert Holders(s, tab) == {} by {
      assert forall v | v in s.ends :: EndOk(s, v, s.ends[v]);
    }
    HoldersAfter(s, s', w, tab);
  }

  lemma TakeMessage(s: System, p: Packet)
    requires WellFormed(s) && p in s.bus
    ensures MessageOk(s.(bus := s.bus - multiset{p}), p.message)
  {
    GrowsKeeps(s, s.(bus := s.bus - multiset{p}));
  }

  /** Taking a packet off the bus closes and opens nothing. */
  lemma TakeEffect(s: System, p: Packet, tab: Tab)
    ensures var s0 := s.(bus := s.bus - multiset{p});
            && Holders(s0, tab) == Holders(s, tab) && Debt(s0, tab) == Debt(s, tab) && Giving(s0, tab) == Giving(s, tab)
            && forall t :: Active(s0, t) <==> Active(s, t)
  {
    var s0 := s.(bus := s.bus - multiset{p});
    assert s0.ends == s.ends && s0.registry == s.registry && s0.adoptions == s.adoptions;
    assert forall t :: Active(s0, t) <==> Active(s, t);
    assert Debt(s0, tab) == Debt(s, tab);
  }

  /** What the handler of a packet may rely on. */
  ghost predicate Ready(s: System, p: Packet)
  {
    && p.to in s.ends && (p.message.Offer? ==> Expected(s, p.to, p.message))
    && (p.message.Complete? ==> Known(s, p.to, p.message.transfer))
  }

  lemma TakenReady(s: System, p: Packet)
    requires WellFormed(s) && Enabled(s, Deliver(p))
    ensures Ready(s.(bus := s.bus - multiset{p}), p)
  {
    var s0 := s.(bus := s.bus - multiset{p});
    TakeWellFormed(s, p);
    TakeMessage(s, p);
    if p.message.Offer? {
      OffersExpected(s0, p.to, p.message);
    } else if p.message.Complete? {
      CompletesKnown(s0, p.to, p.message.transfer);
    }
  }

  lemma HeldArrival(s: System, p: Packet, tab: Tab)
    requires Held(s, tab) && Ready(s, p) && (tab.surface == Page ==> OnlyBlank(s, Deliver(p)))
    ensures Held(DeliverTo(s, p.to, p.message), tab)
  {
    match p.message {
      case Offer(_, _, _) => HeldOffer(s, p, tab);
      case Complete(t) => HeldComplete(s, p.to, t, tab);
      case _ =>
        QuietMessage(s, p.to, p.message);
        QuietEffect(s, DeliverTo(s, p.to, p.message), p.to, tab);
        HeldWhenMore(s, DeliverTo(s, p.to, p.message), tab);
    }
  }

  lemma HeldDelivery(s: System, p: Packet, tab: Tab)
    requires WellFormed(s) && Held(s, tab) && Enabled(s, Deliver(p))
    requires tab.surface == Page ==> OnlyBlank(s, Deliver(p))
    ensures Held(Step(s, Deliver(p)), tab)
  {
    TakenReady(s, p);
    TakeEffect(s, p, tab);
    HeldArrival(s.(bus := s.bus - multiset{p}), p, tab);
  }

  /** A docked tab stays held whatever happens; a page does as long as only blank tabs are replaced. */
  lemma StepHeld(s: System, ev: Event, tab: Tab)
    requires WellFormed(s) && Held(s, tab) && Enabled(s, ev) && tab in s.tabs && tab !in Step(s, ev).closed
    requires tab.surface == Page ==> OnlyBlank(s, ev)
    ensures Held(Step(s, ev), tab)
  {
    match ev {
      case Deliver(p) => HeldDelivery(s, p, tab);
      case Open(_, _) => UserEffect(s, ev, tab);
      case Close(_, _) => UserEffect(s, ev, tab);
      case Drag(_, _, _) => UserEffect(s, ev, tab);
      case _ =>
        QuietEvent(s, ev);
        QuietEffect(s, Step(s, ev), ev.w, tab);
        HeldWhenMore(s, Step(s, ev), tab);
    }
  }

  lemma InitialWellFormed(s: System)
    requires Initial(s)
    ensures WellFormed(s)
  {
    assert s.bus == multiset{} && forall w | w in s.ends :: EndOk(s, w, s.ends[w]);
  }

  lemma NextWellFormed(states: seq<System>, events: seq<Event>, i: nat)
    requires |states| == |events| + 1 && i < |events| && Next(states, events, i) && WellFormed(states[i])
    ensures WellFormed(states[i + 1])
  {
    StepWellFormed(states[i], events[i]);
  }

  lemma {:induction false} RunWellFormed(states: seq<System>, events: seq<Event>, k: nat)
    requires Run(states, events) && k < |states|
    ensures WellFormed(states[k])
  {
    if k > 0 {
      RunWellFormed(states, events, k - 1);
      NextWellFormed(states, events, k - 1);
    } else {
      InitialWellFormed(states[0]);
    }
  }

  /** A tab that exists and was not closed by a user. */
  ghost predicate Present(s: System, tab: Tab)
  {
    tab in s.tabs && tab !in s.closed
  }

  /** A new tab, or one that was there before. */
  lemma PresentBefore(s: System, ev: Event, tab: Tab)
    requires Enabled(s, ev) && Present(Step(s, ev), tab)
    ensures Present(s, tab) || (ev.Open? && ev.tab == tab)
  {
  }

  lemma {:induction false} RunHeld(states: seq<System>, events: seq<Event>, k: nat, tab: Tab)
    requires Run(states, events) && k < |states| && Present(states[k], tab)
    requires tab.surface == Page ==> forall i | 0 <= i < k :: OnlyBlank(states[i], events[i])
    ensures Held(states[k], tab)
  {
    if k > 0 {
      var s, ev := states[k - 1], events[k - 1];
      assert Next(states, events, k - 1);
      RunWellFormed(states, events, k - 1);
      PresentBefore(s, ev, tab);
      if Present(s, tab) {
        RunHeld(states, events, k - 1, tab);
        StepHeld(s, ev, tab);
      } else {
        NewTab(s, ev.w, tab);
      }
    }
  }

  /** Every claim is answered at most once, and `prepare` runs at most once between two cancels. */
  lemma AnswersAndPrepares(states: seq<System>, events: seq<Event>, k: nat, w: Window)
    requires Run(states, events) && k < |states| && w in states[k].ends
    ensures forall r :: states[k].ends[w].resolved[r] <= 1
    ensures forall t :: states[k].ends[w].prepares[t] <= 1
  {
    RunWellFormed(states, events, k);
    assert EndOk(states[k], w, states[k].ends[w]);
  }

  // ---- Exactly when a tab is lost ----------------------------------------------------------------

  /** The windows that close a tab once the `complete` for it arrives. */
  ghost function Giving(s: System, tab: Tab): set<Window>
  {
    set t | t in Debt(s, tab) :: s.registry[t].window
  }

  /** Some window holds the tab and is not about to close it. */
  ghost predicate Kept(s: System, tab: Tab)
  {
    !(Holders(s, tab) <= Giving(s, tab))
  }

  /** Another page takes the place of the blank tab, and all other holders of this one are about to close it. */
  ghost predicate SweptAway(s: System, w: Window, tab: Tab)
  {
    tab.surface == Page && forall v | v in Holders(s, tab) && v != w :: v in Giving(s, tab)
  }

  /** The tab comes to a window that itself is still to be told to close it, and so are all but the sender. */
  ghost predicate BackTooEarly(s: System, w: Window, t: TransferId, tab: Tab)
  {
    && w in Giving(s, tab) && Active(s, t)
    && forall v | v in Holders(s, tab) && v != s.registry[t].window :: v in Giving(s, tab)
  }

  /** The arrival of an offer by which a tab is lost. */
  ghost predicate Strips(s: System, ev: Event, tab: Tab)
  {
    && ev.Deliver? && ev.packet.message.Offer? && ev.packet.to in s.ends
    && var w, m := ev.packet.to, ev.packet.message;
       && Adopts(s.ends[w], m.request, m.offered)
       && if m.offered.value == tab then BackTooEarly(s, w, m.transfer, tab)
          else Sweeps(s.ends[w], m.request, m.offered) && SweptAway(s, w, tab)
  }

  lemma GivingSize(s: System, tab: Tab)
    ensures |Giving(s, tab)| <= |Debt(s, tab)|
  {
    ImageSize(s, Debt(s, tab));
  }

  lemma {:induction false} ImageSize(s: System, tokens: set<TransferId>)
    requires forall t | t in tokens :: t in s.registry
    ensures |set t | t in tokens :: s.registry[t].window| <= |tokens|
  {
    if tokens != {} {
      var t :| t in tokens;
      var rest := tokens - {t};
      ImageSize(s, rest);
      assert (set x | x in tokens :: s.registry[x].window)
          == (set x | x in rest :: s.registry[x].window) + {s.registry[t].window};
    }
  }

  lemma HeldIsKept(s: System, tab: Tab)
    requires Held(s, tab)
    ensures Kept(s, tab)
  {
    GivingSize(s, tab);
    if Holders(s, tab) <= Giving(s, tab) {
      SubsetSize(Holders(s, tab), Giving(s, tab));
    }
  }

  lemma KeptWhenSame(s: System, s': System, tab: Tab)
    requires Kept(s, tab) && Holders(s', tab) == Holders(s, tab) && Debt(s', tab) <= Debt(s, tab)
             && s.registry == s'.registry
    ensures Kept(s', tab)
  {
    var v :| v in Holders(s, tab) && v !in Giving(s, tab);
    assert v in Holders(s', tab) && v !in Giving(s', tab);
  }

  /** Offers travel away from the window that registered the token. */
  ghost predicate Travels(s: System)
  {
    && (forall p | p in s.bus :: Away(s, p))
    && (forall w | w in s.ends :: AtHome(s, w, s.ends[w]))
  }

  ghost predicate Away(s: System, p: Packet)
  {
    p.message.Offer? && p.message.offered.Some? ==>
      p.message.transfer in s.registry && s.registry[p.message.transfer].window != p.to
  }

  ghost predicate AtHome(s: System, w: Window, e: End)
  {
    forall i | 0 <= i < |e.preparations| :: OwnToken(s, w, e.preparations[i].transfer)
  }

  ghost predicate OwnToken(s: System, w: Window, t: TransferId)
  {
    t in s.registry && s.registry[t].window == w
  }

  /** A page or log tab that was adopted is closed by its source, or the `complete` is on its way there. */
  ghost predicate Due(s: System)
  {
    forall t | t in Adopted(s) && Active(s, t) && Reported(s.registry[t].tab) ::
      OnItsWay(s, s.registry[t].window, Complete(t))
  }

  ghost predicate OnItsWay(s: System, to: Window, m: Message)
  {
    exists p :: p in s.bus && p.to == to && p.message == m
  }

  /** All tabs but live terminals are reported complete as soon as they are adopted. */
  ghost predicate Reported(tab: Tab)
  {
    !(tab.surface == Dock && tab.live)
  }

  lemma ActTravels(s: System, s': System, w: Window, r: (End, seq<Message>))
    requires Travels(s) && w in s.ends && Grows(s, s')
    requires s'.ends == s.ends[w := r.0] && s'.bus == s.bus + Sent(s, w, r.1)
    requires AtHome(s', w, r.0)
    requires forall m | m in r.1 && m.Offer? && m.offered.Some? :: OwnToken(s', w, m.transfer)
    ensures Travels(s')
  {
    SentOk(s, w, r.1);
    forall p | p in s'.bus ensures Away(s', p) {
      if p in s.bus {
        assert Away(s, p);
      }
    }
    forall v | v in s'.ends ensures AtHome(s', v, s'.ends[v]) {
      assert v != w ==> AtHome(s, v, s.ends[v]);
    }
  }

  lemma ClaimAtHome(s: System, w: Window, e: End, request: RequestId, t: TransferId)
    requires LinksOk(s, w, e) && AtHome(s, w, e)
    ensures AtHome(s, w, OnClaim(e, request, t).0)
    ensures forall m | m in OnClaim(e, request, t).1 && m.Offer? :: OwnToken(s, w, m.transfer)
  {
    if t in e.sources {
      assert SourceOk(s, w, e, t);
    }
  }

  lemma OfferMessages(e: End, request: RequestId, offered: Option<Tab>)
    ensures OnOffer(e, request, offered).0.preparations == e.preparations
    ensures forall m | m in OnOffer(e, request, offered).1 :: !m.Offer?
  {
  }

  lemma ClaimTravels(s: System, w: Window, request: RequestId, t: TransferId)
    requires Travels(s) && w in s.ends && LinksOk(s, w, s.ends[w])
    ensures Travels(DeliverTo(s, w, Claim(request, t)))
  {
    assert AtHome(s, w, s.ends[w]);
    ClaimAtHome(s, w, s.ends[w], request, t);
    ActTravels(s, DeliverTo(s, w, Claim(request, t)), w, OnClaim(s.ends[w], request, t));
  }

  lemma OfferTravels(s: System, w: Window, m: Message)
    requires Travels(s) && w in s.ends && m.Offer?
    ensures Travels(DeliverTo(s, w, m))
  {
    assert AtHome(s, w, s.ends[w]);
    OfferMessages(s.ends[w], m.request, m.offered);
    ActTravels(s, DeliverTo(s, w, m), w, OnOffer(s.ends[w], m.request, m.offered));
  }

  lemma DeliverTravels(s: System, w: Window, m: Message)
    requires Travels(s) && w in s.ends && LinksOk(s, w, s.ends[w])
    ensures Travels(DeliverTo(s, w, m))
  {
    match m {
      case Claim(request, t) => ClaimTravels(s, w, request, t);
      case Offer(_, _, _) => OfferTravels(s, w, m);
      case Cancel(t) =>
        assert AtHome(s, w, s.ends[w]);
        ActTravels(s, DeliverTo(s, w, m), w, (OnCancel(s.ends[w], t), []));
      case Complete(t) =>
        assert AtHome(s, w, s.ends[w]);
        ActTravels(s, DeliverTo(s, w, m), w, (OnComplete(s.ends[w], t), []));
    }
  }

  lemma TakeTravels(s: System, p: Packet)
    requires Travels(s)
    ensures Travels(s.(bus := s.bus - multiset{p}))
  {
    var s0 := s.(bus := s.bus - multiset{p});
    assert forall q | q in s0.bus :: Away(s, q) ==> Away(s0, q);
    assert forall v | v in s0.ends :: AtHome(s, v, s.ends[v]) ==> AtHome(s0, v, s0.ends[v]);
  }

  lemma SettleTravels(s: System, w: Window, n: nat, ready: bool)
    requires Travels(s) && Enabled(s, Prepared(w, n, ready))
    ensures Travels(Step(s, Prepared(w, n, ready)))
  {
    assert AtHome(s, w, s.ends[w]);
    assert OwnToken(s, w, s.ends[w].preparations[n].transfer);
    ActTravels(s, Step(s, Prepared(w, n, ready)), w, Settle(s.ends[w], n, ready));
  }

  lemma StepTravels(s: System, ev: Event)
    requires WellFormed(s) && Travels(s) && Enabled(s, ev)
    ensures Travels(Step(s, ev))
  {
    match ev {
      case Deliver(p) =>
        TakeTravels(s, p);
        TakenLinks(s, p);
        DeliverTravels(s.(bus := s.bus - multiset{p}), p.to, p.message);
      case Prepared(w, n, ready) => SettleTravels(s, w, n, ready);
      case _ => OwnTravels(s, ev);
    }
  }

  lemma LinksIgnoreBus(s: System, bus: multiset<Packet>, w: Window, e: End)
    requires LinksOk(s, w, e)
    ensures LinksOk(s.(bus := bus), w, e)
  {
    var s' := s.(bus := bus);
    assert forall t | t in e.sources :: SourceOk(s, w, e, t) ==> SourceOk(s', w, e, t);
    assert forall p | p in e.preparations :: PreparationOk(s, p) ==> PreparationOk(s', p);
  }

  lemma TakenLinks(s: System, p: Packet)
    requires WellFormed(s) && Enabled(s, Deliver(p))
    ensures LinksOk(s.(bus := s.bus - multiset{p}), p.to, s.ends[p.to])
  {
    assert EndOk(s, p.to, s.ends[p.to]);
    LinksIgnoreBus(s, s.bus - multiset{p}, p.to, s.ends[p.to]);
  }

  /** The other steps send no offers and prepare nothing. */
  lemma OwnTravels(s: System, ev: Event)
    requires Travels(s) && Enabled(s, ev) && !ev.Deliver? && !ev.Prepared?
    ensures Travels(Step(s, ev))
  {
    var s', w := Step(s, ev), ev.w;
    var out := match ev
      case Drop(_, request, t, blank) => StartClaim(s.ends[w], request, t, blank).1
      case Retry(_, request) => RetryClaim(s.ends[w], request)
      case TimeOut(_, request) => ClaimTimeout(s.ends[w], request).1
      case Session(_, tab, attached) => Attach(s.ends[w], tab, attached).1
      case _ => [];
    assert AtHome(s, w, s.ends[w]);
    ActTravels(s, s', w, (s'.ends[w], out));
  }

  lemma DeliveredBusGrows(s: System, w: Window, m: Message)
    requires w in s.ends
    ensures s.bus <= DeliverTo(s, w, m).bus
  {
  }

  lemma OwnBusGrows(s: System, ev: Event)
    requires Enabled(s, ev) && !ev.Deliver?
    ensures s.bus <= Step(s, ev).bus
  {
  }

  /** Only the delivered packet leaves the bus. */
  lemma BusGrows(s: System, ev: Event)
    requires Enabled(s, ev)
    ensures (if ev.Deliver? then s.bus - multiset{ev.packet} else s.bus) <= Step(s, ev).bus
  {
    if ev.Deliver? {
      DeliveredBusGrows(s.(bus := s.bus - multiset{ev.packet}), ev.packet.to, ev.packet.message);
    } else {
      OwnBusGrows(s, ev);
    }
  }

  lemma DueQuiet(s: System, s': System)
    requires Due(s) && s'.adoptions == s.adoptions && (forall t | t in Adopted(s) && Active(s', t) :: Active(s, t))
    requires forall t | t in s.registry :: t in s'.registry && s'.registry[t] == s.registry[t]
    requires forall p | p in s.bus && p.message.Complete? :: p in s'.bus
    ensures Due(s')
  {
  }

  lemma DueOffer(s: System, p: Packet)
    requires Due(s) && p.message.Offer? && Ready(s, p) && Away(s, p)
    ensures Due(DeliverTo(s, p.to, p.message))
  {
    var w, m, s' := p.to, p.message, DeliverTo(s, p.to, p.message);
    if Adopts(s.ends[w], m.request, m.offered) {
      AnAdoption(s, w, m);
      OfferSends(s, w, m);
      AdoptDue(s, s', w, m.transfer, m.offered.value);
    } else {
      NoAdoption(s, w, m);
      DueQuiet(s, s');
    }
  }

  lemma OfferSends(s: System, w: Window, m: Message)
    requires w in s.ends && m.Offer? && Adopts(s.ends[w], m.request, m.offered) && Expected(s, w, m)
    ensures var s' := DeliverTo(s, w, m);
            && s.bus <= s'.bus
            && (Reported(m.offered.value) ==> forall v | v in s.ends && v != w ::
                 OnItsWay(s', v, Complete(m.transfer)))
  {
    SentOk(s, w, OnOffer(s.ends[w], m.request, m.offered).1);
    if Reported(m.offered.value) {
      assert OnOffer(s.ends[w], m.request, m.offered).1 == [Complete(m.transfer)];
      assert Complete(m.transfer) in [Complete(m.transfer)];
      forall v | v in s.ends && v != w ensures OnItsWay(DeliverTo(s, w, m), v, Complete(m.transfer)) {
        assert Packet(w, v, Complete(m.transfer)) in DeliverTo(s, w, m).bus;
      }
    }
  }

  lemma StillOnItsWay(s: System, s': System, to: Window, m: Message)
    requires OnItsWay(s, to, m) && s.bus <= s'.bus
    ensures OnItsWay(s', to, m)
  {
    var p :| p in s.bus && p.to == to && p.message == m;
    assert p in s'.bus;
  }

  lemma AdoptDue(s: System, s': System, w: Window, t: TransferId, tab: Tab)
    requires Due(s) && t in s.registry && s.registry[t].tab == tab && s.registry[t].window != w
    requires w in s.ends && w in s'.ends && s'.ends == s.ends[w := s'.ends[w]]
             && s'.ends[w].sources == s.ends[w].sources
    requires s'.registry == s.registry && s'.adoptions == s.adoptions + [Adoption(tab, t, w)] && s.bus <= s'.bus
    requires Reported(tab) ==> forall v | v in s.ends && v != w :: OnItsWay(s', v, Complete(t))
    ensures Due(s')
  {
    forall x | x in Adopted(s') && Active(s', x) && Reported(s'.registry[x].tab)
      ensures OnItsWay(s', s'.registry[x].window, Complete(x))
    {
      assert Active(s, x);
      var a :| a in s'.adoptions && a.transfer == x;
      assert a in s.adoptions || a == Adoption(tab, t, w);
      if x != t {
        assert x in Adopted(s);
        StillOnItsWay(s, s', s.registry[x].window, Complete(x));
      }
    }
  }

  lemma DueComplete(s: System, p: Packet, t: TransferId)
    requires Due(s) && Enabled(s, Deliver(p)) && p.message == Complete(t)
    ensures Due(Step(s, Deliver(p)))
  {
    var s' := Step(s, Deliver(p));
    BusGrows(s, Deliver(p));
    forall x | x in Adopted(s') && Active(s', x) && Reported(s'.registry[x].tab)
      ensures OnItsWay(s', s'.registry[x].window, Complete(x))
    {
      assert Active(s, x);
      var q :| q in s.bus && q.to == s.registry[x].window && q.message == Complete(x);
      assert q != p;
    }
  }

  lemma DeliverDue(s: System, p: Packet)
    requires WellFormed(s) && Travels(s) && Due(s) && Enabled(s, Deliver(p))
    ensures Due(Step(s, Deliver(p)))
  {
    match p.message {
      case Complete(t) => DueComplete(s, p, t);
      case Offer(_, _, _) =>
        assert Away(s, p);
        TakenReady(s, p);
        DueQuiet(s, s.(bus := s.bus - multiset{p}));
        DueOffer(s.(bus := s.bus - multiset{p}), p);
      case _ => DueQuietly(s, Deliver(p));
    }
  }

  /** The other steps adopt nothing, take no `complete` off the bus, and register only new tokens. */
  lemma DueQuietly(s: System, ev: Event)
    requires Due(s) && Enabled(s, ev) && !ev.Open? && !ev.Close? && !ev.Drag?
    requires ev.Deliver? ==> ev.packet.message.Claim? || ev.packet.message.Cancel?
    ensures Due(Step(s, ev))
  {
    BusGrows(s, ev);
    if ev.Deliver? {
      QuietMessage(s.(bus := s.bus - multiset{ev.packet}), ev.packet.to, ev.packet.message);
    } else {
      QuietEvent(s, ev);
    }
    DueQuiet(s, Step(s, ev));
  }

  lemma DueUser(s: System, ev: Event)
    requires Due(s) && Enabled(s, ev) && (ev.Open? || ev.Close? || ev.Drag?) && (ev.Drag? ==> ev.t !in Adopted(s))
    ensures Due(Step(s, ev))
  {
    BusGrows(s, ev);
    DueQuiet(s, Step(s, ev));
  }

  lemma StepDue(s: System, ev: Event)
    requires WellFormed(s) && Travels(s) && Due(s) && Enabled(s, ev)
    ensures Due(Step(s, ev))
  {
    match ev {
      case Deliver(p) => DeliverDue(s, p);
      case Drag(_, t, _) =>
        NotAdopted(s, t);
        DueUser(s, ev);
      case Open(_, _) => DueUser(s, ev);
      case Close(_, _) => DueUser(s, ev);
      case _ => DueQuietly(s, ev);
    }
  }

  lemma NotAdopted(s: System, t: TransferId)
    requires TokensOk(s) && t !in s.registry
    ensures t !in Adopted(s)
  {
  }

  ghost predicate Sound(s: System)
  {
    WellFormed(s) && Travels(s) && Due(s)
  }

  lemma StepSound(s: System, ev: Event)
    requires Sound(s) && Enabled(s, ev)
    ensures Sound(Step(s, ev))
  {
    StepWellFormed(s, ev);
    StepTravels(s, ev);
    StepDue(s, ev);
  }

  lemma InitialSound(s: System)
    requires Initial(s)
    ensures Sound(s)
  {
    assert s.bus == multiset{} && Adopted(s) == {};
    assert forall w | w in s.ends :: s.ends[w] == NEW_END;
    assert forall w | w in s.ends :: AtHome(s, w, s.ends[w]) && EndOk(s, w, s.ends[w]);
  }

  lemma NextSound(states: seq<System>, events: seq<Event>, i: nat)
    requires |states| == |events| + 1 && i < |events| && Next(states, events, i) && Sound(states[i])
    ensures Sound(states[i + 1])
  {
    StepSound(states[i], events[i]);
  }

  lemma {:induction false} RunSound(states: seq<System>, events: seq<Event>, k: nat)
    requires Run(states, events) && k < |states|
    ensures Sound(states[k])
  {
    if k > 0 {
      RunSound(states, events, k - 1);
      NextSound(states, events, k - 1);
    } else {
      InitialSound(states[0]);
    }
  }

  lemma OfferGiving(s: System, w: Window, m: Message, tab: Tab)
    requires w in s.ends && m.Offer? && Expected(s, w, m)
    ensures Giving(DeliverTo(s, w, m), tab)
            == if Adopts(s.ends[w], m.request, m.offered) && m.offered.value == tab && Active(s, m.transfer)
               then Giving(s, tab) + {s.registry[m.transfer].window} else Giving(s, tab)
  {
    OfferDebt(s, w, m, tab);
    assert DeliverTo(s, w, m).registry == s.registry;
  }

  lemma OfferKept(s: System, p: Packet, tab: Tab)
    requires p.to in s.ends && p.message.Offer? && Expected(s, p.to, p.message) && Kept(s, tab) && Away(s, p)
    ensures Kept(DeliverTo(s, p.to, p.message), tab) <==> !Strips(s, Deliver(p), tab)
  {
    OfferHolders(s, p.to, p.message, tab);
    OfferGiving(s, p.to, p.message, tab);
  }

  lemma CompleteKept(s: System, w: Window, t: TransferId, tab: Tab)
    requires w in s.ends && Known(s, w, t)
    ensures var s' := DeliverTo(s, w, Complete(t));
            Holders(s', tab) - Giving(s', tab) == Holders(s, tab) - Giving(s, tab)
  {
    var s' := DeliverTo(s, w, Complete(t));
    CompleteEffect(s, w, t, tab);
    if Closes(s.ends[w], t, tab) {
      assert Giving(s, tab) == Giving(s', tab) + {w} by {
        assert Debt(s, tab) == Debt(s', tab) + {t};
      }
    } else {
      assert Giving(s, tab) == Giving(s', tab);
    }
  }

  lemma ArrivalKept(s: System, p: Packet, tab: Tab)
    requires Ready(s, p) && Kept(s, tab) && Away(s, p)
    ensures Kept(DeliverTo(s, p.to, p.message), tab) <==> !Strips(s, Deliver(p), tab)
  {
    match p.message {
      case Offer(_, _, _) => OfferKept(s, p, tab);
      case Complete(t) =>
        CompleteKept(s, p.to, t, tab);
        var v :| v in Holders(s, tab) && v !in Giving(s, tab);
        assert v in Holders(s, tab) - Giving(s, tab);
      case _ =>
        QuietMessage(s, p.to, p.message);
        QuietEffect(s, DeliverTo(s, p.to, p.message), p.to, tab);
        KeptWhenSame(s, DeliverTo(s, p.to, p.message), tab);
    }
  }

  lemma TakeStrips(s: System, p: Packet, tab: Tab)
    ensures var s0 := s.(bus := s.bus - multiset{p});
            && (Kept(s0, tab) <==> Kept(s, tab)) && (Away(s0, p) <==> Away(s, p))
            && (Strips(s0, Deliver(p), tab) <==> Strips(s, Deliver(p), tab))
  {
    TakeEffect(s, p, tab);
  }

  lemma DeliveryKept(s: System, p: Packet, tab: Tab)
    requires WellFormed(s) && Kept(s, tab) && Enabled(s, Deliver(p)) && Away(s, p)
    ensures Kept(Step(s, Deliver(p)), tab) <==> !Strips(s, Deliver(p), tab)
  {
    TakenReady(s, p);
    TakeStrips(s, p, tab);
    ArrivalKept(s.(bus := s.bus - multiset{p}), p, tab);
  }

  /** Of all steps, exactly those that strip a tab take it from its last lasting holder. */
  lemma StepKeptExactly(s: System, ev: Event, tab: Tab)
    requires Sound(s) && Enabled(s, ev) && Kept(s, tab) && tab in s.tabs && tab !in Step(s, ev).closed
    ensures Kept(Step(s, ev), tab) <==> !Strips(s, ev, tab)
  {
    var s' := Step(s, ev);
    match ev {
      case Deliver(p) =>
        assert Away(s, p);
        DeliveryKept(s, p, tab);
      case Open(_, _) => UserKept(s, ev, tab);
      case Close(_, _) => UserKept(s, ev, tab);
      case Drag(_, _, _) => UserKept(s, ev, tab);
      case _ =>
        QuietEvent(s, ev);
        QuietEffect(s, s', ev.w, tab);
        KeptWhenSame(s, s', tab);
    }
  }

  lemma UserKept(s: System, ev: Event, tab: Tab)
    requires TokensOk(s) && Enabled(s, ev) && (ev.Open? || ev.Close? || ev.Drag?) && (!ev.Drag? ==> ev.tab != tab)
    requires Kept(s, tab)
    ensures Kept(Step(s, ev), tab)
  {
    UserEffect(s, ev, tab);
    assert Giving(Step(s, ev), tab) == Giving(s, tab);
  }

  /** The step strips no tab that exists and was not closed. */
  ghost predicate Spares(s: System, ev: Event, tab: Tab)
  {
    Present(s, tab) ==> !Strips(s, ev, tab)
  }

  lemma NextKept(s: System, ev: Event, tab: Tab)
    requires Sound(s) && Enabled(s, ev) && Present(Step(s, ev), tab) && Spares(s, ev, tab)
    requires Present(s, tab) ==> Kept(s, tab)
    ensures Kept(Step(s, ev), tab)
  {
    PresentBefore(s, ev, tab);
    if Present(s, tab) {
      StepKeptExactly(s, ev, tab);
    } else {
      NewTab(s, ev.w, tab);
      assert ev.w in Holders(Step(s, ev), tab);
    }
  }

  lemma {:induction false} RunKept(states: seq<System>, events: seq<Event>, k: nat, tab: Tab)
    requires Run(states, events) && k < |states| && Present(states[k], tab)
    requires forall i | 0 <= i < k :: Spares(states[i], events[i], tab)
    ensures Kept(states[k], tab)
  {
    if k > 0 {
      assert Next(states, events, k - 1);
      RunSound(states, events, k - 1);
      if Present(states[k - 1], tab) {
        RunKept(states, events, k - 1, tab);
      }
      NextKept(states[k - 1], events[k - 1], tab);
    }
  }

  /**
   * Whatever claims, retries, offers, timeouts, cancels, expiries and completes do, in whatever
   * order messages arrive and with any number of windows: until somebody closes it, a tab has a
   * lasting holder at every moment if and only if no step of the run strips it.
   */
  lemma KeptExactly(states: seq<System>, events: seq<Event>, tab: Tab)
    requires Run(states, events)
    ensures (forall k | 0 <= k < |states| && Present(states[k], tab) :: Kept(states[k], tab))
            <==> (forall i | 0 <= i < |events| :: Spares(states[i], events[i], tab))
  {
    if forall k | 0 <= k < |states| && Present(states[k], tab) :: Kept(states[k], tab) {
      forall i: nat | i < |events| ensures Spares(states[i], events[i], tab) {
        assert Next(states, events, i);
        RunSound(states, events, i);
        if Strips(states[i], events[i], tab) && Present(states[i], tab) {
          assert Present(states[i + 1], tab);
          StepKeptExactly(states[i], events[i], tab);
        }
      }
    }
    if forall i | 0 <= i < |events| :: Spares(states[i], events[i], tab) {
      forall k: nat | k < |states| && Present(states[k], tab) ensures Kept(states[k], tab) {
        RunKept(states, events, k, tab);
      }
    }
  }

  /** In such a run a tab nobody closed is always open in some window. */
  lemma NoTabLost(states: seq<System>, events: seq<Event>, k: nat, tab: Tab)
    requires Run(states, events) && k < |states| && Present(states[k], tab)
    requires forall i | 0 <= i < k :: Spares(states[i], events[i], tab)
    ensures exists w :: w in states[k].ends && tab in states[k].ends[w].tabs
  {
    RunKept(states, events, k, tab);
    var w :| w in Holders(states[k], tab) && w !in Giving(states[k], tab);
  }

  lemma HeldSpares(s: System, p: Packet, tab: Tab)
    requires WellFormed(s) && Away(s, p) && Held(s, tab) && Enabled(s, Deliver(p))
    requires tab.surface == Page ==> OnlyBlank(s, Deliver(p))
    ensures !Strips(s, Deliver(p), tab)
  {
    HeldIsKept(s, tab);
    HeldDelivery(s, p, tab);
    HeldIsKept(Step(s, Deliver(p)), tab);
    DeliveryKept(s, p, tab);
  }

  /** That covers every docked tab, and every page while windows replace nothing but their blank tab. */
  lemma BlankTabsSpare(states: seq<System>, events: seq<Event>, i: nat, tab: Tab)
    requires Run(states, events) && i < |events|
    requires tab.surface == Page ==> forall j | 0 <= j <= i :: OnlyBlank(states[j], events[j])
    ensures Spares(states[i], events[i], tab)
  {
    assert Next(states, events, i);
    if events[i].Deliver? && Present(states[i], tab) {
      RunHeld(states, events, i, tab);
      RunSound(states, events, i);
      assert Away(states[i], events[i].packet);
      HeldSpares(states[i], events[i].packet, tab);
    }
  }

  // ---- What is left once every `complete` has arrived ---------------------------------------------

  /** A sequence of deliveries that brings every `complete` on the bus to its window, and nothing else. */
  ghost predicate Drains(s: System, states: seq<System>, events: seq<Event>)
  {
    && |states| == |events| + 1 && states[0] == s
    && (forall i: nat | i < |events| ::
          events[i].Deliver? && events[i].packet.message.Complete? && Next(states, events, i))
    && (forall p | p in states[|events|].bus && p.message.Complete? :: p.to !in states[|events|].ends)
  }

  lemma DrainFirst(s: System, p: Packet, later: seq<System>, rest: seq<Event>)
    requires Enabled(s, Deliver(p)) && p.message.Complete? && Drains(Step(s, Deliver(p)), later, rest)
    ensures Drains(s, [s] + later, [Deliver(p)] + rest)
  {
    var states, events := [s] + later, [Deliver(p)] + rest;
    forall i: nat | i < |events|
      ensures events[i].Deliver? && events[i].packet.message.Complete? && Next(states, events, i)
    {
      if i > 0 {
        assert Next(later, rest, i - 1);
      }
    }
    assert states[|events|] == later[|rest|];
  }

  lemma CompleteShrinks(s: System, p: Packet)
    requires Enabled(s, Deliver(p)) && p.message.Complete?
    ensures |Step(s, Deliver(p)).bus| < |s.bus|
  {
    var s0 := s.(bus := s.bus - multiset{p});
    assert Sent(s0, p.to, []) == multiset{};
    assert Step(s, Deliver(p)).bus == s0.bus + multiset{};
    assert s.bus == s0.bus + multiset{p};
  }

  /** There always is one. */
  lemma {:induction false} CanDrain(s: System) returns (states: seq<System>, events: seq<Event>)
    ensures Drains(s, states, events)
    decreases |s.bus|
  {
    if p :| p in s.bus && p.message.Complete? && p.to in s.ends {
      CompleteShrinks(s, p);
      var later, rest := CanDrain(Step(s, Deliver(p)));
      DrainFirst(s, p, later, rest);
      states, events := [s] + later, [Deliver(p)] + rest;
    } else {
      states, events := [s], [];
    }
  }

  lemma DrainNext(before: System, after: System, p: Packet, tab: Tab)
    requires Sound(before) && Enabled(before, Deliver(p)) && p.message.Complete? && after == Step(before, Deliver(p))
    ensures Sound(after)
    ensures Holders(after, tab) - Giving(after, tab) == Holders(before, tab) - Giving(before, tab)
  {
    StepSound(before, Deliver(p));
    DeliveredComplete(before, p, tab);
  }

  lemma {:induction false} DrainStep(s: System, states: seq<System>, events: seq<Event>, k: nat, tab: Tab)
    requires Sound(s) && Drains(s, states, events) && k < |states|
    ensures Sound(states[k])
    ensures Holders(states[k], tab) - Giving(states[k], tab) == Holders(s, tab) - Giving(s, tab)
  {
    if k > 0 {
      DrainStep(s, states, events, k - 1, tab);
      assert Next(states, events, k - 1);
      DrainNext(states[k - 1], states[k], events[k - 1].packet, tab);
    }
  }

  lemma DeliveredComplete(s: System, p: Packet, tab: Tab)
    requires WellFormed(s) && Enabled(s, Deliver(p)) && p.message.Complete?
    ensures var s' := Step(s, Deliver(p));
            Holders(s', tab) - Giving(s', tab) == Holders(s, tab) - Giving(s, tab)
  {
    TakenReady(s, p);
    TakeEffect(s, p, tab);
    CompleteKept(s.(bus := s.bus - multiset{p}), p.to, p.message.transfer, tab);
  }

  lemma NothingDue(s: System, tab: Tab)
    requires Due(s) && Reported(tab) && forall p | p in s.bus && p.message.Complete? :: p.to !in s.ends
    ensures Giving(s, tab) == {}
  {
    assert forall t | t in Debt(s, tab) :: OnItsWay(s, s.registry[t].window, Complete(t));
  }

  /** In the end a page or log tab is open in exactly the windows that were not about to close it. */
  lemma DrainedExactly(s: System, states: seq<System>, events: seq<Event>, tab: Tab)
    requires Sound(s) && Drains(s, states, events) && Reported(tab)
    ensures Holders(states[|events|], tab) == Holders(s, tab) - Giving(s, tab)
  {
    DrainStep(s, states, events, |events|, tab);
    NothingDue(states[|events|], tab);
  }

  // ---- One receiver ----------------------------------------------------------------------------

  ghost function AdoptionsOf(s: System, tab: Tab): set<nat>
  {
    set i | 0 <= i < |s.adoptions| && s.adoptions[i].tab == tab
  }

  /** A token whose source is gone was completed or retired; only adopted tokens are completed. */
  ghost predicate TokensEnd(s: System)
  {
    && (forall t | t in s.registry :: s.registry[t].window in s.ends)
    && (forall t | t in s.registry :: Active(s, t) || t in s.completed || t in s.retired)
    && s.completed <= Adopted(s)
  }

  /** Where a tab may be as long as it has been adopted at most once. */
  ghost predicate OneWay(s: System, tab: Tab)
  {
    && (AdoptionsOf(s, tab) == {} ==> exists home :: HomeOf(s, tab, home))
    && (forall i | AdoptionsOf(s, tab) == {i} ::
          var a := s.adoptions[i];
          && a.transfer in s.registry
          && var home := s.registry[a.transfer].window;
             && (tab.surface == Dock ==> home != a.window)
             && Bounded(tab, Holders(s, tab), if a.transfer in s.completed then {a.window} else {home, a.window}))
  }

  /** Pages may have been swept away; docked tabs are never missing. */
  ghost predicate Bounded(tab: Tab, holders: set<Window>, bound: set<Window>)
  {
    holders <= bound && (tab.surface == Dock ==> holders == bound)
  }

  ghost predicate HomeOf(s: System, tab: Tab, home: Window)
  {
    && Bounded(tab, Holders(s, tab), {home})
    && forall t | t in s.registry && s.registry[t].tab == tab :: s.registry[t].window == home
  }

  /** What a step leaves alone that neither adopts nor completes the tab. */
  ghost predicate Untouched(s: System, s': System, tab: Tab)
  {
    && Bounded(tab, Holders(s', tab), Holders(s, tab))
    && AdoptionsOf(s', tab) == AdoptionsOf(s, tab) && s.adoptions <= s'.adoptions
    && (forall t | t in s.registry :: t in s'.registry && s'.registry[t] == s.registry[t])
    && (forall t | t in s'.registry && t !in s.registry && s'.registry[t].tab == tab ::
         s'.registry[t].window in Holders(s, tab))
    && s.completed <= s'.completed
  }

  lemma OneWayUntouched(s: System, s': System, tab: Tab)
    requires OneWay(s, tab) && Untouched(s, s', tab)
    requires forall i | i in AdoptionsOf(s, tab) && s.adoptions[i].transfer in s'.completed ::
             s.adoptions[i].transfer in s.completed
    ensures OneWay(s', tab)
  {
    if AdoptionsOf(s', tab) == {} {
      var home :| HomeOf(s, tab, home);
      assert HomeOf(s', tab, home);
    }
    forall i | AdoptionsOf(s', tab) == {i} ensures i in AdoptionsOf(s, tab) && s'.adoptions[i] == s.adoptions[i] {
      assert i in AdoptionsOf(s', tab);
    }
  }

  lemma AdoptedCounts(s: System, t: TransferId)
    requires TokensOk(s) && t in Adopted(s)
    ensures t in s.registry && AdoptionsOf(s, s.registry[t].tab) != {}
  {
    var a :| a in s.adoptions && a.transfer == t;
    var i :| 0 <= i < |s.adoptions| && s.adoptions[i] == a;
    assert i in AdoptionsOf(s, a.tab);
  }

  lemma OneWayAdopt(s: System, s': System, w: Window, t: TransferId, tab: Tab)
    requires OneWay(s, tab) && TokensOk(s) && TokensEnd(s) && t in s.registry && s.registry[t].tab == tab
    requires s'.adoptions == s.adoptions + [Adoption(tab, t, w)]
    requires s'.registry == s.registry && s'.completed == s.completed
    requires Bounded(tab, Holders(s', tab), Holders(s, tab) + {w}) && (tab.surface == Dock ==> w !in Holders(s, tab))
    ensures OneWay(s', tab)
  {
    var n := |s.adoptions|;
    assert n in AdoptionsOf(s', tab);
    if i :| i in AdoptionsOf(s, tab) {
      assert i in AdoptionsOf(s', tab) && i != n;
    } else {
      var home :| HomeOf(s, tab, home);
      assert t !in s.completed by { if t in Adopted(s) { AdoptedCounts(s, t); } }
      forall i | AdoptionsOf(s', tab) == {i} ensures i == n {
        assert n in {i};
      }
    }
  }

  lemma OneWayComplete(s: System, s': System, w: Window, t: TransferId, tab: Tab)
    requires OneWay(s, tab) && TokensOk(s) && t in Adopted(s) && t in s.registry
             && s.registry[t] == Registration(w, tab)
    requires s'.adoptions == s.adoptions && s'.registry == s.registry && s'.completed == s.completed + {t}
    requires Holders(s', tab) == Holders(s, tab) - {w}
    ensures OneWay(s', tab)
  {
    var a :| a in s.adoptions && a.transfer == t;
    var n :| 0 <= n < |s.adoptions| && s.adoptions[n] == a;
    assert n in AdoptionsOf(s, tab) && AdoptionsOf(s', tab) == AdoptionsOf(s, tab);
    forall i | AdoptionsOf(s', tab) == {i} ensures i == n {
      assert n in {i};
    }
  }

  lemma OneWayOffer(s: System, p: Packet, tab: Tab)
    requires Ready(s, p) && TokensEnd(s) && OneWay(s, tab) && p.message.Offer?
    ensures OneWay(DeliverTo(s, p.to, p.message), tab)
  {
    var m, s' := p.message, DeliverTo(s, p.to, p.message);
    OfferHolders(s, p.to, m, tab);
    if !Adopts(s.ends[p.to], m.request, m.offered) {
      NoAdoption(s, p.to, m);
      OneWayUntouched(s, s', tab);
    } else {
      AnAdoption(s, p.to, m);
      OneWayAdoption(s, s', p.to, m.transfer, m.offered.value, tab);
    }
  }

  lemma OneWayAdoption(s: System, s': System, w: Window, t: TransferId, adopted: Tab, tab: Tab)
    requires OneWay(s, tab) && TokensOk(s) && TokensEnd(s) && t in s.registry && s.registry[t].tab == adopted
    requires s'.adoptions == s.adoptions + [Adoption(adopted, t, w)] && s'.registry == s.registry
             && s'.completed == s.completed
    requires Bounded(tab, Holders(s', tab), if adopted == tab then Holders(s, tab) + {w} else Holders(s, tab))
    requires adopted == tab && tab.surface == Dock ==> w !in Holders(s, tab)
    ensures OneWay(s', tab)
  {
    if adopted == tab {
      OneWayAdopt(s, s', w, t, tab);
    } else {
      assert AdoptionsOf(s', tab) == AdoptionsOf(s, tab);
      OneWayUntouched(s, s', tab);
    }
  }

  lemma OneWayDone(s: System, w: Window, t: TransferId, tab: Tab)
    requires TokensOk(s) && OneWay(s, tab) && w in s.ends && Known(s, w, t)
    ensures OneWay(DeliverTo(s, w, Complete(t)), tab)
  {
    var s' := DeliverTo(s, w, Complete(t));
    CompleteEffect(s, w, t, tab);
    if Closes(s.ends[w], t, tab) {
      OneWayComplete(s, s', w, t, tab);
    } else {
      assert AdoptionsOf(s', tab) == AdoptionsOf(s, tab);
      OneWayUntouched(s, s', tab);
    }
  }

  lemma OneWayArrival(s: System, p: Packet, tab: Tab)
    requires Ready(s, p) && TokensOk(s) && TokensEnd(s) && OneWay(s, tab)
    ensures OneWay(DeliverTo(s, p.to, p.message), tab)
  {
    match p.message {
      case Offer(_, _, _) => OneWayOffer(s, p, tab);
      case Complete(t) => OneWayDone(s, p.to, t, tab);
      case _ =>
        QuietMessage(s, p.to, p.message);
        OneWayQuiet(s, DeliverTo(s, p.to, p.message), p.to, tab);
    }
  }

  lemma OneWayTaken(s: System, p: Packet, tab: Tab)
    requires TokensOk(s) && TokensEnd(s) && OneWay(s, tab) && p.to in s.ends
    ensures var s0 := s.(bus := s.bus - multiset{p});
            TokensOk(s0) && TokensEnd(s0) && OneWay(s0, tab)
  {
    var s0 := s.(bus := s.bus - multiset{p});
    TakeEffect(s, p, tab);
    EndsInto(s, s0, p.to);
    assert AdoptionsOf(s0, tab) == AdoptionsOf(s, tab);
    OneWayUntouched(s, s0, tab);
  }

  lemma OneWayDelivery(s: System, p: Packet, tab: Tab)
    requires WellFormed(s) && TokensEnd(s) && OneWay(s, tab) && Enabled(s, Deliver(p))
    ensures OneWay(Step(s, Deliver(p)), tab)
  {
    TakenReady(s, p);
    OneWayTaken(s, p, tab);
    OneWayArrival(s.(bus := s.bus - multiset{p}), p, tab);
  }

  lemma StepOneWay(s: System, ev: Event, tab: Tab)
    requires WellFormed(s) && TokensEnd(s) && OneWay(s, tab) && Enabled(s, ev) && tab in s.tabs
             && tab !in Step(s, ev).closed
    ensures OneWay(Step(s, ev), tab)
  {
    match ev {
      case Deliver(p) => OneWayDelivery(s, p, tab);
      case Drag(_, _, _) => OneWayUser(s, ev, tab);
      case Open(_, _) => OneWayUser(s, ev, tab);
      case Close(_, _) => OneWayUser(s, ev, tab);
      case _ =>
        QuietEvent(s, ev);
        OneWayQuiet(s, Step(s, ev), ev.w, tab);
    }
  }

  lemma OneWayQuiet(s: System, s': System, w: Window, tab: Tab)
    requires OneWay(s, tab) && Quiet(s, s', w) && s'.completed == s.completed
    ensures OneWay(s', tab)
  {
    QuietEffect(s, s', w, tab);
    assert AdoptionsOf(s', tab) == AdoptionsOf(s, tab);
    OneWayUntouched(s, s', tab);
  }

  lemma OneWayUser(s: System, ev: Event, tab: Tab)
    requires TokensOk(s) && OneWay(s, tab) && Enabled(s, ev) && (ev.Open? || ev.Close? || ev.Drag?)
             && (!ev.Drag? ==> ev.tab != tab)
    ensures OneWay(Step(s, ev), tab)
  {
    UserEffect(s, ev, tab);
    assert AdoptionsOf(Step(s, ev), tab) == AdoptionsOf(s, tab);
    OneWayUntouched(s, Step(s, ev), tab);
  }

  lemma NewTabOneWay(s: System, w: Window, tab: Tab)
    requires WellFormed(s) && Enabled(s, Open(w, tab))
    ensures OneWay(Step(s, Open(w, tab)), tab)
  {
    NewTab(s, w, tab);
    UnknownToken(s, tab);
    OnlyOpened(Step(s, Open(w, tab)), w, tab);
  }

  /** Nobody has dragged or adopted a tab that does not exist yet. */
  lemma UnknownToken(s: System, tab: Tab)
    requires TokensOk(s) && tab !in s.tabs
    ensures AdoptionsOf(s, tab) == {} && forall t | t in s.registry :: s.registry[t].tab != tab
  {
  }

  lemma OnlyOpened(s: System, w: Window, tab: Tab)
    requires Holders(s, tab) == {w} && AdoptionsOf(s, tab) == {}
    requires forall t | t in s.registry :: s.registry[t].tab != tab
    ensures OneWay(s, tab)
  {
    assert HomeOf(s, tab, w);
    assert forall i :: AdoptionsOf(s, tab) != {i};
  }

  // ---- Tokens end ------------------------------------------------------------------------------

  /** One end changed; sources disappear only into `completed` or `retired`. */
  lemma EndsInto(s: System, s': System, w: Window)
    requires TokensEnd(s) && w in s.ends && w in s'.ends && s'.ends == s.ends[w := s'.ends[w]]
    requires s'.registry == s.registry && s.adoptions <= s'.adoptions && s.retired <= s'.retired
             && s.completed <= s'.completed
    requires forall t | t in s.ends[w].sources && t !in s'.ends[w].sources :: t in s'.completed || t in s'.retired
    requires forall t | t in s'.completed :: t in s.completed || t in Adopted(s)
    ensures TokensEnd(s')
  {
    assert forall a | a in s.adoptions :: a in s'.adoptions;
    assert Adopted(s) <= Adopted(s');
    forall t | t in s'.registry ensures Active(s', t) || t in s'.completed || t in s'.retired {
      assert Active(s, t) || t in s.completed || t in s.retired;
    }
  }

  lemma DeliverTokensEnd(s: System, w: Window, m: Message)
    requires TokensEnd(s) && w in s.ends && MessageOk(s, m)
    ensures TokensEnd(DeliverTo(s, w, m))
  {
    var s' := DeliverTo(s, w, m);
    match m {
      case Offer(request, t, offered) =>
        assert s'.ends[w].sources == s.ends[w].sources;
        EndsInto(s, s', w);
      case _ => EndsInto(s, s', w);
    }
  }

  lemma DragTokensEnd(s: System, w: Window, t: TransferId, tab: Tab)
    requires TokensEnd(s) && Enabled(s, Drag(w, t, tab))
    ensures TokensEnd(Step(s, Drag(w, t, tab)))
  {
    var s' := Step(s, Drag(w, t, tab));
    forall x | x in s'.registry ensures s'.registry[x].window in s'.ends
        && (Active(s', x) || x in s'.completed || x in s'.retired) {
      assert x in s.registry ==> Active(s, x) || x in s.completed || x in s.retired;
    }
  }

  lemma DeliveryTokensEnd(s: System, p: Packet)
    requires TokensEnd(s) && Enabled(s, Deliver(p)) && MessageOk(s.(bus := s.bus - multiset{p}), p.message)
    ensures TokensEnd(Step(s, Deliver(p)))
  {
    var s0 := s.(bus := s.bus - multiset{p});
    EndsInto(s, s0, p.to);
    DeliverTokensEnd(s0, p.to, p.message);
  }

  lemma StepTokensEnd(s: System, ev: Event)
    requires WellFormed(s) && TokensEnd(s) && Enabled(s, ev)
    ensures TokensEnd(Step(s, ev))
  {
    match ev {
      case Deliver(p) =>
        TakeMessage(s, p);
        DeliveryTokensEnd(s, p);
      case Drag(w, t, tab) => DragTokensEnd(s, w, t, tab);
      case Open(w, _) => EndsInto(s, Step(s, ev), w);
      case Close(w, _) => EndsInto(s, Step(s, ev), w);
      case _ => QuietTokensEnd(s, ev);
    }
  }

  lemma QuietTokensEnd(s: System, ev: Event)
    requires TokensEnd(s) && Enabled(s, ev)
    requires ev.Drop? || ev.Retry? || ev.TimeOut? || ev.Expire? || ev.Prepared? || ev.Session?
    ensures TokensEnd(Step(s, ev))
  {
    QuietEvent(s, ev);
    EndsInto(s, Step(s, ev), ev.w);
  }

  lemma {:induction false} RunTokensEnd(states: seq<System>, events: seq<Event>, k: nat)
    requires Run(states, events) && k < |states|
    ensures TokensEnd(states[k])
  {
    if k > 0 {
      RunTokensEnd(states, events, k - 1);
      RunWellFormed(states, events, k - 1);
      assert Next(states, events, k - 1);
      StepTokensEnd(states[k - 1], events[k - 1]);
    }
  }

  lemma {:induction false} RunOneWay(states: seq<System>, events: seq<Event>, k: nat, tab: Tab)
    requires Run(states, events) && k < |states| && Present(states[k], tab)
    ensures OneWay(states[k], tab)
  {
    if k > 0 {
      var s, ev := states[k - 1], events[k - 1];
      assert Next(states, events, k - 1);
      RunWellFormed(states, events, k - 1);
      PresentBefore(s, ev, tab);
      if Present(s, tab) {
        RunOneWay(states, events, k - 1, tab);
        RunTokensEnd(states, events, k - 1);
        StepOneWay(s, ev, tab);
      } else {
        NewTabOneWay(s, ev.w, tab);
      }
    }
  }

  /**
   * One receiver: a page or log tab that was adopted exactly once, whose token did not run out and
   * whose `complete` has arrived, is open at most in the window that adopted it, and unless some
   * step stripped it, exactly there.
   */
  lemma ExactlyOneWindow(states: seq<System>, events: seq<Event>, k: nat, tab: Tab, i: nat)
    requires Run(states, events) && k < |states| && Present(states[k], tab) && Reported(tab)
    requires AdoptionsOf(states[k], tab) == {i} && i < |states[k].adoptions|
    requires states[k].adoptions[i].transfer !in states[k].retired
    requires forall p | p in states[k].bus :: p.message != Complete(states[k].adoptions[i].transfer)
    ensures Holders(states[k], tab) <= {states[k].adoptions[i].window}
    ensures (forall j | 0 <= j < k :: Spares(states[j], events[j], tab))
            ==> Holders(states[k], tab) == {states[k].adoptions[i].window}
  {
    OneWindowAtMost(states, events, k, tab, i);
    if forall j | 0 <= j < k :: Spares(states[j], events[j], tab) {
      NoTabLost(states, events, k, tab);
      var w :| w in states[k].ends && tab in states[k].ends[w].tabs;
      assert w in Holders(states[k], tab);
    }
  }

  lemma OneWindowAtMost(states: seq<System>, events: seq<Event>, k: nat, tab: Tab, i: nat)
    requires Run(states, events) && k < |states| && Present(states[k], tab) && Reported(tab)
    requires AdoptionsOf(states[k], tab) == {i} && i < |states[k].adoptions|
    requires states[k].adoptions[i].transfer !in states[k].retired
    requires forall p | p in states[k].bus :: p.message != Complete(states[k].adoptions[i].transfer)
    ensures Holders(states[k], tab) <= {states[k].adoptions[i].window}
  {
    RunOneWay(states, events, k, tab);
    RunTokensEnd(states, events, k);
    RunSound(states, events, k);
    CompletedOneWay(states[k], tab, i);
  }

  lemma CompletedOneWay(s: System, tab: Tab, i: nat)
    requires TokensOk(s) && TokensEnd(s) && Due(s) && OneWay(s, tab) && Reported(tab)
    requires AdoptionsOf(s, tab) == {i} && i < |s.adoptions| && s.adoptions[i].transfer !in s.retired
    requires forall p | p in s.bus :: p.message != Complete(s.adoptions[i].transfer)
    ensures Holders(s, tab) <= {s.adoptions[i].window}
  {
    var t := s.adoptions[i].transfer;
    assert i in AdoptionsOf(s, tab);
    assert s.adoptions[i] in s.adoptions && t in Adopted(s);
    var home := s.registry[t].window;
    assert Active(s, t) ==> OnItsWay(s, home, Complete(t));
  }

  // ---- The blank tab ---------------------------------------------------------------------------

  ghost predicate Reaches(s: System)
  {
    exists states, events :: Run(states, events) && states[|states| - 1] == s
  }

  lemma ReachesNext(s: System, ev: Event)
    requires Reaches(s) && Enabled(s, ev)
    ensures Reaches(Step(s, ev))
  {
    var states, events :| Run(states, events) && states[|states| - 1] == s;
    var states', events' := states + [Step(s, ev)], events + [ev];
    forall i: nat | i < |events'| ensures Next(states', events', i) {
      assert i < |events| ==> Next(states, events, i);
    }
    assert Run(states', events') && states'[|states'| - 1] == Step(s, ev);
  }

  lemma ReachedSound(s: System)
    requires Reaches(s)
    ensures Sound(s)
  {
    var states, events :| Run(states, events) && states[|states| - 1] == s;
    RunSound(states, events, |states| - 1);
  }

  /**
   * In every reachable state, a page that takes the place of the blank one loses another page for
   * good if and only if each other window that holds it is the source of an adopted token of its.
   */
  lemma ReplacingLosesExactly(s: System, p: Packet, other: Tab, states: seq<System>, events: seq<Event>)
    requires Reaches(s) && Enabled(s, Deliver(p)) && p.message.Offer?
             && Sweeps(s.ends[p.to], p.message.request, p.message.offered)
    requires other.surface == Page && other != p.message.offered.value
    requires Drains(Step(s, Deliver(p)), states, events)
    ensures Holders(states[|events|], other) == {}
            <==> forall v | v in Holders(s, other) && v != p.to ::
                   exists t :: t in Debt(s, other) && s.registry[t].window == v
  {
    SweptAndDrained(s, p, other, states, events);
    forall v ensures v in Giving(s, other) <==> exists t :: t in Debt(s, other) && s.registry[t].window == v {
    }
    assert forall v | v in Holders(s, other) && v != p.to && v !in Giving(s, other) ::
        v in Holders(states[|events|], other);
  }

  lemma SweptAndDrained(s: System, p: Packet, other: Tab, states: seq<System>, events: seq<Event>)
    requires Reaches(s) && Enabled(s, Deliver(p)) && p.message.Offer?
             && Sweeps(s.ends[p.to], p.message.request, p.message.offered)
    requires other.surface == Page && other != p.message.offered.value
    requires Drains(Step(s, Deliver(p)), states, events)
    ensures Holders(states[|events|], other) == Holders(s, other) - {p.to} - Giving(s, other)
  {
    ReachesNext(s, Deliver(p));
    ReachedSound(s);
    ReachedSound(Step(s, Deliver(p)));
    DrainedExactly(Step(s, Deliver(p)), states, events, other);
    SweepingDelivery(s, p, other);
  }

  lemma SweepingDelivery(s: System, p: Packet, other: Tab)
    requires WellFormed(s) && Enabled(s, Deliver(p)) && p.message.Offer?
    requires Sweeps(s.ends[p.to], p.message.request, p.message.offered)
    requires other.surface == Page && other != p.message.offered.value
    ensures var s' := Step(s, Deliver(p));
            Holders(s', other) == Holders(s, other) - {p.to} && Giving(s', other) == Giving(s, other)
  {
    var s0 := s.(bus := s.bus - multiset{p});
    TakenReady(s, p);
    TakeEffect(s, p, other);
    OfferHolders(s0, p.to, p.message, other);
    OfferGiving(s0, p.to, p.message, other);
  }

  /** For a page or log tab, having a lasting holder is the same as outliving every `complete` on the bus. */
  lemma KeptOutlives(s: System, states: seq<System>, events: seq<Event>, tab: Tab)
    requires Reaches(s) && Drains(s, states, events) && Reported(tab)
    ensures Kept(s, tab) <==> Holders(states[|events|], tab) != {}
  {
    ReachedSound(s);
    DrainedExactly(s, states, events, tab);
    if Kept(s, tab) {
      var v :| v in Holders(s, tab) && v !in Giving(s, tab);
      assert v in Holders(s, tab) - Giving(s, tab);
    } else {
      assert Holders(s, tab) - Giving(s, tab) == {};
    }
  }
}
