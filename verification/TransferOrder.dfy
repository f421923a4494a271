/**
 * Handing tabs over when the channel keeps its order: what one window posts reaches another in the
 * order it was posted, and a window claims a tab for its blank one as the first thing it does. These
 * runs are runs of the general system, and even they can lose a tab.
 */
module TransferOrder {

  import opened Optional
  import opened TabTransfer
  import TransferWindow

  /** All windows, and for every pair of them what is on its way from one to the other, oldest first. */
  datatype Ordered = Ordered(system: System, queues: map<(Window, Window), seq<Message>>)

  ghost function Queue(o: Ordered, from: Window, to: Window): seq<Message>
  {
    if (from, to) in o.queues then o.queues[(from, to)] else []
  }

  /** The window in which a step happens. */
  function At(ev: Event): Window
  {
    match ev
    case Deliver(p) => p.to
    case Open(w, _) => w
    case Close(w, _) => w
    case Drag(w, _, _) => w
    case Drop(w, _, _, _) => w
    case Retry(w, _) => w
    case TimeOut(w, _) => w
    case Expire(w, _) => w
    case Prepared(w, _, _) => w
    case Session(w, _, _) => w
  }

  /** What that window posts in the step. */
  function Posts(s: System, ev: Event): seq<Message>
    requires Enabled(s, ev)
  {
    match ev
    case Deliver(p) => TransferWindow.Handle(s.ends[p.to], p.message).1
    case Drop(w, request, t, replacePlaceholder) => StartClaim(s.ends[w], request, t, replacePlaceholder).1
    case Retry(w, request) => RetryClaim(s.ends[w], request)
    case TimeOut(w, request) => ClaimTimeout(s.ends[w], request).1
    case Prepared(w, n, ready) => Settle(s.ends[w], n, ready).1
    case Session(w, tab, attached) => Attach(s.ends[w], tab, attached).1
    case _ => []
  }

  /** A delivery takes the oldest message of its pair; a blank tab is replaced by a window's first claim. */
  ghost predicate InTurn(o: Ordered, ev: Event)
  {
    && Enabled(o.system, ev)
    && (ev.Deliver? ==>
          var queue := Queue(o, ev.packet.from, ev.packet.to);
          queue != [] && queue[0] == ev.packet.message)
    && (ev.Drop? && ev.replacePlaceholder ==> o.system.ends[ev.w] == NEW_END)
  }

  ghost function Rest(o: Ordered, ev: Event): map<(Window, Window), seq<Message>>
    requires InTurn(o, ev)
  {
    if ev.Deliver? then
      o.queues[(ev.packet.from, ev.packet.to) := Queue(o, ev.packet.from, ev.packet.to)[1..]]
    else o.queues
  }

  ghost function OrderedStep(o: Ordered, ev: Event): Ordered
    requires InTurn(o, ev)
  {
    var rest, out := Rest(o, ev), Posts(o.system, ev);
    Ordered(Step(o.system, ev),
            map pair | pair in rest :: rest[pair] + if pair.0 == At(ev) && pair.1 != At(ev) then out else [])
  }

  ghost predicate OrderedInitial(o: Ordered)
  {
    && Initial(o.system)
    && (forall from, to :: (from, to) in o.queues <==> from in o.system.ends && to in o.system.ends)
    && (forall pair | pair in o.queues :: o.queues[pair] == [])
  }

  ghost predicate OrderedNext(states: seq<Ordered>, events: seq<Event>, i: nat)
    requires |states| == |events| + 1 && i < |events|
  {
    InTurn(states[i], events[i]) && states[i + 1] == OrderedStep(states[i], events[i])
  }

  ghost predicate OrderedRun(states: seq<Ordered>, events: seq<Event>)
  {
    && |states| == |events| + 1 && OrderedInitial(states[0])
    && forall i: nat | i < |events| :: OrderedNext(states, events, i)
  }

  // ---- The queues hold what the bus holds ----------------------------------------------------------

  ghost predicate Synced(o: Ordered)
  {
    && (forall from, to :: (from, to) in o.queues <==> from in o.system.ends && to in o.system.ends)
    && (forall p :: o.system.bus[p] == multiset(Queue(o, p.from, p.to))[p.message])
  }

  lemma {:induction false} SentCount(s: System, from: Window, messages: seq<Message>, p: Packet)
    ensures Sent(s, from, messages)[p]
         == if p.from == from && p.to != from && p.to in s.ends then multiset(messages)[p.message] else 0
  {
    if messages != [] {
      SentCount(s, from, messages[1..], p);
      assert messages == [messages[0]] + messages[1..];
      var first := set w | w in s.ends && w != from :: Packet(from, w, messages[0]);
      assert p in first <==> p.from == from && p.to in s.ends && p.to != from && p.message == messages[0];
      assert multiset(first)[p] == if p in first then 1 else 0;
    }
  }

  lemma DeliveryPosts(s: System, p: Packet)
    requires Enabled(s, Deliver(p))
    ensures Step(s, Deliver(p)).bus == s.bus - multiset{p} + Sent(s, p.to, Posts(s, Deliver(p)))
    ensures Step(s, Deliver(p)).ends.Keys == s.ends.Keys
  {
    var s0 := s.(bus := s.bus - multiset{p});
    TransferWindow.DeliveryIsOneCall(s0, p.to, p.message);
    SentFrom(s0, s, p.to, Posts(s, Deliver(p)));
  }

  lemma ActPosts(s: System, ev: Event)
    requires Enabled(s, ev) && !ev.Deliver?
    ensures Step(s, ev).bus == s.bus + Sent(s, At(ev), Posts(s, ev))
    ensures Step(s, ev).ends == s.ends[At(ev) := Step(s, ev).ends[At(ev)]]
  {
    match ev {
      case Open(_, _) =>
      case Close(_, _) =>
      case Drag(_, _, _) =>
      case Drop(_, _, _, _) =>
      case Expire(_, _) =>
      case Retry(_, _) =>
      case TimeOut(_, _) =>
      case Prepared(_, _, _) =>
      case Session(_, _, _) =>
    }
  }

  /** What a step does to the bus. */
  lemma StepPosts(s: System, ev: Event)
    requires Enabled(s, ev)
    ensures var s', taken := Step(s, ev), if ev.Deliver? then multiset{ev.packet} else multiset{};
            && s'.bus == s.bus - taken + Sent(s, At(ev), Posts(s, ev))
            && s'.ends.Keys == s.ends.Keys
  {
    if ev.Deliver? {
      DeliveryPosts(s, ev.packet);
    } else {
      ActPosts(s, ev);
      assert s.bus - multiset{} == s.bus;
    }
  }

  lemma {:induction false} SentFrom(s: System, s': System, from: Window, messages: seq<Message>)
    requires s.ends == s'.ends
    ensures Sent(s, from, messages) == Sent(s', from, messages)
  {
    if messages != [] {
      SentFrom(s, s', from, messages[1..]);
    }
  }

  lemma QueueAfter(o: Ordered, ev: Event, from: Window, to: Window)
    requires InTurn(o, ev) && (from, to) in o.queues
    ensures (from, to) in OrderedStep(o, ev).queues
    ensures var taken := ev.Deliver? && from == ev.packet.from && to == ev.packet.to;
            Queue(OrderedStep(o, ev), from, to)
            == (if taken then Queue(o, from, to)[1..] else Queue(o, from, to))
               + if from == At(ev) && to != At(ev) then Posts(o.system, ev) else []
  {
  }

  lemma BusCount(o: Ordered, ev: Event, p: Packet)
    requires InTurn(o, ev) && o.system.bus[p] == multiset(Queue(o, p.from, p.to))[p.message]
    ensures OrderedStep(o, ev).system.bus[p]
         == multiset(Queue(o, p.from, p.to))[p.message] - (if ev == Deliver(p) then 1 else 0)
            + if p.from == At(ev) && p.to != At(ev) && p.to in o.system.ends
              then multiset(Posts(o.system, ev))[p.message] else 0
  {
    StepPosts(o.system, ev);
    SentCount(o.system, At(ev), Posts(o.system, ev), p);
  }

  lemma QueueCount(o: Ordered, ev: Event, p: Packet)
    requires InTurn(o, ev) && (p.from, p.to) in o.queues
    ensures multiset(Queue(OrderedStep(o, ev), p.from, p.to))[p.message]
         == multiset(Queue(o, p.from, p.to))[p.message] - (if ev == Deliver(p) then 1 else 0)
            + if p.from == At(ev) && p.to != At(ev) then multiset(Posts(o.system, ev))[p.message] else 0
  {
    QueueAfter(o, ev, p.from, p.to);
    var queue := Queue(o, p.from, p.to);
    if ev.Deliver? && p.from == ev.packet.from && p.to == ev.packet.to {
      assert queue == [queue[0]] + queue[1..];
    }
  }

  lemma StepSynced(o: Ordered, ev: Event)
    requires Synced(o) && InTurn(o, ev)
    ensures Synced(OrderedStep(o, ev))
  {
    var o' := OrderedStep(o, ev);
    StepPosts(o.system, ev);
    assert o'.queues.Keys == o.queues.Keys by {
      assert ev.Deliver? ==> (ev.packet.from, ev.packet.to) in o.queues;
    }
    forall p ensures o'.system.bus[p] == multiset(Queue(o', p.from, p.to))[p.message] {
      BusCount(o, ev, p);
      if (p.from, p.to) in o.queues {
        QueueCount(o, ev, p);
      } else {
        assert Queue(o, p.from, p.to) == [] && Queue(o', p.from, p.to) == [];
        assert p.from !in o.system.ends || p.to !in o.system.ends;
      }
    }
  }

  lemma {:induction false} RunSynced(states: seq<Ordered>, events: seq<Event>, k: nat)
    requires OrderedRun(states, events) && k < |states|
    ensures Synced(states[k])
  {
    if k > 0 {
      RunSynced(states, events, k - 1);
      assert OrderedNext(states, events, k - 1);
      StepSynced(states[k - 1], events[k - 1]);
    }
  }

  // ---- Ordered runs are runs -----------------------------------------------------------------------

  function Systems(states: seq<Ordered>): (r: seq<System>)
    ensures |r| == |states| && forall i | 0 <= i < |r| :: r[i] == states[i].system
  {
    seq(|states|, i requires 0 <= i < |states| => states[i].system)
  }

  ghost predicate ReachesInOrder(o: Ordered)
  {
    exists states, events :: OrderedRun(states, events) && states[|states| - 1] == o
  }

  /** Whatever is proved of all reachable states holds when the order is kept. */
  lemma OrderedRunIsRun(states: seq<Ordered>, events: seq<Event>)
    requires OrderedRun(states, events)
    ensures Run(Systems(states), events)
  {
    forall i: nat | i < |events| ensures Next(Systems(states), events, i) {
      assert OrderedNext(states, events, i);
    }
  }

  lemma ReachedInOrder(o: Ordered)
    requires ReachesInOrder(o)
    ensures Reaches(o.system) && Synced(o)
  {
    var states, events :| OrderedRun(states, events) && states[|states| - 1] == o;
    RunSynced(states, events, |states| - 1);
    OrderedRunIsRun(states, events);
    assert Systems(states)[|Systems(states)| - 1] == o.system;
  }

  lemma ReachesNextInOrder(o: Ordered, ev: Event)
    requires ReachesInOrder(o) && InTurn(o, ev)
    ensures ReachesInOrder(OrderedStep(o, ev))
  {
    var states, events :| OrderedRun(states, events) && states[|states| - 1] == o;
    var states', events' := states + [OrderedStep(o, ev)], events + [ev];
    forall i: nat | i < |events'| ensures OrderedNext(states', events', i) {
      assert i < |events| ==> OrderedNext(states, events, i);
    }
    assert OrderedRun(states', events') && states'[|states'| - 1] == OrderedStep(o, ev);
  }

  // ---- Three windows -------------------------------------------------------------------------------

  /** What is on its way between windows 0, 1 and 2. */
  datatype Wires = Wires(q01: seq<Message>, q02: seq<Message>, q10: seq<Message>, q12: seq<Message>,
                         q20: seq<Message>, q21: seq<Message>)

  ghost function WiresOf(o: Ordered): Wires
  {
    Wires(Queue(o, 0, 1), Queue(o, 0, 2), Queue(o, 1, 0), Queue(o, 1, 2), Queue(o, 2, 0), Queue(o, 2, 1))
  }

  function Post(q: Wires, w: Window, out: seq<Message>): Wires
  {
    if w == 0 then q.(q01 := q.q01 + out, q02 := q.q02 + out)
    else if w == 1 then q.(q10 := q.q10 + out, q12 := q.q12 + out)
    else q.(q20 := q.q20 + out, q21 := q.q21 + out)
  }

  function Tail(q: seq<Message>): seq<Message>
  {
    if q == [] then [] else q[1..]
  }

  function Take(q: Wires, from: Window, to: Window): Wires
  {
    if from == 0 && to == 1 then q.(q01 := Tail(q.q01))
    else if from == 0 && to == 2 then q.(q02 := Tail(q.q02))
    else if from == 1 && to == 0 then q.(q10 := Tail(q.q10))
    else if from == 1 && to == 2 then q.(q12 := Tail(q.q12))
    else if from == 2 && to == 0 then q.(q20 := Tail(q.q20))
    else q.(q21 := Tail(q.q21))
  }

  /** A name for the set of reachable states, so that the steps below need not look at whole runs. */
  ghost predicate AllReached(all: iset<Ordered>)
  {
    forall o {:trigger ReachesInOrder(o)} :: ReachesInOrder(o) <==> o in all
  }

  lemma StepReached(all: iset<Ordered>, o: Ordered, ev: Event)
    requires AllReached(all) && o in all && InTurn(o, ev)
    ensures OrderedStep(o, ev) in all
  {
    ReachesNextInOrder(o, ev);
    assert ReachesInOrder(OrderedStep(o, ev));
  }

  lemma ReachedSynced(all: iset<Ordered>, o: Ordered)
    requires AllReached(all) && o in all
    ensures Synced(o)
  {
    ReachedInOrder(o);
  }

  ghost predicate Three(all: iset<Ordered>, o: Ordered)
  {
    o in all && o.system.ends.Keys == {0, 1, 2} && o.system.closed == {}
  }

  /** Window `w` moved on to `e'` and posted `out`, and no message was delivered. */
  ghost predicate Speaks(all: iset<Ordered>, o: Ordered, o': Ordered, w: Window, e': End, out: seq<Message>)
  {
    Three(all, o') && o'.system.ends == o.system.ends[w := e'] && WiresOf(o') == Post(WiresOf(o), w, out)
  }

  /** It did so on the oldest message from `sender`. */
  ghost predicate Hears(all: iset<Ordered>, o: Ordered, o': Ordered, sender: Window, w: Window, e': End,
                        out: seq<Message>)
  {
    && Three(all, o') && o'.system.ends == o.system.ends[w := e']
    && o'.system.registry == o.system.registry && o'.system.requests == o.system.requests
    && o'.system.tabs == o.system.tabs
    && WiresOf(o') == Post(Take(WiresOf(o), sender, w), w, out)
  }

  /** What was posted and taken, queue by queue. */
  lemma Combine(q: Wires, q': Wires, w: Window, out: seq<Message>)
    requires w in {0, 1, 2}
    requires q'.q01 == q.q01 + (if w == 0 then out else []) && q'.q02 == q.q02 + (if w == 0 then out else [])
    requires q'.q10 == q.q10 + (if w == 1 then out else []) && q'.q12 == q.q12 + (if w == 1 then out else [])
    requires q'.q20 == q.q20 + (if w == 2 then out else []) && q'.q21 == q.q21 + (if w == 2 then out else [])
    ensures q' == Post(q, w, out)
  {
  }

  /** The queue of one pair before the window posts. */
  ghost function Before(o: Ordered, ev: Event, from: Window, to: Window): seq<Message>
  {
    if ev.Deliver? && from == ev.packet.from && to == ev.packet.to then Tail(Queue(o, from, to)) else Queue(o, from, to)
  }

  ghost function WiresBefore(o: Ordered, ev: Event): Wires
  {
    Wires(Before(o, ev, 0, 1), Before(o, ev, 0, 2), Before(o, ev, 1, 0), Before(o, ev, 1, 2), Before(o, ev, 2, 0),
          Before(o, ev, 2, 1))
  }

  lemma PairAfter(o: Ordered, ev: Event, from: Window, to: Window, w: Window, out: seq<Message>)
    requires InTurn(o, ev) && (from, to) in o.queues && from != to && w == At(ev) && out == Posts(o.system, ev)
    ensures Queue(OrderedStep(o, ev), from, to) == Before(o, ev, from, to) + if w == from then out else []
  {
    QueueAfter(o, ev, from, to);
  }

  lemma PairsExist(all: iset<Ordered>, o: Ordered)
    requires AllReached(all)
    requires Three(all, o)
    ensures forall from, to | from in {0, 1, 2} && to in {0, 1, 2} :: (from, to) in o.queues
  {
    ReachedSynced(all, o);
  }

  lemma StepWires(all: iset<Ordered>, o: Ordered, ev: Event, w: Window, out: seq<Message>)
    requires AllReached(all)
    requires Three(all, o) && InTurn(o, ev) && w == At(ev) && w in {0, 1, 2} && out == Posts(o.system, ev)
    ensures WiresOf(OrderedStep(o, ev)) == Post(WiresBefore(o, ev), w, out)
  {
    PairsExist(all, o);
    PairAfter(o, ev, 0, 1, w, out);
    PairAfter(o, ev, 0, 2, w, out);
    PairAfter(o, ev, 1, 0, w, out);
    PairAfter(o, ev, 1, 2, w, out);
    PairAfter(o, ev, 2, 0, w, out);
    PairAfter(o, ev, 2, 1, w, out);
    Combine(WiresBefore(o, ev), WiresOf(OrderedStep(o, ev)), w, out);
  }

  lemma Speak(all: iset<Ordered>, o: Ordered, ev: Event) returns (o': Ordered)
    requires AllReached(all)
    requires Three(all, o) && InTurn(o, ev) && !ev.Deliver? && !ev.Close?
    ensures o'.system == Step(o.system, ev)
    ensures Speaks(all, o, o', At(ev), o'.system.ends[At(ev)], Posts(o.system, ev))
  {
    o' := OrderedStep(o, ev);
    StepReached(all, o, ev);
    StepWires(all, o, ev, At(ev), Posts(o.system, ev));
    ActPosts(o.system, ev);
    assert o'.system.closed == o.system.closed;
  }

  lemma HandlingKeeps(s: System, w: Window, m: Message)
    requires w in s.ends
    ensures var s' := DeliverTo(s, w, m);
            && s'.registry == s.registry && s'.requests == s.requests && s'.tabs == s.tabs && s'.closed == s.closed
            && (!m.Offer? || !Adopts(s.ends[w], m.request, m.offered) ==> s'.adoptions == s.adoptions)
  {
  }

  lemma DeliveryKeeps(s: System, p: Packet)
    requires Enabled(s, Deliver(p))
    ensures var s' := Step(s, Deliver(p));
            && s'.ends == s.ends[p.to := TransferWindow.Handle(s.ends[p.to], p.message).0]
            && s'.registry == s.registry && s'.requests == s.requests && s'.tabs == s.tabs && s'.closed == s.closed
            && (!p.message.Offer? || !Adopts(s.ends[p.to], p.message.request, p.message.offered)
                ==> s'.adoptions == s.adoptions)
  {
    HandlingKeeps(s.(bus := s.bus - multiset{p}), p.to, p.message);
    TransferWindow.DeliveryIsOneCall(s.(bus := s.bus - multiset{p}), p.to, p.message);
  }

  lemma OldestIsInTurn(all: iset<Ordered>, o: Ordered, sender: Window, w: Window)
    requires AllReached(all) && o in all && w in o.system.ends && Queue(o, sender, w) != []
    ensures InTurn(o, Deliver(Packet(sender, w, Queue(o, sender, w)[0])))
  {
    ReachedSynced(all, o);
    var p := Packet(sender, w, Queue(o, sender, w)[0]);
    assert p.message in multiset(Queue(o, sender, w));
    assert o.system.bus[p] > 0;
  }

  /** The oldest message from `sender` is delivered. */
  lemma Hear(all: iset<Ordered>, o: Ordered, sender: Window, w: Window) returns (o': Ordered)
    requires AllReached(all)
    requires Three(all, o) && sender in {0, 1, 2} && w in {0, 1, 2} && sender != w && Queue(o, sender, w) != []
    ensures var p := Packet(sender, w, Queue(o, sender, w)[0]);
            && InTurn(o, Deliver(p)) && o'.system == Step(o.system, Deliver(p))
            && var r := TransferWindow.Handle(o.system.ends[w], p.message);
               Hears(all, o, o', sender, w, r.0, r.1)
  {
    OldestIsInTurn(all, o, sender, w);
    var m := Queue(o, sender, w)[0];
    var ev := Deliver(Packet(sender, w, m));
    o' := OrderedStep(o, ev);
    StepReached(all, o, ev);
    StepWires(all, o, ev, w, Posts(o.system, ev));
    DeliveryKeeps(o.system, ev.packet);
  }

  /** A message that means nothing to the window. */
  lemma Ignore(all: iset<Ordered>, o: Ordered, sender: Window, w: Window) returns (o': Ordered)
    requires AllReached(all)
    requires Three(all, o) && sender in {0, 1, 2} && w in {0, 1, 2} && sender != w && Queue(o, sender, w) != []
    requires match Queue(o, sender, w)[0]
             case Claim(_, t) => t !in o.system.ends[w].sources
             case Offer(r, _, _) => r !in o.system.ends[w].claims
             case Cancel(t) => t !in o.system.ends[w].sources
             case Complete(t) => t !in o.system.ends[w].sources
    ensures Hears(all, o, o', sender, w, o.system.ends[w], []) && o'.system.adoptions == o.system.adoptions
  {
    o' := Hear(all, o, sender, w);
    DeliveryKeeps(o.system, Packet(sender, w, Queue(o, sender, w)[0]));
  }

  /** A source whose preparation has been settled. */
  ghost function Answered(e: End, t: TransferId): End
    requires t in e.sources
  {
    var tab := e.sources[t].tab;
    e.(sources := e.sources[t := Source(tab, Some(|e.preparations|))],
       preparations := e.preparations + [Done(t, tab, Some(tab))], prepares := e.prepares + multiset{t})
  }

  lemma AnswerIsSettled(e: End, r: RequestId, t: TransferId)
    requires t in e.sources && e.sources[t].prepared.None? && e.sources[t].tab in e.tabs
    ensures var asked := OnClaim(e, r, t);
            && asked.1 == [] && |asked.0.preparations| == |e.preparations| + 1
            && asked.0.preparations[|e.preparations|].Running?
            && Settle(asked.0, |e.preparations|, true) == (Answered(e, t), [Offer(r, t, Some(e.sources[t].tab))])
  {
    var tab, n := e.sources[t].tab, |e.preparations|;
    var asked := OnClaim(e, r, t).0;
    assert asked.preparations == e.preparations + [Running(t, tab, [r])];
    assert asked.preparations[n] == Running(t, tab, [r]);
    assert asked.preparations[n := Done(t, tab, Some(tab))] == e.preparations + [Done(t, tab, Some(tab))];
    assert Settle(asked, n, true).0 == Answered(e, t);
    assert Settle(asked, n, true).1 == [Offer(r, t, Some(tab))];
  }

  /** A preparation of the window settles. */
  lemma Prepare(all: iset<Ordered>, o: Ordered, w: Window, n: nat) returns (o': Ordered)
    requires AllReached(all)
    requires Three(all, o) && w in {0, 1, 2}
    requires n < |o.system.ends[w].preparations| && o.system.ends[w].preparations[n].Running?
    ensures var r := Settle(o.system.ends[w], n, true); Speaks(all, o, o', w, r.0, r.1)
    ensures o'.system.registry == o.system.registry && o'.system.requests == o.system.requests
    ensures o'.system.tabs == o.system.tabs && o'.system.adoptions == o.system.adoptions
  {
    o' := Speak(all, o, Prepared(w, n, true));
  }

  lemma Ask(all: iset<Ordered>, o: Ordered, sender: Window, w: Window, r: RequestId, t: TransferId)
    returns (o': Ordered)
    requires AllReached(all)
    requires Three(all, o) && sender in {0, 1, 2} && w in {0, 1, 2} && sender != w
    requires Queue(o, sender, w) != [] && Queue(o, sender, w)[0] == Claim(r, t)
    ensures var asked := OnClaim(o.system.ends[w], r, t); Hears(all, o, o', sender, w, asked.0, asked.1)
    ensures o'.system.adoptions == o.system.adoptions
  {
    o' := Hear(all, o, sender, w);
    DeliveryKeeps(o.system, Packet(sender, w, Claim(r, t)));
  }

  lemma PostNothing(q: Wires, w: Window)
    ensures Post(q, w, []) == q
  {
  }

  /** A claim reaches the source, which prepares and posts its offer. */
  lemma Answer(all: iset<Ordered>, o: Ordered, sender: Window, w: Window, r: RequestId, t: TransferId)
    returns (o': Ordered)
    requires AllReached(all)
    requires Three(all, o) && sender in {0, 1, 2} && w in {0, 1, 2} && sender != w
    requires Queue(o, sender, w) != [] && Queue(o, sender, w)[0] == Claim(r, t)
    requires var e := o.system.ends[w];
             t in e.sources && e.sources[t].prepared.None? && e.sources[t].tab in e.tabs
    ensures var e := o.system.ends[w];
            Hears(all, o, o', sender, w, Answered(e, t), [Offer(r, t, Some(e.sources[t].tab))])
    ensures o'.system.adoptions == o.system.adoptions
  {
    var e := o.system.ends[w];
    AnswerIsSettled(e, r, t);
    var asked := Ask(all, o, sender, w, r, t);
    PostNothing(Take(WiresOf(o), sender, w), w);
    o' := Prepare(all, asked, w, |e.preparations|);
    assert o'.system.ends == o.system.ends[w := Answered(e, t)];
  }

  /** A window after it adopted an offered page. */
  ghost function WithPage(e: End, r: RequestId, tab: Tab): End
    requires r in e.claims
  {
    e.(tabs := (if e.claims[r].replacePlaceholder then e.tabs - Pages(e.tabs) else e.tabs) + {tab},
       claims := e.claims - {r}, resolved := e.resolved + multiset{r})
  }

  lemma PageIsAdopted(e: End, r: RequestId, t: TransferId, tab: Tab)
    requires r in e.claims && e.claims[r].transfer == t && tab.surface == Page && tab !in e.tabs
    ensures Adopts(e, r, Some(tab))
    ensures TransferWindow.Handle(e, Offer(r, t, Some(tab))) == (WithPage(e, r, tab), [Complete(t)])
  {
  }

  /** An offered page arrives and is adopted. */
  lemma Adopt(all: iset<Ordered>, o: Ordered, sender: Window, w: Window, r: RequestId, t: TransferId, tab: Tab)
    returns (o': Ordered)
    requires AllReached(all)
    requires Three(all, o) && sender in {0, 1, 2} && w in {0, 1, 2} && sender != w
    requires Queue(o, sender, w) != [] && Queue(o, sender, w)[0] == Offer(r, t, Some(tab))
    requires var e := o.system.ends[w];
             r in e.claims && e.claims[r].transfer == t && tab.surface == Page && tab !in e.tabs
    ensures Hears(all, o, o', sender, w, WithPage(o.system.ends[w], r, tab), [Complete(t)])
    ensures o'.system.adoptions == o.system.adoptions + [Adoption(tab, t, w)]
  {
    PageIsAdopted(o.system.ends[w], r, t, tab);
    o' := Hear(all, o, sender, w);
  }

  /** The `complete` reaches the source, which closes its tab. */
  lemma Finish(all: iset<Ordered>, o: Ordered, sender: Window, w: Window, t: TransferId) returns (o': Ordered)
    requires AllReached(all)
    requires Three(all, o) && sender in {0, 1, 2} && w in {0, 1, 2} && sender != w
    requires Queue(o, sender, w) != [] && Queue(o, sender, w)[0] == Complete(t)
    ensures Hears(all, o, o', sender, w, OnComplete(o.system.ends[w], t), [])
            && o'.system.adoptions == o.system.adoptions
  {
    o' := Hear(all, o, sender, w);
    DeliveryKeeps(o.system, Packet(sender, w, Complete(t)));
  }

  lemma OpenPage(all: iset<Ordered>, o: Ordered, w: Window, tab: Tab) returns (o': Ordered)
    requires AllReached(all)
    requires Three(all, o) && w in {0, 1, 2} && tab !in o.system.tabs
    ensures var e := o.system.ends[w]; Speaks(all, o, o', w, e.(tabs := e.tabs + {tab}), [])
    ensures o'.system.registry == o.system.registry && o'.system.requests == o.system.requests
    ensures o'.system.tabs == o.system.tabs + {tab} && o'.system.adoptions == o.system.adoptions
  {
    o' := Speak(all, o, Open(w, tab));
  }

  lemma DragPage(all: iset<Ordered>, o: Ordered, w: Window, t: TransferId, tab: Tab) returns (o': Ordered)
    requires AllReached(all)
    requires Three(all, o) && w in {0, 1, 2} && tab in o.system.ends[w].tabs && t !in o.system.registry
    ensures Speaks(all, o, o', w, Register(o.system.ends[w], t, tab), [])
    ensures o'.system.registry == o.system.registry[t := Registration(w, tab)]
    ensures o'.system.requests == o.system.requests
    ensures o'.system.tabs == o.system.tabs && o'.system.adoptions == o.system.adoptions
  {
    o' := Speak(all, o, Drag(w, t, tab));
  }

  lemma ClaimPage(all: iset<Ordered>, o: Ordered, w: Window, r: RequestId, t: TransferId, blank: bool)
    returns (o': Ordered)
    requires AllReached(all)
    requires Three(all, o) && w in {0, 1, 2} && r !in o.system.requests
    requires blank ==> o.system.ends[w] == NEW_END
    ensures Speaks(all, o, o', w, StartClaim(o.system.ends[w], r, t, blank).0, [Claim(r, t)])
    ensures o'.system.requests.Keys == o.system.requests.Keys + {r} && o'.system.registry == o.system.registry
    ensures o'.system.tabs == o.system.tabs && o'.system.adoptions == o.system.adoptions
  {
    o' := Speak(all, o, Drop(w, r, t, blank));
  }

  // ---- A tab can be lost ---------------------------------------------------------------------------

  /** The tabs, tokens and requests of the runs below. */
  datatype Cast = Cast(moved: Tab, dragged: Tab, a: TransferId, b: TransferId, c: TransferId, d: TransferId,
                       q: RequestId, r: RequestId, t: RequestId, u: RequestId)

  ghost predicate Distinct(n: Cast)
  {
    && n.moved != n.dragged && n.moved.surface == Page && n.dragged.surface == Page
    && n.a != n.b && n.a != n.c && n.a != n.d && n.b != n.c && n.b != n.d && n.c != n.d
    && n.q != n.r && n.q != n.t && n.q != n.u && n.r != n.t && n.r != n.u && n.t != n.u
  }

  ghost predicate On(all: iset<Ordered>, o: Ordered, q: Wires)
  {
    Three(all, o) && WiresOf(o) == q
  }

  lemma Start(all: iset<Ordered>) returns (o: Ordered)
    requires AllReached(all)
    ensures On(all, o, Wires([], [], [], [], [], [])) && forall w | w in o.system.ends :: o.system.ends[w] == NEW_END
    ensures o.system.registry == map[] && o.system.requests == map[]
    ensures o.system.tabs == {} && o.system.adoptions == []
  {
    var ends := map[0 := NEW_END, 1 := NEW_END, 2 := NEW_END];
    var windows := {0, 1, 2};
    o := Ordered(System(ends, multiset{}, map[], map[], [], {}, {}, {}, {}),
                 map from, to | from in windows && to in windows :: (from, to) := []);
    assert OrderedRun([o], []) && [o][|[o]| - 1] == o;
    assert ReachesInOrder(o);
  }

  lemma OpenAndDrag(all: iset<Ordered>, o: Ordered, w: Window, tab: Tab, t: TransferId) returns (o': Ordered)
    requires AllReached(all)
    requires Three(all, o) && w in {0, 1, 2} && tab !in o.system.tabs && t !in o.system.registry
    ensures var e := o.system.ends[w]; Speaks(all, o, o', w, Register(e.(tabs := e.tabs + {tab}), t, tab), [])
    ensures o'.system.registry == o.system.registry[t := Registration(w, tab)]
    ensures o'.system.requests == o.system.requests
    ensures o'.system.tabs == o.system.tabs + {tab} && o'.system.adoptions == o.system.adoptions
  {
    var shown := OpenPage(all, o, w, tab);
    o' := DragPage(all, shown, w, t, tab);
    var e := o.system.ends[w];
    assert o'.system.ends == o.system.ends[w := Register(e.(tabs := e.tabs + {tab}), t, tab)];
  }

  /** A window's tabs, the tabs it offers by their tokens, and its open claims. */
  ghost predicate Shows(o: Ordered, w: Window, tabs: set<Tab>, offers: map<TransferId, Tab>,
                        claims: map<RequestId, ClaimInfo>)
  {
    && w in o.system.ends && o.system.ends[w].tabs == tabs && o.system.ends[w].claims == claims
    && o.system.ends[w].sources.Keys == offers.Keys
    && forall t | t in offers :: o.system.ends[w].sources[t].tab == offers[t]
  }

  ghost predicate Unasked(o: Ordered, w: Window, t: TransferId)
  {
    w in o.system.ends && t in o.system.ends[w].sources && o.system.ends[w].sources[t].prepared.None?
  }

  lemma TwoDrags(all: iset<Ordered>, n: Cast) returns (o: Ordered)
    requires AllReached(all)
    requires Distinct(n)
    ensures On(all, o, Wires([], [], [], [], [], [])) && o.system.ends[1] == NEW_END && o.system.requests == map[]
    ensures Shows(o, 0, {n.moved}, map[n.a := n.moved], map[]) && Unasked(o, 0, n.a)
    ensures Shows(o, 2, {n.dragged}, map[n.b := n.dragged], map[]) && Unasked(o, 2, n.b)
    ensures o.system.registry == map[n.a := Registration(0, n.moved), n.b := Registration(2, n.dragged)]
    ensures o.system.tabs == {n.moved, n.dragged} && o.system.adoptions == []
  {
    var o0 := Start(all);
    var o1 := OpenAndDrag(all, o0, 0, n.moved, n.a);
    o := OpenAndDrag(all, o1, 2, n.dragged, n.b);
  }

  /**
   * Windows 0 and 2 drag a page each. Window 1 is new and claims the first for its blank tab; then a
   * user drops the second there as well.
   */
  lemma TwoClaims(all: iset<Ordered>, n: Cast) returns (o: Ordered)
    requires AllReached(all)
    requires Distinct(n)
    ensures var claims := [Claim(n.r, n.a), Claim(n.q, n.b)]; On(all, o, Wires([], [], claims, claims, [], []))
    ensures Shows(o, 0, {n.moved}, map[n.a := n.moved], map[]) && Unasked(o, 0, n.a)
    ensures Shows(o, 1, {}, map[], map[n.r := ClaimInfo(n.a, true), n.q := ClaimInfo(n.b, false)])
    ensures Shows(o, 2, {n.dragged}, map[n.b := n.dragged], map[]) && Unasked(o, 2, n.b)
    ensures o.system.registry == map[n.a := Registration(0, n.moved), n.b := Registration(2, n.dragged)]
    ensures o.system.tabs == {n.moved, n.dragged} && o.system.adoptions == []
  {
    var dragged := TwoDrags(all, n);
    var claimed := ClaimPage(all, dragged, 1, n.r, n.a, true);
    o := ClaimPage(all, claimed, 1, n.q, n.b, false);
  }

  lemma SecondIsOffered(all: iset<Ordered>, n: Cast) returns (o: Ordered)
    requires AllReached(all)
    requires Distinct(n)
    ensures var offer := [Offer(n.q, n.b, Some(n.dragged))];
            On(all, o, Wires([], [], [Claim(n.r, n.a), Claim(n.q, n.b)], [], offer, offer))
    ensures Shows(o, 0, {n.moved}, map[n.a := n.moved], map[]) && Unasked(o, 0, n.a)
    ensures Shows(o, 1, {}, map[], map[n.r := ClaimInfo(n.a, true), n.q := ClaimInfo(n.b, false)])
    ensures Shows(o, 2, {n.dragged}, map[n.b := n.dragged], map[])
    ensures o.system.registry == map[n.a := Registration(0, n.moved), n.b := Registration(2, n.dragged)]
    ensures o.system.tabs == {n.moved, n.dragged} && o.system.adoptions == []
  {
    var claimed := TwoClaims(all, n);
    var passed := Ignore(all, claimed, 1, 2);
    o := Answer(all, passed, 1, 2, n.q, n.b);
  }

  /** The second page arrives first; the `complete` that closes it at home is on its way. */
  lemma SecondArrives(all: iset<Ordered>, n: Cast) returns (o: Ordered)
    requires AllReached(all)
    requires Distinct(n)
    ensures On(all, o, Wires([], [], [Claim(n.r, n.a), Claim(n.q, n.b), Complete(n.b)], [Complete(n.b)],
                  [Offer(n.q, n.b, Some(n.dragged))], []))
    ensures Shows(o, 0, {n.moved}, map[n.a := n.moved], map[]) && Unasked(o, 0, n.a)
    ensures Shows(o, 1, {n.dragged}, map[], map[n.r := ClaimInfo(n.a, true)])
    ensures Shows(o, 2, {n.dragged}, map[n.b := n.dragged], map[])
    ensures o.system.registry == map[n.a := Registration(0, n.moved), n.b := Registration(2, n.dragged)]
    ensures n.dragged in o.system.tabs && o.system.adoptions == [Adoption(n.dragged, n.b, 1)]
  {
    var offered := SecondIsOffered(all, n);
    o := Adopt(all, offered, 2, 1, n.q, n.b, n.dragged);
  }

  /** The page for the blank tab arrives and sweeps the other one away. */
  lemma BlankIsReplaced(all: iset<Ordered>, n: Cast, o: Ordered) returns (o': Ordered)
    requires AllReached(all)
    requires Distinct(n)
    requires Three(all, o) && Queue(o, 1, 0) != [] && Queue(o, 1, 0)[0] == Claim(n.r, n.a) && Queue(o, 0, 1) == []
    requires Shows(o, 0, {n.moved}, map[n.a := n.moved], map[]) && Unasked(o, 0, n.a)
    requires Shows(o, 1, {n.dragged}, map[], map[n.r := ClaimInfo(n.a, true)])
    ensures Three(all, o')
    ensures o'.system.ends[0].tabs == {n.moved} && o'.system.ends[1].tabs == {n.moved}
    ensures o'.system.ends[2] == o.system.ends[2]
    ensures o'.system.registry == o.system.registry && o'.system.tabs == o.system.tabs
    ensures o'.system.adoptions == o.system.adoptions + [Adoption(n.moved, n.a, 1)]
  {
    var offered := Answer(all, o, 1, 0, n.r, n.a);
    o' := Adopt(all, offered, 0, 1, n.r, n.a, n.moved);
    assert n.dragged in Pages(offered.system.ends[1].tabs);
  }

  lemma LostOne(all: iset<Ordered>, n: Cast) returns (o: Ordered)
    requires AllReached(all) && Distinct(n)
    ensures Three(all, o) && n.dragged in o.system.tabs && Holders(o.system, n.dragged) == {}
  {
    var arrived := SecondArrives(all, n);
    var finished := Finish(all, arrived, 1, 2, n.b);
    o := BlankIsReplaced(all, n, finished);
    assert Holders(o.system, n.dragged) == {};
  }

  /**
   * A tab is lost: it was moved into a new window whose own tab arrived afterwards and replaced
   * everything in the tab bar.
   */
  lemma ReplacingCanLose(n: Cast)
    requires Distinct(n)
    ensures exists o :: ReachesInOrder(o) && n.dragged in o.system.tabs && o.system.closed == {}
                        && Holders(o.system, n.dragged) == {}
  {
    var o := LostOne((iset o | ReachesInOrder(o)), n);
  }

  lemma GivingOne(s: System, tab: Tab, t: TransferId)
    requires t in s.registry && s.registry[t].tab == tab && Active(s, t)
    requires exists a :: a in s.adoptions && a.transfer == t
    ensures t in Debt(s, tab) && s.registry[t].window in Giving(s, tab)
  {
  }

  lemma LastHolder(all: iset<Ordered>, n: Cast) returns (o: Ordered)
    requires AllReached(all) && Distinct(n)
    ensures Three(all, o) && n.dragged in o.system.tabs
    ensures Holders(o.system, n.dragged) == {2} && 2 in Giving(o.system, n.dragged)
  {
    var arrived := SecondArrives(all, n);
    o := BlankIsReplaced(all, n, arrived);
    assert o.system.adoptions[0] == Adoption(n.dragged, n.b, 1) && o.system.adoptions[0] in o.system.adoptions;
    GivingOne(o.system, n.dragged, n.b);
    assert Holders(o.system, n.dragged) == {2};
  }

  /** It can also be lost one step later, when its other holder hears of the adoption. */
  lemma ReplacingCanLoseLater(n: Cast)
    requires Distinct(n)
    ensures exists o :: ReachesInOrder(o) && n.dragged in o.system.tabs && o.system.closed == {}
                        && Holders(o.system, n.dragged) == {2} && !Kept(o.system, n.dragged)
  {
    var o := LastHolder((iset o | ReachesInOrder(o)), n);
  }

  // ---- A tab can be lost by coming back ------------------------------------------------------------

  function Homes(n: Cast): map<TransferId, Registration>
  {
    map[n.b := Registration(2, n.moved), n.a := Registration(0, n.dragged)]
  }

  /** Window 0 is new and claims window 2's page for its blank tab; a user opens and drags a page there. */
  lemma NewWindow(all: iset<Ordered>, n: Cast) returns (o: Ordered)
    requires AllReached(all)
    requires Distinct(n)
    ensures On(all, o, Wires([Claim(n.q, n.b)], [Claim(n.q, n.b)], [], [], [], []))
    ensures Shows(o, 0, {n.dragged}, map[n.a := n.dragged], map[n.q := ClaimInfo(n.b, true)]) && Unasked(o, 0, n.a)
    ensures Shows(o, 1, {}, map[], map[])
    ensures Shows(o, 2, {n.moved}, map[n.b := n.moved], map[]) && Unasked(o, 2, n.b)
    ensures o.system.registry == Homes(n) && o.system.requests.Keys == {n.q} && o.system.adoptions == []
  {
    var started := Start(all);
    var dragged := OpenAndDrag(all, started, 2, n.moved, n.b);
    var claimed := ClaimPage(all, dragged, 0, n.q, n.b, true);
    o := OpenAndDrag(all, claimed, 0, n.dragged, n.a);
  }

  lemma FirstIsOffered(all: iset<Ordered>, n: Cast) returns (o: Ordered)
    requires AllReached(all)
    requires Distinct(n)
    ensures var sent := [Claim(n.q, n.b), Offer(n.r, n.a, Some(n.dragged))]; On(all, o,
            Wires(sent, sent, [], [Claim(n.r, n.a)], [], []))
    ensures Shows(o, 0, {n.dragged}, map[n.a := n.dragged], map[n.q := ClaimInfo(n.b, true)])
    ensures Shows(o, 1, {}, map[], map[n.r := ClaimInfo(n.a, false)])
    ensures Shows(o, 2, {n.moved}, map[n.b := n.moved], map[]) && Unasked(o, 2, n.b)
    ensures o.system.registry == Homes(n) && o.system.requests.Keys == {n.q, n.r} && o.system.adoptions == []
  {
    var dragged := NewWindow(all, n);
    var claimed := ClaimPage(all, dragged, 1, n.r, n.a, false);
    o := Answer(all, claimed, 1, 0, n.r, n.a);
  }

  /** It moves to window 1; the `complete` for window 0 stays on its way from now on. */
  lemma FirstMoves(all: iset<Ordered>, n: Cast) returns (o: Ordered)
    requires AllReached(all)
    requires Distinct(n)
    ensures On(all, o, Wires([], [Claim(n.q, n.b), Offer(n.r, n.a, Some(n.dragged))], [Complete(n.a)],
                  [Claim(n.r, n.a), Complete(n.a)], [], []))
    ensures Shows(o, 0, {n.dragged}, map[n.a := n.dragged], map[n.q := ClaimInfo(n.b, true)])
    ensures Shows(o, 1, {n.dragged}, map[], map[])
    ensures Shows(o, 2, {n.moved}, map[n.b := n.moved], map[]) && Unasked(o, 2, n.b)
    ensures o.system.registry == Homes(n) && o.system.requests.Keys == {n.q, n.r}
    ensures o.system.adoptions == [Adoption(n.dragged, n.a, 1)]
  {
    var offered := FirstIsOffered(all, n);
    var passed := Ignore(all, offered, 0, 1);
    o := Adopt(all, passed, 0, 1, n.r, n.a, n.dragged);
  }

  /** The page for the blank tab arrives in window 0 and sweeps the dragged one away there. */
  lemma SweptAtHome(all: iset<Ordered>, n: Cast) returns (o: Ordered)
    requires AllReached(all)
    requires Distinct(n)
    ensures On(all, o, Wires([Complete(n.b)], [Offer(n.r, n.a, Some(n.dragged)), Complete(n.b)], [Complete(n.a)],
                  [Claim(n.r, n.a), Complete(n.a)], [], [Offer(n.q, n.b, Some(n.moved))]))
    ensures Shows(o, 0, {n.moved}, map[n.a := n.dragged], map[])
    ensures Shows(o, 1, {n.dragged}, map[], map[])
    ensures Shows(o, 2, {n.moved}, map[n.b := n.moved], map[])
    ensures o.system.registry == Homes(n) && o.system.requests.Keys == {n.q, n.r}
    ensures o.system.adoptions == [Adoption(n.dragged, n.a, 1), Adoption(n.moved, n.b, 0)]
  {
    var moved := FirstMoves(all, n);
    var offered := Answer(all, moved, 0, 2, n.q, n.b);
    o := Adopt(all, offered, 2, 0, n.q, n.b, n.moved);
    assert n.dragged in Pages(offered.system.ends[0].tabs);
  }

  /** Window 1 drags it on, and window 2 claims it. */
  lemma PassedOn(all: iset<Ordered>, n: Cast) returns (o: Ordered)
    requires AllReached(all)
    requires Distinct(n)
    ensures On(all, o, Wires([Complete(n.b)], [Offer(n.r, n.a, Some(n.dragged)), Complete(n.b)], [Complete(n.a)],
                  [Claim(n.r, n.a), Complete(n.a)], [Claim(n.t, n.d)],
                      [Offer(n.q, n.b, Some(n.moved)), Claim(n.t, n.d)]))
    ensures Shows(o, 0, {n.moved}, map[n.a := n.dragged], map[])
    ensures Shows(o, 1, {n.dragged}, map[n.d := n.dragged], map[]) && Unasked(o, 1, n.d)
    ensures Shows(o, 2, {n.moved}, map[n.b := n.moved], map[n.t := ClaimInfo(n.d, false)])
    ensures o.system.registry == Homes(n)[n.d := Registration(1, n.dragged)]
            && o.system.requests.Keys == {n.q, n.r, n.t}
    ensures o.system.adoptions == [Adoption(n.dragged, n.a, 1), Adoption(n.moved, n.b, 0)]
  {
    var swept := SweptAtHome(all, n);
    var dragged := DragPage(all, swept, 1, n.d, n.dragged);
    o := ClaimPage(all, dragged, 2, n.t, n.d, false);
  }

  lemma PassedOffer(all: iset<Ordered>, n: Cast) returns (o: Ordered)
    requires AllReached(all)
    requires Distinct(n)
    ensures var offer := Offer(n.t, n.d, Some(n.dragged));
            On(all, o, Wires([Complete(n.b)], [Offer(n.r, n.a, Some(n.dragged)), Complete(n.b)], [Complete(n.a), offer],
                  [Claim(n.r, n.a), Complete(n.a), offer], [Claim(n.t, n.d)], []))
    ensures Shows(o, 0, {n.moved}, map[n.a := n.dragged], map[])
    ensures Shows(o, 1, {n.dragged}, map[n.d := n.dragged], map[])
    ensures Shows(o, 2, {n.moved}, map[n.b := n.moved], map[n.t := ClaimInfo(n.d, false)])
    ensures o.system.registry == Homes(n)[n.d := Registration(1, n.dragged)]
            && o.system.requests.Keys == {n.q, n.r, n.t}
    ensures o.system.adoptions == [Adoption(n.dragged, n.a, 1), Adoption(n.moved, n.b, 0)]
  {
    var claimed := PassedOn(all, n);
    var passed := Ignore(all, claimed, 2, 1);
    o := Answer(all, passed, 2, 1, n.t, n.d);
  }

  lemma AtWindowTwo(all: iset<Ordered>, n: Cast) returns (o: Ordered)
    requires AllReached(all)
    requires Distinct(n)
    ensures On(all, o, Wires([Complete(n.b)], [Offer(n.r, n.a, Some(n.dragged)), Complete(n.b)],
                  [Complete(n.a), Offer(n.t, n.d, Some(n.dragged))], [], [Claim(n.t, n.d), Complete(n.d)],
                      [Complete(n.d)]))
    ensures Shows(o, 0, {n.moved}, map[n.a := n.dragged], map[])
    ensures Shows(o, 1, {n.dragged}, map[n.d := n.dragged], map[])
    ensures Shows(o, 2, {n.moved, n.dragged}, map[n.b := n.moved], map[])
    ensures o.system.registry == Homes(n)[n.d := Registration(1, n.dragged)]
            && o.system.requests.Keys == {n.q, n.r, n.t}
    ensures o.system.adoptions == [Adoption(n.dragged, n.a, 1), Adoption(n.moved, n.b, 0), Adoption(n.dragged, n.d, 2)]
  {
    var offered := PassedOffer(all, n);
    var first := Ignore(all, offered, 1, 2);
    var second := Ignore(all, first, 1, 2);
    o := Adopt(all, second, 1, 2, n.t, n.d, n.dragged);
  }

  /** Window 2 drags it, and window 0 claims it. */
  lemma ClaimedBack(all: iset<Ordered>, n: Cast) returns (o: Ordered)
    requires AllReached(all)
    requires Distinct(n)
    ensures On(all, o, Wires([Complete(n.b), Claim(n.u, n.c)],
            [Offer(n.r, n.a, Some(n.dragged)), Complete(n.b), Claim(n.u, n.c)],
                  [Complete(n.a), Offer(n.t, n.d, Some(n.dragged))], [], [Claim(n.t, n.d), Complete(n.d)],
                      [Complete(n.d)]))
    ensures Shows(o, 0, {n.moved}, map[n.a := n.dragged], map[n.u := ClaimInfo(n.c, false)])
    ensures Shows(o, 1, {n.dragged}, map[n.d := n.dragged], map[])
    ensures Shows(o, 2, {n.moved, n.dragged}, map[n.b := n.moved, n.c := n.dragged], map[]) && Unasked(o, 2, n.c)
    ensures o.system.registry == Homes(n)[n.d := Registration(1, n.dragged)][n.c := Registration(2, n.dragged)]
    ensures o.system.adoptions == [Adoption(n.dragged, n.a, 1), Adoption(n.moved, n.b, 0), Adoption(n.dragged, n.d, 2)]
  {
    var adopted := AtWindowTwo(all, n);
    var dragged := DragPage(all, adopted, 2, n.c, n.dragged);
    o := ClaimPage(all, dragged, 0, n.u, n.c, false);
  }

  lemma OfferedBack(all: iset<Ordered>, n: Cast) returns (o: Ordered)
    requires AllReached(all)
    requires Distinct(n)
    ensures var offer := Offer(n.u, n.c, Some(n.dragged));
            On(all, o, Wires([Complete(n.b), Claim(n.u, n.c)], [], [Complete(n.a), Offer(n.t, n.d, Some(n.dragged))],
                [],
                  [Claim(n.t, n.d), Complete(n.d), offer], [Complete(n.d), offer]))
    ensures Shows(o, 0, {n.moved}, map[n.a := n.dragged], map[n.u := ClaimInfo(n.c, false)])
    ensures Shows(o, 1, {n.dragged}, map[n.d := n.dragged], map[])
    ensures Shows(o, 2, {n.dragged}, map[n.c := n.dragged], map[])
    ensures o.system.registry == Homes(n)[n.d := Registration(1, n.dragged)][n.c := Registration(2, n.dragged)]
    ensures o.system.adoptions == [Adoption(n.dragged, n.a, 1), Adoption(n.moved, n.b, 0), Adoption(n.dragged, n.d, 2)]
  {
    var claimed := ClaimedBack(all, n);
    var passed := Ignore(all, claimed, 0, 2);
    var finished := Finish(all, passed, 0, 2, n.b);
    o := Answer(all, finished, 0, 2, n.u, n.c);
  }

  /** Everything window 2 had posted before has arrived; only window 1's `complete` is still on its way. */
  lemma SentBack(all: iset<Ordered>, n: Cast) returns (o: Ordered)
    requires AllReached(all)
    requires Distinct(n)
    ensures Three(all, o) && Queue(o, 2, 0) == [Offer(n.u, n.c, Some(n.dragged))]
    ensures Shows(o, 0, {n.moved}, map[n.a := n.dragged], map[n.u := ClaimInfo(n.c, false)])
    ensures Shows(o, 1, {n.dragged}, map[n.d := n.dragged], map[])
    ensures Shows(o, 2, {n.dragged}, map[n.c := n.dragged], map[])
    ensures o.system.registry == Homes(n)[n.d := Registration(1, n.dragged)][n.c := Registration(2, n.dragged)]
    ensures o.system.adoptions == [Adoption(n.dragged, n.a, 1), Adoption(n.moved, n.b, 0), Adoption(n.dragged, n.d, 2)]
  {
    var offered := OfferedBack(all, n);
    var first := Ignore(all, offered, 2, 0);
    o := Ignore(all, first, 2, 0);
  }

  lemma BothGiving(n: Cast, s: System)
    requires Distinct(n) && s.ends.Keys == {0, 1, 2}
    requires n.dragged !in s.ends[0].tabs && n.dragged in s.ends[1].tabs && n.dragged in s.ends[2].tabs
    requires n.a in s.ends[0].sources && n.d in s.ends[1].sources && n.c in s.ends[2].sources
    requires s.registry == Homes(n)[n.d := Registration(1, n.dragged)][n.c := Registration(2, n.dragged)]
    requires s.adoptions == [Adoption(n.dragged, n.a, 1), Adoption(n.moved, n.b, 0), Adoption(n.dragged, n.d, 2)]
    ensures Kept(s, n.dragged) && BackTooEarly(s, 0, n.c, n.dragged)
  {
    assert s.adoptions[0] in s.adoptions && s.adoptions[2] in s.adoptions;
    GivingOne(s, n.dragged, n.a);
    GivingOne(s, n.dragged, n.d);
    NotGiving(n, s);
    assert Holders(s, n.dragged) == {1, 2};
  }

  lemma Returns(all: iset<Ordered>, n: Cast) returns (o: Ordered)
    requires AllReached(all) && Distinct(n)
    ensures Three(all, o) && Kept(o.system, n.dragged) && BackTooEarly(o.system, 0, n.c, n.dragged)
    ensures var offer := Deliver(Packet(2, 0, Offer(n.u, n.c, Some(n.dragged))));
            InTurn(o, offer) && Strips(o.system, offer, n.dragged)
  {
    o := SentBack(all, n);
    OldestIsInTurn(all, o, 2, 0);
    BothGiving(n, o.system);
  }

  /** When the page comes back to window 0, both windows that still hold it are about to close it. */
  lemma ReturningCanLose(n: Cast)
    requires Distinct(n)
    ensures exists o, p ::
              && ReachesInOrder(o) && InTurn(o, Deliver(p)) && Kept(o.system, n.dragged)
              && BackTooEarly(o.system, p.to, n.c, n.dragged) && Strips(o.system, Deliver(p), n.dragged)
              && n.dragged !in Step(o.system, Deliver(p)).closed && !Kept(Step(o.system, Deliver(p)), n.dragged)
  {
    var o := Returns((iset o | ReachesInOrder(o)), n);
    var offer := Packet(2, 0, Offer(n.u, n.c, Some(n.dragged)));
    StrippedIsLost(o, offer, n.dragged);
  }

  lemma StrippedIsLost(o: Ordered, p: Packet, tab: Tab)
    requires ReachesInOrder(o) && InTurn(o, Deliver(p)) && o.system.closed == {}
    requires Kept(o.system, tab) && Strips(o.system, Deliver(p), tab)
    ensures Step(o.system, Deliver(p)).closed == {} && !Kept(Step(o.system, Deliver(p)), tab)
  {
    ReachedInOrder(o);
    ReachedSound(o.system);
    DeliveryKeeps(o.system, p);
    HeldTabExists(o.system, tab);
    StepKeptExactly(o.system, Deliver(p), tab);
  }

  lemma HeldTabExists(s: System, tab: Tab)
    requires WellFormed(s) && Kept(s, tab)
    ensures tab in s.tabs
  {
    var w :| w in Holders(s, tab) && w !in Giving(s, tab);
    assert EndOk(s, w, s.ends[w]);
  }

  lemma NotGiving(n: Cast, s: System)
    requires Distinct(n)
    requires s.registry == Homes(n)[n.d := Registration(1, n.dragged)][n.c := Registration(2, n.dragged)]
    requires s.adoptions == [Adoption(n.dragged, n.a, 1), Adoption(n.moved, n.b, 0), Adoption(n.dragged, n.d, 2)]
    ensures 2 !in Giving(s, n.dragged)
  {
    assert forall a | a in s.adoptions :: a.transfer != n.c;
  }
}
