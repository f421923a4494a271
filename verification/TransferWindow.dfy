/**
 * The module state of one window's end of the transfer channel, changed in place by the message
 * listener, the timers and the calls of the user interface.
 */
module TransferWindow {

  import opened TabTransfer
  import opened Optional

  class TransferEnd {
    var tabs: set<Tab>
    var sources: map<TransferId, Source>
    var claims: map<RequestId, ClaimInfo>
    var preparations: seq<Preparation>
    var attaching: map<Tab, TransferId>
    ghost var resolved: multiset<RequestId>
    ghost var prepares: multiset<TransferId>

    ghost function State(): End
      reads this
    {
      End(tabs, sources, claims, preparations, attaching, resolved, prepares)
    }

    constructor ()
      ensures State() == NEW_END
    {
      tabs, sources, claims, preparations, attaching := {}, map[], map[], [], map[];
      resolved, prepares := multiset{}, multiset{};
    }

    method RegisterSource(t: TransferId, tab: Tab)
      modifies this
      ensures State() == Register(old(State()), t, tab)
    {
      sources := sources[t := Source(tab, None)];
    }

    method HandleClaim(request: RequestId, t: TransferId) returns (out: seq<Message>)
      modifies this
      ensures (State(), out) == OnClaim(old(State()), request, t)
    {
      out := [];
      if t !in sources {
        return;
      }
      var source := sources[t];
      if source.prepared.None? || source.prepared.value >= |preparations| {
        sources := sources[t := source.(prepared := Some(|preparations|))];
        preparations := preparations + [Running(t, source.tab, [request])];
        prepares := prepares + multiset{t};
        return;
      }
      var n := source.prepared.value;
      var preparation := preparations[n];
      match preparation {
        case Running(_, _, waiting) =>
          preparations := preparations[n := preparation.(waiting := waiting + [request])];
        case Done(_, _, offered) =>
          out := [Offer(request, t, offered)];
      }
    }

    /** The awaited `prepare` returns: offers go out in the order the claims came in. */
    method PreparationSettles(n: nat, ready: bool) returns (out: seq<Message>)
      requires n < |preparations| && preparations[n].Running?
      modifies this
      ensures (State(), out) == Settle(old(State()), n, ready)
    {
      var preparation := preparations[n];
      var offered := None;
      if ready && preparation.tab in tabs {
        offered := Some(preparation.tab);
      }
      preparations := preparations[n := Done(preparation.transfer, preparation.tab, offered)];
      out := [];
      for i := 0 to |preparation.waiting|
        invariant |out| == i
        invariant forall k | 0 <= k < i :: out[k] == Offer(preparation.waiting[k], preparation.transfer, offered)
      {
        out := out + [Offer(preparation.waiting[i], preparation.transfer, offered)];
      }
      assert out == Settle(old(State()), n, ready).1;
    }

    method HandleOffer(request: RequestId, offered: Option<Tab>) returns (out: seq<Message>)
      modifies this
      ensures (State(), out) == OnOffer(old(State()), request, offered)
    {
      out := [];
      if request !in claims {
        return;
      }
      var claim := claims[request];
      claims := claims - {request};
      resolved := resolved + multiset{request};
      match offered {
        case None =>
        case Some(tab) => out := ReceiveTab(tab, claim);
      }
    }

    method ReceiveTab(tab: Tab, claim: ClaimInfo) returns (out: seq<Message>)
      modifies this
      ensures (State(), out) == Adopt(old(State()), tab, claim)
    {
      if tab.surface == Page && claim.replacePlaceholder {
        tabs := tabs - Pages(tabs);
      }
      if tab in tabs {
        return [Cancel(claim.transfer)];
      }
      tabs := tabs + {tab};
      if tab.surface == Dock && tab.live {
        attaching := attaching[tab := claim.transfer];
        return [];
      }
      return [Complete(claim.transfer)];
    }

    method HandleCancel(t: TransferId)
      modifies this
      ensures State() == OnCancel(old(State()), t)
    {
      if t in sources {
        sources := sources[t := sources[t].(prepared := None)];
        prepares := prepares[t := 0];
      }
    }

    method HandleComplete(t: TransferId)
      modifies this
      ensures State() == OnComplete(old(State()), t)
    {
      if t in sources {
        var tab := sources[t].tab;
        sources := sources - {t};
        tabs, attaching := tabs - {tab}, attaching - {tab};
      }
    }

    /** The token's two minutes are over, or the drop stayed inside this window. */
    method RetireSource(t: TransferId)
      modifies this
      ensures State() == Retire(old(State()), t)
    {
      sources := sources - {t};
    }

    method ClaimTab(request: RequestId, t: TransferId, replacePlaceholder: bool) returns (out: seq<Message>)
      modifies this
      ensures (State(), out) == StartClaim(old(State()), request, t, replacePlaceholder)
    {
      claims := claims[request := ClaimInfo(t, replacePlaceholder)];
      out := [Claim(request, t)];
    }

    method ClaimTimesOut(request: RequestId) returns (out: seq<Message>)
      modifies this
      ensures (State(), out) == ClaimTimeout(old(State()), request)
    {
      out := [];
      if request in claims {
        out := [Cancel(claims[request].transfer)];
        claims := claims - {request};
        resolved := resolved + multiset{request};
      }
    }

    method TerminalAttached(tab: Tab, attached: bool) returns (out: seq<Message>)
      modifies this
      ensures (State(), out) == Attach(old(State()), tab, attached)
    {
      out := [];
      if tab in attaching && tab in tabs {
        out := [if attached then Complete(attaching[tab]) else Cancel(attaching[tab])];
        attaching := attaching - {tab};
      }
    }

    /** The listener: one message, one handler. */
    method OnMessage(m: Message) returns (out: seq<Message>)
      modifies this
      ensures (State(), out) == Handle(old(State()), m)
    {
      match m {
        case Claim(request, t) => out := HandleClaim(request, t);
        case Offer(request, _, offered) => out := HandleOffer(request, offered);
        case Cancel(t) => HandleCancel(t); out := [];
        case Complete(t) => HandleComplete(t); out := [];
      }
    }
  }

  /** The listener of one window, by the kind of message. */
  function Handle(e: End, m: Message): (End, seq<Message>)
  {
    match m
    case Claim(request, t) => OnClaim(e, request, t)
    case Offer(request, _, offered) => OnOffer(e, request, offered)
    case Cancel(t) => (OnCancel(e, t), [])
    case Complete(t) => (OnComplete(e, t), [])
  }

  /** A delivery in the system of all windows is one call of that window's listener. */
  lemma DeliveryIsOneCall(s: System, w: Window, m: Message)
    requires w in s.ends
    ensures DeliverTo(s, w, m).ends == s.ends[w := Handle(s.ends[w], m).0]
    ensures DeliverTo(s, w, m).bus == s.bus + Sent(s, w, Handle(s.ends[w], m).1)
  {
  }
}
