/** A session in which nothing is lost for good: what is sent reliably in order comes out in order. */
module Delivery {
  import opened Bits
  import opened Wire
  import opened Transport
  import AckWindow
  import Reassembly

  /** What the application hands to the sender. */
  datatype Content = Content(kind: u16, payload: seq<byte>)

  function Sends(contents: seq<Content>): seq<Event> {
    if contents == [] then []
    else
      var last := contents[|contents| - 1];
      Sends(contents[..|contents| - 1]) + [Send(last.kind, last.payload, RELIABLE_ORDERED)]
  }

  function Deliveries(order: seq<u64>): seq<Event> {
    if order == [] then [] else Deliveries(order[..|order| - 1]) + [Deliver(order[|order| - 1])]
  }

  /** The message number `i`, counted from 1, of ordered delivery. */
  function Nth(contents: seq<Content>, i: int): WireMessage
    requires 1 <= i <= |contents| && i < TWO_64
  {
    WireMessage(contents[i - 1].kind, contents[i - 1].payload, RELIABLE_ORDERED, i)
  }

  ghost predicate AllSent(contents: seq<Content>, network: map<u64, WireMessage>)
    requires |contents| < TWO_64
  {
    && (forall q :: q in network <==> 1 <= q <= |contents|)
    && forall q <- network :: network[q] == Nth(contents, q)
  }

  /** Nothing but these messages has been sent, and nothing has come. */
  ghost predicate JustSent(contents: seq<Content>, s: State)
    requires |contents| < TWO_64
  {
    && AllSent(contents, s.network)
    && s.out.nextSequence == s.out.orderedIds == |contents| && s.out.unorderedIds == 0
    && s.peer == INITIAL.peer && s.terms == UNNEGOTIATED
  }

  lemma {:induction false} SendingAll(link: Link, contents: seq<Content>)
    requires |contents| < TWO_64
    ensures JustSent(contents, Run(link, Sends(contents)))
  {
    if contents != [] {
      var earlier, last := contents[..|contents| - 1], contents[|contents| - 1];
      SendingAll(link, earlier);
      RunStep(link, Sends(earlier), Send(last.kind, last.payload, RELIABLE_ORDERED));
      SendingOne(link, earlier, last, Run(link, Sends(earlier)));
      assert contents == earlier + [last];
    }
  }

  lemma SendingOne(link: Link, contents: seq<Content>, last: Content, s: State)
    requires |contents| + 1 < TWO_64 && JustSent(contents, s)
    ensures JustSent(contents + [last], Apply(link, s, Send(last.kind, last.payload, RELIABLE_ORDERED)))
  {
    var t, q := Apply(link, s, Send(last.kind, last.payload, RELIABLE_ORDERED)), |contents| + 1;
    assert t.network == s.network[q := Nth(contents + [last], q)];
  }

  /** The packets of `order` have come, and nothing was lost. */
  ghost predicate CameIn(link: Link, contents: seq<Content>, order: seq<u64>, s: State)
    requires |contents| < TWO_64
  {
    && Inv(link, s) && AllSent(contents, s.network)
    && s.terms == UNNEGOTIATED && s.peer.turnedAway == {}
    && forall q <- order :: q in s.network ==> s.network[q] in s.peer.arrivals
  }

  /** No packet is stale for a Go receiver while there are at most 64. */
  ghost predicate Timely(link: Link, contents: seq<Content>) {
    && |contents| + 1 < TWO_64
    && (link.sender.GoServer? || |contents| <= 64)
    && forall i :: 1 <= i <= |contents| ==> Reads(link, Nth(contents, i))
  }

  lemma OneComesIn(link: Link, contents: seq<Content>, order: seq<u64>, s: State, q: u64)
    requires Timely(link, contents) && CameIn(link, contents, order, s)
    ensures CameIn(link, contents, order + [q], Apply(link, s, Deliver(q)))
  {
    StepKeeps(link, s, Deliver(q));
    if q in s.network {
      assert Reads(link, s.network[q]);
      if !Processes(link.sender, s.peer.window, q) {
        RefusedWasSeen(link, contents, order, s, q);
      }
    }
  }

  /** What a Go receiver refuses here is what it has already. */
  lemma RefusedWasSeen(link: Link, contents: seq<Content>, order: seq<u64>, s: State, q: u64)
    requires Timely(link, contents) && CameIn(link, contents, order, s) && q in s.network
    requires !Processes(link.sender, s.peer.window, q)
    ensures s.network[q] in s.peer.arrivals
  {
    AckWindow.AdmitsExactly(s.peer.window, s.peer.recorded, q);
    assert s.peer.window.ack <= |contents| <= 64 < q + 64;
    assert (q + 64) % TWO_64 == q + 64;
    assert q in s.peer.recorded && Seen(s.peer, s.network[q]);
  }

  lemma NothingBooked(link: Link, events: seq<Event>)
    requires forall event <- events :: event.Send? || event.Deliver?
    ensures RetriesBookedRight(link, events)
  {
    forall k | 0 <= k < |events|
      ensures BookedRight(link, Run(link, events[..k]), events[k])
    {
      assert events[k] in events;
    }
  }

  lemma {:induction false} OnlySends(contents: seq<Content>)
    ensures forall event <- Sends(contents) :: event.Send?
  {
    if contents != [] {
      OnlySends(contents[..|contents| - 1]);
    }
  }

  lemma BeforeAny(link: Link, contents: seq<Content>)
    requires |contents| < TWO_64
    ensures CameIn(link, contents, [], Run(link, Sends(contents)))
  {
    SendingAll(link, contents);
    OnlySends(contents);
    NothingBooked(link, Sends(contents));
    EveryRun(link, Sends(contents));
  }

  lemma {:induction false} AllComeIn(link: Link, contents: seq<Content>, order: seq<u64>)
    requires Timely(link, contents)
    ensures CameIn(link, contents, order, Run(link, Sends(contents) + Deliveries(order)))
  {
    if order == [] {
      assert Deliveries(order) == [];
      assert Sends(contents) + [] == Sends(contents);
      BeforeAny(link, contents);
    } else {
      var earlier, q := order[..|order| - 1], order[|order| - 1];
      AllComeIn(link, contents, earlier);
      OneComesIn(link, contents, earlier, Run(link, Sends(contents) + Deliveries(earlier)), q);
      RunStep(link, Sends(contents) + Deliveries(earlier), Deliver(q));
      assert Sends(contents) + Deliveries(order) == Sends(contents) + Deliveries(earlier) + [Deliver(q)];
      assert order == earlier + [q];
    }
  }

  /** However the packets of some ordered messages come, as long as each comes at least once, the application
      gets exactly the messages, in the order in which they were sent; to a Go server that is said of up to 64
      packets, since older ones than that count as stale. */
  lemma InOrder(link: Link, contents: seq<Content>, order: seq<u64>)
    requires Timely(link, contents) && forall q: u64 :: 1 <= q <= |contents| ==> q in order
    ensures var delivered := Run(link, Sends(contents) + Deliveries(order)).peer.delivered;
      |Reassembly.OfClass(delivered, RELIABLE_ORDERED)| == |contents|
      && forall i :: 0 <= i < |contents| ==>
           Reassembly.OfClass(delivered, RELIABLE_ORDERED)[i]
           == WireMessage(contents[i].kind, contents[i].payload, RELIABLE_ORDERED, i + 1)
  {
    AllComeIn(link, contents, order);
    Complete(link, contents, order, Run(link, Sends(contents) + Deliveries(order)));
  }

  lemma Complete(link: Link, contents: seq<Content>, order: seq<u64>, s: State)
    requires Timely(link, contents) && CameIn(link, contents, order, s)
    requires forall q: u64 :: 1 <= q <= |contents| ==> q in order
    ensures var ordered := Reassembly.OfClass(s.peer.delivered, RELIABLE_ORDERED);
      |ordered| == |contents| && forall i :: 0 <= i < |contents| ==> ordered[i] == Nth(contents, i + 1)
  {
    var ordered := Reassembly.OfClass(s.peer.delivered, RELIABLE_ORDERED);
    OrderedStream(link, s);
    StreamsOfInv(link, s);
    ArrivalsFixedById(link, s);
    forall i | 0 <= i < |ordered|
      ensures i < |contents| && ordered[i] == Nth(contents, i + 1)
    {
      assert ordered[i] in ordered + [];
      assert ordered[i] in s.network.Values;
    }
    assert ordered != [] ==> ordered[|ordered| - 1].deliveryId == |ordered|;
    if |ordered| < |contents| {
      var q := |ordered| + 1;
      assert s.network[q] in s.peer.arrivals;
      NextHasNotArrived(link, s, s.network[q]);
    }
  }
}
