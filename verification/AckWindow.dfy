/** The packet-sequence window with its 64-bit acknowledgement bitset: the Go server's
    `acceptClientRequest`, `clientAckBitsLocked`, `pruneClientReceivedSeqsLocked` and
    `packetSequenceAcked`, and the same window in the Rust and C# clients. */
module AckWindow {
  import opened Bits

  const SPAN: nat := 64

  datatype Window = Window(ack: u64, bits: u64, received: set<u64>)

  const EMPTY: Window := Window(0, 0, {})

  predicate PacketSequenceAcked(ack: u64, ackBits: u64, sequence: u64) {
    if sequence == 0 || ack == 0 then false
    else if sequence == ack then true
    else if sequence > ack then false
    else ack - sequence <= SPAN && BitAt(ackBits, ack - sequence - 1)
  }

  // ----- specification of the window -----

  /** The bitset for the `n` sequences directly below `ack`: bit k stands for `ack - k - 1`. */
  function AckBits(ack: u64, received: set<u64>, n: nat): nat {
    if n == 0 then 0
    else
      var lower := AckBits(ack, received, n - 1);
      if n <= ack && ack - n in received then SetBit(lower, n - 1) else lower
  }

  function Prune(ack: u64, received: set<u64>): set<u64> {
    set s | s in received && s + SPAN >= ack
  }

  /** The window after `sequence` has been recorded. */
  function Record(w: Window, sequence: u64): Window {
    var received := w.received + {sequence};
    var ack := if sequence > w.ack then sequence else w.ack;
    AckBitsBound(ack, received);
    Window(ack, AckBits(ack, received, SPAN), Prune(ack, received))
  }

  /** The uint64 staleness test of the server, with the wrap-around of `sequence + 64`. */
  predicate Stale(ack: u64, sequence: u64) {
    ack > 0 && (sequence + SPAN) % TWO_64 <= ack
  }

  /** The server accepts a packet iff this holds; sequence 0 is never recorded. */
  predicate Admits(w: Window, sequence: u64) {
    sequence == 0 || (sequence !in w.received && !Stale(w.ack, sequence))
  }

  function Accept(w: Window, sequence: u64): Window {
    if sequence != 0 && Admits(w, sequence) then Record(w, sequence) else w
  }

  lemma {:induction false} AckBitsMeaning(ack: u64, received: set<u64>, n: nat, k: nat)
    ensures BitAt(AckBits(ack, received, n), k) <==> k < n && k < ack && ack - k - 1 in received
  {
    if n == 0 {
      ZeroHasNoBits(k);
    } else {
      AckBitsMeaning(ack, received, n - 1, k);
      BitAtSetBit(AckBits(ack, received, n - 1), n - 1, k);
    }
  }

  lemma {:induction false} AckBitsWidth(ack: u64, received: set<u64>, n: nat, width: nat)
    requires n <= width
    ensures AckBits(ack, received, n) < Pow2(width)
  {
    if n > 0 {
      AckBitsWidth(ack, received, n - 1, width);
      SetBitBound(AckBits(ack, received, n - 1), n - 1, width);
    }
  }

  lemma AckBitsBound(ack: u64, received: set<u64>)
    ensures AckBits(ack, received, SPAN) < TWO_64
  {
    AckBitsWidth(ack, received, SPAN, SPAN);
    WordWidth();
  }

  /** Only the 64 sequences below `ack` matter, so pruning does not change the bitset. */
  lemma {:induction false} AckBitsIgnorePruned(ack: u64, received: set<u64>, n: nat)
    requires n <= SPAN
    ensures AckBits(ack, Prune(ack, received), n) == AckBits(ack, received, n)
  {
    if n > 0 {
      AckBitsIgnorePruned(ack, received, n - 1);
    }
  }

  lemma {:induction false} AckBitsBelowZero(ack: u64, received: set<u64>, n: nat)
    requires n >= ack
    ensures AckBits(ack, received, n) == AckBits(ack, received, ack)
  {
    if n > ack {
      AckBitsBelowZero(ack, received, n - 1);
    }
  }

  // ----- what the window means, over whole histories -----

  /** `w` is what recording exactly the sequences of `history`, in any order, must leave:
      the largest one, and those at most 64 below it. */
  ghost predicate Represents(w: Window, history: set<u64>) {
    && 0 !in history
    && (w.ack == 0 <==> history == {})
    && (history != {} ==> w.ack in history)
    && (forall s <- history :: s <= w.ack)
    && w.received == Prune(w.ack, history)
    && w.bits == AckBits(w.ack, history, SPAN)
  }

  lemma RecordRepresents(w: Window, history: set<u64>, sequence: u64)
    requires Represents(w, history) && sequence != 0
    ensures Represents(Record(w, sequence), history + {sequence})
  {
    var all := history + {sequence};
    var w' := Record(w, sequence);
    assert forall s <- all :: s <= w'.ack;
    assert Prune(w'.ack, w.received + {sequence}) == Prune(w'.ack, all);
    AckBitsIgnorePruned(w'.ack, w.received + {sequence}, SPAN);
    AckBitsIgnorePruned(w'.ack, all, SPAN);
  }

  /** The acknowledgement pair sent to the peer names exactly the retained sequences. */
  lemma AckedExactly(w: Window, history: set<u64>, sequence: u64)
    requires Represents(w, history)
    ensures PacketSequenceAcked(w.ack, w.bits, sequence) <==> sequence in w.received
    ensures sequence in w.received <==> sequence in history && sequence + 64 >= w.ack
  {
    if 0 < sequence < w.ack {
      AckBitsMeaning(w.ack, history, SPAN, w.ack - sequence - 1);
    }
  }

  /** Testing the pruned set is as good as remembering every accepted sequence: whatever was
      pruned is caught by the staleness test, which cannot have wrapped for it. */
  lemma AdmitsExactly(w: Window, history: set<u64>, sequence: u64)
    requires Represents(w, history) && sequence != 0
    ensures Admits(w, sequence) <==> sequence !in history && !Stale(w.ack, sequence)
  {
  }

  /** One server session: the window and the non-zero sequences accepted so far, in order. */
  datatype Session = Session(window: Window, accepted: seq<u64>)

  function Arrive(session: Session, sequence: u64): Session {
    Session(Accept(session.window, sequence),
            if sequence != 0 && Admits(session.window, sequence)
            then session.accepted + [sequence] else session.accepted)
  }

  function Run(arrivals: seq<u64>): Session {
    if arrivals == [] then Session(EMPTY, [])
    else Arrive(Run(arrivals[..|arrivals| - 1]), arrivals[|arrivals| - 1])
  }

  ghost predicate NoDuplicates(s: seq<u64>) {
    forall i, j :: 0 <= i < j < |s| ==> s[i] != s[j]
  }

  ghost function Elements(s: seq<u64>): set<u64> {
    set x | x in s
  }

  /** Every reachable window represents the accepted sequences, and accepts none twice. */
  lemma {:induction false} EveryRun(arrivals: seq<u64>)
    ensures Represents(Run(arrivals).window, Elements(Run(arrivals).accepted))
    ensures NoDuplicates(Run(arrivals).accepted)
  {
    if arrivals == [] {
      assert Elements([]) == {};
      assert Prune(0, {}) == {};
      AckBitsBelowZero(0, {}, SPAN);
    } else {
      var before := Run(arrivals[..|arrivals| - 1]);
      var sequence := arrivals[|arrivals| - 1];
      EveryRun(arrivals[..|arrivals| - 1]);
      if sequence != 0 && Admits(before.window, sequence) {
        AdmitsExactly(before.window, Elements(before.accepted), sequence);
        RecordRepresents(before.window, Elements(before.accepted), sequence);
        assert Elements(before.accepted + [sequence]) == Elements(before.accepted) + {sequence};
      }
    }
  }

  /** Ack window exactness in every reachable state, for every sequence number. */
  lemma AckWindowExactness(arrivals: seq<u64>, sequence: u64)
    ensures var session := Run(arrivals);
      && (PacketSequenceAcked(session.window.ack, session.window.bits, sequence)
          <==> sequence in session.window.received)
      && (sequence in session.window.received
          <==> sequence in session.accepted && sequence + 64 >= session.window.ack)
  {
    EveryRun(arrivals);
    var session := Run(arrivals);
    AckedExactly(session.window, Elements(session.accepted), sequence);
  }

  /** At-most-once acceptance: once accepted, a sequence is rejected for the rest of the session,
      whatever else arrives and however much the window has been pruned. */
  lemma AtMostOnce(arrivals: seq<u64>, i: nat)
    requires i < |arrivals| && arrivals[i] != 0
    requires arrivals[i] in Run(arrivals[..i]).accepted
    ensures Run(arrivals[..i + 1]) == Run(arrivals[..i])
  {
    EveryRun(arrivals[..i]);
    var session := Run(arrivals[..i]);
    AdmitsExactly(session.window, Elements(session.accepted), arrivals[i]);
    assert arrivals[..i + 1][..i] == arrivals[..i];
  }

  /** What the newest accepted sequence and the retained ones are, after every history. */
  lemma NewestAccepted(arrivals: seq<u64>)
    ensures var session := Run(arrivals);
      && (session.accepted == [] ==> session.window.ack == 0)
      && (session.accepted != [] ==> session.window.ack in session.accepted)
      && (forall a <- session.accepted :: 0 < a <= session.window.ack)
  {
    EveryRun(arrivals);
    var session := Run(arrivals);
    if session.accepted != [] {
      assert session.accepted[0] in Elements(session.accepted);
    }
  }

  /** Which packets the server takes, after every history: a new sequence, whatever was accepted
      before it, as long as everything accepted so far lies below that sequence plus 64, computed
      in 64 bits. So reordering within 64 of the newest is harmless, and a sequence within 64 of
      the end of the range is refused unless the wrapped sum still exceeds everything accepted. */
  lemma FreshAccepted(arrivals: seq<u64>, sequence: u64)
    requires sequence != 0 && sequence !in Run(arrivals).accepted
    ensures var limit := if sequence + 64 < 0x1_0000_0000_0000_0000 then sequence + 64
                         else sequence + 64 - 0x1_0000_0000_0000_0000;
      sequence in Run(arrivals + [sequence]).accepted <==> forall a <- Run(arrivals).accepted :: a < limit
  {
    var session := Run(arrivals);
    EveryRun(arrivals);
    NewestAccepted(arrivals);
    AdmitsExactly(session.window, Elements(session.accepted), sequence);
    assert (arrivals + [sequence])[..|arrivals|] == arrivals;
    assert sequence in Run(arrivals + [sequence]).accepted <==> !Stale(session.window.ack, sequence);
    WrapsOnce(sequence);
  }

  lemma WrapsOnce(sequence: u64)
    ensures (sequence + SPAN) % TWO_64 == if sequence + SPAN < TWO_64 then sequence + SPAN else sequence + SPAN - TWO_64
  {
  }

  /** A packet without a sequence number is taken every time and leaves no trace. */
  lemma ZeroLeavesNoTrace(arrivals: seq<u64>)
    ensures Admits(Run(arrivals).window, 0)
    ensures Run(arrivals + [0]) == Run(arrivals)
  {
    assert (arrivals + [0])[..|arrivals|] == arrivals;
  }

  // ----- the clients -----

  /** A client records every packet that has a sequence, however old. */
  function Recorded(w: Window, sequence: u64): Window {
    if sequence == 0 then w else Record(w, sequence)
  }

  function RecordAll(arrivals: seq<u64>): Window {
    if arrivals == [] then EMPTY
    else Recorded(RecordAll(arrivals[..|arrivals| - 1]), arrivals[|arrivals| - 1])
  }

  ghost function NonZero(arrivals: seq<u64>): set<u64> {
    set s | s in arrivals && s != 0
  }

  lemma {:induction false} RecordedRun(arrivals: seq<u64>)
    ensures Represents(RecordAll(arrivals), NonZero(arrivals))
  {
    if arrivals == [] {
      EveryRun([]);
      assert Elements([]) == NonZero([]);
    } else {
      var earlier, last := arrivals[..|arrivals| - 1], arrivals[|arrivals| - 1];
      RecordedRun(earlier);
      assert arrivals == earlier + [last];
      if last == 0 {
        assert NonZero(arrivals) == NonZero(earlier);
      } else {
        RecordRepresents(RecordAll(earlier), NonZero(earlier), last);
        assert NonZero(arrivals) == NonZero(earlier) + {last};
      }
    }
  }

  /** What a client acknowledges, after every history: exactly the packets it got that no packet it got is more
      than 64 ahead of. */
  lemma ClientAcknowledges(arrivals: seq<u64>, sequence: u64)
    ensures var w := RecordAll(arrivals);
      PacketSequenceAcked(w.ack, w.bits, sequence)
      <==> sequence != 0 && sequence in arrivals && forall a <- arrivals :: a <= sequence + 64
  {
    RecordedRun(arrivals);
    var w := RecordAll(arrivals);
    AckedExactly(w, NonZero(arrivals), sequence);
    assert forall a <- arrivals :: a != 0 ==> a in NonZero(arrivals);
    if NonZero(arrivals) != {} {
      assert w.ack in arrivals;
    }
  }

  // ----- the code -----

  /** The receive-side sequence fields of `UDPClient` (Go). */
  class ReceiveWindow {
    var ack: u64
    var ackBits: u64
    var receivedSeqs: set<u64>

    ghost function View(): Window
      reads this
    {
      Window(ack, ackBits, receivedSeqs)
    }

    constructor ()
      ensures View() == EMPTY
    {
      ack, ackBits, receivedSeqs := 0, 0, {};
    }

    /** `acceptClientRequest` from the sequence test on. */
    method AcceptSequence(sequence: u64) returns (accepted: bool)
      modifies this
      ensures accepted <==> Admits(old(View()), sequence)
      ensures View() == Accept(old(View()), sequence)
    {
      if sequence == 0 {
        return true;
      }
      if sequence in receivedSeqs {
        return false;
      }
      if ack > 0 && (sequence + 64) % TWO_64 <= ack {
        return false;
      }
      receivedSeqs := receivedSeqs + {sequence};
      if sequence > ack {
        ack := sequence;
      }
      ackBits := ClientAckBits(ack, receivedSeqs);
      receivedSeqs := PruneReceived(ack, receivedSeqs);
      return true;
    }
  }

  /** The window fields of the Rust and C# clients: every packet is recorded, and the bitset is
      built when a packet is sent. */
  class ClientWindow {
    var latestPeerSequence: u64
    var receivedSequences: set<u64>

    ghost function View(): Window
      reads this
    {
      AckBitsBound(latestPeerSequence, receivedSequences);
      Window(latestPeerSequence, AckBits(latestPeerSequence, receivedSequences, SPAN), receivedSequences)
    }

    constructor ()
      ensures View() == EMPTY
    {
      latestPeerSequence, receivedSequences := 0, {};
      new;
      AckBitsBelowZero(0, {}, SPAN);
    }

    method RecordPeerPacket(sequence: u64)
      modifies this
      ensures View() == Recorded(old(View()), sequence)
    {
      if sequence == 0 {
        return;
      }
      receivedSequences := receivedSequences + {sequence};
      if sequence > latestPeerSequence {
        latestPeerSequence := sequence;
      }
      AckBitsIgnorePruned(latestPeerSequence, receivedSequences, SPAN);
      receivedSequences := PruneReceived(latestPeerSequence, receivedSequences);
    }

    method BuildAckBits() returns (bits: u64)
      ensures bits == View().bits
    {
      bits := ClientAckBits(latestPeerSequence, receivedSequences);
    }
  }

  /** The bit-packing loop shared by all three endpoints. */
  method ClientAckBits(ack: u64, received: set<u64>) returns (bits: u64)
    ensures bits == AckBits(ack, received, SPAN)
  {
    AckBitsBound(ack, received);
    if ack == 0 {
      AckBitsBelowZero(ack, received, SPAN);
      return 0;
    }
    var packed: nat := 0;
    var offset := 0;
    while offset < SPAN
      invariant offset <= SPAN && offset < ack
      invariant packed == AckBits(ack, received, offset)
    {
      var sequence := ack - offset - 1;
      if sequence in received {
        packed := SetBit(packed, offset);
      }
      offset := offset + 1;
      if sequence == 0 {
        AckBitsBelowZero(ack, received, SPAN);
        break;
      }
    }
    bits := packed;
  }

  /** The pruning loop: deletes what lies more than 64 below `ack`. */
  method PruneReceived(ack: u64, received: set<u64>) returns (kept: set<u64>)
    ensures kept == Prune(ack, received)
  {
    kept := received;
    if ack <= SPAN {
      return;
    }
    var minimum := ack - SPAN;
    var pending := received;
    while pending != {}
      invariant pending <= kept <= received
      invariant forall s <- received :: s in kept <==> s in pending || s >= minimum
      decreases |pending|
    {
      var sequence :| sequence in pending;
      pending := pending - {sequence};
      if sequence < minimum {
        kept := kept - {sequence};
      }
    }
  }
}
