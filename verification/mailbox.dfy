/** The single-slot frame mailbox between the frame-arrival side and the
    decoder worker (`QRThread` in sideqr/qr_scanner.py). */
module Mailbox {
  import opened Wrappers
  import opened Media

  /** What happens to the slot: a frame arrives (`add_frame`), or one pass of
      the worker loop takes whatever is waiting and clears the slot. */
  datatype Event = Arrive(frame: Frame) | Take

  /** The slot after one event: an arrival overwrites, a take clears. */
  function Step(slot: Option<Frame>, e: Event): (r: Option<Frame>)
    ensures e.Take? ==> r == None
    ensures r.Some? ==> e == Arrive(r.value)
  {
    match e
    case Arrive(f) => Some(f)
    case Take => None
  }

  /** The slot after a run of events. */
  function PendingAfter(slot: Option<Frame>, events: seq<Event>): Option<Frame>
    decreases |events|
  {
    if events == [] then slot else PendingAfter(Step(slot, events[0]), events[1..])
  }

  /** A taken frame reaches the decoder only if there is one and its pixel
      array is not empty. */
  function Decodable(taken: Option<Frame>): (ok: bool)
    ensures ok <==> taken.Some? && taken.value.height > 0 && taken.value.width > 0 && taken.value.channels > 0
  {
    taken.Some? && Size(taken.value) > 0
  }

  /** The frames that reach the decoder, in order, during a run of events. */
  function Delivered(slot: Option<Frame>, events: seq<Event>): seq<Frame>
    decreases |events|
  {
    if events == [] then []
    else
      (if events[0].Take? && Decodable(slot) then [slot.value] else [])
      + Delivered(Step(slot, events[0]), events[1..])
  }

  /** Number of worker passes in a run of events. */
  function Takes(events: seq<Event>): nat
    decreases |events|
  {
    if events == [] then 0 else (if events[0].Take? then 1 else 0) + Takes(events[1..])
  }

  lemma {:induction false} PendingAfterSplit(slot: Option<Frame>, e1: seq<Event>, e2: seq<Event>)
    ensures PendingAfter(slot, e1 + e2) == PendingAfter(PendingAfter(slot, e1), e2)
    decreases |e1|
  {
    if e1 != [] {
      assert (e1 + e2)[1..] == e1[1..] + e2;
      PendingAfterSplit(Step(slot, e1[0]), e1[1..], e2);
    } else {
      assert e1 + e2 == e2;
    }
  }

  /** Running two stretches of events one after the other delivers what the
      first delivers, then what the second delivers from the slot the first
      left behind. */
  lemma {:induction false} DeliveredSplit(slot: Option<Frame>, e1: seq<Event>, e2: seq<Event>)
    ensures Delivered(slot, e1 + e2) == Delivered(slot, e1) + Delivered(PendingAfter(slot, e1), e2)
    decreases |e1|
  {
    if e1 != [] {
      assert (e1 + e2)[0] == e1[0];
      assert (e1 + e2)[1..] == e1[1..] + e2;
      DeliveredSplit(Step(slot, e1[0]), e1[1..], e2);
    } else {
      assert e1 + e2 == e2;
    }
  }

  /** Latest frame wins: when frame `a` is followed by frame `b` with no pass
      in between, what happens afterwards depends on `b` only, and `a` never
      reaches the decoder through the slot. */
  lemma LatestArrivalWins(slot: Option<Frame>, pre: seq<Event>, a: Frame, b: Frame, post: seq<Event>)
    ensures Delivered(slot, pre + [Arrive(a), Arrive(b)] + post)
         == Delivered(slot, pre) + Delivered(Some(b), post)
    ensures PendingAfter(slot, pre + [Arrive(a), Arrive(b)] + post) == PendingAfter(Some(b), post)
  {
    var mid := PendingAfter(slot, pre);
    assert pre + [Arrive(a), Arrive(b)] + post == pre + ([Arrive(a), Arrive(b)] + post);
    DeliveredSplit(slot, pre, [Arrive(a), Arrive(b)] + post);
    PendingAfterSplit(slot, pre, [Arrive(a), Arrive(b)] + post);
    assert ([Arrive(a), Arrive(b)] + post)[1..] == [Arrive(b)] + post;
    assert ([Arrive(b)] + post)[1..] == post;
  }

  /** A pass on an empty slot delivers nothing, so a second pass right after a
      first never delivers the same frame again. */
  lemma SecondTakeDeliversNothing(slot: Option<Frame>, pre: seq<Event>)
    ensures Delivered(slot, pre + [Take, Take]) == Delivered(slot, pre + [Take])
    ensures PendingAfter(slot, pre + [Take]) == None
  {
    DeliveredSplit(slot, pre, [Take, Take]);
    DeliveredSplit(slot, pre, [Take]);
    PendingAfterSplit(slot, pre, [Take]);
    assert [Take, Take][1..] == [Take];
    assert [Take][1..] == [];
  }

  /** Every delivered frame has a non-empty pixel array, was waiting in the
      slot at the start or arrived during the run, and there are never more
      deliveries than worker passes. */
  lemma {:induction false} DeliveredFacts(slot: Option<Frame>, events: seq<Event>)
    ensures |Delivered(slot, events)| <= Takes(events)
    ensures forall i :: 0 <= i < |Delivered(slot, events)| ==> Size(Delivered(slot, events)[i]) > 0
    ensures forall f :: f in Delivered(slot, events) ==> slot == Some(f) || Arrive(f) in events
    decreases |events|
  {
    if events != [] {
      var rest := Delivered(Step(slot, events[0]), events[1..]);
      DeliveredFacts(Step(slot, events[0]), events[1..]);
      forall f | f in rest
        ensures slot == Some(f) || Arrive(f) in events
      {
        assert Step(slot, events[0]) == Some(f) || Arrive(f) in events[1..];
        if Arrive(f) in events[1..] {
          var k :| 0 <= k < |events[1..]| && events[1..][k] == Arrive(f);
          assert events[k + 1] == Arrive(f);
        }
      }
    }
  }

  /** The worker thread's state: the pending-frame slot. `history` records
      the events so far; it is specification only. */
  class QRThread {
    var pending: Option<Frame>
    ghost var history: seq<Event>

    ghost predicate Valid()
      reads this
    {
      pending == PendingAfter(None, history)
    }

    /** A new worker starts with no pending frame. */
    constructor ()
      ensures Valid() && pending == None && history == []
    {
      pending := None;
      history := [];
    }

    /** `add_frame`: store the frame, discarding any frame still waiting. */
    method AddFrame(frame: Frame)
      requires Valid()
      modifies this
      ensures Valid()
      ensures pending == Some(frame)
      ensures history == old(history) + [Arrive(frame)]
      ensures Delivered(None, history) == Delivered(None, old(history))
    {
      PendingAfterSplit(None, history, [Arrive(frame)]);
      DeliveredSplit(None, history, [Arrive(frame)]);
      pending := Some(frame);
      history := history + [Arrive(frame)];
    }

    /** The locked part of one worker pass: take what is waiting and clear
        the slot. An empty slot yields `None`. */
    method Take() returns (frame: Option<Frame>)
      requires Valid()
      modifies this
      ensures Valid()
      ensures frame == old(pending) && pending == None
      ensures history == old(history) + [Event.Take]
      ensures Delivered(None, history)
           == Delivered(None, old(history)) + (if Decodable(frame) then [frame.value] else [])
    {
      PendingAfterSplit(None, history, [Event.Take]);
      DeliveredSplit(None, history, [Event.Take]);
      frame := pending;
      pending := None;
      history := history + [Event.Take];
    }

    /** One pass of the worker loop: take the waiting frame and, when it is
        present and non-empty, run the decoder on it and return the batch
        that is published. `decode` stands for the barcode library. */
    method RunOnce(decode: Frame -> seq<Symbol>) returns (batch: Option<seq<Symbol>>)
      requires Valid()
      modifies this
      ensures Valid() && pending == None
      ensures history == old(history) + [Event.Take]
      ensures batch.Some? <==> Decodable(old(pending))
      ensures batch.Some? ==> batch.value == decode(old(pending).value)
      ensures Delivered(None, history)
           == Delivered(None, old(history)) + (if batch.Some? then [old(pending).value] else [])
    {
      var frame := Take();
      if frame.Some? && Size(frame.value) > 0 {
        batch := Some(decode(frame.value));
      } else {
        batch := None;
      }
    }
  }
}
