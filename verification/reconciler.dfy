/** The decode-result reconciler of `QRScanner._handle_results`, as a pure
    state machine over the tracked symbol list and the empty-batch counter. */
module Reconciler {
  import opened Media

  /** The tracked list is cleared once the empty-batch counter exceeds this. */
  const ExpiryLimit: int := 15

  /** `_last_decoded_objects` and `_emptyframes`. */
  datatype Tracker = Tracker(tracked: seq<Symbol>, emptyFrames: int)

  /** The state a new scanner starts in. */
  const Initial: Tracker := Tracker([], 0)

  /** What every reachable state satisfies: the counter is never negative and
      nothing is tracked once the counter is past the limit. */
  predicate Inv(t: Tracker)
  {
    t.emptyFrames >= 0 && (t.emptyFrames > ExpiryLimit ==> t.tracked == [])
  }

  /** Payloads of a batch that the tracked list does not already carry. */
  function NewPayloads(batch: seq<Symbol>, tracked: seq<Symbol>): (ps: set<Payload>)
    ensures forall p :: p in ps <==>
      (exists i :: 0 <= i < |batch| && batch[i].data == p) &&
      (forall j :: 0 <= j < |tracked| ==> tracked[j].data != p)
  {
    Payloads(batch) - Payloads(tracked)
  }

  /** The payloads announced for a batch: nothing for an empty batch. */
  function Announced(t: Tracker, batch: seq<Symbol>): (a: set<Payload>)
    ensures a <= Payloads(batch)
    ensures a !! Payloads(t.tracked)
    ensures batch != [] ==> Payloads(batch) - Payloads(t.tracked) <= a
  {
    if batch == [] then {} else NewPayloads(batch, t.tracked)
  }

  /** The state after one batch: a non-empty batch becomes the tracked list
      and resets the counter; an empty one counts, and clears the list once
      the counter passes the limit. */
  function Reconcile(t: Tracker, batch: seq<Symbol>): (r: Tracker)
    ensures Inv(t) ==> Inv(r)
  {
    if batch != [] then Tracker(batch, 0)
    else
      var n := t.emptyFrames + 1;
      Tracker(if n > ExpiryLimit then [] else t.tracked, n)
  }

  /** The state after a run of batches. */
  function Replay(t: Tracker, batches: seq<seq<Symbol>>): Tracker
    decreases |batches|
  {
    if batches == [] then t else Replay(Reconcile(t, batches[0]), batches[1..])
  }

  /** `n` empty decode batches in a row. */
  function EmptyBatches(n: nat): seq<seq<Symbol>>
  {
    seq(n, _ => [])
  }

  /** Number of empty batches at the end of a run. */
  function TrailingEmpty(batches: seq<seq<Symbol>>): nat
    decreases |batches|
  {
    if batches == [] || batches[|batches| - 1] != [] then 0
    else 1 + TrailingEmpty(batches[..|batches| - 1])
  }

  /** The last non-empty batch of a run, or nothing if there is none. */
  function LastNonEmpty(batches: seq<seq<Symbol>>): seq<Symbol>
    decreases |batches|
  {
    if batches == [] then []
    else if batches[|batches| - 1] != [] then batches[|batches| - 1]
    else LastNonEmpty(batches[..|batches| - 1])
  }

  lemma {:induction false} ReplaySnoc(t: Tracker, batches: seq<seq<Symbol>>, b: seq<Symbol>)
    ensures Replay(t, batches + [b]) == Reconcile(Replay(t, batches), b)
    decreases |batches|
  {
    if batches == [] {
      assert batches + [b] == [b];
    } else {
      assert (batches + [b])[1..] == batches[1..] + [b];
      ReplaySnoc(Reconcile(t, batches[0]), batches[1..], b);
    }
  }

  /** What the state machine computes, stated without it: from the initial
      state, the counter is the number of trailing empty batches, and the
      tracked list is the last non-empty batch unless more than 15 empty
      batches have followed it. */
  lemma {:induction false} ReplayMeaning(batches: seq<seq<Symbol>>)
    ensures Replay(Initial, batches).emptyFrames == TrailingEmpty(batches)
    ensures Replay(Initial, batches).tracked
         == if TrailingEmpty(batches) > ExpiryLimit then [] else LastNonEmpty(batches)
    decreases |batches|
  {
    if batches != [] {
      var front := batches[..|batches| - 1];
      var b := batches[|batches| - 1];
      assert batches == front + [b];
      ReplaySnoc(Initial, front, b);
      ReplayMeaning(front);
    }
  }

  /** Every state reached from the initial one satisfies the invariant. */
  lemma {:induction false} ReachableInv(t: Tracker, batches: seq<seq<Symbol>>)
    requires Inv(t)
    ensures Inv(Replay(t, batches))
    decreases |batches|
  {
    if batches != [] {
      ReachableInv(Reconcile(t, batches[0]), batches[1..]);
    }
  }

  /** A run of `n` empty batches adds `n` to the counter, and leaves the
      tracked list alone unless the counter passes the limit on the way. */
  lemma {:induction false} EmptyRun(t: Tracker, n: nat)
    ensures Replay(t, EmptyBatches(n)).emptyFrames == t.emptyFrames + n
    ensures Replay(t, EmptyBatches(n)).tracked
         == if n > 0 && t.emptyFrames + n > ExpiryLimit then [] else t.tracked
    decreases n
  {
    if n > 0 {
      assert EmptyBatches(n)[1..] == EmptyBatches(n - 1);
      EmptyRun(Reconcile(t, []), n - 1);
    }
  }

  /** After a non-empty batch the tracked list is exactly that batch and the
      counter is 0; it stays tracked through 15 empty batches and is gone
      after the 16th. */
  lemma SightingThenSilence(t: Tracker, batch: seq<Symbol>, n: nat)
    requires batch != []
    ensures Reconcile(t, batch) == Tracker(batch, 0)
    ensures n <= ExpiryLimit ==> Replay(Reconcile(t, batch), EmptyBatches(n)) == Tracker(batch, n)
    ensures n > ExpiryLimit ==> Replay(Reconcile(t, batch), EmptyBatches(n)) == Tracker([], n)
  {
    EmptyRun(Reconcile(t, batch), n);
  }

  /** Any reachable state tracks nothing after 16 empty batches in a row. */
  lemma ExpiredAfterSixteen(t: Tracker, n: nat)
    requires Inv(t) && n > ExpiryLimit
    ensures Replay(t, EmptyBatches(n)).tracked == []
  {
    EmptyRun(t, n);
  }

  /** An empty batch announces nothing, adds one to the counter and, while
      the counter stays within the limit, keeps the tracked list. */
  lemma EmptyBatchStep(t: Tracker)
    ensures Announced(t, []) == {}
    ensures Reconcile(t, []).emptyFrames == t.emptyFrames + 1
    ensures t.emptyFrames + 1 <= ExpiryLimit ==> Reconcile(t, []).tracked == t.tracked
  {
  }

  /** Announcement is exact: a payload is announced iff it occurs in the
      batch and not in the tracked list. A batch whose payloads are all
      tracked announces nothing. */
  lemma AnnouncedExactly(t: Tracker, batch: seq<Symbol>, p: Payload)
    ensures p in Announced(t, batch) <==> p in Payloads(batch) && p !in Payloads(t.tracked)
    ensures Payloads(batch) <= Payloads(t.tracked) ==> Announced(t, batch) == {}
  {
  }

  /** Within the debounce window a re-sighting is not announced again: after
      batch `b` and at most 15 empty batches, a batch `b2` announces only
      the payloads that `b` did not carry (nothing at all when `b2 == b`). */
  lemma NoRepeatWithinWindow(t: Tracker, b: seq<Symbol>, n: nat, b2: seq<Symbol>)
    requires b != [] && n <= ExpiryLimit
    ensures Announced(Replay(Reconcile(t, b), EmptyBatches(n)), b2) == Payloads(b2) - Payloads(b)
    ensures Announced(Replay(Reconcile(t, b), EmptyBatches(n)), b) == {}
  {
    SightingThenSilence(t, b, n);
  }

  /** After 16 empty batches a payload seen again is announced again. */
  lemma ReannouncedAfterExpiry(t: Tracker, n: nat, batch: seq<Symbol>)
    requires Inv(t) && n > ExpiryLimit
    ensures Announced(Replay(t, EmptyBatches(n)), batch) == Payloads(batch)
  {
    ExpiredAfterSixteen(t, n);
  }
}
