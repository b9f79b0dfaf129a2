/** The scanner object (`QRScanner` in sideqr/qr_scanner.py): the state the
    reconciler updates and the overlay reads. */
module Scanner {
  import opened Wrappers
  import opened Media
  import opened Reconciler
  import opened Overlay

  /** True when no payload occurs twice. */
  predicate Distinct(s: seq<Payload>)
  {
    forall i, j :: 0 <= i < j < |s| ==> s[i] != s[j]
  }

  /** The payloads listed in a sequence. */
  function Elements(s: seq<Payload>): set<Payload>
  {
    set p | p in s
  }

  lemma ElementsSnoc(s: seq<Payload>, d: Payload)
    ensures Elements(s + [d]) == Elements(s) + {d}
  {
    assert forall p :: p in s + [d] <==> p in s || p == d;
  }

  /** The `for data in new_data` loop: announce every new payload exactly
      once, in whatever order the set yields them. */
  method Announce(newData: set<Payload>) returns (emitted: seq<Payload>)
    ensures Elements(emitted) == newData
    ensures Distinct(emitted)
  {
    emitted := [];
    var rest := newData;
    while rest != {}
      invariant Elements(emitted) + rest == newData
      invariant forall i :: 0 <= i < |emitted| ==> emitted[i] !in rest
      invariant Distinct(emitted)
      decreases |rest|
    {
      var data :| data in rest;
      ElementsSnoc(emitted, data);
      emitted := emitted + [data];
      rest := rest - {data};
    }
  }

  class QRScanner {
    var highlight: bool
    var tracked: seq<Symbol>
    var emptyFrames: int

    /** The reconciler state held in the fields. */
    function State(): Tracker
      reads this
    {
      Tracker(tracked, emptyFrames)
    }

    ghost predicate Valid()
      reads this
    {
      Inv(State())
    }

    /** A new scanner highlights, tracks nothing and has counted no empty
        batches. */
    constructor ()
      ensures Valid() && highlight && State() == Initial
    {
      highlight := true;
      tracked := [];
      emptyFrames := 0;
    }

    /** The `highlightDetected` setter. */
    method SetHighlight(value: bool)
      modifies this`highlight
      ensures highlight == value
    {
      highlight := value;
    }

    /** `_handle_results`: reconcile one decode batch. The returned payloads
        are the `barcodeDetected` notifications, each announced once, in an
        unspecified order. */
    method HandleResults(batch: seq<Symbol>) returns (emitted: seq<Payload>)
      requires Valid()
      modifies this`tracked, this`emptyFrames
      ensures Valid()
      ensures State() == Reconcile(old(State()), batch)
      ensures Elements(emitted) == Announced(old(State()), batch)
      ensures Distinct(emitted)
    {
      if batch != [] {
        emitted := Announce(Payloads(batch) - Payloads(tracked));
        tracked := batch;
        emptyFrames := 0;
      } else {
        emitted := [];
        emptyFrames := emptyFrames + 1;
        if emptyFrames > ExpiryLimit {
          tracked := [];
        }
      }
    }

    /** The highlight part of `_handle_frame`: nothing when highlighting is
        off or nothing is tracked; otherwise one outline per tracked symbol,
        blended with the fade alpha of the counter. In every reachable state
        the counter is within the fade when this draws, so the clamp never
        cuts in. */
    method HighlightPlan() returns (plan: Option<Plan>)
      requires Valid()
      ensures plan.Some? <==> Drawn(highlight, tracked)
      ensures plan.Some? ==> Outlines(plan.value.strokes, tracked, Alpha(emptyFrames))
      ensures plan.Some? ==> plan.value.blend == Alpha(emptyFrames)
      ensures plan.Some? ==> 0 <= emptyFrames <= FadeFrames && plan.value.blend == Opaque - 17 * emptyFrames
    {
      if highlight && tracked != [] {
        var strokes: seq<Stroke> := [];
        var alpha := 0;
        for i := 0 to |tracked|
          invariant |strokes| == i
          invariant forall k :: 0 <= k < i ==> strokes[k] == Outline(tracked[k].rect, Alpha(emptyFrames))
          invariant i > 0 ==> alpha == Alpha(emptyFrames)
        {
          alpha := Alpha(emptyFrames);
          strokes := strokes + [Outline(tracked[i].rect, alpha)];
        }
        plan := Some(Plan(strokes, alpha));
      } else {
        plan := None;
      }
    }
  }

  /** Fade schedule seen from the overlay: after a sighting and `n` empty
      batches, the overlay is drawn (when highlighting) with alpha
      255 - 17 * n for n up to 15, and not at all from the 16th on. */
  lemma FadeSchedule(t: Tracker, batch: seq<Symbol>, n: nat, highlight: bool)
    requires batch != []
    ensures var s := Replay(Reconcile(t, batch), EmptyBatches(n));
      (n <= ExpiryLimit ==> Drawn(highlight, s.tracked) == highlight && Alpha(s.emptyFrames) == Opaque - 17 * n) &&
      (n > ExpiryLimit ==> !Drawn(highlight, s.tracked))
  {
    SightingThenSilence(t, batch, n);
  }

  /** In every state reached from a new scanner, whenever the overlay is
      drawn its alpha is the unclamped 255 - 17 * counter. */
  lemma DrawnAlphaUnclamped(batches: seq<seq<Symbol>>, highlight: bool)
    ensures var s := Replay(Initial, batches);
      Drawn(highlight, s.tracked) ==>
        s.emptyFrames == TrailingEmpty(batches) <= FadeFrames &&
        Alpha(s.emptyFrames) == Opaque - 17 * s.emptyFrames
  {
    ReachableInv(Initial, batches);
    ReplayMeaning(batches);
  }
}
