/**
 A membership set as a value: a packed array and the two overlay sets, and the plain set of
 fingerprints it stands for.
 */
module Overlay {
  import opened Packed

  /** What one stream event does to one fingerprint, or a swap to a newly published array. */
  datatype Op = Add(fp: Fp) | Remove(fp: Fp) | SwapIn(packed: seq<Fp>)

  datatype Overlaid = Overlaid(packed: seq<Fp>, added: set<Fp>, tombstones: set<Fp>) {

    /** A freshly built or attached set. */
    static function Fresh(packed: seq<Fp>): Overlaid {
      Overlaid(packed, {}, {})
    }

    /** Membership as the read path answers it: overlay first. */
    predicate Has(fp: Fp) {
      fp !in tombstones && (fp in added || fp in packed)
    }

    /** The plain set this stands for. */
    ghost function Members(): set<Fp> {
      (set fp | fp in packed) - tombstones + added
    }

    ghost predicate Disjoint() {
      added !! tombstones
    }

    function WithAdded(fp: Fp): Overlaid {
      this.(tombstones := tombstones - {fp}, added := added + {fp})
    }

    function WithRemoved(fp: Fp): Overlaid {
      this.(added := added - {fp}, tombstones := tombstones + {fp})
    }

    /** adopt_overlay, in the source's order of updates. */
    function Adopting(other: Overlaid): Overlaid {
      this.(added := added + other.added - other.tombstones, tombstones := tombstones + other.tombstones)
    }

    function After(op: Op): Overlaid {
      match op
      case Add(fp) => WithAdded(fp)
      case Remove(fp) => WithRemoved(fp)
      case SwapIn(p) => Fresh(p).Adopting(this)
    }
  }

  /**
   While the overlay sets are disjoint the read path is membership in a plain set, and add and remove
   are set operations.
   */
  lemma OverlayIsASet(s: Overlaid, fp: Fp)
    requires s.Disjoint()
    ensures forall x :: s.Has(x) <==> x in s.Members()
    ensures s.WithAdded(fp).Disjoint() && s.WithAdded(fp).Members() == s.Members() + {fp}
    ensures s.WithRemoved(fp).Disjoint() && s.WithRemoved(fp).Members() == s.Members() - {fp}
  {
  }

  /**
   Adopting keeps the overlay sets disjoint, and lets the adopted overlay win over this one, exactly
   when this set has no tombstone for something the other added. A fresh set always qualifies.
   */
  lemma AdoptingIff(s: Overlaid, other: Overlaid)
    requires s.Disjoint() && other.Disjoint()
    ensures s.Adopting(other).Disjoint() <==> s.tombstones !! other.added
    ensures (forall x :: s.Adopting(other).Has(x) <==>
               if x in other.added then true else if x in other.tombstones then false else s.Has(x))
            <==> s.tombstones !! other.added
  {
    var r := s.Adopting(other);
    if x :| x in s.tombstones && x in other.added {
      assert !r.Has(x) && x in r.added && x in r.tombstones;
    }
  }

  /** Two sets that disagree: the later add is lost. */
  lemma AdoptingCanLoseAnAdd()
    ensures var s, other := Overlaid([], {}, {5}), Overlaid([], {5}, {});
            other.Has(5) && !s.Adopting(other).Has(5) && !s.Adopting(other).Disjoint()
  {
  }

  // ---------------------------------------------------------------------- runs

  function Run(s: Overlaid, ops: seq<Op>): Overlaid {
    if ops == [] then s else Run(s, ops[..|ops| - 1]).After(ops[|ops| - 1])
  }

  lemma {:induction false} RunOneMore(s: Overlaid, ops: seq<Op>, op: Op)
    ensures Run(s, ops + [op]) == Run(s, ops).After(op)
  {
    assert (ops + [op])[..|ops|] == ops;
  }

  predicate Touches(op: Op, fp: Fp) {
    (op.Add? || op.Remove?) && op.fp == fp
  }

  /** The last event about fp, or nothing. */
  function LastEvent(ops: seq<Op>, fp: Fp): (r: seq<Op>)
    ensures |r| <= 1 && (r != [] ==> Touches(r[0], fp) && r[0] in ops)
    ensures r == [] <==> forall i :: 0 <= i < |ops| ==> !Touches(ops[i], fp)
  {
    if ops == [] then []
    else if Touches(ops[|ops| - 1], fp) then [ops[|ops| - 1]]
    else LastEvent(ops[..|ops| - 1], fp)
  }

  /** The array of the generation now serving. */
  function CurrentPacked(packed: seq<Fp>, ops: seq<Op>): seq<Fp> {
    if ops == [] then packed
    else if ops[|ops| - 1].SwapIn? then ops[|ops| - 1].packed
    else CurrentPacked(packed, ops[..|ops| - 1])
  }

  /**
   Over any run of stream events and generation swaps from a fresh set, membership is the last event
   for every fingerprint touched, and the current generation's array for every other one. No event
   is lost at a swap, and the overlay sets stay disjoint.
   */
  lemma {:induction false} RunMembership(packed: seq<Fp>, ops: seq<Op>, fp: Fp)
    ensures var s := Run(Overlaid.Fresh(packed), ops);
            && s.Disjoint() && s.packed == CurrentPacked(packed, ops)
            && (fp in s.added <==> LastEvent(ops, fp) == [Add(fp)])
            && (fp in s.tombstones <==> LastEvent(ops, fp) == [Remove(fp)])
            && (s.Has(fp) <==> if LastEvent(ops, fp) == [] then fp in CurrentPacked(packed, ops)
                               else LastEvent(ops, fp)[0].Add?)
  {
    if ops != [] {
      var last := |ops| - 1;
      RunMembership(packed, ops[..last], fp);
      assert LastEvent(ops[..last], fp) == [] || LastEvent(ops[..last], fp)[0] == Add(fp)
             || LastEvent(ops[..last], fp)[0] == Remove(fp);
    }
  }

  /** A rebuild does not empty the overlay: it only grows, by the fingerprints of new events. */
  lemma {:induction false} OverlayNeverShrinks(packed: seq<Fp>, ops: seq<Op>, more: seq<Op>)
    ensures var s, s' := Run(Overlaid.Fresh(packed), ops), Run(Overlaid.Fresh(packed), ops + more);
            s.added + s.tombstones <= s'.added + s'.tombstones
  {
    if more == [] {
      assert ops + more == ops;
    } else {
      var last := |more| - 1;
      OverlayNeverShrinks(packed, ops, more[..last]);
      assert (ops + more)[..|ops + more| - 1] == ops + more[..last];
    }
  }

  /**
   The overlay sets together count the distinct fingerprints touched since the process started, so
   overlay_full answers whether that many distinct fingerprints have been touched, across any swaps.
   */
  lemma {:induction false} OverlayCountsTouched(packed: seq<Fp>, ops: seq<Op>)
    ensures var s := Run(Overlaid.Fresh(packed), ops);
            && |s.added| + |s.tombstones| == |Touched(ops)|
  {
    var s := Run(Overlaid.Fresh(packed), ops);
    forall fp ensures fp in s.added + s.tombstones <==> fp in Touched(ops) {
      RunMembership(packed, ops, fp);
      TouchedMeans(ops, fp);
      if LastEvent(ops, fp) != [] {
        assert Touches(LastEvent(ops, fp)[0], fp);
      }
    }
    RunMembership(packed, ops, 0);
    assert s.added + s.tombstones == Touched(ops);
  }

  function Touched(ops: seq<Op>): set<Fp> {
    if ops == [] then {}
    else Touched(ops[..|ops| - 1]) + (if ops[|ops| - 1].SwapIn? then {} else {ops[|ops| - 1].fp})
  }

  lemma {:induction false} TouchedMeans(ops: seq<Op>, fp: Fp)
    ensures fp in Touched(ops) <==> exists i :: 0 <= i < |ops| && Touches(ops[i], fp)
  {
    if ops != [] {
      var last := |ops| - 1;
      TouchedMeans(ops[..last], fp);
      assert forall i :: 0 <= i < last ==> ops[..last][i] == ops[i];
    }
  }

  function Size(s: Overlaid): nat {
    |s.added| + |s.tombstones|
  }

  lemma OneElement(s: set<Fp>, x: Fp)
    ensures |s + {x}| == |s| + (if x in s then 0 else 1) && |s - {x}| == |s| - (if x in s then 1 else 0)
  {
    if x in s {
      assert s + {x} == s && |(s - {x}) + {x}| == |s - {x}| + 1 && (s - {x}) + {x} == s;
    } else {
      assert s - {x} == s;
    }
  }

  /** Moving an element over, or adding it, loses nothing. */
  lemma MovedSize(a: set<Fp>, b: set<Fp>, x: Fp)
    requires a !! b
    ensures (a + {x}) !! (b - {x}) && |a| + |b| <= |a + {x}| + |b - {x}|
  {
    OneElement(a, x);
    OneElement(b, x);
  }

  lemma StepKeepsSize(s: Overlaid, op: Op)
    requires s.Disjoint()
    ensures s.After(op).Disjoint() && Size(s) <= Size(s.After(op))
  {
    match op
    case Add(fp) => MovedSize(s.added, s.tombstones, fp);
    case Remove(fp) => MovedSize(s.tombstones, s.added, fp);
    case SwapIn(p) => AdoptedWhole(p, s);
  }

  lemma AdoptedWhole(packed: seq<Fp>, s: Overlaid)
    requires s.Disjoint()
    ensures Overlaid.Fresh(packed).Adopting(s) == s.(packed := packed)
  {
    assert {} + s.added - s.tombstones == s.added && {} + s.tombstones == s.tombstones;
  }

  /** The overlay never becomes smaller, so once it is full it stays full through every later event and swap. */
  lemma {:induction false} OverlayStaysFull(s: Overlaid, ops: seq<Op>, overlayMax: int)
    requires s.Disjoint()
    ensures Run(s, ops).Disjoint() && Size(s) <= Size(Run(s, ops))
    ensures Size(s) >= overlayMax ==> Size(Run(s, ops)) >= overlayMax
  {
    if ops != [] {
      OverlayStaysFull(s, ops[..|ops| - 1], overlayMax);
      StepKeepsSize(Run(s, ops[..|ops| - 1]), ops[|ops| - 1]);
    }
  }

  /**
   A full reload repairs the set exactly when the last event about every touched fingerprint agrees with
   the new array: the overlay it carries over wins for all of them, however old.
   */
  lemma {:induction false} RebuildRepairsIff(packed: seq<Fp>, ops: seq<Op>, current: seq<Fp>)
    ensures (forall fp :: Run(Overlaid.Fresh(packed), ops + [SwapIn(current)]).Has(fp) <==> fp in current)
            <==> forall fp :: AgreesWithLast(ops, current, fp)
  {
    var all := ops + [SwapIn(current)];
    var s := Run(Overlaid.Fresh(packed), all);
    forall fp ensures (s.Has(fp) <==> fp in current) <==> AgreesWithLast(ops, current, fp) {
      RunMembership(packed, all, fp);
      assert all[..|all| - 1] == ops;
    }
  }

  predicate AgreesWithLast(ops: seq<Op>, current: seq<Fp>, fp: Fp) {
    LastEvent(ops, fp) != [] ==> (LastEvent(ops, fp)[0].Add? <==> fp in current)
  }

  /** Divergence no reload repairs: a removal that was wrong, or that upstream took back unseen. */
  lemma {:induction false} StaleRemovalSurvivesReload(fp: Fp)
    ensures !Run(Overlaid.Fresh([fp]), [Remove(fp)] + [SwapIn([fp])]).Has(fp)
  {
    var ops := [Remove(fp)];
    assert ops[..0] == [];
    assert LastEvent(ops, fp) == [Remove(fp)];
    RunMembership([fp], ops + [SwapIn([fp])], fp);
    assert (ops + [SwapIn([fp])])[..1] == ops;
  }
}
