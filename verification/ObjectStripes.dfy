/**
 Dealing the objects of one write out to its stripes. The running length is kept from stripe to stripe and
 compared with the length of one stripe, so only the first stripe is given objects.
 */
module ObjectStripes {
  import opened Listing

  /** The length of the first n objects. */
  function LengthTo(lens: seq<nat>, n: nat): nat
    requires n <= |lens|
  {
    if n == 0 then 0 else LengthTo(lens, n - 1) + lens[n - 1]
  }

  lemma {:induction false} LengthGrows(lens: seq<nat>, a: nat, b: nat)
    requires a <= b <= |lens|
    ensures LengthTo(lens, a) <= LengthTo(lens, b)
  {
    if a < b {
      LengthGrows(lens, a, b - 1);
    }
  }

  /** A write of whole stripes. */
  ghost predicate WriteOk(lens: seq<nat>, stripeLen: nat) {
    stripeLen > 0 && LengthTo(lens, |lens|) % stripeLen == 0 && LengthTo(lens, |lens|) >= stripeLen
  }

  /** The fewest first objects that fill a stripe. */
  ghost predicate FillsFirst(lens: seq<nat>, stripeLen: nat, t: nat) {
    1 <= t <= |lens| && LengthTo(lens, t) >= stripeLen && LengthTo(lens, t - 1) < stripeLen
  }

  /** The objects of each stripe of a write. */
  method AssignObjects(lens: seq<nat>, stripeLen: nat) returns (members: seq<seq<nat>>, ghost t: nat)
    requires WriteOk(lens, stripeLen)
    ensures |members| == LengthTo(lens, |lens|) / stripeLen && |members| >= 1
    ensures FillsFirst(lens, stripeLen, t) && members[0] == UpTo(t)
    ensures forall i :: 1 <= i < |members| ==> members[i] == []
  {
    var numOfStripes := LengthTo(lens, |lens|) / stripeLen;
    var cumulativeLen, objIdx: nat := 0, 0;
    members, t := [], 0;
    for i := 0 to numOfStripes
      invariant |members| == i && objIdx <= |lens| && cumulativeLen == LengthTo(lens, objIdx)
      invariant if i == 0 then objIdx == 0 else cumulativeLen >= stripeLen && FillsFirst(lens, stripeLen, t) && members[0] == UpTo(t)
      invariant forall j :: 1 <= j < i ==> members[j] == []
    {
      var objects: seq<nat> := [];
      ghost var start, full := objIdx, cumulativeLen >= stripeLen;
      while cumulativeLen < stripeLen
        invariant start <= objIdx <= |lens| && (full ==> objIdx == start) && cumulativeLen == LengthTo(lens, objIdx)
        invariant |objects| == objIdx - start && forall a :: 0 <= a < |objects| ==> objects[a] == start + a
        invariant objIdx == start || LengthTo(lens, objIdx - 1) < stripeLen
        decreases |lens| - objIdx
      {
        objects := objects + [objIdx];
        cumulativeLen := cumulativeLen + lens[objIdx];
        objIdx := objIdx + 1;
      }
      if i == 0 {
        t := objIdx;
        assert objects == UpTo(t);
      }
      members := members + [objects];
    }
  }

  /** Every object has a stripe exactly when all objects but the last are shorter than one stripe together. */
  lemma AllAssignedWhen(lens: seq<nat>, stripeLen: nat, t: nat)
    requires WriteOk(lens, stripeLen) && FillsFirst(lens, stripeLen, t)
    ensures (forall e :: 0 <= e < |lens| ==> e in UpTo(t)) <==> LengthTo(lens, |lens| - 1) < stripeLen
  {
    var n := |lens|;
    if t < n {
      LengthGrows(lens, t, n - 1);
      assert n - 1 !in UpTo(t);
    }
    forall e: nat | e < t
      ensures e in UpTo(t)
    {
      InUpTo(t, e);
    }
  }
}
