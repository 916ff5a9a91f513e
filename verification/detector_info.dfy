/**
 * Attribution of detector-hit values to particles.  A reverse map lists,
 * for each particle index, the hit indices (`Short_t`) that reference it,
 * in stored order; value and detector-id columns are indexed by hit.
 */
module DetectorInfo {
  import opened CppTypes

  /** The reverse map: particle index to the hits referencing it. */
  type ReverseMap = seq<seq<Short>>

  /**
   * What an unchecked read in the code as written produces: a value, or
   * an element access past the end of a vector (undefined behaviour).
   */
  datatype Read<T> = Value(value: T) | OutOfRange

  /** Every hit in `entries` is a valid position of the detector and value columns. */
  predicate HitsInRange<T>(entries: seq<Short>, detector: seq<Int32>, vals: seq<T>) {
    forall j :: 0 <= j < |entries| ==> 0 <= entries[j] < |detector| && entries[j] < |vals|
  }

  /** The particle at `index` exists in the reverse map. */
  predicate IsParticle(index: Int32, indices: ReverseMap) {
    0 <= index < |indices|
  }

  // ---------------------------------------------------------------------
  // The functions as written: the guard is `index > indices.size()`.
  // ---------------------------------------------------------------------

  /** `ParticleDetInfo` exactly as written, every vector access checked. */
  function ParticleDetInfoAsWritten<T>(index: Int32, indices: ReverseMap, vals: seq<T>, zero: T): (r: Read<T>)
    ensures IsRVec(indices) && index < 0 ==> r == Value(zero)
    ensures index == |indices| ==> r == OutOfRange
    ensures IsParticle(index, indices) && |indices[index]| > 0 && 0 <= indices[index][0] < |vals|
            ==> r == Value(vals[indices[index][0]])
    ensures IsRVec(indices) && r == OutOfRange ==>
      index == |indices| || (IsParticle(index, indices) && indices[index] != [])
  {
    var u := SizeT(index);
    if u > |indices| then Value(zero)
    else if u == |indices| then OutOfRange
    else if |indices[u]| == 0 then Value(zero)
    else
      var p := indices[u][0];
      if 0 <= p < |vals| then Value(vals[p]) else OutOfRange
  }

  /** The loop of `ParticleSubDetInfo` as written, every vector access checked. */
  function ScanAsWritten<T>(entries: seq<Short>, vals: seq<T>, detector: seq<Int32>, detid: Int32, zero: T): (r: Read<T>)
    ensures HitsInRange(entries, detector, vals) ==> r.Value?
    ensures r.Value? && r.value != zero ==>
      exists k :: 0 <= k < |entries| && 0 <= entries[k] < |vals| && r.value == vals[entries[k]]
    decreases |entries|
  {
    if |entries| == 0 then Value(zero)
    else
      var p := entries[0];
      if !(0 <= p < |detector|) then OutOfRange
      else if detector[p] != detid then ScanAsWritten(entries[1..], vals, detector, detid, zero)
      else if p < |vals| then Value(vals[p])
      else OutOfRange
  }

  /** `ParticleSubDetInfo` exactly as written, every vector access checked. */
  function ParticleSubDetInfoAsWritten<T>(index: Int32, indices: ReverseMap, vals: seq<T>,
                                          detector: seq<Int32>, detid: Int32, zero: T): (r: Read<T>)
    ensures IsRVec(indices) && index < 0 ==> r == Value(zero)
    ensures index == |indices| ==> r == OutOfRange
    ensures IsParticle(index, indices) && HitsInRange(indices[index], detector, vals) ==> r.Value?
    ensures IsRVec(indices) && r.Value? && r.value != zero ==> IsParticle(index, indices)
  {
    var u := SizeT(index);
    if u > |indices| then Value(zero)
    else if u == |indices| then OutOfRange
    else if |indices[u]| == 0 then Value(zero)
    else ScanAsWritten(indices[u], vals, detector, detid, zero)
  }

  /**
   * The guard lets `index == indices.size()` through: both functions then
   * read one past the end of the reverse map.  The smallest witness is a
   * particle index 0 against an empty reverse map.
   */
  lemma GuardAdmitsEnd<T>(indices: ReverseMap, vals: seq<T>, detector: seq<Int32>, detid: Int32, zero: T)
    requires IsRVec(indices)
    ensures ParticleDetInfoAsWritten(|indices|, indices, vals, zero) == OutOfRange
    ensures ParticleSubDetInfoAsWritten(|indices|, indices, vals, detector, detid, zero) == OutOfRange
    ensures ParticleDetInfoAsWritten<T>(0, [], vals, zero) == OutOfRange
  {
  }

  // ---------------------------------------------------------------------
  // The corrected functions: the guard is `index >= indices.size()`.
  // ---------------------------------------------------------------------

  /**
   * The value of the first hit referencing particle `index`, or `zero`
   * when the index is not a particle of the map (a negative sentinel
   * included) or no hit references it.
   */
  function ParticleDetInfo<T>(index: Int32, indices: ReverseMap, vals: seq<T>, zero: T): (r: T)
    requires IsRVec(indices)
    requires IsParticle(index, indices) && |indices[index]| > 0 ==> 0 <= indices[index][0] < |vals|
    ensures !IsParticle(index, indices) ==> r == zero
    ensures IsParticle(index, indices) && indices[index] == [] ==> r == zero
    ensures IsParticle(index, indices) && indices[index] != [] ==> r == vals[indices[index][0]]
  {
    var u := SizeT(index);
    if u >= |indices| then zero
    else if |indices[u]| == 0 then zero
    else vals[indices[u][0]]
  }

  /** The first hit of `entries`, at position `k`, whose detector is `detid`. */
  predicate FirstMatchAt(entries: seq<Short>, detector: seq<Int32>, detid: Int32, k: int)
    requires forall j :: 0 <= j < |entries| ==> 0 <= entries[j] < |detector|
  {
    && 0 <= k < |entries|
    && detector[entries[k]] == detid
    && forall j :: 0 <= j < k ==> detector[entries[j]] != detid
  }

  /** None of the hits in `entries` lies in detector `detid`. */
  predicate NoHitIn(entries: seq<Short>, detector: seq<Int32>, detid: Int32)
    requires forall j :: 0 <= j < |entries| ==> 0 <= entries[j] < |detector|
  {
    forall j :: 0 <= j < |entries| ==> detector[entries[j]] != detid
  }

  /** `v` is the value of some hit in `entries` that lies in detector `detid`. */
  ghost predicate IsHitValue<T>(entries: seq<Short>, vals: seq<T>, detector: seq<Int32>, detid: Int32, v: T)
    requires HitsInRange(entries, detector, vals)
  {
    exists k :: 0 <= k < |entries| && detector[entries[k]] == detid && v == vals[entries[k]]
  }

  /** Position of the first hit in `entries` whose detector is `detid`; `|entries|` when none is. */
  function FirstMatch(entries: seq<Short>, detector: seq<Int32>, detid: Int32): (k: nat)
    requires forall j :: 0 <= j < |entries| ==> 0 <= entries[j] < |detector|
    ensures k <= |entries|
    ensures k < |entries| ==> FirstMatchAt(entries, detector, detid, k)
    ensures k == |entries| ==> NoHitIn(entries, detector, detid)
    decreases |entries|
  {
    if |entries| == 0 then 0
    else if detector[entries[0]] == detid then 0
    else 1 + FirstMatch(entries[1..], detector, detid)
  }

  /**
   * The value of the first hit referencing particle `index` whose detector
   * is `detid`, in stored order; `zero` when the index is not a particle of
   * the map or none of its hits is in that detector.
   */
  function ParticleSubDetInfo<T>(index: Int32, indices: ReverseMap, vals: seq<T>,
                                 detector: seq<Int32>, detid: Int32, zero: T): (r: T)
    requires IsRVec(indices)
    requires IsParticle(index, indices) ==> HitsInRange(indices[index], detector, vals)
    ensures !IsParticle(index, indices) ==> r == zero
    ensures IsParticle(index, indices) ==>
      forall k :: FirstMatchAt(indices[index], detector, detid, k) ==> r == vals[indices[index][k]]
    ensures IsParticle(index, indices) && NoHitIn(indices[index], detector, detid) ==> r == zero
    ensures r != zero ==> IsParticle(index, indices) && IsHitValue(indices[index], vals, detector, detid, r)
  {
    var u := SizeT(index);
    if u >= |indices| then zero
    else if |indices[u]| == 0 then zero
    else
      var k := FirstMatch(indices[u], detector, detid);
      if k < |indices[u]| then vals[indices[u][k]] else zero
  }

  // ---------------------------------------------------------------------
  // Properties.
  // ---------------------------------------------------------------------

  /** The first match is unique, so the position `FirstMatch` reports is the only one `FirstMatchAt` holds of. */
  lemma FirstMatchUnique(entries: seq<Short>, detector: seq<Int32>, detid: Int32, k: int)
    requires forall j :: 0 <= j < |entries| ==> 0 <= entries[j] < |detector|
    ensures FirstMatchAt(entries, detector, detid, k) <==> k == FirstMatch(entries, detector, detid) < |entries|
  {
  }

  /** Hits after the first match do not influence the search. */
  lemma {:induction false} FirstMatchIgnoresLater(entries: seq<Short>, tail: seq<Short>, detector: seq<Int32>, detid: Int32)
    requires forall j :: 0 <= j < |entries| ==> 0 <= entries[j] < |detector|
    requires forall j :: 0 <= j < |tail| ==> 0 <= tail[j] < |detector|
    requires FirstMatch(entries, detector, detid) < |entries|
    ensures FirstMatch(entries + tail, detector, detid) == FirstMatch(entries, detector, detid)
    decreases |entries|
  {
    var all := entries + tail;
    assert all[0] == entries[0];
    if detector[entries[0]] != detid {
      assert all[1..] == entries[1..] + tail;
      FirstMatchIgnoresLater(entries[1..], tail, detector, detid);
    }
  }

  /**
   * First match wins: appending further hits to a particle that already
   * has a hit in the requested detector does not change its value.
   */
  lemma LaterHitsIgnored<T>(index: Int32, indices: ReverseMap, tail: seq<Short>, vals: seq<T>,
                            detector: seq<Int32>, detid: Int32, zero: T)
    requires IsRVec(indices) && IsParticle(index, indices)
    requires HitsInRange(indices[index], detector, vals) && HitsInRange(tail, detector, vals)
    requires exists j :: 0 <= j < |indices[index]| && detector[indices[index][j]] == detid
    ensures ParticleSubDetInfo(index, indices[index := indices[index] + tail], vals, detector, detid, zero)
         == ParticleSubDetInfo(index, indices, vals, detector, detid, zero)
  {
    var e := indices[index];
    var longer := indices[index := e + tail];
    FirstMatchIgnoresLater(e, tail, detector, detid);
    var k := FirstMatch(e, detector, detid);
    assert (e + tail)[k] == e[k];
  }

  /** When the first hit lies in the requested detector, both attributions agree. */
  lemma SubDetAgreesWithFirstHit<T>(index: Int32, indices: ReverseMap, vals: seq<T>,
                                    detector: seq<Int32>, detid: Int32, zero: T)
    requires IsRVec(indices) && IsParticle(index, indices)
    requires HitsInRange(indices[index], detector, vals)
    requires |indices[index]| > 0 && detector[indices[index][0]] == detid
    ensures ParticleSubDetInfo(index, indices, vals, detector, detid, zero)
         == ParticleDetInfo(index, indices, vals, zero)
  {
    assert FirstMatchAt(indices[index], detector, detid, 0);
  }

  /** The "no particle" sentinel (any negative index) attributes nothing. */
  lemma SentinelIndexGivesZero<T>(index: Int32, indices: ReverseMap, vals: seq<T>,
                                  detector: seq<Int32>, detid: Int32, zero: T)
    requires IsRVec(indices) && index < 0
    ensures ParticleDetInfoAsWritten(index, indices, vals, zero) == Value(zero)
    ensures ParticleSubDetInfoAsWritten(index, indices, vals, detector, detid, zero) == Value(zero)
  {
  }

  /** On in-range hits the loop as written computes the corrected first-match value. */
  lemma {:induction false} ScanAsWrittenIsFirstMatch<T>(entries: seq<Short>, vals: seq<T>,
                                                        detector: seq<Int32>, detid: Int32, zero: T)
    requires HitsInRange(entries, detector, vals)
    ensures var k := FirstMatch(entries, detector, detid);
      ScanAsWritten(entries, vals, detector, detid, zero)
        == Value(if k < |entries| then vals[entries[k]] else zero)
    decreases |entries|
  {
    if |entries| > 0 && detector[entries[0]] != detid {
      var rest := entries[1..];
      assert HitsInRange(rest, detector, vals);
      ScanAsWrittenIsFirstMatch(rest, vals, detector, detid, zero);
      var k := FirstMatch(rest, detector, detid);
      if k < |rest| {
        assert rest[k] == entries[k + 1];
      }
    }
  }

  /**
   * The loop as written stops at the first match: only the hits up to it
   * are read, so hits after it may lie outside the columns.
   */
  lemma {:induction false} ScanAsWrittenStopsAtFirstMatch<T>(entries: seq<Short>, vals: seq<T>,
                                                             detector: seq<Int32>, detid: Int32, zero: T, k: nat)
    requires k < |entries| && HitsInRange(entries[..k + 1], detector, vals)
    requires detector[entries[k]] == detid
    requires forall j :: 0 <= j < k ==> detector[entries[j]] != detid
    ensures ScanAsWritten(entries, vals, detector, detid, zero) == Value(vals[entries[k]])
    decreases k
  {
    assert entries[..k + 1][0] == entries[0];
    if k > 0 {
      var rest := entries[1..];
      assert rest[..k] == entries[..k + 1][1..];
      forall j | 0 <= j < k - 1 ensures detector[rest[j]] != detid {
        assert rest[j] == entries[j + 1];
      }
      ScanAsWrittenStopsAtFirstMatch(rest, vals, detector, detid, zero, k - 1);
    }
  }

  /** A hit past the first match that indexes nothing is never read. */
  lemma HitAfterMatchNotReadExample()
    ensures ParticleSubDetInfoAsWritten<int>(0, [[0, 99]], [10], [5], 5, 0) == Value(10)
    ensures !HitsInRange<int>([0, 99], [5], [10])
  {
    var entries: seq<Short> := [0, 99];
    ScanAsWrittenStopsAtFirstMatch<int>(entries, [10], [5], 5, 0, 0);
    assert !(0 <= entries[1] < |[5]|);
  }

  /**
   * The corrected functions agree with the code as written on every index
   * but `indices.size()`, the one input where the code as written reads
   * past the end of the reverse map.
   */
  lemma AsWrittenAgreesOffTheEnd<T>(index: Int32, indices: ReverseMap, vals: seq<T>,
                                    detector: seq<Int32>, detid: Int32, zero: T)
    requires IsRVec(indices)
    requires IsParticle(index, indices) ==> HitsInRange(indices[index], detector, vals)
    ensures index != |indices| ==>
      ParticleDetInfoAsWritten(index, indices, vals, zero) == Value(ParticleDetInfo(index, indices, vals, zero))
    ensures index != |indices| ==>
      ParticleSubDetInfoAsWritten(index, indices, vals, detector, detid, zero)
        == Value(ParticleSubDetInfo(index, indices, vals, detector, detid, zero))
    ensures index == |indices| <==> ParticleDetInfoAsWritten(index, indices, vals, zero) == OutOfRange
    ensures index == |indices| <==> ParticleSubDetInfoAsWritten(index, indices, vals, detector, detid, zero) == OutOfRange
  {
    if IsParticle(index, indices) && |indices[index]| > 0 {
      ScanAsWrittenIsFirstMatch(indices[index], vals, detector, detid, zero);
    }
  }

  /** The first-match policy on a worked example: the first of two matching hits is kept. */
  lemma FirstHitWinsExample()
    ensures ParticleSubDetInfo(0, [[0, 2]], [10, 20, 30], [5, 7, 5], 5, 0) == 10
  {
    assert FirstMatchAt([0, 2], [5, 7, 5], 5, 0);
  }
}
