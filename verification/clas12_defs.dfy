/**
 * CLAS12 detector, region and layer identifiers, and the table that
 * names detectors for column construction.
 */
module Clas12Defs {
  import opened CppTypes

  /** The PDG code used for "no particle type". */
  const UndefPDG: Short := 10000

  // Regions
  const FT: Short := 1000
  const FD: Short := 2000
  const CD: Short := 3000
  const BD: Short := 4000

  // Detectors
  const FTOF: Short := 12
  const CTOF: Short := 4
  const CND: Short := 3
  const CVT: Short := 5
  const DC: Short := 6
  const EC: Short := 7
  const ECAL: Short := 7
  const FTCAL: Short := 10
  const FTTRK: Short := 13
  const FTHODO: Short := 11
  const HTCC: Short := 15
  const LTCC: Short := 16
  const BMT: Short := 1
  const FMT: Short := 8
  const RF: Short := 17
  const RICH: Short := 18
  const RTPC: Short := 19
  const HEL: Short := 20
  const BAND: Short := 21

  // Layers
  const FTOF1A: Short := 1
  const FTOF1B: Short := 2
  const FTOF2: Short := 3

  /** Offset that keeps CND layer ids clear of the FTOF scintillator layers. */
  const CNDOFF: Short := 150
  const CND1: Short := 151
  const CND2: Short := 152
  const CND3: Short := 153

  const PCAL: Short := 1
  const ECIN: Short := 4
  const ECOUT: Short := 7

  // Additional trajectory layers
  const DC1: Short := 6
  const DC2: Short := 12
  const DC3: Short := 18
  const DC4: Short := 24
  const DC5: Short := 30
  const DC6: Short := 36

  const CVT1: Short := 1
  const CVT2: Short := 2
  const CVT3: Short := 3
  const CVT4: Short := 4
  const CVT5: Short := 5
  const CVT6: Short := 6
  const CVT7: Short := 7
  const CVT8: Short := 8
  const CVT9: Short := 9
  const CVT10: Short := 10
  const CVT11: Short := 11
  const CVT12: Short := 12

  const BANDOFF: Short := 250
  const BTOF1: Short := 251
  const BTOF2: Short := 252
  const BTOF3: Short := 253
  const BTOF4: Short := 254
  const BTOF5: Short := 255
  const BVETO: Short := 256

  /** The detector-id to name table, a `std::map<short, string>`. */
  datatype DetId2Name = DetId2Name(entries: map<Short, string>)

  /** The constructor's `_map[id] = name` assignments, in order. */
  const Registrations: seq<(Short, string)> :=
    [(FTOF, "FTOF"), (CTOF, "CTOF"), (CND, "CND"), (CVT, "CVT"), (DC, "DC"),
     (ECAL, "ECAL"), (FTCAL, "FTCAL"), (FTTRK, "FTTRK"), (FTHODO, "FTHODO"),
     (HTCC, "HTCC"), (LTCC, "LTCC"), (BMT, "BMT"), (FMT, "FMT"), (RF, "RF"),
     (RICH, "RICH"), (RTPC, "RTPC"), (HEL, "HEL"), (BAND, "BAND")]

  /** No id is assigned twice in `regs`. */
  predicate DistinctIds(regs: seq<(Short, string)>) {
    forall i, j :: 0 <= i < j < |regs| ==> regs[i].0 != regs[j].0
  }

  /** The ids assigned in `regs`. */
  function IdsOf(regs: seq<(Short, string)>): set<Short> {
    set k | 0 <= k < |regs| :: regs[k].0
  }

  /** Performs the assignments `regs` on the table, in order. */
  function Register(d: DetId2Name, regs: seq<(Short, string)>): (r: DetId2Name)
    ensures d.entries.Keys <= r.entries.Keys
    ensures forall k :: 0 <= k < |regs| ==> regs[k].0 in r.entries
    ensures |regs| > 0 ==> r.entries[regs[|regs| - 1].0] == regs[|regs| - 1].1
    ensures forall k :: 0 <= k < |regs| && (forall j :: k < j < |regs| ==> regs[j].0 != regs[k].0) ==>
      r.entries[regs[k].0] == regs[k].1
    ensures forall id :: id in d.entries && id !in IdsOf(regs) ==> r.entries[id] == d.entries[id]
    decreases |regs|
  {
    if |regs| == 0 then d
    else
      assert forall k :: 0 < k < |regs| ==> regs[k] == regs[1..][k - 1];
      assert forall id :: id !in IdsOf(regs) ==> id != regs[0].0 && id !in IdsOf(regs[1..]);
      Register(DetId2Name(d.entries[regs[0].0 := regs[0].1]), regs[1..])
  }

  /** The table as the constructor fills it. */
  function NewDetId2Name(): (d: DetId2Name)
    ensures forall k :: 0 <= k < |Registrations| ==> Registrations[k].0 in d.entries
    ensures d.entries[BAND] == "BAND"
  {
    Register(DetId2Name(map[]), Registrations)
  }

  /** The name `DetName` yields for `idet` without changing what it yields later. */
  function NameOf(d: DetId2Name, idet: Short): string {
    if idet in d.entries then d.entries[idet] else ""
  }

  /**
   * `DetName(idet)`, which looks the id up with `std::map::operator[]`:
   * an unregistered id yields the empty string and is inserted into the
   * table with that empty name.  Returns the name and the table after the call.
   */
  function DetName(d: DetId2Name, idet: Short): (result: (string, DetId2Name))
    ensures idet in result.1.entries && result.1.entries[idet] == result.0
    ensures result.1.entries.Keys == d.entries.Keys + {idet}
    ensures forall id :: id in d.entries ==> result.1.entries[id] == d.entries[id]
    ensures idet !in d.entries ==> result.0 == ""
  {
    if idet in d.entries then (d.entries[idet], d)
    else ("", DetId2Name(d.entries[idet := ""]))
  }

  /** Asking for the same id twice gives the same name and leaves the table as the first call left it. */
  lemma DetNameIdempotent(d: DetId2Name, idet: Short)
    ensures DetName(DetName(d, idet).1, idet) == DetName(d, idet)
  {
  }

  /** A `DetName` call answers `NameOf` and never changes what `NameOf` answers. */
  lemma DetNameKeepsNames(d: DetId2Name, idet: Short)
    ensures DetName(d, idet).0 == NameOf(d, idet)
    ensures forall id :: NameOf(DetName(d, idet).1, id) == NameOf(d, id)
  {
  }

  /** The ids assigned by a list are those of its head and of its tail. */
  lemma IdsOfCons(regs: seq<(Short, string)>)
    requires |regs| > 0
    ensures IdsOf(regs) == {regs[0].0} + IdsOf(regs[1..])
  {
    var rest := regs[1..];
    forall id | id in IdsOf(regs) ensures id in {regs[0].0} + IdsOf(rest) {
      var k :| 0 <= k < |regs| && regs[k].0 == id;
      if k > 0 { assert rest[k - 1].0 == id; }
    }
    forall id | id in IdsOf(rest) ensures id in IdsOf(regs) {
      var k :| 0 <= k < |rest| && rest[k].0 == id;
      assert regs[k + 1].0 == id;
    }
  }

  /** The assignments add exactly the ids they assign. */
  lemma {:induction false} RegisterKeys(d: DetId2Name, regs: seq<(Short, string)>)
    ensures Register(d, regs).entries.Keys == d.entries.Keys + IdsOf(regs)
    decreases |regs|
  {
    if |regs| > 0 {
      RegisterKeys(DetId2Name(d.entries[regs[0].0 := regs[0].1]), regs[1..]);
      IdsOfCons(regs);
    }
  }

  /**
   * Assigning distinct ids adds exactly those keys, each holding its own
   * name, and leaves every other entry as it was.
   */
  lemma RegisterAssigns(d: DetId2Name, regs: seq<(Short, string)>)
    requires DistinctIds(regs)
    ensures Register(d, regs).entries.Keys == d.entries.Keys + IdsOf(regs)
    ensures forall k :: 0 <= k < |regs| ==> Register(d, regs).entries[regs[k].0] == regs[k].1
    ensures forall id :: id in d.entries && id !in IdsOf(regs) ==> Register(d, regs).entries[id] == d.entries[id]
  {
    RegisterKeys(d, regs);
  }

  /** Assigning distinct ids to an empty table gives one entry per assignment. */
  lemma {:induction false} RegisterCount(regs: seq<(Short, string)>)
    requires DistinctIds(regs)
    ensures |IdsOf(regs)| == |regs|
  {
    if |regs| > 0 {
      var rest := regs[1..];
      assert DistinctIds(rest);
      RegisterCount(rest);
      IdsOfCons(regs);
      assert regs[0].0 !in IdsOf(rest) by {
        forall k | 0 <= k < |rest| ensures rest[k].0 != regs[0].0 {
          assert rest[k] == regs[k + 1];
        }
      }
    }
  }

  /**
   * After construction each registered id is named as registered and the
   * table holds the 18 registered ids and nothing else.
   */
  lemma RegisteredDetectorNames()
    ensures forall k :: 0 <= k < |Registrations| ==>
      DetName(NewDetId2Name(), Registrations[k].0).0 == Registrations[k].1
    ensures NewDetId2Name().entries.Keys == IdsOf(Registrations)
    ensures |NewDetId2Name().entries| == 18
  {
    RegistrationsDistinct();
    RegisterAssigns(DetId2Name(map[]), Registrations);
    RegisterCount(Registrations);
    var d := NewDetId2Name();
    assert |d.entries| == |d.entries.Keys|;
  }

  /** On a new table, an unregistered id is named "" and added with that empty name. */
  lemma UnregisteredDetName(id: Short)
    requires id !in IdsOf(Registrations)
    ensures DetName(NewDetId2Name(), id) == ("", DetId2Name(NewDetId2Name().entries[id := ""]))
  {
    RegisteredDetectorNames();
  }

  /** FTCAL is named "FTCAL"; EC shares its id with ECAL and so is named "ECAL". */
  lemma ForwardTaggerAndCalorimeterNames()
    ensures DetName(NewDetId2Name(), FTCAL).0 == "FTCAL"
    ensures EC == ECAL && DetName(NewDetId2Name(), EC).0 == "ECAL"
  {
    var d := NewDetId2Name();
    RegistrationsDistinct();
    RegisterAssigns(DetId2Name(map[]), Registrations);
    assert Registrations[6] == (FTCAL, "FTCAL");
    assert d.entries[FTCAL] == "FTCAL";
    assert Registrations[5] == (EC, "ECAL");
    assert d.entries[EC] == "ECAL";
  }

  /** The position of a registered id among the constructor's assignments. */
  function RegistrationIndex(id: Short): int {
    match id
    case 12 => 0 case 4 => 1 case 3 => 2 case 5 => 3 case 6 => 4 case 7 => 5
    case 10 => 6 case 13 => 7 case 11 => 8 case 15 => 9 case 16 => 10 case 1 => 11
    case 8 => 12 case 17 => 13 case 18 => 14 case 19 => 15 case 20 => 16 case 21 => 17
    case _ => -1
  }

  /** The constructor assigns each id once. */
  lemma RegistrationsDistinct()
    ensures DistinctIds(Registrations)
  {
    forall k | 0 <= k < |Registrations| ensures RegistrationIndex(Registrations[k].0) == k {
      if k < 6 {
        assert k == 0 || k == 1 || k == 2 || k == 3 || k == 4 || k == 5;
      } else if k < 12 {
        assert k == 6 || k == 7 || k == 8 || k == 9 || k == 10 || k == 11;
      } else {
        assert k == 12 || k == 13 || k == 14 || k == 15 || k == 16 || k == 17;
      }
    }
  }


  /** The layer offsets: CND1..CND3 are layers 1..3, BTOF1..BTOF5 and BVETO follow BANDOFF. */
  lemma LayerOffsets()
    ensures CND1 - CNDOFF == 1 && CND2 - CNDOFF == 2 && CND3 - CNDOFF == 3
    ensures BTOF1 == BANDOFF + 1 && BTOF2 == BANDOFF + 2 && BTOF3 == BANDOFF + 3
    ensures BTOF4 == BANDOFF + 4 && BTOF5 == BANDOFF + 5 && BVETO == BANDOFF + 6
  {
  }
}
