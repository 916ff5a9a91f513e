/**
 * A CLAS12 reaction with detector association: for a detector bank,
 * the columns that attribute each of its hit quantities to the
 * configured particles, one column per particle, quantity and
 * sub-detector.  The columns are recorded by name and inputs; the
 * functions they evaluate are modelled in DetectorInfo.
 */
module DetectorReaction {
  import opened CppTypes
  import opened Clas12Defs
  import opened Clas12Reaction

  /** The reaction configuration together with its detector-name table. */
  datatype DetectorReaction = DetectorReaction(base: Reaction, detectors: DetId2Name)

  /** A freshly constructed detector reaction. */
  function NewDetectorReaction(prefixes: ColumnPrefixes): (dr: DetectorReaction)
    ensures dr.base == NewReaction(prefixes)
    ensures dr.detectors.entries.Keys == IdsOf(Registrations)
  {
    RegisteredDetectorNames();
    DetectorReaction(NewReaction(prefixes), NewDetId2Name())
  }

  /** A column definition made while associating a detector. */
  datatype DetColumn =
      /** `Define(column, ReverseIndexN, {pindex, count})`: hits per particle. */
    | ReverseMap(column: string, pindex: string, count: string)
      /** `Redefine(column, Rearrange, inputs)`: the reverse map put into truth order. */
    | RearrangeReverseMap(column: string, inputs: seq<string>)
      /**
       * `Define(name, ParticleSubDetInfo(particle, reverseMap, values, detector, detid))`:
       * the quantity `values` of the particle's first hit in sub-detector `detid`.
       */
    | SubDetColumn(name: string, particle: string, reverseMap: string,
                   values: string, detector: string, detid: Int32)

  /** The reaction after the call, and the columns the call defined, in order. */
  datatype Association = Association(reaction: DetectorReaction, columns: seq<DetColumn>)

  /** The branch prefix of a detector bank: "REC_" + det + "_". */
  function DetBankPrefix(det: string): string {
    "REC_" + det + "_"
  }

  /** The reverse-map column of a detector; it carries the do-not-write tag. */
  function ReverseMapColumn(p: ColumnPrefixes, det: string): string {
    det + "_to_rec" + p.doNotWrite
  }

  /** The name of a particle's column of `item` in the sub-detector called `detName`. */
  function SubDetColumnName(particle: string, detName: string, item: string): string {
    particle + "_" + detName + "_" + item
  }

  /** The sub-detector column of `particle`, `item` and `subdet`, named by the table `d`. */
  function ExpectedColumn(p: ColumnPrefixes, det: string, d: DetId2Name,
                          particle: string, item: string, subdet: Int32): DetColumn {
    SubDetColumnFor(p, det, particle, item, subdet, NameOf(d, ToShort(subdet)))
  }

  /** The ids `DetName` is asked for: each sub-detector truncated to `short`. */
  function ShortIds(subdets: seq<Int32>): set<Short> {
    set k | 0 <= k < |subdets| :: ToShort(subdets[k])
  }

  /**
   * `after` is `before` with the ids `added` looked up: exactly those keys
   * are added, each new one with the empty name, and no name changes.
   */
  predicate Extends(before: DetId2Name, after: DetId2Name, added: set<Short>) {
    && after.entries.Keys == before.entries.Keys + added
    && forall id :: id in after.entries ==> after.entries[id] == NameOf(before, id)
  }

  lemma ExtendsTrans(d0: DetId2Name, d1: DetId2Name, d2: DetId2Name, a: set<Short>, b: set<Short>)
    requires Extends(d0, d1, a) && Extends(d1, d2, b)
    ensures Extends(d0, d2, a + b)
  {
  }

  /** The column of `particle`, `item` and `subdet` for a sub-detector named `detName`. */
  function SubDetColumnFor(p: ColumnPrefixes, det: string, particle: string, item: string,
                           subdet: Int32, detName: string): DetColumn {
    SubDetColumn(SubDetColumnName(particle, detName, item), particle, ReverseMapColumn(p, det),
                 DetBankPrefix(det) + item, DetBankPrefix(det) + "detector", subdet)
  }

  /**
   * The innermost loop: one column per sub-detector, each named through
   * a table lookup that may extend the table.
   */
  function DefineSubdets(p: ColumnPrefixes, det: string, d: DetId2Name,
                         particle: string, item: string, subdets: seq<Int32>): (r: (DetId2Name, seq<DetColumn>))
    ensures |r.1| == |subdets|
    ensures forall k :: 0 <= k < |r.1| ==> r.1[k].SubDetColumn?
    decreases |subdets|
  {
    if |subdets| == 0 then (d, [])
    else
      var looked := DetName(d, ToShort(subdets[0]));
      var rest := DefineSubdets(p, det, looked.1, particle, item, subdets[1..]);
      (rest.0, [SubDetColumnFor(p, det, particle, item, subdets[0], looked.0)] + rest.1)
  }

  /** The middle loop: for each item, the columns of every sub-detector. */
  function DefineItems(p: ColumnPrefixes, det: string, d: DetId2Name,
                       particle: string, items: seq<string>, subdets: seq<Int32>): (r: (DetId2Name, seq<DetColumn>))
    ensures |r.1| == |items| * |subdets|
    ensures forall k :: 0 <= k < |r.1| ==> r.1[k].SubDetColumn?
    decreases |items|
  {
    if |items| == 0 then (d, [])
    else
      var first := DefineSubdets(p, det, d, particle, items[0], subdets);
      var rest := DefineItems(p, det, first.0, particle, items[1..], subdets);
      assert |items| * |subdets| == |subdets| + (|items| - 1) * |subdets|;
      (rest.0, first.1 + rest.1)
  }

  /** The outer loop: for each particle, the columns of every item. */
  function DefineParticles(p: ColumnPrefixes, det: string, d: DetId2Name,
                           particles: seq<string>, items: seq<string>, subdets: seq<Int32>): (r: (DetId2Name, seq<DetColumn>))
    ensures |r.1| == |particles| * (|items| * |subdets|)
    ensures forall k :: 0 <= k < |r.1| ==> r.1[k].SubDetColumn?
    decreases |particles|
  {
    if |particles| == 0 then (d, [])
    else
      var first := DefineItems(p, det, d, particles[0], items, subdets);
      var rest := DefineParticles(p, det, first.0, particles[1..], items, subdets);
      assert |particles| * (|items| * |subdets|) == |items| * |subdets| + (|particles| - 1) * (|items| * |subdets|);
      (rest.0, first.1 + rest.1)
  }

  lemma ShortIdsCons(subdets: seq<Int32>)
    requires |subdets| > 0
    ensures ShortIds(subdets) == {ToShort(subdets[0])} + ShortIds(subdets[1..])
  {
    forall id | id in ShortIds(subdets) ensures id in {ToShort(subdets[0])} + ShortIds(subdets[1..]) {
      var k :| 0 <= k < |subdets| && ToShort(subdets[k]) == id;
      if k > 0 { assert subdets[1..][k - 1] == subdets[k]; }
    }
    forall id | id in ShortIds(subdets[1..]) ensures id in ShortIds(subdets) {
      var k :| 0 <= k < |subdets[1..]| && ToShort(subdets[1..][k]) == id;
      assert subdets[k + 1] == subdets[1..][k];
    }
  }

  /** The sub-detector loop adds exactly the looked-up ids, with empty names. */
  lemma {:induction false} SubdetsTable(p: ColumnPrefixes, det: string, d: DetId2Name,
                                        particle: string, item: string, subdets: seq<Int32>)
    ensures Extends(d, DefineSubdets(p, det, d, particle, item, subdets).0, ShortIds(subdets))
    decreases |subdets|
  {
    if |subdets| > 0 {
      var looked := DetName(d, ToShort(subdets[0]));
      SubdetsTable(p, det, looked.1, particle, item, subdets[1..]);
      ShortIdsCons(subdets);
      DetNameKeepsNames(d, ToShort(subdets[0]));
      assert Extends(d, looked.1, {ToShort(subdets[0])});
      ExtendsTrans(d, looked.1, DefineSubdets(p, det, d, particle, item, subdets).0, {ToShort(subdets[0])}, ShortIds(subdets[1..]));
    }
  }

  /** The columns of one particle and item, one per sub-detector, named by the table `d`. */
  function SubdetRow(p: ColumnPrefixes, det: string, d: DetId2Name,
                     particle: string, item: string, subdets: seq<Int32>): (row: seq<DetColumn>)
    ensures |row| == |subdets|
  {
    seq(|subdets|, si requires 0 <= si < |subdets| => ExpectedColumn(p, det, d, particle, item, subdets[si]))
  }

  /** The rows of a grid, one after the other. */
  function Flatten<T>(rows: seq<seq<T>>): seq<T> {
    if |rows| == 0 then [] else rows[0] + Flatten(rows[1..])
  }

  /** Entry `j` of row `i` of a grid of rows of width `w` is at flat position `k == i * w + j`. */
  lemma {:induction false} FlattenIndex<T>(rows: seq<seq<T>>, w: nat, i: nat, j: nat, k: nat)
    requires forall r :: 0 <= r < |rows| ==> |rows[r]| == w
    requires i < |rows| && j < w && k == i * w + j
    ensures k < |Flatten(rows)|
    ensures Flatten(rows)[k] == rows[i][j]
    decreases i
  {
    if i > 0 {
      FlattenIndex(rows[1..], w, i - 1, j, k - w);
    }
  }

  /** A grid of rows of width `w` has `|rows| * w` entries. */
  lemma {:induction false} FlattenLength<T>(rows: seq<seq<T>>, w: nat)
    requires forall k :: 0 <= k < |rows| ==> |rows[k]| == w
    ensures |Flatten(rows)| == |rows| * w
    decreases |rows|
  {
    if |rows| > 0 {
      FlattenLength(rows[1..], w);
      assert |rows| * w == w + (|rows| - 1) * w;
    }
  }

  /** Each sub-detector column is named as the table named the sub-detector before the loop. */
  lemma {:induction false} SubdetsColumns(p: ColumnPrefixes, det: string, d: DetId2Name,
                                          particle: string, item: string, subdets: seq<Int32>)
    ensures DefineSubdets(p, det, d, particle, item, subdets).1 == SubdetRow(p, det, d, particle, item, subdets)
    decreases |subdets|
  {
    if |subdets| > 0 {
      var looked := DetName(d, ToShort(subdets[0]));
      var cols := DefineSubdets(p, det, d, particle, item, subdets).1;
      SubdetsColumns(p, det, looked.1, particle, item, subdets[1..]);
      DetNameKeepsNames(d, ToShort(subdets[0]));
      forall si | 0 <= si < |subdets| ensures cols[si] == ExpectedColumn(p, det, d, particle, item, subdets[si]) {
        if si > 0 {
          assert subdets[1..][si - 1] == subdets[si];
        }
      }
    }
  }

  /** The item loop adds the looked-up ids, with empty names, as soon as there is an item. */
  lemma {:induction false} ItemsTable(p: ColumnPrefixes, det: string, d: DetId2Name,
                                      particle: string, items: seq<string>, subdets: seq<Int32>)
    ensures Extends(d, DefineItems(p, det, d, particle, items, subdets).0,
                    if |items| == 0 then {} else ShortIds(subdets))
    decreases |items|
  {
    if |items| > 0 {
      var first := DefineSubdets(p, det, d, particle, items[0], subdets);
      SubdetsTable(p, det, d, particle, items[0], subdets);
      ItemsTable(p, det, first.0, particle, items[1..], subdets);
      ExtendsTrans(d, first.0, DefineItems(p, det, d, particle, items, subdets).0,
                   ShortIds(subdets), if |items| == 1 then {} else ShortIds(subdets));
    }
  }

  /** The columns of one particle: a row per item. */
  function ItemRows(p: ColumnPrefixes, det: string, d: DetId2Name,
                    particle: string, items: seq<string>, subdets: seq<Int32>): (rows: seq<seq<DetColumn>>)
    ensures |rows| == |items|
    ensures forall k :: 0 <= k < |rows| ==> rows[k] == SubdetRow(p, det, d, particle, items[k], subdets)
  {
    seq(|items|, ii requires 0 <= ii < |items| => SubdetRow(p, det, d, particle, items[ii], subdets))
  }

  /** The item loop lays the sub-detector rows out one item after the other. */
  lemma {:induction false} ItemsColumns(p: ColumnPrefixes, det: string, d: DetId2Name,
                                        particle: string, items: seq<string>, subdets: seq<Int32>)
    ensures DefineItems(p, det, d, particle, items, subdets).1 == Flatten(ItemRows(p, det, d, particle, items, subdets))
    decreases |items|
  {
    if |items| > 0 {
      var first := DefineSubdets(p, det, d, particle, items[0], subdets);
      var rows := ItemRows(p, det, d, particle, items, subdets);
      SubdetsColumns(p, det, d, particle, items[0], subdets);
      SubdetsTable(p, det, d, particle, items[0], subdets);
      NamesUnchanged(d, first.0, ShortIds(subdets));
      ItemsColumns(p, det, first.0, particle, items[1..], subdets);
      SameNamesSameRows(p, det, d, first.0, particle, items[1..], subdets);
      assert rows[1..] == ItemRows(p, det, d, particle, items[1..], subdets);
    }
  }

  /** Tables that name every id alike give the same rows. */
  lemma SameNamesSameRows(p: ColumnPrefixes, det: string, d: DetId2Name, d': DetId2Name,
                          particle: string, items: seq<string>, subdets: seq<Int32>)
    requires forall id :: NameOf(d', id) == NameOf(d, id)
    ensures ItemRows(p, det, d', particle, items, subdets) == ItemRows(p, det, d, particle, items, subdets)
  {
    forall ii | 0 <= ii < |items|
      ensures SubdetRow(p, det, d', particle, items[ii], subdets) == SubdetRow(p, det, d, particle, items[ii], subdets)
    {
    }
  }

  /** The particle loop adds the looked-up ids, with empty names, as soon as there is a particle and an item. */
  lemma {:induction false} ParticlesTable(p: ColumnPrefixes, det: string, d: DetId2Name,
                                          particles: seq<string>, items: seq<string>, subdets: seq<Int32>)
    ensures Extends(d, DefineParticles(p, det, d, particles, items, subdets).0,
                    if |particles| == 0 || |items| == 0 then {} else ShortIds(subdets))
    decreases |particles|
  {
    if |particles| > 0 {
      var first := DefineItems(p, det, d, particles[0], items, subdets);
      var added := if |items| == 0 then {} else ShortIds(subdets);
      ItemsTable(p, det, d, particles[0], items, subdets);
      ParticlesTable(p, det, first.0, particles[1..], items, subdets);
      ExtendsTrans(d, first.0, DefineParticles(p, det, d, particles, items, subdets).0,
                   added, if |particles| == 1 then {} else added);
    }
  }

  /** All columns of the call: a block per particle, each laid out as its item rows. */
  function ParticleBlocks(p: ColumnPrefixes, det: string, d: DetId2Name,
                          particles: seq<string>, items: seq<string>, subdets: seq<Int32>): (blocks: seq<seq<DetColumn>>)
    ensures |blocks| == |particles|
    ensures forall k :: 0 <= k < |blocks| ==> blocks[k] == Flatten(ItemRows(p, det, d, particles[k], items, subdets))
  {
    seq(|particles|, pi requires 0 <= pi < |particles| => Flatten(ItemRows(p, det, d, particles[pi], items, subdets)))
  }

  /** The particle loop lays the particle blocks out one after the other. */
  lemma {:induction false} ParticlesColumns(p: ColumnPrefixes, det: string, d: DetId2Name,
                                            particles: seq<string>, items: seq<string>, subdets: seq<Int32>)
    ensures DefineParticles(p, det, d, particles, items, subdets).1
         == Flatten(ParticleBlocks(p, det, d, particles, items, subdets))
    decreases |particles|
  {
    if |particles| > 0 {
      var first := DefineItems(p, det, d, particles[0], items, subdets);
      var blocks := ParticleBlocks(p, det, d, particles, items, subdets);
      ItemsColumns(p, det, d, particles[0], items, subdets);
      ItemsTable(p, det, d, particles[0], items, subdets);
      NamesUnchanged(d, first.0, if |items| == 0 then {} else ShortIds(subdets));
      ParticlesColumns(p, det, first.0, particles[1..], items, subdets);
      forall pi | 0 <= pi < |particles| - 1
        ensures Flatten(ItemRows(p, det, first.0, particles[1..][pi], items, subdets))
             == Flatten(ItemRows(p, det, d, particles[1..][pi], items, subdets))
      {
        SameNamesSameRows(p, det, d, first.0, particles[1..][pi], items, subdets);
      }
      assert blocks[1..] == ParticleBlocks(p, det, first.0, particles[1..], items, subdets);
    }
  }

  /**
   * Particle `pi`, item `ii`, sub-detector `si` is column
   * `(pi * |items| + ii) * |subdets| + si` of the particle loop.
   */
  lemma ParticleColumnAt(p: ColumnPrefixes, det: string, d: DetId2Name,
                         particles: seq<string>, items: seq<string>, subdets: seq<Int32>,
                         pi: nat, ii: nat, si: nat)
    requires pi < |particles| && ii < |items| && si < |subdets|
    ensures 0 <= (pi * |items| + ii) * |subdets| + si < |DefineParticles(p, det, d, particles, items, subdets).1|
    ensures DefineParticles(p, det, d, particles, items, subdets).1[(pi * |items| + ii) * |subdets| + si]
         == ExpectedColumn(p, det, d, particles[pi], items[ii], subdets[si])
  {
    var blocks := ParticleBlocks(p, det, d, particles, items, subdets);
    var rows := ItemRows(p, det, d, particles[pi], items, subdets);
    ParticlesColumns(p, det, d, particles, items, subdets);
    forall k | 0 <= k < |blocks| ensures |blocks[k]| == |items| * |subdets| {
      FlattenLength(ItemRows(p, det, d, particles[k], items, subdets), |subdets|);
    }
    NestedIndex(blocks, rows, |subdets|, pi, ii, si, (pi * |items| + ii) * |subdets| + si);
  }

  /**
   * In a grid of blocks, each the flattening of rows of width `w`, entry
   * `si` of row `ii` of block `pi` is at flat position `(pi * |rows| + ii) * w + si`.
   */
  lemma NestedIndex<T>(blocks: seq<seq<T>>, rows: seq<seq<T>>, w: nat, pi: nat, ii: nat, si: nat, k: int)
    requires forall r :: 0 <= r < |blocks| ==> |blocks[r]| == |rows| * w
    requires forall r :: 0 <= r < |rows| ==> |rows[r]| == w
    requires pi < |blocks| && ii < |rows| && si < w
    requires blocks[pi] == Flatten(rows)
    requires k == (pi * |rows| + ii) * w + si
    ensures 0 <= k < |Flatten(blocks)|
    ensures Flatten(blocks)[k] == rows[ii][si]
  {
    var j := ii * w + si;
    var width := |rows| * w;
    FlattenIndex(rows, w, ii, si, j);
    GridIndex(pi, ii, si, |rows|, w);
    InGrid(ii, si, |rows|, w);
    MulNonnegative(|rows|, w);
    MulNonnegative(pi, width);
    FlattenIndex(blocks, width, pi, j, k);
  }

  lemma MulNonnegative(a: nat, b: nat)
    ensures a * b >= 0
  {
  }

  /** Entry `j` of row `i` of an `n` by `w` grid lies inside it. */
  lemma InGrid(i: nat, j: nat, n: nat, w: nat)
    requires i < n && j < w
    ensures i * w + j < n * w
  {
    assert (i + 1) * w == i * w + w;
    assert (i + 1) * w <= n * w;
  }

  /** The flat position of particle `i`, item `k`, sub-detector `j` is row `i` of width `items * subdets`. */
  lemma GridIndex(i: int, k: int, j: int, items: int, subdets: int)
    ensures (i * items + k) * subdets + j == i * (items * subdets) + (k * subdets + j)
  {
    assert (i * items + k) * subdets == i * items * subdets + k * subdets;
  }

  /** A table that extends another names every id the same way. */
  lemma NamesUnchanged(before: DetId2Name, after: DetId2Name, added: set<Short>)
    requires Extends(before, after, added)
    ensures forall id :: NameOf(after, id) == NameOf(before, id)
  {
  }

  /**
   * `AssociateDetector(det, subdets, particles, info)`: the reverse map
   * from the bank's particle-index column, its rearrangement into truth
   * order when the reaction is truth matched, then one column per
   * particle, item and sub-detector.
   */
  function AssociateDetector(dr: DetectorReaction, det: string, subdets: seq<Int32>,
                             particles: seq<string>, info: seq<string>): (a: Association)
    ensures a.reaction.base == dr.base
    ensures |a.columns| == (if IsTruthMatched(dr.base) then 2 else 1) + |particles| * (|info| * |subdets|)
    ensures a.columns[0] == ReverseMap(ReverseMapColumn(dr.base.prefixes, det), DetBankPrefix(det) + "pindex",
                                       dr.base.prefixes.rec + "n")
    ensures forall k :: (if IsTruthMatched(dr.base) then 2 else 1) <= k < |a.columns| ==> a.columns[k].SubDetColumn?
  {
    var p := dr.base.prefixes;
    var reverse := ReverseMapColumn(p, det);
    var defineMap := ReverseMap(reverse, DetBankPrefix(det) + "pindex", p.rec + "n");
    var rearrange := if IsTruthMatched(dr.base) then [RearrangeReverseMap(reverse, [reverse, ColumnName(p, Rec, MatchId)])] else [];
    var defined := DefineParticles(p, det, dr.detectors, particles, info, subdets);
    Association(DetectorReaction(dr.base, defined.0), [defineMap] + rearrange + defined.1)
  }

  /**
   * The columns of `AssociateDetector`: first the reverse map, built from
   * the bank's "pindex" branch and the particle count; then, only when the
   * reaction is truth matched, its rearrangement by the reconstructed
   * match id; then the columns of the loops.  The table gains the
   * sub-detector ids it did not know, with empty names, and only when
   * some column is defined; the reaction configuration is unchanged.
   */
  lemma AssociateDetectorShape(dr: DetectorReaction, det: string, subdets: seq<Int32>,
                               particles: seq<string>, info: seq<string>)
    ensures var a := AssociateDetector(dr, det, subdets, particles, info);
      var p := dr.base.prefixes;
      var offset := if IsTruthMatched(dr.base) then 2 else 1;
      && a.reaction.base == dr.base
      && Extends(dr.detectors, a.reaction.detectors,
                 if |particles| == 0 || |info| == 0 then {} else ShortIds(subdets))
      && offset <= |a.columns|
      && a.columns[0] == ReverseMap(ReverseMapColumn(p, det), DetBankPrefix(det) + "pindex", p.rec + "n")
      && (IsTruthMatched(dr.base) <==> a.columns[1..offset] == [RearrangeReverseMap(ReverseMapColumn(p, det),
                                                                 [ReverseMapColumn(p, det), p.rec + "match_id"])])
      && a.columns[offset..] == DefineParticles(p, det, dr.detectors, particles, info, subdets).1
  {
    ParticlesTable(dr.base.prefixes, det, dr.detectors, particles, info, subdets);
  }

  /**
   * There is a column for every particle, item and sub-detector, at
   * position `(pi * |info| + ii) * |subdets| + si` after the reverse-map
   * columns, named `particle + "_" + name + "_" + item` with the name the
   * table held for the sub-detector before the call.
   */
  lemma AssociateDetectorColumnAt(dr: DetectorReaction, det: string, subdets: seq<Int32>,
                                  particles: seq<string>, info: seq<string>, pi: nat, ii: nat, si: nat)
    requires pi < |particles| && ii < |info| && si < |subdets|
    ensures var a := AssociateDetector(dr, det, subdets, particles, info);
      var offset := if IsTruthMatched(dr.base) then 2 else 1;
      var k := offset + (pi * |info| + ii) * |subdets| + si;
      && 0 <= k < |a.columns|
      && a.columns[k] == ExpectedColumn(dr.base.prefixes, det, dr.detectors, particles[pi], info[ii], subdets[si])
  {
    var a := AssociateDetector(dr, det, subdets, particles, info);
    var defined := DefineParticles(dr.base.prefixes, det, dr.detectors, particles, info, subdets);
    var offset := if IsTruthMatched(dr.base) then 2 else 1;
    var flat := (pi * |info| + ii) * |subdets| + si;
    AssociateDetectorShape(dr, det, subdets, particles, info);
    ParticleColumnAt(dr.base.prefixes, det, dr.detectors, particles, info, subdets, pi, ii, si);
    assert a.columns[offset + flat] == a.columns[offset..][flat];
  }

  /** The number of columns: the reverse map, its rearrangement when truth matched, and one per combination. */
  lemma AssociateDetectorCount(dr: DetectorReaction, det: string, subdets: seq<Int32>,
                               particles: seq<string>, info: seq<string>)
    ensures |AssociateDetector(dr, det, subdets, particles, info).columns|
         == (if IsTruthMatched(dr.base) then 2 else 1) + |particles| * (|info| * |subdets|)
  {
    AssociateDetectorShape(dr, det, subdets, particles, info);
  }

  /** The rearrangement is requested exactly for truth-matched reactions. */
  lemma RearrangeOnlyWhenTruthMatched(dr: DetectorReaction, det: string, subdets: seq<Int32>,
                                      particles: seq<string>, info: seq<string>)
    ensures (exists k | 0 <= k < |AssociateDetector(dr, det, subdets, particles, info).columns| ::
               AssociateDetector(dr, det, subdets, particles, info).columns[k].RearrangeReverseMap?)
        <==> IsTruthMatched(dr.base)
  {
    var a := AssociateDetector(dr, det, subdets, particles, info);
    var defined := DefineParticles(dr.base.prefixes, det, dr.detectors, particles, info, subdets);
    var offset := if IsTruthMatched(dr.base) then 2 else 1;
    assert a.columns[offset..] == defined.1;
    forall k | offset <= k < |a.columns| ensures !a.columns[k].RearrangeReverseMap? {
      assert a.columns[k] == defined.1[k - offset];
    }
    if IsTruthMatched(dr.base) {
      assert a.columns[1].RearrangeReverseMap?;
    }
  }

  /** A new detector reaction names every registered detector, FTCAL among them. */
  lemma NewDetectorReactionNames(p: ColumnPrefixes)
    ensures forall k :: 0 <= k < |Registrations| ==>
      NameOf(NewDetectorReaction(p).detectors, Registrations[k].0) == Registrations[k].1
    ensures NameOf(NewDetectorReaction(p).detectors, FTCAL) == "FTCAL"
  {
    RegisteredDetectorNames();
    ForwardTaggerAndCalorimeterNames();
    DetNameKeepsNames(NewDetId2Name(), FTCAL);
  }

  /**
   * Associating the forward-tagger calorimeter with the scattered
   * electron, with a table that names FTCAL as a new one does, defines
   * the column "scat_ele_FTCAL_energy", which reads the
   * "REC_ForwardTagger_energy" value of the electron's first FTCAL hit.
   */
  lemma ForwardTaggerExample(dr: DetectorReaction)
    requires NameOf(dr.detectors, FTCAL) == "FTCAL"
    ensures var a := AssociateDetector(dr, "ForwardTagger", [FTCAL as Int32], ["scat_ele"], ["energy"]);
      && |a.columns| == (if IsTruthMatched(dr.base) then 3 else 2)
      && a.columns[|a.columns| - 1]
         == SubDetColumn("scat_ele_FTCAL_energy", "scat_ele", ReverseMapColumn(dr.base.prefixes, "ForwardTagger"),
                         "REC_ForwardTagger_energy", "REC_ForwardTagger_detector", FTCAL as Int32)
  {
    AssociateDetectorCount(dr, "ForwardTagger", [FTCAL as Int32], ["scat_ele"], ["energy"]);
    AssociateDetectorColumnAt(dr, "ForwardTagger", [FTCAL as Int32], ["scat_ele"], ["energy"], 0, 0, 0);
    ForwardTaggerEnergyColumn(dr.base.prefixes, dr.detectors);
  }

  /** The electron's FTCAL energy column, when the table names FTCAL. */
  lemma ForwardTaggerEnergyColumn(p: ColumnPrefixes, d: DetId2Name)
    requires NameOf(d, FTCAL) == "FTCAL"
    ensures ExpectedColumn(p, "ForwardTagger", d, "scat_ele", "energy", FTCAL as Int32)
         == SubDetColumn("scat_ele_FTCAL_energy", "scat_ele", ReverseMapColumn(p, "ForwardTagger"),
                         "REC_ForwardTagger_energy", "REC_ForwardTagger_detector", FTCAL as Int32)
  {
    assert ToShort(FTCAL as Int32) == FTCAL;
    assert SubDetColumnName("scat_ele", "FTCAL", "energy") == "scat_ele_FTCAL_energy";
    assert DetBankPrefix("ForwardTagger") + "energy" == "REC_ForwardTagger_energy";
    assert DetBankPrefix("ForwardTagger") + "detector" == "REC_ForwardTagger_detector";
  }
}
