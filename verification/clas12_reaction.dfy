/**
 * Configuration of a CLAS12 reaction: which banks the fundamental
 * particle columns are aliased from, the truth-matching mode, and the
 * name-based rule that decides which columns are reordered into truth
 * order.  Column definitions are recorded as configuration steps; the
 * data frame that executes them is not part of this model.
 */
module Clas12Reaction {
  import opened Options
  import opened Strings

  /**
   * The column-name prefixes of reconstructed and truth data (`Rec()`,
   * `Truth()`) and the suffix marking columns not to be written
   * (`DoNotWriteTag()`).
   */
  datatype ColumnPrefixes = ColumnPrefixes(rec: string, truth: string, doNotWrite: string)

  /** The prefixes the analysis macros use: columns "rec_pid", "tru_pid". */
  const StandardRec: string := "rec_"
  const StandardTruth: string := "tru_"

  /** Reconstructed or truth data. */
  datatype Kind = Rec | Truth

  function Prefix(p: ColumnPrefixes, kind: Kind): string {
    match kind
    case Rec => p.rec
    case Truth => p.truth
  }

  /** The reaction's configuration state. */
  datatype Reaction = Reaction(prefixes: ColumnPrefixes, isFTBased: bool, truthMatched: bool)

  /** A branch of an input bank, named `bank + "_" + leaf`, e.g. "REC_Particle_px". */
  datatype Branch = Branch(bank: string, leaf: string)

  function BranchName(b: Branch): string {
    b.bank + "_" + b.leaf
  }

  /** The per-particle fundamental quantities a column can hold. */
  datatype Field = Px | Py | Pz | Pid | M | Status | Vt | Vx | Vy | Vz | Beta | Chi2pid | MatchId | Qual

  /** The field's column suffix. */
  function FieldName(f: Field): string {
    match f
    case Px => "px"
    case Py => "py"
    case Pz => "pz"
    case Pid => "pid"
    case M => "m"
    case Status => "status"
    case Vt => "vt"
    case Vx => "vx"
    case Vy => "vy"
    case Vz => "vz"
    case Beta => "beta"
    case Chi2pid => "chi2pid"
    case MatchId => "match_id"
    case Qual => "qual"
  }

  /** The column of `kind` holding `field`, e.g. `Rec() + "px"`. */
  function ColumnName(p: ColumnPrefixes, kind: Kind, field: Field): string {
    Prefix(p, kind) + FieldName(field)
  }

  /**
   * The alias tables: which input branch each column is aliased from.
   * The reconstructed tables feed `Rec()` columns, the generated ones
   * `Truth()` columns; the generator-match bank feeds one of each.
   */
  datatype Table = ParticleTable | ForwardTaggedTable | LundTable | GenMatchRecTable | GenMatchTruthTable

  /** The data type whose columns a table feeds. */
  function TableKind(t: Table): Kind {
    match t
    case ParticleTable | ForwardTaggedTable | GenMatchRecTable => Rec
    case LundTable | GenMatchTruthTable => Truth
  }

  /** The branch a table aliases to the column of `f`, if it has one. */
  function TableBranch(t: Table, f: Field): Option<Branch> {
    match t
    case ParticleTable =>
      (match f
       case Px => Some(Branch("REC_Particle", "px"))
       case Py => Some(Branch("REC_Particle", "py"))
       case Pz => Some(Branch("REC_Particle", "pz"))
       case Pid => Some(Branch("REC_Particle", "pid"))
       case M => Some(Branch("REC_Particle", "m"))
       case Status => Some(Branch("REC_Particle", "status"))
       case Vt => Some(Branch("REC_Particle", "vt"))
       case Vx => Some(Branch("REC_Particle", "vx"))
       case Vy => Some(Branch("REC_Particle", "vy"))
       case Vz => Some(Branch("REC_Particle", "vz"))
       case Beta => Some(Branch("REC_Particle", "beta"))
       case Chi2pid => Some(Branch("REC_Particle", "chi2pid"))
       case _ => None)
    case ForwardTaggedTable =>
      (match f
       case Px => Some(Branch("RECFT_Particle", "px"))
       case Py => Some(Branch("RECFT_Particle", "py"))
       case Pz => Some(Branch("RECFT_Particle", "pz"))
       case Pid => Some(Branch("RECFT_Particle", "pid"))
       case M => Some(Branch("RECFT_Particle", "m"))
       case Status => Some(Branch("RECFT_Particle", "status"))
       case Vt => Some(Branch("RECFT_Particle", "vt"))
       case Vx => Some(Branch("REC_Particle", "vx"))
       case Vy => Some(Branch("REC_Particle", "vy"))
       case Vz => Some(Branch("REC_Particle", "vz"))
       case Beta => Some(Branch("RECFT_Particle", "beta"))
       case Chi2pid => Some(Branch("RECFT_Particle", "chi2pid"))
       case _ => None)
    case LundTable =>
      (match f
       case Px => Some(Branch("MC_Lund", "px"))
       case Py => Some(Branch("MC_Lund", "py"))
       case Pz => Some(Branch("MC_Lund", "pz"))
       case Pid => Some(Branch("MC_Lund", "pid"))
       case M => Some(Branch("MC_Lund", "mass"))
       case _ => None)
    case GenMatchRecTable =>
      if f == MatchId then Some(Branch("MC_GenMatch", "pindex")) else None
    case GenMatchTruthTable =>
      (match f
       case MatchId => Some(Branch("MC_GenMatch", "mcindex"))
       case Qual => Some(Branch("MC_GenMatch", "quality"))
       case _ => None)
  }

  /** One configuration call, in terms of the column names it touches. */
  datatype Step =
    | AddType(kind: Kind)
      /**
       * For each field `f` of `fields`, in order,
       * `setBranchAlias(BranchName(TableBranch(table, f)), ColumnName(prefixes, TableKind(table), f))`.
       */
    | AliasFrom(table: Table, fields: seq<Field>)
      /** `Define(column, AssignMasses, {Rec() + "pid"})` */
    | DefineMasses(column: string)
      /** `Define(Rec() + "n", size of source)` */
    | DefineRecCount(source: string)
      /** `Define(Truth() + "n", count of MC_Lund_type == 1)` */
    | DefineTruthCount
    | CountParticles(kind: Kind)
    | RedefineFundamentalAliases
    | DefineForAllTypes(quantity: string)
    | Resolution(quantity: string)
    | ResolutionFraction(quantity: string)

  /** A reaction after a configuration call, and the steps the call made. */
  datatype Configured = Configured(reaction: Reaction, steps: seq<Step>)

  /** A freshly constructed reaction: neither forward-tagger based nor truth matched. */
  function NewReaction(prefixes: ColumnPrefixes): (r: Reaction)
    ensures r.prefixes == prefixes && !r.isFTBased && !IsTruthMatched(r)
  {
    Reaction(prefixes, false, false)
  }

  /** Switch the reconstructed particles to the forward-tagger bank. */
  function UseFTB(r: Reaction): (r': Reaction)
    ensures r'.isFTBased
    ensures r'.prefixes == r.prefixes && r'.truthMatched == r.truthMatched
  {
    r.(isFTBased := true)
  }

  function IsTruthMatched(r: Reaction): bool {
    r.truthMatched
  }

  // ---------------------------------------------------------------------
  // Aliasing calls.
  // ---------------------------------------------------------------------

  /** Alias the reconstructed particle bank, or the forward-tagger bank when so configured. */
  function AliasColumns(r: Reaction, isEnd: bool): (c: Configured)
    ensures c.reaction == r
    ensures |c.steps| > 0 && c.steps[0] == AddType(Rec) && c.steps[|c.steps| - 1] == CountParticles(Rec)
    ensures r.isFTBased <==> DefineRecCount("RECFT_Particle_px") in c.steps
  {
    if r.isFTBased then AliasColumnsFTB(r, true)
    else Configured(r, [
      AddType(Rec),
      AliasFrom(ParticleTable, MomentumFields),
      DefineMasses("REC_Particle_m"),
      AliasFrom(ParticleTable, MassOnwardFields),
      CountParticles(Rec)])
  }

  /** Alias the forward-tagger based particle bank. */
  function AliasColumnsFTB(r: Reaction, isEnd: bool): (c: Configured)
    ensures c.reaction == r
    ensures |c.steps| > 0 && c.steps[0] == AddType(Rec) && c.steps[|c.steps| - 1] == CountParticles(Rec)
    ensures DefineMasses("RECFT_Particle_m") in c.steps && DefineMasses("REC_Particle_m") !in c.steps
  {
    Configured(r, [
      AddType(Rec),
      DefineRecCount("RECFT_Particle_px"),
      AliasFrom(ForwardTaggedTable, MomentumFields),
      DefineMasses("RECFT_Particle_m"),
      AliasFrom(ForwardTaggedTable, MassOnwardFields),
      CountParticles(Rec)])
  }

  /** Alias the generated (truth) particle bank. */
  function AliasColumnsMC(r: Reaction, isEnd: bool): (c: Configured)
    ensures c.reaction == r
    ensures |c.steps| > 0 && c.steps[0] == AddType(Truth) && c.steps[|c.steps| - 1] == DefineTruthCount
    ensures forall k :: 0 <= k < |c.steps| ==> c.steps[k] != AddType(Rec)
  {
    Configured(r, [
      AddType(Truth),
      AliasFrom(LundTable, TruthFieldOrder),
      DefineTruthCount])
  }

  /** Alias both banks and the reconstructed/truth match columns. */
  function AliasColumnsAndMC(r: Reaction, isEnd: bool): (c: Configured)
    ensures c.reaction == r
    ensures |c.steps| > 2 && c.steps[0] == AddType(Rec)
    ensures AddType(Truth) in c.steps
    ensures c.steps[|c.steps| - 1] == AliasFrom(GenMatchTruthTable, [MatchId, Qual])
  {
    var rec := AliasColumns(r, false);
    var mc := AliasColumnsMC(rec.reaction, false);
    Configured(mc.reaction, rec.steps + mc.steps + GenMatchSteps)
  }

  /** The aliases of the generator-match bank: one reconstructed and two truth columns. */
  const GenMatchSteps: seq<Step> :=
    [AliasFrom(GenMatchRecTable, [MatchId]), AliasFrom(GenMatchTruthTable, [MatchId, Qual])]

  /**
   * Alias both banks and switch to truth-matched mode; the fundamental
   * columns are redefined into truth order only when this is the last
   * aliasing call (`isEnd`).
   */
  function AliasColumnsAndMatchWithMC(r: Reaction, isEnd: bool): (c: Configured)
    ensures IsTruthMatched(c.reaction)
    ensures c.reaction.prefixes == r.prefixes && c.reaction.isFTBased == r.isFTBased
    ensures |c.steps| > 0 && (c.steps[|c.steps| - 1] == RedefineFundamentalAliases <==> isEnd)
  {
    var both := AliasColumnsAndMC(r, false);
    Configured(both.reaction.(truthMatched := true),
               both.steps + (if isEnd then [RedefineFundamentalAliases] else []))
  }

  /** Spherical momentum components for every data type, and their resolutions when truth matched. */
  function PostParticles(r: Reaction): (c: Configured)
    ensures c.reaction == r
    ensures |c.steps| == if IsTruthMatched(r) then 6 else 3
    ensures forall k :: 0 <= k < 3 ==> c.steps[k].DefineForAllTypes?
  {
    Configured(r, AddAdditionalComponents() +
      if IsTruthMatched(r)
      then [ResolutionFraction("pmag"), Resolution("theta"), Resolution("phi")]
      else [])
  }

  function AddAdditionalComponents(): seq<Step> {
    [DefineForAllTypes("phi"), DefineForAllTypes("theta"), DefineForAllTypes("pmag")]
  }

  // ---------------------------------------------------------------------
  // Reference description of the alias tables.
  // ---------------------------------------------------------------------

  /** The fundamental reconstructed particle columns. */
  const RecFields: set<Field> :=
    {Px, Py, Pz, Pid, M, Status, Vt, Vx, Vy, Vz, Beta, Chi2pid}

  /** The columns aliased before the masses are defined: momentum and particle id. */
  const MomentumFields: seq<Field> := [Px, Py, Pz, Pid]

  /** The columns aliased from the mass onwards. */
  const MassOnwardFields: seq<Field> := [M, Status, Vt, Vx, Vy, Vz, Beta, Chi2pid]

  /** The fundamental reconstructed columns in the order they are aliased. */
  const RecFieldOrder: seq<Field> := MomentumFields + MassOnwardFields

  /** The generated particle columns. */
  const TruthFieldOrder: seq<Field> := [Px, Py, Pz, Pid, M]

  /** The vertex columns, which the forward-tagger bank does not replace. */
  const VertexFields: set<Field> := {Vx, Vy, Vz}

  /** The bank a reconstructed field is read from. */
  function ParticleBank(ftb: bool, field: Field): string {
    if ftb && field !in VertexFields then "RECFT_Particle" else "REC_Particle"
  }

  /** The table the reconstructed particles are aliased from. */
  function RecTable(ftb: bool): Table {
    if ftb then ForwardTaggedTable else ParticleTable
  }

  /** The fields the steps alias from table `t`, in order. */
  function AliasedFields(steps: seq<Step>, t: Table): (fields: seq<Field>)
    ensures steps == [] ==> fields == []
  {
    if |steps| == 0 then []
    else
      var here := if steps[0].AliasFrom? && steps[0].table == t then steps[0].fields else [];
      here + AliasedFields(steps[1..], t)
  }

  /**
   * The reconstructed tables: every fundamental field has a branch, named
   * after the field, in the forward-tagger bank except for the vertex,
   * which always comes from the standard bank; no other field has one.
   */
  lemma RecTableBranches(ftb: bool, f: Field)
    ensures TableBranch(RecTable(ftb), f)
         == if f in RecFields then Some(Branch(ParticleBank(ftb, f), FieldName(f))) else None
  {
  }

  /** The generated table: momentum and pid branches by name, and the mass from "mass". */
  lemma LundTableBranches(f: Field)
    ensures TableBranch(LundTable, f)
         == if f in TruthFieldOrder then Some(Branch("MC_Lund", if f == M then "mass" else FieldName(f))) else None
  {
  }

  /** The fundamental columns are each aliased once: the order lists every one of them, without repeats. */
  lemma RecFieldOrderIsRecFields()
    ensures forall i, j :: 0 <= i < j < |RecFieldOrder| ==> RecFieldOrder[i] != RecFieldOrder[j]
    ensures forall f :: f in RecFields <==> f in RecFieldOrder
  {
  }

  /** The fields aliased by a concatenation are those of its parts, in order. */
  lemma {:induction false} AliasedFieldsConcat(a: seq<Step>, b: seq<Step>, t: Table)
    ensures AliasedFields(a + b, t) == AliasedFields(a, t) + AliasedFields(b, t)
    decreases |a|
  {
    if |a| > 0 {
      assert (a + b)[0] == a[0];
      assert (a + b)[1..] == a[1..] + b;
      AliasedFieldsConcat(a[1..], b, t);
      var here := if a[0].AliasFrom? && a[0].table == t then a[0].fields else [];
      assert AliasedFields(a + b, t) == here + AliasedFields(a[1..] + b, t);
      assert here + (AliasedFields(a[1..], t) + AliasedFields(b, t))
          == (here + AliasedFields(a[1..], t)) + AliasedFields(b, t);
    } else {
      assert a + b == b;
    }
  }

  /**
   * `AliasColumns` aliases every fundamental reconstructed column once, all
   * from the table the forward-tagger flag selects, and nothing else; it
   * leaves the reaction unchanged.
   */
  lemma AliasColumnsTable(r: Reaction, isEnd: bool, t: Table)
    ensures AliasedFields(AliasColumns(r, isEnd).steps, t)
         == if t == RecTable(r.isFTBased) then RecFieldOrder else []
    ensures AliasColumns(r, isEnd).reaction == r
  {
    if r.isFTBased {
      ForwardTaggedAliasing(r, true, t);
    } else {
      StandardAliasing(r, isEnd, t);
    }
  }

  /** The standard aliasing takes the fundamental columns from REC_Particle. */
  lemma StandardAliasing(r: Reaction, isEnd: bool, t: Table)
    requires !r.isFTBased
    ensures AliasedFields(AliasColumns(r, isEnd).steps, t) == if t == ParticleTable then RecFieldOrder else []
  {
    var l := AliasColumns(r, isEnd).steps;
    var x := if t == ParticleTable then MomentumFields else [];
    var y := if t == ParticleTable then MassOnwardFields else [];
    // Each assertion unrolls AliasedFields by one step, from the empty tail back to the
    // whole list, so the solver never has to unfold the literal step list itself.
    assert l[1..][1..][1..][1..][1..] == [];
    assert AliasedFields(l[1..][1..][1..][1..], t) == [];
    assert AliasedFields(l[1..][1..][1..], t) == y;
    assert AliasedFields(l[1..][1..], t) == y;
    assert AliasedFields(l[1..], t) == x + y;
  }

  /** The forward-tagger aliasing takes the fundamental columns from its own table. */
  lemma ForwardTaggedAliasing(r: Reaction, isEnd: bool, t: Table)
    ensures AliasedFields(AliasColumnsFTB(r, isEnd).steps, t) == if t == ForwardTaggedTable then RecFieldOrder else []
  {
    var l := AliasColumnsFTB(r, isEnd).steps;
    var x := if t == ForwardTaggedTable then MomentumFields else [];
    var y := if t == ForwardTaggedTable then MassOnwardFields else [];
    // Each assertion unrolls AliasedFields by one step, from the empty tail back to the
    // whole list, so the solver never has to unfold the literal step list itself.
    assert l[1..][1..][1..][1..][1..][1..] == [];
    assert AliasedFields(l[1..][1..][1..][1..][1..], t) == [];
    assert AliasedFields(l[1..][1..][1..][1..], t) == y;
    assert AliasedFields(l[1..][1..][1..], t) == y;
    assert AliasedFields(l[1..][1..], t) == x + y;
    assert AliasedFields(l[1..], t) == x + y;
  }

  /** With `UseFTB`, `AliasColumns` is `AliasColumnsFTB` with its default argument. */
  lemma UseFTBDelegates(r: Reaction, isEnd: bool)
    ensures AliasColumns(UseFTB(r), isEnd) == AliasColumnsFTB(UseFTB(r), true)
    ensures AliasColumns(UseFTB(r), isEnd).steps != AliasColumns(r.(isFTBased := false), isEnd).steps
  {
    AliasColumnsTable(UseFTB(r), isEnd, ForwardTaggedTable);
    AliasColumnsTable(r.(isFTBased := false), isEnd, ForwardTaggedTable);
  }

  /** `AliasColumnsMC` aliases the five generated columns from the generated bank and nothing else. */
  lemma AliasColumnsMCTable(r: Reaction, isEnd: bool, t: Table)
    ensures AliasedFields(AliasColumnsMC(r, isEnd).steps, t)
         == if t == LundTable then TruthFieldOrder else []
    ensures AliasColumnsMC(r, isEnd).reaction == r
  {
    var l := AliasColumnsMC(r, isEnd).steps;
    // Each assertion unrolls AliasedFields by one step, from the empty tail back.
    assert l[1..][1..][1..] == [];
    assert AliasedFields(l[1..][1..], t) == [];
  }

  /**
   * `AliasColumnsAndMC` aliases both particle tables and the three match
   * columns, each once, and leaves the reaction unchanged.
   */
  lemma {:induction false} AliasColumnsAndMCTable(r: Reaction, isEnd: bool, t: Table)
    ensures AliasedFields(AliasColumnsAndMC(r, isEnd).steps, t)
         == if t == RecTable(r.isFTBased) then RecFieldOrder
            else if t == LundTable then TruthFieldOrder
            else if t == GenMatchRecTable then [MatchId]
            else if t == GenMatchTruthTable then [MatchId, Qual]
            else []
    ensures AliasColumnsAndMC(r, isEnd).reaction == r
  {
    var rec := AliasColumns(r, false).steps;
    var mc := AliasColumnsMC(r, false).steps;
    assert AliasColumnsAndMC(r, isEnd).steps == rec + mc + GenMatchSteps;
    AliasedFieldsOfThree(rec, mc, GenMatchSteps, t);
    AliasColumnsTable(r, false, t);
    AliasColumnsMCTable(r, false, t);
    GenMatchAliasing(t);
    CombineTables(AliasedFields(rec, t), AliasedFields(mc, t), AliasedFields(GenMatchSteps, t), t, r.isFTBased);
  }

  /** The per-table fields of the three calls, put together. */
  lemma CombineTables(x: seq<Field>, y: seq<Field>, z: seq<Field>, t: Table, ftb: bool)
    requires x == if t == RecTable(ftb) then RecFieldOrder else []
    requires y == if t == LundTable then TruthFieldOrder else []
    requires z == if t == GenMatchRecTable then [MatchId] else if t == GenMatchTruthTable then [MatchId, Qual] else []
    ensures x + y + z
         == if t == RecTable(ftb) then RecFieldOrder
            else if t == LundTable then TruthFieldOrder
            else if t == GenMatchRecTable then [MatchId]
            else if t == GenMatchTruthTable then [MatchId, Qual]
            else []
  {
  }

  /** The fields aliased by three consecutive calls. */
  lemma AliasedFieldsOfThree(a: seq<Step>, b: seq<Step>, c: seq<Step>, t: Table)
    ensures AliasedFields(a + b + c, t) == AliasedFields(a, t) + AliasedFields(b, t) + AliasedFields(c, t)
  {
    AliasedFieldsConcat(a + b, c, t);
    AliasedFieldsConcat(a, b, t);
  }

  /** The generator-match bank feeds the two match-id columns and the truth quality. */
  lemma GenMatchAliasing(t: Table)
    ensures AliasedFields(GenMatchSteps, t)
         == if t == GenMatchRecTable then [MatchId] else if t == GenMatchTruthTable then [MatchId, Qual] else []
  {
    // Each assertion unrolls AliasedFields by one step, from the empty tail back.
    assert GenMatchSteps[1..][1..] == [];
    assert AliasedFields(GenMatchSteps[1..], t) == if t == GenMatchTruthTable then [MatchId, Qual] else [];
  }

  /**
   * Every column the combined aliasing call names is fed by a branch of
   * its table.
   */
  lemma AliasedFieldsHaveBranches(r: Reaction, isEnd: bool, t: Table, f: Field)
    requires f in AliasedFields(AliasColumnsAndMC(r, isEnd).steps, t)
    ensures TableBranch(t, f).Some?
  {
    AliasColumnsAndMCTable(r, isEnd, t);
    if t == RecTable(r.isFTBased) {
      RecFieldOrderIsRecFields();
      RecTableBranches(r.isFTBased, f);
    } else if t == LundTable {
      LundTableBranches(f);
    }
  }

  // ---------------------------------------------------------------------
  // Flags.
  // ---------------------------------------------------------------------

  /**
   * Matching with the generated particles switches truth matching on and
   * keeps the rest of the reaction; its steps are those of the combined
   * aliasing call, followed by the redefinition into truth order exactly
   * when `isEnd`.
   */
  lemma MatchWithMCLifecycle(r: Reaction, isEnd: bool)
    ensures var c := AliasColumnsAndMatchWithMC(r, isEnd);
      && IsTruthMatched(c.reaction)
      && c.reaction.prefixes == r.prefixes && c.reaction.isFTBased == r.isFTBased
      && c.steps[..|AliasColumnsAndMC(r, false).steps|] == AliasColumnsAndMC(r, false).steps
      && (RedefineFundamentalAliases in c.steps <==> isEnd)
  {
    AliasColumnsAndMCTable(r, false, ParticleTable);
    AliasingNeverRedefines(r);
  }

  /** The combined aliasing call never redefines the fundamental columns. */
  lemma AliasingNeverRedefines(r: Reaction)
    ensures RedefineFundamentalAliases !in AliasColumnsAndMC(r, false).steps
  {
    var rec := AliasColumns(r, false);
    var mc := AliasColumnsMC(rec.reaction, false);
    assert RedefineFundamentalAliases !in rec.steps;
    assert RedefineFundamentalAliases !in mc.steps;
    assert RedefineFundamentalAliases !in GenMatchSteps;
  }

  /** Before matching, none of the aliasing calls turns truth matching on. */
  lemma AliasingKeepsTruthMatching(r: Reaction, isEnd: bool)
    ensures IsTruthMatched(AliasColumns(r, isEnd).reaction) == IsTruthMatched(r)
    ensures IsTruthMatched(AliasColumnsMC(r, isEnd).reaction) == IsTruthMatched(r)
    ensures IsTruthMatched(AliasColumnsAndMC(r, isEnd).reaction) == IsTruthMatched(r)
  {
    AliasColumnsTable(r, isEnd, ParticleTable);
    AliasColumnsAndMCTable(r, isEnd, ParticleTable);
  }

  /** A new reaction is not truth matched until it is matched with the generated particles. */
  lemma NewReactionMatching(p: ColumnPrefixes, isEnd: bool)
    ensures !IsTruthMatched(AliasColumnsAndMC(NewReaction(p), isEnd).reaction)
    ensures IsTruthMatched(AliasColumnsAndMatchWithMC(NewReaction(p), isEnd).reaction)
  {
    AliasingKeepsTruthMatching(NewReaction(p), isEnd);
  }

  /**
   * `PostParticles` always adds phi, theta and pmag for every data type,
   * and adds their resolutions if and only if the reaction is truth matched.
   */
  lemma PostParticlesResolutions(r: Reaction)
    ensures var steps := PostParticles(r).steps;
      && steps[..3] == [DefineForAllTypes("phi"), DefineForAllTypes("theta"), DefineForAllTypes("pmag")]
      && (ResolutionFraction("pmag") in steps <==> IsTruthMatched(r))
      && (Resolution("theta") in steps <==> IsTruthMatched(r))
      && (Resolution("phi") in steps <==> IsTruthMatched(r))
    ensures PostParticles(r).reaction == r
  {
    var steps := PostParticles(r).steps;
    if !IsTruthMatched(r) {
      assert steps == AddAdditionalComponents();
    }
  }

  // ---------------------------------------------------------------------
  // Column-name dispatch.
  // ---------------------------------------------------------------------

  /** A request to redefine `column` through `Reorder` with the given input columns. */
  datatype Redefinition = ReorderViaAlias(column: string, inputs: seq<string>)

  /** The columns `Reorder` reads besides the column itself. */
  function ReorderInputs(p: ColumnPrefixes, name: string): seq<string> {
    [name, p.rec + "match_id", p.truth + "match_id", p.truth + "n"]
  }

  /**
   * Whether, and how, the column `name` is reordered into truth order: the
   * two match-id columns never are, any other column whose name contains
   * the reconstructed prefix is, and all remaining columns are left alone.
   */
  function RedefineFundamental(p: ColumnPrefixes, name: string): (r: Option<Redefinition>)
    ensures r.Some? <==>
      Contains(name, p.rec) && !Contains(name, p.rec + "match_id") && !Contains(name, p.truth + "match_id")
    ensures r.Some? ==> r.value.column == name && r.value.inputs == ReorderInputs(p, name)
  {
    if Contains(name, p.rec + "match_id") then None
    else if Contains(name, p.truth + "match_id") then None
    else if Contains(name, p.rec) then Some(ReorderViaAlias(name, ReorderInputs(p, name)))
    else None
  }

  /** The reconstructed match-id column is never reordered: it defines the order. */
  lemma RecMatchIdNotReordered(p: ColumnPrefixes)
    ensures RedefineFundamental(p, ColumnName(p, Rec, MatchId)) == None
  {
    ContainsSelf(p.rec + "match_id");
  }

  /** Neither is the truth match-id column. */
  lemma TruthMatchIdNotReordered(p: ColumnPrefixes)
    ensures RedefineFundamental(p, ColumnName(p, Truth, MatchId)) == None
  {
    ContainsSelf(p.truth + "match_id");
  }

  /**
   * Every other reconstructed fundamental column is reordered through
   * `Reorder` with the match columns and the truth count as inputs,
   * provided the truth prefix is no shorter than the reconstructed one
   * (as with "rec_" and "tru_").
   */
  lemma FundamentalsReordered(p: ColumnPrefixes, f: Field)
    requires f != MatchId
    requires |p.truth| >= |p.rec|
    ensures RedefineFundamental(p, ColumnName(p, Rec, f))
         == Some(ReorderViaAlias(ColumnName(p, Rec, f), ReorderInputs(p, ColumnName(p, Rec, f))))
  {
    var name := ColumnName(p, Rec, f);
    assert |FieldName(f)| < 8;
    ContainsPrefix(p.rec, FieldName(f));
    NotContainsLonger(name, p.rec + "match_id");
    NotContainsLonger(name, p.truth + "match_id");
  }

  /**
   * With the prefixes the analysis macros use, a reconstructed fundamental
   * column is reordered exactly when it is not the match id.
   */
  lemma StandardPrefixesReordered(doNotWrite: string, f: Field)
    ensures var p := ColumnPrefixes(StandardRec, StandardTruth, doNotWrite);
      RedefineFundamental(p, ColumnName(p, Rec, f)).Some? <==> f != MatchId
  {
    var p := ColumnPrefixes(StandardRec, StandardTruth, doNotWrite);
    if f == MatchId {
      RecMatchIdNotReordered(p);
    } else {
      FundamentalsReordered(p, f);
    }
  }
}
