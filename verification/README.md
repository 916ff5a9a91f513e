# CLAS12 reaction configuration and detector attribution, modelled in Dafny

This project models the CLAS12 layer of the `rad` analysis framework, which is
built on ROOT's RDataFrame. It has four parts:

- **Alias tables.** `CLAS12Reaction` chooses which HIPO bank branches become
  the reconstructed (`Rec()`) and generated (`Truth()`) particle columns. The
  forward-tagger flag selects the reconstructed bank. `AliasColumnsAndMatchWithMC`
  sets the truth-matched flag and, when `IsEnd`, calls
  `RedefineFundamentalAliases`. The flag itself gates the resolution columns
  and the rearrangement of detector reverse maps.
- **Truth-order dispatch.** `RedefineFundamental` decides from a column's name
  whether the column is reordered into truth order.
- **Detector association.** `CLAS12DetectorReaction::AssociateDetector`
  defines one column per particle, bank item and sub-detector. It names each
  column through the `DetId2Name` table. When the reaction is truth matched,
  it also rearranges the detector's reverse map.
- **Value attribution and masses.** `ParticleDetInfo` and `ParticleSubDetInfo`
  pick a particle's hit value. `PdgToMass` and `AssignMasses` give masses from
  PDG codes.

Configuration calls are pure functions. Each returns the new reaction state
and the steps it performed (`AddType`, `AliasFrom`, `DefineMasses`, …). A step
is described only by the column names and inputs it touches.

Modules:

| file | module | what it holds |
|---|---|---|
| `options.dfy` | `Options` | `Option` |
| `cpp_types.dfy` | `CppTypes` | `int`, `short` and `size_t` widths and the implicit conversions the headers rely on |
| `strings.dfy` | `Strings` | `std::string::find(…) != npos` as `Contains` |
| `clas12_defs.dfy` | `Clas12Defs` | detector, region and layer ids; the `DetId2Name` table |
| `clas12_utilities.dfy` | `Clas12Utilities` | `PdgToMass`, `AssignMasses` |
| `detector_info.dfy` | `DetectorInfo` | `ParticleDetInfo` and `ParticleSubDetInfo`, both as written and corrected |
| `clas12_reaction.dfy` | `Clas12Reaction` | flags, alias tables, aliasing calls, `PostParticles`, `RedefineFundamental` |
| `detector_reaction.dfy` | `DetectorReaction` | `AssociateDetector` |

Modelling choices:

- `Rec()`, `Truth()` and `DoNotWriteTag()` are defined outside these headers,
  so they are a `ColumnPrefixes` value held by the reaction. The analysis
  macros show "rec_" and "tru_" (`StandardRec`, `StandardTruth`).
- Where C++ integer width matters, it is written out:
  - a negative `int` compared with `size()` becomes a huge `size_t` (`SizeT`);
  - an `int` sub-detector id passed to `DetName(short)` is truncated (`ToShort`);
  - an RVec holds at most 2^31-1 elements (`IsRVec`).
- `std::map::operator[]` inserts an empty name for an unknown id. `DetName`
  therefore returns the name together with the updated table.
- The functions over `RVec<T>` take a `zero: T` for the C++ `return 0`.

## Model

| member | source | states |
|---|---|---|
| CppTypes.SizeT | include/CLAS12DetectorReaction.h:29 | an `int` index used against `size()` keeps its value when non-negative and becomes a value above every RVec size when negative, congruent modulo 2^64 |
| CppTypes.ToShort | include/CLAS12DetectorReaction.h:99 | the `short` an `int` sub-detector id becomes is congruent to it modulo 2^16 and equal to it when it fits |
| Strings.ContainsPrefix | include/CLAS12Reaction.h:206-208 | a name starting with a string contains it, so `find` succeeds |
| Strings.NotContainsLonger | include/CLAS12Reaction.h:206-208 | `find` of a longer string always fails |
| Clas12Defs.DetName | include/clas12defs.h:60 | returns the stored name; an unregistered id yields "" and is inserted with that name; no other entry changes |
| Clas12Defs.DetNameIdempotent | include/clas12defs.h:60 | a repeated lookup returns the same name and leaves the table as the first lookup left it |
| Clas12Defs.DetNameKeepsNames | include/clas12defs.h:60 | a lookup never changes the name any id is given |
| Clas12Defs.Register | include/clas12defs.h:40-59 | the `_map[id] = name` assignments: every assigned id gets an entry, no entry is removed, each id holds the name of its last assignment, and an id no assignment touches keeps its name; `RegisterAssigns` states the exact key set for distinct ids |
| Clas12Defs.NewDetId2Name | include/clas12defs.h:40-59 | the constructed table has an entry for every registered id, and BAND is named "BAND"; `RegisteredDetectorNames` states every name and that no other id is present |
| Clas12Defs.RegisterKeys | include/clas12defs.h:40-59 | any list of assignments adds exactly the ids it assigns to the table's keys, repeats included |
| Clas12Defs.RegisterAssigns | include/clas12defs.h:40-59 | the constructor's assignments of distinct ids add exactly those ids, each with its own name, and keep other entries |
| Clas12Defs.RegisterCount | include/clas12defs.h:40-59 | distinct assignments register as many ids as there are assignments |
| Clas12Defs.RegisteredDetectorNames | include/clas12defs.h:40-59 | after construction each of the 18 detectors is named as registered, and the table holds those 18 ids and nothing else |
| Clas12Defs.ForwardTaggerAndCalorimeterNames | include/clas12defs.h:15-59 | FTCAL is named "FTCAL"; EC shares ECAL's id and is named "ECAL" |
| Clas12Defs.RegistrationsDistinct | include/clas12defs.h:40-59 | the constructor assigns no id twice |
| Clas12Defs.UnregisteredDetName | include/clas12defs.h:60 | on a new table, an unregistered id is named "" and added with an empty name |
| Clas12Defs.LayerOffsets | include/clas12defs.h:72-108 | CND layers sit at CNDOFF+1..3, and the BAND layers and veto at BANDOFF+1..6 |
| Clas12Utilities.PdgToMass | include/CLAS12Utilities.h:9-41 | the mass is never negative, and it is non-zero exactly for the ten listed massive codes |
| Clas12Utilities.MassChargeSymmetric | include/CLAS12Utilities.h:12-27 | e, pi, K and p get the same non-zero mass for both charge signs |
| Clas12Utilities.NeutronOnlyPositive | include/CLAS12Utilities.h:28-29 | the neutron gets its mass, and the antineutron, which is not listed, gets 0 |
| Clas12Utilities.MasslessCodes | include/CLAS12Utilities.h:30-37 | the photon, UndefPDG and every unlisted code get 0, and code 45 gets the deuteron mass |
| Clas12Utilities.AssignMasses | include/CLAS12Utilities.h:44-51 | one mass per code, in order, each `PdgToMass` of its code |
| Clas12Utilities.AssignMassesCommutesWithReindex | include/CLAS12Utilities.h:44-51 | reordering or selecting the codes reorders the masses the same way |
| Clas12Utilities.AssignMassesConcat | include/CLAS12Utilities.h:44-51 | the masses of concatenated code lists are the concatenated masses |
| DetectorInfo.ParticleDetInfoAsWritten | include/CLAS12DetectorReaction.h:26-32 | as written: zero for a negative index, out of range at index == size(), the first hit's value when it indexes the values, and out of range only at size() or when reading a particle's first hit |
| DetectorInfo.ScanAsWritten | include/CLAS12DetectorReaction.h:44-48 | the loop as written: with every hit in range it yields a value, and a non-zero value is the value of one of the hits |
| DetectorInfo.ParticleSubDetInfoAsWritten | include/CLAS12DetectorReaction.h:38-49 | as written: zero for a negative index, out of range at index == size(), a value whenever the particle's hits are in range, and a non-zero value only for a particle of the map |
| DetectorInfo.GuardAdmitsEnd | include/CLAS12DetectorReaction.h:29-30 | as written, index == size() passes the guard, and both functions read past the end of the reverse map |
| DetectorInfo.ParticleDetInfo | include/CLAS12DetectorReaction.h:26-32 | with the corrected guard: zero when the index is not a particle (negative sentinel included) or has no hit, else the value of its first hit |
| DetectorInfo.FirstMatch | include/CLAS12DetectorReaction.h:44-47 | the position of the first hit in the requested detector, or the length when there is none |
| DetectorInfo.ParticleSubDetInfo | include/CLAS12DetectorReaction.h:38-49 | with the corrected guard: zero for a non-particle or when no hit is in the detector, else the value of the first hit in that detector; a non-zero result is always such a hit value |
| DetectorInfo.FirstMatchUnique | include/CLAS12DetectorReaction.h:44-47 | the first matching position is unique |
| DetectorInfo.FirstMatchIgnoresLater | include/CLAS12DetectorReaction.h:44-47 | hits after the first match do not change it |
| DetectorInfo.LaterHitsIgnored | include/CLAS12DetectorReaction.h:44-47 | appending hits to a particle that already has a matching hit does not change its value |
| DetectorInfo.SubDetAgreesWithFirstHit | include/CLAS12DetectorReaction.h:26-49 | when the first hit is in the requested detector, both functions give the same value |
| DetectorInfo.SentinelIndexGivesZero | include/CLAS12DetectorReaction.h:29-41 | as written, a negative index is caught by the unsigned comparison and gives zero |
| DetectorInfo.ScanAsWrittenIsFirstMatch | include/CLAS12DetectorReaction.h:44-48 | the loop as written returns the value at the first match, or zero |
| DetectorInfo.ScanAsWrittenStopsAtFirstMatch | include/CLAS12DetectorReaction.h:44-46 | the loop as written returns the first match's value whenever the hits up to it are in range, whatever the later hits are |
| DetectorInfo.HitAfterMatchNotReadExample | include/CLAS12DetectorReaction.h:38-49 | a hit after the first match that indexes nothing does not stop the code as written returning the match's value |
| DetectorInfo.AsWrittenAgreesOffTheEnd | include/CLAS12DetectorReaction.h:26-49 | as written and corrected agree on every index except size(), and size() is exactly where the code as written reads out of range |
| DetectorInfo.FirstHitWinsExample | include/CLAS12DetectorReaction.h:44-47 | with two hits in detector 5, the first one's value (10) is returned |
| Clas12Reaction.NewReaction | include/CLAS12Reaction.h:55-56 | a new reaction is neither forward-tagger based nor truth matched |
| Clas12Reaction.UseFTB | include/CLAS12Reaction.h:49 | sets the forward-tagger flag and nothing else |
| Clas12Reaction.AliasColumns | include/CLAS12Reaction.h:65-92 | the reaction is unchanged; the call adds the `Rec()` type first and counts particles last, and defines the forward-tagger particle count exactly when forward-tagger based; the aliased fields are stated by `AliasColumnsTable` |
| Clas12Reaction.AliasColumnsFTB | include/CLAS12Reaction.h:96-130 | the reaction is unchanged; the call adds the `Rec()` type first and counts particles last, and defines the masses in RECFT_Particle_m, not REC_Particle_m; the aliased fields are stated by `ForwardTaggedAliasing` |
| Clas12Reaction.AliasColumnsMC | include/CLAS12Reaction.h:135-145 | the reaction is unchanged; the call adds the `Truth()` type first, defines the truth count last, and never adds the `Rec()` type; the aliased fields are stated by `AliasColumnsMCTable` |
| Clas12Reaction.AliasColumnsAndMC | include/CLAS12Reaction.h:149-157 | the reaction is unchanged; the call starts with the `Rec()` type, adds the `Truth()` type, and ends with the truth match_id and qual aliases; the tables are stated by `AliasColumnsAndMCTable` |
| Clas12Reaction.AliasColumnsAndMatchWithMC | include/CLAS12Reaction.h:163-172 | the reaction becomes truth matched and keeps its prefixes and forward-tagger flag; the last step is `RedefineFundamentalAliases` if and only if `IsEnd` |
| Clas12Reaction.PostParticles | include/CLAS12Reaction.h:177-198 | the reaction is unchanged; three components are defined for all types first, and three more steps follow only when truth matched; `PostParticlesResolutions` states which components and resolutions they are |
| Clas12Reaction.RecTableBranches | include/CLAS12Reaction.h:70-123 | each of the 12 fundamental fields has a branch named after it: in REC_Particle, or in RECFT_Particle with the forward tagger except for vx/vy/vz, which stay in REC_Particle; other fields have none |
| Clas12Reaction.LundTableBranches | include/CLAS12Reaction.h:138-142 | the truth px, py, pz and pid come from MC_Lund branches of the same name, the mass from "MC_Lund_mass", and nothing else is aliased |
| Clas12Reaction.RecFieldOrderIsRecFields | include/CLAS12Reaction.h:70-85 | the alias order lists every fundamental field once |
| Clas12Reaction.AliasedFieldsConcat | include/CLAS12Reaction.h:149-157 | the fields aliased by consecutive calls are those of each call, in order |
| Clas12Reaction.StandardAliasing | include/CLAS12Reaction.h:65-92 | without the forward tagger, the 12 fundamental fields are aliased from REC_Particle in the order of the code, and no other table is used |
| Clas12Reaction.ForwardTaggedAliasing | include/CLAS12Reaction.h:96-130 | with the forward tagger, the 12 fundamental fields are aliased from the forward-tagged table in the same order, and no other table is used |
| Clas12Reaction.AliasColumnsTable | include/CLAS12Reaction.h:65-92 | `AliasColumns` aliases the 12 fundamental fields once each, from the table the forward-tagger flag selects, and nothing else; the reaction is unchanged |
| Clas12Reaction.UseFTBDelegates | include/CLAS12Reaction.h:49-66 | after `UseFTB`, `AliasColumns` is `AliasColumnsFTB()` and differs from the standard aliasing |
| Clas12Reaction.AliasColumnsMCTable | include/CLAS12Reaction.h:135-145 | `AliasColumnsMC` aliases the five generated columns from MC_Lund and nothing else |
| Clas12Reaction.AliasColumnsAndMCTable | include/CLAS12Reaction.h:149-157 | both particle tables plus the rec match_id, truth match_id and truth qual columns from MC_GenMatch, each once; the reaction is unchanged |
| Clas12Reaction.AliasedFieldsOfThree | include/CLAS12Reaction.h:149-157 | the fields aliased by three consecutive calls are those of each call, in order |
| Clas12Reaction.GenMatchAliasing | include/CLAS12Reaction.h:153-156 | MC_GenMatch feeds the reconstructed match_id and the truth match_id and qual, and no other table |
| Clas12Reaction.AliasedFieldsHaveBranches | include/CLAS12Reaction.h:149-157 | every column the combined call aliases has a source branch |
| Clas12Reaction.MatchWithMCLifecycle | include/CLAS12Reaction.h:163-172 | matching sets truth matching, keeps the other flag and the prefixes, starts with the combined aliasing, and redefines into truth order exactly when `IsEnd` |
| Clas12Reaction.AliasingNeverRedefines | include/CLAS12Reaction.h:149-157 | the combined aliasing call does not redefine the fundamental columns; only matching with `IsEnd` does |
| Clas12Reaction.AliasingKeepsTruthMatching | include/CLAS12Reaction.h:65-157 | none of the plain aliasing calls changes truth matching |
| Clas12Reaction.NewReactionMatching | include/CLAS12Reaction.h:149-172 | a new reaction is not truth matched after `AliasColumnsAndMC`, and is after `AliasColumnsAndMatchWithMC` |
| Clas12Reaction.PostParticlesResolutions | include/CLAS12Reaction.h:177-198 | phi, theta and pmag are always added; their resolutions are added if and only if the reaction is truth matched |
| Clas12Reaction.RedefineFundamental | include/CLAS12Reaction.h:203-216 | a column is reordered if and only if its name contains `Rec()` and contains neither match-id column name; it is then reordered via `Reorder` over the name, both match ids and `Truth()+"n"` |
| Clas12Reaction.RecMatchIdNotReordered | include/CLAS12Reaction.h:209 | the reconstructed match_id column is never reordered |
| Clas12Reaction.TruthMatchIdNotReordered | include/CLAS12Reaction.h:210 | the truth match_id column is never reordered |
| Clas12Reaction.FundamentalsReordered | include/CLAS12Reaction.h:212-213 | every other reconstructed fundamental column is reordered, provided the truth prefix is not shorter than the reconstructed one |
| Clas12Reaction.StandardPrefixesReordered | include/CLAS12Reaction.h:203-216 | with the prefixes "rec_" and "tru_", a reconstructed fundamental column is reordered if and only if it is not the match id |
| DetectorReaction.NewDetectorReaction | include/CLAS12DetectorReaction.h:59-111 | a new detector reaction starts from a new reaction and the 18 registered detector ids |
| DetectorReaction.ExtendsTrans | include/clas12defs.h:60 | extending the name table twice extends it by both sets of ids |
| DetectorReaction.DefineSubdets | include/CLAS12DetectorReaction.h:98-102 | one column per sub-detector |
| DetectorReaction.DefineItems | include/CLAS12DetectorReaction.h:89-104 | one column per item and sub-detector |
| DetectorReaction.DefineParticles | include/CLAS12DetectorReaction.h:88-105 | one column per particle, item and sub-detector |
| DetectorReaction.ShortIdsCons | include/CLAS12DetectorReaction.h:98-99 | the truncated ids of a list are those of its head and of its tail |
| DetectorReaction.SubdetsTable | include/CLAS12DetectorReaction.h:98-99 | the sub-detector loop adds exactly the truncated ids, with empty names for new ones, and renames nothing |
| DetectorReaction.SubdetsColumns | include/CLAS12DetectorReaction.h:98-100 | each sub-detector's column is named with the name the table held before the loop |
| DetectorReaction.ItemsTable | include/CLAS12DetectorReaction.h:89-104 | the item loop extends the table by the sub-detector ids when there is at least one item |
| DetectorReaction.ItemsColumns | include/CLAS12DetectorReaction.h:89-104 | the item loop lays out one sub-detector row per item, in order |
| DetectorReaction.SameNamesSameRows | include/CLAS12DetectorReaction.h:99 | tables that name every id the same give the same columns |
| DetectorReaction.ParticlesTable | include/CLAS12DetectorReaction.h:88-105 | the particle loop extends the table only when there is a particle and an item |
| DetectorReaction.ParticlesColumns | include/CLAS12DetectorReaction.h:88-105 | the particle loop lays out one item block per particle, in order |
| DetectorReaction.FlattenIndex | include/CLAS12DetectorReaction.h:88-105 | entry j of row i of a grid of width w is at flat position i*w+j |
| DetectorReaction.FlattenLength | include/CLAS12DetectorReaction.h:88-105 | a grid of rows of width w has rows*w entries |
| DetectorReaction.ParticleColumnAt | include/CLAS12DetectorReaction.h:88-102 | particle pi, item ii, sub-detector si is column (pi × number of items + ii) × number of sub-detectors + si |
| DetectorReaction.NestedIndex | include/CLAS12DetectorReaction.h:88-102 | the flat position of an entry of a row of a block |
| DetectorReaction.NamesUnchanged | include/clas12defs.h:60 | an extended table names every id as before |
| DetectorReaction.AssociateDetector | include/CLAS12DetectorReaction.h:67-108 | the base reaction is unchanged; the first column is the reverse map from "REC_"+det+"_pindex" and `Rec()+"n"`; there are one or two map columns, by truth matching, followed by one sub-detector column per particle, item and sub-detector |
| DetectorReaction.AssociateDetectorShape | include/CLAS12DetectorReaction.h:67-108 | the reverse map comes first (from "REC_"+det+"_pindex" and `Rec()+"n"`); it is rearranged by the rec match_id if and only if truth matched; then come the loop columns; the name table gains unknown ids only when some column is defined |
| DetectorReaction.AssociateDetectorColumnAt | include/CLAS12DetectorReaction.h:88-102 | each particle/item/sub-detector column sits at its loop position, named particle_name_item, and reads "REC_"+det+"_"+item, the detector column and the untruncated id |
| DetectorReaction.AssociateDetectorCount | include/CLAS12DetectorReaction.h:67-108 | the call defines 1 or 2 map columns plus one column per particle, item and sub-detector |
| DetectorReaction.RearrangeOnlyWhenTruthMatched | include/CLAS12DetectorReaction.h:84-86 | a rearrangement is defined if and only if the reaction is truth matched |
| DetectorReaction.NewDetectorReactionNames | include/clas12defs.h:40-59 | a new detector reaction names every registered detector, FTCAL included |
| DetectorReaction.ForwardTaggerExample | examples/ProcessDet_eppippim.C:105 | associating FTCAL with the scattered electron defines "scat_ele_FTCAL_energy" from "REC_ForwardTagger_energy" |
| DetectorReaction.ForwardTaggerEnergyColumn | include/CLAS12DetectorReaction.h:98-104 | when the table names FTCAL, the electron's FTCAL energy column is "scat_ele_FTCAL_energy", read from "REC_ForwardTagger_energy" and selected by "REC_ForwardTagger_detector" |

## Left out

- RDataFrame plumbing (`Define`, `Redefine`, `setBranchAlias`, JIT strings built with `Form`, `Snapshot`): only the column names and inputs of each call are recorded.
- The bodies of `ReverseIndexN`, `helpers::Reorder`, `helpers::Rearrange`, `helpers::Count`, `reaction::util::CountParticles`, `RedefineFundamentalAliases`, `Resolution`, `ResolutionFraction` and `DefineForAllTypes`: they are not in these headers. They appear only as recorded steps.
- The constructors' file handling (`RHipoDS`), the console printing in `AssociateDetector`, and the kinematics in the analysis macros: these are I/O or outside the core.
- Line 101 of CLAS12DetectorReaction.h repeats the `DetName` lookup for printing. The repeated lookup changes nothing (`DetNameIdempotent`), so it is not modelled separately.
- Clas12Utilities.PdgToMass: the masses are exact reals, not IEEE doubles.
- Clas12Reaction.RedefineFundamental: the template type `T` of the reordered column is not modelled.
- Clas12Reaction.FundamentalsReordered: stated only for truth prefixes at least as long as the reconstructed one. The truth match_id name cannot then occur inside a reconstructed column name.
- The prefix strings of `Rec()`, `Truth()` and `DoNotWriteTag()` are parameters, since these headers do not define them.
- `rad::indice::useNthOccurance`, histogramming, benchmarking and `ROOT::EnableImplicitMT`: these appear only in the analysis macros. They are particle selection, aggregation and concurrency, not part of this layer.
- DetectorInfo.ParticleDetInfo: requires the first hit of a particle to index the value column. The code reads it unchecked, and `ParticleDetInfoAsWritten` gives `OutOfRange` for such a read.
- DetectorInfo.ParticleSubDetInfo: requires every hit of the particle to index the detector and value columns. The loop at CLAS12DetectorReaction.h:44-46 returns at the first match, so it reads only the hits up to that match (`ScanAsWrittenStopsAtFirstMatch`). A later hit may lie outside the columns without harm (`HitAfterMatchNotReadExample`). The stronger requires is met in practice, because the hits come from the bank's own `pindex` column. A hit read before the first match that lies outside the columns is unchecked, and `ParticleSubDetInfoAsWritten` gives `OutOfRange` for it.
- DetectorReaction.AssociateDetector: the reverse map and its rearrangement are recorded as steps with their inputs. `ReverseIndexN` and `Rearrange` are not part of this model.
- At CLAS12DetectorReaction.h:29 and :41 an index equal to `size()` passes the guard. `ParticleDetInfoAsWritten` and `ParticleSubDetInfoAsWritten` give `OutOfRange` there. `ParticleDetInfo` and `ParticleSubDetInfo` use `>=` instead (see Findings).
- These headers contain no configuration-time check that a reconstructed column is read only after its reorder rule is registered, so none is modelled.
- DetectorReaction.AssociateDetector: column names can collide. Every unregistered sub-detector is named "", and EC and ECAL share an id and both give "ECAL". In the source, a second `Define` of an existing name fails inside RDataFrame. The model records both columns, and `AssociateDetectorCount` counts both.

## Findings

| source | as written | input that shows it | evidently intended | confidence | as-written member | corrected member |
|---|---|---|---|---|---|---|
| include/CLAS12DetectorReaction.h:29,41 | `if(index>indices.size()) return 0;` lets `index == indices.size()` through; `indices[index]` is then read one past the end | the function input `index == indices.size()`, e.g. index 0 and an empty reverse map; whether an event produces it depends on `ReverseIndexN` and `Rearrange`, whose bodies are not part of this model (the map is sized by `Rec()+"n"` at line 75) | `index >= indices.size()`, giving 0 for any index that is not a particle | high (not executed) | DetectorInfo.GuardAdmitsEnd | DetectorInfo.AsWrittenAgreesOffTheEnd |
