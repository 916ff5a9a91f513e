/** Mass assignment from particle-type (PDG) codes. */
module Clas12Utilities {
  import opened CppTypes
  import opened Clas12Defs

  /** The charge-symmetric codes the lookup lists for both signs. */
  const ChargeSymmetricCodes: set<int> := {11, 211, 321, 2212}

  /** The codes the lookup gives a non-zero mass (45 is CLAS12's deuteron code). */
  const MassiveCodes: set<int> :=
    {11, -11, 211, -211, 321, -321, 2212, -2212, 2112, 45}

  /**
   * Mass in GeV for a PDG code; the photon and every code the switch does
   * not list give 0.
   */
  function PdgToMass(pdg: Int32): (m: real)
    ensures m >= 0.0
    ensures m > 0.0 <==> pdg in MassiveCodes
  {
    if pdg == 11 || pdg == -11 then 0.00051099900
    else if pdg == 211 || pdg == -211 then 0.13957040
    else if pdg == 321 || pdg == -321 then 0.49367700
    else if pdg == 2212 || pdg == -2212 then 0.93827210
    else if pdg == 2112 then 0.93956540
    else if pdg == 22 then 0.0
    else if pdg == 45 then 1.875612
    else 0.0
  }

  /** Particle and antiparticle get the same mass for e, pi, K and p. */
  lemma MassChargeSymmetric(p: Int32)
    requires p in ChargeSymmetricCodes
    ensures PdgToMass(-p) == PdgToMass(p) > 0.0
  {
  }

  /** The neutron is listed but the antineutron (-2112) is not, so it gets 0. */
  lemma NeutronOnlyPositive()
    ensures PdgToMass(2112) == 0.93956540
    ensures PdgToMass(-2112) == 0.0
  {
  }

  /** The photon, the undefined code and every unlisted code are massless; 45 is the deuteron. */
  lemma MasslessCodes(p: Int32)
    requires p !in MassiveCodes
    ensures PdgToMass(p) == 0.0
    ensures PdgToMass(22) == 0.0 && PdgToMass(UndefPDG) == 0.0
    ensures PdgToMass(45) == 1.875612
  {
  }

  /** Masses for a list of PDG codes, entry by entry. */
  function AssignMasses(pid: seq<Int32>): (masses: seq<real>)
    ensures |masses| == |pid|
    ensures forall i :: 0 <= i < |pid| ==> masses[i] == PdgToMass(pid[i])
  {
    if |pid| == 0 then []
    else AssignMasses(pid[..|pid| - 1]) + [PdgToMass(pid[|pid| - 1])]
  }

  /** The entries of `s` at the positions listed in `order`. */
  function Reindex<T>(s: seq<T>, order: seq<nat>): (r: seq<T>)
    requires forall k :: 0 <= k < |order| ==> order[k] < |s|
    ensures |r| == |order|
  {
    seq(|order|, k requires 0 <= k < |order| => s[order[k]])
  }

  /** Reordering (or selecting) the codes reorders the masses the same way. */
  lemma AssignMassesCommutesWithReindex(pid: seq<Int32>, order: seq<nat>)
    requires forall k :: 0 <= k < |order| ==> order[k] < |pid|
    ensures AssignMasses(Reindex(pid, order)) == Reindex(AssignMasses(pid), order)
  {
  }

  /** Masses of a concatenation are the concatenation of the masses. */
  lemma AssignMassesConcat(a: seq<Int32>, b: seq<Int32>)
    ensures AssignMasses(a + b) == AssignMasses(a) + AssignMasses(b)
  {
  }
}
