/** Energy-scale systematics. Each shift first hands every field it may touch
    to the restorer, then rescales a subset of those fields in place, gated on
    the detector and on interaction flags of the record. */
module EnergySysts {
  import opened StandardRecords
  import opened Restorers

  function Abs(n: int): (r: nat)
    ensures r == n || r == -n
  {
    if n < 0 then -n else n
  }

  /** The hadronic species that have their own energy-scale shift. */
  datatype Hadron = Neutron | Proton | PiPlus | PiMinus | PiZero

  /** The fully defined shift classes of this file, one constructor per class;
      the five hadron classes differ only in species. */
  datatype EnergySyst =
    | EScaleMuLAr                    // eScaleMuLArSyst
    | EScaleMuND                     // EnergyScaleMuSystND
    | EScaleE                        // EnergyScaleESyst
    | EScaleMuFD                     // EnergyScaleMuSystFD
    | EScaleEFD                      // EnergyScaleESystFD
    | EScaleEND                      // EnergyScaleESystND
    | EScaleHadron(species: Hadron)  // EnergyScale{N,P,Pip,Pim,Pi0}Syst

  /** The short name of `HadronCorr`, whose shift body is not part of this model. */
  const HadronCorrName: string := "HadronCorr"

  /** The name each shift class reports; all of them carry the `eScale` prefix. */
  function ShortNameOf(s: EnergySyst): (r: string)
    ensures |r| > 6 && r[..6] == "eScale"
  {
    match s
    case EScaleMuLAr => "eScaleMuLAr"
    case EScaleMuND => "eScaleMuND"
    case EScaleE => "eScaleE"
    case EScaleMuFD => "eScaleMuFD"
    case EScaleEFD => "eScaleEFD"
    case EScaleEND => "eScaleEND"
    case EScaleHadron(Neutron) => "eScaleN"
    case EScaleHadron(Proton) => "eScaleP"
    case EScaleHadron(PiPlus) => "eScalePip"
    case EScaleHadron(PiMinus) => "eScalePim"
    case EScaleHadron(PiZero) => "eScalePi0"
  }

  /** The fields each shift passes to `restore.Add`, in the order it adds them. */
  function Registered(s: EnergySyst): seq<Field>
  {
    match s
    case EScaleMuLAr => [EvReco, ElepReco, EvRecoNumu, RecoLepEnNumu]
    case EScaleMuND => [EvReco, ElepReco]
    case EScaleE => [EvReco, EvRecoNue]
    case EScaleMuFD => [EvReco, EvRecoNumu]
    case EScaleEFD => [EvReco, EvRecoNue]
    case EScaleEND => [EvReco]
    case EScaleHadron(_) => [EvReco, EvRecoNue, EvRecoNumu, RecoHadEnNumu, RecoHadEnNue]
  }

  /** The divisions a shift performs on this record have non-zero divisors:
      `Ev` for the near-detector electron shifts, `Ev` and `Ev * Y` for the
      hadron shifts. */
  predicate ShiftDefined(s: EnergySyst, d: Dune)
  {
    match s
    case EScaleE => IsNDNueCC(d) ==> d.Ev != 0.0
    case EScaleEND => IsNDNueCC(d) ==> d.Ev != 0.0
    case EScaleHadron(_) => d.Ev != 0.0 && d.Y != 0.0
    case _ => true
  }

  predicate IsNDNueCC(d: Dune)
  {
    !d.isFD && Abs(d.nuPDG) == 12 && d.isCC != 0
  }

  // ---------------------------------------------------------------------
  // The effect of each shift on a record value

  /** `eScaleMuLArSyst`: 1% muon energy scale. Near detector: CC numu events
      whose muon stops in the argon (`isCC == 1`, `muon_contained == 1`) get
      `Ev_reco` and `Elep_reco` rescaled. Far detector: CC numu events get
      `Ev_reco_numu` and `RecoLepEnNumu` rescaled. */
  function MuLArShifted(sigma: real, d: Dune): (r: Dune)
    ensures AgreeOutside(r, d, if d.isFD then [EvRecoNumu, RecoLepEnNumu] else [EvReco, ElepReco])
    ensures Abs(d.nuPDG) != 14 || d.isCC == 0 ==> r == d
    ensures !d.isFD && (d.isCC != 1 || d.muon_contained != 1) ==> r == d
    ensures sigma == 0.0 ==> r == d
  {
    var scale := 1.0 + 0.01 * sigma;
    if !d.isFD then
      if Abs(d.nuPDG) == 14 && d.isCC == 1 && d.muon_contained == 1 then
        d.(Ev_reco := d.Ev_reco * ((1.0 - d.Y) * scale + d.Y),
           Elep_reco := d.Elep_reco * scale)
      else d
    else
      if d.isCC != 0 && Abs(d.nuPDG) == 14 then
        d.(Ev_reco_numu := d.Ev_reco_numu * ((1.0 - d.Y) * scale + d.Y),
           RecoLepEnNumu := d.RecoLepEnNumu * scale)
      else d
  }

  /** `EnergyScaleMuSystND`: 1% muon energy scale for near-detector CC numu
      events whose muon stops in the argon, the tracker or the calorimeter. */
  function MuNDShifted(sigma: real, d: Dune): (r: Dune)
    ensures AgreeOutside(r, d, [EvReco, ElepReco])
    ensures d.isFD ==> r == d
    ensures Abs(d.nuPDG) != 14 || d.isCC != 1 ==> r == d
    ensures d.muon_contained != 1 && d.muon_tracker != 1 && d.muon_ecal != 1 ==> r == d
    ensures sigma == 0.0 ==> r == d
  {
    var scale := 1.0 + 0.01 * sigma;
    if !d.isFD && Abs(d.nuPDG) == 14 && d.isCC == 1
       && (d.muon_contained == 1 || d.muon_tracker == 1 || d.muon_ecal == 1)
    then
      d.(Ev_reco := d.Ev_reco * ((1.0 - d.Y) * scale + d.Y),
         Elep_reco := d.Elep_reco * scale)
    else d
  }

  /** Rescales the share `1 - y` of `e` by `scale` and keeps the share `y`. */
  function ScaleLeptonShare(e: real, y: real, scale: real): (r: real)
    ensures scale == 1.0 ==> r == e
    ensures y == 0.0 ==> r == e * scale
  {
    e * (1.0 - y) * scale + e * y
  }

  /** `EnergyScaleESyst`: 2% electron energy scale on CC nue events. In the
      near detector the inelasticity is recomputed as `1 - Elep / Ev` and only
      `Ev_reco` moves; in the far detector the stored `Y` is used and both
      `Ev_reco` and `Ev_reco_nue` move. */
  function EShifted(sigma: real, d: Dune): (r: Dune)
    requires ShiftDefined(EScaleE, d)
    ensures AgreeOutside(r, d, if d.isFD then [EvReco, EvRecoNue] else [EvReco])
    ensures Abs(d.nuPDG) != 12 || d.isCC == 0 ==> r == d
    ensures sigma == 0.0 ==> r == d
  {
    var scale := 1.0 + 0.02 * sigma;
    if !d.isFD then
      if Abs(d.nuPDG) == 12 && d.isCC != 0 then
        var yCalc := 1.0 - d.Elep / d.Ev;
        d.(Ev_reco := ScaleLeptonShare(d.Ev_reco, yCalc, scale))
      else d
    else
      if d.isCC != 0 && Abs(d.nuPDG) == 12 then
        d.(Ev_reco := ScaleLeptonShare(d.Ev_reco, d.Y, scale),
           Ev_reco_nue := ScaleLeptonShare(d.Ev_reco_nue, d.Y, scale))
      else d
  }

  /** `EnergyScaleMuSystFD`: 2% muon energy scale on far-detector CC numu events. */
  function MuFDShifted(sigma: real, d: Dune): (r: Dune)
    ensures AgreeOutside(r, d, [EvReco, EvRecoNumu])
    ensures !d.isFD ==> r == d
    ensures Abs(d.nuPDG) != 14 || d.isCC == 0 ==> r == d
    ensures sigma == 0.0 ==> r == d
  {
    var scale := 1.0 + 0.02 * sigma;
    if d.isFD && d.isCC != 0 && Abs(d.nuPDG) == 14 then
      d.(Ev_reco := ScaleLeptonShare(d.Ev_reco, d.Y, scale),
         Ev_reco_numu := ScaleLeptonShare(d.Ev_reco_numu, d.Y, scale))
    else d
  }

  /** `EnergyScaleESystFD`: 2% electron energy scale on far-detector CC nue events. */
  function EFDShifted(sigma: real, d: Dune): (r: Dune)
    ensures AgreeOutside(r, d, [EvReco, EvRecoNue])
    ensures !d.isFD ==> r == d
    ensures Abs(d.nuPDG) != 12 || d.isCC == 0 ==> r == d
    ensures sigma == 0.0 ==> r == d
  {
    var scale := 1.0 + 0.02 * sigma;
    if d.isFD && d.isCC != 0 && Abs(d.nuPDG) == 12 then
      d.(Ev_reco := ScaleLeptonShare(d.Ev_reco, d.Y, scale),
         Ev_reco_nue := ScaleLeptonShare(d.Ev_reco_nue, d.Y, scale))
    else d
  }

  /** `EnergyScaleESystND`: 2% electron energy scale on near-detector CC nue
      events, with the inelasticity recomputed as `1 - Elep / Ev`. */
  function ENDShifted(sigma: real, d: Dune): (r: Dune)
    requires ShiftDefined(EScaleEND, d)
    ensures AgreeOutside(r, d, [EvReco])
    ensures d.isFD ==> r == d
    ensures Abs(d.nuPDG) != 12 || d.isCC == 0 ==> r == d
    ensures sigma == 0.0 ==> r == d
  {
    var scale := 1.0 + 0.02 * sigma;
    if IsNDNueCC(d) then
      var yCalc := 1.0 - d.Elep / d.Ev;
      d.(Ev_reco := ScaleLeptonShare(d.Ev_reco, yCalc, scale))
    else d
  }

  /** The size of the energy scale, per unit of sigma, of each hadron shift. */
  function HadronScaleCoefficient(h: Hadron): real
  {
    match h
    case Neutron => 0.25
    case Proton => 0.1
    case PiPlus => 0.05
    case PiMinus => 0.05
    case PiZero => 0.1
  }

  /** The energy the species deposits visibly; a quarter of the neutron energy
      is taken to be visible. */
  function VisibleEnergy(h: Hadron, d: Dune): real
  {
    match h
    case Neutron => d.eN * 0.25
    case Proton => d.eP
    case PiPlus => d.ePip
    case PiMinus => d.ePim
    case PiZero => d.ePi0
  }

  /** The species' share of the neutrino energy; near-detector energies are
      in MeV, hence the extra factor 1000 in the denominator. */
  function HadronFraction(h: Hadron, d: Dune): real
    requires d.Ev != 0.0
  {
    if d.isFD then VisibleEnergy(h, d) / d.Ev
    else VisibleEnergy(h, d) / (d.Ev * 1000.0)
  }

  /** The true hadronic energy `Ev * Y`. */
  function HadronicEnergy(d: Dune): real
  {
    d.Ev * d.Y
  }

  /** The species' share of the hadronic energy. */
  function HadronFractionY(h: Hadron, d: Dune): real
    requires HadronicEnergy(d) != 0.0
  {
    if d.isFD then VisibleEnergy(h, d) / HadronicEnergy(d)
    else VisibleEnergy(h, d) / (HadronicEnergy(d) * 1000.0)
  }

  /** Rescales the share `frac` of `e` by `scale` and keeps the rest. */
  function ScaleShare(e: real, frac: real, scale: real): (r: real)
    ensures scale == 1.0 ==> r == e
    ensures frac == 0.0 ==> r == e
  {
    e * (frac * scale + (1.0 - frac))
  }

  /** `EnergyScale{N,P,Pip,Pim,Pi0}Syst`: the three neutrino-energy estimates
      move with the species' share of `Ev`, the two hadronic energies with its
      share of `Ev * Y`, on every record of either detector. */
  function HadronShifted(h: Hadron, sigma: real, d: Dune): (r: Dune)
    requires ShiftDefined(EScaleHadron(h), d)
    ensures AgreeOutside(r, d, Registered(EScaleHadron(h)))
    ensures sigma == 0.0 ==> r == d
    ensures VisibleEnergy(h, d) == 0.0 ==> r == d
  {
    var scale := 1.0 + HadronScaleCoefficient(h) * sigma;
    var frac := HadronFraction(h, d);
    var fracY := HadronFractionY(h, d);
    d.(Ev_reco := ScaleShare(d.Ev_reco, frac, scale),
       Ev_reco_numu := ScaleShare(d.Ev_reco_numu, frac, scale),
       Ev_reco_nue := ScaleShare(d.Ev_reco_nue, frac, scale),
       RecoHadEnNumu := ScaleShare(d.RecoHadEnNumu, fracY, scale),
       RecoHadEnNue := ScaleShare(d.RecoHadEnNue, fracY, scale))
  }

  /** The record value after shift `s` at `sigma` standard deviations. */
  function Shifted(s: EnergySyst, sigma: real, d: Dune): (r: Dune)
    requires ShiftDefined(s, d)
    ensures AgreeOutside(r, d, Registered(s))
    ensures sigma == 0.0 ==> r == d
  {
    match s
    case EScaleMuLAr => MuLArShifted(sigma, d)
    case EScaleMuND => MuNDShifted(sigma, d)
    case EScaleE => EShifted(sigma, d)
    case EScaleMuFD => MuFDShifted(sigma, d)
    case EScaleEFD => EFDShifted(sigma, d)
    case EScaleEND => ENDShifted(sigma, d)
    case EScaleHadron(h) => HadronShifted(h, sigma, d)
  }

  // ---------------------------------------------------------------------
  // Properties of the shifts

  /** The twelve short names, the eleven shifts' and `HadronCorr`'s, are
      pairwise distinct. */
  lemma ShortNamesDistinct(s: EnergySyst, t: EnergySyst)
    ensures s != t ==> ShortNameOf(s) != ShortNameOf(t)
    ensures ShortNameOf(s) != HadronCorrName
  {
    var a, b := ShortNameOf(s), ShortNameOf(t);
    if s != t {
      if |a| == |b| {
        // Same-length names differ at their last or second-to-last letter.
        assert a[|a| - 1] != b[|b| - 1] || a[|a| - 2] != b[|b| - 2];
      }
    }
    assert a[0] != HadronCorrName[0];
  }

  /** A shift never rewrites a field it did not hand to the restorer, and
      never touches the truth information. */
  lemma ShiftTouchesOnlyRegistered(s: EnergySyst, sigma: real, d: Dune, f: Field)
    requires ShiftDefined(s, d)
    requires f !in Registered(s)
    ensures Get(Shifted(s, sigma, d), f) == Get(d, f)
    ensures Truth(Shifted(s, sigma, d)) == Truth(d)
  {
  }

  /** A shift moves only records of its own detector: the far-detector-only
      shifts leave near-detector records alone and vice versa. */
  lemma DetectorGating(s: EnergySyst, sigma: real, d: Dune)
    requires ShiftDefined(s, d)
    ensures (s == EScaleMuFD || s == EScaleEFD) && !d.isFD ==> Shifted(s, sigma, d) == d
    ensures (s == EScaleMuND || s == EScaleEND) && d.isFD ==> Shifted(s, sigma, d) == d
  {
  }

  /** The near-detector hadron fraction is the far-detector formula with the
      denominator multiplied by 1000. */
  lemma NearFractionIsFarOverThousand(h: Hadron, d: Dune)
    requires !d.isFD && d.Ev != 0.0
    ensures HadronFraction(h, d) == HadronFraction(h, d.(isFD := true)) / 1000.0
  {
    var v := VisibleEnergy(h, d);
    var far := d.(isFD := true);
    assert VisibleEnergy(h, far) == v;
    assert HadronFraction(h, far) == v / d.Ev;
    assert HadronFraction(h, d) == v / (d.Ev * 1000.0);
    DivideTwice(v, d.Ev, 1000.0);
  }

  /** The same holds for the fraction of the hadronic energy `Ev * Y`. */
  lemma NearFractionYIsFarOverThousand(h: Hadron, d: Dune)
    requires !d.isFD && d.Ev != 0.0 && d.Y != 0.0
    ensures HadronFractionY(h, d) == HadronFractionY(h, d.(isFD := true)) / 1000.0
  {
    var v := VisibleEnergy(h, d);
    var far := d.(isFD := true);
    var p := HadronicEnergy(d);
    assert VisibleEnergy(h, far) == v;
    assert HadronicEnergy(far) == p;
    assert HadronFractionY(h, d) == v / (p * 1000.0);
    DivideTwice(v, p, 1000.0);
  }

  lemma DivideTwice(v: real, a: real, b: real)
    requires a != 0.0 && b != 0.0
    ensures v / (a * b) == (v / a) / b
  {
    var q := v / (a * b);
    assert q * (a * b) == v;
    assert (q * b) * a == v;
    assert q * b == v / a;
  }

  /** Whether a shift can be applied does not depend on the fields shifts write. */
  lemma ShiftDefinedByTruth(s: EnergySyst, a: Dune, b: Dune)
    requires Truth(a) == Truth(b)
    ensures ShiftDefined(s, a) == ShiftDefined(s, b)
  {
    assert a.isFD == Truth(a).isFD && b.isFD == Truth(b).isFD;
    assert a.nuPDG == Truth(a).nuPDG && b.nuPDG == Truth(b).nuPDG;
    assert a.isCC == Truth(a).isCC && b.isCC == Truth(b).isCC;
    assert a.Ev == Truth(a).Ev && b.Ev == Truth(b).Ev;
    assert a.Y == Truth(a).Y && b.Y == Truth(b).Y;
  }

  // ---------------------------------------------------------------------
  // The shifts as they run: register with the restorer, then rewrite in place

  /** `eScaleMuLArSyst::Shift`. */
  method ShiftMuLAr(sigma: real, restore: Restorer, sr: StandardRecord)
    modifies restore, sr
    ensures restore.entries == old(restore.entries) + Snapshot(old(sr.dune), Registered(EScaleMuLAr))
    ensures sr.dune == MuLArShifted(sigma, old(sr.dune))
  {
    restore.Add(sr, EvReco);
    restore.Add(sr, ElepReco);
    restore.Add(sr, EvRecoNumu);
    restore.Add(sr, RecoLepEnNumu);

    var scale := 1.0 + 0.01 * sigma;
    if !sr.dune.isFD {
      if Abs(sr.dune.nuPDG) == 14 && sr.dune.isCC == 1 && sr.dune.muon_contained == 1 {
        sr.dune := sr.dune.(Ev_reco := sr.dune.Ev_reco * ((1.0 - sr.dune.Y) * scale + sr.dune.Y));
        sr.dune := sr.dune.(Elep_reco := sr.dune.Elep_reco * scale);
      }
    } else {
      if sr.dune.isCC != 0 && Abs(sr.dune.nuPDG) == 14 {
        sr.dune := sr.dune.(Ev_reco_numu := sr.dune.Ev_reco_numu * ((1.0 - sr.dune.Y) * scale + sr.dune.Y));
        sr.dune := sr.dune.(RecoLepEnNumu := sr.dune.RecoLepEnNumu * scale);
      }
    }
  }

  /** `EnergyScaleMuSystND::Shift`. */
  method ShiftMuND(sigma: real, restore: Restorer, sr: StandardRecord)
    modifies restore, sr
    ensures restore.entries == old(restore.entries) + Snapshot(old(sr.dune), Registered(EScaleMuND))
    ensures sr.dune == MuNDShifted(sigma, old(sr.dune))
  {
    restore.Add(sr, EvReco);
    restore.Add(sr, ElepReco);

    var scale := 1.0 + 0.01 * sigma;
    if !sr.dune.isFD && Abs(sr.dune.nuPDG) == 14 && sr.dune.isCC == 1
       && (sr.dune.muon_contained == 1 || sr.dune.muon_tracker == 1 || sr.dune.muon_ecal == 1)
    {
      sr.dune := sr.dune.(Ev_reco := sr.dune.Ev_reco * ((1.0 - sr.dune.Y) * scale + sr.dune.Y));
      sr.dune := sr.dune.(Elep_reco := sr.dune.Elep_reco * scale);
    }
  }

  /** `EnergyScaleESyst::Shift`. */
  method ShiftE(sigma: real, restore: Restorer, sr: StandardRecord)
    requires ShiftDefined(EScaleE, sr.dune)
    modifies restore, sr
    ensures restore.entries == old(restore.entries) + Snapshot(old(sr.dune), Registered(EScaleE))
    ensures sr.dune == EShifted(sigma, old(sr.dune))
  {
    restore.Add(sr, EvReco);
    restore.Add(sr, EvRecoNue);

    var scale := 1.0 + 0.02 * sigma;
    if !sr.dune.isFD {
      if Abs(sr.dune.nuPDG) == 12 && sr.dune.isCC != 0 {
        var yCalc := 1.0 - sr.dune.Elep / sr.dune.Ev;
        sr.dune := sr.dune.(Ev_reco := ScaleLeptonShare(sr.dune.Ev_reco, yCalc, scale));
      }
    } else {
      if sr.dune.isCC != 0 && Abs(sr.dune.nuPDG) == 12 {
        var y := sr.dune.Y;
        sr.dune := sr.dune.(Ev_reco := ScaleLeptonShare(sr.dune.Ev_reco, y, scale));
        sr.dune := sr.dune.(Ev_reco_nue := ScaleLeptonShare(sr.dune.Ev_reco_nue, y, scale));
      }
    }
  }

  /** `EnergyScaleMuSystFD::Shift`. */
  method ShiftMuFD(sigma: real, restore: Restorer, sr: StandardRecord)
    modifies restore, sr
    ensures restore.entries == old(restore.entries) + Snapshot(old(sr.dune), Registered(EScaleMuFD))
    ensures sr.dune == MuFDShifted(sigma, old(sr.dune))
  {
    restore.Add(sr, EvReco);
    restore.Add(sr, EvRecoNumu);

    var scale := 1.0 + 0.02 * sigma;
    if sr.dune.isFD {
      if sr.dune.isCC != 0 && Abs(sr.dune.nuPDG) == 14 {
        var y := sr.dune.Y;
        sr.dune := sr.dune.(Ev_reco := ScaleLeptonShare(sr.dune.Ev_reco, y, scale));
        sr.dune := sr.dune.(Ev_reco_numu := ScaleLeptonShare(sr.dune.Ev_reco_numu, y, scale));
      }
    }
  }

  /** `EnergyScaleESystFD::Shift`. */
  method ShiftEFD(sigma: real, restore: Restorer, sr: StandardRecord)
    modifies restore, sr
    ensures restore.entries == old(restore.entries) + Snapshot(old(sr.dune), Registered(EScaleEFD))
    ensures sr.dune == EFDShifted(sigma, old(sr.dune))
  {
    restore.Add(sr, EvReco);
    restore.Add(sr, EvRecoNue);

    var scale := 1.0 + 0.02 * sigma;
    if sr.dune.isFD {
      if sr.dune.isCC != 0 && Abs(sr.dune.nuPDG) == 12 {
        var y := sr.dune.Y;
        sr.dune := sr.dune.(Ev_reco := ScaleLeptonShare(sr.dune.Ev_reco, y, scale));
        sr.dune := sr.dune.(Ev_reco_nue := ScaleLeptonShare(sr.dune.Ev_reco_nue, y, scale));
      }
    }
  }

  /** `EnergyScaleESystND::Shift`. */
  method ShiftEND(sigma: real, restore: Restorer, sr: StandardRecord)
    requires ShiftDefined(EScaleEND, sr.dune)
    modifies restore, sr
    ensures restore.entries == old(restore.entries) + Snapshot(old(sr.dune), Registered(EScaleEND))
    ensures sr.dune == ENDShifted(sigma, old(sr.dune))
  {
    restore.Add(sr, EvReco);

    var scale := 1.0 + 0.02 * sigma;
    if !sr.dune.isFD && Abs(sr.dune.nuPDG) == 12 && sr.dune.isCC != 0 {
      var yCalc := 1.0 - sr.dune.Elep / sr.dune.Ev;
      sr.dune := sr.dune.(Ev_reco := ScaleLeptonShare(sr.dune.Ev_reco, yCalc, scale));
    }
  }

  /** `EnergyScale{N,P,Pip,Pim,Pi0}Syst::Shift`: registration, then the
      in-place rescaling. */
  method ShiftHadron(h: Hadron, sigma: real, restore: Restorer, sr: StandardRecord)
    requires ShiftDefined(EScaleHadron(h), sr.dune)
    modifies restore, sr
    ensures restore.entries == old(restore.entries) + Snapshot(old(sr.dune), Registered(EScaleHadron(h)))
    ensures sr.dune == HadronShifted(h, sigma, old(sr.dune))
  {
    restore.Add(sr, EvReco);
    restore.Add(sr, EvRecoNue);
    restore.Add(sr, EvRecoNumu);
    restore.Add(sr, RecoHadEnNumu);
    restore.Add(sr, RecoHadEnNue);
    RescaleHadron(h, sigma, sr);
  }

  /** The rewriting half of a hadron shift. */
  method RescaleHadron(h: Hadron, sigma: real, sr: StandardRecord)
    requires ShiftDefined(EScaleHadron(h), sr.dune)
    modifies sr
    ensures sr.dune == HadronShifted(h, sigma, old(sr.dune))
  {
    ghost var d := sr.dune;
    var scale := 1.0 + HadronScaleCoefficient(h) * sigma;
    var frac := 0.0;
    var fracY := 0.0;
    if sr.dune.isFD {
      frac := VisibleEnergy(h, sr.dune) / sr.dune.Ev;
      fracY := VisibleEnergy(h, sr.dune) / (sr.dune.Ev * sr.dune.Y);
    } else {
      frac := VisibleEnergy(h, sr.dune) / (sr.dune.Ev * 1000.0);
      fracY := VisibleEnergy(h, sr.dune) / (sr.dune.Ev * sr.dune.Y * 1000.0);
    }
    assert frac == HadronFraction(h, d) && fracY == HadronFractionY(h, d);
    sr.dune := sr.dune.(Ev_reco := ScaleShare(sr.dune.Ev_reco, frac, scale));
    sr.dune := sr.dune.(Ev_reco_numu := ScaleShare(sr.dune.Ev_reco_numu, frac, scale));
    sr.dune := sr.dune.(Ev_reco_nue := ScaleShare(sr.dune.Ev_reco_nue, frac, scale));
    sr.dune := sr.dune.(RecoHadEnNumu := ScaleShare(sr.dune.RecoHadEnNumu, fracY, scale));
    sr.dune := sr.dune.(RecoHadEnNue := ScaleShare(sr.dune.RecoHadEnNue, fracY, scale));
  }

  /** Dispatch of `ISyst::Shift` over the shifts of this file. Every field the
      shift rewrites was added to the restorer first, so what draining the
      restorer yields is the same after the shift as before it. */
  method Shift(s: EnergySyst, sigma: real, restore: Restorer, sr: StandardRecord)
    requires ShiftDefined(s, sr.dune)
    modifies restore, sr
    ensures restore.entries == old(restore.entries) + Snapshot(old(sr.dune), Registered(s))
    ensures sr.dune == Shifted(s, sigma, old(sr.dune))
    ensures Undo(sr.dune, restore.entries) == Undo(old(sr.dune), old(restore.entries))
  {
    match s {
      case EScaleMuLAr => ShiftMuLAr(sigma, restore, sr);
      case EScaleMuND => ShiftMuND(sigma, restore, sr);
      case EScaleE => ShiftE(sigma, restore, sr);
      case EScaleMuFD => ShiftMuFD(sigma, restore, sr);
      case EScaleEFD => ShiftEFD(sigma, restore, sr);
      case EScaleEND => ShiftEND(sigma, restore, sr);
      case EScaleHadron(h) => ShiftHadron(h, sigma, restore, sr);
    }
    RestoreAfterShift(sr.dune, old(sr.dune), Registered(s), old(restore.entries));
  }

  /** `HadronCorr`: a shift correlated across the hadronic species, with a
      settable fraction of each species' energy. Its shift body is not part
      of this model; its state and setters are. */
  class HadronCorr {
    var nFrac: real
    var pFrac: real
    var pimFrac: real
    var pipFrac: real
    var pi0Frac: real

    function Fraction(h: Hadron): real
      reads this
    {
      match h
      case Neutron => nFrac
      case Proton => pFrac
      case PiPlus => pipFrac
      case PiMinus => pimFrac
      case PiZero => pi0Frac
    }

    /** Differs from the name of every per-species and lepton shift. */
    function ShortName(): (r: string)
      ensures forall s :: r != ShortNameOf(s)
    {
      HadronCorrName
    }

    constructor (nFrac: real, pFrac: real, pimFrac: real, pipFrac: real, pi0Frac: real)
      ensures Fraction(Neutron) == nFrac && Fraction(Proton) == pFrac
      ensures Fraction(PiMinus) == pimFrac && Fraction(PiPlus) == pipFrac
      ensures Fraction(PiZero) == pi0Frac
    {
      this.nFrac := nFrac;
      this.pFrac := pFrac;
      this.pimFrac := pimFrac;
      this.pipFrac := pipFrac;
      this.pi0Frac := pi0Frac;
    }

    /** The default fractions (.25, .1, .05, .05, .1) for (N, P, Pim, Pip,
        Pi0), which coincide with the scale coefficients of the per-species
        shifts. */
    constructor Default()
      ensures Fraction(Neutron) == 0.25 && Fraction(Proton) == 0.1
      ensures Fraction(PiMinus) == 0.05 && Fraction(PiPlus) == 0.05
      ensures Fraction(PiZero) == 0.1
      ensures forall h :: Fraction(h) == HadronScaleCoefficient(h)
    {
      nFrac := 0.25;
      pFrac := 0.1;
      pimFrac := 0.05;
      pipFrac := 0.05;
      pi0Frac := 0.1;
    }

    method SetNFraction(x: real)
      modifies this`nFrac
      ensures Fraction(Neutron) == x
      ensures forall h :: h != Neutron ==> Fraction(h) == old(Fraction(h))
    {
      nFrac := x;
    }

    method SetPFraction(x: real)
      modifies this`pFrac
      ensures Fraction(Proton) == x
      ensures forall h :: h != Proton ==> Fraction(h) == old(Fraction(h))
    {
      pFrac := x;
    }

    method SetPimFraction(x: real)
      modifies this`pimFrac
      ensures Fraction(PiMinus) == x
      ensures forall h :: h != PiMinus ==> Fraction(h) == old(Fraction(h))
    {
      pimFrac := x;
    }

    method SetPipFraction(x: real)
      modifies this`pipFrac
      ensures Fraction(PiPlus) == x
      ensures forall h :: h != PiPlus ==> Fraction(h) == old(Fraction(h))
    {
      pipFrac := x;
    }

    method SetPi0Fraction(x: real)
      modifies this`pi0Frac
      ensures Fraction(PiZero) == x
      ensures forall h :: h != PiZero ==> Fraction(h) == old(Fraction(h))
    {
      pi0Frac := x;
    }

    method SetAllFraction(x: real)
      modifies this
      ensures forall h :: Fraction(h) == x
    {
      nFrac := x;
      pFrac := x;
      pimFrac := x;
      pipFrac := x;
      pi0Frac := x;
    }
  }
}
