/** The part of an event record (`sr->dune`) that the energy-scale systematics
    read and rewrite. Truth-level quantities are only read by the shifts; the
    seven reconstructed energies are the fields a shift may overwrite. */
module StandardRecords {

  /** The `dune` branch of a standard record. Integer flags are kept as
      integers because the shifts test some of them with `== 1` and others for
      being non-zero. */
  datatype Dune = Dune(
    // truth information, never written by a shift
    isFD: bool,
    isCC: int,
    nuPDG: int,
    muon_contained: int,
    muon_tracker: int,
    muon_ecal: int,
    Ev: real,
    Elep: real,
    Y: real,
    eN: real,
    eP: real,
    ePip: real,
    ePim: real,
    ePi0: real,
    // reconstructed energies, the fields a shift may rewrite
    Ev_reco: real,
    Elep_reco: real,
    Ev_reco_numu: real,
    Ev_reco_nue: real,
    RecoLepEnNumu: real,
    RecoHadEnNumu: real,
    RecoHadEnNue: real)

  /** A reference to one writable field of the record. */
  datatype Field =
    | EvReco
    | ElepReco
    | EvRecoNumu
    | EvRecoNue
    | RecoLepEnNumu
    | RecoHadEnNumu
    | RecoHadEnNue

  /** Reads field `f` of `d`. */
  function Get(d: Dune, f: Field): real
  {
    match f
    case EvReco => d.Ev_reco
    case ElepReco => d.Elep_reco
    case EvRecoNumu => d.Ev_reco_numu
    case EvRecoNue => d.Ev_reco_nue
    case RecoLepEnNumu => d.RecoLepEnNumu
    case RecoHadEnNumu => d.RecoHadEnNumu
    case RecoHadEnNue => d.RecoHadEnNue
  }

  /** Writes `v` into field `f` of `d`; every other part of the record is kept. */
  function Set(d: Dune, f: Field, v: real): (r: Dune)
    ensures Get(r, f) == v
    ensures forall g :: g != f ==> Get(r, g) == Get(d, g)
    ensures Truth(r) == Truth(d)
  {
    match f
    case EvReco => d.(Ev_reco := v)
    case ElepReco => d.(Elep_reco := v)
    case EvRecoNumu => d.(Ev_reco_numu := v)
    case EvRecoNue => d.(Ev_reco_nue := v)
    case RecoLepEnNumu => d.(RecoLepEnNumu := v)
    case RecoHadEnNumu => d.(RecoHadEnNumu := v)
    case RecoHadEnNue => d.(RecoHadEnNue := v)
  }

  /** The record with every writable field cleared: what no shift can change. */
  function Truth(d: Dune): Dune
  {
    d.(Ev_reco := 0.0, Elep_reco := 0.0, Ev_reco_numu := 0.0, Ev_reco_nue := 0.0,
       RecoLepEnNumu := 0.0, RecoHadEnNumu := 0.0, RecoHadEnNue := 0.0)
  }

  /** `a` and `b` differ at most in the writable fields listed in `fs`. */
  ghost predicate AgreeOutside(a: Dune, b: Dune, fs: seq<Field>)
  {
    && Truth(a) == Truth(b)
    && forall g :: g !in fs ==> Get(a, g) == Get(b, g)
  }

  /** Two records with the same truth part and the same writable fields are equal. */
  lemma Extensionality(a: Dune, b: Dune)
    requires Truth(a) == Truth(b)
    requires forall g :: Get(a, g) == Get(b, g)
    ensures a == b
  {
    assert Get(a, EvReco) == Get(b, EvReco);
    assert Get(a, ElepReco) == Get(b, ElepReco);
    assert Get(a, EvRecoNumu) == Get(b, EvRecoNumu);
    assert Get(a, EvRecoNue) == Get(b, EvRecoNue);
    assert Get(a, RecoLepEnNumu) == Get(b, RecoLepEnNumu);
    assert Get(a, RecoHadEnNumu) == Get(b, RecoHadEnNumu);
    assert Get(a, RecoHadEnNue) == Get(b, RecoHadEnNue);
  }

  /** Writing a field twice keeps only the last write. */
  lemma SetSet(d: Dune, f: Field, x: real, v: real)
    ensures Set(Set(d, f, x), f, v) == Set(d, f, v)
  {
    Extensionality(Set(Set(d, f, x), f, v), Set(d, f, v));
  }

  /** Writes to two different fields commute. */
  lemma SetCommutes(d: Dune, f: Field, x: real, g: Field, v: real)
    requires f != g
    ensures Set(Set(d, f, x), g, v) == Set(Set(d, g, v), f, x)
  {
    Extensionality(Set(Set(d, f, x), g, v), Set(Set(d, g, v), f, x));
  }

  /** Writing back a field's own value changes nothing. */
  lemma SetSame(d: Dune, f: Field)
    ensures Set(d, f, Get(d, f)) == d
  {
    Extensionality(Set(d, f, Get(d, f)), d);
  }

  /** The mutable record object (`caf::StandardRecord`) that shifts rewrite in place. */
  class StandardRecord {
    var dune: Dune

    constructor (d: Dune)
      ensures dune == d
    {
      dune := d;
    }
  }
}
