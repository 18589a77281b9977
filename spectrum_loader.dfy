/** The single-pass executor (`SpectrumLoader`). Spectra register a
    (cut, systematic shifts, variable, weight) definition with the loader;
    `Go` then reads every file once, adds each file's exposure to every cut,
    fills every registered spectrum from the records that pass its cut in its
    shifted universe, pushes the exposure totals into the spectra and freezes
    the loader. */
module SpectrumLoading {
  import opened Wrappers
  import opened StandardRecords
  import opened Restorers
  import opened EnergySysts
  import LoaderRegistry

  datatype DataSource = Beam | Cosmic

  /** Cuts and variables are compared structurally, so two equal definitions
      built independently are the same cut. */
  datatype Cut = Cut(name: string)
  datatype Var = Var(name: string)

  /** One systematic at a given number of sigmas; a universe applies a
      sequence of them in order. */
  datatype SystShift = SystShift(syst: EnergySyst, sigma: real)
  type SystShifts = seq<SystShift>

  /** One registration: which cut and universe, which variable is histogrammed
      and which variable weights it. */
  datatype HistDef = HistDef(cut: Cut, shift: SystShifts, v: Var, wei: Var)

  /** One histogram entry: the variable's value and the weight. */
  datatype Fill = Fill(x: real, w: real)

  /** A registered target: its entries so far and its exposure. */
  datatype Spectrum = Spectrum(fills: seq<Fill>, pot: real, livetime: real)

  /** An opened input file: its exposure header and its records. */
  datatype CafFile = CafFile(pot: real, livetime: real, records: seq<Dune>)

  datatype LoaderError = AlreadyExecuted

  // ---------------------------------------------------------------------
  // Deduplication

  predicate NoDuplicates<T(==)>(xs: seq<T>)
  {
    forall i, j :: 0 <= i < j < |xs| ==> xs[i] != xs[j]
  }

  /** `xs` with every repeated element dropped, first occurrences kept in order. */
  function Dedup<T(==,!new)>(xs: seq<T>): (r: seq<T>)
    ensures NoDuplicates(r)
    ensures forall x :: x in r <==> x in xs
    decreases |xs|
  {
    if xs == [] then []
    else
      var r := Dedup(xs[..|xs| - 1]);
      assert forall x :: x in xs <==> x in xs[..|xs| - 1] || x == xs[|xs| - 1];
      if xs[|xs| - 1] in r then r else r + [xs[|xs| - 1]]
  }

  /** Deduplicating a sequence that has no repeats changes nothing. */
  lemma {:induction false} DedupOfDistinct<T(!new)>(xs: seq<T>)
    requires NoDuplicates(xs)
    ensures Dedup(xs) == xs
    decreases |xs|
  {
    if xs != [] {
      var init := xs[..|xs| - 1];
      assert NoDuplicates(init);
      DedupOfDistinct(init);
      assert xs[|xs| - 1] !in init;
      assert init + [xs[|xs| - 1]] == xs;
    }
  }

  /** The position of `x` in `xs`: its first occurrence. */
  function IndexOf<T(==)>(xs: seq<T>, x: T): (i: nat)
    requires x in xs
    ensures i < |xs| && xs[i] == x
    ensures forall j :: 0 <= j < i ==> xs[j] != x
  {
    if xs[0] == x then 0 else 1 + IndexOf(xs[1..], x)
  }

  function CutsOf(hs: seq<HistDef>): (cs: seq<Cut>)
    ensures |cs| == |hs| && forall i :: 0 <= i < |hs| ==> cs[i] == hs[i].cut
  {
    seq(|hs|, i requires 0 <= i < |hs| => hs[i].cut)
  }

  /** Every registration's cut is among the distinct cuts. */
  lemma CutsCovered(hs: seq<HistDef>)
    ensures forall h :: h in hs ==> h.cut in Dedup(CutsOf(hs))
  {
    forall h | h in hs
      ensures h.cut in Dedup(CutsOf(hs))
    {
      var i :| 0 <= i < |hs| && hs[i] == h;
      assert CutsOf(hs)[i] in CutsOf(hs);
    }
  }

  function ShiftsOf(hs: seq<HistDef>): (ss: seq<SystShifts>)
    ensures |ss| == |hs| && forall i :: 0 <= i < |hs| ==> ss[i] == hs[i].shift
  {
    seq(|hs|, i requires 0 <= i < |hs| => hs[i].shift)
  }

  // ---------------------------------------------------------------------
  // What one record contributes

  /** Every shift of the universe can be applied to `d` (no division by a zero
      true energy or inelasticity). */
  ghost predicate AllDefined(shifts: SystShifts, d: Dune)
  {
    forall s :: s in shifts ==> ShiftDefined(s.syst, d)
  }

  ghost predicate ShiftsDefinedOn(hs: seq<HistDef>, d: Dune)
  {
    forall h :: h in hs ==> AllDefined(h.shift, d)
  }

  ghost predicate Definable(hs: seq<HistDef>, rs: seq<Dune>)
  {
    forall d :: d in rs ==> ShiftsDefinedOn(hs, d)
  }

  /** The record `d` as the universe `shifts` sees it: the shifts applied in order. */
  function ShiftedRecord(shifts: SystShifts, d: Dune): (r: Dune)
    requires AllDefined(shifts, d)
    ensures Truth(r) == Truth(d)
    decreases |shifts|
  {
    if shifts == [] then d
    else
      var last := shifts[|shifts| - 1];
      assert forall s :: s in shifts[..|shifts| - 1] ==> s in shifts;
      var e := ShiftedRecord(shifts[..|shifts| - 1], d);
      ShiftDefinedByTruth(last.syst, e, d);
      Shifted(last.syst, last.sigma, e)
  }

  /** A universe whose shifts are all at zero sigma sees the record as it is. */
  lemma {:induction false} ZeroSigmaUniverse(shifts: SystShifts, d: Dune)
    requires AllDefined(shifts, d)
    requires forall s :: s in shifts ==> s.sigma == 0.0
    ensures ShiftedRecord(shifts, d) == d
    decreases |shifts|
  {
    if shifts != [] {
      var init := shifts[..|shifts| - 1];
      assert forall s :: s in init ==> s in shifts;
      ZeroSigmaUniverse(init, d);
    }
  }

  /** The entry registration `h` gets from an already shifted record `e`:
      one entry when its cut passes, none otherwise. */
  function FillOn(h: HistDef, e: Dune, pass: (Cut, Dune) -> bool, value: (Var, Dune) -> real): (fs: seq<Fill>)
    ensures |fs| <= 1
    ensures |fs| == 1 <==> pass(h.cut, e)
  {
    if pass(h.cut, e) then [Fill(value(h.v, e), value(h.wei, e))] else []
  }

  /** The entry registration `h` gets from record `d`, seen in its universe. */
  function FillsFor(h: HistDef, d: Dune, pass: (Cut, Dune) -> bool, value: (Var, Dune) -> real): (fs: seq<Fill>)
    requires AllDefined(h.shift, d)
  {
    FillOn(h, ShiftedRecord(h.shift, d), pass, value)
  }

  /** The entries registration `h` gets from the records `rs`, in order. */
  function FillsOver(h: HistDef, rs: seq<Dune>, pass: (Cut, Dune) -> bool, value: (Var, Dune) -> real): (fs: seq<Fill>)
    requires forall d :: d in rs ==> AllDefined(h.shift, d)
    decreases |rs|
  {
    if rs == [] then []
    else
      assert forall d :: d in rs[..|rs| - 1] ==> d in rs;
      FillsOver(h, rs[..|rs| - 1], pass, value) + FillsFor(h, rs[|rs| - 1], pass, value)
  }

  /** Filling from two runs of records is filling from the first, then the second. */
  lemma {:induction false} FillsOverAppend(h: HistDef, a: seq<Dune>, b: seq<Dune>,
                                           pass: (Cut, Dune) -> bool, value: (Var, Dune) -> real)
    requires forall d :: d in a + b ==> AllDefined(h.shift, d)
    ensures forall d :: d in a ==> AllDefined(h.shift, d)
    ensures forall d :: d in b ==> AllDefined(h.shift, d)
    ensures FillsOver(h, a + b, pass, value) == FillsOver(h, a, pass, value) + FillsOver(h, b, pass, value)
    decreases |b|
  {
    assert forall d :: d in a ==> d in a + b;
    assert forall d :: d in b ==> d in a + b;
    if b == [] {
      assert a + b == a;
    } else {
      var init := b[..|b| - 1];
      assert (a + b)[..|a + b| - 1] == a + init;
      FillsOverAppend(h, a, init, pass, value);
    }
  }

  /** The spectra `sp`, one per registration in `hs`, after the records `rs`
      have been filled into them. */
  function AddFills(sp: seq<Spectrum>, hs: seq<HistDef>, rs: seq<Dune>,
                    pass: (Cut, Dune) -> bool, value: (Var, Dune) -> real): (r: seq<Spectrum>)
    requires |sp| == |hs| && Definable(hs, rs)
    ensures |r| == |sp|
    ensures forall i :: 0 <= i < |sp| ==>
      r[i] == sp[i].(fills := sp[i].fills + FillsOver(hs[i], rs, pass, value))
  {
    seq(|sp|, i requires 0 <= i < |sp| =>
      assert hs[i] in hs;
      sp[i].(fills := sp[i].fills + FillsOver(hs[i], rs, pass, value)))
  }

  /** Filling two runs of records one after the other is filling both at once. */
  lemma AddFillsAppend(sp: seq<Spectrum>, hs: seq<HistDef>, a: seq<Dune>, b: seq<Dune>,
                       pass: (Cut, Dune) -> bool, value: (Var, Dune) -> real)
    requires |sp| == |hs| && Definable(hs, a + b)
    ensures Definable(hs, a) && Definable(hs, b)
    ensures AddFills(AddFills(sp, hs, a, pass, value), hs, b, pass, value) == AddFills(sp, hs, a + b, pass, value)
  {
    assert forall d :: d in a ==> d in a + b;
    assert forall d :: d in b ==> d in a + b;
    var once := AddFills(AddFills(sp, hs, a, pass, value), hs, b, pass, value);
    var both := AddFills(sp, hs, a + b, pass, value);
    forall i | 0 <= i < |hs|
      ensures once[i] == both[i]
    {
      assert hs[i] in hs;
      SpectrumFillsAppend(sp[i], hs[i], a, b, pass, value);
    }
  }

  lemma SpectrumFillsAppend(s: Spectrum, h: HistDef, a: seq<Dune>, b: seq<Dune>,
                            pass: (Cut, Dune) -> bool, value: (Var, Dune) -> real)
    requires forall d :: d in a + b ==> AllDefined(h.shift, d)
    ensures forall d :: d in a ==> AllDefined(h.shift, d)
    ensures forall d :: d in b ==> AllDefined(h.shift, d)
    ensures s.fills + FillsOver(h, a, pass, value) + FillsOver(h, b, pass, value) == s.fills + FillsOver(h, a + b, pass, value)
  {
    FillsOverAppend(h, a, b, pass, value);
  }

  /** Filling no records changes no spectrum. */
  lemma AddNoFills(sp: seq<Spectrum>, hs: seq<HistDef>, pass: (Cut, Dune) -> bool, value: (Var, Dune) -> real)
    requires |sp| == |hs|
    ensures AddFills(sp, hs, [], pass, value) == sp
  {
    var r := AddFills(sp, hs, [], pass, value);
    forall i | 0 <= i < |sp|
      ensures r[i] == sp[i]
    {
      assert sp[i].fills + [] == sp[i].fills;
    }
  }

  /** The spectra `sp`, one per registration in `hs`, after every universe in
      `us` has been run on the record `d`. */
  function FillUniverses(sp: seq<Spectrum>, hs: seq<HistDef>, d: Dune, us: seq<SystShifts>,
                         pass: (Cut, Dune) -> bool, value: (Var, Dune) -> real): (r: seq<Spectrum>)
    requires |sp| == |hs| && ShiftsDefinedOn(hs, d)
    ensures |r| == |sp|
    ensures forall i :: 0 <= i < |sp| ==>
      r[i] == sp[i].(fills := sp[i].fills + (if hs[i].shift in us then FillsFor(hs[i], d, pass, value) else []))
  {
    seq(|sp|, i requires 0 <= i < |sp| =>
      assert hs[i] in hs;
      sp[i].(fills := sp[i].fills + (if hs[i].shift in us then FillsFor(hs[i], d, pass, value) else [])))
  }

  lemma NoUniverses(sp: seq<Spectrum>, hs: seq<HistDef>, d: Dune,
                    pass: (Cut, Dune) -> bool, value: (Var, Dune) -> real)
    requires |sp| == |hs| && ShiftsDefinedOn(hs, d)
    ensures FillUniverses(sp, hs, d, [], pass, value) == sp
  {
    var r := FillUniverses(sp, hs, d, [], pass, value);
    forall i | 0 <= i < |sp|
      ensures r[i] == sp[i]
    {
      assert sp[i].fills + [] == sp[i].fills;
    }
  }

  /** The spectra `sp` after the universe `shift` has been run on the record
      that the universe sees as `e`: each spectrum registered in that
      universe gets its entry from `e`. */
  function WithUniverse(sp: seq<Spectrum>, hs: seq<HistDef>, shift: SystShifts, e: Dune,
                        pass: (Cut, Dune) -> bool, value: (Var, Dune) -> real): (r: seq<Spectrum>)
    requires |sp| == |hs|
    ensures |r| == |sp|
    ensures forall i :: 0 <= i < |sp| ==>
      r[i] == sp[i].(fills := sp[i].fills + (if hs[i].shift == shift then FillOn(hs[i], e, pass, value) else []))
  {
    seq(|sp|, i requires 0 <= i < |sp| =>
      sp[i].(fills := sp[i].fills + (if hs[i].shift == shift then FillOn(hs[i], e, pass, value) else [])))
  }

  /** Every universe of the registrations can be applied to `d`. */
  lemma UniversesDefined(hs: seq<HistDef>, d: Dune)
    requires ShiftsDefinedOn(hs, d)
    ensures forall u :: u in Dedup(ShiftsOf(hs)) ==> AllDefined(u, d)
  {
    forall u | u in Dedup(ShiftsOf(hs))
      ensures AllDefined(u, d)
    {
      var j := IndexOf(ShiftsOf(hs), u);
      assert hs[j] in hs;
    }
  }

  /** Running the next universe, not run before, fills exactly the spectra
      registered in it. */
  lemma NextUniverse(sp: seq<Spectrum>, hs: seq<HistDef>, d: Dune, us: seq<SystShifts>, k: nat,
                     pass: (Cut, Dune) -> bool, value: (Var, Dune) -> real)
    requires |sp| == |hs| && ShiftsDefinedOn(hs, d)
    requires NoDuplicates(us) && k < |us| && AllDefined(us[k], d)
    ensures WithUniverse(FillUniverses(sp, hs, d, us[..k], pass, value), hs, us[k], ShiftedRecord(us[k], d), pass, value)
         == FillUniverses(sp, hs, d, us[..k + 1], pass, value)
  {
    var shift := us[k];
    assert us[..k + 1] == us[..k] + [shift];
    assert shift !in us[..k];
    var before := FillUniverses(sp, hs, d, us[..k], pass, value);
    var after := WithUniverse(before, hs, shift, ShiftedRecord(shift, d), pass, value);
    var r := FillUniverses(sp, hs, d, us[..k + 1], pass, value);
    forall i | 0 <= i < |sp|
      ensures after[i] == r[i]
    {
      assert hs[i] in hs;
      assert sp[i].fills + [] == sp[i].fills;
      if hs[i].shift == shift {
        assert sp[i].fills + [] + FillsFor(hs[i], d, pass, value) == sp[i].fills + FillsFor(hs[i], d, pass, value);
      } else {
        var f := if hs[i].shift in us[..k] then FillsFor(hs[i], d, pass, value) else [];
        assert sp[i].fills + f + [] == sp[i].fills + f;
      }
    }
  }

  /** Once every universe of the registrations has run, each spectrum has
      its entry from its own universe. */
  lemma AllUniverses(sp: seq<Spectrum>, hs: seq<HistDef>, d: Dune, us: seq<SystShifts>,
                     pass: (Cut, Dune) -> bool, value: (Var, Dune) -> real)
    requires |sp| == |hs| && ShiftsDefinedOn(hs, d)
    requires us == Dedup(ShiftsOf(hs))
    ensures Definable(hs, [d])
    ensures FillUniverses(sp, hs, d, us, pass, value) == AddFills(sp, hs, [d], pass, value)
  {
    var r := FillUniverses(sp, hs, d, us, pass, value);
    var a := AddFills(sp, hs, [d], pass, value);
    forall i | 0 <= i < |sp|
      ensures r[i] == a[i]
    {
      assert ShiftsOf(hs)[i] in ShiftsOf(hs);
      assert hs[i] in hs;
      OneRecordFills(hs[i], d, pass, value);
    }
  }

  lemma OneRecordFills(h: HistDef, d: Dune, pass: (Cut, Dune) -> bool, value: (Var, Dune) -> real)
    requires AllDefined(h.shift, d)
    ensures forall e :: e in [d] ==> AllDefined(h.shift, e)
    ensures FillsOver(h, [d], pass, value) == FillsFor(h, d, pass, value)
  {
    assert [d][..0] == [];
  }

  /** A registration gets at most one entry per record. */
  lemma {:induction false} FillsOverBound(h: HistDef, rs: seq<Dune>, pass: (Cut, Dune) -> bool, value: (Var, Dune) -> real)
    requires forall d :: d in rs ==> AllDefined(h.shift, d)
    ensures |FillsOver(h, rs, pass, value)| <= |rs|
    decreases |rs|
  {
    if rs != [] {
      assert forall d :: d in rs[..|rs| - 1] ==> d in rs;
      FillsOverBound(h, rs[..|rs| - 1], pass, value);
    }
  }

  // ---------------------------------------------------------------------
  // Which records are read, and the exposure totals

  /** The records of one file that reach `HandleRecord`: the first `max` of
      them when `max` is positive, all of them otherwise. */
  function Limit(rs: seq<Dune>, max: int): (r: seq<Dune>)
    ensures r <= rs
    ensures max > 0 ==> |r| <= max
    ensures max <= 0 || |rs| <= max ==> r == rs
    ensures 0 < max < |rs| ==> |r| == max
  {
    if 0 < max < |rs| then rs[..max] else rs
  }

  /** Every record that reaches `HandleRecord`, in reading order. */
  function Processed(files: seq<CafFile>, max: int): seq<Dune>
    decreases |files|
  {
    if files == [] then []
    else Processed(files[..|files| - 1], max) + Limit(files[|files| - 1].records, max)
  }

  /** With a positive limit, at most `max` records per file are read. */
  lemma {:induction false} ProcessedBound(files: seq<CafFile>, max: int)
    requires max > 0
    ensures |Processed(files, max)| <= max * |files|
    decreases |files|
  {
    if files != [] {
      var n := |files|;
      ProcessedBound(files[..n - 1], max);
      assert max * n == max * (n - 1) + max;
    }
  }

  /** The records read from the first `k` files come first. */
  lemma {:induction false} ProcessedPrefix(files: seq<CafFile>, k: nat, max: int)
    requires k <= |files|
    ensures Processed(files[..k], max) <= Processed(files, max)
    decreases |files|
  {
    if k < |files| {
      var init := files[..|files| - 1];
      assert init[..k] == files[..k];
      ProcessedPrefix(init, k, max);
    } else {
      assert files[..k] == files;
    }
  }

  /** Reading one more file appends its records and adds its exposure;
      the records of the files read so far can still be shifted. */
  lemma ReadStep(hs: seq<HistDef>, files: seq<CafFile>, k: nat, max: int)
    requires k < |files|
    requires Definable(hs, Processed(files, max))
    ensures Processed(files[..k + 1], max) == Processed(files[..k], max) + Limit(files[k].records, max)
    ensures TotalPot(files[..k + 1]) == TotalPot(files[..k]) + files[k].pot
    ensures TotalLivetime(files[..k + 1]) == TotalLivetime(files[..k]) + files[k].livetime
    ensures Definable(hs, Processed(files[..k + 1], max))
    ensures Definable(hs, Limit(files[k].records, max))
  {
    assert files[..k + 1][..k] == files[..k];
    ProcessedPrefix(files, k + 1, max);
    var p := Processed(files[..k + 1], max);
    assert forall d :: d in p ==> d in Processed(files, max);
  }

  function TotalPot(files: seq<CafFile>): real
    decreases |files|
  {
    if files == [] then 0.0 else TotalPot(files[..|files| - 1]) + files[|files| - 1].pot
  }

  function TotalLivetime(files: seq<CafFile>): real
    decreases |files|
  {
    if files == [] then 0.0 else TotalLivetime(files[..|files| - 1]) + files[|files| - 1].livetime
  }

  /** Exposure adds up over consecutive runs of files. */
  lemma {:induction false} TotalsAppend(a: seq<CafFile>, b: seq<CafFile>)
    ensures TotalPot(a + b) == TotalPot(a) + TotalPot(b)
    ensures TotalLivetime(a + b) == TotalLivetime(a) + TotalLivetime(b)
    decreases |b|
  {
    if b == [] {
      assert a + b == a;
    } else {
      assert (a + b)[..|a + b| - 1] == a + b[..|b| - 1];
      TotalsAppend(a, b[..|b| - 1]);
    }
  }

  /** Applies the universe `shifts` to `sr` in place, adding every field each
      shift touches to `restore` before it is written. */
  method ApplyShifts(shifts: SystShifts, restore: Restorer, sr: StandardRecord)
    requires AllDefined(shifts, sr.dune)
    modifies restore, sr
    ensures sr.dune == ShiftedRecord(shifts, old(sr.dune))
    ensures Undo(sr.dune, restore.entries) == Undo(old(sr.dune), old(restore.entries))
  {
    var k := 0;
    while k < |shifts|
      invariant 0 <= k <= |shifts|
      invariant AllDefined(shifts[..k], old(sr.dune))
      invariant sr.dune == ShiftedRecord(shifts[..k], old(sr.dune))
      invariant Undo(sr.dune, restore.entries) == Undo(old(sr.dune), old(restore.entries))
    {
      assert shifts[k] in shifts;
      ShiftDefinedByTruth(shifts[k].syst, sr.dune, old(sr.dune));
      Shift(shifts[k].syst, shifts[k].sigma, restore, sr);
      assert shifts[..k + 1][..k] == shifts[..k];
      assert forall s :: s in shifts[..k + 1] ==> s in shifts;
      k := k + 1;
    }
    assert shifts[..k] == shifts;
  }

  class SpectrumLoader {
    var source: LoaderRegistry.Source
    var src: DataSource
    var maxEntries: int
    /** The registrations, in registration order. */
    var histDefs: seq<HistDef>
    /** The target of each registration: `spectra[i]` belongs to `histDefs[i]`. */
    var spectra: seq<Spectrum>
    /** The distinct cuts of the registrations (`fAllCuts`). */
    var allCuts: seq<Cut>
    /** Exposure accumulated per cut; index `c` belongs to `allCuts[c]`. */
    var livetimeByCut: seq<real>
    var potByCut: seq<real>
    /** Set once `Go` has run; the loader then takes no more work. */
    var gone: bool

    ghost predicate Valid()
      reads this
    {
      && NoDuplicates(allCuts)
      && |livetimeByCut| == |allCuts|
      && |potByCut| == |allCuts|
      && |spectra| == |histDefs|
      && (gone ==> allCuts == Dedup(CutsOf(histDefs)))
    }

    /** A loader reading the files a wildcard names. */
    constructor FromWildcard(wildcard: string, src: DataSource := Beam, max: int := 0)
      ensures Valid() && !gone
      ensures source == LoaderRegistry.Wildcard(wildcard) && this.src == src && maxEntries == max
      ensures histDefs == [] && spectra == []
      ensures allCuts == [] && livetimeByCut == [] && potByCut == []
    {
      source := LoaderRegistry.Wildcard(wildcard);
      this.src := src;
      maxEntries := max;
      histDefs := [];
      spectra := [];
      allCuts := [];
      livetimeByCut := [];
      potByCut := [];
      gone := false;
    }

    /** A loader reading an explicit list of files. */
    constructor FromFiles(fnames: seq<string>, src: DataSource := Beam, max: int := 0)
      ensures Valid() && !gone
      ensures source == LoaderRegistry.FileList(fnames) && this.src == src && maxEntries == max
      ensures histDefs == [] && spectra == []
      ensures allCuts == [] && livetimeByCut == [] && potByCut == []
    {
      source := LoaderRegistry.FileList(fnames);
      this.src := src;
      maxEntries := max;
      histDefs := [];
      spectra := [];
      allCuts := [];
      livetimeByCut := [];
      potByCut := [];
      gone := false;
    }

    /** Registers a new, empty spectrum under `h`; refused once `Go` has run. */
    method AddSpectrum(h: HistDef) returns (r: Outcome<LoaderError>)
      requires Valid()
      modifies this`histDefs, this`spectra
      ensures Valid()
      ensures old(gone) ==> r == Fail(AlreadyExecuted) && histDefs == old(histDefs) && spectra == old(spectra)
      ensures !old(gone) ==>
        && r == Pass
        && histDefs == old(histDefs) + [h]
        && spectra == old(spectra) + [Spectrum([], 0.0, 0.0)]
    {
      if gone {
        r := Fail(AlreadyExecuted);
      } else {
        histDefs := histDefs + [h];
        spectra := spectra + [Spectrum([], 0.0, 0.0)];
        r := Pass;
      }
    }

    /** Reads every file once and fills every registered spectrum; refused
        once the loader has already run. */
    method Go(files: seq<CafFile>, pass: (Cut, Dune) -> bool, value: (Var, Dune) -> real)
      returns (r: Outcome<LoaderError>)
      requires Valid()
      requires Definable(histDefs, Processed(files, maxEntries))
      modifies this
      ensures Valid() && gone
      ensures histDefs == old(histDefs) && maxEntries == old(maxEntries)
      ensures source == old(source) && src == old(src)
      ensures old(gone) ==>
        && r == Fail(AlreadyExecuted)
        && spectra == old(spectra) && allCuts == old(allCuts)
        && potByCut == old(potByCut) && livetimeByCut == old(livetimeByCut)
      ensures !old(gone) ==>
        && r == Pass
        && allCuts == Dedup(CutsOf(histDefs))
        && (forall c :: 0 <= c < |allCuts| ==>
              potByCut[c] == TotalPot(files) && livetimeByCut[c] == TotalLivetime(files))
        && (forall i :: 0 <= i < |spectra| ==>
              spectra[i] == Spectrum(
                old(spectra[i]).fills + FillsOver(histDefs[i], Processed(files, maxEntries), pass, value),
                TotalPot(files), TotalLivetime(files)))
    {
      if gone {
        return Fail(AlreadyExecuted);
      }
      ScanFiles(files, pass, value);
      gone := true;
      r := Pass;
    }

    /** The single pass itself: collect the distinct cuts, read every file,
        then store the exposures into the spectra. */
    method ScanFiles(files: seq<CafFile>, pass: (Cut, Dune) -> bool, value: (Var, Dune) -> real)
      requires Valid() && !gone
      requires Definable(histDefs, Processed(files, maxEntries))
      modifies this`allCuts, this`potByCut, this`livetimeByCut, this`spectra
      ensures Valid()
      ensures allCuts == Dedup(CutsOf(histDefs))
      ensures forall c :: 0 <= c < |allCuts| ==>
        potByCut[c] == TotalPot(files) && livetimeByCut[c] == TotalLivetime(files)
      ensures |spectra| == |old(spectra)|
      ensures forall i :: 0 <= i < |spectra| ==>
        spectra[i] == Spectrum(
          old(spectra[i]).fills + FillsOver(histDefs[i], Processed(files, maxEntries), pass, value),
          TotalPot(files), TotalLivetime(files))
    {
      CollectCuts();
      CutsCovered(histDefs);
      ReadFiles(files, pass, value);
      ghost var filled := spectra;
      StoreExposures();
      forall i | 0 <= i < |spectra|
        ensures spectra[i] == Spectrum(filled[i].fills, TotalPot(files), TotalLivetime(files))
      {
        assert histDefs[i] in histDefs;
      }
    }

    /** Reads the files in order: `HandleFile` on each. */
    method ReadFiles(files: seq<CafFile>, pass: (Cut, Dune) -> bool, value: (Var, Dune) -> real)
      requires Valid() && !gone
      requires allCuts == Dedup(CutsOf(histDefs))
      requires forall c :: 0 <= c < |allCuts| ==> potByCut[c] == 0.0 && livetimeByCut[c] == 0.0
      requires Definable(histDefs, Processed(files, maxEntries))
      modifies this`potByCut, this`livetimeByCut, this`spectra
      ensures Valid()
      ensures forall c :: 0 <= c < |allCuts| ==>
        potByCut[c] == TotalPot(files) && livetimeByCut[c] == TotalLivetime(files)
      ensures |spectra| == |old(spectra)|
      ensures forall i :: 0 <= i < |spectra| ==>
        spectra[i] == old(spectra[i]).(fills := old(spectra[i]).fills + FillsOver(histDefs[i], Processed(files, maxEntries), pass, value))
    {
      ghost var before := spectra;
      assert files[..0] == [];
      AddNoFills(before, histDefs, pass, value);
      var k := 0;
      while k < |files|
        invariant 0 <= k <= |files|
        invariant allCuts == old(allCuts) && histDefs == old(histDefs) && gone == old(gone)
        invariant |potByCut| == |allCuts| && |livetimeByCut| == |allCuts| && |spectra| == |histDefs|
        invariant forall c :: 0 <= c < |allCuts| ==>
          potByCut[c] == TotalPot(files[..k]) && livetimeByCut[c] == TotalLivetime(files[..k])
        invariant Definable(histDefs, Processed(files[..k], maxEntries))
        invariant spectra == AddFills(before, histDefs, Processed(files[..k], maxEntries), pass, value)
      {
        ReadStep(histDefs, files, k, maxEntries);
        AddFillsAppend(before, histDefs, Processed(files[..k], maxEntries), Limit(files[k].records, maxEntries), pass, value);
        HandleFile(files[k], pass, value);
        k := k + 1;
      }
      assert files[..k] == files;
    }

    /** Builds `allCuts` from the registrations and zeroes the per-cut exposure. */
    method CollectCuts()
      requires |spectra| == |histDefs|
      modifies this`allCuts, this`livetimeByCut, this`potByCut
      ensures allCuts == Dedup(CutsOf(histDefs))
      ensures |potByCut| == |allCuts| && |livetimeByCut| == |allCuts|
      ensures forall c :: 0 <= c < |allCuts| ==> potByCut[c] == 0.0 && livetimeByCut[c] == 0.0
    {
      allCuts := [];
      var i := 0;
      while i < |histDefs|
        invariant 0 <= i <= |histDefs|
        invariant allCuts == Dedup(CutsOf(histDefs[..i]))
      {
        var c := histDefs[i].cut;
        assert CutsOf(histDefs[..i + 1])[..i] == CutsOf(histDefs[..i]);
        if c !in allCuts {
          allCuts := allCuts + [c];
        }
        i := i + 1;
      }
      assert histDefs[..i] == histDefs;
      livetimeByCut := seq(|allCuts|, _ => 0.0);
      potByCut := seq(|allCuts|, _ => 0.0);
    }

    /** Adds the file's exposure to every cut, then hands each record it
        reads (up to the entry limit) to `HandleRecord`. */
    method HandleFile(f: CafFile, pass: (Cut, Dune) -> bool, value: (Var, Dune) -> real)
      requires Valid() && !gone
      requires allCuts == Dedup(CutsOf(histDefs))
      requires Definable(histDefs, Limit(f.records, maxEntries))
      modifies this`potByCut, this`livetimeByCut, this`spectra
      ensures Valid()
      ensures |potByCut| == |old(potByCut)| && |livetimeByCut| == |old(livetimeByCut)|
      ensures forall c :: 0 <= c < |allCuts| ==>
        potByCut[c] == old(potByCut[c]) + f.pot && livetimeByCut[c] == old(livetimeByCut[c]) + f.livetime
      ensures spectra == AddFills(old(spectra), histDefs, Limit(f.records, maxEntries), pass, value)
    {
      AddExposure(f);
      HandleRecords(Limit(f.records, maxEntries), pass, value);
    }

    /** Adds one file's exposure header to the totals of every cut, whichever
        records pass. */
    method AddExposure(f: CafFile)
      requires |potByCut| == |allCuts| && |livetimeByCut| == |allCuts|
      modifies this`potByCut, this`livetimeByCut
      ensures |potByCut| == |allCuts| && |livetimeByCut| == |allCuts|
      ensures forall c :: 0 <= c < |allCuts| ==>
        potByCut[c] == old(potByCut[c]) + f.pot && livetimeByCut[c] == old(livetimeByCut[c]) + f.livetime
    {
      var c := 0;
      while c < |allCuts|
        invariant 0 <= c <= |allCuts|
        invariant |potByCut| == |allCuts| && |livetimeByCut| == |allCuts|
        invariant forall c' :: 0 <= c' < |allCuts| ==>
          potByCut[c'] == old(potByCut[c']) + (if c' < c then f.pot else 0.0)
        invariant forall c' :: 0 <= c' < |allCuts| ==>
          livetimeByCut[c'] == old(livetimeByCut[c']) + (if c' < c then f.livetime else 0.0)
      {
        potByCut := potByCut[c := potByCut[c] + f.pot];
        livetimeByCut := livetimeByCut[c := livetimeByCut[c] + f.livetime];
        c := c + 1;
      }
    }

    /** Hands the records to `HandleRecord`, in order. */
    method HandleRecords(recs: seq<Dune>, pass: (Cut, Dune) -> bool, value: (Var, Dune) -> real)
      requires |spectra| == |histDefs|
      requires forall h :: h in histDefs ==> h.cut in allCuts
      requires Definable(histDefs, recs)
      modifies this`spectra
      ensures spectra == AddFills(old(spectra), histDefs, recs, pass, value)
    {
      AddNoFills(spectra, histDefs, pass, value);
      var n := 0;
      while n < |recs|
        invariant 0 <= n <= |recs|
        invariant Definable(histDefs, recs[..n])
        invariant spectra == AddFills(old(spectra), histDefs, recs[..n], pass, value)
      {
        var sr := new StandardRecord(recs[n]);
        assert recs[n] in recs;
        assert recs[..n + 1] == recs[..n] + [recs[n]];
        AddFillsAppend(old(spectra), histDefs, recs[..n], [recs[n]], pass, value);
        HandleRecord(sr, pass, value);
        n := n + 1;
      }
      assert recs[..n] == recs;
    }

    /** Evaluates every universe on one record: shift it in place, evaluate
        each distinct cut once, fill the spectra registered in that universe
        whose cut passed, then restore the record. */
    method HandleRecord(sr: StandardRecord, pass: (Cut, Dune) -> bool, value: (Var, Dune) -> real)
      requires |spectra| == |histDefs|
      requires forall h :: h in histDefs ==> h.cut in allCuts
      requires ShiftsDefinedOn(histDefs, sr.dune)
      modifies this`spectra, sr
      ensures sr.dune == old(sr.dune)
      ensures Definable(histDefs, [sr.dune])
      ensures spectra == AddFills(old(spectra), histDefs, [sr.dune], pass, value)
    {
      var universes := Dedup(ShiftsOf(histDefs));
      ghost var d := sr.dune;
      ghost var sp := spectra;
      NoUniverses(sp, histDefs, d, pass, value);
      UniversesDefined(histDefs, d);
      var u := 0;
      while u < |universes|
        invariant 0 <= u <= |universes|
        invariant sr.dune == d
        invariant spectra == FillUniverses(sp, histDefs, d, universes[..u], pass, value)
      {
        var shift := universes[u];
        NextUniverse(sp, histDefs, d, universes, u, pass, value);
        RunUniverse(shift, sr, pass, value);
        u := u + 1;
      }
      assert universes[..u] == universes;
      AllUniverses(sp, histDefs, d, universes, pass, value);
    }

    /** One universe on one record: shift the record in place, evaluate each
        distinct cut once, fill the spectra of that universe whose cut
        passed, then drain the ledger to restore the record. */
    method RunUniverse(shift: SystShifts, sr: StandardRecord,
                       pass: (Cut, Dune) -> bool, value: (Var, Dune) -> real)
      requires |spectra| == |histDefs|
      requires forall h :: h in histDefs ==> h.cut in allCuts
      requires AllDefined(shift, sr.dune)
      modifies this`spectra, sr
      ensures sr.dune == old(sr.dune)
      ensures spectra == WithUniverse(old(spectra), histDefs, shift, ShiftedRecord(shift, old(sr.dune)), pass, value)
    {
      var restore := new Restorer();
      ApplyShifts(shift, restore, sr);
      var passes := EvaluateCuts(sr.dune, pass);
      FillUniverse(shift, sr.dune, passes, pass, value);
      restore.Drain(sr);
    }

    /** Evaluates each distinct cut once on the record `e`. */
    method EvaluateCuts(e: Dune, pass: (Cut, Dune) -> bool) returns (passes: seq<bool>)
      ensures |passes| == |allCuts|
      ensures forall c :: 0 <= c < |allCuts| ==> passes[c] == pass(allCuts[c], e)
    {
      passes := [];
      var c := 0;
      while c < |allCuts|
        invariant 0 <= c <= |allCuts|
        invariant |passes| == c
        invariant forall c' :: 0 <= c' < c ==> passes[c'] == pass(allCuts[c'], e)
      {
        passes := passes + [pass(allCuts[c], e)];
        c := c + 1;
      }
    }

    /** Adds an entry from the shifted record `e` to every spectrum registered
        in universe `shift` whose cut passed. */
    method FillUniverse(shift: SystShifts, e: Dune, passes: seq<bool>,
                        ghost pass: (Cut, Dune) -> bool, value: (Var, Dune) -> real)
      requires |spectra| == |histDefs|
      requires forall h :: h in histDefs ==> h.cut in allCuts
      requires |passes| == |allCuts|
      requires forall c :: 0 <= c < |allCuts| ==> passes[c] == pass(allCuts[c], e)
      modifies this`spectra
      ensures spectra == WithUniverse(old(spectra), histDefs, shift, e, pass, value)
    {
      var i := 0;
      while i < |histDefs|
        invariant 0 <= i <= |histDefs|
        invariant |spectra| == |histDefs|
        invariant forall i' :: 0 <= i' < |spectra| ==>
          spectra[i'] == old(spectra[i']).(fills := old(spectra[i']).fills +
            (if i' < i && histDefs[i'].shift == shift then FillOn(histDefs[i'], e, pass, value) else []))
      {
        var h := histDefs[i];
        assert h in histDefs;
        if h.shift == shift && passes[IndexOf(allCuts, h.cut)] {
          var s := spectra[i];
          spectra := spectra[i := s.(fills := s.fills + [Fill(value(h.v, e), value(h.wei, e))])];
        }
        i := i + 1;
      }
    }

    /** Gives every spectrum the exposure accumulated for its cut. */
    method StoreExposures()
      requires Valid()
      requires forall h :: h in histDefs ==> h.cut in allCuts
      modifies this`spectra
      ensures |spectra| == |old(spectra)|
      ensures forall i :: 0 <= i < |spectra| ==>
        spectra[i] == old(spectra[i]).(pot := potByCut[IndexOf(allCuts, histDefs[i].cut)],
                                        livetime := livetimeByCut[IndexOf(allCuts, histDefs[i].cut)])
    {
      var i := 0;
      while i < |histDefs|
        invariant 0 <= i <= |histDefs|
        invariant |spectra| == |histDefs|
        invariant forall i' :: 0 <= i' < |spectra| ==>
          spectra[i'] == if i' < i then
            old(spectra[i']).(pot := potByCut[IndexOf(allCuts, histDefs[i'].cut)],
                              livetime := livetimeByCut[IndexOf(allCuts, histDefs[i'].cut)])
          else old(spectra[i'])
      {
        assert histDefs[i] in histDefs;
        var c := IndexOf(allCuts, histDefs[i].cut);
        spectra := spectra[i := spectra[i].(pot := potByCut[c], livetime := livetimeByCut[c])];
        i := i + 1;
      }
    }
  }
}
