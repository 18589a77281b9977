/** `PredictionNoExtrap`: a prediction that wraps a trivial extrapolation.
    Its constructors only forward their arguments to the extrapolation; its
    persisted form is a directory holding a type tag and a child directory
    with the saved extrapolation. */
module Predictions {
  import opened Wrappers
  import LoaderRegistry
  import opened SpectrumLoading

  // ---------------------------------------------------------------------
  // The persisted store: a tree of directories

  /** A directory: named strings and named sub-directories. */
  datatype Dir = Dir(strings: map<string, string>, children: map<string, Dir>)

  const EmptyDir := Dir(map[], map[])

  /** The slot that names an object's concrete kind, and this kind's tag. */
  const TypeKey := "type"
  const TypeTag := "PredictionNoExtrap"
  /** The child directory holding the saved extrapolation. */
  const ExtrapKey := "extrap"

  /** The directory reached from `t` along the path `p`, if there is one. */
  function Lookup(t: Dir, p: seq<string>): Option<Dir>
    decreases |p|
  {
    if p == [] then Some(t)
    else if p[0] in t.children then Lookup(t.children[p[0]], p[1..])
    else None
  }

  /** `t` with the directory at path `p` replaced by `n`. */
  function UpdateAt(t: Dir, p: seq<string>, n: Dir): Dir
    requires Lookup(t, p).Some?
    decreases |p|
  {
    if p == [] then n
    else t.(children := t.children[p[0] := UpdateAt(t.children[p[0]], p[1..], n)])
  }

  /** After replacing the directory at `p`, `p` leads to the replacement. */
  lemma {:induction false} LookupUpdate(t: Dir, p: seq<string>, n: Dir)
    requires Lookup(t, p).Some?
    ensures Lookup(UpdateAt(t, p, n), p) == Some(n)
    decreases |p|
  {
    if p != [] {
      LookupUpdate(t.children[p[0]], p[1..], n);
    }
  }

  /** A path that leaves the tree before reaching `p`'s directory, or turns
      off `p` at its first step, still leads where it did. */
  lemma {:induction false} UpdateKeepsSiblings(t: Dir, p: seq<string>, q: seq<string>, n: Dir)
    requires Lookup(t, p).Some?
    requires p != [] && q != [] && q[0] != p[0]
    ensures Lookup(UpdateAt(t, p, n), q) == Lookup(t, q)
  {
  }

  /** The store with ROOT's current directory (`gDirectory`), held as the
      path from the root of the tree. */
  class DirectoryStore {
    var root: Dir
    var cwd: seq<string>

    constructor (root: Dir)
      ensures this.root == root && cwd == []
    {
      this.root := root;
      cwd := [];
    }

    /** Makes `p` the current directory. */
    method Cd(p: seq<string>)
      modifies this`cwd
      ensures cwd == p
    {
      cwd := p;
    }

    /** Writes the string `value` under `key` in the current directory. */
    method WriteString(value: string, key: string)
      requires Lookup(root, cwd).Some?
      modifies this`root
      ensures var d := Lookup(old(root), cwd).value;
        root == UpdateAt(old(root), cwd, d.(strings := d.strings[key := value]))
    {
      var d := Lookup(root, cwd).value;
      root := UpdateAt(root, cwd, d.(strings := d.strings[key := value]));
    }

    /** Creates the empty sub-directory `name` of the directory at `p`. */
    method Mkdir(p: seq<string>, name: string) returns (child: seq<string>)
      requires Lookup(root, p).Some? && name !in Lookup(root, p).value.children
      modifies this`root
      ensures child == p + [name]
      ensures var d := Lookup(old(root), p).value;
        root == UpdateAt(old(root), p, d.(children := d.children[name := EmptyDir]))
    {
      var d := Lookup(root, p).value;
      root := UpdateAt(root, p, d.(children := d.children[name := EmptyDir]));
      child := p + [name];
    }

    /** Writes `content` into the directory at `p`, replacing what it held. */
    method Put(p: seq<string>, content: Dir)
      requires Lookup(root, p).Some?
      modifies this`root
      ensures root == UpdateAt(old(root), p, content)
    {
      root := UpdateAt(root, p, content);
    }
  }

  // ---------------------------------------------------------------------
  // Predictions and their extrapolation

  /** A bin layout; only passed through here. */
  datatype Binning = Binning(edges: seq<real>)

  /** A histogram axis: labels, binnings and variables, one per dimension. */
  datatype HistAxis = HistAxis(labels: seq<string>, bins: seq<Binning>, vars: seq<Var>)

  /** The one-dimensional axis `HistAxis(lbl, bins, var)`. */
  function AxisOf(lbl: string, bins: Binning, v: Var): HistAxis
  {
    HistAxis([lbl], [bins], [v])
  }

  /** The loaders a trivial extrapolation reads: four run-POT loaders, a
      registry (named by a handle), or nominal, swapped and tau loaders. */
  datatype ExtrapInputs =
    | FourLoaders(beam: LoaderRegistry.LoaderHandle, nue: LoaderRegistry.LoaderHandle,
                  nutau: LoaderRegistry.LoaderHandle, nc: LoaderRegistry.LoaderHandle)
    | FromRegistry(registry: nat)
    | ThreeLoaders(loader: LoaderRegistry.LoaderHandle, swap: LoaderRegistry.LoaderHandle,
                   tau: LoaderRegistry.LoaderHandle)

  /** How the histogram axis was given: whole, or as label, binning and variable. */
  datatype AxisArgs = ByAxis(axis: HistAxis) | ByLabel(lbl: string, bins: Binning, v: Var)

  /** A trivial extrapolation, described by the arguments it was built from. */
  datatype Extrap = TrivialExtrap(inputs: ExtrapInputs, axis: AxisArgs, cut: Cut, shift: SystShifts, wei: Var)

  /** A `PredictionNoExtrap`: it owns one extrapolation. */
  datatype Prediction = Prediction(extrap: Extrap)

  /** How an extrapolation is written to and read back from a directory. */
  datatype ExtrapCodec = ExtrapCodec(save: Extrap -> Dir, load: Dir -> Option<Extrap>)

  /** Reading back what was saved gives the same extrapolation. */
  ghost predicate RoundTrips(codec: ExtrapCodec)
  {
    forall x :: codec.load(codec.save(x)) == Some(x)
  }

  /** Four run-POT loaders with label, binning and variable. */
  function FromFourLoadersLabel(beam: LoaderRegistry.LoaderHandle, nue: LoaderRegistry.LoaderHandle,
                                nutau: LoaderRegistry.LoaderHandle, nc: LoaderRegistry.LoaderHandle,
                                lbl: string, bins: Binning, v: Var, cut: Cut, shift: SystShifts, wei: Var): Prediction
  {
    Prediction(TrivialExtrap(FourLoaders(beam, nue, nutau, nc), ByLabel(lbl, bins, v), cut, shift, wei))
  }

  /** Four run-POT loaders with an axis. */
  function FromFourLoadersAxis(beam: LoaderRegistry.LoaderHandle, nue: LoaderRegistry.LoaderHandle,
                               nutau: LoaderRegistry.LoaderHandle, nc: LoaderRegistry.LoaderHandle,
                               axis: HistAxis, cut: Cut, shift: SystShifts, wei: Var): Prediction
  {
    Prediction(TrivialExtrap(FourLoaders(beam, nue, nutau, nc), ByAxis(axis), cut, shift, wei))
  }

  /** Takes over the extrapolation of an existing prediction. */
  function FromPrediction(pred: Prediction): Prediction
  {
    Prediction(pred.extrap)
  }

  /** A registry with an axis. */
  function FromRegistryAxis(loaders: nat, axis: HistAxis, cut: Cut, shift: SystShifts, wei: Var): Prediction
  {
    Prediction(TrivialExtrap(FromRegistry(loaders), ByAxis(axis), cut, shift, wei))
  }

  /** A registry with label, binning and variable: delegates to the axis form. */
  function FromRegistryLabel(loaders: nat, lbl: string, bins: Binning, v: Var,
                             cut: Cut, shift: SystShifts, wei: Var): (p: Prediction)
    ensures p.extrap.inputs == FromRegistry(loaders)
    ensures p.extrap.axis == ByAxis(HistAxis([lbl], [bins], [v]))
  {
    FromRegistryAxis(loaders, AxisOf(lbl, bins, v), cut, shift, wei)
  }

  /** Nominal, swapped and tau loaders with label, binning and variable. */
  function FromThreeLoaders(loader: LoaderRegistry.LoaderHandle, loaderSwap: LoaderRegistry.LoaderHandle,
                            loaderTau: LoaderRegistry.LoaderHandle,
                            lbl: string, bins: Binning, v: Var, cut: Cut, shift: SystShifts, wei: Var): Prediction
  {
    Prediction(TrivialExtrap(ThreeLoaders(loader, loaderSwap, loaderTau), ByLabel(lbl, bins, v), cut, shift, wei))
  }

  /** Nominal and swapped loaders only: delegates with the null loader for taus. */
  function FromTwoLoaders(loader: LoaderRegistry.LoaderHandle, loaderSwap: LoaderRegistry.LoaderHandle,
                          lbl: string, bins: Binning, v: Var, cut: Cut, shift: SystShifts, wei: Var): (p: Prediction)
    ensures p.extrap.inputs == ThreeLoaders(loader, loaderSwap, LoaderRegistry.NullLoader)
  {
    FromThreeLoaders(loader, loaderSwap, LoaderRegistry.NullLoader, lbl, bins, v, cut, shift, wei)
  }

  /** The two-loader form is the three-loader form with the null loader. */
  lemma TwoLoadersUseNullTau(loader: LoaderRegistry.LoaderHandle, loaderSwap: LoaderRegistry.LoaderHandle,
                             lbl: string, bins: Binning, v: Var, cut: Cut, shift: SystShifts, wei: Var)
    ensures FromTwoLoaders(loader, loaderSwap, lbl, bins, v, cut, shift, wei)
         == FromThreeLoaders(loader, loaderSwap, LoaderRegistry.NullLoader, lbl, bins, v, cut, shift, wei)
  {
  }

  /** The label form on a registry is the axis form with `HistAxis(lbl, bins, var)`. */
  lemma RegistryLabelIsAxis(loaders: nat, lbl: string, bins: Binning, v: Var,
                            cut: Cut, shift: SystShifts, wei: Var)
    ensures FromRegistryLabel(loaders, lbl, bins, v, cut, shift, wei)
         == FromRegistryAxis(loaders, AxisOf(lbl, bins, v), cut, shift, wei)
  {
  }

  // The constructors keep every argument: equal predictions come only from
  // equal arguments.

  lemma AxisOfInjective(l1: string, b1: Binning, v1: Var, l2: string, b2: Binning, v2: Var)
    ensures AxisOf(l1, b1, v1) == AxisOf(l2, b2, v2) <==> l1 == l2 && b1 == b2 && v1 == v2
  {
    if AxisOf(l1, b1, v1) == AxisOf(l2, b2, v2) {
      assert AxisOf(l1, b1, v1).labels[0] == l1;
      assert AxisOf(l1, b1, v1).bins[0] == b1;
      assert AxisOf(l1, b1, v1).vars[0] == v1;
    }
  }

  lemma FourLoadersLabelInjective(
    a1: LoaderRegistry.LoaderHandle, a2: LoaderRegistry.LoaderHandle, a3: LoaderRegistry.LoaderHandle, a4: LoaderRegistry.LoaderHandle,
    l: string, b: Binning, v: Var, c: Cut, s: SystShifts, w: Var,
    a1': LoaderRegistry.LoaderHandle, a2': LoaderRegistry.LoaderHandle, a3': LoaderRegistry.LoaderHandle, a4': LoaderRegistry.LoaderHandle,
    l': string, b': Binning, v': Var, c': Cut, s': SystShifts, w': Var)
    ensures FromFourLoadersLabel(a1, a2, a3, a4, l, b, v, c, s, w) == FromFourLoadersLabel(a1', a2', a3', a4', l', b', v', c', s', w')
        <==> (a1, a2, a3, a4, l, b, v, c, s, w) == (a1', a2', a3', a4', l', b', v', c', s', w')
  {
  }

  lemma FourLoadersAxisInjective(
    a1: LoaderRegistry.LoaderHandle, a2: LoaderRegistry.LoaderHandle, a3: LoaderRegistry.LoaderHandle, a4: LoaderRegistry.LoaderHandle,
    x: HistAxis, c: Cut, s: SystShifts, w: Var,
    a1': LoaderRegistry.LoaderHandle, a2': LoaderRegistry.LoaderHandle, a3': LoaderRegistry.LoaderHandle, a4': LoaderRegistry.LoaderHandle,
    x': HistAxis, c': Cut, s': SystShifts, w': Var)
    ensures FromFourLoadersAxis(a1, a2, a3, a4, x, c, s, w) == FromFourLoadersAxis(a1', a2', a3', a4', x', c', s', w')
        <==> (a1, a2, a3, a4, x, c, s, w) == (a1', a2', a3', a4', x', c', s', w')
  {
  }

  lemma RegistryAxisInjective(r: nat, x: HistAxis, c: Cut, s: SystShifts, w: Var,
                              r': nat, x': HistAxis, c': Cut, s': SystShifts, w': Var)
    ensures FromRegistryAxis(r, x, c, s, w) == FromRegistryAxis(r', x', c', s', w')
        <==> (r, x, c, s, w) == (r', x', c', s', w')
  {
  }

  lemma ThreeLoadersInjective(
    a1: LoaderRegistry.LoaderHandle, a2: LoaderRegistry.LoaderHandle, a3: LoaderRegistry.LoaderHandle,
    l: string, b: Binning, v: Var, c: Cut, s: SystShifts, w: Var,
    a1': LoaderRegistry.LoaderHandle, a2': LoaderRegistry.LoaderHandle, a3': LoaderRegistry.LoaderHandle,
    l': string, b': Binning, v': Var, c': Cut, s': SystShifts, w': Var)
    ensures FromThreeLoaders(a1, a2, a3, l, b, v, c, s, w) == FromThreeLoaders(a1', a2', a3', l', b', v', c', s', w')
        <==> (a1, a2, a3, l, b, v, c, s, w) == (a1', a2', a3', l', b', v', c', s', w')
  {
  }

  /** Taking over the extrapolation of a prediction gives back that prediction. */
  lemma FromPredictionIsSame(pred: Prediction)
    ensures FromPrediction(pred) == pred
  {
  }

  // ---------------------------------------------------------------------
  // Saving and loading

  /** What saving `p` into the directory `d` leaves there: the type tag and
      the saved extrapolation in child `extrap`, and everything else as it was. */
  function Saved(d: Dir, p: Prediction, codec: ExtrapCodec): (r: Dir)
    ensures TypeKey in r.strings && r.strings[TypeKey] == TypeTag
    ensures ExtrapKey in r.children && r.children[ExtrapKey] == codec.save(p.extrap)
    ensures forall k :: k in d.strings && k != TypeKey ==> k in r.strings && r.strings[k] == d.strings[k]
    ensures forall k :: k in d.children && k != ExtrapKey ==> k in r.children && r.children[k] == d.children[k]
    ensures r.strings.Keys == d.strings.Keys + {TypeKey}
    ensures r.children.Keys == d.children.Keys + {ExtrapKey}
  {
    d.(strings := d.strings[TypeKey := TypeTag], children := d.children[ExtrapKey := codec.save(p.extrap)])
  }

  /** `SaveTo`: remembers the current directory, moves into `dir`, writes the
      type tag, saves the extrapolation into a new child `extrap`, and moves
      back. */
  method SaveTo(p: Prediction, dir: seq<string>, store: DirectoryStore, codec: ExtrapCodec)
    requires Lookup(store.root, dir).Some?
    requires ExtrapKey !in Lookup(store.root, dir).value.children
    modifies store
    ensures store.cwd == old(store.cwd)
    ensures store.root == UpdateAt(old(store.root), dir, Saved(Lookup(old(store.root), dir).value, p, codec))
  {
    ghost var d := Lookup(store.root, dir).value;
    var tmp := store.cwd;
    store.Cd(dir);
    store.WriteString(TypeTag, TypeKey);
    ghost var tagged := d.(strings := d.strings[TypeKey := TypeTag]);
    LookupUpdate(old(store.root), dir, tagged);
    var sub := store.Mkdir(dir, ExtrapKey);
    UpdateTwice(old(store.root), dir, tagged, tagged.(children := tagged.children[ExtrapKey := EmptyDir]));
    ghost var made := tagged.(children := tagged.children[ExtrapKey := EmptyDir]);
    LookupUpdate(old(store.root), dir, made);
    LookupChild(store.root, dir, ExtrapKey);
    store.Put(sub, codec.save(p.extrap));
    UpdateChild(old(store.root), dir, made, ExtrapKey, codec.save(p.extrap));
    assert made.(children := made.children[ExtrapKey := codec.save(p.extrap)]) == Saved(d, p, codec);
    store.Cd(tmp);
  }

  /** Two replacements at the same path keep the second. */
  lemma {:induction false} UpdateTwice(t: Dir, p: seq<string>, a: Dir, b: Dir)
    requires Lookup(t, p).Some?
    ensures Lookup(UpdateAt(t, p, a), p).Some?
    ensures UpdateAt(UpdateAt(t, p, a), p, b) == UpdateAt(t, p, b)
    decreases |p|
  {
    LookupUpdate(t, p, a);
    if p != [] {
      UpdateTwice(t.children[p[0]], p[1..], a, b);
    }
  }

  /** A child of a directory on the tree is reached by extending the path. */
  lemma {:induction false} LookupChild(t: Dir, p: seq<string>, name: string)
    requires Lookup(t, p).Some? && name in Lookup(t, p).value.children
    ensures Lookup(t, p + [name]) == Some(Lookup(t, p).value.children[name])
    decreases |p|
  {
    if p == [] {
      assert p + [name] == [name];
      assert [name][1..] == [];
    } else {
      assert (p + [name])[1..] == p[1..] + [name];
      LookupChild(t.children[p[0]], p[1..], name);
    }
  }

  /** Replacing a child of the directory at `p` is replacing that directory. */
  lemma {:induction false} UpdateChild(t: Dir, p: seq<string>, d: Dir, name: string, c: Dir)
    requires Lookup(t, p).Some?
    requires name in d.children
    ensures Lookup(UpdateAt(t, p, d), p + [name]).Some?
    ensures UpdateAt(UpdateAt(t, p, d), p + [name], c) == UpdateAt(t, p, d.(children := d.children[name := c]))
    decreases |p|
  {
    LookupUpdate(t, p, d);
    LookupChild(UpdateAt(t, p, d), p, name);
    if p == [] {
      assert p + [name] == [name];
      assert [name][1..] == [];
    } else {
      assert (p + [name])[1..] == p[1..] + [name];
      UpdateChild(t.children[p[0]], p[1..], d, name, c);
    }
  }

  /** `LoadFrom`: rebuilds the prediction from the extrapolation saved in the
      child `extrap`, which the directory must have. */
  function LoadFrom(dir: Dir, codec: ExtrapCodec): (r: Option<Prediction>)
    requires ExtrapKey in dir.children
    ensures r.Some? <==> codec.load(dir.children[ExtrapKey]).Some?
    ensures r.Some? ==> r.value.extrap == codec.load(dir.children[ExtrapKey]).value
  {
    match codec.load(dir.children[ExtrapKey])
    case None => None
    case Some(extrap) => Some(FromPrediction(Prediction(extrap)))
  }

  /** Loading what `SaveTo` wrote gives back the prediction, whenever the
      extrapolation itself round-trips. */
  lemma SaveThenLoad(t: Dir, dir: seq<string>, p: Prediction, codec: ExtrapCodec)
    requires RoundTrips(codec)
    requires Lookup(t, dir).Some?
    ensures var t' := UpdateAt(t, dir, Saved(Lookup(t, dir).value, p, codec));
      && Lookup(t', dir).Some?
      && TypeKey in Lookup(t', dir).value.strings
      && Lookup(t', dir).value.strings[TypeKey] == TypeTag
      && ExtrapKey in Lookup(t', dir).value.children
      && LoadFrom(Lookup(t', dir).value, codec) == Some(p)
  {
    var s := Saved(Lookup(t, dir).value, p, codec);
    LookupUpdate(t, dir, s);
    assert codec.load(codec.save(p.extrap)) == Some(p.extrap);
  }
}
