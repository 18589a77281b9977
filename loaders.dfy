/** The loader registry (`Loaders`): one loader slot per (detector, data or
    simulation, swap configuration). Sources are only declared by
    `SetLoaderPath`/`SetLoaderFiles`; a loader is built from its declared
    source the first time `GetLoader` asks for the slot, and a slot with no
    source gets the shared null loader. */
module LoaderRegistry {
  import opened Wrappers

  /** Detector identifiers (`caf::Det_t`). */
  const kNEARDET: int := 1
  const kFARDET: int := 2

  datatype DataMC = Data | MC
  datatype SwappingConfig = NonSwap | NueSwap | NuTauSwap

  /** A loader slot (`Key_t`). */
  datatype Key = Key(det: int, datamc: DataMC, swap: SwappingConfig)

  /** A declared data source: a wildcard path or an explicit file list. */
  datatype Source = Wildcard(path: string) | FileList(files: seq<string>)

  /** What `GetLoader` hands out: the shared null loader, a spectrum loader
      built from a declared source, or a loader the caller installed with
      `AddLoader` (identified by the caller's handle). */
  datatype LoaderHandle = NullLoader | Reified(source: Source) | Added(handle: nat)

  datatype ConfigError =
    | AlreadyReified(key: Key)    // the slot's loader already exists
    | DualDeclaration(key: Key)   // the slot already has the other kind of source

  /** The registry's three maps and the near-detector flag. */
  datatype Registry = Registry(
    paths: map<Key, string>,
    files: map<Key, seq<string>>,
    loaders: map<Key, LoaderHandle>,
    nd: bool)

  /** Everything the registry holds for one slot. */
  datatype Slot = Slot(path: Option<string>, files: Option<seq<string>>, loader: Option<LoaderHandle>)

  function Lookup<V>(m: map<Key, V>, k: Key): Option<V>
  {
    if k in m then Some(m[k]) else None
  }

  function SlotOf(st: Registry, k: Key): Slot
  {
    Slot(Lookup(st.paths, k), Lookup(st.files, k), Lookup(st.loaders, k))
  }

  /** Every slot other than `key` holds the same entries in `a` and `b`. */
  ghost predicate OthersUnchanged(a: Registry, b: Registry, key: Key)
  {
    forall k :: k != key ==> SlotOf(a, k) == SlotOf(b, k)
  }

  /** The registry invariant: no slot declares both kinds of source, the null
      loader is never stored, and a loader built from a declaration was built
      from the source still declared for its slot. */
  ghost predicate Consistent(st: Registry)
  {
    && st.paths.Keys !! st.files.Keys
    && (forall k :: k in st.loaders ==> st.loaders[k] != NullLoader)
    && (forall k :: k in st.loaders && st.loaders[k].Reified? ==>
          match st.loaders[k].source
          case Wildcard(p) => k in st.paths && st.paths[k] == p
          case FileList(fs) => k in st.files && st.files[k] == fs)
  }

  /** A fresh registry: no declarations and no loaders. */
  function Empty(nd: bool): (st: Registry)
    ensures Consistent(st)
    ensures forall k :: SlotOf(st, k) == Slot(None, None, None)
  {
    Registry(map[], map[], map[], nd)
  }

  /** `SetLoaderPath`: declares a wildcard for the slot, refused once the
      slot's loader exists or when a file list is declared for it. */
  function SetPath(st: Registry, path: string, key: Key): (r: Result<Registry, ConfigError>)
    ensures key in st.loaders ==> r == Failure(AlreadyReified(key))
    ensures key !in st.loaders && key in st.files ==> r == Failure(DualDeclaration(key))
    ensures r.Success? <==> key !in st.loaders && key !in st.files
    ensures r.Success? ==>
      && SlotOf(r.value, key) == SlotOf(st, key).(path := Some(path))
      && r.value.loaders == st.loaders && r.value.files == st.files && r.value.nd == st.nd
      && OthersUnchanged(r.value, st, key)
    ensures r.Success? && Consistent(st) ==> Consistent(r.value)
  {
    if key in st.loaders then Failure(AlreadyReified(key))
    else if key in st.files then Failure(DualDeclaration(key))
    else Success(st.(paths := st.paths[key := path]))
  }

  /** `SetLoaderFiles`: declares a file list for the slot, refused once the
      slot's loader exists or when a wildcard is declared for it. */
  function SetFiles(st: Registry, files: seq<string>, key: Key): (r: Result<Registry, ConfigError>)
    ensures key in st.loaders ==> r == Failure(AlreadyReified(key))
    ensures key !in st.loaders && key in st.paths ==> r == Failure(DualDeclaration(key))
    ensures r.Success? <==> key !in st.loaders && key !in st.paths
    ensures r.Success? ==>
      && SlotOf(r.value, key) == SlotOf(st, key).(files := Some(files))
      && r.value.loaders == st.loaders && r.value.paths == st.paths && r.value.nd == st.nd
      && OthersUnchanged(r.value, st, key)
    ensures r.Success? && Consistent(st) ==> Consistent(r.value)
  {
    if key in st.loaders then Failure(AlreadyReified(key))
    else if key in st.paths then Failure(DualDeclaration(key))
    else Success(st.(files := st.files[key := files]))
  }

  /** `AddLoader`: installs a caller-built loader in the slot. */
  function Add(st: Registry, handle: nat, key: Key): (r: Registry)
    ensures SlotOf(r, key).loader == Some(Added(handle))
    ensures r.paths == st.paths && r.files == st.files && r.nd == st.nd
    ensures OthersUnchanged(r, st, key)
    ensures Consistent(st) ==> Consistent(r)
  {
    st.(loaders := st.loaders[key := Added(handle)])
  }

  /** `DisableLoader`: clears the slot, so that it gets the null loader. */
  function Disable(st: Registry, key: Key): (r: Registry)
    ensures SlotOf(r, key) == Slot(None, None, None)
    ensures r.nd == st.nd
    ensures OthersUnchanged(r, st, key)
    ensures Consistent(st) ==> Consistent(r)
  {
    Registry(st.paths - {key}, st.files - {key}, st.loaders - {key}, st.nd)
  }

  /** `GetLoader`: the slot's loader, built from its declared source on first
      request; the null loader for a slot with neither loader nor source. */
  function Retrieve(st: Registry, key: Key): (r: (Registry, LoaderHandle))
    ensures OthersUnchanged(r.0, st, key)
    ensures r.0.paths == st.paths && r.0.files == st.files && r.0.nd == st.nd
    ensures key in st.loaders ==> r == (st, st.loaders[key])
    ensures key !in st.loaders && key in st.paths ==>
      r.1 == Reified(Wildcard(st.paths[key])) && r.0.loaders == st.loaders[key := r.1]
    ensures key !in st.loaders && key !in st.paths && key in st.files ==>
      r.1 == Reified(FileList(st.files[key])) && r.0.loaders == st.loaders[key := r.1]
    ensures key !in st.loaders && key !in st.paths && key !in st.files ==> r == (st, NullLoader)
    ensures Consistent(st) ==> Consistent(r.0)
  {
    if key in st.loaders then (st, st.loaders[key])
    else if key in st.paths then
      var l := Reified(Wildcard(st.paths[key]));
      (st.(loaders := st.loaders[key := l]), l)
    else if key in st.files then
      var l := Reified(FileList(st.files[key]));
      (st.(loaders := st.loaders[key := l]), l)
    else (st, NullLoader)
  }

  /** A slot's loader is built at most once: asking again returns the same
      loader and changes nothing. */
  lemma RetrieveIdempotent(st: Registry, key: Key)
    ensures var (st1, l1) := Retrieve(st, key); Retrieve(st1, key) == (st1, l1)
  {
  }

  /** In a consistent registry, `GetLoader` hands out the null loader exactly
      when the slot has neither a loader nor a declared source. */
  lemma RetrieveNullIff(st: Registry, key: Key)
    requires Consistent(st)
    ensures Retrieve(st, key).1 == NullLoader <==> SlotOf(st, key) == Slot(None, None, None)
  {
  }

  /** After `DisableLoader`, the slot hands out the null loader. */
  lemma DisableThenRetrieveIsNull(st: Registry, key: Key)
    ensures Retrieve(Disable(st, key), key) == (Disable(st, key), NullLoader)
  {
  }

  // ---------------------------------------------------------------------
  // The order in which `Go` visits the slots: `std::map` over the key tuple

  function DataMCRank(x: DataMC): nat
  {
    match x
    case Data => 0
    case MC => 1
  }

  function SwapRank(x: SwappingConfig): nat
  {
    match x
    case NonSwap => 0
    case NueSwap => 1
    case NuTauSwap => 2
  }

  /** Lexicographic order on (det, datamc, swap), as `std::tuple` compares. */
  predicate KeyLess(a: Key, b: Key)
  {
    || a.det < b.det
    || (a.det == b.det && DataMCRank(a.datamc) < DataMCRank(b.datamc))
    || (a.det == b.det && a.datamc == b.datamc && SwapRank(a.swap) < SwapRank(b.swap))
  }

  /** `KeyLess` is a strict total order. */
  lemma KeyLessTotal(a: Key, b: Key)
    ensures !KeyLess(a, a)
    ensures a != b ==> KeyLess(a, b) || KeyLess(b, a)
    ensures !(KeyLess(a, b) && KeyLess(b, a))
  {
  }

  lemma KeyLessTransitive(a: Key, b: Key, c: Key)
    requires KeyLess(a, b) && KeyLess(b, c)
    ensures KeyLess(a, c)
  {
  }

  ghost predicate Ascending(ks: seq<Key>)
  {
    forall i, j :: 0 <= i < j < |ks| ==> KeyLess(ks[i], ks[j])
  }

  /** `m` is the least slot of `s`. */
  predicate IsLeast(m: Key, s: set<Key>)
  {
    m in s && forall k :: k in s && k != m ==> KeyLess(m, k)
  }

  /** Every non-empty set of slots has a least slot. */
  lemma {:induction false} LeastKeyExists(s: set<Key>)
    requires s != {}
    ensures exists m :: IsLeast(m, s)
    decreases |s|
  {
    var x :| x in s;
    if s == {x} {
      assert IsLeast(x, s);
    } else {
      var rest := s - {x};
      LeastKeyExists(rest);
      var m :| IsLeast(m, rest);
      KeyLessTotal(m, x);
      if KeyLess(m, x) {
        forall k | k in s && k != m
          ensures KeyLess(m, k)
        {
          if k != x {
            assert k in rest;
          }
        }
        assert IsLeast(m, s);
      } else {
        forall k | k in s && k != x
          ensures KeyLess(x, k)
        {
          if k != m {
            assert k in rest;
            KeyLessTransitive(x, m, k);
          }
        }
        assert IsLeast(x, s);
      }
    }
  }

  /** An ascending sequence of slots holds no slot twice. */
  lemma AscendingDistinct(ks: seq<Key>, i: int, j: int)
    requires Ascending(ks) && 0 <= i < j < |ks|
    ensures ks[i] != ks[j]
  {
    KeyLessTotal(ks[i], ks[j]);
  }

  /** The registry object. */
  class Loaders {
    var loaderPaths: map<Key, string>
    var loaderFiles: map<Key, seq<string>>
    var loaders: map<Key, LoaderHandle>
    var nd: bool

    function State(): Registry
      reads this
    {
      Registry(loaderPaths, loaderFiles, loaders, nd)
    }

    ghost predicate Valid()
      reads this
    {
      Consistent(State())
    }

    /** No loaders built and no sources declared. */
    constructor ()
      ensures Valid()
      ensures loaderPaths == map[] && loaderFiles == map[] && loaders == map[]
    {
      loaderPaths := map[];
      loaderFiles := map[];
      loaders := map[];
      nd := false;
    }

    method SetLoaderPath(path: string, det: int, datamc: DataMC, swap: SwappingConfig := NonSwap)
      returns (r: Outcome<ConfigError>)
      requires Valid()
      modifies this
      ensures Valid()
      ensures var res := SetPath(old(State()), path, Key(det, datamc, swap));
        && (res.Success? ==> r == Pass && State() == res.value)
        && (res.Failure? ==> r == Fail(res.error) && State() == old(State()))
    {
      var key := Key(det, datamc, swap);
      if key in loaders {
        r := Fail(AlreadyReified(key));
      } else if key in loaderFiles {
        r := Fail(DualDeclaration(key));
      } else {
        loaderPaths := loaderPaths[key := path];
        r := Pass;
      }
    }

    method SetLoaderFiles(files: seq<string>, det: int, datamc: DataMC, swap: SwappingConfig := NonSwap)
      returns (r: Outcome<ConfigError>)
      requires Valid()
      modifies this
      ensures Valid()
      ensures var res := SetFiles(old(State()), files, Key(det, datamc, swap));
        && (res.Success? ==> r == Pass && State() == res.value)
        && (res.Failure? ==> r == Fail(res.error) && State() == old(State()))
    {
      var key := Key(det, datamc, swap);
      if key in loaders {
        r := Fail(AlreadyReified(key));
      } else if key in loaderPaths {
        r := Fail(DualDeclaration(key));
      } else {
        loaderFiles := loaderFiles[key := files];
        r := Pass;
      }
    }

    method AddLoader(handle: nat, det: int, datamc: DataMC, swap: SwappingConfig := NonSwap)
      requires Valid()
      modifies this
      ensures Valid()
      ensures State() == Add(old(State()), handle, Key(det, datamc, swap))
    {
      loaders := loaders[Key(det, datamc, swap) := Added(handle)];
    }

    method DisableLoader(det: int, datamc: DataMC, swap: SwappingConfig := NonSwap)
      requires Valid()
      modifies this
      ensures Valid()
      ensures State() == Disable(old(State()), Key(det, datamc, swap))
    {
      var key := Key(det, datamc, swap);
      loaders := loaders - {key};
      loaderPaths := loaderPaths - {key};
      loaderFiles := loaderFiles - {key};
    }

    method GetLoader(det: int, datamc: DataMC, swap: SwappingConfig := NonSwap)
      returns (l: LoaderHandle)
      requires Valid()
      modifies this
      ensures Valid()
      ensures (State(), l) == Retrieve(old(State()), Key(det, datamc, swap))
    {
      var key := Key(det, datamc, swap);
      if key in loaders {
        l := loaders[key];
      } else if key in loaderPaths {
        l := Reified(Wildcard(loaderPaths[key]));
        loaders := loaders[key := l];
      } else if key in loaderFiles {
        l := Reified(FileList(loaderFiles[key]));
        loaders := loaders[key := l];
      } else {
        l := NullLoader;
      }
    }

    method SetND(nd: bool)
      modifies this`nd
      ensures GetND() == nd
      ensures State() == old(State()).(nd := nd)
    {
      this.nd := nd;
    }

    function GetND(): bool
      reads this
    {
      nd
    }

    /** `Go`: calls `Go` on the loader of every slot that holds one, once per
        slot, in ascending slot order. `started` is the sequence of slots
        visited and `handles` the loaders started, position by position; a
        loader installed in two slots is started twice. */
    method Go() returns (started: seq<Key>, handles: seq<LoaderHandle>)
      ensures forall k :: k in started <==> k in loaders
      ensures Ascending(started)
      ensures |started| == |loaders|
      ensures |handles| == |started|
      ensures forall i :: 0 <= i < |started| ==> handles[i] == loaders[started[i]]
    {
      started := [];
      handles := [];
      var todo := loaders.Keys;
      while todo != {}
        invariant todo <= loaders.Keys
        invariant forall k :: k in loaders <==> k in started || k in todo
        invariant forall k :: k in started ==> k !in todo
        invariant Ascending(started)
        invariant forall i, k :: 0 <= i < |started| && k in todo ==> KeyLess(started[i], k)
        invariant |started| + |todo| == |loaders|
        invariant |handles| == |started|
        invariant forall i :: 0 <= i < |started| ==> handles[i] == loaders[started[i]]
        decreases todo
      {
        LeastKeyExists(todo);
        var k :| IsLeast(k, todo);
        started := started + [k];
        handles := handles + [loaders[k]];
        todo := todo - {k};
      }
    }
  }
}
