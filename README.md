# CAFAna spectrum filling, loader registry and energy-scale systematics in Dafny

This project models the core of CAFAna's single-pass machinery. Every
registered spectrum is filled from one read of the CAF files. Systematic
shifts are applied to each record in place and undone through a restorer.
The project has these modules:

- `LoaderRegistry`: the `Loaders` registry.
  - It holds one loader slot per (detector, data/MC, swap configuration).
  - Declaring a wildcard or a file list records the source only.
  - The loader is built the first time `GetLoader` asks for the slot.
  - Slots with no source hand back the shared null loader.
  - `Go` starts the loader of every slot that holds one, once per slot, in the order of `std::map` over the key tuple; a loader installed in two slots is started twice.
  - The registry is a class over three maps. Pure transition functions on a `Registry` value specify each method.
- `SpectrumLoading`: the single-use `SpectrumLoader`.
  - Registrations (cut, universe shift, variable, weight) come with their target spectra.
  - `Go` builds the list of distinct cuts with parallel POT and livetime accumulators.
  - For each file, it adds the exposure to every cut. It then passes the first `max_entries` records to `HandleRecord`.
  - `HandleRecord` shifts the record into each distinct universe in place, evaluates each distinct cut once, fills the passing spectra, and restores the record.
  - Finally, `StoreExposures` gives every spectrum its cut's totals, and the loader refuses further work.
  - `Go` is proved against a specification: every spectrum holds exactly the entries of the records read, as its own universe sees them.
- `EnergySysts`: the eleven fully defined energy-scale shifts, the `Shift` dispatcher and the settable `HadronCorr` object.
  - Each shift first adds the fields it may rewrite to the restorer, then rewrites some of them in place.
  - Each shift is gated on the detector and the interaction flags of the record.
- `Restorers` and `StandardRecords`: the support these shifts rely on.
  - `StandardRecords` holds the `dune` fields of the record, split into truth fields and seven writable reconstructed energies.
  - `Restorers` holds the restorer, an ordered ledger of (field, saved value) captures that draining writes back, last capture first.
- `Predictions`: `PredictionNoExtrap`.
  - Its constructors forward their arguments to a trivial extrapolation.
  - `SaveTo` writes the type tag and the extrapolation into a directory tree, restoring the current directory.
  - `LoadFrom` rebuilds the prediction from the `extrap` child.
- `PRISMUtils`: `FD_ND_FVRatio`, the ratio of the far-detector fiducial volume to that of a near-detector slice, over the reals.
- `Wrappers`: `Option`, `Result` and `Outcome`.

Double-precision values are reals. I/O is replaced by values:
- a CAF file is its exposure header and its records;
- a directory is a tree of maps.

Cut evaluation and variable evaluation are parameters, and so is an extrapolation's own save and load.

## Model

| member | source | states |
|---|---|---|
| LoaderRegistry.Empty | CAFAna/Core/Loaders.h:26-27 | a fresh registry has no path, file list or loader in any slot, and is consistent |
| LoaderRegistry.Loaders.constructor | CAFAna/Core/Loaders.h:26-27 | the three maps start empty and the registry invariant holds |
| LoaderRegistry.SetPath | CAFAna/Core/Loaders.h:30-34 | declares only a path for the slot. It succeeds exactly when the slot has neither a loader nor a file list, and is refused when the slot's loader exists or a file list is declared. Every other slot and the loader map are unchanged, and consistency is preserved |
| LoaderRegistry.Loaders.SetLoaderPath | CAFAna/Core/Loaders.h:30-34 | the new state and the outcome are those of `SetPath`; `swap` defaults to `NonSwap` |
| LoaderRegistry.SetFiles | CAFAna/Core/Loaders.h:36-40 | the file-list twin of `SetPath`: it succeeds exactly when the slot has neither a loader nor a path, with the same frame |
| LoaderRegistry.Loaders.SetLoaderFiles | CAFAna/Core/Loaders.h:36-40 | the new state and the outcome are those of `SetFiles` |
| LoaderRegistry.Add | CAFAna/Core/Loaders.h:42-45 | installs the caller's loader in the slot; the path and file-list maps, the near-detector flag and the other slots are unchanged, and consistency is kept |
| LoaderRegistry.Loaders.AddLoader | CAFAna/Core/Loaders.h:42-45 | the new state is that of `Add` |
| LoaderRegistry.Disable | CAFAna/Core/Loaders.h:47-49 | clears the slot in all three maps; the near-detector flag and the other slots are unchanged |
| LoaderRegistry.Loaders.DisableLoader | CAFAna/Core/Loaders.h:47-49 | the new state is that of `Disable` |
| LoaderRegistry.Retrieve | CAFAna/Core/Loaders.h:51-54 | an existing loader is returned unchanged. Otherwise a loader is built from the declared wildcard, else from the file list, and stored. A slot with neither gets the null loader and nothing changes. Declarations and other slots are untouched |
| LoaderRegistry.Loaders.GetLoader | CAFAna/Core/Loaders.h:51-54 | the returned loader and new state are those of `Retrieve` |
| LoaderRegistry.RetrieveIdempotent | CAFAna/Core/Loaders.h:68-69 | a slot's loader is built at most once: a second request returns the same loader and changes nothing |
| LoaderRegistry.RetrieveNullIff | CAFAna/Core/Loaders.h:71-72 | in a consistent registry, the null loader is returned exactly when the slot has no loader, path or file list |
| LoaderRegistry.DisableThenRetrieveIsNull | CAFAna/Core/Loaders.h:47-54 | after disabling a slot, `GetLoader` hands out the null loader |
| LoaderRegistry.Loaders.SetND | CAFAna/Core/Loaders.h:56-57 | `GetND` then returns the flag, and no map changes |
| LoaderRegistry.KeyLessTotal | CAFAna/Core/Loaders.h:63 | lexicographic order on the key tuple is irreflexive, total and asymmetric |
| LoaderRegistry.KeyLessTransitive | CAFAna/Core/Loaders.h:63 | the key order is transitive |
| LoaderRegistry.LeastKeyExists | CAFAna/Core/Loaders.h:63-69 | every non-empty set of slots has a least slot |
| LoaderRegistry.AscendingDistinct | CAFAna/Core/Loaders.h:59-60 | an ascending sequence of slots holds no slot twice |
| LoaderRegistry.Loaders.Go | CAFAna/Core/Loaders.h:59-60 | starts the loader of exactly the slots holding a loader, once per slot, in ascending key order; the handle started for each slot is that slot's loader |
| SpectrumLoading.Dedup | CAFAna/Core/SpectrumLoader.h:61-62 | the result has no repeats and holds exactly the elements of the input |
| SpectrumLoading.DedupOfDistinct | CAFAna/Core/SpectrumLoader.h:61-62 | deduplicating a repeat-free sequence changes nothing |
| SpectrumLoading.CutsCovered | CAFAna/Core/SpectrumLoader.h:61-62 | every registration's cut is among the distinct cuts |
| SpectrumLoading.IndexOf | CAFAna/Core/SpectrumLoader.h:63-64 | the index of a cut is its first position in the cut list |
| SpectrumLoading.SpectrumLoader.FromWildcard | CAFAna/Core/SpectrumLoader.h:26 | the wildcard, source (default beam) and `max` (default 0) are stored; there are no registrations and no cuts, and the loader is not used |
| SpectrumLoading.SpectrumLoader.FromFiles | CAFAna/Core/SpectrumLoader.h:27-28 | the same for an explicit file list |
| SpectrumLoading.SpectrumLoader.AddSpectrum | CAFAna/Core/SpectrumLoader.h:15-22 | before `Go`, appends the registration and an empty spectrum; after `Go`, it is refused and nothing changes |
| SpectrumLoading.SpectrumLoader.Go | CAFAna/Core/SpectrumLoader.h:15-38 | a second `Go` is refused and nothing changes. The first builds the distinct cuts and sets every cut's exposure to the files' totals. Each spectrum gets the entries of its registration over the records read, plus the total exposure. The loader is then frozen |
| SpectrumLoading.SpectrumLoader.ScanFiles | CAFAna/Core/SpectrumLoader.h:38-64 | collects the cuts, reads every file and stores the exposures, with the result `Go` promises |
| SpectrumLoading.SpectrumLoader.ReadFiles | CAFAna/Core/SpectrumLoader.h:51-65 | after reading all files, every cut's exposure is the files' total and every spectrum holds its entries over the processed records |
| SpectrumLoading.SpectrumLoader.CollectCuts | CAFAna/Core/SpectrumLoader.h:61-64 | the cut list becomes the distinct cuts of the registrations, with zeroed accumulators of the same length |
| SpectrumLoading.SpectrumLoader.HandleFile | CAFAna/Core/SpectrumLoader.h:51-65 | adds the file's exposure to every cut, and fills from the file's first `max_entries` records |
| SpectrumLoading.SpectrumLoader.AddExposure | CAFAna/Core/SpectrumLoader.h:51-64 | every cut's POT and livetime grow by the file's, whichever records pass |
| SpectrumLoading.SpectrumLoader.HandleRecords | CAFAna/Core/SpectrumLoader.h:51-53 | the records are handled in order: the spectra become those filled from all of them |
| SpectrumLoading.SpectrumLoader.HandleRecord | CAFAna/Core/SpectrumLoader.h:53 | every registration gets the entry its universe produces from the record, and the record is left as it was |
| SpectrumLoading.SpectrumLoader.RunUniverse | CAFAna/Core/SpectrumLoader.h:53 | one universe shifts the record, fills its registrations from the shifted record, and restores the record |
| SpectrumLoading.SpectrumLoader.EvaluateCuts | CAFAna/Core/SpectrumLoader.h:53-62 | each distinct cut is evaluated once; entry `c` is cut `c`'s verdict |
| SpectrumLoading.SpectrumLoader.FillUniverse | CAFAna/Core/SpectrumLoader.h:53-62 | exactly the registrations of this universe whose cut passed get one entry |
| SpectrumLoading.SpectrumLoader.StoreExposures | CAFAna/Core/SpectrumLoader.h:55-64 | every spectrum's POT and livetime become its cut's accumulated values, and its entries are unchanged |
| SpectrumLoading.ApplyShifts | CAFAna/Core/SpectrumLoader.h:53 | applies a universe's shifts in order; the record becomes `ShiftedRecord`, and draining the restorer still yields the unshifted record |
| SpectrumLoading.ShiftedRecord | CAFAna/Core/SpectrumLoader.h:53 | shifting never changes the truth fields |
| SpectrumLoading.ZeroSigmaUniverse | CAFAna/Core/SpectrumLoader.h:53 | a universe of zero-sigma shifts sees the record unchanged |
| SpectrumLoading.FillOn | CAFAna/Core/SpectrumLoader.h:53 | a registration gets one entry from a record exactly when its cut passes, and none otherwise |
| SpectrumLoading.FillsOverAppend | CAFAna/Core/SpectrumLoader.h:51-53 | filling from two runs of records is filling from the first, then the second |
| SpectrumLoading.FillsOverBound | CAFAna/Core/SpectrumLoader.h:53 | a registration gets at most one entry per record |
| SpectrumLoading.AddFills | CAFAna/Core/SpectrumLoader.h:53 | each spectrum keeps its exposure and gains its registration's entries over the records |
| SpectrumLoading.AddFillsAppend | CAFAna/Core/SpectrumLoader.h:51-53 | filling one run of records and then another is filling both at once |
| SpectrumLoading.AddNoFills | CAFAna/Core/SpectrumLoader.h:53 | no records leave every spectrum unchanged |
| SpectrumLoading.NextUniverse | CAFAna/Core/SpectrumLoader.h:53 | running the next distinct universe fills exactly that universe's registrations |
| SpectrumLoading.AllUniverses | CAFAna/Core/SpectrumLoader.h:53 | once every distinct universe has run on a record, each spectrum has at most one entry from that record, exactly when its cut passes |
| SpectrumLoading.Limit | CAFAna/Core/SpectrumLoader.h:26-65 | the records handled from a file are a prefix of its records, the first `max` of them when `max` is positive and the file is longer, and all of them otherwise |
| SpectrumLoading.ProcessedBound | CAFAna/Core/SpectrumLoader.h:65 | with a positive `max_entries`, at most `max_entries` records per file reach `HandleRecord` |
| SpectrumLoading.ProcessedPrefix | CAFAna/Core/SpectrumLoader.h:51-65 | the records of earlier files are handled first |
| SpectrumLoading.ReadStep | CAFAna/Core/SpectrumLoader.h:51-65 | reading one more file appends its limited records and adds its POT and livetime |
| SpectrumLoading.TotalsAppend | CAFAna/Core/SpectrumLoader.h:63-64 | exposure adds up over consecutive runs of files |
| Restorers.Snapshot | code/CAFAna/CAFAna/Systs/EnergySysts.h:25-28 | the captures a run of `restore.Add` calls appends: each field with its current value, in call order |
| Restorers.Restorer.constructor | code/CAFAna/CAFAna/Systs/EnergySysts.h:22 | a fresh restorer holds no captures |
| Restorers.Restorer.Add | code/CAFAna/CAFAna/Systs/EnergySysts.h:25-28 | appends the field with its current value |
| Restorers.Restorer.Drain | code/CAFAna/CAFAna/Systs/EnergySysts.h:22 | writes the captures back, most recent first, and empties the ledger |
| Restorers.UndoKeepsTruth | code/CAFAna/CAFAna/Systs/EnergySysts.h:25-28 | draining never changes the truth fields |
| Restorers.UndoAppend | code/CAFAna/CAFAna/Systs/EnergySysts.h:25-28 | draining a two-part ledger drains the later part first |
| Restorers.UndoSnapshot | code/CAFAna/CAFAna/Systs/EnergySysts.h:25-47 | draining a snapshot of the fields a record was allowed to change gives back the record as it was when the snapshot was taken |
| Restorers.RestoreAfterShift | code/CAFAna/CAFAna/Systs/EnergySysts.h:25-47 | adding fields and then rewriting only those leaves the drain result as it was before the shift |
| EnergySysts.MuLArShifted | code/CAFAna/CAFAna/Systs/EnergySysts.h:21-48 | only CC numu events change. In the ND, `isCC == 1` and `muon_contained == 1` are also needed, and only `Ev_reco`/`Elep_reco` move. In the FD, only `Ev_reco_numu`/`RecoLepEnNumu` move. Sigma 0 is the identity |
| EnergySysts.MuNDShifted | code/CAFAna/CAFAna/Systs/EnergySysts.h:62-76 | FD records are untouched. Only ND CC numu events with a muon stopping in the argon, tracker or calorimeter change, and only `Ev_reco`/`Elep_reco`. Sigma 0 is the identity |
| EnergySysts.EShifted | code/CAFAna/CAFAna/Systs/EnergySysts.h:89-113 | only CC nue events change: `Ev_reco` in the ND, `Ev_reco`/`Ev_reco_nue` in the FD. Sigma 0 is the identity |
| EnergySysts.MuFDShifted | code/CAFAna/CAFAna/Systs/EnergySysts.h:126-142 | ND records are untouched; only FD CC numu events change, and only `Ev_reco`/`Ev_reco_numu` |
| EnergySysts.EFDShifted | code/CAFAna/CAFAna/Systs/EnergySysts.h:155-171 | ND records are untouched; only FD CC nue events change, and only `Ev_reco`/`Ev_reco_nue` |
| EnergySysts.ENDShifted | code/CAFAna/CAFAna/Systs/EnergySysts.h:184-196 | FD records are untouched; only ND CC nue events change, and only `Ev_reco` |
| EnergySysts.HadronShifted | code/CAFAna/CAFAna/Systs/EnergySysts.h:211-238 | only the five registered energies move. A species with no visible energy, or sigma 0, leaves the record unchanged |
| EnergySysts.Shifted | code/CAFAna/CAFAna/Systs/EnergySysts.h:21-396 | every shift rewrites only the fields it registers; sigma 0 is the identity |
| EnergySysts.ShiftMuLAr | code/CAFAna/CAFAna/Systs/EnergySysts.h:21-48 | captures the four registered fields, then rewrites the record as `MuLArShifted` |
| EnergySysts.ShiftMuND | code/CAFAna/CAFAna/Systs/EnergySysts.h:62-76 | captures `Ev_reco`, `Elep_reco`, then rewrites the record as `MuNDShifted` |
| EnergySysts.ShiftE | code/CAFAna/CAFAna/Systs/EnergySysts.h:89-113 | captures `Ev_reco`, `Ev_reco_nue`, then rewrites the record as `EShifted` |
| EnergySysts.ShiftMuFD | code/CAFAna/CAFAna/Systs/EnergySysts.h:126-142 | captures `Ev_reco`, `Ev_reco_numu`, then rewrites the record as `MuFDShifted` |
| EnergySysts.ShiftEFD | code/CAFAna/CAFAna/Systs/EnergySysts.h:155-171 | captures `Ev_reco`, `Ev_reco_nue`, then rewrites the record as `EFDShifted` |
| EnergySysts.ShiftEND | code/CAFAna/CAFAna/Systs/EnergySysts.h:184-196 | captures `Ev_reco`, then rewrites the record as `ENDShifted` |
| EnergySysts.ShiftHadron | code/CAFAna/CAFAna/Systs/EnergySysts.h:211-238 | captures the five hadronic-energy fields, then rewrites the record as `HadronShifted` |
| EnergySysts.RescaleHadron | code/CAFAna/CAFAna/Systs/EnergySysts.h:222-237 | the in-place rescaling of a hadron shift equals `HadronShifted` |
| EnergySysts.Shift | code/CAFAna/CAFAna/Systs/EnergySysts.h:21-396 | every field a shift writes was captured first, so the restorer's drain result is the same after the shift as before |
| EnergySysts.ShiftTouchesOnlyRegistered | code/CAFAna/CAFAna/Systs/EnergySysts.h:21-396 | no shift changes a field it did not register, or any truth field |
| EnergySysts.DetectorGating | code/CAFAna/CAFAna/Systs/EnergySysts.h:72-195 | FD-only shifts leave ND records unchanged, and ND-only shifts leave FD records unchanged |
| EnergySysts.NearFractionIsFarOverThousand | code/CAFAna/CAFAna/Systs/EnergySysts.h:225-232 | the ND energy fraction is the FD formula divided by 1000 |
| EnergySysts.NearFractionYIsFarOverThousand | code/CAFAna/CAFAna/Systs/EnergySysts.h:225-232 | the same for the fraction of `Ev * Y` |
| EnergySysts.ShiftDefinedByTruth | code/CAFAna/CAFAna/Systs/EnergySysts.h:89-238 | whether a shift's divisions are defined depends only on truth fields, so shifting in sequence keeps later shifts defined |
| EnergySysts.ShortNamesDistinct | code/CAFAna/CAFAna/Systs/EnergySysts.h:18-404 | the twelve short names are pairwise distinct |
| EnergySysts.ShortNameOf | code/CAFAna/CAFAna/Systs/EnergySysts.h:18-365 | every per-species and lepton shift's short name starts with `eScale` |
| EnergySysts.HadronCorr.ShortName | code/CAFAna/CAFAna/Systs/EnergySysts.h:404 | `HadronCorr`'s short name differs from the short name of every other shift |
| EnergySysts.HadronCorr.constructor | code/CAFAna/CAFAna/Systs/EnergySysts.h:407-414 | each fraction is the argument given for its species |
| EnergySysts.HadronCorr.Default | code/CAFAna/CAFAna/Systs/EnergySysts.h:416-423 | fractions (N, P, Pim, Pip, Pi0) are (.25, .1, .05, .05, .1), which equal the per-species scale coefficients |
| EnergySysts.HadronCorr.SetNFraction | code/CAFAna/CAFAna/Systs/EnergySysts.h:430 | sets the neutron fraction and no other |
| EnergySysts.HadronCorr.SetPFraction | code/CAFAna/CAFAna/Systs/EnergySysts.h:431 | sets the proton fraction and no other |
| EnergySysts.HadronCorr.SetPimFraction | code/CAFAna/CAFAna/Systs/EnergySysts.h:432 | sets the pi-minus fraction and no other |
| EnergySysts.HadronCorr.SetPipFraction | code/CAFAna/CAFAna/Systs/EnergySysts.h:433 | sets the pi-plus fraction and no other |
| EnergySysts.HadronCorr.SetPi0Fraction | code/CAFAna/CAFAna/Systs/EnergySysts.h:434 | sets the pi-zero fraction and no other |
| EnergySysts.HadronCorr.SetAllFraction | code/CAFAna/CAFAna/Systs/EnergySysts.h:436-443 | sets all five fractions to the argument |
| Predictions.FourLoadersLabelInjective | code/CAFAna/CAFAna/Prediction/PredictionNoExtrap.cxx:16-29 | the four-loader label constructor keeps every argument: two predictions are equal exactly when all ten arguments are |
| Predictions.FourLoadersAxisInjective | code/CAFAna/CAFAna/Prediction/PredictionNoExtrap.cxx:32-43 | the four-loader axis constructor keeps every argument: two predictions are equal exactly when all eight arguments are |
| Predictions.FromPredictionIsSame | code/CAFAna/CAFAna/Prediction/PredictionNoExtrap.cxx:46-48 | taking over a prediction's extrapolation gives back an equal prediction |
| Predictions.RegistryAxisInjective | code/CAFAna/CAFAna/Prediction/PredictionNoExtrap.cxx:63-70 | the registry axis constructor keeps every argument: two predictions are equal exactly when all five arguments are |
| Predictions.FromRegistryLabel | code/CAFAna/CAFAna/Prediction/PredictionNoExtrap.cxx:51-60 | the axis is the one-dimensional `HistAxis(label, bins, var)` |
| Predictions.RegistryLabelIsAxis | code/CAFAna/CAFAna/Prediction/PredictionNoExtrap.cxx:51-60 | the label/bins/var constructor equals the axis constructor with `HistAxis(label, bins, var)` |
| Predictions.AxisOfInjective | code/CAFAna/CAFAna/Prediction/PredictionNoExtrap.cxx:58 | the one-dimensional axis keeps its label, binning and variable: two axes are equal exactly when all three are |
| Predictions.ThreeLoadersInjective | code/CAFAna/CAFAna/Prediction/PredictionNoExtrap.cxx:73-85 | the three-loader constructor keeps every argument: two predictions are equal exactly when all nine arguments are |
| Predictions.FromTwoLoaders | code/CAFAna/CAFAna/Prediction/PredictionNoExtrap.cxx:88-99 | the tau loader is the null loader |
| Predictions.TwoLoadersUseNullTau | code/CAFAna/CAFAna/Prediction/PredictionNoExtrap.cxx:88-99 | the two-loader constructor equals the three-loader constructor with the null loader for taus |
| Predictions.Saved | code/CAFAna/CAFAna/Prediction/PredictionNoExtrap.cxx:108-110 | the saved directory holds the tag `PredictionNoExtrap` under `type` and the saved extrapolation in child `extrap`, keeps every other entry, and adds no key besides those two |
| Predictions.SaveTo | code/CAFAna/CAFAna/Prediction/PredictionNoExtrap.cxx:102-113 | the target directory becomes `Saved`, the rest of the tree is untouched, and the current directory is what it was on entry |
| Predictions.DirectoryStore.constructor | code/CAFAna/CAFAna/Prediction/PredictionNoExtrap.cxx:104 | the store starts at its root |
| Predictions.DirectoryStore.Cd | code/CAFAna/CAFAna/Prediction/PredictionNoExtrap.cxx:106-112 | the current directory becomes the given one |
| Predictions.DirectoryStore.WriteString | code/CAFAna/CAFAna/Prediction/PredictionNoExtrap.cxx:108 | the string is written under the key in the current directory and nowhere else |
| Predictions.DirectoryStore.Mkdir | code/CAFAna/CAFAna/Prediction/PredictionNoExtrap.cxx:110 | an empty child is created and its path returned |
| Predictions.DirectoryStore.Put | code/CAFAna/CAFAna/Prediction/PredictionNoExtrap.cxx:110 | the directory's content becomes what the extrapolation saved |
| Predictions.LookupUpdate | code/CAFAna/CAFAna/Prediction/PredictionNoExtrap.cxx:106-110 | after replacing a directory, its path leads to the replacement |
| Predictions.UpdateKeepsSiblings | code/CAFAna/CAFAna/Prediction/PredictionNoExtrap.cxx:102-113 | paths that turn away from the target directory at the first step lead where they did |
| Predictions.LoadFrom | code/CAFAna/CAFAna/Prediction/PredictionNoExtrap.cxx:117-123 | requires the `extrap` child. It succeeds exactly when the extrapolation loads, and then holds the loaded extrapolation |
| Predictions.SaveThenLoad | code/CAFAna/CAFAna/Prediction/PredictionNoExtrap.cxx:108-122 | when the extrapolation round-trips, the saved directory is tagged and has the `extrap` child, and `LoadFrom` gives back the prediction |
| PRISMUtils.NDSliceFV | code/CAFAna/CAFAna/PRISM/PRISMUtils.h:31 | the ND slice volume is `x * 60000` and is positive for positive widths |
| PRISMUtils.FD_ND_FVRatio | code/CAFAna/CAFAna/PRISM/PRISMUtils.h:30-35 | the ratio times the ND slice volume is the FD volume; the ratio has the sign of the slice width |
| PRISMUtils.FarVolumeValue | code/CAFAna/CAFAna/PRISM/PRISMUtils.h:32 | the FD volume is 620 * 1100 * 1194 = 814,308,000 |
| PRISMUtils.RatioInverselyProportional | code/CAFAna/CAFAna/PRISM/PRISMUtils.h:30-35 | scaling the slice width by `k > 0` divides the ratio by `k` |

## Left out

- ROOT I/O is not modelled: `TFile` opening inside `HandleFile`, `TDirectory`, `TObjString`, histograms and progress reporting. Files are given as already-read values (exposure header and records), and a directory is an abstract tree of string and child maps.
- Wildcard resolution and the SAM-project constructor `FromSAMProject` (SpectrumLoader.h:30-35) are left out: both depend on the file system or an external catalogue. A loader keeps its wildcard or file list, and `Go` receives the files.
- The protected single-argument constructor, move and copy operations, and destructors (SpectrumLoader.h:41-49, PredictionNoExtrap.cxx:127-131) are C++ object lifetime, not behaviour.
- Console output is left out: `ReportExposures`, `HadronCorr::PrintFractions` and every `LatexName`.
- `HadronCorr::Shift` is declared but its body is not part of the source, so only `HadronCorr`'s state, constructors and setters are modelled.
- The `weight` argument of every `Shift` is never read or written by these shifts, so it is not a parameter of the model.
- Doubles are reals, with no rounding. Where IEEE division by zero would give inf or NaN, the model instead requires a non-zero divisor: `Ev` for the near-detector electron shifts, `Ev` and `Y` for the hadron shifts (`ShiftDefined`), and the slice width for `FD_ND_FVRatio`.
- `SpectrumLoading.SpectrumLoader.Go` requires every shift to be defined on the records it processes, which is the division condition above.
- The `Loaders.cxx` and `SpectrumLoader.cxx` bodies are not part of this model; where the header is silent, the model makes two modelling choices of its own:
  - Re-declaring a source for a slot whose loader exists, or declaring both kinds of source for one slot, is reported as a configuration error (`AlreadyReified`, `DualDeclaration`).
  - `DisableLoader` clears the slot, so that `GetLoader` then gives the null loader.
- `LoaderRegistry.Loaders.constructor` does not state the initial near-detector flag, which the header does not give.
- The `FluxType` enum of `Loaders.h` (line 24) is not used by any modelled member.
- Loaders are handles (`LoaderHandle`), not objects: `Loaders.Go` returns the slots whose loader it starts, with those loaders' handles, instead of running them, and a loader added by the caller is named by a number.
- `SpectrumLoading.SpectrumLoader.Go`: spectra are values held in a sequence parallel to the registrations, not shared objects, so aliasing between spectra is not modelled. A histogram fill is recorded as a (value, weight) entry rather than a bin increment.
- `max_entries` is applied to each file's records; with `max_entries <= 0` every record is read.
- Distinct cuts and universes are collected in registration order, with equality of their descriptions. The C++ orders them as its containers do, which changes only the order of work, not the filled spectra.
- Cut and variable evaluation are parameters of `Go`; the physics inside cuts and variables is not modelled.
- A `SystShifts` is a list of shifts with sigmas, not the C++ map with one sigma per systematic, so the model allows a systematic twice and applies shifts in list order. Every shift here scales by factors read from truth fields only, which a shift never writes.
- Nominal and shifted universes share one mechanism: the nominal universe is the empty shift list.
- `Predictions.LoadFrom`: the extrapolation's own save and load (`TrivialExtrap`, `ana::LoadFrom<IExtrap>`) are opaque functions given as an `ExtrapCodec`. The round trip is proved under the assumption `RoundTrips` on that codec, and a failing extrapolation load yields `None`.
- `Predictions.SaveTo` requires the target directory to have no `extrap` child yet, since ROOT's `mkdir` would return no directory for an existing name.
- `PredictionExtrap`, `TrivialExtrap` and oscillation physics are not part of this model. An extrapolation is described by the arguments it was built from.
