/** The undo ledger that lets a systematic shift rewrite a record in place and
    later put every touched field back. `Add` records a field together with its
    value at that moment; draining writes the saved values back, last entry
    first, so the earliest capture of a field is the one that survives. */
module Restorers {
  import opened StandardRecords

  /** One ledger entry: a field and the value it held when it was added. */
  datatype Entry = Entry(field: Field, saved: real)

  /** The fields mentioned by a ledger, in ledger order. */
  function FieldsOf(es: seq<Entry>): (fs: seq<Field>)
    ensures |fs| == |es|
    ensures forall i :: 0 <= i < |es| ==> fs[i] == es[i].field
  {
    seq(|es|, i requires 0 <= i < |es| => es[i].field)
  }

  /** What draining ledger `es` does to the record value `cur`: write the
      saved values back, starting from the most recent entry. */
  function Undo(cur: Dune, es: seq<Entry>): Dune
    decreases |es|
  {
    if es == [] then cur
    else Undo(Set(cur, es[|es| - 1].field, es[|es| - 1].saved), es[..|es| - 1])
  }

  /** The entries that adding the fields `fs` of record `d`, in order, appends. */
  function Snapshot(d: Dune, fs: seq<Field>): (es: seq<Entry>)
    ensures |es| == |fs|
    ensures forall i :: 0 <= i < |fs| ==> es[i] == Entry(fs[i], Get(d, fs[i]))
  {
    seq(|fs|, i requires 0 <= i < |fs| => Entry(fs[i], Get(d, fs[i])))
  }

  /** Draining only ever rewrites writable fields. */
  lemma {:induction false} UndoKeepsTruth(cur: Dune, es: seq<Entry>)
    ensures Truth(Undo(cur, es)) == Truth(cur)
    decreases |es|
  {
    if es != [] {
      var last := es[|es| - 1];
      UndoKeepsTruth(Set(cur, last.field, last.saved), es[..|es| - 1]);
    }
  }

  /** Draining a ledger made of two parts drains the later part first. */
  lemma {:induction false} UndoAppend(cur: Dune, es1: seq<Entry>, es2: seq<Entry>)
    ensures Undo(cur, es1 + es2) == Undo(Undo(cur, es2), es1)
    decreases |es2|
  {
    if es2 == [] {
      assert es1 + es2 == es1;
    } else {
      var last := es2[|es2| - 1];
      assert (es1 + es2)[..|es1 + es2| - 1] == es1 + es2[..|es2| - 1];
      UndoAppend(Set(cur, last.field, last.saved), es1, es2[..|es2| - 1]);
    }
  }

  /** `Add` is harmless on its own: capturing a field's current value does not
      change what draining produces (in particular a second capture of a field
      is a no-op for the drain). */
  lemma AddKeepsDrain(cur: Dune, es: seq<Entry>, f: Field)
    ensures Undo(cur, es + [Entry(f, Get(cur, f))]) == Undo(cur, es)
  {
    assert (es + [Entry(f, Get(cur, f))])[..|es|] == es;
    SetSame(cur, f);
  }

  /** The undo discipline: once a field has been added to the ledger, writing
      any value into it does not change what draining produces. */
  lemma {:induction false} WriteAfterAddKeepsDrain(cur: Dune, es: seq<Entry>, f: Field, x: real)
    requires f in FieldsOf(es)
    ensures Undo(Set(cur, f, x), es) == Undo(cur, es)
    decreases |es|
  {
    var last := es[|es| - 1];
    var init := es[..|es| - 1];
    if last.field == f {
      SetSet(cur, f, x, last.saved);
    } else {
      SetCommutes(cur, f, x, last.field, last.saved);
      assert f in FieldsOf(init) by {
        var i :| 0 <= i < |es| && FieldsOf(es)[i] == f;
        assert i < |es| - 1;
        assert FieldsOf(init)[i] == f;
      }
      WriteAfterAddKeepsDrain(Set(cur, last.field, last.saved), init, f, x);
    }
  }

  /** Draining a snapshot of `d` over the fields in which `cur` may differ
      from `d` gives back exactly `d`. */
  lemma {:induction false} UndoSnapshot(cur: Dune, d: Dune, fs: seq<Field>)
    requires AgreeOutside(cur, d, fs)
    ensures Undo(cur, Snapshot(d, fs)) == d
    decreases |fs|
  {
    var es := Snapshot(d, fs);
    if fs == [] {
      Extensionality(cur, d);
    } else {
      var f := fs[|fs| - 1];
      var init := fs[..|fs| - 1];
      var next := Set(cur, f, Get(d, f));
      assert es[..|es| - 1] == Snapshot(d, init);
      assert AgreeOutside(next, d, init) by {
        forall g | g !in init
          ensures Get(next, g) == Get(d, g)
        {
          if g != f {
            assert g !in fs;
          }
        }
      }
      UndoSnapshot(next, d, init);
    }
  }

  /** A shift that adds the fields `fs` of record `d` to a ledger `es` and then
      rewrites only those fields leaves the drain result as it was: draining
      still yields what it would have yielded before the shift began. */
  lemma RestoreAfterShift(cur: Dune, d: Dune, fs: seq<Field>, es: seq<Entry>)
    requires AgreeOutside(cur, d, fs)
    ensures Undo(cur, es + Snapshot(d, fs)) == Undo(d, es)
  {
    UndoAppend(cur, es, Snapshot(d, fs));
    UndoSnapshot(cur, d, fs);
  }

  /** The ledger object (`Restorer`): an ordered list of (field, saved value)
      captures for one record. */
  class Restorer {
    var entries: seq<Entry>

    /** A fresh restorer holds no captures. */
    constructor ()
      ensures entries == []
    {
      entries := [];
    }

    /** Captures the current value of field `f` of `sr`. */
    method Add(sr: StandardRecord, f: Field)
      modifies this
      ensures entries == old(entries) + [Entry(f, Get(sr.dune, f))]
    {
      entries := entries + [Entry(f, Get(sr.dune, f))];
    }

    /** Writes every captured value back into `sr`, most recent capture
        first, and empties the ledger. */
    method Drain(sr: StandardRecord)
      modifies this, sr
      ensures sr.dune == Undo(old(sr.dune), old(entries))
      ensures entries == []
    {
      var i := |entries|;
      assert entries[..i] == entries;
      while i > 0
        invariant 0 <= i <= |entries|
        invariant entries == old(entries)
        invariant Undo(sr.dune, entries[..i]) == Undo(old(sr.dune), old(entries))
      {
        assert entries[..i][..i - 1] == entries[..i - 1];
        i := i - 1;
        sr.dune := Set(sr.dune, entries[i].field, entries[i].saved);
      }
      entries := [];
    }
  }
}
