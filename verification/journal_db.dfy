// veda/db/journal.py: JournalDB, the view of a wrapped map through a journal.
module JournalDatabase {
  import opened Wrappers
  import opened Snapshots
  import opened Entries
  import opened Journaling

  // Deletions of wrapped keys are recorded only for keys that are there.
  predicate Fits<K, V>(m: map<K, Change<V>>, w: map<K, V>) {
    forall k :: k in m && m[k].DeleteWrapped? ==> k in w
  }

  // And local deletions are current only for keys that are not.
  predicate AllFit<K, V>(s: State<K, V>, w: map<K, V>) {
    && Fits(s.current, w) && (forall k :: k in s.current && s.current[k].RevertToWrapped? ==> k !in w)
    && forall i :: 0 <= i < |s.entries| ==> Fits(s.entries[i].changes, w)
  }

  lemma {:induction false} UnwindFits<K, V>(current: map<K, Change<V>>, entries: seq<Entry<K, V>>, id: Checkpoint, w: map<K, V>)
    requires Fits(current, w) && forall i :: 0 <= i < |entries| ==> Fits(entries[i].changes, w)
    ensures var (c, e) := Unwind(current, entries, id);
            Fits(c, w) && forall i :: 0 <= i < |e| ==> Fits(e[i].changes, w)
    decreases |entries|
  {
    if entries != [] {
      var undone := Overlay(current, Last(entries).changes);
      assert Fits(undone, w);
      if Last(entries).id != id {
        UnwindFits(undone, Front(entries), id, w);
      }
    }
  }

  lemma DiscardFits<K, V>(s: State<K, V>, id: Checkpoint, w: map<K, V>)
    requires AllFit(s, w) && id in s.stack
    ensures AllFit(DoDiscard(s, id), w)
  {
    UnwindFits(s.current, s.entries, id, w);
    UnwindLocal(s.current, s.entries, id);
  }

  lemma WriteFits<K, V>(s: State<K, V>, k: K, c: Change<V>, w: map<K, V>)
    requires AllFit(s, w) && s.entries != []
    requires (c.DeleteWrapped? ==> k in w) && (c.RevertToWrapped? ==> k !in w)
    ensures AllFit(DoWrite(s, k, c), w)
  {}

  // What is written to the wrapped map when changes are persisted.
  function Persisted<K, V>(delta: map<K, Change<V>>, w: map<K, V>): map<K, V> {
    View(Level(delta, false), w)
  }

  // Persisting keeps what a reader sees just when no clear is pending or the
  // changes say something about every key of the wrapped map.
  lemma PersistKeepsViewIff<K, V>(l: Level<K, V>, w: map<K, V>)
    ensures Persisted(l.delta, w) == View(l, w) <==> !l.cleared || w.Keys <= l.delta.Keys
  {
    var p, v := Persisted(l.delta, w), View(l, w);
    if l.cleared && w.Keys <= l.delta.Keys {
      forall k ensures At(p, k) == At(v, k) {
        ViewAt(Level(l.delta, false), w, k);
        ViewAt(l, w, k);
      }
      SameAt(p, v);
    } else if l.cleared {
      var k :| k in w && k !in l.delta;
      ViewAt(Level(l.delta, false), w, k);
      ViewAt(l, w, k);
      assert At(p, k) != At(v, k);
    }
  }

  class JournalDB<K(==, !new), V> {
    var wrapped: map<K, V>
    const journal: Journal<K, V>

    ghost predicate Valid()
      reads this, journal
    {
      journal.Consistent() && journal.journalData != [] && AllFit(journal.Value(), wrapped)
    }

    // What the pending checkpoints remember, the oldest first.
    ghost function Remembered(): seq<Mark<K, V>>
      reads journal
    {
      Meaning(journal.Value()).marks
    }

    // What a reader sees.
    ghost function Contents(): map<K, V>
      reads this, journal
    {
      View(Meaning(journal.Value()).now, wrapped)
    }

    constructor (w: map<K, V>, next: Checkpoint)
      ensures Valid() && wrapped == w && fresh(journal) && journal.Value() == Initial(next)
    {
      wrapped := w;
      journal := new Journal();
      new;
      var _ := journal.PopAll(next);
    }

    lemma LookupIsView(k: K)
      requires Valid()
      ensures At(Contents(), k) ==
              match Lookup(journal.Value(), k)
              case None => At(wrapped, k)
              case Some(change) => if change.Put? then Some(change.value) else None
    {
      ViewAt(Meaning(journal.Value()).now, wrapped, k);
    }

    method GetItem(k: K) returns (r: Option<V>)
      requires Valid()
      ensures r == At(Contents(), k)
    {
      LookupIsView(k);
      var val := journal.GetItem(k);
      if val.None? {
        return if k in wrapped then Some(wrapped[k]) else None;
      }
      return if val.value.Put? then Some(val.value.value) else None;
    }

    method Exists(k: K) returns (b: bool)
      requires Valid()
      ensures b <==> k in Contents()
    {
      var r := GetItem(k);
      b := r.Some?;
    }

    method SetItem(k: K, v: V)
      requires Valid()
      modifies journal
      ensures Valid() && Contents() == old(Contents())[k := v] && Remembered() == old(Remembered())
    {
      WriteFits(journal.Value(), k, Put(v), wrapped);
      ViewWrite(Meaning(journal.Value()).now, wrapped, k, Put(v));
      journal.SetItem(k, v);
    }

    // Deleting fails for a key that neither the wrapped map nor the journal
    // has; a key of the wrapped map can be deleted again.
    method DelItem(k: K) returns (ok: bool)
      requires Valid()
      modifies journal
      ensures Valid() && Contents() == old(Contents()) - {k} && Remembered() == old(Remembered())
      ensures ok <==> k in wrapped || k in old(Contents())
    {
      LookupIsView(k);
      if k in wrapped {
        WriteFits(journal.Value(), k, DeleteWrapped, wrapped);
        ViewWrite(Meaning(journal.Value()).now, wrapped, k, DeleteWrapped);
        journal.DeleteWrappedKey(k);
        return true;
      }
      var val := journal.GetItem(k);
      if val.Some? && val.value.Put? {
        WriteFits(journal.Value(), k, RevertToWrapped, wrapped);
        ViewWrite(Meaning(journal.Value()).now, wrapped, k, RevertToWrapped);
        journal.DeleteLocal(k);
        return true;
      }
      assert At(Contents(), k) == None;
      assert Contents() - {k} == Contents();
      return false;
    }

    method Clear(next: Checkpoint)
      requires Valid() && !HasId(journal.Value().entries, next)
      modifies journal
      ensures Valid() && Contents() == map[] && Remembered() == old(Remembered())
    {
      ghost var was := journal.Value();
      journal.Clear(next);
      assert forall i :: 0 <= i < |was.entries| ==> journal.Value().entries[i] == was.entries[i];
    }

    method HasClear() returns (b: bool)
      requires Valid()
      ensures b == AnyClear(journal.Value().entries)
    {
      ClearSinceRoot(journal.Value().entries);
      assert journal.Value().entries[0].id == journal.journalData[0].0;
      var r := journal.HasClear(journal.journalData[0].0);
      return r == Ok(true);
    }

    method Record(custom: Option<Checkpoint>, next: Checkpoint) returns (r: Result<Checkpoint, Error>)
      requires Valid() && !HasId(journal.Value().entries, next)
      modifies journal
      ensures Valid() && Contents() == old(Contents())
      ensures var known := custom.Some? && HasId(old(journal.Value()).entries, custom.value);
              && r == (if known then Err(ExistingCheckpoint) else Ok(if custom.Some? then custom.value else next))
              && (known ==> Remembered() == old(Remembered()))
              && (!known ==> Remembered() == old(Remembered()) + [Mark(r.value, old(Meaning(journal.Value())).now)])
    {
      ghost var was := journal.Value();
      r := journal.RecordCheckpoint(custom, next);
      assert forall i :: 0 <= i < |was.entries| ==> journal.Value().entries[i] == was.entries[i];
    }

    // Discarding gives back what was seen when the checkpoint was recorded.
    method Discard(c: Checkpoint) returns (r: Result<(), Error>)
      requires Valid() && c in journal.checkpointStack && Find(journal.checkpointStack, c) > 0
      modifies journal
      ensures Valid() && r.Ok?
      ensures Ids(old(Remembered())) == old(journal.checkpointStack)
      ensures Contents() == View(old(Remembered())[Find(old(journal.checkpointStack), c)].level, wrapped)
      ensures Remembered() == old(Remembered())[..Find(old(journal.checkpointStack), c)]
    {
      ghost var was := journal.Value();
      DiscardFits(was, c, wrapped);
      UnwindKeepsRoot(was.current, was.entries, was.stack, Find(was.stack, c));
      r := journal.Discard(c);
    }

    // Committing forgets the checkpoint and those after it, if it is a pending
    // one above the root, and changes nothing else.
    method Commit(c: Checkpoint) returns (r: Result<(), Error>)
      requires Valid()
      modifies journal
      ensures Valid() && Contents() == old(Contents())
      ensures r.Ok? <==> c in old(journal.checkpointStack) && Find(old(journal.checkpointStack), c) > 0
      ensures r.Err? ==> Remembered() == old(Remembered())
      ensures r.Ok? ==> Ids(old(Remembered())) == old(journal.checkpointStack)
      ensures r.Ok? ==> Remembered() == old(Remembered())[..Find(old(journal.checkpointStack), c)]
    {
      r := journal.CommitCheckpoint(c);
    }

    // All changes are written to the wrapped map, each key once, and the
    // journal starts afresh.
    method Persist(next: Checkpoint)
      requires Valid()
      modifies this`wrapped, journal
      ensures Valid() && wrapped == Persisted(old(Meaning(journal.Value())).now.delta, old(wrapped))
      ensures Contents() == wrapped && journal.Value() == Initial(next)
      ensures wrapped == old(Contents()) <==>
                !AnyClear(old(journal.Value()).entries)
                || old(wrapped).Keys <= old(Meaning(journal.Value())).now.delta.Keys
    {
      hide Meaning, View, Persisted;
      PersistKeepsViewIff(Meaning(journal.Value()).now, wrapped);
      NowOf(journal.Value());
      var changes := journal.PopAll(next);
      WriteChanges(changes);
      NowOf(journal.Value());
      EmptyView(wrapped);
    }

    method WriteChanges(changes: map<K, Change<V>>)
      modifies this`wrapped
      ensures wrapped == Persisted(Effective(changes), old(wrapped))
    {
      hide Persisted;
      ghost var goal := Persisted(Effective(changes), wrapped);
      var todo := changes.Keys;
      forall k ensures k !in todo ==> At(goal, k) == At(wrapped, k) {
        PersistedAt(changes, wrapped, k);
      }
      while todo != {}
        invariant todo <= changes.Keys
        invariant forall k :: k in todo ==> At(wrapped, k) == At(old(wrapped), k)
        invariant forall k :: k !in todo ==> At(wrapped, k) == At(goal, k)
        decreases |todo|
      {
        ghost var before := wrapped;
        var k :| k in todo;
        todo := todo - {k};
        PersistedAt(changes, old(wrapped), k);
        assert At(before, k) == At(old(wrapped), k);
        if changes[k].DeleteWrapped? {
          wrapped := wrapped - {k};
        } else if changes[k].Put? {
          wrapped := wrapped[k := changes[k].value];
        }
        assert forall j :: j != k ==> At(wrapped, j) == At(before, j);
      }
      SameAt(wrapped, goal);
    }
  }

  lemma NowOf<K, V>(s: State<K, V>)
    ensures Meaning(s).now == Level(Effective(s.current), AnyClear(s.entries))
    ensures s.current == map[] ==> Effective(s.current) == map[]
  {}

  lemma PersistedAt<K, V>(changes: map<K, Change<V>>, w: map<K, V>, k: K)
    ensures At(Persisted(Effective(changes), w), k) ==
            if k in changes && changes[k].Put? then Some(changes[k].value)
            else if k in changes && changes[k].DeleteWrapped? then None else At(w, k)
  {
    ViewAt(Level(Effective(changes), false), w, k);
  }

  lemma EmptyView<K, V>(w: map<K, V>)
    ensures View(Level(map[], false), w) == w
  {}
}
