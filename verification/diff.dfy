// veda/db/diff.py and the atomic batch over it: changes are tracked in the
// order in which their keys were first changed, and applied later.
module Diffs {
  import opened Wrappers

  type Byte = x: int | 0 <= x < 256
  type Bytes = seq<Byte>

  type Store = map<Bytes, Bytes>

  // The value a key was set to, or None when it was deleted.
  datatype Change = Change(key: Bytes, value: Option<Bytes>)

  ghost predicate Distinct(changes: seq<Change>) {
    forall i, j :: 0 <= i < j < |changes| ==> changes[i].key != changes[j].key
  }

  function ApplyOne(db: Store, c: Change): Store {
    if c.value.Some? then db[c.key := c.value.value] else db - {c.key}
  }

  // DBDiff.apply_to: deleting a key that is not there is passed over.
  function ApplyDiff(db: Store, changes: seq<Change>): Store
    decreases |changes|
  {
    if changes == [] then db else ApplyDiff(ApplyOne(db, changes[0]), changes[1..])
  }

  // pending_items and deleted_keys
  function Sets(changes: seq<Change>): seq<(Bytes, Bytes)> {
    if changes == [] then []
    else if changes[0].value.Some? then [(changes[0].key, changes[0].value.value)] + Sets(changes[1..])
    else Sets(changes[1..])
  }

  function Deletes(changes: seq<Change>): seq<Bytes> {
    if changes == [] then []
    else if changes[0].value.None? then [changes[0].key] + Deletes(changes[1..])
    else Deletes(changes[1..])
  }

  function PutAll(db: Store, sets: seq<(Bytes, Bytes)>): Store
    decreases |sets|
  {
    if sets == [] then db else PutAll(db[sets[0].0 := sets[0].1], sets[1..])
  }

  function RemoveAll(db: Store, keys: seq<Bytes>): Store
    decreases |keys|
  {
    if keys == [] then db else RemoveAll(db - {keys[0]}, keys[1..])
  }

  lemma {:induction false} RemoveBeforePut(db: Store, sets: seq<(Bytes, Bytes)>, k: Bytes)
    requires forall i :: 0 <= i < |sets| ==> sets[i].0 != k
    ensures PutAll(db, sets) - {k} == PutAll(db - {k}, sets)
    decreases |sets|
  {
    if sets != [] {
      var db' := db[sets[0].0 := sets[0].1];
      RemoveBeforePut(db', sets[1..], k);
      assert sets[0].0 != k;
      assert db' - {k} == (db - {k})[sets[0].0 := sets[0].1];
    }
  }

  lemma {:induction false} SetsHaveKeys(changes: seq<Change>, k: Bytes)
    requires forall i :: 0 <= i < |changes| ==> changes[i].key != k
    ensures forall i :: 0 <= i < |Sets(changes)| ==> Sets(changes)[i].0 != k
  {
    if changes != [] {
      SetsHaveKeys(changes[1..], k);
    }
  }

  // Writing all the set keys and then removing all the deleted ones is the
  // same as applying the changes one by one.
  lemma {:induction false} SetsThenDeletes(db: Store, changes: seq<Change>)
    requires Distinct(changes)
    ensures RemoveAll(PutAll(db, Sets(changes)), Deletes(changes)) == ApplyDiff(db, changes)
    decreases |changes|
  {
    if changes != [] {
      var c, rest := changes[0], changes[1..];
      SetsThenDeletes(ApplyOne(db, c), rest);
      if c.value.Some? {
        assert Sets(changes)[1..] == Sets(rest);
      } else {
        SetsHaveKeys(rest, c.key);
        RemoveBeforePut(db, Sets(rest), c.key);
        assert Deletes(changes)[1..] == Deletes(rest);
      }
    }
  }

  // Without distinct keys it is not: a key deleted and then set again.
  lemma OrderWouldMatter(k: Bytes, v: Bytes)
    ensures var changes := [Change(k, None), Change(k, Some(v))];
            k in ApplyDiff(map[], changes) && k !in RemoveAll(PutAll(map[], Sets(changes)), Deletes(changes))
  {
    var empty: Store := map[];
    var changes := [Change(k, None), Change(k, Some(v))];
    var tail := changes[1..];
    assert tail == [Change(k, Some(v))] && tail[1..] == [];
    assert ApplyDiff(empty - {k}, tail) == ApplyDiff((empty - {k})[k := v], []);
    assert Sets(tail) == [(k, v)] + Sets(tail[1..]) && Sets(changes) == [(k, v)];
    assert [(k, v)][1..] == [] && PutAll(empty, [(k, v)]) == PutAll(empty[k := v], []);
    assert Deletes(tail) == Deletes(tail[1..]) && Deletes(tail[1..]) == [];
    assert changes[0].key == k && Deletes(changes) == [k] + Deletes(tail) && [k][1..] == [];
    assert RemoveAll(empty[k := v], [k]) == RemoveAll(empty[k := v] - {k}, []);
  }

  lemma {:induction false} ApplyLast(db: Store, changes: seq<Change>, c: Change)
    ensures ApplyDiff(db, changes + [c]) == ApplyOne(ApplyDiff(db, changes), c)
    decreases |changes|
  {
    if changes == [] {
      assert [] + [c] == [c] && [c][1..] == [];
    } else {
      assert (changes + [c])[0] == changes[0] && (changes + [c])[1..] == changes[1..] + [c];
      ApplyLast(ApplyOne(db, changes[0]), changes[1..], c);
    }
  }

  // What the changes say about a key, if anything.
  lemma {:induction false} ApplyDiffAt(db: Store, changes: seq<Change>, k: Bytes)
    requires Distinct(changes)
    ensures (forall i :: 0 <= i < |changes| ==> changes[i].key != k) ==>
              (k in ApplyDiff(db, changes) <==> k in db) && (k in db ==> ApplyDiff(db, changes)[k] == db[k])
    ensures forall i :: 0 <= i < |changes| && changes[i].key == k ==>
              (k in ApplyDiff(db, changes) <==> changes[i].value.Some?)
              && (changes[i].value.Some? ==> ApplyDiff(db, changes)[k] == changes[i].value.value)
    decreases |changes|
  {
    if changes != [] {
      ApplyDiffAt(ApplyOne(db, changes[0]), changes[1..], k);
      assert forall i :: 0 < i < |changes| ==> changes[1..][i - 1] == changes[i];
      assert forall i :: 0 < i < |changes| ==> changes[i].key != changes[0].key;
    }
  }

  lemma SameStore(a: Store, b: Store)
    requires forall k :: k in a <==> k in b
    requires forall k :: k in a && k in b ==> a[k] == b[k]
    ensures a == b
  {}

  // Changing a key again in its place is changing it last.
  lemma ApplyReplaced(db: Store, changes: seq<Change>, i: nat, c: Change)
    requires Distinct(changes) && i < |changes| && changes[i].key == c.key
    ensures Distinct(changes[i := c])
    ensures ApplyDiff(db, changes[i := c]) == ApplyOne(ApplyDiff(db, changes), c)
  {
    var replaced := changes[i := c];
    assert Distinct(replaced);
    var a, b := ApplyDiff(db, replaced), ApplyOne(ApplyDiff(db, changes), c);
    forall k: Bytes ensures (k in a <==> k in b) && (k in a && k in b ==> a[k] == b[k]) {
      ApplyDiffAt(db, changes, k);
      ApplyDiffAt(db, replaced, k);
      if k == c.key {
        assert replaced[i].key == k;
      } else if j :| 0 <= j < |changes| && changes[j].key == k {
        assert j != i && replaced[j] == changes[j];
      } else {
        assert forall j :: 0 <= j < |replaced| ==> replaced[j].key != k;
      }
    }
    SameStore(a, b);
  }

  // The batch of AtomicDBWriteBatch: reads see its own changes first.
  class AtomicBatch {
    const target: Store
    var changes: seq<Change>

    ghost predicate Valid()
      reads this
    {
      Distinct(changes)
    }

    // What the target will be once the batch is committed.
    ghost function View(): Store
      reads this
    {
      ApplyDiff(target, changes)
    }

    constructor (db: Store)
      ensures Valid() && target == db && changes == [] && View() == db
    {
      target, changes := db, [];
    }

    method Find(key: Bytes) returns (at: Option<nat>)
      requires Valid()
      ensures at.Some? ==> at.value < |changes| && changes[at.value].key == key
      ensures at.None? ==> forall i :: 0 <= i < |changes| ==> changes[i].key != key
    {
      for i := 0 to |changes|
        invariant forall j :: 0 <= j < i ==> changes[j].key != key
      {
        if changes[i].key == key {
          return Some(i);
        }
      }
      return None;
    }

    method GetItem(key: Bytes) returns (value: Option<Bytes>)
      requires Valid()
      ensures value == if key in View() then Some(View()[key]) else None
    {
      var at := Find(key);
      ApplyDiffAt(target, changes, key);
      if at.Some? {
        return changes[at.value].value;
      }
      return if key in target then Some(target[key]) else None;
    }

    method Record(c: Change)
      requires Valid()
      modifies this
      ensures Valid() && View() == ApplyOne(old(View()), c)
    {
      var at := Find(c.key);
      if at.Some? {
        ApplyReplaced(target, changes, at.value, c);
        changes := changes[at.value := c];
      } else {
        ApplyLast(target, changes, c);
        changes := changes + [c];
      }
    }

    method SetItem(key: Bytes, value: Bytes)
      requires Valid()
      modifies this
      ensures Valid() && View() == old(View())[key := value]
    {
      Record(Change(key, Some(value)));
    }

    // Deleting a key the batch does not see is an error.
    method DelItem(key: Bytes) returns (found: bool)
      requires Valid()
      modifies this
      ensures Valid() && found == (key in old(View())) && View() == old(View()) - {key}
    {
      var value := GetItem(key);
      found := value.Some?;
      if found {
        Record(Change(key, None));
      } else {
        assert View() - {key} == View();
      }
    }
  }
}
