// The plain meaning of a journal: a current state and a stack of whole
// snapshots of it, one for each checkpoint that can still be discarded.
// Both journals of the repository are proved to refine this machine.
module Snapshots {
  import opened Wrappers

  type Checkpoint = nat

  // What a journal holds for a key.  RevertToWrapped marks a key that was
  // created in the journal and deleted again.
  datatype Change<+V> = Put(value: V) | DeleteWrapped | RevertToWrapped

  // A set of pending changes without RevertToWrapped markers, and whether
  // everything below it is to be ignored.
  datatype Level<K, V> = Level(delta: map<K, Change<V>>, cleared: bool)

  datatype Mark<K, V> = Mark(id: Checkpoint, level: Level<K, V>)

  datatype Stack<K, V> = Stack(now: Level<K, V>, marks: seq<Mark<K, V>>)

  // Lay the changes of r over e.  A RevertToWrapped entry removes the key.
  function Overlay<K, V>(e: map<K, Change<V>>, r: map<K, Change<V>>): map<K, Change<V>> {
    map k | k in e.Keys + r.Keys && !(k in r && r[k].RevertToWrapped?) ::
      if k in r then r[k] else e[k]
  }

  // The changes that matter: those that are not RevertToWrapped.
  function Effective<K, V>(m: map<K, Change<V>>): map<K, Change<V>> {
    map k | k in m && !m[k].RevertToWrapped? :: m[k]
  }

  function Fresh<K, V>(id: Checkpoint): Stack<K, V> {
    Stack(Level(map[], false), [Mark(id, Level(map[], false))])
  }

  function Ids<K, V>(marks: seq<Mark<K, V>>): seq<Checkpoint> {
    seq(|marks|, i requires 0 <= i < |marks| => marks[i].id)
  }

  // The position of the topmost mark named id.
  function Find(ids: seq<Checkpoint>, id: Checkpoint): (i: nat)
    requires id in ids
    ensures i < |ids| && ids[i] == id
    ensures forall j :: i < j < |ids| ==> ids[j] != id
  {
    if ids[|ids| - 1] == id then |ids| - 1 else Find(ids[..|ids| - 1], id)
  }

  function Record<K, V>(s: Stack<K, V>, id: Checkpoint): Stack<K, V> {
    Stack(s.now, s.marks + [Mark(id, s.now)])
  }

  function Discard<K, V>(s: Stack<K, V>, id: Checkpoint): Stack<K, V>
    requires id in Ids(s.marks)
  {
    var i := Find(Ids(s.marks), id);
    Stack(s.marks[i].level, s.marks[..i])
  }

  function Commit<K, V>(s: Stack<K, V>, id: Checkpoint): Stack<K, V>
    requires id in Ids(s.marks)
  {
    Stack(s.now, s.marks[..Find(Ids(s.marks), id)])
  }

  function Clear<K, V>(s: Stack<K, V>): Stack<K, V> {
    Stack(Level(map[], true), s.marks)
  }

  function Write<K, V>(s: Stack<K, V>, k: K, c: Change<V>): Stack<K, V> {
    Stack(Level(Overlay(s.now.delta, map[k := c]), s.now.cleared), s.marks)
  }

  // What a lookup gives, when the database below gives "below".
  function Look<K, V>(l: Level<K, V>, k: K, below: Option<V>): Option<V> {
    if k in l.delta then
      if l.delta[k].Put? then Some(l.delta[k].value) else None
    else if l.cleared then None
    else below
  }

  function At<K, V>(w: map<K, V>, k: K): Option<V> {
    if k in w then Some(w[k]) else None
  }

  // The whole map that a level presents over the wrapped map w.
  function View<K, V>(l: Level<K, V>, w: map<K, V>): map<K, V> {
    map k | k in w.Keys + l.delta.Keys && Look(l, k, At(w, k)).Some? :: Look(l, k, At(w, k)).value
  }

  lemma ViewAt<K, V>(l: Level<K, V>, w: map<K, V>, k: K)
    ensures At(View(l, w), k) == Look(l, k, At(w, k))
  {}

  lemma SameAt<K, V>(a: map<K, V>, b: map<K, V>)
    requires forall k :: k in a.Keys + b.Keys ==> At(a, k) == At(b, k)
    ensures a == b
  {
    forall k | k in a.Keys + b.Keys ensures k in a && k in b && a[k] == b[k] {
      assert At(a, k) == At(b, k);
    }
  }

  lemma ViewWrite<K, V>(l: Level<K, V>, w: map<K, V>, k: K, c: Change<V>)
    requires c.DeleteWrapped? || c.Put? || k !in w
    ensures View(Level(Overlay(l.delta, map[k := c]), l.cleared), w)
            == if c.Put? then View(l, w)[k := c.value] else View(l, w) - {k}
  {
    hide View, Overlay, Look;
    var t := Level(Overlay(l.delta, map[k := c]), l.cleared);
    var written := if c.Put? then View(l, w)[k := c.value] else View(l, w) - {k};
    forall j | j in View(t, w).Keys + written.Keys
      ensures At(View(t, w), j) == if j == k then (if c.Put? then Some(c.value) else None) else At(View(l, w), j)
    {
      ViewAt(t, w, j);
      ViewAt(l, w, j);
      LookWrite(l, w, k, c, j);
    }
    SameAt(View(t, w), written);
  }

  lemma LookWrite<K, V>(l: Level<K, V>, w: map<K, V>, k: K, c: Change<V>, j: K)
    requires c.DeleteWrapped? || c.Put? || k !in w
    ensures Look(Level(Overlay(l.delta, map[k := c]), l.cleared), j, At(w, j))
            == if j == k then (if c.Put? then Some(c.value) else None) else Look(l, j, At(w, j))
  {}

  lemma OverlayMerge<K, V>(e: map<K, Change<V>>, a: map<K, Change<V>>, b: map<K, Change<V>>)
    ensures Overlay(Overlay(e, a), b) == Overlay(e, a + b)
  {}

  lemma EffectiveOverlay<K, V>(m: map<K, Change<V>>, r: map<K, Change<V>>)
    ensures Effective(Overlay(m, r)) == Overlay(Effective(m), r)
    ensures Effective(m + r) == Overlay(Effective(m), r)
    ensures Overlay(map[], m) == Effective(m)
  {}
}

// The ordered dictionaries of both journals: checkpoint ids, each with a
// changeset, and beside them a set of the ids that are clears.
module Entries {
  import opened Wrappers
  import opened Snapshots

  // One item of the dictionary.  isClear says that the id is a clear.
  datatype Entry<K, V> = Entry(id: Checkpoint, changes: map<K, Change<V>>, isClear: bool)

  predicate HasId<K, V>(entries: seq<Entry<K, V>>, id: Checkpoint) {
    exists i :: 0 <= i < |entries| && entries[i].id == id
  }

  ghost predicate Distinct<K, V>(entries: seq<Entry<K, V>>) {
    forall i, j :: 0 <= i < j < |entries| ==> entries[i].id != entries[j].id
  }

  // The checkpoint stack names entries, in the order of the entries.
  predicate InOrder<K, V>(entries: seq<Entry<K, V>>, stack: seq<Checkpoint>) {
    if stack == [] then true
    else if entries == [] then false
    else if Last(stack) == Last(entries).id then InOrder(Front(entries), Front(stack))
    else InOrder(Front(entries), stack)
  }

  lemma {:induction false} InOrderIds<K, V>(entries: seq<Entry<K, V>>, stack: seq<Checkpoint>)
    requires InOrder(entries, stack)
    ensures forall i :: 0 <= i < |stack| ==> HasId(entries, stack[i])
  {
    if stack != [] {
      var rest := if Last(stack) == Last(entries).id then Front(stack) else stack;
      InOrderIds(Front(entries), rest);
      forall i | 0 <= i < |stack| ensures HasId(entries, stack[i]) {
        if i < |rest| {
          assert stack[i] == rest[i];
          var j :| 0 <= j < |Front(entries)| && Front(entries)[j].id == rest[i];
          assert entries[j].id == stack[i];
        } else {
          assert entries[|entries| - 1].id == stack[i];
        }
      }
    }
  }

  lemma {:induction false} StackDistinct<K, V>(entries: seq<Entry<K, V>>, stack: seq<Checkpoint>)
    requires Distinct(entries) && InOrder(entries, stack)
    ensures forall i, j :: 0 <= i < j < |stack| ==> stack[i] != stack[j]
  {
    if stack != [] {
      var rest := if Last(stack) == Last(entries).id then Front(stack) else stack;
      StackDistinct(Front(entries), rest);
      InOrderIds(Front(entries), rest);
      forall i, j | 0 <= i < j < |stack| ensures stack[i] != stack[j] {
        assert rest[i] == stack[i] && HasId(Front(entries), stack[i]);
        assert j < |rest| ==> rest[j] == stack[j];
      }
    }
  }

  lemma {:induction false} InOrderPrefix<K, V>(entries: seq<Entry<K, V>>, stack: seq<Checkpoint>, i: nat)
    requires InOrder(entries, stack) && i <= |stack|
    ensures InOrder(entries, stack[..i])
  {
    if i == 0 || i == |stack| {
      assert i == |stack| ==> stack[..i] == stack;
    } else if Last(stack) == Last(entries).id {
      assert Front(stack)[..i] == stack[..i];
      assert Front(stack)[..i - 1] == Front(stack[..i]);
      InOrderPrefix(Front(entries), Front(stack), i);
      InOrderPrefix(Front(entries), Front(stack), i - 1);
    } else {
      InOrderPrefix(Front(entries), stack, i);
      if stack[i - 1] == Last(entries).id {
        assert Front(stack[..i]) == stack[..i - 1];
        InOrderPrefix(Front(entries), stack, i - 1);
      }
    }
  }

  function Tag<K, V>(data: seq<(Checkpoint, map<K, Change<V>>)>, clears: set<Checkpoint>): seq<Entry<K, V>> {
    seq(|data|, i requires 0 <= i < |data| => Entry(data[i].0, data[i].1, data[i].0 in clears))
  }

  // Every clear is the id of an entry.
  ghost predicate Known<K, V>(data: seq<(Checkpoint, map<K, Change<V>>)>, clears: set<Checkpoint>) {
    forall c :: c in clears ==> exists i :: 0 <= i < |data| && data[i].0 == c
  }

  lemma KnownAfterPush<K, V>(data: seq<(Checkpoint, map<K, Change<V>>)>, clears: set<Checkpoint>, d: (Checkpoint, map<K, Change<V>>))
    requires Known(data, clears)
    ensures Known(data + [d], clears) && Known(data + [d], clears + {d.0})
    ensures !HasId(Tag(data, clears), d.0) ==> Tag(data + [d], clears) == Tag(data, clears) + [Entry(d.0, d.1, false)]
    ensures !HasId(Tag(data, clears), d.0) ==> Tag(data + [d], clears + {d.0}) == Tag(data, clears) + [Entry(d.0, d.1, true)]
  {
    var after := data + [d];
    forall c | c == d.0 || c in clears ensures exists i :: 0 <= i < |after| && after[i].0 == c {
      if c == d.0 {
        assert after[|data|].0 == c;
      } else {
        var i :| 0 <= i < |data| && data[i].0 == c;
        assert after[i].0 == c;
      }
    }
    if !HasId(Tag(data, clears), d.0) {
      assert forall i :: 0 <= i < |data| ==> Tag(data, clears)[i].id == data[i].0;
    }
  }

  lemma KnownAfterPop<K, V>(data: seq<(Checkpoint, map<K, Change<V>>)>, clears: set<Checkpoint>)
    requires Known(data, clears) && Distinct(Tag(data, clears)) && data != []
    ensures Known(Front(data), clears - {Last(data).0})
    ensures Tag(Front(data), clears - {Last(data).0}) == Front(Tag(data, clears))
    ensures Distinct(Front(Tag(data, clears)))
  {
    assert forall i :: 0 <= i < |data| ==> Tag(data, clears)[i].id == data[i].0;
    forall c | c in clears - {Last(data).0} ensures exists i :: 0 <= i < |Front(data)| && Front(data)[i].0 == c {
      var i :| 0 <= i < |data| && data[i].0 == c;
      assert Front(data)[i].0 == c;
    }
  }
}
