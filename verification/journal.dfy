// veda/db/journal.py: the journal that keeps one map of current values and an
// ordered list of rollback changesets.
module Journaling {
  import opened Wrappers
  import opened Snapshots
  import opened Entries

  // The abstract state of a journal object.
  datatype State<K, V> = State(
    current: map<K, Change<V>>,
    entries: seq<Entry<K, V>>,
    stack: seq<Checkpoint>)

  datatype Error = ExistingCheckpoint | UnknownCheckpoint | RootCheckpoint | NoChangeset

  predicate AnyClear<K, V>(entries: seq<Entry<K, V>>) {
    entries != [] && (Last(entries).isClear || AnyClear(Front(entries)))
  }

  ghost predicate Valid<K, V>(s: State<K, V>) {
    Distinct(s.entries) && InOrder(s.entries, s.stack)
  }

  //
  // What each operation does to the state
  //

  function Initial<K, V>(id: Checkpoint): State<K, V> {
    State(map[], [Entry(id, map[], false)], [id])
  }

  function DoRecord<K, V>(s: State<K, V>, id: Checkpoint): State<K, V> {
    s.(entries := s.entries + [Entry(id, map[], false)], stack := s.stack + [id])
  }

  function DoClear<K, V>(s: State<K, V>, id: Checkpoint): State<K, V> {
    State(map[], s.entries + [Entry(id, s.current, true)], s.stack)
  }

  // The rollback entry remembers only the first value a key had.
  function Remember<K, V>(current: map<K, Change<V>>, rollback: map<K, Change<V>>, k: K): map<K, Change<V>> {
    if k in rollback then rollback
    else rollback[k := if k in current then current[k] else RevertToWrapped]
  }

  function DoWrite<K, V>(s: State<K, V>, k: K, c: Change<V>): State<K, V>
    requires s.entries != []
  {
    var e := Last(s.entries);
    s.(current := s.current[k := c],
       entries := Front(s.entries) + [e.(changes := Remember(s.current, e.changes, k))])
  }

  // Undo entries from the last one through the one named id, or all of them.
  function Unwind<K, V>(current: map<K, Change<V>>, entries: seq<Entry<K, V>>, id: Checkpoint)
    : (map<K, Change<V>>, seq<Entry<K, V>>)
    decreases |entries|
  {
    if entries == [] then (current, [])
    else
      var undone := Overlay(current, Last(entries).changes);
      if Last(entries).id == id then (undone, Front(entries))
      else Unwind(undone, Front(entries), id)
  }

  function DoDiscard<K, V>(s: State<K, V>, id: Checkpoint): State<K, V>
    requires id in s.stack
  {
    var (current, entries) := Unwind(s.current, s.entries, id);
    State(current, entries, s.stack[..Find(s.stack, id)])
  }

  function DoCommit<K, V>(s: State<K, V>, id: Checkpoint): State<K, V>
    requires id in s.stack
  {
    s.(stack := s.stack[..Find(s.stack, id)])
  }

  function DoFlatten<K, V>(s: State<K, V>): State<K, V> {
    if |s.stack| < 2 then s else s.(stack := s.stack[..1])
  }

  function Lookup<K, V>(s: State<K, V>, k: K): Option<Change<V>> {
    if k in s.current then Some(s.current[k])
    else if AnyClear(s.entries) then Some(RevertToWrapped)
    else None
  }

  //
  // The meaning of a state
  //

  ghost function Marks<K, V>(e: map<K, Change<V>>, entries: seq<Entry<K, V>>, stack: seq<Checkpoint>): seq<Mark<K, V>>
    decreases |entries|
  {
    if entries == [] then []
    else
      var undone := Overlay(e, Last(entries).changes);
      if stack != [] && Last(stack) == Last(entries).id then
        Marks(undone, Front(entries), Front(stack))
        + [Mark(Last(entries).id, Level(undone, AnyClear(Front(entries))))]
      else
        Marks(undone, Front(entries), stack)
  }

  ghost function Meaning<K, V>(s: State<K, V>): Stack<K, V> {
    Stack(Level(Effective(s.current), AnyClear(s.entries)),
          Marks(Effective(s.current), s.entries, s.stack))
  }

  lemma {:induction false} MarkIds<K, V>(e: map<K, Change<V>>, entries: seq<Entry<K, V>>, stack: seq<Checkpoint>)
    requires InOrder(entries, stack)
    ensures Ids(Marks(e, entries, stack)) == stack
    decreases |entries|
  {
    if entries != [] {
      var undone := Overlay(e, Last(entries).changes);
      if stack != [] && Last(stack) == Last(entries).id {
        MarkIds(undone, Front(entries), Front(stack));
        assert stack == Front(stack) + [Last(stack)];
      } else {
        MarkIds(undone, Front(entries), stack);
      }
    }
  }

  // Shortening the checkpoint stack drops the marks above and no other.
  lemma {:induction false} MarksPrefix<K, V>(e: map<K, Change<V>>, entries: seq<Entry<K, V>>, stack: seq<Checkpoint>, i: nat)
    requires Distinct(entries) && InOrder(entries, stack) && i <= |stack|
    ensures |Marks(e, entries, stack)| == |stack|
    ensures Marks(e, entries, stack[..i]) == Marks(e, entries, stack)[..i]
    decreases |entries|
  {
    MarkIds(e, entries, stack);
    assert |Ids(Marks(e, entries, stack))| == |Marks(e, entries, stack)|;
    if i == |stack| {
      assert stack[..i] == stack;
    } else if entries != [] {
      var undone := Overlay(e, Last(entries).changes);
      var rest := if Last(stack) == Last(entries).id then Front(stack) else stack;
      InOrderIds(Front(entries), rest);
      assert i <= |rest| && rest[..i] == stack[..i];
      if i > 0 {
        assert rest[i - 1] == stack[i - 1];
        assert HasId(Front(entries), stack[i - 1]);
      }
      MarksPrefix(undone, Front(entries), rest, i);
    }
  }

  // Undoing through stack[i] keeps a prefix of the entries, in order.
  lemma {:induction false} UnwindOrder<K, V>(current: map<K, Change<V>>, entries: seq<Entry<K, V>>, stack: seq<Checkpoint>, i: nat)
    requires Distinct(entries) && InOrder(entries, stack) && i < |stack|
    ensures var es := Unwind(current, entries, stack[i]).1;
            InOrder(es, stack[..i]) && es <= entries
    decreases |entries|
  {
    var undone := Overlay(current, Last(entries).changes);
    var rest := if Last(stack) == Last(entries).id then Front(stack) else stack;
    InOrderIds(Front(entries), rest);
    assert stack[..i] == rest[..i];
    if i < |rest| {
      assert rest[i] == stack[i] && HasId(Front(entries), stack[i]);
      UnwindOrder(undone, Front(entries), rest, i);
    } else {
      assert rest[..i] == rest;
    }
  }

  // Undoing through stack[i] lands on its mark, with the marks below it.
  lemma {:induction false} UnwindMeaning<K, V>(current: map<K, Change<V>>, entries: seq<Entry<K, V>>, stack: seq<Checkpoint>, i: nat)
    requires Distinct(entries) && InOrder(entries, stack) && i < |stack|
    ensures |Marks(Effective(current), entries, stack)| == |stack|
    ensures var (c, es) := Unwind(current, entries, stack[i]);
            var marks := Marks(Effective(current), entries, stack);
            && marks[i].level == Level(Effective(c), AnyClear(es))
            && marks[..i] == Marks(Effective(c), es, stack[..i])
    decreases |entries|
  {
    MarksPrefix(Effective(current), entries, stack, i);
    var undone := Overlay(current, Last(entries).changes);
    EffectiveOverlay(current, Last(entries).changes);
    var rest := if Last(stack) == Last(entries).id then Front(stack) else stack;
    InOrderIds(Front(entries), rest);
    assert stack[..i] == rest[..i];
    if i < |rest| {
      assert rest[i] == stack[i] && HasId(Front(entries), stack[i]);
      UnwindMeaning(undone, Front(entries), rest, i);
    } else {
      assert rest[..i] == rest;
      MarksPrefix(Effective(undone), Front(entries), rest, i);
    }
  }

  // Undoing brings no RevertToWrapped marker back.
  lemma {:induction false} UnwindLocal<K, V>(current: map<K, Change<V>>, entries: seq<Entry<K, V>>, id: Checkpoint)
    ensures var c := Unwind(current, entries, id).0;
            forall k :: k in c && c[k].RevertToWrapped? ==> k in current && current[k].RevertToWrapped?
    decreases |entries|
  {
    if entries != [] && Last(entries).id != id {
      UnwindLocal(Overlay(current, Last(entries).changes), Front(entries), id);
    }
  }

  lemma UnwindKeepsRoot<K, V>(current: map<K, Change<V>>, entries: seq<Entry<K, V>>, stack: seq<Checkpoint>, i: nat)
    requires Distinct(entries) && InOrder(entries, stack) && 0 < i < |stack|
    ensures Unwind(current, entries, stack[i]).1 != []
  {
    UnwindOrder(current, entries, stack, i);
    assert stack[..i] != [];
  }

  lemma ValidMarkIds<K, V>(s: State<K, V>)
    requires Valid(s)
    ensures Ids(Meaning(s).marks) == s.stack
  {
    MarkIds(Effective(s.current), s.entries, s.stack);
  }

  lemma ValidUnwindKeepsRoot<K, V>(s: State<K, V>, id: Checkpoint)
    requires Valid(s) && id in s.stack && Find(s.stack, id) > 0
    ensures Unwind(s.current, s.entries, id).1 != []
  {
    UnwindKeepsRoot(s.current, s.entries, s.stack, Find(s.stack, id));
  }

  //
  // Every operation refines the operation on snapshots
  //

  lemma RecordRefines<K, V>(s: State<K, V>, id: Checkpoint)
    requires Valid(s) && !HasId(s.entries, id)
    ensures Valid(DoRecord(s, id))
    ensures Meaning(DoRecord(s, id)) == Record(Meaning(s), id)
  {
    var t := DoRecord(s, id);
    assert Front(t.entries) == s.entries && Front(t.stack) == s.stack;
    assert Overlay(Effective(s.current), map[]) == Effective(s.current);
  }

  lemma ClearRefines<K, V>(s: State<K, V>, id: Checkpoint)
    requires Valid(s) && !HasId(s.entries, id)
    ensures Valid(DoClear(s, id))
    ensures Meaning(DoClear(s, id)) == Clear(Meaning(s))
  {
    var t := DoClear(s, id);
    assert Front(t.entries) == s.entries;
    InOrderIds(s.entries, s.stack);
    if s.stack != [] {
      assert HasId(s.entries, s.stack[|s.stack| - 1]);
    }
    EffectiveOverlay(s.current, map[]);
    assert Overlay(Effective(map[]), s.current) == Effective(s.current);
  }

  // Undoing a write through the extended rollback entry gives what undoing
  // without the write gives.
  lemma UndoWrite<K, V>(current: map<K, Change<V>>, rollback: map<K, Change<V>>, k: K, c: Change<V>)
    ensures Effective(current[k := c]) == Overlay(Effective(current), map[k := c])
    ensures Overlay(Effective(current[k := c]), Remember(current, rollback, k)) == Overlay(Effective(current), rollback)
  {}

  lemma WriteRefines<K, V>(s: State<K, V>, k: K, c: Change<V>)
    requires Valid(s) && s.entries != []
    ensures Valid(DoWrite(s, k, c))
    ensures Meaning(DoWrite(s, k, c)) == Write(Meaning(s), k, c)
  {
    var t := DoWrite(s, k, c);
    var e := Last(s.entries);
    UndoWrite(s.current, e.changes, k, c);
    assert Front(t.entries) == Front(s.entries);
    assert AnyClear(t.entries) == AnyClear(s.entries);
    assert InOrder(t.entries, t.stack) by {
      assert InOrder(s.entries, s.stack);
    }
    assert Marks(Effective(t.current), t.entries, t.stack) == Marks(Effective(s.current), s.entries, s.stack);
  }

  lemma DiscardRefines<K, V>(s: State<K, V>, id: Checkpoint)
    requires Valid(s) && id in s.stack
    ensures Valid(DoDiscard(s, id))
    ensures Ids(Meaning(s).marks) == s.stack
    ensures Meaning(DoDiscard(s, id)) == Discard(Meaning(s), id)
  {
    MarkIds(Effective(s.current), s.entries, s.stack);
    UnwindOrder(s.current, s.entries, s.stack, Find(s.stack, id));
    UnwindMeaning(s.current, s.entries, s.stack, Find(s.stack, id));
  }

  lemma CommitRefines<K, V>(s: State<K, V>, id: Checkpoint)
    requires Valid(s) && id in s.stack
    ensures Valid(DoCommit(s, id))
    ensures Ids(Meaning(s).marks) == s.stack
    ensures Meaning(DoCommit(s, id)) == Commit(Meaning(s), id)
  {
    var i := Find(s.stack, id);
    MarkIds(Effective(s.current), s.entries, s.stack);
    MarksPrefix(Effective(s.current), s.entries, s.stack, i);
    InOrderPrefix(s.entries, s.stack, i);
  }

  lemma FlattenRefines<K, V>(s: State<K, V>)
    requires Valid(s)
    ensures Valid(DoFlatten(s))
    ensures Meaning(DoFlatten(s)).now == Meaning(s).now
    ensures |Meaning(s).marks| == |s.stack|
    ensures Meaning(DoFlatten(s)).marks == if |s.stack| < 2 then Meaning(s).marks else Meaning(s).marks[..1]
  {
    var i := if |s.stack| < 2 then |s.stack| else 1;
    MarksPrefix(Effective(s.current), s.entries, s.stack, i);
    InOrderPrefix(s.entries, s.stack, i);
    assert s.stack[..|s.stack|] == s.stack;
  }

  lemma {:induction false} AnyClearExists<K, V>(entries: seq<Entry<K, V>>)
    ensures AnyClear(entries) <==> exists i :: 0 <= i < |entries| && entries[i].isClear
  {
    if entries != [] {
      AnyClearExists(Front(entries));
      if AnyClear(Front(entries)) {
        var i :| 0 <= i < |Front(entries)| && Front(entries)[i].isClear;
        assert entries[i].isClear;
      }
      if i :| 0 <= i < |entries| && entries[i].isClear {
        assert i < |entries| - 1 ==> Front(entries)[i].isClear;
      }
    }
  }

  // Whether a clear happened at or after the checkpoint id.
  function ClearSince<K, V>(entries: seq<Entry<K, V>>, id: Checkpoint): Result<bool, Error> {
    if entries == [] then Err(UnknownCheckpoint)
    else if Last(entries).isClear then Ok(true)
    else if Last(entries).id == id then Ok(false)
    else ClearSince(Front(entries), id)
  }

  lemma {:induction false} ClearSinceRoot<K, V>(entries: seq<Entry<K, V>>)
    requires Distinct(entries) && entries != []
    ensures ClearSince(entries, entries[0].id) == Ok(AnyClear(entries))
  {
    if |entries| > 1 && !Last(entries).isClear {
      ClearSinceRoot(Front(entries));
    }
  }

  function Part<K, V>(m: map<K, V>, keys: set<K>): map<K, V> {
    map k | k in m && k in keys :: m[k]
  }

  lemma RestoreEnds<K, V>(was: map<K, Change<V>>, rollback: map<K, Change<V>>)
    ensures Overlay(was, Part(rollback, {})) == was
    ensures Part(rollback, rollback.Keys) == rollback
  {}

  lemma RestoreOne<K, V>(was: map<K, Change<V>>, rollback: map<K, Change<V>>, done: set<K>, k: K)
    requires k in rollback && k !in done
    ensures var now := Overlay(was, Part(rollback, done));
            Overlay(was, Part(rollback, done + {k}))
            == if rollback[k].RevertToWrapped? then now - {k} else now[k := rollback[k]]
  {}

  class Journal<K(==), V> {
    var currentValues: map<K, Change<V>>
    var journalData: seq<(Checkpoint, map<K, Change<V>>)>
    var clearsAt: set<Checkpoint>
    var ignoreWrappedDb: bool
    var checkpointStack: seq<Checkpoint>

    ghost function Value(): State<K, V>
      reads this
    {
      State(currentValues, Tag(journalData, clearsAt), checkpointStack)
    }

    ghost predicate Consistent()
      reads this
    {
      && Valid(Value())
      && ignoreWrappedDb == (clearsAt != {})
      && Known(journalData, clearsAt)
    }

    lemma FlagIsAnyClear()
      requires Consistent()
      ensures ignoreWrappedDb == AnyClear(Value().entries)
    {
      AnyClearExists(Value().entries);
      if clearsAt != {} {
        var c :| c in clearsAt;
        var i :| 0 <= i < |journalData| && journalData[i].0 == c;
        assert Value().entries[i].isClear;
      }
    }

    constructor ()
      ensures Consistent() && Value() == State(map[], [], [])
    {
      currentValues, journalData, clearsAt := map[], [], {};
      ignoreWrappedDb, checkpointStack := false, [];
    }

    // next is what the process-wide counter of checkpoints yields.
    method RecordCheckpoint(custom: Option<Checkpoint>, next: Checkpoint) returns (r: Result<Checkpoint, Error>)
      requires Consistent() && !HasId(Value().entries, next)
      modifies this
      ensures Consistent()
      ensures custom.Some? && HasId(old(Value()).entries, custom.value) ==>
                r == Err(ExistingCheckpoint) && Value() == old(Value())
      ensures !(custom.Some? && HasId(old(Value()).entries, custom.value)) ==>
                && r == Ok(if custom.Some? then custom.value else next)
                && Value() == DoRecord(old(Value()), r.value)
                && Meaning(Value()) == Snapshots.Record(old(Meaning(Value())), r.value)
    {
      ghost var was := Value();
      var checkpoint := next;
      if custom.Some? {
        if exists i :: 0 <= i < |journalData| && journalData[i].0 == custom.value {
          ghost var i :| 0 <= i < |journalData| && journalData[i].0 == custom.value;
          assert was.entries[i].id == custom.value;
          return Err(ExistingCheckpoint);
        }
        checkpoint := custom.value;
      }
      KnownAfterPush(journalData, clearsAt, (checkpoint, map[]));
      RecordRefines(was, checkpoint);
      journalData := journalData + [(checkpoint, map[])];
      checkpointStack := checkpointStack + [checkpoint];
      return Ok(checkpoint);
    }

    method Clear(next: Checkpoint)
      requires Consistent() && !HasId(Value().entries, next)
      modifies this
      ensures Consistent() && Value() == DoClear(old(Value()), next)
      ensures Meaning(Value()) == Snapshots.Clear(old(Meaning(Value())))
    {
      KnownAfterPush(journalData, clearsAt, (next, currentValues));
      ClearRefines(Value(), next);
      journalData := journalData + [(next, currentValues)];
      currentValues := map[];
      ignoreWrappedDb := true;
      clearsAt := clearsAt + {next};
    }

    method Rewrite(k: K, c: Change<V>)
      requires Consistent() && journalData != []
      modifies this
      ensures Consistent() && Value() == DoWrite(old(Value()), k, c)
      ensures Meaning(Value()) == Snapshots.Write(old(Meaning(Value())), k, c)
    {
      hide Valid, Meaning, Snapshots.Write;
      ghost var was := Value();
      var n := |journalData| - 1;
      var (id, changeset) := journalData[n];
      if k !in changeset {
        var first := if k in currentValues then currentValues[k] else RevertToWrapped;
        journalData := journalData[n := (id, changeset[k := first])];
      }
      currentValues := currentValues[k := c];
      assert Value().entries == DoWrite(was, k, c).entries;
      WriteRefines(was, k, c);
      assert forall i :: 0 <= i < |journalData| ==> journalData[i].0 == old(journalData)[i].0;
    }

    method SetItem(k: K, v: V)
      requires Consistent() && journalData != []
      modifies this
      ensures Consistent() && Value() == DoWrite(old(Value()), k, Put(v))
      ensures Meaning(Value()) == Snapshots.Write(old(Meaning(Value())), k, Put(v))
    {
      Rewrite(k, Put(v));
    }

    method DeleteWrappedKey(k: K)
      requires Consistent() && journalData != []
      modifies this
      ensures Consistent() && Value() == DoWrite(old(Value()), k, DeleteWrapped)
      ensures Meaning(Value()) == Snapshots.Write(old(Meaning(Value())), k, DeleteWrapped)
    {
      Rewrite(k, DeleteWrapped);
    }

    method DeleteLocal(k: K)
      requires Consistent() && journalData != []
      modifies this
      ensures Consistent() && Value() == DoWrite(old(Value()), k, RevertToWrapped)
      ensures Meaning(Value()) == Snapshots.Write(old(Meaning(Value())), k, RevertToWrapped)
    {
      Rewrite(k, RevertToWrapped);
    }

    // Put the values of one rollback changeset back.
    method Restore(rollback: map<K, Change<V>>)
      modifies this`currentValues
      ensures currentValues == Overlay(old(currentValues), rollback)
    {
      hide Overlay, Part;
      ghost var was, done := currentValues, {};
      var todo := rollback.Keys;
      RestoreEnds(was, rollback);
      while todo != {}
        invariant done !! todo && done + todo == rollback.Keys
        invariant currentValues == Overlay(was, Part(rollback, done))
      {
        var k :| k in todo;
        RestoreOne(was, rollback, done, k);
        todo, done := todo - {k}, done + {k};
        if rollback[k].RevertToWrapped? {
          currentValues := currentValues - {k};
        } else {
          currentValues := currentValues[k := rollback[k]];
        }
      }
      assert done == rollback.Keys;
    }

    // Pop checkpoints through the given one; say whether it was found.
    method PopStack(through: Checkpoint) returns (found: bool)
      modifies this`checkpointStack
      ensures found <==> through in old(checkpointStack)
      ensures checkpointStack == if found then old(checkpointStack)[..Find(old(checkpointStack), through)] else []
    {
      ghost var was := checkpointStack;
      found := false;
      while checkpointStack != [] && !found
        invariant checkpointStack <= was
        invariant found ==> through in was && checkpointStack == was[..Find(was, through)]
        invariant !found ==> forall j :: |checkpointStack| <= j < |was| ==> was[j] != through
        decreases |checkpointStack|, !found
      {
        var id := Last(checkpointStack);
        checkpointStack := Front(checkpointStack);
        found := id == through;
        assert was[|checkpointStack|] == id;
      }
    }

    // Pop rollback changesets through the given one, undoing each.
    method PopData(through: Checkpoint)
      requires Distinct(Value().entries) && Known(journalData, clearsAt) && ignoreWrappedDb == (clearsAt != {})
      modifies this`journalData, this`currentValues, this`clearsAt, this`ignoreWrappedDb
      ensures (currentValues, Value().entries) == Unwind(old(currentValues), old(Value().entries), through)
      ensures Known(journalData, clearsAt) && ignoreWrappedDb == (clearsAt != {})
    {
      ghost var goal := Unwind(currentValues, Value().entries, through);
      var found := false;
      while journalData != [] && !found
        invariant goal == if found then (currentValues, Tag(journalData, clearsAt))
                          else Unwind(currentValues, Tag(journalData, clearsAt), through)
        invariant Distinct(Tag(journalData, clearsAt)) && Known(journalData, clearsAt)
        invariant clearsAt == {} ==> !ignoreWrappedDb
        decreases |journalData|, !found
      {
        KnownAfterPop(journalData, clearsAt);
        var (id, rollback) := Last(journalData);
        journalData := Front(journalData);
        Restore(rollback);
        if id in clearsAt {
          clearsAt := clearsAt - {id};
          ignoreWrappedDb := false;
        } else {
          assert clearsAt - {id} == clearsAt;
        }
        found := id == through;
      }
      if clearsAt != {} {
        ignoreWrappedDb := true;
      }
    }

    method Discard(through: Checkpoint) returns (r: Result<(), Error>)
      requires Consistent()
      modifies this
      ensures Consistent()
      ensures through in old(checkpointStack) ==> r == Ok(()) && Value() == DoDiscard(old(Value()), through)
      ensures through in old(checkpointStack) ==>
                && Ids(old(Meaning(Value())).marks) == old(checkpointStack)
                && Meaning(Value()) == Snapshots.Discard(old(Meaning(Value())), through)
      ensures through !in old(checkpointStack) ==> r == Err(UnknownCheckpoint) && Value() == old(Value()).(stack := [])
    {
      ghost var was := Value();
      var found := PopStack(through);
      if !found {
        InOrderPrefix(was.entries, was.stack, 0);
        return Err(UnknownCheckpoint);
      }
      DiscardRefines(was, through);
      PopData(through);
      return Ok(());
    }

    method HasClear(at: Checkpoint) returns (r: Result<bool, Error>)
      ensures r == ClearSince(Value().entries, at)
    {
      var n := |journalData|;
      assert Value().entries[..n] == Value().entries;
      while n > 0
        invariant 0 <= n <= |journalData|
        invariant ClearSince(Value().entries[..n], at) == ClearSince(Value().entries, at)
      {
        n := n - 1;
        assert Front(Value().entries[..n + 1]) == Value().entries[..n];
        if journalData[n].0 in clearsAt {
          return Ok(true);
        } else if journalData[n].0 == at {
          return Ok(false);
        }
      }
      return Err(UnknownCheckpoint);
    }

    method CommitCheckpoint(commitTo: Checkpoint) returns (r: Result<(), Error>)
      requires Consistent()
      modifies this`checkpointStack
      ensures Consistent()
      ensures r.Err? ==> Value() == old(Value())
      ensures r.Ok? <==> commitTo in old(checkpointStack) && Find(old(checkpointStack), commitTo) > 0
      ensures r.Ok? ==> Value() == DoCommit(old(Value()), commitTo)
      ensures r.Ok? ==>
                && Ids(old(Meaning(Value())).marks) == old(checkpointStack)
                && Meaning(Value()) == Snapshots.Commit(old(Meaning(Value())), commitTo)
    {
      var n := |checkpointStack|;
      while n > 0 && checkpointStack[n - 1] != commitTo
        invariant 0 <= n <= |checkpointStack|
        invariant forall j :: n <= j < |checkpointStack| ==> checkpointStack[j] != commitTo
      {
        n := n - 1;
      }
      if n == 0 {
        return Err(UnknownCheckpoint);
      }
      assert checkpointStack[n - 1] in checkpointStack;
      if n == 1 {
        return Err(RootCheckpoint);
      }
      CommitRefines(Value(), commitTo);
      checkpointStack := checkpointStack[..n - 1];
      return Ok(());
    }

    method PopAll(next: Checkpoint) returns (finalChanges: map<K, Change<V>>)
      requires Consistent()
      modifies this
      ensures Consistent()
      ensures finalChanges == old(currentValues) && Value() == Initial(next)
    {
      finalChanges := currentValues;
      journalData := [];
      clearsAt := {};
      currentValues := map[];
      checkpointStack := [];
      ignoreWrappedDb := false;
      var _ := RecordCheckpoint(None, next);
    }

    method Flatten()
      requires Consistent()
      modifies this`checkpointStack
      ensures Consistent() && Value() == DoFlatten(old(Value()))
    {
      if |checkpointStack| >= 2 {
        StackDistinct(Value().entries, checkpointStack);
        var _ := CommitCheckpoint(checkpointStack[1]);
      }
    }

    method GetItem(k: K) returns (r: Option<Change<V>>)
      requires Consistent()
      ensures r == Lookup(Value(), k)
    {
      FlagIsAnyClear();
      var default_: Option<Change<V>> := if ignoreWrappedDb then Some(RevertToWrapped) else None;
      r := if k in currentValues then Some(currentValues[k]) else default_;
    }
  }
}
