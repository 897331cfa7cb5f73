// veda/db/slow_journal.py: the older journal, which keeps the changes made
// since each checkpoint and merges changesets on commit.
module SlowJournaling {
  import opened Wrappers
  import opened Snapshots
  import opened Entries

  // handles are the ids that were given to the caller and can still be used;
  // the ids that clear makes for itself are not among them.
  datatype State<K, V> = State(sets: seq<Entry<K, V>>, handles: seq<Checkpoint>)

  datatype Error = ExistingChangeset | UnknownChangeset | RootChangeset

  // Clear markers are empty, and neither the last changeset nor one below a
  // handle is a marker.
  ghost predicate Marked<K, V>(sets: seq<Entry<K, V>>, handles: seq<Checkpoint>) {
    && (forall i :: 0 <= i < |sets| && sets[i].isClear ==> sets[i].changes == map[])
    && (forall i :: 0 < i < |sets| && sets[i].id in handles ==> !sets[i - 1].isClear)
    && (sets != [] ==> !Last(sets).isClear)
  }

  ghost predicate Valid<K, V>(s: State<K, V>) {
    Distinct(s.sets) && InOrder(s.sets, s.handles) && Marked(s.sets, s.handles)
  }

  //
  // What each operation does to the state
  //

  function Initial<K, V>(id: Checkpoint): State<K, V> {
    State([Entry(id, map[], false)], [id])
  }

  function DoRecord<K, V>(s: State<K, V>, id: Checkpoint): State<K, V> {
    State(s.sets + [Entry(id, map[], false)], s.handles + [id])
  }

  // Two internal changesets: the marker, and a place for later changes.
  function DoClear<K, V>(s: State<K, V>, marker: Checkpoint, next: Checkpoint): State<K, V> {
    s.(sets := s.sets + [Entry(marker, map[], true), Entry(next, map[], false)])
  }

  function DoWrite<K, V>(s: State<K, V>, k: K, c: Change<V>): State<K, V>
    requires s.sets != []
  {
    var l := Last(s.sets);
    s.(sets := Front(s.sets) + [l.(changes := l.changes[k := c])])
  }

  // The changesets below id.
  function Below<K, V>(sets: seq<Entry<K, V>>, id: Checkpoint): seq<Entry<K, V>> {
    if sets == [] then []
    else if Last(sets).id == id then Front(sets)
    else Below(Front(sets), id)
  }

  // The merged changes from id on, or from the last clear after it.
  function Merged<K, V>(sets: seq<Entry<K, V>>, id: Checkpoint): map<K, Change<V>> {
    if sets == [] then map[]
    else if Last(sets).isClear || Last(sets).id == id then Last(sets).changes
    else Merged(Front(sets), id) + Last(sets).changes
  }

  // Whether a clear happened at or after id.
  function ClearSince<K, V>(sets: seq<Entry<K, V>>, id: Checkpoint): bool {
    sets != [] && (Last(sets).isClear || (Last(sets).id != id && ClearSince(Front(sets), id)))
  }

  function DoDiscard<K, V>(s: State<K, V>, id: Checkpoint): State<K, V>
    requires id in s.handles
  {
    State(Below(s.sets, id), s.handles[..Find(s.handles, id)])
  }

  function DoCommit<K, V>(s: State<K, V>, id: Checkpoint, next: Checkpoint): State<K, V>
    requires id in s.handles
  {
    var below := Below(s.sets, id);
    var data := Merged(s.sets, id);
    var sets :=
      if below == [] then []
      else
        var l := Last(below);
        if ClearSince(s.sets, id) then
          Front(below) + [l.(changes := map[], isClear := true), Entry(next, data, false)]
        else
          Front(below) + [l.(changes := l.changes + data)];
    State(sets, s.handles[..Find(s.handles, id)])
  }

  function Lookup<K, V>(sets: seq<Entry<K, V>>, k: K): Option<Change<V>> {
    if sets == [] then None
    else if Last(sets).isClear then Some(RevertToWrapped)
    else if k in Last(sets).changes then Some(Last(sets).changes[k])
    else Lookup(Front(sets), k)
  }

  //
  // The meaning of a state
  //

  ghost function LevelOf<K, V>(sets: seq<Entry<K, V>>): Level<K, V> {
    if sets == [] then Level(map[], false)
    else if Last(sets).isClear then Level(map[], true)
    else
      var b := LevelOf(Front(sets));
      Level(Overlay(b.delta, Last(sets).changes), b.cleared)
  }

  ghost function Marks<K, V>(sets: seq<Entry<K, V>>, handles: seq<Checkpoint>): seq<Mark<K, V>>
    decreases |sets|
  {
    if sets == [] then []
    else if handles != [] && Last(handles) == Last(sets).id then
      Marks(Front(sets), Front(handles)) + [Mark(Last(sets).id, LevelOf(Front(sets)))]
    else
      Marks(Front(sets), handles)
  }

  ghost function Meaning<K, V>(s: State<K, V>): Stack<K, V> {
    Stack(LevelOf(s.sets), Marks(s.sets, s.handles))
  }

  lemma {:induction false} MarkIds<K, V>(sets: seq<Entry<K, V>>, handles: seq<Checkpoint>)
    requires InOrder(sets, handles)
    ensures Ids(Marks(sets, handles)) == handles
    decreases |sets|
  {
    if sets != [] {
      if handles != [] && Last(handles) == Last(sets).id {
        MarkIds(Front(sets), Front(handles));
        assert handles == Front(handles) + [Last(handles)];
      } else {
        MarkIds(Front(sets), handles);
      }
    }
  }

  // Dropping the changesets from handles[i] on leaves the mark of handles[i]
  // as the level, and the marks below it.
  lemma {:induction false} BelowMeaning<K, V>(sets: seq<Entry<K, V>>, handles: seq<Checkpoint>, i: nat)
    requires Distinct(sets) && InOrder(sets, handles) && i < |handles|
    ensures |Marks(sets, handles)| == |handles|
    ensures var below := Below(sets, handles[i]);
            && Marks(sets, handles)[i].level == LevelOf(below)
            && Marks(sets, handles)[..i] == Marks(below, handles[..i])
            && InOrder(below, handles[..i])
            && |below| < |sets| && below == sets[..|below|] && sets[|below|].id == handles[i]
    decreases |sets|
  {
    MarkIds(sets, handles);
    assert |Ids(Marks(sets, handles))| == |Marks(sets, handles)|;
    var rest := if Last(handles) == Last(sets).id then Front(handles) else handles;
    InOrderIds(Front(sets), rest);
    if i < |rest| {
      assert rest[i] == handles[i] && HasId(Front(sets), handles[i]);
      BelowMeaning(Front(sets), rest, i);
      assert rest[..i] == handles[..i];
    } else {
      assert handles[..i] == Front(handles);
      MarkIds(Front(sets), Front(handles));
    }
  }

  // What popping the changesets from id on means for the level below them.
  lemma {:induction false} PopMeaning<K, V>(sets: seq<Entry<K, V>>, id: Checkpoint)
    requires HasId(sets, id)
    requires forall j :: 0 <= j < |sets| && sets[j].isClear ==> sets[j].changes == map[]
    ensures var b, m := LevelOf(Below(sets, id)), Merged(sets, id);
            LevelOf(sets) == if ClearSince(sets, id) then Level(Effective(m), true)
                             else Level(Overlay(b.delta, m), b.cleared)
  {
    var l := Last(sets);
    if !l.isClear && l.id != id {
      var i :| 0 <= i < |sets| && sets[i].id == id;
      assert Front(sets)[i].id == id;
      PopMeaning(Front(sets), id);
      var b, m := LevelOf(Below(sets, id)), Merged(Front(sets), id);
      OverlayMerge(b.delta, m, l.changes);
      EffectiveOverlay(m, l.changes);
    }
  }

  //
  // Every operation refines the operation on snapshots
  //

  lemma RecordRefines<K, V>(s: State<K, V>, id: Checkpoint)
    requires Valid(s) && !HasId(s.sets, id)
    ensures Valid(DoRecord(s, id))
    ensures Meaning(DoRecord(s, id)) == Record(Meaning(s), id)
  {
    var t := DoRecord(s, id);
    assert Front(t.sets) == s.sets && Front(t.handles) == s.handles;
    LevelNormal(s.sets);
  }

  lemma {:induction false} LevelNormal<K, V>(sets: seq<Entry<K, V>>)
    ensures Effective(LevelOf(sets).delta) == LevelOf(sets).delta
    ensures Overlay(LevelOf(sets).delta, map[]) == LevelOf(sets).delta
  {
    if sets != [] {
      LevelNormal(Front(sets));
    }
  }

  // An internal changeset, above all handles, changes no mark.
  lemma InternalAbove<K, V>(sets: seq<Entry<K, V>>, handles: seq<Checkpoint>, e: Entry<K, V>)
    requires Distinct(sets) && InOrder(sets, handles) && !HasId(sets, e.id)
    ensures Distinct(sets + [e]) && InOrder(sets + [e], handles)
    ensures e.id !in handles && Marks(sets + [e], handles) == Marks(sets, handles)
  {
    hide LevelOf;
    InOrderIds(sets, handles);
    assert Front(sets + [e]) == sets && Last(sets + [e]) == e;
  }

  lemma ClearLevel<K, V>(sets: seq<Entry<K, V>>, marker: Checkpoint, next: Checkpoint)
    ensures LevelOf(sets + [Entry(marker, map[], true)]) == Level(map[], true)
    ensures LevelOf(sets + [Entry(marker, map[], true)] + [Entry(next, map[], false)]) == Level(map[], true)
  {
    var m: Entry<K, V> := Entry(marker, map[], true);
    var n: Entry<K, V> := Entry(next, map[], false);
    assert Front(sets + [m] + [n]) == sets + [m];
    EffectiveOverlay<K, V>(map[], map[]);
  }

  lemma ClearRefines<K, V>(s: State<K, V>, marker: Checkpoint, next: Checkpoint)
    requires Valid(s)
    requires !HasId(s.sets, marker) && !HasId(s.sets, next) && marker != next
    ensures Valid(DoClear(s, marker, next))
    ensures Meaning(DoClear(s, marker, next)) == Clear(Meaning(s))
  {
    hide InOrder, Distinct, LevelOf, Marks, HasId;
    var m: Entry<K, V> := Entry(marker, map[], true);
    var n: Entry<K, V> := Entry(next, map[], false);
    InternalAbove(s.sets, s.handles, m);
    NotAppended(s.sets, m, next);
    InternalAbove(s.sets + [m], s.handles, n);
    ClearLevel(s.sets, marker, next);
    assert s.sets + [m] + [n] == DoClear(s, marker, next).sets;
  }

  lemma NotAppended<K, V>(sets: seq<Entry<K, V>>, e: Entry<K, V>, id: Checkpoint)
    requires !HasId(sets, id) && e.id != id
    ensures !HasId(sets + [e], id)
  {}

  lemma WriteRefines<K, V>(s: State<K, V>, k: K, c: Change<V>)
    requires Valid(s) && s.sets != []
    ensures Valid(DoWrite(s, k, c))
    ensures Meaning(DoWrite(s, k, c)) == Write(Meaning(s), k, c)
  {
    var t := DoWrite(s, k, c);
    var l := Last(s.sets);
    assert Front(t.sets) == Front(s.sets);
    OverlayMerge(LevelOf(Front(s.sets)).delta, l.changes, map[k := c]);
    assert l.changes + map[k := c] == l.changes[k := c];
    assert InOrder(t.sets, t.handles) by {
      assert InOrder(s.sets, s.handles);
    }
    assert Marks(t.sets, t.handles) == Marks(s.sets, s.handles);
  }

  lemma DiscardRefines<K, V>(s: State<K, V>, id: Checkpoint)
    requires Valid(s) && id in s.handles
    ensures Valid(DoDiscard(s, id))
    ensures Ids(Meaning(s).marks) == s.handles
    ensures Meaning(DoDiscard(s, id)) == Discard(Meaning(s), id)
  {
    MarkIds(s.sets, s.handles);
    BelowMeaning(s.sets, s.handles, Find(s.handles, id));
  }

  // Replacing the last changeset, and adding one that is no handle, keeps the
  // order and the marks.
  lemma RewriteLast<K, V>(sets: seq<Entry<K, V>>, handles: seq<Checkpoint>, l: Entry<K, V>, extra: Entry<K, V>)
    requires sets != [] && l.id == Last(sets).id && InOrder(sets, handles)
    requires !HasId(sets, extra.id)
    ensures InOrder(Front(sets) + [l], handles)
    ensures Marks(Front(sets) + [l], handles) == Marks(sets, handles)
    ensures InOrder(Front(sets) + [l, extra], handles)
    ensures Marks(Front(sets) + [l, extra], handles) == Marks(sets, handles)
  {
    var one, two := Front(sets) + [l], Front(sets) + [l, extra];
    assert Front(one) == Front(sets) && Front(two) == one;
    InOrderIds(sets, handles);
    if handles != [] {
      assert HasId(sets, handles[|handles| - 1]);
    }
  }

  // Both ways a commit rebuilds the end of the list keep markers in place.
  lemma MarkedAfterCommit<K, V>(sets: seq<Entry<K, V>>, handles: seq<Checkpoint>, m: nat, i: nat, data: map<K, Change<V>>, next: Checkpoint)
    requires Marked(sets, handles) && 0 < m < |sets| && i <= |handles|
    requires sets[m].id in handles && next !in handles
    ensures Marked(sets[..m - 1] + [sets[m - 1].(changes := data)], handles[..i])
    ensures Marked(sets[..m - 1] + [sets[m - 1].(changes := map[], isClear := true), Entry(next, data, false)], handles[..i])
  {
    assert forall c :: c in handles[..i] ==> c in handles;
  }

  lemma CommitValid<K, V>(s: State<K, V>, id: Checkpoint, next: Checkpoint)
    requires Valid(s) && id in s.handles && !HasId(s.sets, next)
    requires Find(s.handles, id) > 0
    ensures Valid(DoCommit(s, id, next))
    ensures Marks(DoCommit(s, id, next).sets, DoCommit(s, id, next).handles)
            == Marks(Below(s.sets, id), s.handles[..Find(s.handles, id)])
  {
    var i, below, data := Find(s.handles, id), Below(s.sets, id), Merged(s.sets, id);
    BelowMeaning(s.sets, s.handles, i);
    InOrderIds(s.sets, s.handles);
    assert next !in s.handles;
    var m, l := |below|, Last(below);
    assert s.sets[..m - 1] == Front(below) && l == s.sets[m - 1];
    assert !HasId(below, next);
    if ClearSince(s.sets, id) {
      MarkedAfterCommit(s.sets, s.handles, m, i, data, next);
      RewriteLast(below, s.handles[..i], l.(changes := map[], isClear := true), Entry(next, data, false));
    } else {
      MarkedAfterCommit(s.sets, s.handles, m, i, l.changes + data, next);
      RewriteLast(below, s.handles[..i], l.(changes := l.changes + data), Entry(next, data, false));
    }
  }

  lemma CommitRefines<K, V>(s: State<K, V>, id: Checkpoint, next: Checkpoint)
    requires Valid(s) && id in s.handles && !HasId(s.sets, next)
    requires Find(s.handles, id) > 0
    ensures Valid(DoCommit(s, id, next))
    ensures Ids(Meaning(s).marks) == s.handles
    ensures Meaning(DoCommit(s, id, next)) == Commit(Meaning(s), id)
  {
    var i := Find(s.handles, id);
    CommitValid(s, id, next);
    MarkIds(s.sets, s.handles);
    BelowMeaning(s.sets, s.handles, i);
    var below, data := Below(s.sets, id), Merged(s.sets, id);
    assert HasId(s.sets, id);
    PopMeaning(s.sets, id);
    var l := Last(below);
    assert l == s.sets[|below| - 1];
    var t := DoCommit(s, id, next);
    if ClearSince(s.sets, id) {
      assert Front(t.sets) == Front(below) + [l.(changes := map[], isClear := true)];
      EffectiveOverlay(data, map[]);
      assert LevelOf(Front(t.sets)) == Level(map[], true);
    } else {
      assert Front(t.sets) == Front(below);
      OverlayMerge(LevelOf(Front(below)).delta, l.changes, data);
    }
  }

  // The clear marker that an entry gets when the set of clears grows.
  lemma TagMarker<K, V>(data: seq<(Checkpoint, map<K, Change<V>>)>, clears: set<Checkpoint>, n: nat, changes: map<K, Change<V>>)
    requires Distinct(Tag(data, clears)) && n < |data| && Known(data, clears)
    ensures var data' := data[n := (data[n].0, changes)];
            && Tag(data', clears + {data[n].0}) == Tag(data, clears)[n := Entry(data[n].0, changes, true)]
            && Tag(data', clears) == Tag(data, clears)[n := Entry(data[n].0, changes, data[n].0 in clears)]
            && Known(data', clears) && Known(data', clears + {data[n].0})
  {
    var data' := data[n := (data[n].0, changes)];
    assert forall i :: 0 <= i < |data| ==> Tag(data, clears)[i].id == data[i].0;
    forall c | c == data[n].0 || c in clears ensures exists i :: 0 <= i < |data'| && data'[i].0 == c {
      if c == data[n].0 {
        assert data'[n].0 == c;
      } else {
        var i :| 0 <= i < |data| && data[i].0 == c;
        assert data'[i].0 == c;
      }
    }
  }

  // Dropping a suffix of the changesets, and its clears.
  lemma {:induction false} TagPrefix<K, V>(data: seq<(Checkpoint, map<K, Change<V>>)>, clears: set<Checkpoint>, n: nat)
    requires Distinct(Tag(data, clears)) && Known(data, clears) && n <= |data|
    ensures var dropped := set i | n <= i < |data| :: data[i].0;
            Known(data[..n], clears - dropped) && Tag(data[..n], clears - dropped) == Tag(data, clears)[..n]
  {
    var dropped := set i | n <= i < |data| :: data[i].0;
    assert forall i :: 0 <= i < |data| ==> Tag(data, clears)[i].id == data[i].0;
    forall c | c in clears - dropped ensures exists i :: 0 <= i < |data[..n]| && data[..n][i].0 == c {
      var i :| 0 <= i < |data| && data[i].0 == c;
      assert data[..n][i].0 == c;
    }
  }

  class Journal<K(==), V> {
    var journalData: seq<(Checkpoint, map<K, Change<V>>)>
    var clearsAt: set<Checkpoint>
    ghost var handles: seq<Checkpoint>

    ghost function Value(): State<K, V>
      reads this
    {
      State(Tag(journalData, clearsAt), handles)
    }

    ghost predicate Consistent()
      reads this
    {
      Valid(Value()) && Known(journalData, clearsAt)
    }

    constructor ()
      ensures Consistent() && Value() == State([], [])
    {
      journalData, clearsAt, handles := [], {}, [];
    }

    function IndexOf(id: Checkpoint, n: nat): (r: nat)
      requires n <= |journalData|
      reads this
      ensures r <= n
      ensures r < n ==> journalData[r].0 == id
      ensures r == n ==> forall i :: 0 <= i < n ==> journalData[i].0 != id
    {
      if n == 0 then 0
      else if IndexOf(id, n - 1) < n - 1 then IndexOf(id, n - 1)
      else if journalData[n - 1].0 == id then n - 1
      else n
    }

    // custom is an id of the caller's; next is a random id.
    method RecordChangeset(custom: Option<Checkpoint>, next: Checkpoint) returns (r: Result<Checkpoint, Error>)
      requires Consistent() && !HasId(Value().sets, next)
      modifies this
      ensures Consistent()
      ensures custom.Some? && HasId(old(Value()).sets, custom.value) ==>
                r == Err(ExistingChangeset) && Value() == old(Value())
      ensures !(custom.Some? && HasId(old(Value()).sets, custom.value)) ==>
                && r == Ok(if custom.Some? then custom.value else next)
                && Value() == DoRecord(old(Value()), r.value)
                && Meaning(Value()) == Snapshots.Record(old(Meaning(Value())), r.value)
    {
      ghost var was := Value();
      var id := next;
      if custom.Some? {
        id := custom.value;
        var i := IndexOf(id, |journalData|);
        assert forall j :: 0 <= j < |journalData| ==> was.sets[j].id == journalData[j].0;
        if i < |journalData| {
          assert was.sets[i].id == id;
          return Err(ExistingChangeset);
        }
      }
      KnownAfterPush(journalData, clearsAt, (id, map[]));
      RecordRefines(was, id);
      journalData := journalData + [(id, map[])];
      handles := handles + [id];
      return Ok(id);
    }

    method Clear(marker: Checkpoint, next: Checkpoint)
      requires Consistent()
      requires !HasId(Value().sets, marker) && !HasId(Value().sets, next) && marker != next
      modifies this
      ensures Consistent() && Value() == DoClear(old(Value()), marker, next)
      ensures Meaning(Value()) == Snapshots.Clear(old(Meaning(Value())))
    {
      ghost var was := Value();
      KnownAfterPush(journalData, clearsAt, (marker, map[]));
      ClearRefines(was, marker, next);
      journalData := journalData + [(marker, map[])];
      clearsAt := clearsAt + {marker};
      assert !HasId(Tag(journalData, clearsAt), next);
      KnownAfterPush(journalData, clearsAt, (next, map[]));
      journalData := journalData + [(next, map[])];
      assert Value().sets == DoClear(was, marker, next).sets;
    }

    // Setting a key, deleting a key of the wrapped database and deleting a
    // key of the journal differ only in what is stored.
    method Put(k: K, c: Change<V>)
      requires Consistent() && journalData != []
      modifies this
      ensures Consistent() && Value() == DoWrite(old(Value()), k, c)
      ensures Meaning(Value()) == Snapshots.Write(old(Meaning(Value())), k, c)
    {
      ghost var was := Value();
      var n := |journalData| - 1;
      var (id, changes) := journalData[n];
      WriteRefines(was, k, c);
      TagMarker(journalData, clearsAt, n, changes[k := c]);
      journalData := journalData[n := (id, changes[k := c])];
      assert Value().sets == DoWrite(was, k, c).sets;
    }

    method HasClear(id: Checkpoint) returns (r: Result<bool, Error>)
      requires Consistent()
      ensures HasId(Value().sets, id) ==> r == Ok(ClearSince(Value().sets, id))
    {
      var n := |journalData|;
      ghost var sets := Value().sets;
      assert sets[..n] == sets;
      while n > 0
        invariant 0 <= n <= |journalData|
        invariant ClearSince(sets[..n], id) == ClearSince(sets, id)
        invariant forall j :: n <= j < |sets| ==> sets[j].id != id
      {
        n := n - 1;
        assert Front(sets[..n + 1]) == sets[..n];
        if journalData[n].0 in clearsAt {
          return Ok(true);
        } else if journalData[n].0 == id {
          return Ok(false);
        }
      }
      return Err(UnknownChangeset);
    }

    // Take the changesets from id on out of the journal, merged.
    method PopChangeset(id: Checkpoint) returns (r: Result<map<K, Change<V>>, Error>)
      requires Consistent()
      modifies this`journalData, this`clearsAt
      ensures !HasId(old(Value()).sets, id) ==> r == Err(UnknownChangeset) && Value() == old(Value()) && Consistent()
      ensures HasId(old(Value()).sets, id) ==>
                && r == Ok(Merged(old(Value()).sets, id))
                && Value().sets == Below(old(Value()).sets, id)
                && Known(journalData, clearsAt)
    {
      ghost var sets := Value().sets;
      assert forall j :: 0 <= j < |journalData| ==> sets[j].id == journalData[j].0;
      var idx := IndexOf(id, |journalData|);
      if idx == |journalData| {
        return Err(UnknownChangeset);
      }
      assert sets[idx].id == id;
      BelowIsPrefix(sets, id, idx);
      var merged := MergeFrom(idx, id);
      TagPrefix(journalData, clearsAt, idx);
      var dropped := set i | idx <= i < |journalData| :: journalData[i].0;
      journalData := journalData[..idx];
      clearsAt := clearsAt - dropped;
      return Ok(merged);
    }

    // The changes from position idx on, or from the last clear after it.
    method MergeFrom(idx: nat, id: Checkpoint) returns (merged: map<K, Change<V>>)
      requires idx < |journalData| && journalData[idx].0 == id && Distinct(Value().sets)
      ensures merged == Merged(Value().sets, id)
    {
      ghost var sets := Value().sets;
      assert forall j :: 0 <= j < |journalData| ==> sets[j].id == journalData[j].0;
      // the last clear among the changesets to pop, or the first of them
      var from := |journalData| - 1;
      while from > idx && journalData[from].0 !in clearsAt
        invariant idx <= from < |journalData|
        invariant forall j :: from < j < |sets| ==> !sets[j].isClear
      {
        from := from - 1;
      }
      merged := journalData[from].1;
      var n := from + 1;
      assert Last(sets[..n]) == sets[from];
      while n < |journalData|
        invariant from < n <= |journalData|
        invariant merged == Merged(sets[..n], id)
      {
        merged := merged + journalData[n].1;
        n := n + 1;
        assert Front(sets[..n]) == sets[..n - 1] && Last(sets[..n]) == sets[n - 1];
      }
      assert sets[..n] == sets;
    }

    // Give popped changes to the latest changeset: merged in, or in a new
    // changeset after a clear marker.
    method MergeDown(data: map<K, Change<V>>, next: Checkpoint, doesClear: bool)
      requires journalData != [] && Distinct(Value().sets) && Known(journalData, clearsAt)
      requires !HasId(Value().sets, next)
      modifies this`journalData, this`clearsAt
      ensures Known(journalData, clearsAt)
      ensures var sets := old(Value().sets);
              Value().sets == Front(sets) +
                if doesClear then [Last(sets).(changes := map[], isClear := true), Entry(next, data, false)]
                else [Last(sets).(changes := Last(sets).changes + data)]
    {
      var n := |journalData| - 1;
      var (latest, changes) := journalData[n];
      if doesClear {
        TagMarker(journalData, clearsAt, n, map[]);
        ghost var sets := Value().sets;
        journalData := journalData[n := (latest, map[])];
        clearsAt := clearsAt + {latest};
        assert forall j :: 0 <= j < |sets| ==> Tag(journalData, clearsAt)[j].id == sets[j].id;
        KnownAfterPush(journalData, clearsAt, (next, data));
        journalData := journalData + [(next, data)];
      } else {
        TagMarker(journalData, clearsAt, n, changes + data);
        journalData := journalData[n := (latest, changes + data)];
      }
    }

    // A caller knows no id but its handles and ids that are gone.
    method Discard(id: Checkpoint) returns (r: Result<(), Error>)
      requires Consistent() && (id in handles || !HasId(Value().sets, id))
      modifies this
      ensures Consistent()
      ensures id in old(handles) ==>
                && r == Ok(()) && Value() == DoDiscard(old(Value()), id)
                && Ids(old(Meaning(Value())).marks) == old(handles)
                && Meaning(Value()) == Snapshots.Discard(old(Meaning(Value())), id)
      ensures id !in old(handles) ==> r == Err(UnknownChangeset) && Value() == old(Value())
    {
      ghost var was := Value();
      InOrderIds(was.sets, was.handles);
      assert id in handles ==> HasId(was.sets, handles[Find(handles, id)]);
      if id in was.handles {
        DiscardRefines(was, id);
      }
      var popped := PopChangeset(id);
      if popped.Err? {
        return Err(popped.error);
      }
      handles := handles[..Find(handles, id)];
      return Ok(());
    }

    // commit_changeset, for a handle above the root.
    method CommitChangeset(id: Checkpoint, next: Checkpoint)
      requires Consistent() && !HasId(Value().sets, next)
      requires id in handles && Find(handles, id) > 0
      modifies this
      ensures Consistent() && Value() == DoCommit(old(Value()), id, next)
    {
      ghost var was := Value();
      CommitValid(was, id, next);
      BelowMeaning(was.sets, was.handles, Find(was.handles, id));
      assert HasId(was.sets, id);
      var doesClear := HasClear(id);
      var popped := PopChangeset(id);
      assert Value().sets == Below(was.sets, id);
      MergeDown(popped.value, next, doesClear == Ok(true));
      handles := handles[..Find(handles, id)];
      assert Value().sets == DoCommit(was, id, next).sets;
    }

    method Commit(id: Checkpoint, next: Checkpoint) returns (r: Result<(), Error>)
      requires Consistent() && (id in handles || !HasId(Value().sets, id))
      requires !HasId(Value().sets, next)
      requires handles != [] && journalData != [] ==> handles[0] == journalData[0].0
      modifies this
      ensures Consistent()
      ensures r.Ok? <==> id in old(handles) && Find(old(handles), id) > 0
      ensures r.Err? ==> Value() == old(Value())
      ensures r.Ok? ==>
                && Value() == DoCommit(old(Value()), id, next)
                && Ids(old(Meaning(Value())).marks) == old(handles)
                && Meaning(Value()) == Snapshots.Commit(old(Meaning(Value())), id)
    {
      ghost var was := Value();
      InOrderIds(was.sets, was.handles);
      StackDistinct(was.sets, was.handles);
      assert id in handles ==> HasId(was.sets, handles[Find(handles, id)]);
      assert forall j :: 0 <= j < |journalData| ==> was.sets[j].id == journalData[j].0;
      var at := IndexOf(id, |journalData|);
      if at == |journalData| {
        return Err(UnknownChangeset);
      }
      assert was.sets[at].id == id;
      if id == journalData[0].0 {
        return Err(RootChangeset);
      }
      assert handles[0] != id;
      CommitRefines(was, id, next);
      CommitChangeset(id, next);
      return Ok(());
    }

    method GetItem(k: K) returns (r: Option<Change<V>>)
      ensures r == Lookup(Value().sets, k)
    {
      ghost var sets := Value().sets;
      var n := |journalData|;
      assert sets[..n] == sets;
      while n > 0
        invariant 0 <= n <= |journalData|
        invariant Lookup(sets[..n], k) == Lookup(sets, k)
      {
        n := n - 1;
        assert Front(sets[..n + 1]) == sets[..n];
        if journalData[n].0 in clearsAt {
          return Some(RevertToWrapped);
        } else if k in journalData[n].1 {
          return Some(journalData[n].1[k]);
        }
      }
      return None;
    }
  }

  lemma {:induction false} BelowIsPrefix<K, V>(sets: seq<Entry<K, V>>, id: Checkpoint, idx: nat)
    requires Distinct(sets) && idx < |sets| && sets[idx].id == id
    ensures Below(sets, id) == sets[..idx]
  {
    if Last(sets).id == id {
      assert idx == |sets| - 1;
    } else {
      BelowIsPrefix(Front(sets), id, idx);
      assert Front(sets)[..idx] == sets[..idx];
    }
  }
}
