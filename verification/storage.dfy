// veda/db/storage.py: one account's storage, two journals over a cache over a
// trie.  The trie is its contents, and a root hash is the contents it commits
// to; 0 stands for the empty bytes that a trie answers for an absent slot, and
// n > 0 for the RLP encoding of n.
module Storage {
  import opened Wrappers
  import opened Snapshots
  import opened Entries
  import J = Journaling

  type Slot = nat
  type Trie = map<Slot, nat>

  datatype Error = UnknownCheckpoint | ClearCountMismatch | IrrevertibleWipes

  // The write trie and the starting root at the time of a wipe.
  datatype Pending = Pending(writeTrie: Trie, startingRoot: Trie)

  datatype Store = Store(
    startingRoot: Trie,
    writeTrie: Option<Trie>,
    history: seq<Pending>,
    locked: J.State<Slot, nat>,
    journal: J.State<Slot, nat>,
    clearCount: J.State<(), nat>)

  function TrieGet(t: Trie, k: Slot): nat {
    if k in t then t[k] else 0
  }

  // The trie that reads go to.
  function Base(s: Store): Trie {
    if s.writeTrie.Some? then s.writeTrie.value else s.startingRoot
  }

  // What the journal of locked changes answers; None is KeyError.
  function LockedGet(s: Store, k: Slot): Option<nat> {
    match J.Lookup(s.locked, k)
    case None => Some(TrieGet(Base(s), k))
    case Some(c) => if c.Put? then Some(c.value) else None
  }

  function JournalGet(s: Store, k: Slot): Option<nat> {
    match J.Lookup(s.journal, k)
    case None => LockedGet(s, k)
    case Some(c) => if c.Put? then Some(c.value) else None
  }

  function ValueOr0(v: Option<nat>): nat {
    if v.Some? then v.value else 0
  }

  // The value of a slot, and its value at the start of the transaction.
  function Current(s: Store, k: Slot): nat { ValueOr0(JournalGet(s, k)) }

  function Original(s: Store, k: Slot): nat { ValueOr0(LockedGet(s, k)) }

  function Count(j: J.State<(), nat>): nat {
    match J.Lookup(j, ())
    case Some(Put(n)) => n
    case _ => 0
  }

  //
  // What each operation does
  //

  predicate Usable(s: Store) {
    s.locked.entries != [] && s.journal.entries != [] && s.clearCount.entries != []
  }

  function DoSet(s: Store, k: Slot, v: nat): Store
    requires Usable(s)
  {
    if v != 0 then s.(journal := J.DoWrite(s.journal, k, Put(v)))
    else if Current(s, k) == 0 then s
    else if LockedGet(s, k).Some? then s.(journal := J.DoWrite(s.journal, k, DeleteWrapped))
    else s.(journal := J.DoWrite(s.journal, k, RevertToWrapped))
  }

  function DoWipe(s: Store, marker: Checkpoint): Store
    requires Usable(s)
  {
    Store(map[], None, s.history + [Pending(Base(s), s.startingRoot)], s.locked,
          J.DoClear(s.journal, marker),
          J.DoWrite(s.clearCount, (), Put(|s.history| + 1)))
  }

  function DoRecord(s: Store, id: Checkpoint): Store {
    s.(journal := J.DoRecord(s.journal, id), clearCount := J.DoRecord(s.clearCount, id))
  }

  // Both journals undone: to the checkpoint, or to the start if the store
  // began to track changes after it.
  function Undone(s: Store, id: Checkpoint, root: Checkpoint): Store
    requires id in s.journal.stack ==> id in s.clearCount.stack
  {
    if id in s.journal.stack then
      s.(journal := J.DoDiscard(s.journal, id), clearCount := J.DoDiscard(s.clearCount, id))
    else
      s.(journal := J.Initial(root), clearCount := J.Initial(root))
  }

  // Go back to the trie of the restored clear count.
  function RollBack(u: Store, latest: nat): Result<Store, Error> {
    var reverted := Count(u.clearCount);
    if reverted == latest then Ok(u)
    else if reverted + 1 != latest then Err(IrrevertibleWipes)
    else if reverted >= |u.history| then Err(ClearCountMismatch)
    else Ok(u.(writeTrie := Some(u.history[reverted].writeTrie),
               startingRoot := u.history[reverted].startingRoot,
               history := u.history[..reverted]))
  }

  function DoDiscard(s: Store, id: Checkpoint, root: Checkpoint): Result<Store, Error>
    requires id in s.journal.stack ==> id in s.clearCount.stack
  {
    RollBack(Undone(s, id, root), Count(s.clearCount))
  }

  function DoCommit(s: Store, id: Checkpoint): Store
    requires id in s.journal.stack ==> id in s.clearCount.stack
  {
    if id in s.journal.stack then
      s.(journal := J.DoCommit(s.journal, id), clearCount := J.DoCommit(s.clearCount, id))
    else
      s.(journal := J.DoFlatten(s.journal), clearCount := J.DoFlatten(s.clearCount))
  }

  // Write each change of m through the journal j.
  function WriteAll<K, V>(j: J.State<K, V>, m: map<K, Change<V>>): J.State<K, V>
    requires j.entries != []
  {
    var e := Last(j.entries);
    j.(current := j.current + m,
       entries := Front(j.entries) + [e.(changes := RememberAll(j.current, e.changes, m))])
  }

  function DoLock(s: Store, marker: Checkpoint, root: Checkpoint): Store
    requires Usable(s)
  {
    var locked := if J.AnyClear(s.journal.entries) then J.DoClear(s.locked, marker) else s.locked;
    s.(locked := WriteAll(locked, Effective(s.journal.current)), journal := J.Initial(root))
  }

  function ApplyToTrie(t: Trie, m: map<Slot, Change<nat>>): Trie {
    map k | k in t.Keys + m.Keys && (k in m ==> m[k].Put?) ::
      if k in m then m[k].value else t[k]
  }

  function DoMakeRoot(s: Store, marker: Checkpoint, root: Checkpoint, lockedRoot: Checkpoint): Store
    requires Usable(s)
  {
    var l := DoLock(s, marker, root);
    var changes := Effective(l.locked.current);
    var written := if changes == map[] then l else l.(writeTrie := Some(ApplyToTrie(Base(l), changes)));
    written.(locked := J.Initial(lockedRoot))
  }

  //
  // What stays true
  //

  function Over(l: Level<Slot, nat>, k: Slot, below: nat): nat {
    ValueOr0(Look(l, k, Some(below)))
  }

  ghost function Now<K, V>(j: J.State<K, V>): Level<K, V> { J.Meaning(j).now }

  // A key is marked RevertToWrapped only where the layer below lacks it: never
  // in the locked changes, since the cache over a trie has every key.
  ghost predicate Local(s: Store) {
    && (forall k :: k in s.journal.current && s.journal.current[k].RevertToWrapped? ==> LockedGet(s, k).None?)
    && (forall k :: k in s.locked.current ==> !s.locked.current[k].RevertToWrapped?)
  }

  // After a wipe the trie is blank until a storage root is made.
  ghost predicate BlankAfterWipe(s: Store) {
    J.AnyClear(s.journal.entries) || J.AnyClear(s.locked.entries) ==> Base(s) == map[]
  }

  lemma Layers(s: Store, k: Slot)
    requires Local(s)
    ensures Original(s, k) == Over(Now(s.locked), k, TrieGet(Base(s), k))
    ensures Current(s, k) == Over(Now(s.journal), k, Original(s, k))
  {}

  lemma WriteAllMeaning<K, V>(j: J.State<K, V>, m: map<K, Change<V>>)
    requires J.Valid(j) && j.entries != []
    ensures var r := WriteAll(j, m);
            && J.Valid(r) && r.entries != [] && r.stack == j.stack
            && Now(r) == Level(Overlay(Now(j).delta, m), Now(j).cleared)
  {
    var r := WriteAll(j, m);
    assert Front(r.entries) == Front(j.entries);
    EffectiveOverlay(j.current, m);
    assert InOrder(r.entries, r.stack) by {
      assert InOrder(j.entries, j.stack);
    }
  }

  // The rollback values after writing all of m.
  function RememberAll<K, V>(current: map<K, Change<V>>, rollback: map<K, Change<V>>, m: map<K, Change<V>>)
    : map<K, Change<V>>
  {
    map k | k in rollback.Keys + m.Keys ::
      if k in rollback then rollback[k] else if k in current then current[k] else RevertToWrapped
  }

  lemma RememberOne<K, V>(current: map<K, Change<V>>, rollback: map<K, Change<V>>, m: map<K, Change<V>>, k: K, c: Change<V>)
    requires k !in m
    ensures J.Remember(current + m, RememberAll(current, rollback, m), k) == RememberAll(current, rollback, m[k := c])
    ensures (current + m)[k := c] == current + m[k := c]
  {}

  lemma WriteAllStep<K, V>(j: J.State<K, V>, m: map<K, Change<V>>, k: K, c: Change<V>)
    requires j.entries != [] && k !in m
    ensures J.DoWrite(WriteAll(j, m), k, c) == WriteAll(j, m[k := c])
  {
    hide RememberAll, J.Remember;
    RememberOne(j.current, Last(j.entries).changes, m, k, c);
    assert Front(WriteAll(j, m).entries) == Front(j.entries);
  }

  lemma ClearedLocked(s: Store, marker: Checkpoint)
    requires Usable(s) && J.Valid(s.locked) && !HasId(s.locked.entries, marker)
    ensures var l := if J.AnyClear(s.journal.entries) then J.DoClear(s.locked, marker) else s.locked;
            && J.Valid(l) && l.entries != []
            && Now(l) == if Now(s.journal).cleared then Level(map[], true) else Now(s.locked)
  {
    J.ClearRefines(s.locked, marker);
  }

  lemma InitialNow<K, V>(root: Checkpoint)
    ensures J.Valid(J.Initial<K, V>(root)) && Now(J.Initial<K, V>(root)) == Level(map[], false)
    ensures forall k: K :: J.Lookup(J.Initial<K, V>(root), k).None?
  {
    var j := J.Initial<K, V>(root);
    assert Front(j.entries) == [] && Front(j.stack) == [];
  }

  // The levels after lock_changes.
  lemma LockMeaning(s: Store, marker: Checkpoint, root: Checkpoint)
    requires Usable(s) && J.Valid(s.locked) && !HasId(s.locked.entries, marker)
    ensures var l := DoLock(s, marker, root);
            && Usable(l) && J.Valid(l.locked) && J.Valid(l.journal) && Base(l) == Base(s)
            && Now(l.journal) == Level(map[], false)
            && Now(l.locked) == if Now(s.journal).cleared then Now(s.journal)
                                else Level(Overlay(Now(s.locked).delta, Now(s.journal).delta), Now(s.locked).cleared)
  {
    hide J.Valid, J.Lookup, RememberAll, J.Marks, J.AnyClear;
    ClearedLocked(s, marker);
    var cleared := if J.AnyClear(s.journal.entries) then J.DoClear(s.locked, marker) else s.locked;
    WriteAllMeaning(cleared, Effective(s.journal.current));
    InitialNow<Slot, nat>(root);
    EffectiveOverlay(Effective(s.journal.current), map[]);
  }

  lemma LockLocal(s: Store, marker: Checkpoint, root: Checkpoint)
    requires Usable(s) && Local(s)
    ensures Local(DoLock(s, marker, root))
  {}

  // lock_changes moves the view of the journal into the locked changes: no
  // slot changes, and every original value becomes the current one.
  lemma LockKeepsSlots(s: Store, marker: Checkpoint, root: Checkpoint, k: Slot)
    requires Usable(s) && J.Valid(s.locked) && J.Valid(s.journal) && Local(s)
    requires !HasId(s.locked.entries, marker)
    ensures var l := DoLock(s, marker, root);
            Current(l, k) == Original(l, k) == Current(s, k)
  {
    hide J.Valid, J.Marks, J.AnyClear, J.Lookup, DoLock;
    LockMeaning(s, marker, root);
    LockLocal(s, marker, root);
    Layers(s, k);
    Layers(DoLock(s, marker, root), k);
  }

  // A pending wipe, in the journal or in the locked changes, stays covered by
  // a blank trie.
  lemma LockKeepsBlank(s: Store, marker: Checkpoint, root: Checkpoint)
    requires Usable(s) && J.Valid(s.locked) && !HasId(s.locked.entries, marker) && BlankAfterWipe(s)
    ensures BlankAfterWipe(DoLock(s, marker, root))
  {
    LockMeaning(s, marker, root);
    var l := DoLock(s, marker, root);
    assert Now(l.journal).cleared == J.AnyClear(l.journal.entries);
    assert Now(l.locked).cleared == J.AnyClear(l.locked.entries);
    assert Now(s.journal).cleared == J.AnyClear(s.journal.entries);
    assert Now(s.locked).cleared == J.AnyClear(s.locked.entries);
  }

  // make_storage_root keeps every slot, and leaves the trie alone to hold it.
  lemma MakeRootKeepsSlots(s: Store, marker: Checkpoint, root: Checkpoint, lockedRoot: Checkpoint, k: Slot)
    requires Usable(s) && J.Valid(s.locked) && J.Valid(s.journal) && Local(s) && BlankAfterWipe(s)
    requires !HasId(s.locked.entries, marker)
    ensures var r := DoMakeRoot(s, marker, root, lockedRoot);
            && Current(r, k) == Original(r, k) == TrieGet(Base(r), k) == Current(s, k)
            && Local(r) && BlankAfterWipe(r)
            && J.Lookup(r.journal, k).None? && J.Lookup(r.locked, k).None?
  {
    hide J.Valid, J.Marks, RememberAll, J.AnyClear, J.Lookup;
    var l, r := DoLock(s, marker, root), DoMakeRoot(s, marker, root, lockedRoot);
    LockMeaning(s, marker, root);
    LockLocal(s, marker, root);
    LockKeepsSlots(s, marker, root, k);
    LockKeepsBlank(s, marker, root);
    Layers(l, k);
    InitialNow<Slot, nat>(root);
    InitialNow<Slot, nat>(lockedRoot);
    assert TrieGet(Base(r), k) == Over(Level(Effective(l.locked.current), false), k, TrieGet(Base(l), k));
  }

  //
  // Checkpoints: the journal and the clear count move in step, and the
  // history holds the trie of every wipe
  //

  function CountOf(l: Level<(), nat>): nat {
    if () in l.delta && l.delta[()].Put? then l.delta[()].value else 0
  }

  // The trie in use after n wipes.
  function TrieAfter(history: seq<Pending>, base: Trie, n: nat): Trie {
    if n < |history| then history[n].writeTrie else base
  }

  // What a checkpoint above the root remembers.
  datatype Frame = Frame(id: Checkpoint, level: Level<Slot, nat>, trie: Trie)

  // Marks of the journal and of the clear count that belong together: the
  // same checkpoints above the root, with counts that never fall.
  ghost predicate Paired(jm: seq<Mark<Slot, nat>>, cm: seq<Mark<(), nat>>, wipes: nat) {
    && |jm| == |cm| > 0
    && (forall i :: 1 <= i < |jm| ==> jm[i].id == cm[i].id && CountOf(cm[i].level) <= wipes)
    && (forall i, j :: 1 <= i < j < |cm| ==> CountOf(cm[i].level) <= CountOf(cm[j].level))
  }

  ghost function FramesOf(jm: seq<Mark<Slot, nat>>, cm: seq<Mark<(), nat>>, history: seq<Pending>, base: Trie): seq<Frame>
    requires |jm| == |cm| > 0
  {
    seq(|jm| - 1, i requires 0 <= i < |jm| - 1 =>
      Frame(jm[i + 1].id, jm[i + 1].level, TrieAfter(history, base, CountOf(cm[i + 1].level))))
  }

  ghost function Marks<K, V>(j: J.State<K, V>): seq<Mark<K, V>> { J.Meaning(j).marks }

  ghost predicate ValidJournals(s: Store) {
    Usable(s) && J.Valid(s.locked) && J.Valid(s.journal) && J.Valid(s.clearCount)
  }

  ghost predicate Aligned(s: Store) {
    && ValidJournals(s)
    && Count(s.clearCount) == |s.history|
    && Paired(Marks(s.journal), Marks(s.clearCount), |s.history|)
  }

  ghost function Frames(s: Store): seq<Frame>
    requires Aligned(s)
  {
    FramesOf(Marks(s.journal), Marks(s.clearCount), s.history, Base(s))
  }

  // BlankAfterWipe, for the remembered levels and tries.
  ghost predicate BlankFrames(locked: Level<Slot, nat>, frames: seq<Frame>) {
    forall i :: 0 <= i < |frames| ==> (frames[i].level.cleared || locked.cleared ==> frames[i].trie == map[])
  }

  ghost predicate Sound(s: Store) {
    Aligned(s) && Local(s) && BlankAfterWipe(s) && BlankFrames(Now(s.locked), Frames(s))
  }

  function FrameValue(locked: Level<Slot, nat>, f: Frame, k: Slot): nat {
    Over(f.level, k, Over(locked, k, TrieGet(f.trie, k)))
  }

  lemma CurrentIsFrameValue(s: Store, k: Slot, id: Checkpoint)
    requires Local(s)
    ensures Current(s, k) == FrameValue(Now(s.locked), Frame(id, Now(s.journal), Base(s)), k)
  {
    Layers(s, k);
  }

  lemma ClearedNow<K, V>(j: J.State<K, V>)
    ensures J.AnyClear(j.entries) == Now(j).cleared
  {}

  //
  // Setting a slot sets that slot and touches no checkpoint
  //

  lemma SetCurrent(s: Store, k: Slot, v: nat, j: Slot)
    requires Usable(s)
    ensures Current(DoSet(s, k, v), j) == if j == k then v else Current(s, j)
  {
    assert Last(DoSet(s, k, v).journal.entries).isClear == Last(s.journal.entries).isClear;
    assert Front(DoSet(s, k, v).journal.entries) == Front(s.journal.entries);
  }

  lemma SetKeeps(s: Store, k: Slot, v: nat)
    requires Sound(s)
    ensures Sound(DoSet(s, k, v)) && Frames(DoSet(s, k, v)) == Frames(s)
  {
    if DoSet(s, k, v) != s {
      WriteKeeps(s, k, if v != 0 then Put(v) else if LockedGet(s, k).Some? then DeleteWrapped else RevertToWrapped);
    }
  }

  lemma WriteKeeps(s: Store, k: Slot, c: Change<nat>)
    requires Sound(s) && (c.RevertToWrapped? ==> LockedGet(s, k).None?)
    ensures var t := s.(journal := J.DoWrite(s.journal, k, c));
            Sound(t) && Frames(t) == Frames(s)
  {
    J.WriteRefines(s.journal, k, c);
    ClearedNow(s.journal);
    ClearedNow(J.DoWrite(s.journal, k, c));
    assert Frames(s.(journal := J.DoWrite(s.journal, k, c))) == Frames(s);
  }

  //
  // Wiping blanks every slot and touches no checkpoint
  //

  lemma WipeCurrent(s: Store, marker: Checkpoint, j: Slot)
    requires Usable(s)
    ensures Current(DoWipe(s, marker), j) == 0
  {
    assert Last(DoWipe(s, marker).journal.entries).isClear;
  }

  // A set leaves the values from the start of the transaction alone; after a
  // wipe they come from the locked changes over nothing.
  lemma OriginalStays(s: Store, k: Slot, v: nat, marker: Checkpoint, j: Slot)
    requires Usable(s) && Local(s)
    ensures Original(DoSet(s, k, v), j) == Original(s, j)
    ensures Original(DoWipe(s, marker), j) == Over(Now(s.locked), j, 0)
  {
    hide J.AnyClear;
  }

  lemma WipeFrames(jm: seq<Mark<Slot, nat>>, cm: seq<Mark<(), nat>>, history: seq<Pending>, base: Trie, root: Trie)
    requires Paired(jm, cm, |history|)
    ensures Paired(jm, cm, |history| + 1)
    ensures FramesOf(jm, cm, history + [Pending(base, root)], map[]) == FramesOf(jm, cm, history, base)
  {}

  lemma WipeKeeps(s: Store, marker: Checkpoint)
    requires Sound(s) && !HasId(s.journal.entries, marker)
    ensures Sound(DoWipe(s, marker)) && Frames(DoWipe(s, marker)) == Frames(s)
  {
    J.ClearRefines(s.journal, marker);
    J.WriteRefines(s.clearCount, (), Put(|s.history| + 1));
    WipeFrames(Marks(s.journal), Marks(s.clearCount), s.history, Base(s), s.startingRoot);
    var t := DoWipe(s, marker);
    WipeAligned(s, t);
  }

  lemma WipeAligned(s: Store, t: Store)
    requires Aligned(s) && ValidJournals(t) && t.locked == s.locked
    requires Marks(t.journal) == Marks(s.journal) && Marks(t.clearCount) == Marks(s.clearCount)
    requires t.history == s.history + [Pending(Base(s), s.startingRoot)] && Base(t) == map[]
    requires Count(t.clearCount) == |t.history|
    ensures Aligned(t) && Frames(t) == Frames(s)
  {
    WipeFrames(Marks(s.journal), Marks(s.clearCount), s.history, Base(s), s.startingRoot);
  }

  //
  // Recording adds a checkpoint for the present view
  //

  lemma RecordFrames(jm: seq<Mark<Slot, nat>>, cm: seq<Mark<(), nat>>, history: seq<Pending>, base: Trie,
                     id: Checkpoint, level: Level<Slot, nat>, count: Level<(), nat>)
    requires Paired(jm, cm, |history|) && CountOf(count) == |history|
    ensures Paired(jm + [Mark(id, level)], cm + [Mark(id, count)], |history|)
    ensures FramesOf(jm + [Mark(id, level)], cm + [Mark(id, count)], history, base)
            == FramesOf(jm, cm, history, base) + [Frame(id, level, base)]
  {}

  lemma CountNow(j: J.State<(), nat>)
    ensures Count(j) == CountOf(Now(j))
  {}

  lemma RecordKeeps(s: Store, id: Checkpoint)
    requires Sound(s) && !HasId(s.journal.entries, id) && !HasId(s.clearCount.entries, id)
    ensures Sound(DoRecord(s, id))
    ensures Frames(DoRecord(s, id)) == Frames(s) + [Frame(id, Now(s.journal), Base(s))]
  {
    hide FramesOf;
    var t := DoRecord(s, id);
    J.RecordRefines(s.journal, id);
    J.RecordRefines(s.clearCount, id);
    ClearedNow(s.journal);
    ClearedNow(t.journal);
    CountNow(s.clearCount);
    CountNow(t.clearCount);
    RecordFrames(Marks(s.journal), Marks(s.clearCount), s.history, Base(s), id, Now(s.journal), Now(s.clearCount));
    assert Frames(t) == Frames(s) + [Frame(id, Now(s.journal), Base(s))];
  }

  //
  // Discarding goes back to a checkpoint, or to the start
  //

  lemma FrameNames(s: Store)
    requires Aligned(s)
    ensures |s.journal.stack| == |s.clearCount.stack| == |Frames(s)| + 1 == |Marks(s.clearCount)|
    ensures forall i :: 1 <= i < |s.journal.stack| ==>
              s.journal.stack[i] == s.clearCount.stack[i] == Frames(s)[i - 1].id
  {
    J.MarkIds(Effective(s.journal.current), s.journal.entries, s.journal.stack);
    J.MarkIds(Effective(s.clearCount.current), s.clearCount.entries, s.clearCount.stack);
    var jm, cm := Marks(s.journal), Marks(s.clearCount);
    assert |Ids(jm)| == |jm| && |Ids(cm)| == |cm|;
    forall i | 1 <= i < |jm| ensures s.journal.stack[i] == s.clearCount.stack[i] == Frames(s)[i - 1].id {
      assert Ids(jm)[i] == jm[i].id && Ids(cm)[i] == cm[i].id;
    }
  }

  lemma SameFind(a: seq<Checkpoint>, b: seq<Checkpoint>, id: Checkpoint)
    requires |a| == |b| && (forall i :: 1 <= i < |a| ==> a[i] == b[i])
    requires id in a && Find(a, id) > 0
    ensures id in b && Find(b, id) == Find(a, id)
  {
    assert b[Find(a, id)] == id;
  }

  lemma DiscardFrames(jm: seq<Mark<Slot, nat>>, cm: seq<Mark<(), nat>>, history: seq<Pending>, base: Trie, i: nat)
    requires Paired(jm, cm, |history|) && 1 <= i < |jm|
    ensures var n := CountOf(cm[i].level);
            && n <= |history|
            && Paired(jm[..i], cm[..i], n)
            && FramesOf(jm[..i], cm[..i], history[..n], TrieAfter(history, base, n)) == FramesOf(jm, cm, history, base)[..i - 1]
            && FramesOf(jm, cm, history, base)[i - 1] == Frame(jm[i].id, jm[i].level, TrieAfter(history, base, n))
  {}

  // The present count, and the count at the checkpoint id or at the start.
  ghost function CountAt(s: Store, id: Checkpoint): nat
    requires Aligned(s)
  {
    FrameNames(s);
    if id in s.journal.stack then CountOf(Marks(s.clearCount)[Find(s.journal.stack, id)].level) else 0
  }

  // How many wipes a discard of id undoes.
  ghost function WipesSince(s: Store, id: Checkpoint): int
    requires Aligned(s)
  {
    |s.history| - CountAt(s, id)
  }

  // Where a discard of id leads: the frame of id, or the start.
  ghost function Target(s: Store, id: Checkpoint): Frame
    requires Aligned(s) && (id in s.journal.stack ==> Find(s.journal.stack, id) > 0)
  {
    FrameNames(s);
    if id in s.journal.stack then Frames(s)[Find(s.journal.stack, id) - 1]
    else Frame(id, Level(map[], false), TrieAfter(s.history, Base(s), 0))
  }

  // The frames that stay when id is discarded or committed.
  ghost function FramesBelow(s: Store, id: Checkpoint): seq<Frame>
    requires Aligned(s) && (id in s.journal.stack ==> Find(s.journal.stack, id) > 0)
  {
    FrameNames(s);
    if id in s.journal.stack then Frames(s)[..Find(s.journal.stack, id) - 1] else []
  }

  // The checkpoint stack that stays.
  ghost function StackBelow(s: Store, id: Checkpoint): seq<Checkpoint>
    requires Aligned(s)
  {
    FrameNames(s);
    if id in s.journal.stack then s.journal.stack[..Find(s.journal.stack, id)] else s.journal.stack[..1]
  }

  // Both journals after the discard of the i-th checkpoint.
  lemma UndoneMarks(s: Store, id: Checkpoint, root: Checkpoint)
    requires Sound(s) && id in s.journal.stack && Find(s.journal.stack, id) > 0
    ensures id in s.clearCount.stack && Find(s.clearCount.stack, id) == Find(s.journal.stack, id)
    ensures var i, u := Find(s.journal.stack, id), Undone(s, id, root);
            && i < |Marks(s.journal)| == |Marks(s.clearCount)|
            && ValidJournals(u) && u.journal.stack == StackBelow(s, id)
            && Now(u.journal) == Marks(s.journal)[i].level && Marks(u.journal) == Marks(s.journal)[..i]
            && Now(u.clearCount) == Marks(s.clearCount)[i].level && Marks(u.clearCount) == Marks(s.clearCount)[..i]
  {
    FrameNames(s);
    SameFind(s.journal.stack, s.clearCount.stack, id);
    J.DiscardRefines(s.journal, id);
    J.DiscardRefines(s.clearCount, id);
    var i := Find(s.journal.stack, id);
    J.UnwindKeepsRoot(s.journal.current, s.journal.entries, s.journal.stack, i);
    J.UnwindKeepsRoot(s.clearCount.current, s.clearCount.entries, s.clearCount.stack, i);
  }

  lemma UndoneLocal(s: Store, id: Checkpoint, root: Checkpoint)
    requires Local(s) && (id in s.journal.stack ==> id in s.clearCount.stack)
    ensures forall t: Store :: t.locked == s.locked && t.journal == Undone(s, id, root).journal ==> Local(t)
  {
    J.UnwindLocal(s.journal.current, s.journal.entries, id);
  }

  // Rolling the trie back after both journals went back to their i-th marks.
  lemma RollBackFrames(s: Store, u: Store, i: nat)
    requires Sound(s) && 1 <= i < |Marks(s.journal)|
    requires ValidJournals(u) && u == s.(journal := u.journal, clearCount := u.clearCount)
    requires Now(u.journal) == Marks(s.journal)[i].level && Marks(u.journal) == Marks(s.journal)[..i]
    requires Now(u.clearCount) == Marks(s.clearCount)[i].level && Marks(u.clearCount) == Marks(s.clearCount)[..i]
    requires forall t: Store :: t.locked == s.locked && t.journal == u.journal ==> Local(t)
    ensures RollBack(u, |s.history|).Ok? <==> |s.history| - CountOf(Marks(s.clearCount)[i].level) <= 1
    ensures |s.history| - CountOf(Marks(s.clearCount)[i].level) <= 1 ==>
              var t := RollBack(u, |s.history|).value;
              && Sound(t) && t.journal == u.journal && t.locked == s.locked
              && Base(t) == Frames(s)[i - 1].trie && Frames(t) == Frames(s)[..i - 1]
  {
    hide J.Valid, J.AnyClear, J.Marks, InOrder;
    CountNow(u.clearCount);
    var n := CountOf(Marks(s.clearCount)[i].level);
    DiscardFrames(Marks(s.journal), Marks(s.clearCount), s.history, Base(s), i);
    ClearedNow(u.journal);
    ClearedNow(s.locked);
    assert Frames(s)[i - 1].level == Now(u.journal);
    if |s.history| - n <= 1 {
      var t := RollBack(u, |s.history|).value;
      assert t.history == s.history[..n];
      assert Base(t) == TrieAfter(s.history, Base(s), n);
      assert Frames(t) == Frames(s)[..i - 1];
    }
  }

  // Discard goes back over at most one wipe; then the journal level and the
  // trie are those of the target, and the checkpoints below it stay.
  lemma DiscardToCheckpoint(s: Store, id: Checkpoint, root: Checkpoint)
    requires Sound(s) && id in s.journal.stack && Find(s.journal.stack, id) > 0
    ensures id in s.clearCount.stack
    ensures DoDiscard(s, id, root).Ok? <==> WipesSince(s, id) <= 1
    ensures WipesSince(s, id) <= 1 ==>
              var t := DoDiscard(s, id, root).value;
              && Sound(t) && t.locked == s.locked && t.journal.stack == StackBelow(s, id)
              && Now(t.journal) == Target(s, id).level && Base(t) == Target(s, id).trie
              && Frames(t) == FramesBelow(s, id)
  {
    UndoneMarks(s, id, root);
    UndoneLocal(s, id, root);
    RollBackFrames(s, Undone(s, id, root), Find(s.journal.stack, id));
  }

  lemma DiscardToStart(s: Store, id: Checkpoint, root: Checkpoint)
    requires Sound(s) && id !in s.journal.stack && Now(s.locked) == Level(map[], false)
    ensures DoDiscard(s, id, root).Ok? <==> WipesSince(s, id) <= 1
    ensures WipesSince(s, id) <= 1 ==>
              var t := DoDiscard(s, id, root).value;
              && Sound(t) && t.locked == s.locked
              && Now(t.journal) == Target(s, id).level && Base(t) == Target(s, id).trie
              && Frames(t) == [] && t.journal.stack == [root]
  {
    hide J.Valid, J.AnyClear, J.Marks, InOrder;
    InitialNow<Slot, nat>(root);
    InitialNow<(), nat>(root);
    InitialMarks<Slot, nat>(root);
    InitialMarks<(), nat>(root);
    UndoneLocal(s, id, root);
    ClearedNow(s.locked);
    ClearedNow(J.Initial<Slot, nat>(root));
  }

  lemma InitialMarks<K, V>(root: Checkpoint)
    ensures Marks(J.Initial<K, V>(root)) == [Mark(root, Level(map[], false))]
  {
    var j := J.Initial<K, V>(root);
    var none: map<K, Change<V>> := map[];
    assert Front(j.entries) == [] && Front(j.stack) == [];
    assert Overlay(none, none) == none && Effective(none) == none;
    assert J.Marks(none, j.entries, j.stack) == J.Marks(none, [], []) + [Mark(root, Level(none, false))];
  }

  //
  // Committing forgets checkpoints and keeps the view
  //

  lemma CommitFrames(jm: seq<Mark<Slot, nat>>, cm: seq<Mark<(), nat>>, history: seq<Pending>, base: Trie, i: nat)
    requires Paired(jm, cm, |history|) && 1 <= i <= |jm|
    ensures Paired(jm[..i], cm[..i], |history|)
    ensures FramesOf(jm[..i], cm[..i], history, base) == FramesOf(jm, cm, history, base)[..i - 1]
  {}

  lemma CommitAligned(s: Store, t: Store, i: nat)
    requires Sound(s) && 1 <= i <= |Marks(s.journal)|
    requires ValidJournals(t) && t == s.(journal := t.journal, clearCount := t.clearCount)
    requires Now(t.journal) == Now(s.journal) && Marks(t.journal) == Marks(s.journal)[..i]
    requires Now(t.clearCount) == Now(s.clearCount) && Marks(t.clearCount) == Marks(s.clearCount)[..i]
    requires t.journal.current == s.journal.current
    ensures Sound(t) && Frames(t) == Frames(s)[..i - 1]
  {
    CommitFrames(Marks(s.journal), Marks(s.clearCount), s.history, Base(s), i);
    CountNow(s.clearCount);
    CountNow(t.clearCount);
    ClearedNow(s.journal);
    ClearedNow(t.journal);
    assert Frames(t) == Frames(s)[..i - 1];
  }

  lemma CommitKeeps(s: Store, id: Checkpoint)
    requires Sound(s) && (id in s.journal.stack ==> Find(s.journal.stack, id) > 0)
    ensures id in s.journal.stack ==> id in s.clearCount.stack
    ensures var t := DoCommit(s, id);
            && Sound(t) && t.locked == s.locked && Now(t.journal) == Now(s.journal) && Base(t) == Base(s)
            && Frames(t) == FramesBelow(s, id) && t.journal.stack == StackBelow(s, id)
  {
    hide J.Valid, J.AnyClear, J.Marks, InOrder, Paired, FramesOf, BlankFrames;
    FrameNames(s);
    if id in s.journal.stack {
      var i := Find(s.journal.stack, id);
      SameFind(s.journal.stack, s.clearCount.stack, id);
      J.CommitRefines(s.journal, id);
      J.CommitRefines(s.clearCount, id);
      CommitAligned(s, DoCommit(s, id), i);
    } else {
      J.FlattenRefines(s.journal);
      J.FlattenRefines(s.clearCount);
      var j, c := Marks(s.journal), Marks(s.clearCount);
      assert |s.journal.stack| < 2 ==> s.journal.stack[..1] == s.journal.stack && j[..1] == j && c[..1] == c;
      CommitAligned(s, DoCommit(s, id), 1);
    }
  }

  // lock_changes, when no checkpoint is pending, leaves a sound store.
  lemma LockSound(s: Store, marker: Checkpoint, root: Checkpoint)
    requires Sound(s) && Frames(s) == [] && !HasId(s.locked.entries, marker)
    ensures Sound(DoLock(s, marker, root)) && Frames(DoLock(s, marker, root)) == []
  {
    hide J.Valid, J.AnyClear, J.Marks, J.Meaning, InOrder;
    LockMeaning(s, marker, root);
    LockLocal(s, marker, root);
    LockKeepsBlank(s, marker, root);
    InitialMarks<Slot, nat>(root);
  }

  // A discard gives every slot back the value it had at the checkpoint, or at
  // the start when the checkpoint is older than the store's tracking.
  lemma DiscardRestoresSlots(s: Store, id: Checkpoint, root: Checkpoint, k: Slot)
    requires Sound(s) && WipesSince(s, id) <= 1
    requires if id in s.journal.stack then Find(s.journal.stack, id) > 0 else Now(s.locked) == Level(map[], false)
    ensures id in s.journal.stack ==> id in s.clearCount.stack
    ensures DoDiscard(s, id, root).Ok?
    ensures Current(DoDiscard(s, id, root).value, k) == FrameValue(Now(s.locked), Target(s, id), k)
    ensures Original(DoDiscard(s, id, root).value, k) == Over(Now(s.locked), k, TrieGet(Target(s, id).trie, k))
  {
    if id in s.journal.stack {
      DiscardToCheckpoint(s, id, root);
    } else {
      DiscardToStart(s, id, root);
    }
    Layers(DoDiscard(s, id, root).value, k);
  }

  lemma WriteAllNothing<K, V>(j: J.State<K, V>)
    requires j.entries != []
    ensures WriteAll(j, map[]) == j
  {
    assert j.current + map[] == j.current;
    assert Last(WriteAll(j, map[]).entries).changes == Last(j.entries).changes;
    assert WriteAll(j, map[]).entries == j.entries;
  }

  lemma WriteAllEntries<K, V>(j: J.State<K, V>)
    requires j.entries != []
    ensures forall m :: WriteAll(j, m).entries != []
  {}

  lemma EffectiveAt<K, V>(changes: map<K, Change<V>>)
    ensures forall k :: k in Effective(changes) <==> k in changes && !changes[k].RevertToWrapped?
    ensures forall k :: k in Effective(changes) ==> Effective(changes)[k] == changes[k]
  {}

  function Restrict<K, V>(m: map<K, V>, keys: set<K>): map<K, V> {
    map k | k in m && k in keys :: m[k]
  }

  class AccountStorageDB {
    const address: nat
    var startingRoot: Trie
    var writeTrie: Option<Trie>
    var history: seq<Pending>
    var cachedValues: map<Slot, nat>
    var locked: J.State<Slot, nat>
    var journal: J.State<Slot, nat>
    var clearCount: J.State<(), nat>

    // Everything but the cache, which no answer depends on.
    ghost function Value(): Store
      reads this
    {
      Store(startingRoot, writeTrie, history, locked, journal, clearCount)
    }

    ghost predicate Coherent()
      reads this
    {
      forall k :: k in cachedValues ==> cachedValues[k] == TrieGet(Base(Value()), k)
    }

    constructor (storageRoot: Trie, address: nat, lockedRoot: Checkpoint, journalRoot: Checkpoint, countRoot: Checkpoint)
      ensures this.address == address && Coherent() && Value() == Loaded(storageRoot, lockedRoot, journalRoot, countRoot)
    {
      this.address := address;
      startingRoot, writeTrie, history, cachedValues := storageRoot, None, [], map[];
      locked, journal, clearCount := J.Initial(lockedRoot), J.Initial(journalRoot), J.Initial(countRoot);
    }

    method ReadTrie() returns (t: Trie)
      ensures t == Base(Value())
    {
      t := if writeTrie.Some? then writeTrie.value else startingRoot;
    }

    // The cache fills on reads; evicted is what its size limit pushes out.
    method CacheGet(k: Slot, evicted: set<Slot>) returns (v: nat)
      requires Coherent()
      modifies this`cachedValues
      ensures Coherent() && v == TrieGet(Base(Value()), k)
    {
      if k !in cachedValues {
        var t := ReadTrie();
        cachedValues := cachedValues[k := TrieGet(t, k)] - (evicted - {k});
      }
      v := cachedValues[k];
    }

    method LockedLookup(k: Slot, evicted: set<Slot>) returns (v: Option<nat>)
      requires Coherent()
      modifies this`cachedValues
      ensures Coherent() && v == LockedGet(Value(), k)
    {
      match J.Lookup(locked, k)
      case None =>
        var c := CacheGet(k, evicted);
        v := Some(c);
      case Some(c) => v := if c.Put? then Some(c.value) else None;
    }

    method JournalLookup(k: Slot, evicted: set<Slot>) returns (v: Option<nat>)
      requires Coherent()
      modifies this`cachedValues
      ensures Coherent() && v == JournalGet(Value(), k)
    {
      match J.Lookup(journal, k)
      case None => v := LockedLookup(k, evicted);
      case Some(c) => v := if c.Put? then Some(c.value) else None;
    }

    method Get(slot: Slot, fromJournal: bool, evicted: set<Slot>) returns (v: nat)
      requires Coherent()
      modifies this`cachedValues
      ensures Coherent() && Value() == old(Value())
      ensures v == if fromJournal then Current(Value(), slot) else Original(Value(), slot)
    {
      var encoded;
      if fromJournal {
        encoded := JournalLookup(slot, evicted);
      } else {
        encoded := LockedLookup(slot, evicted);
      }
      v := if encoded.None? then 0 else encoded.value;
    }

    method Set(slot: Slot, value: nat, evicted: set<Slot>)
      requires Coherent() && Usable(Value())
      modifies this
      ensures Coherent() && Value() == DoSet(old(Value()), slot, value)
      ensures forall j :: Current(Value(), j) == if j == slot then value else Current(old(Value()), j)
      ensures Sound(old(Value())) ==> Sound(Value()) && Frames(Value()) == Frames(old(Value()))
    {
      ghost var was := Value();
      forall j ensures Current(DoSet(was, slot, value), j) == if j == slot then value else Current(was, j) {
        SetCurrent(was, slot, value, j);
      }
      if Sound(was) {
        SetKeeps(was, slot, value);
      }
      if value != 0 {
        journal := J.DoWrite(journal, slot, Put(value));
      } else {
        var current := JournalLookup(slot, evicted);
        if current.Some? && current.value != 0 {
          var below := LockedLookup(slot, evicted);
          journal := J.DoWrite(journal, slot, if below.Some? then DeleteWrapped else RevertToWrapped);
        }
      }
    }

    method NewTrie() returns (index: nat)
      modifies this`startingRoot, this`writeTrie, this`history
      ensures history == old(history) + [Pending(Base(old(Value())), old(startingRoot))] && index == |history|
      ensures startingRoot == map[] && writeTrie == None
    {
      var t := ReadTrie();
      history := history + [Pending(t, startingRoot)];
      index := |history|;
      startingRoot, writeTrie := map[], None;
    }

    method Delete(marker: Checkpoint) returns (r: Result<(), Error>)
      requires Usable(Value())
      modifies this
      ensures r.Ok? <==> Count(old(clearCount)) == |old(history)|
      ensures r.Ok? ==> Coherent() && Value() == DoWipe(old(Value()), marker)
      ensures r.Ok? ==> forall j :: Current(Value(), j) == 0
    {
      ghost var was := Value();
      forall j ensures Current(DoWipe(was, marker), j) == 0 {
        WipeCurrent(was, marker, j);
      }
      journal := J.DoClear(journal, marker);
      cachedValues := map[];
      var newCount := NewTrie();
      var oldCount := Count(clearCount);
      if newCount != oldCount + 1 {
        return Err(ClearCountMismatch);
      }
      clearCount := J.DoWrite(clearCount, (), Put(newCount));
      return Ok(());
    }

    method Record(id: Checkpoint)
      requires Coherent()
      modifies this
      ensures Coherent() && Value() == DoRecord(old(Value()), id)
    {
      journal, clearCount := J.DoRecord(journal, id), J.DoRecord(clearCount, id);
    }

    // root is the id that a reset journal starts with.
    method Discard(id: Checkpoint, root: Checkpoint) returns (r: Result<(), Error>)
      requires id in journal.stack ==> id in clearCount.stack
      modifies this
      ensures r.Ok? <==> DoDiscard(old(Value()), id, root).Ok?
      ensures r.Ok? ==> Coherent() && Value() == DoDiscard(old(Value()), id, root).value
    {
      var latest := Count(clearCount);
      if id in journal.stack {
        journal := J.DoDiscard(journal, id);
        clearCount := J.DoDiscard(clearCount, id);
      } else {
        journal, clearCount := J.Initial(root), J.Initial(root);
      }
      cachedValues := map[];
      var reverted := Count(clearCount);
      if reverted + 1 == latest {
        if reverted >= |history| {
          return Err(ClearCountMismatch);
        }
        writeTrie, startingRoot := Some(history[reverted].writeTrie), history[reverted].startingRoot;
        history := history[..reverted];
      } else if reverted != latest {
        return Err(IrrevertibleWipes);
      }
      return Ok(());
    }

    method Commit(id: Checkpoint)
      requires Coherent() && (id in journal.stack ==> id in clearCount.stack)
      modifies this
      ensures Coherent() && Value() == DoCommit(old(Value()), id)
      ensures forall k :: Current(Value(), k) == Current(old(Value()), k)
    {
      if id in journal.stack {
        journal, clearCount := J.DoCommit(journal, id), J.DoCommit(clearCount, id);
      } else {
        journal, clearCount := J.DoFlatten(journal), J.DoFlatten(clearCount);
      }
    }

    // Persist popped changes of the journal into the locked changes.
    method PersistToLocked(changes: map<Slot, Change<nat>>)
      requires locked.entries != []
      modifies this`locked
      ensures locked == WriteAll(old(locked), Effective(changes))
    {
      hide WriteAll, Effective, J.DoWrite;
      ghost var effective := Effective(changes);
      EffectiveAt(changes);
      var todo := changes.Keys;
      WriteAllNothing(locked);
      WriteAllEntries(locked);
      assert Restrict(effective, changes.Keys - todo) == map[];
      while todo != {}
        invariant todo <= changes.Keys
        invariant locked == WriteAll(old(locked), Restrict(effective, changes.Keys - todo))
      {
        var k :| k in todo;
        ghost var sofar := Restrict(effective, changes.Keys - todo);
        todo := todo - {k};
        if changes[k].RevertToWrapped? {
          assert Restrict(effective, changes.Keys - todo) == sofar;
        } else {
          WriteAllStep(old(locked), sofar, k, changes[k]);
          assert Restrict(effective, changes.Keys - todo) == sofar[k := changes[k]];
          locked := J.DoWrite(locked, k, changes[k]);
        }
      }
      assert Restrict(effective, changes.Keys - todo) == effective;
    }

    method LockChanges(marker: Checkpoint, root: Checkpoint)
      requires Coherent() && Usable(Value())
      modifies this
      ensures Coherent() && Value() == DoLock(old(Value()), marker, root)
    {
      if J.AnyClear(journal.entries) {
        locked := J.DoClear(locked, marker);
      }
      var changes := journal.current;
      journal := J.Initial(root);
      PersistToLocked(changes);
    }

    // Write to or delete from the trie, through the cache.
    method TrieChange(k: Slot, c: Change<nat>, evicted: set<Slot>)
      requires Coherent() && !c.RevertToWrapped?
      modifies this`cachedValues, this`writeTrie
      ensures Coherent()
      ensures writeTrie == Some(ApplyToTrie(Base(old(Value())), map[k := c]))
    {
      var t := ReadTrie();
      if c.Put? {
        cachedValues := cachedValues[k := c.value] - (evicted - {k});
        writeTrie := Some(t[k := c.value]);
      } else {
        cachedValues := cachedValues - {k};
        writeTrie := Some(t - {k});
      }
      assert writeTrie.value == ApplyToTrie(t, map[k := c]);
    }

    // Persist popped locked changes into the trie.
    method PersistToTrie(changes: map<Slot, Change<nat>>, evicted: set<Slot>)
      requires Coherent()
      modifies this`cachedValues, this`writeTrie
      ensures Coherent()
      ensures writeTrie == if Effective(changes) == map[] then old(writeTrie)
                           else Some(ApplyToTrie(Base(old(Value())), Effective(changes)))
    {
      ghost var effective, t := Effective(changes), Base(Value());
      var todo := changes.Keys;
      assert Restrict(effective, changes.Keys - todo) == map[];
      while todo != {}
        invariant todo <= changes.Keys && Coherent()
        invariant var m := Restrict(effective, changes.Keys - todo);
                  writeTrie == if m == map[] then old(writeTrie) else Some(ApplyToTrie(t, m))
      {
        var k :| k in todo;
        ghost var sofar := Restrict(effective, changes.Keys - todo);
        todo := todo - {k};
        if changes[k].RevertToWrapped? {
          assert Restrict(effective, changes.Keys - todo) == sofar;
        } else {
          ApplyStep(t, sofar, k, changes[k]);
          assert Base(Value()) == ApplyToTrie(t, sofar);
          TrieChange(k, changes[k], evicted);
          assert k in sofar[k := changes[k]];
          assert Restrict(effective, changes.Keys - todo) == sofar[k := changes[k]];
        }
      }
      assert Restrict(effective, changes.Keys - todo) == effective;
    }

    method MakeStorageRoot(marker: Checkpoint, root: Checkpoint, lockedRoot: Checkpoint, evicted: set<Slot>)
      requires Coherent() && Usable(Value())
      modifies this
      ensures Coherent() && Value() == DoMakeRoot(old(Value()), marker, root, lockedRoot)
    {
      LockChanges(marker, root);
      var changes := locked.current;
      locked := J.Initial(lockedRoot);
      PersistToTrie(changes, evicted);
    }
  }

  lemma ApplyStep(t: Trie, m: map<Slot, Change<nat>>, k: Slot, c: Change<nat>)
    ensures ApplyToTrie(t, map[]) == t
    ensures ApplyToTrie(ApplyToTrie(t, m), map[k := c]) == ApplyToTrie(t, m[k := c])
  {}

  // A store just loaded from a storage root.
  function Loaded(storageRoot: Trie, lockedRoot: Checkpoint, journalRoot: Checkpoint, countRoot: Checkpoint): Store {
    Store(storageRoot, None, [], J.Initial(lockedRoot), J.Initial(journalRoot), J.Initial(countRoot))
  }

  lemma LoadedSound(t: Trie, lockedRoot: Checkpoint, journalRoot: Checkpoint, countRoot: Checkpoint)
    ensures var s := Loaded(t, lockedRoot, journalRoot, countRoot);
            && Sound(s) && Frames(s) == [] && Base(s) == t
            && Now(s.locked) == Level(map[], false) && Now(s.journal) == Level(map[], false)
            && forall k :: Current(s, k) == TrieGet(t, k)
  {
    InitialNow<Slot, nat>(lockedRoot);
    InitialNow<Slot, nat>(journalRoot);
    InitialNow<(), nat>(countRoot);
    InitialMarks<Slot, nat>(journalRoot);
    InitialMarks<(), nat>(countRoot);
    ClearedNow(J.Initial<Slot, nat>(lockedRoot));
    ClearedNow(J.Initial<Slot, nat>(journalRoot));
  }
}
