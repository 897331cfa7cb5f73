// Whole runs of both journals over a fixed wrapped map, against a stack of
// whole-map snapshots.
module JournalRuns {
  import opened Wrappers
  import opened Snapshots
  import opened Entries
  import Fast = Journaling
  import Slow = SlowJournaling

  // What a caller of JournalDB can do.  The fresh ids that an operation needs
  // inside are part of it: the fast journal uses the first.
  datatype Op<K, V> =
    | Set(k: K, v: V)
    | Delete(k: K)
    | Clear(marker: Checkpoint, next: Checkpoint)
    | Record(id: Checkpoint)
    | Commit(id: Checkpoint, next: Checkpoint)
    | Discard(id: Checkpoint)

  //
  // The simple form: a map and a stack of whole maps
  //

  datatype Maps<K, V> = Maps(view: map<K, V>, marks: seq<(Checkpoint, map<K, V>)>)

  function MarkNames<K, V>(m: Maps<K, V>): seq<Checkpoint> {
    seq(|m.marks|, i requires 0 <= i < |m.marks| => m.marks[i].0)
  }

  // An id that names no checkpoint changes nothing here; runs exclude it.
  function StepMaps<K, V>(m: Maps<K, V>, op: Op<K, V>): Maps<K, V> {
    match op
    case Set(k, v) => m.(view := m.view[k := v])
    case Delete(k) => m.(view := m.view - {k})
    case Clear(_, _) => m.(view := map[])
    case Record(id) => m.(marks := m.marks + [(id, m.view)])
    case Commit(id, _) =>
      if id in MarkNames(m) then m.(marks := m.marks[..Find(MarkNames(m), id)]) else m
    case Discard(id) =>
      if id in MarkNames(m) then
        var i := Find(MarkNames(m), id);
        Maps(m.marks[i].1, m.marks[..i])
      else m
  }

  function RunMaps<K, V>(m: Maps<K, V>, ops: seq<Op<K, V>>): Maps<K, V> {
    if ops == [] then m else StepMaps(RunMaps(m, Front(ops)), Last(ops))
  }

  //
  // The same operations on stacks of levels and on both journals.  Deleting
  // a key that neither the wrapped map nor the journal has raises KeyError
  // and changes nothing.
  //

  function StepStack<K, V>(s: Stack<K, V>, w: map<K, V>, op: Op<K, V>): Stack<K, V> {
    match op
    case Set(k, v) => Snapshots.Write(s, k, Put(v))
    case Delete(k) =>
      if k in w then Snapshots.Write(s, k, DeleteWrapped)
      else if k in s.now.delta && s.now.delta[k].Put? then Snapshots.Write(s, k, RevertToWrapped)
      else s
    case Clear(_, _) => Snapshots.Clear(s)
    case Record(id) => Snapshots.Record(s, id)
    case Commit(id, _) => if id in Ids(s.marks) then Snapshots.Commit(s, id) else s
    case Discard(id) => if id in Ids(s.marks) then Snapshots.Discard(s, id) else s
  }

  function StepFast<K, V>(f: Fast.State<K, V>, w: map<K, V>, op: Op<K, V>): Fast.State<K, V>
    requires EnabledFast(f, op)
  {
    match op
    case Set(k, v) => Fast.DoWrite(f, k, Put(v))
    case Delete(k) =>
      if k in w then Fast.DoWrite(f, k, DeleteWrapped)
      else if k in f.current && f.current[k].Put? then Fast.DoWrite(f, k, RevertToWrapped)
      else f
    case Clear(marker, _) => Fast.DoClear(f, marker)
    case Record(id) => Fast.DoRecord(f, id)
    case Commit(id, _) => Fast.DoCommit(f, id)
    case Discard(id) => Fast.DoDiscard(f, id)
  }

  function StepSlow<K, V>(s: Slow.State<K, V>, w: map<K, V>, op: Op<K, V>): Slow.State<K, V>
    requires EnabledSlow(s, op)
  {
    match op
    case Set(k, v) => Slow.DoWrite(s, k, Put(v))
    case Delete(k) =>
      if k in w then Slow.DoWrite(s, k, DeleteWrapped)
      else if Slow.Lookup(s.sets, k).Some? && Slow.Lookup(s.sets, k).value.Put? then Slow.DoWrite(s, k, RevertToWrapped)
      else s
    case Clear(marker, next) => Slow.DoClear(s, marker, next)
    case Record(id) => Slow.DoRecord(s, id)
    case Commit(id, next) => Slow.DoCommit(s, id, next)
    case Discard(id) => Slow.DoDiscard(s, id)
  }

  // Fresh ids are fresh; only checkpoints above the root are committed or
  // discarded.
  predicate EnabledFast<K, V>(f: Fast.State<K, V>, op: Op<K, V>) {
    && f.entries != []
    && match op
       case Clear(marker, _) => !HasId(f.entries, marker)
       case Record(id) => !HasId(f.entries, id)
       case Commit(id, _) => id in f.stack && Find(f.stack, id) > 0
       case Discard(id) => id in f.stack && Find(f.stack, id) > 0
       case _ => true
  }

  predicate EnabledSlow<K, V>(s: Slow.State<K, V>, op: Op<K, V>) {
    && s.sets != []
    && match op
       case Clear(marker, next) => !HasId(s.sets, marker) && !HasId(s.sets, next) && marker != next
       case Record(id) => !HasId(s.sets, id)
       case Commit(id, next) => id in s.handles && Find(s.handles, id) > 0 && !HasId(s.sets, next)
       case Discard(id) => id in s.handles && Find(s.handles, id) > 0
       case _ => true
  }

  ghost predicate FastRuns<K, V>(f: Fast.State<K, V>, w: map<K, V>, ops: seq<Op<K, V>>)
    decreases |ops|, 0
  {
    ops != [] ==> FastRuns(f, w, Front(ops)) && EnabledFast(RunFast(f, w, Front(ops)), Last(ops))
  }

  ghost function RunFast<K, V>(f: Fast.State<K, V>, w: map<K, V>, ops: seq<Op<K, V>>): Fast.State<K, V>
    requires FastRuns(f, w, ops)
    decreases |ops|, 1
  {
    if ops == [] then f else StepFast(RunFast(f, w, Front(ops)), w, Last(ops))
  }

  ghost predicate SlowRuns<K, V>(s: Slow.State<K, V>, w: map<K, V>, ops: seq<Op<K, V>>)
    decreases |ops|, 0
  {
    ops != [] ==> SlowRuns(s, w, Front(ops)) && EnabledSlow(RunSlow(s, w, Front(ops)), Last(ops))
  }

  ghost function RunSlow<K, V>(s: Slow.State<K, V>, w: map<K, V>, ops: seq<Op<K, V>>): Slow.State<K, V>
    requires SlowRuns(s, w, ops)
    decreases |ops|, 1
  {
    if ops == [] then s else StepSlow(RunSlow(s, w, Front(ops)), w, Last(ops))
  }

  //
  // Levels and whole maps
  //

  ghost function ToMaps<K, V>(s: Stack<K, V>, w: map<K, V>): Maps<K, V> {
    Maps(View(s.now, w), seq(|s.marks|, i requires 0 <= i < |s.marks| => (s.marks[i].id, View(s.marks[i].level, w))))
  }

  lemma ToMapsPrefix<K, V>(s: Stack<K, V>, w: map<K, V>, i: nat)
    requires i <= |s.marks|
    ensures MarkNames(ToMaps(s, w)) == Ids(s.marks)
    ensures ToMaps(Stack(s.now, s.marks[..i]), w).marks == ToMaps(s, w).marks[..i]
  {}

  lemma StackStep<K, V>(s: Stack<K, V>, w: map<K, V>, op: Op<K, V>)
    ensures ToMaps(StepStack(s, w, op), w) == StepMaps(ToMaps(s, w), op)
  {
    ToMapsPrefix(s, w, |s.marks|);
    match op
    case Set(k, v) => ViewWrite(s.now, w, k, Put(v));
    case Delete(k) =>
      if k in w {
        ViewWrite(s.now, w, k, DeleteWrapped);
      } else {
        ViewWrite(s.now, w, k, RevertToWrapped);
        ViewAt(s.now, w, k);
      }
    case Clear(_, _) => assert View(Snapshots.Clear(s).now, w) == map[];
    case Record(id) =>
    case Commit(id, _) =>
      if id in Ids(s.marks) {
        ToMapsPrefix(s, w, Find(Ids(s.marks), id));
      }
    case Discard(id) =>
      if id in Ids(s.marks) {
        ToMapsPrefix(s, w, Find(Ids(s.marks), id));
      }
  }

  //
  // Each journal step is the step on levels
  //

  // A journal writes RevertToWrapped only for keys that w lacks.
  ghost predicate Local<K, V>(changes: map<K, Change<V>>, w: map<K, V>) {
    forall k :: k in changes && changes[k].RevertToWrapped? ==> k !in w
  }

  ghost predicate FastLocal<K, V>(f: Fast.State<K, V>, w: map<K, V>) {
    Local(f.current, w)
  }

  ghost predicate SlowLocal<K, V>(s: Slow.State<K, V>, w: map<K, V>) {
    SetsLocal(s.sets, w)
  }

  ghost predicate SetsLocal<K, V>(sets: seq<Entry<K, V>>, w: map<K, V>) {
    forall e :: e in sets ==> Local(e.changes, w)
  }

  lemma FastStepLocal<K, V>(f: Fast.State<K, V>, w: map<K, V>, op: Op<K, V>)
    requires EnabledFast(f, op) && FastLocal(f, w)
    ensures FastLocal(StepFast(f, w, op), w)
  {
    if op.Discard? {
      Fast.UnwindLocal(f.current, f.entries, op.id);
    }
  }

  lemma FastStep<K, V>(f: Fast.State<K, V>, w: map<K, V>, op: Op<K, V>)
    requires Fast.Valid(f) && EnabledFast(f, op) && FastLocal(f, w)
    ensures Ids(Fast.Meaning(f).marks) == f.stack
    ensures var g := StepFast(f, w, op);
            && Fast.Valid(g) && FastLocal(g, w) && g.entries != []
            && Fast.Meaning(g) == StepStack(Fast.Meaning(f), w, op)
  {
    hide Fast.Valid, Local;
    FastStepLocal(f, w, op);
    Fast.ValidMarkIds(f);
    match op
    case Set(k, v) => Fast.WriteRefines(f, k, Put(v));
    case Delete(k) =>
      Fast.WriteRefines(f, k, DeleteWrapped);
      Fast.WriteRefines(f, k, RevertToWrapped);
    case Clear(marker, _) => Fast.ClearRefines(f, marker);
    case Record(id) => Fast.RecordRefines(f, id);
    case Commit(id, _) => Fast.CommitRefines(f, id);
    case Discard(id) =>
      Fast.DiscardRefines(f, id);
      Fast.ValidUnwindKeepsRoot(f, id);
  }

  lemma {:induction false} MergedLocal<K, V>(sets: seq<Entry<K, V>>, id: Checkpoint, w: map<K, V>)
    requires SetsLocal(sets, w)
    ensures Local(Slow.Merged(sets, id), w)
  {
    if sets != [] {
      MergedLocal(Front(sets), id, w);
    }
  }

  lemma {:induction false} SlowLookup<K, V>(sets: seq<Entry<K, V>>, k: K, w: map<K, V>)
    requires SetsLocal(sets, w)
    ensures var l, c := Slow.LevelOf(sets), Slow.Lookup(sets, k);
            && (k in l.delta <==> c.Some? && !c.value.RevertToWrapped?)
            && (k in l.delta ==> l.delta[k] == c.value)
            && (k !in l.delta && k in w ==> l.cleared == c.Some?)
  {
    if sets != [] {
      SlowLookup(Front(sets), k, w);
    }
  }

  lemma LocalAppended<K, V>(sets: seq<Entry<K, V>>, e: Entry<K, V>, w: map<K, V>)
    requires SetsLocal(sets, w) && Local(e.changes, w)
    ensures SetsLocal(sets + [e], w)
  {
    hide Local;
  }

  lemma LocalFront<K, V>(sets: seq<Entry<K, V>>, n: nat, w: map<K, V>)
    requires SetsLocal(sets, w) && 0 < n <= |sets|
    ensures SetsLocal(Front(sets[..n]), w) && SetsLocal(sets[..n], w) && Local(Last(sets[..n]).changes, w)
  {
    hide Local;
    assert Last(sets[..n]) == sets[n - 1];
  }

  lemma LocalWrite<K, V>(s: Slow.State<K, V>, w: map<K, V>, k: K, c: Change<V>)
    requires SlowLocal(s, w) && s.sets != [] && (c.RevertToWrapped? ==> k !in w)
    ensures SlowLocal(Slow.DoWrite(s, k, c), w)
  {
    LocalFront(s.sets, |s.sets|, w);
    var l := Last(s.sets);
    LocalAppended(Front(s.sets), l.(changes := l.changes[k := c]), w);
  }

  lemma LocalClear<K, V>(s: Slow.State<K, V>, w: map<K, V>, marker: Checkpoint, next: Checkpoint)
    requires SlowLocal(s, w)
    ensures SlowLocal(Slow.DoClear(s, marker, next), w)
  {
    hide SetsLocal;
    var m: Entry<K, V> := Entry(marker, map[], true);
    var n: Entry<K, V> := Entry(next, map[], false);
    LocalAppended(s.sets, m, w);
    LocalAppended(s.sets + [m], n, w);
    assert Slow.DoClear(s, marker, next).sets == s.sets + [m] + [n];
  }

  lemma BelowNonEmpty<K, V>(s: Slow.State<K, V>, id: Checkpoint)
    requires Slow.Valid(s) && id in s.handles && Find(s.handles, id) > 0
    ensures var below := Slow.Below(s.sets, id);
            below != [] && |below| <= |s.sets| && below == s.sets[..|below|]
  {
    Slow.BelowMeaning(s.sets, s.handles, Find(s.handles, id));
    assert s.handles[..Find(s.handles, id)] != [];
  }

  lemma LocalCommit<K, V>(s: Slow.State<K, V>, w: map<K, V>, id: Checkpoint, next: Checkpoint)
    requires Slow.Valid(s) && SlowLocal(s, w) && id in s.handles && Find(s.handles, id) > 0
    ensures SlowLocal(Slow.DoCommit(s, id, next), w) && Slow.DoCommit(s, id, next).sets != []
  {
    hide SetsLocal, Slow.Valid, Slow.Below, Slow.Merged, Slow.ClearSince;
    BelowNonEmpty(s, id);
    MergedLocal(s.sets, id, w);
    var below, data := Slow.Below(s.sets, id), Slow.Merged(s.sets, id);
    LocalFront(s.sets, |below|, w);
    var l := Last(below);
    var cleared := l.(changes := map[], isClear := true);
    LocalAppended(Front(below), cleared, w);
    LocalAppended(Front(below) + [cleared], Entry(next, data, false), w);
    LocalAppended(Front(below), l.(changes := l.changes + data), w);
    assert Front(below) + [cleared] + [Entry(next, data, false)] == Front(below) + [cleared, Entry(next, data, false)];
  }

  lemma SlowStepLocal<K, V>(s: Slow.State<K, V>, w: map<K, V>, op: Op<K, V>)
    requires Slow.Valid(s) && EnabledSlow(s, op) && SlowLocal(s, w)
    ensures SlowLocal(StepSlow(s, w, op), w) && StepSlow(s, w, op).sets != []
  {
    hide SetsLocal, Slow.Valid, Slow.Lookup, Slow.Below;
    match op
    case Set(k, v) => LocalWrite(s, w, k, Put(v));
    case Delete(k) =>
      LocalWrite(s, w, k, if k in w then DeleteWrapped else RevertToWrapped);
    case Clear(marker, next) => LocalClear(s, w, marker, next);
    case Record(id) => LocalAppended(s.sets, Entry(id, map[], false), w);
    case Commit(id, next) => LocalCommit(s, w, id, next);
    case Discard(id) =>
      BelowNonEmpty(s, id);
      LocalFront(s.sets, |Slow.Below(s.sets, id)|, w);
  }

  lemma SlowStep<K, V>(s: Slow.State<K, V>, w: map<K, V>, op: Op<K, V>)
    requires Slow.Valid(s) && EnabledSlow(s, op) && SlowLocal(s, w)
    ensures Ids(Slow.Meaning(s).marks) == s.handles
    ensures var t := StepSlow(s, w, op);
            && Slow.Valid(t)
            && Slow.Meaning(t) == StepStack(Slow.Meaning(s), w, op)
  {
    Slow.MarkIds(s.sets, s.handles);
    match op
    case Set(k, v) => Slow.WriteRefines(s, k, Put(v));
    case Delete(k) =>
      SlowLookup(s.sets, k, w);
      if k in w {
        Slow.WriteRefines(s, k, DeleteWrapped);
      } else {
        Slow.WriteRefines(s, k, RevertToWrapped);
      }
    case Clear(marker, next) => Slow.ClearRefines(s, marker, next);
    case Record(id) => Slow.RecordRefines(s, id);
    case Commit(id, next) => Slow.CommitRefines(s, id, next);
    case Discard(id) => Slow.DiscardRefines(s, id);
  }

  // What JournalDB answers for a key: None is KeyError.
  function Answer<K, V>(c: Option<Change<V>>, w: map<K, V>, k: K): Option<V> {
    match c
    case None => At(w, k)
    case Some(change) => if change.Put? then Some(change.value) else None
  }

  function FastGet<K, V>(f: Fast.State<K, V>, w: map<K, V>, k: K): Option<V> {
    Answer(Fast.Lookup(f, k), w, k)
  }

  function SlowGet<K, V>(s: Slow.State<K, V>, w: map<K, V>, k: K): Option<V> {
    Answer(Slow.Lookup(s.sets, k), w, k)
  }

  lemma FastGetIsView<K, V>(f: Fast.State<K, V>, w: map<K, V>, k: K)
    requires FastLocal(f, w)
    ensures FastGet(f, w, k) == At(View(Fast.Meaning(f).now, w), k)
  {
    ViewAt(Fast.Meaning(f).now, w, k);
  }

  lemma SlowGetIsView<K, V>(s: Slow.State<K, V>, w: map<K, V>, k: K)
    requires SlowLocal(s, w)
    ensures SlowGet(s, w, k) == At(View(Slow.Meaning(s).now, w), k)
  {
    ViewAt(Slow.Meaning(s).now, w, k);
    SlowLookup(s.sets, k, w);
  }

  //
  // Main results
  //

  lemma InitialMeaning<K, V>(root: Checkpoint, w: map<K, V>)
    ensures Fast.Meaning(Fast.Initial<K, V>(root)) == Fresh(root)
    ensures Slow.Meaning(Slow.Initial<K, V>(root)) == Fresh(root)
    ensures ToMaps<K, V>(Fresh(root), w) == Maps(w, [(root, w)])
  {
    var f, s := Fast.Initial<K, V>(root), Slow.Initial<K, V>(root);
    assert Front(f.entries) == [] && Front(f.stack) == [];
    assert Front(s.sets) == [] && Front(s.handles) == [];
    assert Overlay<K, V>(map[], map[]) == map[];
    assert Fast.Marks<K, V>(map[], [], []) == [] && Slow.Marks<K, V>([], []) == [];
    assert View(Fresh<K, V>(root).now, w) == w;
  }

  // After every run the fast journal means what the stack of whole maps is.
  lemma {:induction false} FastIsSnapshots<K, V>(root: Checkpoint, w: map<K, V>, ops: seq<Op<K, V>>)
    requires FastRuns(Fast.Initial(root), w, ops)
    ensures var f := RunFast(Fast.Initial(root), w, ops);
            && Fast.Valid(f) && FastLocal(f, w) && f.entries != []
            && ToMaps(Fast.Meaning(f), w) == RunMaps(Maps(w, [(root, w)]), ops)
  {
    if ops == [] {
      InitialMeaning<K, V>(root, w);
    } else {
      FastIsSnapshots(root, w, Front(ops));
      var f := RunFast(Fast.Initial(root), w, Front(ops));
      FastStep(f, w, Last(ops));
      StackStep(Fast.Meaning(f), w, Last(ops));
    }
  }

  lemma {:induction false} SlowIsSnapshots<K, V>(root: Checkpoint, w: map<K, V>, ops: seq<Op<K, V>>)
    requires SlowRuns(Slow.Initial(root), w, ops)
    ensures var s := RunSlow(Slow.Initial(root), w, ops);
            && Slow.Valid(s) && SlowLocal(s, w) && s.sets != []
            && ToMaps(Slow.Meaning(s), w) == RunMaps(Maps(w, [(root, w)]), ops)
  {
    if ops == [] {
      InitialMeaning<K, V>(root, w);
    } else {
      SlowIsSnapshots(root, w, Front(ops));
      var s := RunSlow(Slow.Initial(root), w, Front(ops));
      SlowStepLocal(s, w, Last(ops));
      SlowStep(s, w, Last(ops));
      StackStep(Slow.Meaning(s), w, Last(ops));
    }
  }

  // Every lookup in every run is the lookup in the stack of whole maps.
  lemma LookupsAreSnapshots<K, V>(root: Checkpoint, w: map<K, V>, ops: seq<Op<K, V>>, k: K)
    requires FastRuns(Fast.Initial(root), w, ops)
    ensures FastGet(RunFast(Fast.Initial(root), w, ops), w, k) == At(RunMaps(Maps(w, [(root, w)]), ops).view, k)
  {
    FastIsSnapshots(root, w, ops);
    FastGetIsView(RunFast(Fast.Initial(root), w, ops), w, k);
  }

  lemma {:induction false} SameMeaning<K, V>(root: Checkpoint, w: map<K, V>, ops: seq<Op<K, V>>)
    requires FastRuns(Fast.Initial(root), w, ops) && SlowRuns(Slow.Initial(root), w, ops)
    ensures Fast.Meaning(RunFast(Fast.Initial(root), w, ops)) == Slow.Meaning(RunSlow(Slow.Initial(root), w, ops))
  {
    if ops == [] {
      InitialMeaning<K, V>(root, w);
    } else {
      SameMeaning(root, w, Front(ops));
      FastIsSnapshots(root, w, Front(ops));
      SlowIsSnapshots(root, w, Front(ops));
      FastStep(RunFast(Fast.Initial(root), w, Front(ops)), w, Last(ops));
      SlowStep(RunSlow(Slow.Initial(root), w, Front(ops)), w, Last(ops));
    }
  }

  // Both journals, driven by the same run, answer every lookup alike and
  // would persist the same sets and deletes.
  lemma FastIsSlow<K, V>(root: Checkpoint, w: map<K, V>, ops: seq<Op<K, V>>, k: K)
    requires FastRuns(Fast.Initial(root), w, ops) && SlowRuns(Slow.Initial(root), w, ops)
    ensures var f, s := RunFast(Fast.Initial(root), w, ops), RunSlow(Slow.Initial(root), w, ops);
            && FastGet(f, w, k) == SlowGet(s, w, k)
            && s.sets != []
            && Effective(f.current) == Effective(Slow.Merged(s.sets, s.sets[0].id))
  {
    SameMeaning(root, w, ops);
    FastIsSnapshots(root, w, ops);
    SlowIsSnapshots(root, w, ops);
    var f, s := RunFast(Fast.Initial(root), w, ops), RunSlow(Slow.Initial(root), w, ops);
    FastGetIsView(f, w, k);
    SlowGetIsView(s, w, k);
    RootChanges(s);
  }

  // What persisting the slow journal writes: the changes from its root on.
  lemma RootChanges<K, V>(s: Slow.State<K, V>)
    requires Slow.Valid(s) && s.sets != []
    ensures Effective(Slow.Merged(s.sets, s.sets[0].id)) == Slow.LevelOf(s.sets).delta
  {
    var root := s.sets[0].id;
    assert HasId(s.sets, root);
    Slow.PopMeaning(s.sets, root);
    Slow.BelowIsPrefix(s.sets, root, 0);
    EffectiveOverlay(Slow.Merged(s.sets, root), map[]);
  }

  // While a run stays above n checkpoints.
  ghost predicate StaysAbove<K, V>(m: Maps<K, V>, ops: seq<Op<K, V>>, n: nat) {
    |RunMaps(m, ops).marks| > n && (ops != [] ==> StaysAbove(m, Front(ops), n))
  }

  lemma {:induction false} MarksStay<K, V>(m: Maps<K, V>, ops: seq<Op<K, V>>, n: nat)
    requires n < |m.marks| && StaysAbove(m, ops, n)
    ensures RunMaps(m, ops).marks[..n + 1] == m.marks[..n + 1]
  {
    if ops != [] {
      MarksStay(m, Front(ops), n);
      var before := RunMaps(m, Front(ops));
      var after := StepMaps(before, Last(ops));
      assert after.marks[..n + 1] == before.marks[..n + 1];
    }
  }

  lemma RunMapsAppend<K, V>(m: Maps<K, V>, ops: seq<Op<K, V>>, op: Op<K, V>)
    ensures RunMaps(m, ops + [op]) == StepMaps(RunMaps(m, ops), op)
  {
    assert Front(ops + [op]) == ops;
  }

  lemma {:induction false} RunMapsSplit<K, V>(m: Maps<K, V>, a: seq<Op<K, V>>, b: seq<Op<K, V>>)
    ensures RunMaps(m, a + b) == RunMaps(RunMaps(m, a), b)
  {
    if b == [] {
      assert a + b == a;
    } else {
      assert a + b == (a + Front(b)) + [Last(b)];
      RunMapsAppend(m, a + Front(b), Last(b));
      RunMapsSplit(m, a, Front(b));
    }
  }

  // On whole maps: discarding c after anything above it is undoing to record(c).
  lemma MapsOfDiscard<K, V>(b: Maps<K, V>, c: Checkpoint, middle: seq<Op<K, V>>)
    requires StaysAbove(StepMaps(b, Record(c)), middle, |b.marks|)
    requires var names := MarkNames(RunMaps(StepMaps(b, Record(c)), middle));
             forall i, j :: 0 <= i < j < |names| ==> names[i] != names[j]
    ensures c in MarkNames(RunMaps(StepMaps(b, Record(c)), middle))
    ensures StepMaps(RunMaps(StepMaps(b, Record(c)), middle), Discard(c)) == b
  {
    var m, n := StepMaps(b, Record(c)), |b.marks|;
    MarksStay(m, middle, n);
    var e := RunMaps(m, middle);
    assert m.marks[..n + 1] == m.marks;
    assert e.marks[n] == e.marks[..n + 1][n] == (c, b.view);
    assert e.marks[..n] == e.marks[..n + 1][..n] == b.marks;
    assert MarkNames(e)[n] == c;
  }

  // The checkpoints of a run have distinct names.
  lemma DistinctNames<K, V>(root: Checkpoint, w: map<K, V>, ops: seq<Op<K, V>>)
    requires FastRuns(Fast.Initial(root), w, ops)
    ensures var names := MarkNames(RunMaps(Maps(w, [(root, w)]), ops));
            && names == RunFast(Fast.Initial(root), w, ops).stack
            && forall i, j :: 0 <= i < j < |names| ==> names[i] != names[j]
  {
    FastIsSnapshots(root, w, ops);
    var g := RunFast(Fast.Initial(root), w, ops);
    Fast.MarkIds(Effective(g.current), g.entries, g.stack);
    ToMapsPrefix(Fast.Meaning(g), w, 0);
    StackDistinct(g.entries, g.stack);
  }

  // discard(c) gives back exactly the maps at record(c), whatever was set,
  // deleted, cleared, recorded, committed or discarded in between, as long as
  // c stayed on the stack.
  lemma DiscardRestores<K, V>(
      root: Checkpoint, w: map<K, V>, before: seq<Op<K, V>>, c: Checkpoint, middle: seq<Op<K, V>>)
    requires FastRuns(Fast.Initial(root), w, before + ([Record(c)] + middle))
    requires var b := RunMaps(Maps(w, [(root, w)]), before);
             StaysAbove(StepMaps(b, Record(c)), middle, |b.marks|)
    ensures FastRuns(Fast.Initial(root), w, before)
    ensures var f := RunFast(Fast.Initial(root), w, before);
            var g := RunFast(Fast.Initial(root), w, before + ([Record(c)] + middle));
            && c in g.stack
            && Fast.Valid(Fast.DoDiscard(g, c))
            && ToMaps(Fast.Meaning(Fast.DoDiscard(g, c)), w) == ToMaps(Fast.Meaning(f), w)
  {
    var start := Maps(w, [(root, w)]);
    FastRunsPrefix(Fast.Initial(root), w, before, [Record(c)] + middle);
    FastIsSnapshots(root, w, before);
    FastIsSnapshots(root, w, before + ([Record(c)] + middle));
    DistinctNames(root, w, before + ([Record(c)] + middle));
    RunRecordThen(start, before, c, middle);
    MapsOfDiscard(RunMaps(start, before), c, middle);
    DiscardMeans(RunFast(Fast.Initial(root), w, before + ([Record(c)] + middle)), w, c);
  }

  lemma RunRecordThen<K, V>(m: Maps<K, V>, before: seq<Op<K, V>>, c: Checkpoint, middle: seq<Op<K, V>>)
    ensures RunMaps(m, before + ([Record(c)] + middle)) == RunMaps(StepMaps(RunMaps(m, before), Record(c)), middle)
  {
    RunMapsSplit(m, before, [Record(c)] + middle);
    RunMapsSplit(RunMaps(m, before), [Record(c)], middle);
    var record: seq<Op<K, V>> := [Record(c)];
    assert Front(record) == [] && Last(record) == Record(c);
  }

  lemma DiscardMeans<K, V>(g: Fast.State<K, V>, w: map<K, V>, c: Checkpoint)
    requires Fast.Valid(g) && c in g.stack
    ensures Fast.Valid(Fast.DoDiscard(g, c))
    ensures ToMaps(Fast.Meaning(Fast.DoDiscard(g, c)), w) == StepMaps(ToMaps(Fast.Meaning(g), w), Discard(c))
  {
    Fast.DiscardRefines(g, c);
    StackStep(Fast.Meaning(g), w, Discard(c));
  }

  lemma {:induction false} FastRunsPrefix<K, V>(f: Fast.State<K, V>, w: map<K, V>, a: seq<Op<K, V>>, b: seq<Op<K, V>>)
    requires FastRuns(f, w, a + b)
    ensures FastRuns(f, w, a)
  {
    if b == [] {
      assert a + b == a;
    } else {
      assert Front(a + b) == a + Front(b);
      FastRunsPrefix(f, w, a, Front(b));
    }
  }
}
