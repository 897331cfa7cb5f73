// veda/db/account.py: AccountDB.  An account's RLP and its hashes are
// abstracted: a storage root is the storage it commits to, a code hash the
// code it is the hash of.
module Accounts {
  import opened Wrappers
  import opened Snapshots
  import opened Entries
  import J = Journaling
  import opened Storage
  import opened AccountStores

  type Address = nat
  type Code = seq<nat>

  datatype Account = Account(nonce: nat, balance: nat, storageRoot: Trie, codeHash: Code)

  const NEW_ACCOUNT := Account(0, 0, map[], [])

  // Accounts and storage slots share one journal of access marks.
  datatype AccessKey = AddressKey(a: Address) | SlotKey(a: Address, slot: Slot)

  datatype Error = UnknownCheckpoint | IrrevertibleWipes | MissingBytecode

  datatype Db = Db(
    codes: J.State<Code, Code>,
    accounts: J.State<Address, Account>,
    accessed: J.State<AccessKey, ()>,
    stores: map<Address, Store>,
    dirty: set<Address>,
    baseAccounts: map<Address, Account>,
    baseCodes: map<Code, Code>)

  //
  // One journal beside the checkpoints cs
  //

  // No RevertToWrapped markers: the tries under the accounts have every key,
  // and codes and access marks are never deleted.
  ghost predicate JournalOk<K, V>(j: J.State<K, V>, cs: seq<Checkpoint>) {
    && J.Valid(j) && j.entries != [] && j.stack != [] && j.stack[1..] == cs
    && |Marks(j)| == |cs| + 1 && j.stack[0] !in cs
    && forall k :: k in j.current ==> !j.current[k].RevertToWrapped?
  }

  function Answer<K, V>(j: J.State<K, V>, k: K, below: Option<V>): Option<V> {
    match J.Lookup(j, k)
    case None => below
    case Some(c) => if c.Put? then Some(c.value) else None
  }

  lemma WriteAnswers<K, V>(j: J.State<K, V>, k: K, c: Change<V>, x: K, below: Option<V>)
    requires j.entries != []
    ensures Answer(J.DoWrite(j, k, c), x, below) ==
              if x != k then Answer(j, x, below) else if c.Put? then Some(c.value) else None
  {
    assert Front(J.DoWrite(j, k, c).entries) == Front(j.entries);
  }

  lemma AnswerIsLook<K, V>(j: J.State<K, V>, cs: seq<Checkpoint>, k: K, below: Option<V>)
    requires JournalOk(j, cs)
    ensures Answer(j, k, below) == Look(Now(j), k, below)
  {}

  lemma JournalWrite<K, V>(j: J.State<K, V>, cs: seq<Checkpoint>, k: K, c: Change<V>)
    requires JournalOk(j, cs) && !c.RevertToWrapped?
    ensures JournalOk(J.DoWrite(j, k, c), cs) && Marks(J.DoWrite(j, k, c)) == Marks(j)
    ensures Now(J.DoWrite(j, k, c)) == Level(Overlay(Now(j).delta, map[k := c]), Now(j).cleared)
    ensures forall x, below :: Answer(J.DoWrite(j, k, c), x, below) ==
              if x != k then Answer(j, x, below) else if c.Put? then Some(c.value) else None
  {
    J.WriteRefines(j, k, c);
    var t := J.DoWrite(j, k, c);
    ClearedNow(j);
    ClearedNow(t);
  }

  lemma JournalRecord<K, V>(j: J.State<K, V>, cs: seq<Checkpoint>, id: Checkpoint)
    requires JournalOk(j, cs) && !HasId(j.entries, id)
    ensures JournalOk(J.DoRecord(j, id), cs + [id])
    ensures Marks(J.DoRecord(j, id)) == Marks(j) + [Mark(id, Now(j))]
    ensures Now(J.DoRecord(j, id)) == Now(j) && id !in cs
  {
    J.RecordRefines(j, id);
    InOrderIds(j.entries, j.stack);
    assert HasId(j.entries, j.stack[0]);
    assert J.DoRecord(j, id).stack[1..] == j.stack[1..] + [id];
    assert forall i :: 0 <= i < |cs| ==> cs[i] == j.stack[i + 1];
  }

  lemma JournalPosition<K, V>(j: J.State<K, V>, cs: seq<Checkpoint>, i: nat)
    requires JournalOk(j, cs) && i < |cs|
    ensures cs[i] in j.stack && Find(j.stack, cs[i]) == i + 1
    ensures Ids(Marks(j)) == j.stack
  {
    assert j.stack[i + 1] == cs[i];
    StackDistinct(j.entries, j.stack);
    J.MarkIds(Effective(j.current), j.entries, j.stack);
  }

  lemma JournalDiscard<K, V>(j: J.State<K, V>, cs: seq<Checkpoint>, i: nat)
    requires JournalOk(j, cs) && i < |cs|
    ensures cs[i] in j.stack
    ensures JournalOk(J.DoDiscard(j, cs[i]), cs[..i])
    ensures Now(J.DoDiscard(j, cs[i])) == Marks(j)[i + 1].level
    ensures Marks(J.DoDiscard(j, cs[i])) == Marks(j)[..i + 1]
  {
    JournalPosition(j, cs, i);
    J.DiscardRefines(j, cs[i]);
    J.UnwindLocal(j.current, j.entries, cs[i]);
    J.UnwindKeepsRoot(j.current, j.entries, j.stack, i + 1);
    assert j.stack[..i + 1][1..] == j.stack[1..][..i];
  }

  lemma JournalCommit<K, V>(j: J.State<K, V>, cs: seq<Checkpoint>, i: nat)
    requires JournalOk(j, cs) && i < |cs|
    ensures cs[i] in j.stack
    ensures JournalOk(J.DoCommit(j, cs[i]), cs[..i])
    ensures Now(J.DoCommit(j, cs[i])) == Now(j)
    ensures Marks(J.DoCommit(j, cs[i])) == Marks(j)[..i + 1]
  {
    JournalPosition(j, cs, i);
    J.CommitRefines(j, cs[i]);
    assert j.stack[..i + 1][1..] == j.stack[1..][..i];
  }

  //
  // What a caller sees, now and at the i-th checkpoint
  //

  // None is an account that does not exist.
  function AccountNow(db: Db, a: Address): Option<Account> {
    Answer(db.accounts, a, At(db.baseAccounts, a))
  }

  function OrNew(a: Option<Account>): Account {
    if a.Some? then a.value else NEW_ACCOUNT
  }

  function CodeNow(db: Db, hash: Code): Option<Code> {
    Answer(db.codes, hash, At(db.baseCodes, hash))
  }

  function WarmNow(db: Db, key: AccessKey): bool {
    Answer(db.accessed, key, None).Some?
  }

  // An account's storage is its store, once loaded, and its root before.
  function SlotNow(db: Db, a: Address, k: Slot): nat {
    if a in db.stores then Current(db.stores[a], k)
    else TrieGet(OrNew(AccountNow(db, a)).storageRoot, k)
  }

  //
  // The parts of the state that account fields and slots depend on, with the
  // journals replaced by what they mean
  //

  datatype Glance = Glance(
    cs: seq<Checkpoint>,
    now: Level<Address, Account>,
    marks: seq<Level<Address, Account>>,
    stores: map<Address, Summary>,
    dirty: set<Address>,
    base: map<Address, Account>)

  function AccountIn(g: Glance, l: Level<Address, Account>, a: Address): Option<Account> {
    Look(l, a, At(g.base, a))
  }

  function RootIn(g: Glance, l: Level<Address, Account>, a: Address): Trie {
    OrNew(AccountIn(g, l, a)).storageRoot
  }

  function SlotIn(g: Glance, a: Address, k: Slot): nat {
    if a in g.stores then ValueNow(g.stores[a], k) else TrieGet(RootIn(g, g.now, a), k)
  }

  // The storage root of an account whose store is not loaded is the same now
  // and at every checkpoint.
  ghost predicate GlanceOk(g: Glance) {
    && |g.marks| == |g.cs| && AllDistinct(g.cs) && g.dirty <= g.stores.Keys
    && (forall a :: a in g.stores ==> Fits(g.stores[a], g.cs, a in g.dirty))
    && (forall a, i :: a !in g.stores && 0 <= i < |g.marks| ==> RootIn(g, g.marks[i], a) == RootIn(g, g.now, a))
  }

  ghost function SlotAtIn(g: Glance, i: nat, a: Address, k: Slot): nat
    requires GlanceOk(g) && i < |g.cs|
  {
    if a in g.stores then ValueAt(g.stores[a], |g.cs|, i, k) else TrieGet(RootIn(g, g.marks[i], a), k)
  }

  // The steps, on glances.
  function LoadStep(g: Glance, a: Address, root: Checkpoint): Glance {
    if a in g.stores then g
    else
      var t := RootIn(g, g.now, a);
      g.(stores := g.stores[a := Untouched(t, root)])
  }

  function TouchStep(g: Glance, a: Address, level: Level<Slot, nat>, base: Trie): Glance
    requires a in g.stores
  {
    g.(stores := g.stores[a := g.stores[a].(level := level, base := base)], dirty := g.dirty + {a})
  }

  function AccountStep(g: Glance, a: Address, c: Change<Account>): Glance {
    g.(now := Level(Overlay(g.now.delta, map[a := c]), g.now.cleared))
  }

  function RecordStep(g: Glance, id: Checkpoint): Glance {
    g.(cs := g.cs + [id], marks := g.marks + [g.now],
       stores := map a | a in g.stores ::
         if a in g.dirty then
           g.stores[a].(frames := g.stores[a].frames + [Frame(id, g.stores[a].level, g.stores[a].base)])
         else g.stores[a])
  }

  // A store as it is loaded.
  function Untouched(t: Trie, root: Checkpoint): Summary {
    Summary([], Level(map[], false), Level(map[], false), t, t, root)
  }

  lemma UntouchedFits(t: Trie, root: Checkpoint, cs: seq<Checkpoint>)
    requires root !in cs
    ensures Fits(Untouched(t, root), cs, false)
  {}

  lemma UntouchedValues(t: Trie, root: Checkpoint, n: nat, i: nat, k: Slot)
    requires i < n
    ensures ValueNow(Untouched(t, root), k) == ValueAt(Untouched(t, root), n, i, k) == TrieGet(t, k)
  {}

  lemma UntouchedValue(t: Trie, root: Checkpoint, k: Slot)
    ensures ValueNow(Untouched(t, root), k) == TrieGet(t, k)
  {
    UntouchedValues(t, root, 1, 0, k);
  }

  lemma LoadOk(g: Glance, a: Address, root: Checkpoint)
    requires GlanceOk(g) && root !in g.cs
    ensures GlanceOk(LoadStep(g, a, root))
  {
    hide Fits, Look;
    UntouchedFits(RootIn(g, g.now, a), root, g.cs);
  }

  lemma LoadKeeps(g: Glance, a: Address, root: Checkpoint)
    requires GlanceOk(g) && root !in g.cs
    ensures var t := LoadStep(g, a, root);
            && GlanceOk(t)
            && (forall b, k :: SlotIn(t, b, k) == SlotIn(g, b, k))
            && (forall i, b, k :: 0 <= i < |g.cs| ==> SlotAtIn(t, i, b, k) == SlotAtIn(g, i, b, k))
  {
    LoadOk(g, a, root);
    var t := LoadStep(g, a, root);
    if a !in g.stores {
      forall b, k ensures SlotIn(t, b, k) == SlotIn(g, b, k) {
        hide Fits, ValueNow, Look, GlanceOk;
        UntouchedValue(RootIn(g, g.now, a), root, k);
      }
      forall i: nat, b, k | i < |g.cs| ensures SlotAtIn(t, i, b, k) == SlotAtIn(g, i, b, k) {
        LoadKeepsAt(g, a, root, i, b, k);
      }
    }
  }

  lemma LoadKeepsAt(g: Glance, a: Address, root: Checkpoint, i: nat, b: Address, k: Slot)
    requires GlanceOk(g) && GlanceOk(LoadStep(g, a, root)) && a !in g.stores && i < |g.cs|
    ensures SlotAtIn(LoadStep(g, a, root), i, b, k) == SlotAtIn(g, i, b, k)
  {
    hide Fits, ValueAt, Look;
    UntouchedValues(RootIn(g, g.now, a), root, |g.cs|, i, k);
    if b != a {
      assert (b in LoadStep(g, a, root).stores) == (b in g.stores);
    }
  }

  lemma TouchKeeps(g: Glance, a: Address, level: Level<Slot, nat>, base: Trie)
    requires GlanceOk(g) && a in g.stores
    ensures var t := TouchStep(g, a, level, base);
            && GlanceOk(t)
            && (forall b, k :: b != a ==> SlotIn(t, b, k) == SlotIn(g, b, k))
            && (forall i, b, k :: 0 <= i < |g.cs| ==> SlotAtIn(t, i, b, k) == SlotAtIn(g, i, b, k))
  {
    var t := TouchStep(g, a, level, base);
    TouchFits(g.stores[a], t.stores[a], g.cs, a in g.dirty);
  }

  // An account can be written as long as its storage root stays or its store
  // is loaded.
  lemma AccountWrite(g: Glance, a: Address, c: Change<Account>, b: Address)
    requires !c.RevertToWrapped?
    ensures var t := AccountStep(g, a, c);
            AccountIn(t, t.now, b) == if b != a then AccountIn(g, g.now, b) else if c.Put? then Some(c.value) else None
  {}

  lemma AccountKeeps(g: Glance, a: Address, c: Change<Account>)
    requires GlanceOk(g) && !c.RevertToWrapped?
    requires a !in g.stores ==> c.Put? && c.value.storageRoot == RootIn(g, g.now, a)
    ensures var t := AccountStep(g, a, c);
            && GlanceOk(t)
            && (forall b, k :: SlotIn(t, b, k) == SlotIn(g, b, k))
            && (forall i, b, k :: 0 <= i < |g.cs| ==> SlotAtIn(t, i, b, k) == SlotAtIn(g, i, b, k))
  {
    hide Fits, ValueAt, ValueNow;
    var t := AccountStep(g, a, c);
    forall b | b !in g.stores ensures RootIn(t, t.now, b) == RootIn(g, g.now, b) {
      AccountWrite(g, a, c, b);
    }
    assert forall i, b :: 0 <= i < |g.marks| ==> RootIn(t, g.marks[i], b) == RootIn(g, g.marks[i], b);
  }

  lemma RecordOk(g: Glance, id: Checkpoint)
    requires GlanceOk(g) && id !in g.cs && (forall a :: a in g.stores ==> g.stores[a].root != id)
    ensures GlanceOk(RecordStep(g, id))
  {
    var t := RecordStep(g, id);
    forall a | a in t.stores ensures Fits(t.stores[a], t.cs, a in t.dirty) {
      assert Fits(g.stores[a], g.cs, a in g.dirty);
      if a in g.dirty {
        RecordFits(g.stores[a], g.cs, id, Frame(id, g.stores[a].level, g.stores[a].base));
      }
    }
  }

  // Recording keeps every value, and remembers the present ones.
  lemma RecordKeeps(g: Glance, id: Checkpoint, a: Address, k: Slot)
    requires GlanceOk(g) && GlanceOk(RecordStep(g, id))
    ensures SlotIn(RecordStep(g, id), a, k) == SlotAtIn(RecordStep(g, id), |g.cs|, a, k) == SlotIn(g, a, k)
    ensures forall i :: 0 <= i < |g.cs| ==> SlotAtIn(RecordStep(g, id), i, a, k) == SlotAtIn(g, i, a, k)
  {
    var t := RecordStep(g, id);
    if a in g.stores {
      assert Fits(g.stores[a], g.cs, a in g.dirty) && Fits(t.stores[a], t.cs, a in t.dirty);
      if a in g.dirty {
        RecordFits(g.stores[a], g.cs, id, Frame(id, g.stores[a].level, g.stores[a].base));
      }
    }
  }

  // t is g after a discard of g.cs[j] (or a commit, when restored is false).
  ghost predicate LowerStep(g: Glance, t: Glance, j: nat, restored: bool)
    requires GlanceOk(g) && j < |g.cs|
  {
    && t.cs == g.cs[..j] && t.marks == g.marks[..j] && t.base == g.base && t.dirty == g.dirty
    && t.now == (if restored then g.marks[j] else g.now)
    && t.stores.Keys == g.stores.Keys
    && (forall a :: a in g.stores && a !in g.dirty ==> t.stores[a] == g.stores[a])
    && (forall a :: a in g.dirty ==> Fits(g.stores[a], g.cs, true) && Lowered(g.stores[a], t.stores[a], g.cs, j, restored))
  }

  lemma LowerOk(g: Glance, t: Glance, j: nat, restored: bool)
    requires GlanceOk(g) && j < |g.cs| && LowerStep(g, t, j, restored)
    ensures GlanceOk(t)
  {
    forall a | a in t.stores ensures Fits(t.stores[a], t.cs, a in t.dirty) {
      assert Fits(g.stores[a], g.cs, a in g.dirty);
      if a in g.dirty {
        LowerFits(g.stores[a], t.stores[a], g.cs, j);
      }
    }
  }

  lemma LowerKeeps(g: Glance, t: Glance, j: nat, restored: bool, a: Address, k: Slot)
    requires GlanceOk(g) && j < |g.cs| && LowerStep(g, t, j, restored) && GlanceOk(t)
    ensures SlotIn(t, a, k) == if restored then SlotAtIn(g, j, a, k) else SlotIn(g, a, k)
    ensures forall i :: 0 <= i < j ==> SlotAtIn(t, i, a, k) == SlotAtIn(g, i, a, k)
  {
    if a in g.stores {
      assert Fits(g.stores[a], g.cs, a in g.dirty) && Fits(t.stores[a], t.cs, a in t.dirty);
      if a in g.dirty {
        LowerFits(g.stores[a], t.stores[a], g.cs, j);
      }
    }
  }

  //
  // What each operation does
  //

  // Ids that a store's journals start with.
  datatype Roots = Roots(locked: Checkpoint, journal: Checkpoint, count: Checkpoint)

  function DoLoad(db: Db, a: Address, r: Roots): Db {
    if a in db.stores then db
    else db.(stores := db.stores[a := Loaded(OrNew(AccountNow(db, a)).storageRoot, r.locked, r.journal, r.count)])
  }

  predicate Writable(db: Db) {
    && db.codes.entries != [] && db.accounts.entries != [] && db.accessed.entries != []
    && forall a :: a in db.stores ==> Usable(db.stores[a])
  }

  function DoSetStorage(db: Db, a: Address, k: Slot, v: nat, r: Roots): Db
    requires Writable(db)
  {
    var l := DoLoad(db, a, r);
    l.(stores := l.stores[a := DoSet(l.stores[a], k, v)], dirty := l.dirty + {a})
  }

  // set_balance, set_nonce, set_code, delete_code and touch_account copy the
  // account, keeping its storage root.
  function DoSetAccount(db: Db, a: Address, account: Account): Db
    requires Writable(db)
  {
    db.(accounts := J.DoWrite(db.accounts, a, Put(account)))
  }

  function DoStoreCode(db: Db, code: Code): Db
    requires Writable(db)
  {
    db.(codes := J.DoWrite(db.codes, code, Put(code)))
  }

  function DoMarkWarm(db: Db, key: AccessKey): Db
    requires Writable(db)
  {
    if WarmNow(db, key) then db else db.(accessed := J.DoWrite(db.accessed, key, Put(())))
  }

  function DoWipeStorage(db: Db, a: Address, r: Roots, marker: Checkpoint): Db
    requires Writable(db)
  {
    var l := DoLoad(db, a, r);
    l.(stores := l.stores[a := DoWipe(l.stores[a], marker)], dirty := l.dirty + {a})
  }

  // The store is loaded with the original root before the account goes.
  function DoDeleteAccount(db: Db, a: Address, r: Roots, marker: Checkpoint): Db
    requires Writable(db)
  {
    var w := DoWipeStorage(db, a, r, marker);
    w.(accounts := J.DoWrite(w.accounts, a, DeleteWrapped))
  }

  // The root goes first; a store that is not loaded would be loaded from it.
  function DoDeleteStorage(db: Db, a: Address, r: Roots, marker: Checkpoint): Db
    requires Writable(db)
  {
    DoWipeStorage(DoSetAccount(db, a, OrNew(AccountNow(db, a)).(storageRoot := map[])), a, r, marker)
  }

  function DoRecord(db: Db, id: Checkpoint): Db {
    db.(codes := J.DoRecord(db.codes, id), accounts := J.DoRecord(db.accounts, id),
        accessed := J.DoRecord(db.accessed, id),
        stores := map a | a in db.stores :: if a in db.dirty then Storage.DoRecord(db.stores[a], id) else db.stores[a])
  }

  predicate Undoable(db: Db, id: Checkpoint) {
    && id in db.codes.stack && id in db.accounts.stack && id in db.accessed.stack
    && forall a :: a in db.stores && a in db.dirty && id in db.stores[a].journal.stack ==> id in db.stores[a].clearCount.stack
  }

  predicate DiscardSucceeds(db: Db, id: Checkpoint, root: Checkpoint)
    requires Undoable(db, id)
  {
    forall a :: a in db.stores && a in db.dirty ==> Storage.DoDiscard(db.stores[a], id, root).Ok?
  }

  function DoDiscard(db: Db, id: Checkpoint, root: Checkpoint): Db
    requires Undoable(db, id) && DiscardSucceeds(db, id, root)
  {
    db.(codes := J.DoDiscard(db.codes, id), accounts := J.DoDiscard(db.accounts, id),
        accessed := J.DoDiscard(db.accessed, id),
        stores := map a | a in db.stores ::
          if a in db.dirty then Storage.DoDiscard(db.stores[a], id, root).value else db.stores[a])
  }

  function DoCommit(db: Db, id: Checkpoint): Db
    requires Undoable(db, id)
  {
    db.(codes := J.DoCommit(db.codes, id), accounts := J.DoCommit(db.accounts, id),
        accessed := J.DoCommit(db.accessed, id),
        stores := map a | a in db.stores ::
          if a in db.dirty then Storage.DoCommit(db.stores[a], id) else db.stores[a])
  }

  //
  // The account database against its glance
  //

  ghost predicate JournalsOk(db: Db, cs: seq<Checkpoint>) {
    JournalOk(db.codes, cs) && JournalOk(db.accounts, cs) && JournalOk(db.accessed, cs)
  }

  ghost predicate StoresSound(db: Db) {
    forall a :: a in db.stores ==> Sound(db.stores[a]) && db.stores[a].journal.stack != []
  }

  ghost function GlanceOf(db: Db, cs: seq<Checkpoint>): Glance
    requires JournalsOk(db, cs) && StoresSound(db)
  {
    Glance(cs, Now(db.accounts),
           seq(|cs|, i requires 0 <= i < |cs| => Marks(db.accounts)[i + 1].level),
           map a | a in db.stores :: Summarize(db.stores[a]),
           db.dirty, db.baseAccounts)
  }

  ghost predicate DbOk(db: Db, cs: seq<Checkpoint>) {
    JournalsOk(db, cs) && StoresSound(db) && GlanceOk(GlanceOf(db, cs))
  }

  // What a caller can see of one account, slot, code and access mark.
  datatype Seen = Seen(account: Option<Account>, slot: nat, code: Option<Code>, warm: bool)

  datatype Probe = Probe(a: Address, k: Slot, hash: Code, key: AccessKey)

  function SeenNow(db: Db, p: Probe): Seen {
    Seen(AccountNow(db, p.a), SlotNow(db, p.a, p.k), CodeNow(db, p.hash), WarmNow(db, p.key))
  }

  ghost function SeenAt(db: Db, cs: seq<Checkpoint>, i: nat, p: Probe): Seen
    requires DbOk(db, cs) && i < |cs|
  {
    var g := GlanceOf(db, cs);
    Seen(AccountIn(g, g.marks[i], p.a), SlotAtIn(g, i, p.a, p.k),
         Look(Marks(db.codes)[i + 1].level, p.hash, At(db.baseCodes, p.hash)),
         Look(Marks(db.accessed)[i + 1].level, p.key, None).Some?)
  }

  lemma SeenNowIs(db: Db, cs: seq<Checkpoint>, p: Probe)
    requires DbOk(db, cs)
    ensures var g := GlanceOf(db, cs);
            SeenNow(db, p) == Seen(AccountIn(g, g.now, p.a), SlotIn(g, p.a, p.k),
                                   Look(Now(db.codes), p.hash, At(db.baseCodes, p.hash)),
                                   Look(Now(db.accessed), p.key, None).Some?)
  {
    AnswerIsLook(db.accounts, cs, p.a, At(db.baseAccounts, p.a));
    AnswerIsLook(db.codes, cs, p.hash, At(db.baseCodes, p.hash));
    AnswerIsLook(db.accessed, cs, p.key, None);
    if p.a in db.stores {
      CurrentIsValueNow(db.stores[p.a], p.k);
    }
  }

  lemma OkIsWritable(db: Db, cs: seq<Checkpoint>)
    requires DbOk(db, cs)
    ensures Writable(db)
  {
    forall a | a in db.stores ensures Usable(db.stores[a]) {
      assert Sound(db.stores[a]);
    }
  }

  // Between checkpoints nothing that a checkpoint remembers changes.
  ghost predicate Keeps(db: Db, t: Db, cs: seq<Checkpoint>)
    requires DbOk(db, cs)
  {
    DbOk(t, cs) && forall i, p :: 0 <= i < |cs| ==> SeenAt(t, cs, i, p) == SeenAt(db, cs, i, p)
  }

  lemma KeepsFrom(db: Db, t: Db, cs: seq<Checkpoint>)
    requires DbOk(db, cs) && JournalsOk(t, cs) && StoresSound(t)
    requires Marks(t.codes) == Marks(db.codes) && Marks(t.accounts) == Marks(db.accounts) && Marks(t.accessed) == Marks(db.accessed)
    requires t.baseCodes == db.baseCodes && t.baseAccounts == db.baseAccounts
    requires GlanceOk(GlanceOf(t, cs))
    requires forall i, b, k :: 0 <= i < |cs| ==> SlotAtIn(GlanceOf(t, cs), i, b, k) == SlotAtIn(GlanceOf(db, cs), i, b, k)
    ensures Keeps(db, t, cs)
  {
    hide J.Valid, J.AnyClear, J.Marks, J.Meaning, Fits, Sound, J.Lookup, GlanceOk;
    assert GlanceOf(t, cs).marks == GlanceOf(db, cs).marks;
  }

  // A change of stores alone.
  lemma StoresChange(db: Db, t: Db, cs: seq<Checkpoint>, stores: map<Address, Summary>)
    requires DbOk(db, cs) && t == db.(stores := t.stores, dirty := t.dirty) && StoresSound(t)
    requires stores.Keys == t.stores.Keys && forall a :: a in t.stores ==> Summarize(t.stores[a]) == stores[a]
    ensures JournalsOk(t, cs) && GlanceOf(t, cs) == GlanceOf(db, cs).(stores := stores, dirty := t.dirty)
  {
    hide J.Valid, J.AnyClear, J.Marks, Sound, GlanceOk, J.Lookup;
    assert GlanceOf(t, cs).stores == stores;
  }

  lemma StoresKeep(db: Db, t: Db, cs: seq<Checkpoint>)
    requires DbOk(db, cs) && t == db.(stores := t.stores, dirty := t.dirty) && StoresSound(t) && JournalsOk(t, cs)
    requires GlanceOk(GlanceOf(t, cs))
    requires forall i, b, k :: 0 <= i < |cs| ==> SlotAtIn(GlanceOf(t, cs), i, b, k) == SlotAtIn(GlanceOf(db, cs), i, b, k)
    ensures Keeps(db, t, cs)
  {
    KeepsFrom(db, t, cs);
  }

  lemma LoadIs(db: Db, cs: seq<Checkpoint>, a: Address, r: Roots)
    requires DbOk(db, cs) && r.journal !in cs
    ensures JournalsOk(DoLoad(db, a, r), cs) && StoresSound(DoLoad(db, a, r))
    ensures GlanceOf(DoLoad(db, a, r), cs) == LoadStep(GlanceOf(db, cs), a, r.journal)
    ensures Keeps(db, DoLoad(db, a, r), cs)
  {
    hide J.Valid, J.AnyClear, J.Marks, J.Meaning, Sound, Fits, J.Lookup, GlanceOk;
    LoadSummaries(db, cs, a, r);
    LoadKeeps(GlanceOf(db, cs), a, r.journal);
    StoresKeep(db, DoLoad(db, a, r), cs);
  }

  lemma LoadSummaries(db: Db, cs: seq<Checkpoint>, a: Address, r: Roots)
    requires DbOk(db, cs) && r.journal !in cs
    ensures JournalsOk(DoLoad(db, a, r), cs) && StoresSound(DoLoad(db, a, r))
    ensures GlanceOf(DoLoad(db, a, r), cs) == LoadStep(GlanceOf(db, cs), a, r.journal)
  {
    hide J.Valid, J.AnyClear, J.Marks, J.Meaning, Sound, Fits, J.Lookup, GlanceOk, Loaded, Summarize, Untouched, JournalOk;
    var g := GlanceOf(db, cs);
    LoadedRoot(db, cs, a);
    UntouchedIs(RootIn(g, g.now, a), r);
    StoresChange(db, DoLoad(db, a, r), cs, LoadStep(g, a, r.journal).stores);
  }

  lemma LoadedRoot(db: Db, cs: seq<Checkpoint>, a: Address)
    requires DbOk(db, cs)
    ensures var g := GlanceOf(db, cs); OrNew(AccountNow(db, a)).storageRoot == RootIn(g, g.now, a)
  {
    hide J.Valid, J.Marks, GlanceOk, Sound, Summarize;
    AnswerIsLook(db.accounts, cs, a, At(db.baseAccounts, a));
  }

  lemma UntouchedIs(t: Trie, r: Roots)
    ensures var st := Loaded(t, r.locked, r.journal, r.count);
            Sound(st) && st.journal.stack != [] && Summarize(st) == Untouched(t, r.journal)
  {
    hide J.Valid, J.Marks, Sound, J.AnyClear;
    LoadedSound(t, r.locked, r.journal, r.count);
  }

  // Replacing the store of a by one that differs in the present only.
  lemma TouchIs(db: Db, t: Db, cs: seq<Checkpoint>, a: Address, st: Store)
    requires DbOk(db, cs) && a in db.stores && Sound(st) && st.journal.stack != []
    requires Summarize(st) == Summarize(db.stores[a]).(level := Now(st.journal), base := Base(st))
    requires t == db.(stores := db.stores[a := st], dirty := db.dirty + {a})
    ensures Keeps(db, t, cs)
  {
    hide J.Valid, J.AnyClear, J.Marks, J.Meaning, Fits, J.Lookup, Sound, GlanceOk, Frames, JournalOk;
    var g := GlanceOf(db, cs);
    StoresChange(db, t, cs, TouchStep(g, a, Now(st.journal), Base(st)).stores);
    TouchKeeps(g, a, Now(st.journal), Base(st));
    StoresKeep(db, t, cs);
  }

  lemma KeepsTwice(db: Db, t: Db, u: Db, cs: seq<Checkpoint>)
    requires DbOk(db, cs) && Keeps(db, t, cs) && Keeps(t, u, cs)
    ensures Keeps(db, u, cs)
  {}

  lemma SetSummary(st: Store, k: Slot, v: nat)
    requires Sound(st) && st.journal.stack != []
    ensures var t := DoSet(st, k, v);
            && Sound(t) && t.journal.stack != []
            && Summarize(t) == Summarize(st).(level := Now(t.journal), base := Base(t))
  {
    hide J.AnyClear, J.Marks, J.Meaning, J.Lookup, Sound, Frames;
    SoundIsUsable(st);
    SetKeeps(st, k, v);
    SetShape(st, k, v);
  }

  lemma WipeSummary(st: Store, marker: Checkpoint)
    requires Sound(st) && st.journal.stack != [] && !HasId(st.journal.entries, marker)
    ensures var t := DoWipe(st, marker);
            && Sound(t) && t.journal.stack != []
            && Summarize(t) == Summarize(st).(level := Now(t.journal), base := Base(t))
  {
    hide J.AnyClear, J.Marks, J.Meaning, J.Lookup, Sound, Frames;
    SoundIsUsable(st);
    WipeKeeps(st, marker);
  }

  lemma SoundIsUsable(st: Store)
    requires Sound(st)
    ensures Usable(st)
  {}

  // set_storage sets one slot, loading the store first if need be.
  lemma SetStorageKeeps(db: Db, cs: seq<Checkpoint>, a: Address, k: Slot, v: nat, r: Roots)
    requires DbOk(db, cs) && r.journal !in cs
    ensures Writable(db) && Keeps(db, DoSetStorage(db, a, k, v, r), cs)
  {
    hide J.Valid, J.AnyClear, J.Marks, J.Meaning, Fits, J.Lookup, Sound, GlanceOk, Summarize, JournalOk, SeenAt;
    OkIsWritable(db, cs);
    LoadIs(db, cs, a, r);
    var l := DoLoad(db, a, r);
    SoundIsUsable(l.stores[a]);
    SetSummary(l.stores[a], k, v);
    TouchIs(l, DoSetStorage(db, a, k, v, r), cs, a, DoSet(l.stores[a], k, v));
    KeepsTwice(db, l, DoSetStorage(db, a, k, v, r), cs);
  }

  lemma LoadKeepsSlots(db: Db, cs: seq<Checkpoint>, a: Address, r: Roots, b: Address, j: Slot)
    requires DbOk(db, cs) && r.journal !in cs
    ensures SlotNow(DoLoad(db, a, r), b, j) == SlotNow(db, b, j)
  {
    hide J.Valid, J.Marks, J.AnyClear, J.Lookup, J.Meaning, Sound, GlanceOk, Fits, Summarize, JournalOk, SlotNow, SlotIn, SeenAt;
    LoadIs(db, cs, a, r);
    LoadKeeps(GlanceOf(db, cs), a, r.journal);
    SeenNowIs(db, cs, Probe(b, j, [], AddressKey(b)));
    SeenNowIs(DoLoad(db, a, r), cs, Probe(b, j, [], AddressKey(b)));
  }

  lemma SetStorageSets(db: Db, cs: seq<Checkpoint>, a: Address, k: Slot, v: nat, r: Roots, b: Address, j: Slot)
    requires DbOk(db, cs) && r.journal !in cs && Writable(db)
    ensures SlotNow(DoSetStorage(db, a, k, v, r), b, j) == if b == a && j == k then v else SlotNow(db, b, j)
  {
    hide DbOk, Current, DoSet, Usable, J.Lookup;
    LoadWritable(db, cs, a, r);
    LoadKeepsSlots(db, cs, a, r, b, j);
    SetCurrent(DoLoad(db, a, r).stores[a], k, v, j);
  }

  lemma LoadWritable(db: Db, cs: seq<Checkpoint>, a: Address, r: Roots)
    requires DbOk(db, cs) && r.journal !in cs
    ensures Writable(DoLoad(db, a, r))
  {
    hide J.Valid, J.Marks, J.AnyClear, J.Lookup, J.Meaning, Sound, GlanceOk, Fits, Summarize, JournalOk, SeenAt;
    LoadIs(db, cs, a, r);
    OkIsWritable(DoLoad(db, a, r), cs);
  }

  // Wiping storage blanks every slot of the account and no other.
  lemma WipeStorageKeeps(db: Db, cs: seq<Checkpoint>, a: Address, r: Roots, marker: Checkpoint)
    requires DbOk(db, cs) && r.journal !in cs && r.journal != marker
    requires a in db.stores ==> !HasId(db.stores[a].journal.entries, marker)
    ensures Writable(db) && Keeps(db, DoWipeStorage(db, a, r, marker), cs)
  {
    hide J.Valid, J.AnyClear, J.Marks, J.Meaning, Fits, J.Lookup, Sound, GlanceOk, Summarize, JournalOk, SeenAt;
    OkIsWritable(db, cs);
    LoadIs(db, cs, a, r);
    var l := DoLoad(db, a, r);
    assert !HasId(l.stores[a].journal.entries, marker);
    SoundIsUsable(l.stores[a]);
    WipeSummary(l.stores[a], marker);
    TouchIs(l, DoWipeStorage(db, a, r, marker), cs, a, DoWipe(l.stores[a], marker));
    KeepsTwice(db, l, DoWipeStorage(db, a, r, marker), cs);
  }

  lemma WipeStorageWipes(db: Db, cs: seq<Checkpoint>, a: Address, r: Roots, marker: Checkpoint, b: Address, j: Slot)
    requires DbOk(db, cs) && r.journal !in cs && Writable(db)
    ensures SlotNow(DoWipeStorage(db, a, r, marker), b, j) == if b == a then 0 else SlotNow(db, b, j)
  {
    hide DbOk, Current, DoWipe, Usable, J.Lookup;
    LoadWritable(db, cs, a, r);
    LoadKeepsSlots(db, cs, a, r, b, j);
    WipeCurrent(DoLoad(db, a, r).stores[a], marker, j);
  }

  // A change of journals alone, leaving their marks.
  lemma JournalsKeep(db: Db, t: Db, cs: seq<Checkpoint>)
    requires DbOk(db, cs) && t == db.(codes := t.codes, accounts := t.accounts, accessed := t.accessed)
    requires JournalsOk(t, cs) && StoresSound(t)
    requires Marks(t.codes) == Marks(db.codes) && Marks(t.accounts) == Marks(db.accounts) && Marks(t.accessed) == Marks(db.accessed)
    requires GlanceOk(GlanceOf(db, cs).(now := Now(t.accounts)))
    requires forall i, b, k :: 0 <= i < |cs| ==>
               SlotAtIn(GlanceOf(db, cs).(now := Now(t.accounts)), i, b, k) == SlotAtIn(GlanceOf(db, cs), i, b, k)
    ensures Keeps(db, t, cs)
  {
    hide J.Valid, J.AnyClear, J.Marks, J.Meaning, Fits, Sound, J.Lookup;
    assert GlanceOf(t, cs) == GlanceOf(db, cs).(now := Now(t.accounts));
    KeepsFrom(db, t, cs);
  }

  lemma WriteAccountKeeps(db: Db, cs: seq<Checkpoint>, a: Address, c: Change<Account>)
    requires DbOk(db, cs) && !c.RevertToWrapped?
    requires a !in db.stores ==> c.Put? && c.value.storageRoot == OrNew(AccountNow(db, a)).storageRoot
    ensures Writable(db) && Keeps(db, db.(accounts := J.DoWrite(db.accounts, a, c)), cs)
  {
    hide J.Valid, J.AnyClear, J.Marks, J.Meaning, Sound, J.Lookup, GlanceOk, Summarize, J.DoWrite, Keeps, SlotAtIn;
    OkIsWritable(db, cs);
    JournalWrite(db.accounts, cs, a, c);
    AnswerIsLook(db.accounts, cs, a, At(db.baseAccounts, a));
    AccountKeeps(GlanceOf(db, cs), a, c);
    assert AccountStep(GlanceOf(db, cs), a, c) == GlanceOf(db, cs).(now := Now(J.DoWrite(db.accounts, a, c)));
    JournalsKeep(db, db.(accounts := J.DoWrite(db.accounts, a, c)), cs);
  }

  lemma DeleteAccountKeeps(db: Db, cs: seq<Checkpoint>, a: Address, r: Roots, marker: Checkpoint)
    requires DbOk(db, cs) && r.journal !in cs && r.journal != marker
    requires a in db.stores ==> !HasId(db.stores[a].journal.entries, marker)
    ensures Writable(db) && Keeps(db, DoDeleteAccount(db, a, r, marker), cs)
  {
    hide J.Valid, J.Marks, J.AnyClear, J.Meaning, Fits, Sound, J.Lookup, GlanceOk;
    WipeStorageKeeps(db, cs, a, r, marker);
    var w := DoWipeStorage(db, a, r, marker);
    WriteAccountKeeps(w, cs, a, DeleteWrapped);
    KeepsTwice(db, w, DoDeleteAccount(db, a, r, marker), cs);
  }

  lemma DeleteStorageKeeps(db: Db, cs: seq<Checkpoint>, a: Address, r: Roots, marker: Checkpoint)
    requires DbOk(db, cs) && r.journal !in cs && r.journal != marker && a in db.stores
    requires !HasId(db.stores[a].journal.entries, marker)
    ensures Writable(db) && Keeps(db, DoDeleteStorage(db, a, r, marker), cs)
  {
    hide J.Valid, J.Marks, J.AnyClear, J.Meaning, Fits, Sound, J.Lookup, GlanceOk;
    var account := OrNew(AccountNow(db, a)).(storageRoot := map[]);
    WriteAccountKeeps(db, cs, a, Put(account));
    var w := DoSetAccount(db, a, account);
    WipeStorageKeeps(w, cs, a, r, marker);
    KeepsTwice(db, w, DoDeleteStorage(db, a, r, marker), cs);
  }

  lemma StoreCodeKeeps(db: Db, cs: seq<Checkpoint>, code: Code)
    requires DbOk(db, cs)
    ensures Writable(db) && Keeps(db, DoStoreCode(db, code), cs)
  {
    hide J.Valid, J.AnyClear, J.Marks, J.Meaning, Fits, Sound, J.Lookup;
    OkIsWritable(db, cs);
    JournalWrite(db.codes, cs, code, Put(code));
    JournalsKeep(db, DoStoreCode(db, code), cs);
  }

  lemma MarkWarmKeeps(db: Db, cs: seq<Checkpoint>, key: AccessKey)
    requires DbOk(db, cs)
    ensures Writable(db) && Keeps(db, DoMarkWarm(db, key), cs)
  {
    hide J.Valid, J.AnyClear, J.Marks, J.Meaning, Fits, Sound, J.Lookup;
    OkIsWritable(db, cs);
    JournalWrite(db.accessed, cs, key, Put(()));
    JournalsKeep(db, DoMarkWarm(db, key), cs);
  }

  //
  // Recording, discarding and committing
  //

  predicate FreshId(db: Db, id: Checkpoint) {
    && !HasId(db.codes.entries, id) && !HasId(db.accounts.entries, id) && !HasId(db.accessed.entries, id)
    && forall a :: a in db.stores ==>
         !HasId(db.stores[a].journal.entries, id) && !HasId(db.stores[a].clearCount.entries, id)
  }

  lemma RecordJournals(db: Db, cs: seq<Checkpoint>, id: Checkpoint)
    requires JournalsOk(db, cs) && FreshId(db, id)
    ensures var t := DoRecord(db, id);
            && JournalsOk(t, cs + [id]) && id !in cs
            && Now(t.codes) == Now(db.codes) && Marks(t.codes) == Marks(db.codes) + [Mark(id, Now(db.codes))]
            && Now(t.accounts) == Now(db.accounts) && Marks(t.accounts) == Marks(db.accounts) + [Mark(id, Now(db.accounts))]
            && Now(t.accessed) == Now(db.accessed) && Marks(t.accessed) == Marks(db.accessed) + [Mark(id, Now(db.accessed))]
  {
    hide J.Valid, J.Meaning, J.Marks, J.AnyClear;
    JournalRecord(db.codes, cs, id);
    JournalRecord(db.accounts, cs, id);
    JournalRecord(db.accessed, cs, id);
  }

  lemma DirtyStore(db: Db, cs: seq<Checkpoint>, a: Address)
    requires DbOk(db, cs) && a in db.dirty
    ensures a in db.stores && StoreOk(db.stores[a], cs, true) && AllDistinct(cs)
  {
    hide J.Valid, J.AnyClear, J.Marks, J.Meaning, Sound, Fits, JournalOk;
    assert a in db.stores && GlanceOf(db, cs).stores[a] == Summarize(db.stores[a]);
  }

  lemma RecordStore(st: Store, cs: seq<Checkpoint>, id: Checkpoint)
    requires StoreOk(st, cs, true) && !HasId(st.journal.entries, id) && !HasId(st.clearCount.entries, id)
    ensures var t := Storage.DoRecord(st, id);
            && Sound(t) && t.journal.stack != [] && st.journal.stack[0] != id
            && Summarize(t) == Summarize(st).(frames := Frames(st) + [Frame(id, Now(st.journal), Base(st))])
  {
    hide J.AnyClear, J.Marks, InOrder, Fits, BlankFrames, Paired, FramesOf;
    Storage.RecordKeeps(st, id);
    RecordLevel(st, id);
    InOrderIds(st.journal.entries, st.journal.stack);
    assert HasId(st.journal.entries, st.journal.stack[0]);
  }

  lemma RootIsEntry(st: Store)
    requires Sound(st) && st.journal.stack != []
    ensures HasId(st.journal.entries, st.journal.stack[0])
  {
    InOrderIds(st.journal.entries, st.journal.stack);
  }

  lemma RecordStores(db: Db, cs: seq<Checkpoint>, id: Checkpoint, a: Address)
    requires DbOk(db, cs) && FreshId(db, id) && a in db.stores
    ensures var st := DoRecord(db, id).stores[a];
            && Sound(st) && st.journal.stack != [] && db.stores[a].journal.stack[0] != id
            && a in RecordStep(GlanceOf(db, cs), id).stores
            && Summarize(st) == RecordStep(GlanceOf(db, cs), id).stores[a]
  {
    hide J.Valid, J.AnyClear, J.Marks, J.Meaning, Sound, Fits, Storage.DoRecord, J.DoRecord, J.Lookup, GlanceOk;
    RootIsEntry(db.stores[a]);
    if a in db.dirty {
      DirtyStore(db, cs, a);
      RecordStore(db.stores[a], cs, id);
    }
  }

  lemma RecordGlance(db: Db, t: Db, cs: seq<Checkpoint>, id: Checkpoint)
    requires DbOk(db, cs) && JournalsOk(t, cs + [id]) && StoresSound(t)
    requires Now(t.accounts) == Now(db.accounts) && Marks(t.accounts) == Marks(db.accounts) + [Mark(id, Now(db.accounts))]
    requires t.dirty == db.dirty && t.baseAccounts == db.baseAccounts && t.stores.Keys == db.stores.Keys
    requires forall a :: a in db.stores ==> Summarize(t.stores[a]) == RecordStep(GlanceOf(db, cs), id).stores[a]
    ensures GlanceOf(t, cs + [id]) == RecordStep(GlanceOf(db, cs), id)
  {
    hide J.Valid, J.AnyClear, J.Marks, J.Meaning, Sound, Fits, J.Lookup, GlanceOk, Summarize, Frames;
    var g := GlanceOf(db, cs);
    assert GlanceOf(t, cs + [id]).stores == RecordStep(g, id).stores;
    assert GlanceOf(t, cs + [id]).marks == RecordStep(g, id).marks;
  }

  lemma RecordAllStores(db: Db, cs: seq<Checkpoint>, id: Checkpoint)
    requires DbOk(db, cs) && FreshId(db, id)
    ensures var g, t := GlanceOf(db, cs), DoRecord(db, id);
            && StoresSound(t)
            && (forall a :: a in g.stores ==> g.stores[a].root != id)
            && (forall a :: a in db.stores ==> Summarize(t.stores[a]) == RecordStep(g, id).stores[a])
  {
    hide J.Valid, J.AnyClear, J.Marks, J.Meaning, Sound, Fits, Storage.DoRecord, J.DoRecord, J.Lookup, GlanceOk, JournalOk;
    var g, t := GlanceOf(db, cs), DoRecord(db, id);
    forall a | a in db.stores
      ensures Sound(t.stores[a]) && t.stores[a].journal.stack != [] && g.stores[a].root != id
      ensures Summarize(t.stores[a]) == RecordStep(g, id).stores[a]
    {
      RecordStores(db, cs, id, a);
    }
  }

  lemma RecordIs(db: Db, cs: seq<Checkpoint>, id: Checkpoint)
    requires DbOk(db, cs) && FreshId(db, id)
    ensures DbOk(DoRecord(db, id), cs + [id])
    ensures GlanceOf(DoRecord(db, id), cs + [id]) == RecordStep(GlanceOf(db, cs), id)
  {
    hide J.Valid, J.AnyClear, J.Marks, J.Meaning, Sound, Fits, Storage.DoRecord, J.DoRecord, J.Lookup, GlanceOk, RecordStep, JournalOk, FreshId, Summarize;
    RecordJournals(db, cs, id);
    RecordAllStores(db, cs, id);
    RecordGlance(db, DoRecord(db, id), cs, id);
    RecordOk(GlanceOf(db, cs), id);
  }

  // record(c) changes nothing that is seen, remembers what is seen, and keeps
  // what was remembered.
  lemma RecordSeen(db: Db, cs: seq<Checkpoint>, id: Checkpoint, p: Probe)
    requires DbOk(db, cs) && FreshId(db, id)
    ensures DbOk(DoRecord(db, id), cs + [id])
    ensures SeenNow(DoRecord(db, id), p) == SeenAt(DoRecord(db, id), cs + [id], |cs|, p) == SeenNow(db, p)
    ensures forall i :: 0 <= i < |cs| ==> SeenAt(DoRecord(db, id), cs + [id], i, p) == SeenAt(db, cs, i, p)
  {
    hide J.Valid, J.AnyClear, J.Marks, J.Meaning, Sound, Fits, J.DoRecord, Storage.DoRecord, J.Lookup, GlanceOk, ValueNow, ValueAt;
    RecordIs(db, cs, id);
    RecordJournals(db, cs, id);
    RecordKeeps(GlanceOf(db, cs), id, p.a, p.k);
    SeenNowIs(db, cs, p);
    SeenNowIs(DoRecord(db, id), cs + [id], p);
  }

  lemma LowerJournals(db: Db, t: Db, cs: seq<Checkpoint>, j: nat, restored: bool)
    requires JournalsOk(db, cs) && j < |cs|
    requires cs[j] in db.codes.stack && cs[j] in db.accounts.stack && cs[j] in db.accessed.stack
    requires t.codes == if restored then J.DoDiscard(db.codes, cs[j]) else J.DoCommit(db.codes, cs[j])
    requires t.accounts == if restored then J.DoDiscard(db.accounts, cs[j]) else J.DoCommit(db.accounts, cs[j])
    requires t.accessed == if restored then J.DoDiscard(db.accessed, cs[j]) else J.DoCommit(db.accessed, cs[j])
    ensures JournalsOk(t, cs[..j])
    ensures Marks(t.codes) == Marks(db.codes)[..j + 1] && Marks(t.accounts) == Marks(db.accounts)[..j + 1]
    ensures Marks(t.accessed) == Marks(db.accessed)[..j + 1]
    ensures Now(t.codes) == if restored then Marks(db.codes)[j + 1].level else Now(db.codes)
    ensures Now(t.accounts) == if restored then Marks(db.accounts)[j + 1].level else Now(db.accounts)
    ensures Now(t.accessed) == if restored then Marks(db.accessed)[j + 1].level else Now(db.accessed)
  {
    hide J.Valid, J.AnyClear, J.Marks, J.Meaning, J.DoDiscard, J.DoCommit;
    if restored {
      JournalDiscard(db.codes, cs, j);
      JournalDiscard(db.accounts, cs, j);
      JournalDiscard(db.accessed, cs, j);
    } else {
      JournalCommit(db.codes, cs, j);
      JournalCommit(db.accounts, cs, j);
      JournalCommit(db.accessed, cs, j);
    }
  }

  // Everything after a discard (or, with restored false, a commit) of cs[j].
  lemma LowerIs(db: Db, t: Db, cs: seq<Checkpoint>, j: nat, restored: bool)
    requires DbOk(db, cs) && j < |cs| && Undoable(db, cs[j])
    requires t == db.(codes := t.codes, accounts := t.accounts, accessed := t.accessed, stores := t.stores)
    requires t.codes == if restored then J.DoDiscard(db.codes, cs[j]) else J.DoCommit(db.codes, cs[j])
    requires t.accounts == if restored then J.DoDiscard(db.accounts, cs[j]) else J.DoCommit(db.accounts, cs[j])
    requires t.accessed == if restored then J.DoDiscard(db.accessed, cs[j]) else J.DoCommit(db.accessed, cs[j])
    requires t.stores.Keys == db.stores.Keys
    requires forall a :: a in db.stores && a !in db.dirty ==> t.stores[a] == db.stores[a]
    requires forall a :: a in db.dirty ==>
               && a in db.stores && StoreOk(db.stores[a], cs, true)
               && Sound(t.stores[a]) && t.stores[a].journal.stack != []
               && Lowered(Summarize(db.stores[a]), Summarize(t.stores[a]), cs, j, restored)
    ensures DbOk(t, cs[..j])
    ensures LowerStep(GlanceOf(db, cs), GlanceOf(t, cs[..j]), j, restored)
  {
    hide J.Valid, J.AnyClear, J.Marks, J.Meaning, Sound, Fits, Lowered, J.DoDiscard, J.DoCommit, J.Lookup, GlanceOk,
      Summarize, Frames;
    LowerJournals(db, t, cs, j, restored);
    var g, u := GlanceOf(db, cs), GlanceOf(t, cs[..j]);
    assert u.marks == g.marks[..j];
    LowerOk(g, u, j, restored);
  }

  lemma LowerSeen(db: Db, t: Db, cs: seq<Checkpoint>, j: nat, restored: bool, p: Probe)
    requires DbOk(db, cs) && j < |cs| && DbOk(t, cs[..j])
    requires LowerStep(GlanceOf(db, cs), GlanceOf(t, cs[..j]), j, restored)
    requires t.baseCodes == db.baseCodes
    requires Marks(t.codes) == Marks(db.codes)[..j + 1] && Marks(t.accessed) == Marks(db.accessed)[..j + 1]
    requires Now(t.codes) == if restored then Marks(db.codes)[j + 1].level else Now(db.codes)
    requires Now(t.accessed) == if restored then Marks(db.accessed)[j + 1].level else Now(db.accessed)
    ensures SeenNow(t, p) == if restored then SeenAt(db, cs, j, p) else SeenNow(db, p)
    ensures forall i :: 0 <= i < j ==> SeenAt(t, cs[..j], i, p) == SeenAt(db, cs, i, p)
  {
    hide J.Valid, J.AnyClear, J.Marks, J.Meaning, Sound, Fits, Lowered, GlanceOk, ValueNow, ValueAt, J.Lookup;
    LowerKeeps(GlanceOf(db, cs), GlanceOf(t, cs[..j]), j, restored, p.a, p.k);
    SeenNowIs(db, cs, p);
    SeenNowIs(t, cs[..j], p);
  }

  // One discard goes back over at most one wipe of each dirty store.
  ghost predicate WipesAllow(db: Db, id: Checkpoint)
    requires StoresSound(db)
  {
    forall a :: a in db.dirty && a in db.stores ==> WipesSince(db.stores[a], id) <= 1
  }

  lemma CanUndo(db: Db, cs: seq<Checkpoint>, j: nat, root: Checkpoint)
    requires DbOk(db, cs) && j < |cs| && root !in cs
    ensures Undoable(db, cs[j])
    ensures DiscardSucceeds(db, cs[j], root) <==> WipesAllow(db, cs[j])
  {
    hide J.Valid, J.AnyClear, J.Marks, J.Meaning, Paired, FramesOf, BlankFrames, Local, Lowered, Storage.DoDiscard, J.Lookup, GlanceOk, WipesSince;
    JournalPosition(db.codes, cs, j);
    JournalPosition(db.accounts, cs, j);
    JournalPosition(db.accessed, cs, j);
    forall a | a in db.dirty
      ensures a in db.stores && Aligned(db.stores[a])
      ensures cs[j] in db.stores[a].journal.stack ==> cs[j] in db.stores[a].clearCount.stack
      ensures Storage.DoDiscard(db.stores[a], cs[j], root).Ok? <==> WipesSince(db.stores[a], cs[j]) <= 1
    {
      DirtyStore(db, cs, a);
      StoreDiscard(db.stores[a], cs, j, root);
    }
  }

  // discard(c) restores everything a caller can see to what it was at
  // record(c), and leaves the older checkpoints as they were.  It succeeds
  // exactly when no dirty store was wiped twice since c.
  lemma DiscardRestores(db: Db, cs: seq<Checkpoint>, j: nat, root: Checkpoint, p: Probe)
    requires DbOk(db, cs) && j < |cs| && root !in cs && WipesAllow(db, cs[j])
    ensures Undoable(db, cs[j]) && DiscardSucceeds(db, cs[j], root)
    ensures var t := DoDiscard(db, cs[j], root);
            && DbOk(t, cs[..j])
            && SeenNow(t, p) == SeenAt(db, cs, j, p)
            && forall i :: 0 <= i < j ==> SeenAt(t, cs[..j], i, p) == SeenAt(db, cs, i, p)
  {
    hide J.Valid, J.AnyClear, J.Marks, J.Meaning, Sound, Fits, Lowered, Storage.DoDiscard, J.DoDiscard, J.Lookup, GlanceOk, JournalOk, SeenAt, SeenNow, LowerStep;
    CanUndo(db, cs, j, root);
    var t := DoDiscard(db, cs[j], root);
    forall a | a in db.dirty
      ensures a in db.stores && StoreOk(db.stores[a], cs, true)
      ensures Sound(t.stores[a]) && t.stores[a].journal.stack != []
      ensures Lowered(Summarize(db.stores[a]), Summarize(t.stores[a]), cs, j, true)
    {
      DirtyStore(db, cs, a);
      StoreDiscard(db.stores[a], cs, j, root);
    }
    LowerIs(db, t, cs, j, true);
    LowerJournals(db, t, cs, j, true);
    LowerSeen(db, t, cs, j, true, p);
  }

  // commit(c) changes nothing that is seen or that older checkpoints remember.
  lemma CommitKeepsSeen(db: Db, cs: seq<Checkpoint>, j: nat, p: Probe)
    requires DbOk(db, cs) && j < |cs|
    ensures Undoable(db, cs[j])
    ensures var t := DoCommit(db, cs[j]);
            && DbOk(t, cs[..j])
            && SeenNow(t, p) == SeenNow(db, p)
            && forall i :: 0 <= i < j ==> SeenAt(t, cs[..j], i, p) == SeenAt(db, cs, i, p)
  {
    hide J.Valid, J.AnyClear, J.Marks, J.Meaning, Sound, Fits, Lowered, Storage.DoCommit, J.DoCommit, J.Lookup, GlanceOk, JournalOk, SeenAt, SeenNow, LowerStep;
    CanUndo(db, cs, j, FreshRoot(cs));
    var t := DoCommit(db, cs[j]);
    forall a | a in db.dirty
      ensures a in db.stores && StoreOk(db.stores[a], cs, true)
      ensures Sound(t.stores[a]) && t.stores[a].journal.stack != []
      ensures Lowered(Summarize(db.stores[a]), Summarize(t.stores[a]), cs, j, false)
    {
      DirtyStore(db, cs, a);
      StoreCommit(db.stores[a], cs, j);
    }
    LowerIs(db, t, cs, j, false);
    LowerJournals(db, t, cs, j, false);
    LowerSeen(db, t, cs, j, false, p);
  }

  // Some id that is not in cs.
  function FreshRoot(cs: seq<Checkpoint>): (r: Checkpoint)
    ensures r !in cs
  {
    LargestBound(cs);
    Largest(cs) + 1
  }

  function Largest(cs: seq<Checkpoint>): nat {
    if cs == [] then 0
    else if Last(cs) > Largest(Front(cs)) then Last(cs) else Largest(Front(cs))
  }

  lemma LargestBound(cs: seq<Checkpoint>)
    ensures forall c :: c in cs ==> c <= Largest(cs)
  {
    if cs != [] {
      LargestBound(Front(cs));
      assert forall c :: c in cs ==> c in Front(cs) || c == Last(cs);
    }
  }

  //
  // Between transactions
  //

  // A database just opened on a state root.
  function Opened(baseAccounts: map<Address, Account>, baseCodes: map<Code, Code>,
                  codeRoot: Checkpoint, accountRoot: Checkpoint, accessRoot: Checkpoint): Db
  {
    Db(J.Initial(codeRoot), J.Initial(accountRoot), J.Initial(accessRoot), map[], {}, baseAccounts, baseCodes)
  }

  lemma InitialOk<K, V>(root: Checkpoint)
    ensures JournalOk(J.Initial<K, V>(root), [])
  {
    InitialNow<K, V>(root);
    InitialMarks<K, V>(root);
  }

  lemma OpenedOk(baseAccounts: map<Address, Account>, baseCodes: map<Code, Code>,
                 codeRoot: Checkpoint, accountRoot: Checkpoint, accessRoot: Checkpoint)
    ensures DbOk(Opened(baseAccounts, baseCodes, codeRoot, accountRoot, accessRoot), [])
  {
    InitialOk<Code, Code>(codeRoot);
    InitialOk<Address, Account>(accountRoot);
    InitialOk<AccessKey, ()>(accessRoot);
  }

  function DoLockChanges(db: Db, marker: Checkpoint, root: Checkpoint): Db
    requires Writable(db)
  {
    db.(stores := map a | a in db.stores ::
          if a in db.dirty then DoLock(db.stores[a], marker, root) else db.stores[a],
        accessed := J.Initial(root))
  }

  lemma LockStack(st: Store, marker: Checkpoint, root: Checkpoint)
    requires Usable(st)
    ensures DoLock(st, marker, root).journal.stack == [root]
  {}

  lemma LockStore(st: Store, marker: Checkpoint, root: Checkpoint)
    requires StoreOk(st, [], true) && !HasId(st.locked.entries, marker)
    ensures StoreOk(DoLock(st, marker, root), [], true)
  {
    hide J.Valid, J.AnyClear, J.Marks, J.Meaning, Paired, FramesOf, BlankFrames, Local, DoLock;
    LockSound(st, marker, root);
    LockStack(st, marker, root);
  }

  // A change of stores alone, between transactions.
  lemma StoresOk(db: Db, t: Db)
    requires DbOk(db, []) && t == db.(stores := t.stores, accessed := t.accessed) && JournalOk(t.accessed, [])
    requires t.stores.Keys == db.stores.Keys
    requires forall a :: a in db.stores && a !in db.dirty ==> t.stores[a] == db.stores[a]
    requires forall a :: a in db.dirty && a in db.stores ==> StoreOk(t.stores[a], [], true)
    ensures DbOk(t, [])
  {
    hide J.Valid, J.AnyClear, J.Marks, J.Meaning, Sound, J.Lookup, Fits, JournalOk;
    forall a | a in t.stores ensures Sound(t.stores[a]) && t.stores[a].journal.stack != [] {
    }
    var g, u := GlanceOf(db, []), GlanceOf(t, []);
    forall a | a in u.stores ensures Fits(u.stores[a], u.cs, a in u.dirty) {
      assert a !in db.dirty ==> u.stores[a] == g.stores[a];
    }
  }

  lemma LockChangesOk(db: Db, marker: Checkpoint, root: Checkpoint)
    requires DbOk(db, []) && forall a :: a in db.dirty && a in db.stores ==> !HasId(db.stores[a].locked.entries, marker)
    ensures Writable(db) && DbOk(DoLockChanges(db, marker, root), [])
  {
    hide J.Valid, J.AnyClear, J.Marks, J.Meaning, Sound, Fits, DoLock, J.Lookup, GlanceOk;
    OkIsWritable(db, []);
    InitialOk<AccessKey, ()>(root);
    forall a | a in db.dirty && a in db.stores ensures StoreOk(DoLock(db.stores[a], marker, root), [], true) {
      DirtyStore(db, [], a);
      LockStore(db.stores[a], marker, root);
    }
    StoresOk(db, DoLockChanges(db, marker, root));
  }

  // With no checkpoint pending, lock_changes keeps every account and slot,
  // and the next transaction can start from it.
  lemma LockChangesKeeps(db: Db, marker: Checkpoint, root: Checkpoint, p: Probe)
    requires DbOk(db, []) && forall a :: a in db.dirty && a in db.stores ==> !HasId(db.stores[a].locked.entries, marker)
    ensures Writable(db) && DbOk(DoLockChanges(db, marker, root), [])
    ensures SeenNow(DoLockChanges(db, marker, root), p) == SeenNow(db, p).(warm := false)
  {
    hide J.Valid, J.AnyClear, J.Marks, J.Meaning, Sound, Fits, DoLock, J.Lookup, GlanceOk;
    LockChangesOk(db, marker, root);
    InitialNow<AccessKey, ()>(root);
    if p.a in db.dirty && p.a in db.stores {
      DirtyStore(db, [], p.a);
      LockSlot(db.stores[p.a], marker, root, p.k);
    }
  }

  lemma LockSlot(st: Store, marker: Checkpoint, root: Checkpoint, k: Slot)
    requires Sound(st) && !HasId(st.locked.entries, marker)
    ensures Current(DoLock(st, marker, root), k) == Current(st, k)
  {
    LockKeepsSlots(st, marker, root, k);
  }

  //
  // Whole transactions
  //

  datatype Op =
    | Load(a: Address, r: Roots)
    | SetStorage(a: Address, k: Slot, v: nat, r: Roots)
    | UpdateAccount(a: Address, nonce: nat, balance: nat, codeHash: Code)
    | StoreCode(code: Code)
    | MarkWarm(key: AccessKey)
    | DeleteAccount(a: Address, r: Roots, marker: Checkpoint)
    | DeleteStorage(a: Address, r: Roots, marker: Checkpoint)
    | Record(id: Checkpoint)
    | Discard(id: Checkpoint, root: Checkpoint)
    | Commit(id: Checkpoint)

  // A database and its checkpoints.
  datatype Point = Point(db: Db, cs: seq<Checkpoint>)

  // Ids are fresh; delete_storage finds its store loaded; a discard is of an
  // active checkpoint and goes back over at most one wipe of each store.
  ghost predicate Enabled(p: Point, op: Op)
    requires DbOk(p.db, p.cs)
  {
    match op
    case Load(_, r) => r.journal !in p.cs
    case SetStorage(_, _, _, r) => r.journal !in p.cs
    case DeleteAccount(a, r, marker) =>
      && r.journal !in p.cs && r.journal != marker
      && (a in p.db.stores ==> !HasId(p.db.stores[a].journal.entries, marker))
    case DeleteStorage(a, r, marker) =>
      && r.journal !in p.cs && r.journal != marker
      && a in p.db.stores && !HasId(p.db.stores[a].journal.entries, marker)
    case Record(id) => FreshId(p.db, id)
    case Discard(id, root) => id in p.cs && root !in p.cs && WipesAllow(p.db, id)
    case Commit(id) => id in p.cs
    case _ => true
  }

  function Copied(db: Db, a: Address, nonce: nat, balance: nat, codeHash: Code): Account {
    OrNew(AccountNow(db, a)).(nonce := nonce, balance := balance, codeHash := codeHash)
  }

  ghost function Step(p: Point, op: Op): Point
    requires DbOk(p.db, p.cs) && Enabled(p, op)
  {
    OkIsWritable(p.db, p.cs);
    match op
    case Load(a, r) => p.(db := DoLoad(p.db, a, r))
    case SetStorage(a, k, v, r) => p.(db := DoSetStorage(p.db, a, k, v, r))
    case UpdateAccount(a, n, b, h) => p.(db := DoSetAccount(p.db, a, Copied(p.db, a, n, b, h)))
    case StoreCode(code) => p.(db := DoStoreCode(p.db, code))
    case MarkWarm(key) => p.(db := DoMarkWarm(p.db, key))
    case DeleteAccount(a, r, marker) => p.(db := DoDeleteAccount(p.db, a, r, marker))
    case DeleteStorage(a, r, marker) => p.(db := DoDeleteStorage(p.db, a, r, marker))
    case Record(id) => Point(DoRecord(p.db, id), p.cs + [id])
    case Discard(id, root) =>
      CanUndo(p.db, p.cs, Find(p.cs, id), root);
      Point(DoDiscard(p.db, id, root), p.cs[..Find(p.cs, id)])
    case Commit(id) =>
      CanUndo(p.db, p.cs, Find(p.cs, id), FreshRoot(p.cs));
      Point(DoCommit(p.db, id), p.cs[..Find(p.cs, id)])
  }

  // One step keeps the invariant and what every surviving checkpoint remembers.
  lemma StepKeeps(p: Point, op: Op, probe: Probe)
    requires DbOk(p.db, p.cs) && Enabled(p, op)
    ensures var q := Step(p, op);
            && DbOk(q.db, q.cs)
            && (q.cs <= p.cs || p.cs <= q.cs)
            && forall i :: 0 <= i < |p.cs| && i < |q.cs| ==> SeenAt(q.db, q.cs, i, probe) == SeenAt(p.db, p.cs, i, probe)
  {
    hide DbOk, SeenAt, SeenNow, DoLoad, DoSetStorage, DoSetAccount, DoStoreCode, DoMarkWarm, DoDeleteAccount, DoDeleteStorage, DoRecord, DoDiscard, DoCommit, FreshId, WipesAllow;
    match op
    case Load(a, r) => LoadIs(p.db, p.cs, a, r);
    case SetStorage(a, k, v, r) => SetStorageKeeps(p.db, p.cs, a, k, v, r);
    case UpdateAccount(a, n, b, h) => UpdateAccountKeeps(p.db, p.cs, a, n, b, h);
    case StoreCode(code) => StoreCodeKeeps(p.db, p.cs, code);
    case MarkWarm(key) => MarkWarmKeeps(p.db, p.cs, key);
    case DeleteAccount(a, r, marker) => DeleteAccountKeeps(p.db, p.cs, a, r, marker);
    case DeleteStorage(a, r, marker) => DeleteStorageKeeps(p.db, p.cs, a, r, marker);
    case Record(id) => RecordSeen(p.db, p.cs, id, probe);
    case Discard(id, root) => DiscardRestores(p.db, p.cs, Find(p.cs, id), root, probe);
    case Commit(id) => CommitKeepsSeen(p.db, p.cs, Find(p.cs, id), probe);
  }

  lemma UpdateAccountKeeps(db: Db, cs: seq<Checkpoint>, a: Address, n: nat, b: nat, h: Code)
    requires DbOk(db, cs)
    ensures Writable(db) && Keeps(db, DoSetAccount(db, a, Copied(db, a, n, b, h)), cs)
  {
    hide DbOk, Keeps;
    WriteAccountKeeps(db, cs, a, Put(Copied(db, a, n, b, h)));
  }

  // A run of operations that never goes below n checkpoints.
  ghost predicate Runs(p: Point, ops: seq<Op>, n: nat)
    requires DbOk(p.db, p.cs)
    decreases |ops|, 0
  {
    && (ops == [] ==> |p.cs| >= n)
    && (ops != [] ==>
         && Runs(p, Front(ops), n)
         && Enabled(Run(p, Front(ops), n), Last(ops))
         && |Step(Run(p, Front(ops), n), Last(ops)).cs| >= n)
  }

  ghost function Run(p: Point, ops: seq<Op>, n: nat): (q: Point)
    requires DbOk(p.db, p.cs) && Runs(p, ops, n)
    ensures DbOk(q.db, q.cs) && |q.cs| >= n
    decreases |ops|, 1
  {
    if ops == [] then p
    else
      var q := Run(p, Front(ops), n);
      StepKeeps(q, Last(ops), Probe(0, 0, [], AddressKey(0)));
      Step(q, Last(ops))
  }

  // Whatever runs, the first n checkpoints remember what they remembered.
  lemma {:induction false} RunKeeps(p: Point, ops: seq<Op>, n: nat, probe: Probe)
    requires DbOk(p.db, p.cs) && Runs(p, ops, n) && n <= |p.cs|
    ensures var q := Run(p, ops, n);
            && q.cs[..n] == p.cs[..n]
            && forall i :: 0 <= i < n ==> SeenAt(q.db, q.cs, i, probe) == SeenAt(p.db, p.cs, i, probe)
  {
    hide DbOk, SeenAt, Enabled, Step;
    if ops != [] {
      RunKeeps(p, Front(ops), n, probe);
      var q := Run(p, Front(ops), n);
      StepKeeps(q, Last(ops), probe);
      var t := Step(q, Last(ops));
      assert t.cs[..n] == q.cs[..n];
    }
  }

  // Within a transaction, a discard to a checkpoint gives back every account,
  // slot, code and access mark as it was when the checkpoint was recorded.
  lemma RevertRestores(p: Point, id: Checkpoint, ops: seq<Op>, root: Checkpoint, probe: Probe)
    requires DbOk(p.db, p.cs) && Enabled(p, Record(id)) && DbOk(Step(p, Record(id)).db, Step(p, Record(id)).cs)
    requires Runs(Step(p, Record(id)), ops, |p.cs| + 1)
    requires Enabled(Run(Step(p, Record(id)), ops, |p.cs| + 1), Discard(id, root))
    ensures var q := Step(Run(Step(p, Record(id)), ops, |p.cs| + 1), Discard(id, root));
            && DbOk(q.db, q.cs) && q.cs == p.cs
            && SeenNow(q.db, probe) == SeenNow(p.db, probe)
  {
    hide DbOk, SeenAt, SeenNow, DoRecord, DoDiscard, FreshId, WipesAllow, Runs, Run;
    var n, r := |p.cs|, Step(p, Record(id));
    RecordSeen(p.db, p.cs, id, probe);
    RunKeeps(r, ops, n + 1, probe);
    var e := Run(r, ops, n + 1);
    assert e.cs[n] == e.cs[..n + 1][n] == id;
    assert e.cs[..n] == e.cs[..n + 1][..n] == p.cs;
    CheckpointsDistinct(e.db, e.cs);
    DiscardRestores(e.db, e.cs, n, root, probe);
  }

  lemma CheckpointsDistinct(db: Db, cs: seq<Checkpoint>)
    requires DbOk(db, cs)
    ensures AllDistinct(cs)
  {}
}
