// veda/db/account.py: the AccountDB object, with the stores it drives and the
// cache of decoded accounts in front of the journaled trie.
module AccountDatabase {
  import opened Wrappers
  import opened Snapshots
  import opened Entries
  import J = Journaling
  import S = Storage
  import opened Accounts

  class AccountDB {
    const baseAccounts: map<Address, Account>
    const baseCodes: map<Code, Code>
    var codes: J.State<Code, Code>
    var accounts: J.State<Address, Account>
    var accessed: J.State<AccessKey, ()>
    var accountCache: map<Address, Account>
    var stores: map<Address, S.AccountStorageDB>
    var dirty: set<Address>

    ghost function Stores(): set<S.AccountStorageDB>
      reads `stores
    {
      set a | a in stores :: stores[a]
    }

    ghost function StoreValues(): (m: map<Address, S.Store>)
      reads `stores, Stores()
      ensures m.Keys == stores.Keys
    {
      map a | a in stores :: stores[a].Value()
    }

    ghost function Value(): Db
      reads this, Stores()
    {
      Db(codes, accounts, accessed, StoreValues(), dirty, baseAccounts, baseCodes)
    }

    // Every account has its own store object, and no store's cache is stale.
    ghost predicate StoresShape()
      reads `stores, Stores()
    {
      forall a :: a in stores ==> stores[a].address == a && stores[a].Coherent()
    }

    function EncodedAccount(a: Address): Option<Account>
      reads `accounts
    {
      Answer(accounts, a, At(baseAccounts, a))
    }

    // The account cache never disagrees with the journaled trie.
    ghost predicate CacheShape()
      reads `accountCache, `accounts
    {
      forall a :: a in accountCache ==> accountCache[a] == OrNew(EncodedAccount(a))
    }

    ghost predicate Shape()
      reads this, Stores()
    {
      StoresShape() && CacheShape() && dirty <= stores.Keys
    }

    constructor (baseAccounts: map<Address, Account>, baseCodes: map<Code, Code>,
                 codeRoot: Checkpoint, accountRoot: Checkpoint, accessRoot: Checkpoint)
      ensures Shape() && Value() == Opened(baseAccounts, baseCodes, codeRoot, accountRoot, accessRoot)
    {
      this.baseAccounts, this.baseCodes := baseAccounts, baseCodes;
      codes, accounts, accessed := J.Initial(codeRoot), J.Initial(accountRoot), J.Initial(accessRoot);
      accountCache, stores, dirty := map[], map[], {};
    }

    // evicted is what the size limit of the cache pushes out.
    method GetAccount(a: Address, evicted: set<Address>) returns (account: Account)
      requires Shape()
      modifies this`accountCache
      ensures Shape() && Value() == old(Value()) && account == OrNew(AccountNow(Value(), a))
    {
      hide J.Lookup, S.Usable, S.AccountStorageDB.Coherent;
      if a in accountCache {
        account := accountCache[a];
      } else {
        account := OrNew(EncodedAccount(a));
        accountCache := accountCache[a := account] - (evicted - {a});
      }
    }

    method SetAccount(a: Address, account: Account, evicted: set<Address>)
      requires Shape() && Writable(Value())
      modifies this`accountCache, this`accounts
      ensures Shape() && Value() == DoSetAccount(old(Value()), a, account)
    {
      hide J.Lookup, S.Usable, S.AccountStorageDB.Coherent, S.AccountStorageDB.Value, Answer;
      ghost var was := accounts;
      accountCache := accountCache[a := account] - (evicted - {a});
      accounts := J.DoWrite(accounts, a, Put(account));
      forall b ensures EncodedAccount(b) == if b == a then Some(account) else Answer(was, b, At(baseAccounts, b)) {
        WriteAnswers(was, a, Put(account), b, At(baseAccounts, b));
      }
    }

    method UpdateAccount(a: Address, nonce: nat, balance: nat, codeHash: Code, evicted: set<Address>)
      requires Shape() && Writable(Value())
      modifies this`accountCache, this`accounts
      ensures Shape()
      ensures Value() == DoSetAccount(old(Value()), a, Copied(old(Value()), a, nonce, balance, codeHash))
    {
      var account := GetAccount(a, evicted);
      SetAccount(a, account.(nonce := nonce, balance := balance, codeHash := codeHash), evicted);
    }

    method SetBalance(a: Address, balance: nat, evicted: set<Address>)
      requires Shape() && Writable(Value())
      modifies this`accountCache, this`accounts
      ensures Shape()
      ensures Value() == DoSetAccount(old(Value()), a, OrNew(AccountNow(old(Value()), a)).(balance := balance))
    {
      var account := GetAccount(a, evicted);
      SetAccount(a, account.(balance := balance), evicted);
    }

    method SetCode(a: Address, code: Code, evicted: set<Address>)
      requires Shape() && Writable(Value())
      modifies this`accountCache, this`accounts, this`codes
      ensures Shape()
      ensures Value() == DoSetAccount(DoStoreCode(old(Value()), code), a, OrNew(AccountNow(old(Value()), a)).(codeHash := code))
    {
      hide J.Lookup, S.Usable, S.AccountStorageDB.Coherent, S.AccountStorageDB.Value, Answer, S.Base;
      var account := GetAccount(a, evicted);
      codes := J.DoWrite(codes, code, Put(code));
      SetAccount(a, account.(codeHash := code), evicted);
    }

    method GetCode(a: Address, evicted: set<Address>) returns (r: Result<Code, Error>)
      requires Shape()
      modifies this`accountCache
      ensures Shape() && Value() == old(Value())
      ensures var hash := OrNew(AccountNow(Value(), a)).codeHash;
              r == if hash == [] then Ok([])
                   else if CodeNow(Value(), hash).Some? then Ok(CodeNow(Value(), hash).value)
                   else Err(MissingBytecode)
    {
      var account := GetAccount(a, evicted);
      if account.codeHash == [] {
        return Ok([]);
      }
      var code := Answer(codes, account.codeHash, At(baseCodes, account.codeHash));
      return if code.Some? then Ok(code.value) else Err(MissingBytecode);
    }

    method MarkWarm(key: AccessKey)
      requires Shape() && Writable(Value())
      modifies this`accessed
      ensures Shape() && Value() == DoMarkWarm(old(Value()), key)
    {
      hide J.Lookup, S.Usable, S.AccountStorageDB.Coherent, S.AccountStorageDB.Value;
      if Answer(accessed, key, None).None? {
        accessed := J.DoWrite(accessed, key, Put(()));
      }
    }

    // r holds the ids that the journals of a new store start with.
    method AddStore(a: Address, root: S.Trie, r: Roots) returns (store: S.AccountStorageDB)
      requires StoresShape()
      modifies `stores
      ensures StoresShape() && fresh(store) && stores == old(stores)[a := store]
      ensures StoreValues() == old(StoreValues())[a := S.Loaded(root, r.locked, r.journal, r.count)]
    {
      hide S.AccountStorageDB.Value, S.AccountStorageDB.Coherent, S.Loaded;
      store := new S.AccountStorageDB(root, a, r.locked, r.journal, r.count);
      stores := stores[a := store];
    }

    method GetAddressStore(a: Address, r: Roots, evicted: set<Address>) returns (store: S.AccountStorageDB)
      requires Shape()
      modifies this`accountCache, this`stores
      ensures Shape() && Value() == DoLoad(old(Value()), a, r)
      ensures a in stores && stores[a] == store && (store in old(Stores()) || fresh(store))
      ensures forall b :: b in old(stores) ==> b in stores && stores[b] == old(stores[b])
      ensures stores.Keys == old(stores.Keys) + {a}
    {
      hide S.AccountStorageDB.Value, S.AccountStorageDB.Coherent, S.Loaded, Answer;
      if a in stores {
        store := stores[a];
      } else {
        var account := GetAccount(a, evicted);
        store := AddStore(a, account.storageRoot, r);
      }
    }

    method GetInStore(a: Address, slot: S.Slot, fromJournal: bool, evictedSlots: set<S.Slot>) returns (v: nat)
      requires StoresShape() && a in stores && a in StoreValues()
      modifies stores[a]
      ensures StoresShape() && StoreValues() == old(StoreValues())
      ensures v == if fromJournal then S.Current(StoreValues()[a], slot) else S.Original(StoreValues()[a], slot)
    {
      hide S.AccountStorageDB.Value, S.AccountStorageDB.Coherent, S.Current, S.Original;
      v := stores[a].Get(slot, fromJournal, evictedSlots);
      assert forall b :: b in stores ==> stores[b].Value() == old(stores[b].Value());
    }

    method GetStorage(a: Address, slot: S.Slot, fromJournal: bool, r: Roots, evicted: set<Address>, evictedSlots: set<S.Slot>)
      returns (v: nat)
      requires Shape()
      modifies this`accountCache, this`stores, Stores()
      ensures Shape() && Value() == DoLoad(old(Value()), a, r)
      ensures v == if fromJournal then SlotNow(Value(), a, slot) else S.Original(Value().stores[a], slot)
    {
      hide Answer, AccountDB.CacheShape, AccountDB.StoresShape, AccountDB.StoreValues, S.Current, S.Original;
      var _ := GetAddressStore(a, r, evicted);
      v := GetInStore(a, slot, fromJournal, evictedSlots);
    }

    method MarkDirty(a: Address)
      requires StoresShape()
      modifies `dirty
      ensures dirty == old(dirty) + {a} && StoresShape() && StoreValues() == old(StoreValues())
    {
      hide S.AccountStorageDB.Value, S.AccountStorageDB.Coherent;
      dirty := dirty + {a};
    }

    method SetInStore(a: Address, slot: S.Slot, value: nat, evictedSlots: set<S.Slot>)
      requires StoresShape() && a in stores && a in StoreValues() && S.Usable(StoreValues()[a])
      modifies stores[a]
      ensures StoresShape() && StoreValues() == old(StoreValues())[a := S.DoSet(old(StoreValues())[a], slot, value)]
    {
      hide S.DoSet, S.AccountStorageDB.Value, S.AccountStorageDB.Coherent, S.Usable, S.Current, S.Sound, S.Frames;
      stores[a].Set(slot, value, evictedSlots);
    }

    method SetStorage(a: Address, slot: S.Slot, value: nat, r: Roots, evicted: set<Address>, evictedSlots: set<S.Slot>)
      requires Shape() && Writable(Value())
      modifies this, Stores()
      ensures Shape() && Value() == DoSetStorage(old(Value()), a, slot, value, r)
    {
      hide S.DoSet, Answer, AccountDB.CacheShape, AccountDB.StoresShape, AccountDB.StoreValues, S.Usable;
      var _ := GetAddressStore(a, r, evicted);
      LoadUsable(old(Value()), a, r);
      MarkDirty(a);
      SetInStore(a, slot, value, evictedSlots);
    }

    // The store object raises if its clear count and its history disagree.
    method DeleteInStore(a: Address, marker: Checkpoint) returns (ok: Result<(), S.Error>)
      requires StoresShape() && a in stores && a in StoreValues() && S.Usable(StoreValues()[a])
      modifies stores[a]
      ensures ok.Ok? <==> S.Count(old(StoreValues())[a].clearCount) == |old(StoreValues())[a].history|
      ensures ok.Ok? ==> StoresShape() && StoreValues() == old(StoreValues())[a := S.DoWipe(old(StoreValues())[a], marker)]
    {
      hide S.DoWipe, S.AccountStorageDB.Coherent, S.Usable, S.Current, S.Count;
      ok := stores[a].Delete(marker);
    }

    // Whether the store of a, loaded if need be, counts its wipes right.
    ghost predicate CountsRight(db: Db, a: Address, r: Roots) {
      var st := DoLoad(db, a, r).stores[a];
      S.Count(st.clearCount) == |st.history|
    }

    method WipeStorage(a: Address, r: Roots, marker: Checkpoint, evicted: set<Address>) returns (ok: Result<(), S.Error>)
      requires Shape() && Writable(Value())
      modifies this, Stores()
      ensures ok.Ok? <==> CountsRight(old(Value()), a, r)
      ensures ok.Ok? ==> Shape() && Value() == DoWipeStorage(old(Value()), a, r, marker)
    {
      hide S.DoWipe, Answer, AccountDB.CacheShape, AccountDB.StoresShape, AccountDB.StoreValues, S.Usable, S.Count;
      var _ := GetAddressStore(a, r, evicted);
      LoadUsable(old(Value()), a, r);
      MarkDirty(a);
      ok := DeleteInStore(a, marker);
    }

    method DeleteAccount(a: Address, r: Roots, marker: Checkpoint, evicted: set<Address>) returns (ok: Result<(), S.Error>)
      requires Shape() && Writable(Value())
      modifies this, Stores()
      ensures ok.Ok? <==> CountsRight(old(Value()), a, r)
      ensures ok.Ok? ==> Shape() && Value() == DoDeleteAccount(old(Value()), a, r, marker)
    {
      hide S.DoWipe, Answer, AccountDB.CacheShape, AccountDB.StoresShape, AccountDB.StoreValues, S.Usable, S.Count, AccountDB.CountsRight, J.DoWrite;
      ok := WipeStorage(a, r, marker, evicted);
      if ok.Ok? {
        DropAccount(a);
      }
    }

    // delete_storage: the account's root is blanked before the store is found.
    method DeleteStorage(a: Address, r: Roots, marker: Checkpoint, evicted: set<Address>) returns (ok: Result<(), S.Error>)
      requires Shape() && Writable(Value())
      modifies this, Stores()
      ensures ok.Ok? ==> Shape() && Value() == DoDeleteStorage(old(Value()), a, r, marker)
    {
      hide S.DoWipe, Answer, AccountDB.CacheShape, AccountDB.StoresShape, AccountDB.StoreValues, S.Usable, AccountDB.CountsRight, J.DoWrite;
      var account := GetAccount(a, evicted);
      SetAccount(a, account.(storageRoot := map[]), evicted);
      StillWritable(old(Value()), a, account.(storageRoot := map[]));
      ok := WipeStorage(a, r, marker, evicted);
    }

    method DropAccount(a: Address)
      requires StoresShape() && CacheShape() && accounts.entries != []
      modifies `accountCache, `accounts
      ensures StoresShape() && CacheShape() && StoreValues() == old(StoreValues())
      ensures accounts == J.DoWrite(old(accounts), a, DeleteWrapped)
    {
      hide S.AccountStorageDB.Value, S.AccountStorageDB.Coherent, J.Lookup, Answer;
      ghost var was := accounts;
      accountCache := accountCache - {a};
      accounts := J.DoWrite(accounts, a, DeleteWrapped);
      forall b ensures EncodedAccount(b) == if b == a then None else Answer(was, b, At(baseAccounts, b)) {
        WriteAnswers(was, a, DeleteWrapped, b, At(baseAccounts, b));
      }
    }

    //
    // Checkpoints, over every dirty store
    //

    method RecordStores(id: Checkpoint)
      requires StoresShape() && dirty <= stores.Keys
      modifies Stores()
      ensures StoresShape()
      ensures StoreValues() == map a | a in old(StoreValues()) ::
                if a in dirty then S.DoRecord(old(StoreValues())[a], id) else old(StoreValues())[a]
    {
      hide S.DoRecord, S.AccountStorageDB.Value, S.AccountStorageDB.Coherent;
      ghost var was := StoreValues();
      var todo := dirty;
      while todo != {}
        invariant todo <= dirty && StoresShape()
        invariant forall a :: a in stores ==>
                    stores[a].Value() == if a in dirty - todo then S.DoRecord(was[a], id) else was[a]
      {
        var a :| a in todo;
        todo := todo - {a};
        stores[a].Record(id);
      }
    }

    method Record(id: Checkpoint)
      requires Shape()
      modifies this, Stores()
      ensures Shape() && Value() == DoRecord(old(Value()), id)
    {
      hide S.DoRecord, J.Lookup, J.DoRecord, AccountDB.StoreValues, AccountDB.StoresShape, S.AccountStorageDB.Value;
      ghost var was := accounts;
      RecordStores(id);
      codes, accounts, accessed := J.DoRecord(codes, id), J.DoRecord(accounts, id), J.DoRecord(accessed, id);
      forall b ensures EncodedAccount(b) == Answer(was, b, At(baseAccounts, b)) {
        RecordAnswers(was, id, b, At(baseAccounts, b));
      }
    }

    // root is the id that a journal of a store starts with when it is reset.
    // The first store that raises ends the loop.
    method DiscardStores(id: Checkpoint, root: Checkpoint) returns (ok: bool)
      requires StoresShape() && dirty <= stores.Keys && StoresUndoable(id)
      modifies Stores()
      ensures ok <==> forall a :: a in dirty ==> S.DoDiscard(old(StoreValues())[a], id, root).Ok?
      ensures ok ==> StoresShape()
      ensures ok ==>
                StoreValues() == map a | a in old(StoreValues()) ::
                  if a in dirty then S.DoDiscard(old(StoreValues())[a], id, root).value else old(StoreValues())[a]
    {
      hide S.DoDiscard, S.AccountStorageDB.Coherent, S.Base, S.TrieGet;
      ghost var was := StoreValues();
      var todo := dirty;
      while todo != {}
        invariant todo <= dirty && StoresShape()
        invariant forall a :: a in dirty - todo ==> S.DoDiscard(was[a], id, root).Ok?
        invariant forall a :: a in stores ==>
                    stores[a].Value() == if a in dirty - todo then S.DoDiscard(was[a], id, root).value else was[a]
      {
        var a :| a in todo;
        assert a in was && stores[a].Value() == was[a];
        todo := todo - {a};
        var undone := stores[a].Discard(id, root);
        if undone.Err? {
          return false;
        }
      }
      return true;
    }

    // A store that knows the checkpoint id has it in both of its journals.
    ghost predicate StoresUndoable(id: Checkpoint)
      reads `stores, `dirty, Stores()
    {
      forall a :: a in StoreValues() && a in dirty && id in StoreValues()[a].journal.stack ==>
        id in StoreValues()[a].clearCount.stack
    }

    method DiscardJournals(id: Checkpoint)
      requires StoresShape() && id in codes.stack && id in accounts.stack && id in accessed.stack
      modifies `codes, `accounts, `accessed, `accountCache
      ensures codes == J.DoDiscard(old(codes), id) && accounts == J.DoDiscard(old(accounts), id)
      ensures accessed == J.DoDiscard(old(accessed), id) && accountCache == map[]
      ensures StoresShape() && StoreValues() == old(StoreValues())
    {
      hide S.AccountStorageDB.Value, S.AccountStorageDB.Coherent, J.DoDiscard;
      codes, accounts, accessed := J.DoDiscard(codes, id), J.DoDiscard(accounts, id), J.DoDiscard(accessed, id);
      accountCache := map[];
    }

    method Discard(id: Checkpoint, root: Checkpoint) returns (r: Result<(), Error>)
      requires Shape() && Undoable(Value(), id)
      modifies this, Stores()
      ensures r.Ok? <==> DiscardSucceeds(old(Value()), id, root)
      ensures r.Ok? ==> Shape() && Value() == DoDiscard(old(Value()), id, root)
    {
      hide S.DoDiscard, J.Lookup, J.DoDiscard, AccountDB.StoreValues, AccountDB.StoresShape;
      DiscardJournals(id);
      var ok := DiscardStores(id, root);
      return if ok then Ok(()) else Err(IrrevertibleWipes);
    }

    method CommitStores(id: Checkpoint)
      requires StoresShape() && dirty <= stores.Keys && StoresUndoable(id)
      modifies Stores()
      ensures StoresShape()
      ensures StoreValues() == map a | a in old(StoreValues()) ::
                if a in dirty then S.DoCommit(old(StoreValues())[a], id) else old(StoreValues())[a]
    {
      hide S.DoCommit, S.AccountStorageDB.Coherent, S.Base, S.TrieGet, S.Current;
      ghost var was := StoreValues();
      var todo := dirty;
      while todo != {}
        invariant todo <= dirty && StoresShape()
        invariant forall a :: a in stores ==>
                    stores[a].Value() == if a in dirty - todo then S.DoCommit(was[a], id) else was[a]
      {
        var a :| a in todo;
        assert a in was && stores[a].Value() == was[a];
        todo := todo - {a};
        stores[a].Commit(id);
      }
    }

    method Commit(id: Checkpoint)
      requires Shape() && Undoable(Value(), id)
      modifies this, Stores()
      ensures Shape() && Value() == DoCommit(old(Value()), id)
    {
      hide S.DoCommit, J.Lookup, J.DoCommit, AccountDB.StoreValues, AccountDB.StoresShape, S.AccountStorageDB.Value,
        AccountDB.CacheShape;
      CommitStores(id);
      CommitJournals(id);
    }

    method CommitJournals(id: Checkpoint)
      requires id in codes.stack && id in accounts.stack && id in accessed.stack && CacheShape()
      modifies this`codes, this`accounts, this`accessed
      ensures codes == J.DoCommit(old(codes), id) && accounts == J.DoCommit(old(accounts), id)
      ensures accessed == J.DoCommit(old(accessed), id) && CacheShape()
    {
      hide J.DoCommit, J.Lookup;
      ghost var accountsWere := accounts;
      codes, accounts, accessed := J.DoCommit(codes, id), J.DoCommit(accounts, id), J.DoCommit(accessed, id);
      forall b ensures EncodedAccount(b) == Answer(accountsWere, b, At(baseAccounts, b)) {
        CommitAnswers(accountsWere, id, b, At(baseAccounts, b));
      }
    }

    method LockStores(marker: Checkpoint, root: Checkpoint)
      requires StoresShape() && dirty <= stores.Keys
      requires forall a :: a in StoreValues() ==> S.Usable(StoreValues()[a])
      modifies Stores()
      ensures StoresShape()
      ensures StoreValues() == map a | a in old(StoreValues()) ::
                if a in dirty then S.DoLock(old(StoreValues())[a], marker, root) else old(StoreValues())[a]
    {
      hide S.DoLock, S.AccountStorageDB.Value, S.AccountStorageDB.Coherent, S.Usable;
      ghost var was := StoreValues();
      var todo := dirty;
      while todo != {}
        invariant todo <= dirty && StoresShape()
        invariant forall a :: a in stores ==>
                    stores[a].Value() == if a in dirty - todo then S.DoLock(was[a], marker, root) else was[a]
      {
        var a :| a in todo;
        todo := todo - {a};
        assert stores[a].Value() == was[a] && a in was && S.Usable(was[a]);
        stores[a].LockChanges(marker, root);
      }
    }

    method LockChanges(marker: Checkpoint, root: Checkpoint)
      requires Shape() && Writable(Value())
      modifies this, Stores()
      ensures Shape() && Value() == DoLockChanges(old(Value()), marker, root)
    {
      hide S.DoLock, J.Lookup, AccountDB.StoreValues, AccountDB.StoresShape, S.AccountStorageDB.Value, S.Usable;
      LockStores(marker, root);
      accessed := J.Initial(root);
    }
  }

  lemma CommitAnswers<K, V>(j: J.State<K, V>, id: Checkpoint, x: K, below: Option<V>)
    requires id in j.stack
    ensures Answer(J.DoCommit(j, id), x, below) == Answer(j, x, below)
  {}

  lemma StillWritable(db: Db, a: Address, account: Account)
    requires Writable(db)
    ensures Writable(DoSetAccount(db, a, account))
  {}

  lemma LoadUsable(db: Db, a: Address, r: Roots)
    requires Writable(db)
    ensures S.Usable(DoLoad(db, a, r).stores[a])
  {}

  lemma RecordAnswers<K, V>(j: J.State<K, V>, id: Checkpoint, x: K, below: Option<V>)
    ensures Answer(J.DoRecord(j, id), x, below) == Answer(j, x, below)
  {
    assert Front(J.DoRecord(j, id).entries) == j.entries;
  }
}
