// veda/db/account.py: what a caller reads after each write, whatever it reads:
// an account, a slot, a code or an access mark.
module AccountReads {
  import opened Wrappers
  import opened Snapshots
  import J = Journaling
  import opened Storage
  import opened Accounts

  lemma LoadedReads(t: Trie, r: Roots, k: Slot)
    ensures var st := Loaded(t, r.locked, r.journal, r.count);
            Usable(st) && Current(st, k) == TrieGet(t, k)
  {
    InitialNow<Slot, nat>(r.locked);
    InitialNow<Slot, nat>(r.journal);
  }

  // Loading a store, as every read of storage may do, is not seen.
  lemma LoadReads(db: Db, a: Address, r: Roots, p: Probe)
    ensures SeenNow(DoLoad(db, a, r), p) == SeenNow(db, p)
    ensures Writable(db) ==> Writable(DoLoad(db, a, r))
  {
    hide Current, Usable, TrieGet, Loaded, J.Lookup;
    LoadedReads(OrNew(AccountNow(db, a)).storageRoot, r, p.k);
  }

  lemma SetStorageReads(db: Db, a: Address, k: Slot, v: nat, r: Roots, p: Probe)
    requires Writable(db)
    ensures SeenNow(DoSetStorage(db, a, k, v, r), p) ==
            SeenNow(db, p).(slot := if p.a == a && p.k == k then v else SlotNow(db, p.a, p.k))
  {
    hide Current, Usable, DoSet, DoLoad, J.Lookup;
    LoadReads(db, a, r, p);
    LoadStores(db, a, r);
    SetCurrent(DoLoad(db, a, r).stores[a], k, v, p.k);
  }

  lemma LoadStores(db: Db, a: Address, r: Roots)
    ensures a in DoLoad(db, a, r).stores
  {}

  // set_balance, set_nonce, delete_code, touch_account and the root of
  // delete_storage: one account is replaced.  Its slots follow its root as long
  // as its store is not loaded.
  lemma SetAccountReads(db: Db, a: Address, account: Account, p: Probe)
    requires Writable(db)
    ensures SeenNow(DoSetAccount(db, a, account), p) ==
            SeenNow(db, p).(
              account := if p.a == a then Some(account) else AccountNow(db, p.a),
              slot := if p.a == a && a !in db.stores then TrieGet(account.storageRoot, p.k) else SlotNow(db, p.a, p.k))
  {
    hide Current, TrieGet, J.DoWrite, Answer, Usable;
    WriteAnswers(db.accounts, a, Put(account), p.a, At(db.baseAccounts, p.a));
  }

  // Replacing nonce, balance and code hash leaves the storage as it is.
  lemma UpdateAccountReads(db: Db, a: Address, nonce: nat, balance: nat, codeHash: Code, p: Probe)
    requires Writable(db)
    ensures var root := OrNew(AccountNow(db, a)).storageRoot;
            SeenNow(DoSetAccount(db, a, Copied(db, a, nonce, balance, codeHash)), p) ==
            SeenNow(db, p).(
              account := if p.a == a then Some(Account(nonce, balance, root, codeHash)) else AccountNow(db, p.a))
  {
    hide Current, TrieGet, J.DoWrite, Answer, Usable;
    SetAccountReads(db, a, Copied(db, a, nonce, balance, codeHash), p);
  }

  lemma StoreCodeReads(db: Db, code: Code, p: Probe)
    requires Writable(db)
    ensures SeenNow(DoStoreCode(db, code), p) ==
            SeenNow(db, p).(code := if p.hash == code then Some(code) else CodeNow(db, p.hash))
  {
    hide Current, TrieGet, J.DoWrite, Answer, Usable;
    WriteAnswers(db.codes, code, Put(code), p.hash, At(db.baseCodes, p.hash));
  }

  lemma MarkWarmReads(db: Db, key: AccessKey, p: Probe)
    requires Writable(db)
    ensures SeenNow(DoMarkWarm(db, key), p) == SeenNow(db, p).(warm := p.key == key || WarmNow(db, p.key))
  {
    hide Current, TrieGet, J.DoWrite, Answer, Usable;
    WriteAnswers(db.accessed, key, Put(()), p.key, None);
  }

  lemma WipeStorageReads(db: Db, a: Address, r: Roots, marker: Checkpoint, p: Probe)
    requires Writable(db)
    ensures Writable(DoWipeStorage(db, a, r, marker))
    ensures SeenNow(DoWipeStorage(db, a, r, marker), p) ==
            SeenNow(db, p).(slot := if p.a == a then 0 else SlotNow(db, p.a, p.k))
  {
    hide Current, DoWipe, DoLoad, J.Lookup;
    LoadReads(db, a, r, p);
    LoadStores(db, a, r);
    WipeUsable(DoLoad(db, a, r).stores[a], marker);
    hide Usable;
    WipeCurrent(DoLoad(db, a, r).stores[a], marker, p.k);
  }

  lemma WipeUsable(st: Store, marker: Checkpoint)
    requires Usable(st)
    ensures Usable(DoWipe(st, marker))
  {}

  // A deleted account is gone with all its storage, and nothing else changes.
  lemma DeleteAccountReads(db: Db, a: Address, r: Roots, marker: Checkpoint, p: Probe)
    requires Writable(db)
    ensures SeenNow(DoDeleteAccount(db, a, r, marker), p) ==
            SeenNow(db, p).(
              account := if p.a == a then None else AccountNow(db, p.a),
              slot := if p.a == a then 0 else SlotNow(db, p.a, p.k))
  {
    hide Current, TrieGet, J.DoWrite, Answer, DoWipeStorage, Usable;
    WipeStorageReads(db, a, r, marker, p);
    WipedStores(db, a, r, marker);
    var w := DoWipeStorage(db, a, r, marker);
    WriteAnswers(w.accounts, a, DeleteWrapped, p.a, At(w.baseAccounts, p.a));
  }

  lemma WipedStores(db: Db, a: Address, r: Roots, marker: Checkpoint)
    requires Writable(db)
    ensures var w := DoWipeStorage(db, a, r, marker);
            a in w.stores && w == db.(stores := w.stores, dirty := w.dirty)
  {}

  // Deleting the storage blanks root and slots of the account, and keeps its
  // other fields; an account that was not there is there afterwards.
  lemma DeleteStorageReads(db: Db, a: Address, r: Roots, marker: Checkpoint, p: Probe)
    requires Writable(db)
    ensures SeenNow(DoDeleteStorage(db, a, r, marker), p) ==
            SeenNow(db, p).(
              account := if p.a == a then Some(OrNew(AccountNow(db, a)).(storageRoot := map[])) else AccountNow(db, p.a),
              slot := if p.a == a then 0 else SlotNow(db, p.a, p.k))
  {
    hide Current, TrieGet, Answer, DoWipeStorage, DoSetAccount, Usable;
    var account := OrNew(AccountNow(db, a)).(storageRoot := map[]);
    SetAccountReads(db, a, account, p);
    SetAccountWritable(db, a, account);
    WipeStorageReads(DoSetAccount(db, a, account), a, r, marker, p);
  }

  lemma SetAccountWritable(db: Db, a: Address, account: Account)
    requires Writable(db)
    ensures Writable(DoSetAccount(db, a, account))
  {
    hide Usable;
  }

  lemma CodeWritable(db: Db, code: Code)
    requires Writable(db)
    ensures Writable(DoStoreCode(db, code))
  {
    hide Usable;
  }

  // set_code: the code is found under the hash that the account then has.
  lemma SetCodeReads(db: Db, a: Address, code: Code)
    requires Writable(db)
    ensures Writable(DoStoreCode(db, code))
    ensures var t := DoSetAccount(DoStoreCode(db, code), a, OrNew(AccountNow(db, a)).(codeHash := code));
            AccountNow(t, a).Some? && CodeNow(t, AccountNow(t, a).value.codeHash) == Some(code)
  {
    CodeWritable(db, code);
    hide Current, TrieGet, Answer, J.DoWrite, Usable, SlotNow;
    var p := Probe(a, 0, code, AddressKey(a));
    StoreCodeReads(db, code, p);
    SetAccountReads(DoStoreCode(db, code), a, OrNew(AccountNow(db, a)).(codeHash := code), p);
  }
}
