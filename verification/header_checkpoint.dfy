// A checkpoint persisted above every known header, and what the runs after it
// keep; and what dropping a streak of canonical headers does to the record.
module HeaderCheckpoints {
  import opened Wrappers
  import opened ChainGapRecords
  import opened HeaderChains
  import opened HeaderSafety
  import opened HeaderRuns

  // With a known parent the chain closes; else a gap stays below the checkpoint,
  // and the canonical header just below it, if there is one, goes.
  function GapBelow(db: Db, cp: Header): Shape {
    var h := Height(db);
    Shape(
      if cp.parent in db.headers then cp.number
      else if cp.number == h + 1 && h >= 0 then h
      else if h >= 0 then h + 1 else 0,
      cp.number)
  }

  ghost predicate AboveAll(u: iset<Header>, genesis: Header, db: Db, cp: Header) {
    && Settled(u, genesis, db, Shape(0, 0)) && db.head.Some? && cp in u && cp.number > Height(db) && cp.number >= 2
  }

  // The database with the checkpoint stored, before the head moves.
  function WithCheckpoint(db: Db, cp: Header): Db {
    db.(headers := db.headers[cp.hash := cp], scores := db.scores[cp.hash := Tri(cp.number)],
        checkpoints := [cp.hash])
  }

  lemma CheckpointNew(u: iset<Header>, genesis: Header, db: Db, cp: Header)
    requires AboveAll(u, genesis, db, cp)
    ensures Universe(u, genesis) && Within(u, db) && Scored(db) && Canonical(genesis, db, Shape(0, 0))
    ensures cp.difficulty == 0 && cp.hash !in db.headers && cp.parent != GENESIS_PARENT_HASH
    ensures db.checkpoints == [] && db.head.Some? && db.head.value in db.headers && Height(db) >= 0
    ensures db.gaps == GapsOf(Shape(0, 0), Height(db) + 1) && 0 in db.canon && db.canon[0] == genesis.hash
    ensures Rooted(genesis, db, Shape(0, 0), Height(db)) && NoDifficulty(u)
  {
    assert forall x :: x in db.headers ==> db.headers[x].number <= Height(db);
    assert forall x :: x in db.headers ==> db.headers[x] in u && db.headers[x].hash == x;
  }

  lemma OwnParent(u: iset<Header>, genesis: Header, cp: Header)
    requires Universe(u, genesis) && cp in u
    ensures cp.parent != cp.hash
  {}

  lemma CheckpointRecord(db: Db, cp: Header)
    requires db.checkpoints == [] && cp.difficulty == 0
    ensures WithHeader(db, cp, Tri(cp.number) - cp.number).(checkpoints := db.checkpoints + [cp.hash])
            == WithCheckpoint(db, cp)
  {
    hide Tri;
    assert [] + [cp.hash] == [cp.hash];
  }

  lemma CheckpointScored(db: Db, cp: Header)
    requires Scored(db)
    ensures Scored(WithCheckpoint(db, cp))
  {}

  lemma CheckpointStored(u: iset<Header>, genesis: Header, db: Db, cp: Header)
    requires AboveAll(u, genesis, db, cp)
    ensures var d := WithCheckpoint(db, cp);
            && WithHeader(db, cp, Tri(cp.number) - cp.number).(checkpoints := db.checkpoints + [cp.hash]) == d
            && cp.difficulty == 0 && cp.hash !in db.headers && cp.parent != GENESIS_PARENT_HASH && cp.parent != cp.hash
            && Universe(u, genesis) && Within(u, db) && Within(u, d) && Canonical(genesis, d, Shape(0, 0)) && Scored(d)
            && Height(d) == Height(db)
            && Extends(db, d)
            && CanonKnown(db) && CanonKnown(d)
  {
    hide AboveAll, Universe, Within, NoDifficulty, Rooted, Scored, Canonical, Tri, Height, GapsOf, CanonKnown, Extends,
      WithHeader;
    var d := WithCheckpoint(db, cp);
    CheckpointNew(u, genesis, db, cp);
    assert cp in u by {
      AboveAllIn(u, genesis, db, cp);
    }
    OwnParent(u, genesis, cp);
    CheckpointRecord(db, cp);
    CheckpointScored(db, cp);
    HeaderKept(u, genesis, db, cp, d);
    HeaderAddedCanonical(genesis, db, Shape(0, 0), d);
    CanonicalKnown(genesis, db);
    CanonicalKnown(genesis, d);
  }

  lemma CanonicalKnown(genesis: Header, db: Db)
    requires Canonical(genesis, db, Shape(0, 0))
    ensures CanonKnown(db) && Linked(db)
  {}

  lemma AboveAllIn(u: iset<Header>, genesis: Header, db: Db, cp: Header)
    requires AboveAll(u, genesis, db, cp)
    ensures cp in u && cp.number > Height(db) >= 0 && cp.number >= 2
  {}

  lemma CheckpointParent(u: iset<Header>, genesis: Header, db: Db, cp: Header)
    requires AboveAll(u, genesis, db, cp) && cp.parent in db.headers
    ensures cp.number == Height(db) + 1
    ensures Rooted(genesis, WithCheckpoint(db, cp), Shape(0, 0), cp.number)
  {
    assert db.headers[cp.parent] in u && db.headers[cp.parent].hash == cp.parent;
    CheckpointStored(u, genesis, db, cp);
    HeaderAddedRooted(u, genesis, db, Shape(0, 0), Height(db), cp, WithCheckpoint(db, cp));
  }

  // Where the new chain of the checkpoint starts.
  lemma CheckpointChain(u: iset<Header>, genesis: Header, db: Db, cp: Header, chain: seq<Header>, base: nat)
    requires AboveAll(u, genesis, db, cp)
    requires CanonKnown(WithCheckpoint(db, cp)) && Within(u, WithCheckpoint(db, cp))
    requires NewChain(WithCheckpoint(db, cp), cp, chain, base)
    requires chain == Reverse(NewAncestors(u, genesis, WithCheckpoint(db, cp), cp))
    ensures Universe(u, genesis)
    ensures cp.parent !in db.headers ==> base == cp.number && chain == [cp]
    ensures cp.parent in db.headers ==>
              && 0 < base <= cp.number && base - 1 in db.canon && db.canon[base - 1] == chain[0].parent
              && cp.number == Height(db) + 1
  {
    var d := WithCheckpoint(db, cp);
    CheckpointStored(u, genesis, db, cp);
    if cp.parent in db.headers {
      CheckpointParent(u, genesis, db, cp);
      ChainBottom(u, genesis, d, Shape(0, 0), cp.number, cp, chain, base);
    } else {
      UnfoldNewAncestors(u, genesis, d, cp);
      ReverseCons(cp, []);
      assert [cp] + [] == [cp] && Reverse([]) == [];
      assert chain == [cp];
    }
  }

  // Canonical neighbours are linked, except at number n unless closed.
  ghost predicate LinkedBut(db: Db, n: nat, closed: bool)
    requires CanonKnown(db)
  {
    forall k: nat, m: nat :: k in db.canon && m in db.canon && m == k + 1 && (m != n || closed) ==>
      db.headers[db.canon[m]].parent == db.canon[k]
  }

  // The lookup and the head once the checkpoint is the head, before the gaps.
  ghost predicate HeadAtCheckpoint(genesis: Header, db: Db, cp: Header, d: Db) {
    && d == WithCheckpoint(db, cp).(canon := d.canon, head := Some(cp.hash))
    && (forall n: nat :: n in d.canon <==> n <= Height(db) || n == cp.number)
    && CanonKnown(d) && LinkedBut(d, cp.number, cp.parent in db.headers)
    && d.canon[cp.number] == cp.hash && 0 in d.canon && d.canon[0] == genesis.hash
  }

  lemma CanonicalAt(genesis: Header, db: Db, n: nat)
    requires Canonical(genesis, db, Shape(0, 0))
    ensures n in db.canon <==> n <= Height(db)
    ensures n in db.canon ==> db.canon[n] in db.headers && db.headers[db.canon[n]].number == n
    ensures n in db.canon && n + 1 in db.canon ==>
              db.canon[n + 1] in db.headers && db.headers[db.canon[n + 1]].parent == db.canon[n]
  {}

  lemma MakeCanonKnown(db: Db)
    requires forall n :: n in db.canon ==> db.canon[n] in db.headers && db.headers[db.canon[n]].number == n
    ensures CanonKnown(db)
  {}

  lemma MakeLinkedBut(db: Db, n: nat, closed: bool)
    requires CanonKnown(db)
    requires forall k: nat, m: nat :: k in db.canon && m in db.canon && m == k + 1 && (m != n || closed) ==>
               db.canon[m] in db.headers && db.headers[db.canon[m]].parent == db.canon[k]
    ensures LinkedBut(db, n, closed)
  {}

  lemma CheckpointWritten(u: iset<Header>, genesis: Header, db: Db, cp: Header, chain: seq<Header>, base: nat, d: Db)
    requires AboveAll(u, genesis, db, cp)
    requires NewChain(WithCheckpoint(db, cp), cp, chain, base) && Reaches(db.canon, d.canon, chain, base)
    requires cp.parent !in db.headers ==> base == cp.number
    requires cp.parent in db.headers ==>
               0 < base <= cp.number && base - 1 in db.canon && db.canon[base - 1] == chain[0].parent
    requires cp.parent in db.headers ==> cp.number == Height(db) + 1
    requires d == WithCheckpoint(db, cp).(canon := d.canon, head := Some(cp.hash))
    ensures HeadAtCheckpoint(genesis, db, cp, d)
  {
    hide AboveAll, Universe, Within, NoDifficulty, Rooted, Scored, NewChain, Reaches, GapsOf, IsCanonical, Height,
      Tri, Canonical, CanonKnown, LinkedBut, WithCheckpoint, WithHeader, Extends;
    CheckpointStored(u, genesis, db, cp);
    CheckpointNew(u, genesis, db, cp);
    AboveAllIn(u, genesis, db, cp);
    KeysWritten(genesis, db, cp, chain, base, d);
    LinksWritten(genesis, db, cp, chain, base, d);
    EntryWritten(genesis, db, cp, chain, base, d, 0);
    EntryWritten(genesis, db, cp, chain, base, d, cp.number);
  }

  lemma KeysWritten(genesis: Header, db: Db, cp: Header, chain: seq<Header>, base: nat, d: Db)
    requires var e := WithCheckpoint(db, cp); Canonical(genesis, e, Shape(0, 0)) && NewChain(e, cp, chain, base)
    requires Reaches(db.canon, d.canon, chain, base) && Height(WithCheckpoint(db, cp)) == Height(db)
    requires d == WithCheckpoint(db, cp).(canon := d.canon, head := Some(cp.hash))
    requires base == cp.number || cp.number == Height(db) + 1
    ensures CanonKnown(d) && forall n: nat :: n in d.canon <==> n <= Height(db) || n == cp.number
  {
    hide NewChain, Reaches, IsCanonical, Height, Canonical, Tri, WithCheckpoint, CanonKnown;
    forall n: nat
      ensures n in d.canon <==> n <= Height(db) || n == cp.number
      ensures n in d.canon ==> d.canon[n] in d.headers && d.headers[d.canon[n]].number == n
    {
      EntryWritten(genesis, db, cp, chain, base, d, n);
    }
    MakeCanonKnown(d);
  }

  lemma LinksWritten(genesis: Header, db: Db, cp: Header, chain: seq<Header>, base: nat, d: Db)
    requires var e := WithCheckpoint(db, cp); Canonical(genesis, e, Shape(0, 0)) && NewChain(e, cp, chain, base)
    requires Reaches(db.canon, d.canon, chain, base) && CanonKnown(d) && Height(db) < cp.number
    requires d == WithCheckpoint(db, cp).(canon := d.canon, head := Some(cp.hash))
    requires forall n: nat :: n in d.canon <==> n <= Height(db) || n == cp.number
    requires cp.parent in db.headers ==>
               0 < base <= cp.number && base - 1 in db.canon && db.canon[base - 1] == chain[0].parent
    requires cp.parent !in db.headers ==> base == cp.number
    ensures LinkedBut(d, cp.number, cp.parent in db.headers)
  {
    hide NewChain, Reaches, IsCanonical, Height, Canonical, Tri, WithCheckpoint, CanonKnown, LinkedBut;
    forall m: nat, n: nat
      | m in d.canon && n in d.canon && n == m + 1 && (n != cp.number || cp.parent in db.headers)
      ensures d.canon[n] in d.headers && d.headers[d.canon[n]].parent == d.canon[m]
    {
      LinkWritten(genesis, db, cp, chain, base, d, m);
    }
    MakeLinkedBut(d, cp.number, cp.parent in db.headers);
  }

  lemma EntryWritten(genesis: Header, db: Db, cp: Header, chain: seq<Header>, base: nat, d: Db, n: nat)
    requires var e := WithCheckpoint(db, cp); Canonical(genesis, e, Shape(0, 0)) && NewChain(e, cp, chain, base)
    requires Reaches(db.canon, d.canon, chain, base) && Height(WithCheckpoint(db, cp)) == Height(db)
    requires d == WithCheckpoint(db, cp).(canon := d.canon, head := Some(cp.hash))
    requires base == cp.number || cp.number == Height(db) + 1
    ensures n in d.canon <==> n <= Height(db) || n == cp.number
    ensures n in d.canon ==> d.canon[n] in d.headers && d.headers[d.canon[n]].number == n
    ensures n < base && n in d.canon ==> n in db.canon && d.canon[n] == db.canon[n]
    ensures n == cp.number ==> n in d.canon && d.canon[n] == cp.hash
  {
    hide NewChain, Reaches, IsCanonical, Height, Canonical, Tri;
    var e := WithCheckpoint(db, cp);
    ChainEnds(e, cp, chain, base);
    ReachesAt(db.canon, d.canon, chain, base, n);
    CanonicalAt(genesis, e, n);
    if base <= n <= cp.number {
      OnChain(e, cp, chain, base, n);
    }
  }

  lemma LinkWritten(genesis: Header, db: Db, cp: Header, chain: seq<Header>, base: nat, d: Db, m: nat)
    requires var e := WithCheckpoint(db, cp); Canonical(genesis, e, Shape(0, 0)) && NewChain(e, cp, chain, base)
    requires Reaches(db.canon, d.canon, chain, base)
    requires d == WithCheckpoint(db, cp).(canon := d.canon, head := Some(cp.hash))
    requires m in d.canon && m + 1 in d.canon && (m + 1 != cp.number || cp.parent in db.headers)
    requires m < cp.number
    requires cp.parent in db.headers ==>
               0 < base <= cp.number && base - 1 in db.canon && db.canon[base - 1] == chain[0].parent
    requires cp.parent !in db.headers ==> base == cp.number
    ensures d.canon[m + 1] in d.headers && d.headers[d.canon[m + 1]].parent == d.canon[m]
  {
    hide NewChain, Reaches, IsCanonical, Height, Canonical, Tri;
    var e, n := WithCheckpoint(db, cp), m + 1;
    ChainEnds(e, cp, chain, base);
    ReachesAt(db.canon, d.canon, chain, base, m);
    ReachesAt(db.canon, d.canon, chain, base, n);
    CanonicalAt(genesis, e, m);
    if base <= n <= cp.number {
      OnChain(e, cp, chain, base, n);
    }
    if base <= m <= cp.number {
      OnChain(e, cp, chain, base, m);
    }
  }

  // The head moves to the checkpoint without being refused.
  lemma HeadMovesToCheckpoint(u: iset<Header>, genesis: Header, db: Db, cp: Header)
    requires AboveAll(u, genesis, db, cp)
    ensures Universe(u, genesis) && Within(u, WithCheckpoint(db, cp))
    ensures var r := SetAsHead(u, genesis, WithCheckpoint(db, cp), cp);
            r.Ok? && HeadAtCheckpoint(genesis, db, cp, r.value.db)
  {
    hide AboveAll, Universe, Within, NoDifficulty, Rooted, Scored, Linked, NewChain, Reaches, GapsOf, HeadAtCheckpoint,
      Canonicalize, Height, Tri;
    CheckpointStored(u, genesis, db, cp);
    AboveAllIn(u, genesis, db, cp);
    if db.head == Some(cp.parent) {
      ExtendsToCheckpoint(u, genesis, db, cp);
    } else {
      SwitchesToCheckpoint(u, genesis, db, cp);
    }
  }

  lemma ExtendsToCheckpoint(u: iset<Header>, genesis: Header, db: Db, cp: Header)
    requires AboveAll(u, genesis, db, cp) && db.head == Some(cp.parent)
    ensures var e := WithCheckpoint(db, cp);
            HeadAtCheckpoint(genesis, db, cp, e.(canon := e.canon[cp.number := cp.hash], head := Some(cp.hash)))
  {
    hide AboveAll, Universe, Within, NoDifficulty, Rooted, Scored, Linked, NewChain, Reaches, GapsOf, HeadAtCheckpoint, Tri;
    var e := WithCheckpoint(db, cp);
    CheckpointStored(u, genesis, db, cp);
    CheckpointNew(u, genesis, db, cp);
    AboveAllIn(u, genesis, db, cp);
    CheckpointParent(u, genesis, db, cp);
    OneLink(u, genesis, e, cp, Height(db));
    CheckpointWritten(u, genesis, db, cp, [cp], cp.number, e.(canon := e.canon[cp.number := cp.hash], head := Some(cp.hash)));
  }

  lemma SwitchesToCheckpoint(u: iset<Header>, genesis: Header, db: Db, cp: Header)
    requires AboveAll(u, genesis, db, cp) && Universe(u, genesis) && Within(u, WithCheckpoint(db, cp)) && cp in u
    ensures var r := Canonicalize(u, genesis, WithCheckpoint(db, cp), cp);
            r.Ok? && HeadAtCheckpoint(genesis, db, cp, r.value.db.(head := Some(cp.hash)))
  {
    hide AboveAll, Universe, Within, NoDifficulty, Rooted, Scored, Linked, NewChain, Reaches, GapsOf, HeadAtCheckpoint,
      AddLookups, NewAncestors, Reverse, Canonicalize, CheckpointedIn, CanonicalRange, Tri, Canonical, CanonKnown, Height,
      IsCanonical, WithHeader, DropOrphans, Extends, Outcome;
    var e := WithCheckpoint(db, cp);
    CheckpointStored(u, genesis, db, cp);
    CheckpointNew(u, genesis, db, cp);
    AboveAllIn(u, genesis, db, cp);
    CanonicalAt(genesis, e, cp.number);
    CanonicalAt(genesis, e, cp.number + 1);
    NotThere(e, cp);
    var chain, base := CanonicalizeChain(u, genesis, e, cp);
    CheckpointChain(u, genesis, db, cp, chain, base);
    hide WithCheckpoint;
    NotYetCanonical(db, cp, base);
    OutcomeWritten(genesis, e, cp, chain, base);
    ReachesAt(e.canon, AddLookups(e.canon, chain), chain, base, cp.number + 1);
    CheckpointWritten(u, genesis, db, cp, chain, base, e.(canon := AddLookups(e.canon, chain), head := Some(cp.hash)));
  }

  lemma OutcomeWritten(genesis: Header, e: Db, cp: Header, chain: seq<Header>, base: nat)
    requires NewChain(e, cp, chain, base) && !CheckpointedIn(e, base, cp.number + 1) && cp.number + 1 !in e.canon
    requires Reaches(e.canon, AddLookups(e.canon, chain), chain, base)
    ensures Outcome(e, cp, chain, base) ==
            Ok(Switch(e.(canon := AddLookups(e.canon, chain)), chain, CanonicalRange(e, base, cp.number + 1)))
  {
    hide CheckpointedIn, AddLookups, NewChain, Reaches, CanonicalRange;
    ChainEnds(e, cp, chain, base);
    ReachesAt(e.canon, AddLookups(e.canon, chain), chain, base, cp.number + 1);
  }

  lemma NotThere(db: Db, h: Header)
    requires h.number !in db.canon
    ensures !IsCanonical(db, h)
  {}

  lemma NotYetCanonical(db: Db, cp: Header, base: nat)
    requires CanonKnown(db) && cp.hash !in db.headers
    ensures !CheckpointedIn(WithCheckpoint(db, cp), base, cp.number + 1)
  {}

  // The gaps after filling the number of the checkpoint, and after reopening
  // the one below it.
  lemma CheckpointFill(h: nat, n: nat)
    requires n > h
    ensures FillGap(n, GapsOf(Shape(0, 0), h + 1)).Ok?
    ensures var (change, gaps) := FillGap(n, GapsOf(Shape(0, 0), h + 1)).value;
            change != NoChange && gaps == GapsOf(Shape(h + 1, n), n + 1)
  {
    assert [] + [Range(h + 1, n - 1)] == [Range(h + 1, n - 1)];
  }

  lemma ReopenBelow(h: nat)
    ensures ReopenGap(h, GapsOf(Shape(h + 1, h + 1), h + 2)) == Ok(GapsOf(Shape(h, h + 1), h + 2))
  {
    hide ReopenGap, Held;
    var g, goal := ChainGaps([], h + 2), ChainGaps([Range(h, h)], h + 2);
    ReopenGapReopens(h, g);
    forall m: nat ensures Missing(goal, m) <==> Missing(g, m) || m == h {
      HeldOne(Range(h, h), m);
      NoneHeld(m);
    }
    MissingDeterminesGaps(ReopenGap(h, g).value, goal);
  }

  lemma NoneHeld(m: nat)
    ensures !Held([], m)
  {}

  // Persisting the checkpoint succeeds and leaves one gap at most, below it.
  lemma CheckpointPersists(u: iset<Header>, genesis: Header, db: Db, cp: Header)
    requires AboveAll(u, genesis, db, cp)
    ensures Universe(u, genesis) && Within(u, db)
    ensures var r := PersistCheckpointHeader(u, genesis, db, cp, Tri(cp.number));
            && r.Ok? && Settled(u, genesis, r.value, GapBelow(db, cp))
            && r.value.head == Some(cp.hash) && cp.number in r.value.canon && r.value.canon[cp.number] == cp.hash
  {
    hide AboveAll, Universe, Within, NoDifficulty, Rooted, Scored, Canonical, SetAsHead, FillGap, ReopenGap, Settled,
      GapBelow, Tri, PersistCheckpointHeader, CanonKnown, LinkedBut, WithCheckpoint, WithHeader, GapsOf, Extends,
      HeadAtCheckpoint, Trimmed;
    CheckpointStored(u, genesis, db, cp);
    CheckpointNew(u, genesis, db, cp);
    AboveAllIn(u, genesis, db, cp);
    HeadMovesToCheckpoint(u, genesis, db, cp);
    var d := SetAsHead(u, genesis, WithCheckpoint(db, cp), cp).value.db;
    CheckpointFill(Height(db), cp.number);
    ReopenBelow(Height(db));
    CheckpointUnfolds(u, genesis, db, cp, d, FillGap(cp.number, db.gaps).value.1);
    CheckpointSettles(u, genesis, db, cp, d);
    TrimmedHead(genesis, db, cp, d);
  }

  lemma TrimmedHead(genesis: Header, db: Db, cp: Header, d: Db)
    requires HeadAtCheckpoint(genesis, db, cp, d)
    ensures var f := Trimmed(db, cp, d);
            && f.head == Some(cp.hash) && cp.number in f.canon && f.canon[cp.number] == cp.hash
            && f.headers == WithCheckpoint(db, cp).headers && f.scores == WithCheckpoint(db, cp).scores
            && cp.hash in f.headers && f.headers[cp.hash] == cp && f.checkpoints == [cp.hash]
            && f.gaps == GapsOf(GapBelow(db, cp), cp.number + 1)
  {}

  // The final state: the lookup below the checkpoint trimmed when its true
  // parent is not known.
  function Trimmed(db: Db, cp: Header, d: Db): Db {
    var e :=
      if cp.number == Height(db) + 1 && cp.parent !in db.headers then d.(canon := d.canon - {cp.number - 1}) else d;
    e.(gaps := GapsOf(GapBelow(db, cp), cp.number + 1))
  }

  lemma CheckpointUnfolds(u: iset<Header>, genesis: Header, db: Db, cp: Header, d: Db, gaps: ChainGaps)
    requires AboveAll(u, genesis, db, cp) && Universe(u, genesis) && Within(u, db)
    requires cp.difficulty == 0
    requires WithHeader(db, cp, Tri(cp.number) - cp.number).(checkpoints := db.checkpoints + [cp.hash]) == WithCheckpoint(db, cp)
    requires Within(u, WithCheckpoint(db, cp)) && SetAsHead(u, genesis, WithCheckpoint(db, cp), cp).Ok?
    requires d == SetAsHead(u, genesis, WithCheckpoint(db, cp), cp).value.db && HeadAtCheckpoint(genesis, db, cp, d)
    requires FillGap(cp.number, db.gaps).Ok? && FillGap(cp.number, db.gaps).value.1 == gaps
    requires FillGap(cp.number, db.gaps).value.0 != NoChange
    requires gaps == GapsOf(Shape(Height(db) + 1, cp.number), cp.number + 1)
    requires ReopenGap(Height(db), GapsOf(Shape(Height(db) + 1, Height(db) + 1), Height(db) + 2))
             == Ok(GapsOf(Shape(Height(db), Height(db) + 1), Height(db) + 2))
    ensures PersistCheckpointHeader(u, genesis, db, cp, Tri(cp.number)) == Ok(Trimmed(db, cp, d))
  {
    hide Universe, Within, SetAsHead, FillGap, ReopenGap, Settled, LinkedBut, Extends, GapsOf;
    var f := d.(gaps := gaps);
    assert CheckParent(f, cp, gaps) == Ok(Trimmed(db, cp, d)) by {
      if cp.parent in db.headers {
        ParentBelow(u, genesis, db, cp, d);
      } else if cp.number == Height(db) + 1 {
        ParentGone(u, genesis, db, cp, d);
      }
    }
    assert DropOrphans(Trimmed(db, cp, d), cp, d.checkpoints) == Ok(Trimmed(db, cp, d));
  }

  lemma ParentBelow(u: iset<Header>, genesis: Header, db: Db, cp: Header, d: Db)
    requires AboveAll(u, genesis, db, cp) && cp.parent in db.headers && HeadAtCheckpoint(genesis, db, cp, d)
    ensures cp.number == Height(db) + 1 && cp.number - 1 in d.canon && d.canon[cp.number - 1] == cp.parent
  {
    CheckpointParent(u, genesis, db, cp);
    assert d.headers[d.canon[cp.number]].parent == d.canon[cp.number - 1];
  }

  lemma ParentGone(u: iset<Header>, genesis: Header, db: Db, cp: Header, d: Db)
    requires AboveAll(u, genesis, db, cp) && cp.parent !in db.headers && HeadAtCheckpoint(genesis, db, cp, d)
    requires cp.number == Height(db) + 1
    ensures cp.number - 1 in d.canon && d.canon[cp.number - 1] != cp.parent && cp.parent !in d.headers
  {
    CheckpointStored(u, genesis, db, cp);
  }

  lemma CheckpointSettles(u: iset<Header>, genesis: Header, db: Db, cp: Header, d: Db)
    requires AboveAll(u, genesis, db, cp) && HeadAtCheckpoint(genesis, db, cp, d)
    ensures Settled(u, genesis, Trimmed(db, cp, d), GapBelow(db, cp))
  {
    hide AboveAll, Universe, Within, NoDifficulty, Rooted, Scored, Canonical, Tri, Linked, LinkedBut, CanonKnown, Extends,
      GapsOf, WithHeader, WithCheckpoint, HeadAtCheckpoint, Trimmed, Settled;
    CheckpointStored(u, genesis, db, cp);
    CheckpointNew(u, genesis, db, cp);
    AboveAllIn(u, genesis, db, cp);
    if cp.parent in db.headers {
      CheckpointParent(u, genesis, db, cp);
    }
    TrimmedCanonical(u, genesis, db, cp, d);
    TrimmedRooted(u, genesis, db, cp, d);
    TrimmedHead(genesis, db, cp, d);
    WithinScored(u, WithCheckpoint(db, cp), Trimmed(db, cp, d));
    MakeSettled(u, genesis, Trimmed(db, cp, d), GapBelow(db, cp), cp);
  }

  lemma MakeSettled(u: iset<Header>, genesis: Header, f: Db, s: Shape, cp: Header)
    requires Universe(u, genesis) && NoDifficulty(u) && Within(u, f) && Scored(f)
    requires 0 < s.low <= s.anchor == cp.number && Canonical(genesis, f, s) && Rooted(genesis, f, s, cp.number)
    requires f.head == Some(cp.hash) && cp.hash in f.headers && f.headers[cp.hash] == cp
    requires f.gaps == GapsOf(s, cp.number + 1) && f.checkpoints == [cp.hash]
    requires cp.number in f.canon && f.canon[cp.number] == cp.hash
    ensures Settled(u, genesis, f, s)
  {
    hide Universe, NoDifficulty, Within, Scored, Canonical, Rooted, GapsOf;
    assert Height(f) == cp.number;
  }

  lemma WithinScored(u: iset<Header>, db: Db, d: Db)
    requires Within(u, db) && Scored(db) && d.headers == db.headers && d.scores == db.scores
    ensures Within(u, d) && Scored(d)
  {}

  lemma MakeCanonical(genesis: Header, db: Db, s: Shape)
    requires CanonKnown(db) && Linked(db)
    requires forall n: nat :: n in db.canon <==> n < s.low || s.anchor <= n <= Height(db)
    requires 0 in db.canon ==> db.canon[0] == genesis.hash
    requires db.head.Some? ==> Height(db) >= s.anchor && db.canon[Height(db)] == db.head.value
    ensures Canonical(genesis, db, s)
  {}

  lemma TrimmedCanonical(u: iset<Header>, genesis: Header, db: Db, cp: Header, d: Db)
    requires AboveAll(u, genesis, db, cp) && HeadAtCheckpoint(genesis, db, cp, d)
    requires cp.parent in db.headers ==> cp.number == Height(db) + 1
    ensures Canonical(genesis, Trimmed(db, cp, d), GapBelow(db, cp))
  {
    hide AboveAll, Canonical, CanonKnown, Linked, LinkedBut, Tri, GapsOf;
    AboveAllIn(u, genesis, db, cp);
    var f := Trimmed(db, cp, d);
    assert Height(f) == cp.number;
    hide Height;
    TrimmedLinked(genesis, db, cp, d, f);
    MakeCanonical(genesis, f, GapBelow(db, cp));
  }

  lemma TrimmedLinked(genesis: Header, db: Db, cp: Header, d: Db, f: Db)
    requires HeadAtCheckpoint(genesis, db, cp, d) && f.headers == d.headers
    requires forall n :: n in f.canon ==> n in d.canon && f.canon[n] == d.canon[n]
    requires cp.parent in db.headers || cp.number == 0 || cp.number - 1 !in f.canon
    ensures CanonKnown(f) && Linked(f)
  {}

  lemma TrimmedRooted(u: iset<Header>, genesis: Header, db: Db, cp: Header, d: Db)
    requires AboveAll(u, genesis, db, cp) && HeadAtCheckpoint(genesis, db, cp, d)
    requires cp.parent in db.headers ==> cp.number == Height(db) + 1
    requires Extends(db, WithCheckpoint(db, cp))
    ensures Rooted(genesis, Trimmed(db, cp, d), GapBelow(db, cp), cp.number)
  {
    hide Universe, NoDifficulty, Scored, Canonical;
    var f, s := Trimmed(db, cp, d), GapBelow(db, cp);
    assert cp.number in f.canon && f.canon[cp.number] == cp.hash;
    forall x | x in f.headers
      ensures f.headers[x].number <= cp.number && !(s.low <= f.headers[x].number < s.anchor - 1)
      ensures x == genesis.hash || Anchors(f, s, x) || f.headers[x].parent in f.headers
    {
      if x in db.headers {
        assert !Anchors(db, Shape(0, 0), x);
      }
    }
  }

  //
  // Runs after the checkpoint
  //

  lemma {:induction false} CheckpointRunKeeps(
    u: iset<Header>, genesis: Header, states: seq<Db>, batches: seq<seq<Header>>, s: Shape
  ) returns (s': Shape)
    requires RunOf(u, genesis, states, batches) && Settled(u, genesis, states[0], s) && s.anchor > 0
    ensures Settled(u, genesis, Last(states), s') && s'.anchor == s.anchor
    ensures s.anchor in states[0].canon && s.anchor in Last(states).canon
    ensures Last(states).canon[s.anchor] == states[0].canon[s.anchor]
    decreases |batches|
  {
    s' := s;
    if batches != [] {
      RunFront(u, genesis, states, batches);
      hide Settled, Step, RunOf;
      var t := CheckpointRunKeeps(u, genesis, Front(states), Front(batches), s);
      s' := StepKeeps(u, genesis, Last(Front(states)), t, Last(batches), Last(states));
    }
  }

  // The record of gaps and the lookup agree in a settled database.
  lemma RecordAgrees(u: iset<Header>, genesis: Header, db: Db, s: Shape, n: nat)
    requires Settled(u, genesis, db, s) && db.head.Some?
    ensures n in db.canon <==> !Missing(db.gaps, n)
  {
    hide Universe, Within, NoDifficulty, Rooted, Scored, CanonKnown, Linked, Held;
    if s.low < s.anchor {
      HeldOne(Range(s.low, s.anchor - 1), n);
    } else {
      NoneHeld(n);
    }
  }

  // Genesis and headers first, then one checkpoint at least two above genesis
  // and above every known header, then any batches: the checkpoint stays
  // canonical, the numbers with a canonical hash are those not recorded as
  // missing, and canonical neighbours are linked.
  lemma CheckpointStaysCanonical(
    u: iset<Header>, genesis: Header, before: seq<Db>, early: seq<seq<Header>>,
    cp: Header, after: seq<Db>, late: seq<seq<Header>>
  )
    requires Universe(u, genesis) && NoDifficulty(u) && cp in u
    requires RunOf(u, genesis, before, early) && before[0] == EMPTY_DB && Last(before).head.Some?
    requires cp.number >= 2 && forall x :: x in Last(before).headers ==> Last(before).headers[x].number < cp.number
    requires RunOf(u, genesis, after, late)
    requires Within(u, Last(before)) ==>
               PersistCheckpointHeader(u, genesis, Last(before), cp, Tri(cp.number)) == Ok(after[0])
    ensures var db := Last(after);
            && cp.number in db.canon && db.canon[cp.number] == cp.hash
            && (forall n: nat :: n in db.canon <==> !Missing(db.gaps, n))
            && 0 in db.canon && db.canon[0] == genesis.hash
            && CanonKnown(db) && Linked(db)
  {
    var db := Last(before);
    HeaderRuns.RunKeeps(u, genesis, before, early);
    assert AboveAll(u, genesis, db, cp) by {
      HeadKnown(u, genesis, db, Shape(0, 0), []);
    }
    CheckpointPersists(u, genesis, db, cp);
    var s := CheckpointRunKeeps(u, genesis, after, late, GapBelow(db, cp));
    AnchorHeld(u, genesis, Last(after), s);
    forall n: nat ensures n in Last(after).canon <==> !Missing(Last(after).gaps, n) {
      RecordAgrees(u, genesis, Last(after), s, n);
    }
  }

  lemma AnchorHeld(u: iset<Header>, genesis: Header, db: Db, s: Shape)
    requires Settled(u, genesis, db, s) && s.anchor > 0
    ensures db.head.Some? && 0 in db.canon && db.canon[0] == genesis.hash && CanonKnown(db) && Linked(db)
  {}

  // Handing over the checkpoint itself never fails.
  lemma CheckpointAccepted(
    u: iset<Header>, genesis: Header, before: seq<Db>, early: seq<seq<Header>>, cp: Header
  )
    requires Universe(u, genesis) && NoDifficulty(u) && cp in u
    requires RunOf(u, genesis, before, early) && before[0] == EMPTY_DB && Last(before).head.Some?
    requires cp.number >= 2 && forall x :: x in Last(before).headers ==> Last(before).headers[x].number < cp.number
    ensures Within(u, Last(before)) && PersistCheckpointHeader(u, genesis, Last(before), cp, Tri(cp.number)).Ok?
  {
    HeaderRuns.RunKeeps(u, genesis, before, early);
    assert AboveAll(u, genesis, Last(before), cp) by {
      HeadKnown(u, genesis, Last(before), Shape(0, 0), []);
    }
    CheckpointPersists(u, genesis, Last(before), cp);
  }

  //
  // Orphans
  //

  // The lookup holds exactly the numbers that are not recorded as missing.
  ghost predicate InStep(db: Db) {
    WellFormed(db.gaps) && forall n: nat :: n in db.canon <==> !Missing(db.gaps, n)
  }

  // d is db without the canonical numbers from n up to end; none of them above
  // n is a checkpoint.
  ghost predicate StreakGone(db: Db, d: Db, n: nat, end: nat, checkpoints: seq<Hash>) {
    && (forall m: nat :: m in d.canon <==> m in db.canon && !(n <= m < end))
    && (forall m :: m in d.canon ==> d.canon[m] == db.canon[m])
    && (forall m: nat :: n < m < end ==>
          m in db.canon && db.canon[m] in db.headers && db.headers[db.canon[m]].hash !in checkpoints)
  }

  // Dropping a streak keeps the record in step with the lookup, in any
  // database: the numbers from n up to the first one without a canonical
  // header go, and the others stay; only a checkpoint in the way prevents it.
  lemma {:induction false} StreakKeepsRecord(db: Db, n: nat, checkpoints: seq<Hash>) returns (end: nat)
    requires InStep(db) && n in db.canon
    ensures n < end
    ensures var r := DropStreak(db, n, checkpoints);
            if r.Ok? then InStep(r.value) && StreakGone(db, r.value, n, end, checkpoints) && CanonicalHeader(db, end).None?
            else r.error == CheckpointsMustBeCanonical
    decreases |db.canon|
  {
    hide ReopenGap, InStep, StreakGone;
    end := n + 1;
    var d := OneReopened(db, n);
    assert db.canon == d.canon[n := db.canon[n]];
    OneGone(db, d, n, checkpoints);
    var next := CanonicalHeader(d, n + 1);
    assert next == CanonicalHeader(db, n + 1);
    if next.Some? && next.value.hash !in checkpoints {
      end := StreakKeepsRecord(d, n + 1, checkpoints);
      assert CanonicalHeader(d, end) == CanonicalHeader(db, end);
      if DropStreak(d, n + 1, checkpoints).Ok? {
        StreakJoins(db, d, DropStreak(d, n + 1, checkpoints).value, n, end, checkpoints);
      }
    }
  }

  lemma OneReopened(db: Db, n: nat) returns (d: Db)
    requires InStep(db) && n in db.canon
    ensures ReopenGap(n, db.gaps).Ok? && d == db.(canon := db.canon - {n}, gaps := ReopenGap(n, db.gaps).value)
    ensures InStep(d)
  {
    hide ReopenGap, Missing, WellFormed;
    ReopenGapReopens(n, db.gaps);
    d := db.(canon := db.canon - {n}, gaps := ReopenGap(n, db.gaps).value);
  }

  lemma OneGone(db: Db, d: Db, n: nat, checkpoints: seq<Hash>)
    requires d.canon == db.canon - {n}
    ensures StreakGone(db, d, n, n + 1, checkpoints)
  {}

  lemma StreakJoins(db: Db, d: Db, e: Db, n: nat, end: nat, checkpoints: seq<Hash>)
    requires d.canon == db.canon - {n} && d.headers == db.headers && StreakGone(d, e, n + 1, end, checkpoints) && n + 1 < end
    requires CanonicalHeader(d, n + 1).Some? && CanonicalHeader(d, n + 1).value.hash !in checkpoints
    ensures StreakGone(db, e, n, end, checkpoints)
  {
    forall m: nat | n < m < end
      ensures m in db.canon && db.canon[m] in db.headers && db.headers[db.canon[m]].hash !in checkpoints
    {
      if m > n + 1 {
        assert m in d.canon;
      }
    }
  }
}
