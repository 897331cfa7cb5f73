// What every run of veda/db/header.py keeps when all difficulties are zero,
// with no checkpoint or with one checkpoint persisted above every known header.
module HeaderSafety {
  import opened Wrappers
  import opened ChainGapRecords
  import opened HeaderChains

  //
  // The chain a header makes canonical
  //

  ghost predicate CanonKnown(db: Db) {
    forall n :: n in db.canon ==> db.canon[n] in db.headers && db.headers[db.canon[n]].number == n
  }

  // s runs from number base up to h along parent links, none of it is
  // canonical, and below it lies genesis, a canonical header, or nothing known.
  ghost predicate NewChain(db: Db, h: Header, s: seq<Header>, base: nat) {
    && s != [] && base + |s| - 1 == h.number && Last(s) == h
    && (forall i :: 0 <= i < |s| ==>
          s[i].number == base + i && s[i].hash in db.headers && db.headers[s[i].hash] == s[i])
    && (forall i, j :: 0 <= i < j < |s| && j == i + 1 ==> s[j].parent == s[i].hash)
    && (forall i :: 0 <= i < |s| && s[i].number in db.canon ==> db.canon[s[i].number] != s[i].hash)
    && (|| s[0].parent == GENESIS_PARENT_HASH || s[0].parent !in db.headers
        || (base > 0 && base - 1 in db.canon && db.canon[base - 1] == s[0].parent))
  }

  predicate IsCanonical(db: Db, h: Header) {
    h.number in db.canon && db.canon[h.number] == h.hash
  }

  lemma ChainGrows(db: Db, p: Header, below: seq<Header>, base: nat, h: Header)
    requires NewChain(db, p, below, base) && h.parent == p.hash && h.number == p.number + 1
    requires h.hash in db.headers && db.headers[h.hash] == h && !IsCanonical(db, h)
    ensures NewChain(db, h, below + [h], base)
  {
    var s := below + [h];
    assert forall i :: 0 <= i < |below| ==> s[i] == below[i];
    assert Last(below) == p && s[0] == below[0];
  }

  lemma UnfoldNewAncestors(u: iset<Header>, genesis: Header, db: Db, h: Header)
    requires Universe(u, genesis) && Within(u, db) && CanonKnown(db) && h in u
    requires h.hash in db.headers && db.headers[h.hash] == h
    ensures if IsCanonical(db, h) then NewAncestors(u, genesis, db, h) == []
            else if h.parent == GENESIS_PARENT_HASH || h.parent !in db.headers then NewAncestors(u, genesis, db, h) == [h]
            else
              var p := db.headers[h.parent];
              && p in u && p.hash == h.parent && h.number == p.number + 1
              && NewAncestors(u, genesis, db, h) == [h] + NewAncestors(u, genesis, db, p)
  {
    if h.parent in db.headers {
      assert db.headers[h.parent] in u;
    }
    if h.number in db.canon {
      assert db.headers[db.canon[h.number]].hash == db.canon[h.number];
    }
  }

  lemma ReverseCons(h: Header, s: seq<Header>)
    ensures Reverse([h] + s) == Reverse(s) + [h]
  {
    assert ([h] + s)[1..] == s;
  }

  lemma SingleChain(db: Db, h: Header)
    requires h.hash in db.headers && db.headers[h.hash] == h && !IsCanonical(db, h)
    requires || h.parent == GENESIS_PARENT_HASH || h.parent !in db.headers
             || (h.number > 0 && h.number - 1 in db.canon && db.canon[h.number - 1] == h.parent)
    ensures NewChain(db, h, [h], h.number)
  {}

  lemma {:induction false} NewAncestorsChain(u: iset<Header>, genesis: Header, db: Db, h: Header) returns (base: nat)
    requires Universe(u, genesis) && Within(u, db) && CanonKnown(db) && h in u
    requires h.hash in db.headers && db.headers[h.hash] == h
    ensures var s := Reverse(NewAncestors(u, genesis, db, h));
            if IsCanonical(db, h) then s == [] else NewChain(db, h, s, base)
    decreases h.number
  {
    hide Universe, Within, CanonKnown, NewAncestors, NewChain;
    UnfoldNewAncestors(u, genesis, db, h);
    base := h.number;
    if !IsCanonical(db, h) {
      if h.parent == GENESIS_PARENT_HASH || h.parent !in db.headers {
        ReverseCons(h, []);
        assert [h] + [] == [h] && Reverse([]) + [h] == [h];
        SingleChain(db, h);
      } else {
        var p := db.headers[h.parent];
        var below := Reverse(NewAncestors(u, genesis, db, p));
        base := NewAncestorsChain(u, genesis, db, p);
        ReverseCons(h, NewAncestors(u, genesis, db, p));
        if IsCanonical(db, p) {
          base := h.number;
          assert below == [] && below + [h] == [h];
          SingleChain(db, h);
        } else {
          ChainGrows(db, p, below, base, h);
        }
      }
    }
  }

  lemma OnChain(db: Db, h: Header, s: seq<Header>, base: nat, n: nat)
    requires NewChain(db, h, s, base) && base <= n <= h.number
    ensures n - base < |s| && s[n - base].number == n && !IsCanonical(db, s[n - base])
    ensures s[n - base].hash in db.headers && db.headers[s[n - base].hash] == s[n - base]
    ensures n > base ==> s[n - base].parent == s[n - 1 - base].hash
    ensures n == h.number ==> s[n - base] == h
  {
    var c := s[n - base];
    assert c.number == n;
    if n > base {
      var d := s[n - 1 - base];
    }
  }

  // The lookup after s, numbered from base, was written over the one before.
  ghost predicate Reaches(before: map<nat, Hash>, after: map<nat, Hash>, s: seq<Header>, base: nat) {
    && (forall n: nat :: n in after <==> n in before || base <= n < base + |s|)
    && (forall n :: n in after ==> after[n] == if base <= n < base + |s| then s[n - base].hash else before[n])
  }

  lemma ReachesAt(before: map<nat, Hash>, after: map<nat, Hash>, s: seq<Header>, base: nat, n: nat)
    requires Reaches(before, after, s, base)
    ensures n in after <==> n in before || base <= n < base + |s|
    ensures n in after ==> after[n] == if base <= n < base + |s| then s[n - base].hash else before[n]
  {}

  lemma {:induction false} AddLookupsAt(canon: map<nat, Hash>, s: seq<Header>, base: nat)
    requires forall i :: 0 <= i < |s| ==> s[i].number == base + i
    ensures Reaches(canon, AddLookups(canon, s), s, base)
  {
    if s != [] {
      AddLookupsAt(canon, Front(s), base);
    }
  }

  // The canonical headers numbered from a up to but without b.
  function CanonicalRange(db: Db, a: nat, b: nat): seq<Header>
    decreases b - a
  {
    if a >= b then []
    else if CanonicalHeader(db, a).Some? then [CanonicalHeader(db, a).value] + CanonicalRange(db, a + 1, b)
    else CanonicalRange(db, a + 1, b)
  }

  lemma {:induction false} RemovedRange(db: Db, s: seq<Header>, base: nat)
    requires CanonKnown(db) && forall i :: 0 <= i < |s| ==> s[i].number == base + i
    ensures HeadersToDecanonicalize(db, s) == Ok(CanonicalRange(db, base, base + |s|))
  {
    if s != [] {
      RemovedRange(db, s[1..], base + 1);
    }
  }

  // Is a checkpoint canonical at a number from a up to but without b?
  ghost predicate CheckpointedIn(db: Db, a: nat, b: nat) {
    exists n: nat :: a <= n < b && n in db.canon && db.canon[n] in db.checkpoints
  }

  lemma {:induction false} CheckpointInRange(u: iset<Header>, db: Db, a: nat, b: nat)
    requires CanonKnown(db) && Within(u, db)
    ensures AnyCheckpoint(CanonicalRange(db, a, b), db.checkpoints) <==> CheckpointedIn(db, a, b)
    decreases b - a
  {
    if a < b {
      CheckpointInRange(u, db, a + 1, b);
      var all, rest := CanonicalRange(db, a, b), CanonicalRange(db, a + 1, b);
      if a in db.canon {
        if db.canon[a] in db.checkpoints {
          assert all[0].hash in db.checkpoints;
        }
        if i :| 0 <= i < |rest| && rest[i].hash in db.checkpoints {
          assert all[i + 1].hash in db.checkpoints;
        }
        if i :| 0 <= i < |all| && all[i].hash in db.checkpoints {
          assert if i == 0 then all[i].hash == db.canon[a] else all[i] == rest[i - 1];
        }
      }
    }
  }

  // What canonicalizing h by way of the new chain s gives.
  ghost function Outcome(db: Db, h: Header, s: seq<Header>, base: nat): Result<Switch, Failure> {
    if CheckpointedIn(db, base, h.number + 1) then Err(CheckpointsMustBeCanonical)
    else
      var dropped := DropOrphans(db.(canon := AddLookups(db.canon, s)), h, db.checkpoints);
      if dropped.Err? then Err(dropped.error)
      else Ok(Switch(dropped.value, s, CanonicalRange(db, base, h.number + 1)))
  }

  // Making h canonical: refused just when a checkpoint is canonical at one of
  // the numbers of the new chain; else the new chain replaces what was there.
  lemma CanonicalizeChain(u: iset<Header>, genesis: Header, db: Db, h: Header) returns (s: seq<Header>, base: nat)
    requires Universe(u, genesis) && Within(u, db) && CanonKnown(db)
    requires h in u && h.hash in db.headers && db.headers[h.hash] == h
    requires !IsCanonical(db, h)
    ensures NewChain(db, h, s, base) && s == Reverse(NewAncestors(u, genesis, db, h))
    ensures Canonicalize(u, genesis, db, h) == Outcome(db, h, s, base)
    ensures Reaches(db.canon, AddLookups(db.canon, s), s, base)
  {
    hide NewAncestors, DropOrphans, AnyCheckpoint, CanonicalRange, HeadersToDecanonicalize, AddLookups,
      Universe, Within, CanonKnown, NewChain, IsCanonical, Reverse, CheckpointedIn, Reaches;
    base := NewAncestorsChain(u, genesis, db, h);
    s := Reverse(NewAncestors(u, genesis, db, h));
    ChainEnds(db, h, s, base);
    AddLookupsAt(db.canon, s, base);
    RemovedRange(db, s, base);
    CheckpointInRange(u, db, base, h.number + 1);
  }

  lemma ChainEnds(db: Db, h: Header, s: seq<Header>, base: nat)
    requires NewChain(db, h, s, base)
    ensures s != [] && Last(s) == h && base + |s| == h.number + 1
    ensures forall i :: 0 <= i < |s| ==> s[i].number == base + i
  {}

  // d holds every header that db holds.
  ghost predicate Extends(db: Db, d: Db) {
    forall x :: x in db.headers ==> x in d.headers && d.headers[x] == db.headers[x]
  }

  //
  // The invariant
  //

  function Tri(n: nat): nat {
    if n == 0 then 0 else Tri(n - 1) + n
  }

  lemma {:induction false} TriGrows(a: nat, b: nat)
    requires a < b
    ensures Tri(a) < Tri(b)
  {
    if a + 1 < b {
      TriGrows(a, b - 1);
    }
  }

  // Canonical are the numbers below low and those from anchor to the head.
  // Without a checkpoint both are 0; with one, it sits at anchor.
  datatype Shape = Shape(low: nat, anchor: nat)

  function Height(db: Db): int {
    if db.head.Some? && db.head.value in db.headers then db.headers[db.head.value].number else -1
  }

  function GapsOf(s: Shape, tip: nat): ChainGaps {
    ChainGaps(if s.low < s.anchor then [Range(s.low, s.anchor - 1)] else [], tip)
  }

  ghost predicate NoDifficulty(u: iset<Header>) {
    forall a :: a in u ==> a.difficulty == 0
  }

  ghost predicate Scored(db: Db) {
    forall x :: x in db.headers ==> x in db.scores && db.scores[x] == Tri(db.headers[x].number)
  }

  ghost predicate Linked(db: Db)
    requires CanonKnown(db)
  {
    forall m: nat, n: nat :: m in db.canon && n in db.canon && n == m + 1 ==>
      db.headers[db.canon[n]].parent == db.canon[m]
  }

  ghost predicate Canonical(genesis: Header, db: Db, s: Shape) {
    && CanonKnown(db) && Linked(db)
    && (forall n: nat :: n in db.canon <==> n < s.low || s.anchor <= n <= Height(db))
    && (0 in db.canon ==> db.canon[0] == genesis.hash)
    && (db.head.Some? ==> Height(db) >= s.anchor && db.canon[Height(db)] == db.head.value)
  }

  ghost predicate Rooted(genesis: Header, db: Db, s: Shape, top: nat) {
    forall x :: x in db.headers ==>
      && db.headers[x].number <= top && !(s.low <= db.headers[x].number < s.anchor - 1)
      && (x == genesis.hash || Anchors(db, s, x) || db.headers[x].parent in db.headers)
  }

  predicate Anchors(db: Db, s: Shape, x: Hash) {
    s.anchor > 0 && s.anchor in db.canon && db.canon[s.anchor] == x
  }

  // During a batch the record of gaps may already run ahead of the head, up to
  // the number top.
  ghost predicate Sound(u: iset<Header>, genesis: Header, db: Db, s: Shape, top: nat) {
    && Universe(u, genesis) && NoDifficulty(u) && Within(u, db)
    && s.low <= s.anchor && (s.anchor > 0 ==> s.low > 0 && db.head.Some?)
    && Canonical(genesis, db, s) && Scored(db) && Rooted(genesis, db, s, top)
    && Height(db) <= top && db.gaps == GapsOf(s, top + 1)
    && (db.head.Some? ==> db.head.value in db.headers)
    && db.checkpoints == if s.anchor > 0 then [db.canon[s.anchor]] else []
  }

  ghost predicate Settled(u: iset<Header>, genesis: Header, db: Db, s: Shape) {
    Sound(u, genesis, db, s, if Height(db) < 0 then 0 else Height(db))
  }

  //
  // Writing a new chain over the lookup
  //

  // Below a new chain lies a canonical header, or it starts at genesis.
  lemma ChainBottom(u: iset<Header>, genesis: Header, db: Db, s: Shape, top: nat, h: Header, chain: seq<Header>, base: nat)
    requires Universe(u, genesis) && Within(u, db) && Rooted(genesis, db, s, top)
    requires CanonKnown(db) && NewChain(db, h, chain, base) && (0 in db.canon ==> db.canon[0] == genesis.hash)
    ensures if base == 0 then 0 !in db.canon && chain[0] == genesis
            else base - 1 in db.canon && db.canon[base - 1] == chain[0].parent
  {
    var c := chain[0];
    assert c.number == base && c.hash in db.headers && db.headers[c.hash] == c && c in u;
    if c.hash == genesis.hash {
      assert c == genesis;
    } else {
      assert !Anchors(db, s, c.hash);
      assert c.parent in db.headers && c.parent != GENESIS_PARENT_HASH;
    }
  }

  lemma ChainWritten(genesis: Header, db: Db, s: Shape, h: Header, chain: seq<Header>, base: nat, d: Db, s': Shape)
    requires Canonical(genesis, db, s) && NewChain(db, h, chain, base) && Reaches(db.canon, d.canon, chain, base)
    requires if base == 0 then chain[0] == genesis
             else base - 1 in db.canon && db.canon[base - 1] == chain[0].parent
    requires d.headers == db.headers
    requires h.number + 1 in db.canon ==> db.headers[db.canon[h.number + 1]].parent == h.hash
    requires forall n: nat :: n in d.canon <==> n < s'.low || s'.anchor <= n <= Height(d)
    requires d.head.Some? ==> Height(d) >= s'.anchor && d.canon[Height(d)] == d.head.value
    ensures Canonical(genesis, d, s')
  {
    hide Height, NewChain, Reaches, IsCanonical;
    ChainEnds(db, h, chain, base);
    forall n | n in d.canon ensures d.canon[n] in d.headers && d.headers[d.canon[n]].number == n {
      ReachesAt(db.canon, d.canon, chain, base, n);
      if base <= n <= h.number {
        OnChain(db, h, chain, base, n);
      }
    }
    forall m: nat, n: nat | m in d.canon && n in d.canon && n == m + 1
      ensures d.headers[d.canon[n]].parent == d.canon[m]
    {
      ReachesAt(db.canon, d.canon, chain, base, m);
      ReachesAt(db.canon, d.canon, chain, base, n);
      if base <= m <= h.number {
        OnChain(db, h, chain, base, m);
      }
      if base <= n <= h.number {
        OnChain(db, h, chain, base, n);
      }
    }
    ReachesAt(db.canon, d.canon, chain, base, 0);
  }

  // The ancestor of h numbered n, as far as parents are known.
  ghost function AncestorAt(u: iset<Header>, genesis: Header, db: Db, h: Header, n: nat): Option<Header>
    requires Universe(u, genesis) && Within(u, db) && h in u
    decreases h.number
  {
    if h.number == n then Some(h)
    else if h.parent == GENESIS_PARENT_HASH || h.parent !in db.headers then None
    else AncestorAt(u, genesis, db, db.headers[h.parent], n)
  }

  // Does h descend from the checkpoint, or is there none?
  ghost predicate Descends(u: iset<Header>, genesis: Header, db: Db, s: Shape, h: Header)
    requires Universe(u, genesis) && Within(u, db) && h in u
  {
    s.anchor == 0 ||
    (s.anchor in db.canon && db.canon[s.anchor] in db.headers &&
     AncestorAt(u, genesis, db, h, s.anchor) == Some(db.headers[db.canon[s.anchor]]))
  }

  lemma ChainParent(u: iset<Header>, genesis: Header, db: Db, h: Header, chain: seq<Header>, base: nat)
    requires Universe(u, genesis) && Within(u, db) && NewChain(db, h, chain, base) && base < h.number
    ensures |chain| > 1 && h.parent in db.headers && h.parent != GENESIS_PARENT_HASH && h in u
    ensures var p := db.headers[h.parent];
            p in u && p.number == h.number - 1 && NewChain(db, p, Front(chain), base)
  {
    var p := chain[|chain| - 2];
    assert p == db.headers[h.parent];
  }

  lemma {:induction false} ChainAncestors(u: iset<Header>, genesis: Header, db: Db, h: Header, chain: seq<Header>, base: nat, n: nat)
    requires Universe(u, genesis) && Within(u, db) && h in u && NewChain(db, h, chain, base)
    requires n <= h.number
    ensures chain != [] && |chain| == h.number - base + 1 && chain[0] in u
    ensures n >= base ==> AncestorAt(u, genesis, db, h, n) == Some(chain[n - base])
    ensures n < base ==> AncestorAt(u, genesis, db, h, n) == AncestorAt(u, genesis, db, chain[0], n)
    decreases |chain|
  {
    ChainEnds(db, h, chain, base);
    hide Universe, Within, NewChain;
    if h.number == base {
      assert chain == [h];
    } else {
      ChainParent(u, genesis, db, h, chain, base);
      if n < h.number {
        ChainAncestors(u, genesis, db, db.headers[h.parent], Front(chain), base, n);
      } else {
        ChainAncestors(u, genesis, db, db.headers[h.parent], Front(chain), base, n - 1);
      }
    }
  }

  lemma {:induction false} CanonicalAncestors(u: iset<Header>, genesis: Header, db: Db, m: nat, n: nat)
    requires Universe(u, genesis) && Within(u, db) && CanonKnown(db) && Linked(db)
    requires n <= m && forall k :: n <= k <= m ==> k in db.canon
    ensures AncestorAt(u, genesis, db, db.headers[db.canon[m]], n) == Some(db.headers[db.canon[n]])
    decreases m
  {
    if n < m {
      var h := db.headers[db.canon[m]];
      assert h.parent == db.canon[m - 1] && h.parent in db.headers;
      assert h.parent != GENESIS_PARENT_HASH;
      CanonicalAncestors(u, genesis, db, m - 1, n);
    }
  }

  //
  // A new head
  //

  ghost predicate Adds(added: seq<Header>, n: nat) {
    exists i :: 0 <= i < |added| && added[i].number == n
  }

  predicate Changed(before: map<nat, Hash>, after: map<nat, Hash>, n: nat) {
    n in after && !(n in before && before[n] == after[n])
  }

  // added lists the headers that became canonical, removed those they replaced.
  ghost predicate Replaces(before: Db, sw: Switch) {
    && (forall n: nat :: n in before.canon ==> n in sw.db.canon)
    && (forall n: nat :: Changed(before.canon, sw.db.canon, n) <==> Adds(sw.added, n))
    && (forall i :: 0 <= i < |sw.added| ==>
          sw.added[i].number in sw.db.canon && sw.db.canon[sw.added[i].number] == sw.added[i].hash)
    && sw.removed == if sw.added == [] then []
                     else CanonicalRange(before, sw.added[0].number, Last(sw.added).number + 1)
  }

  lemma ChainAdds(db: Db, h: Header, chain: seq<Header>, base: nat, n: nat)
    requires NewChain(db, h, chain, base)
    ensures Adds(chain, n) <==> base <= n <= h.number
  {
    if base <= n <= h.number {
      assert chain[n - base].number == n;
    }
  }

  lemma ChainReplaces(db: Db, h: Header, chain: seq<Header>, base: nat, d: Db)
    requires NewChain(db, h, chain, base) && Reaches(db.canon, d.canon, chain, base)
    ensures Replaces(db, Switch(d, chain, CanonicalRange(db, base, h.number + 1)))
  {
    hide CanonicalRange, Adds, NewChain, Reaches;
    ChainEnds(db, h, chain, base);
    forall n: nat
      ensures n in db.canon ==> n in d.canon
      ensures Changed(db.canon, d.canon, n) <==> Adds(chain, n)
    {
      ChainAdds(db, h, chain, base, n);
      ReachesAt(db.canon, d.canon, chain, base, n);
      if base <= n <= h.number {
        OnChain(db, h, chain, base, n);
      }
    }
    forall i | 0 <= i < |chain|
      ensures chain[i].number in d.canon && d.canon[chain[i].number] == chain[i].hash
    {
      ReachesAt(db.canon, d.canon, chain, base, base + i);
    }
  }

  lemma SameHeaders(u: iset<Header>, genesis: Header, db: Db, d: Db, s: Shape, top: nat, top': nat)
    requires Within(u, db) && Scored(db) && Rooted(genesis, db, s, top) && top <= top'
    requires d.headers == db.headers && d.scores == db.scores
    requires s.anchor > 0 ==> s.anchor in db.canon && s.anchor in d.canon && d.canon[s.anchor] == db.canon[s.anchor]
    ensures Within(u, d) && Scored(d) && Rooted(genesis, d, s, top')
  {
    forall x | x in d.headers
      ensures x == genesis.hash || Anchors(d, s, x) || d.headers[x].parent in d.headers
    {
      assert Anchors(d, s, x) == Anchors(db, s, x);
    }
  }

  lemma HeadWritten(
    u: iset<Header>, genesis: Header, db: Db, s: Shape, top: nat, h: Header, chain: seq<Header>, base: nat, d: Db
  )
    requires Sound(u, genesis, db, s, top) && NewChain(db, h, chain, base) && h.number == top > Height(db)
    requires base > s.anchor || base == s.anchor == 0
    requires Reaches(db.canon, d.canon, chain, base)
    requires d == db.(canon := d.canon, head := Some(h.hash))
    ensures Settled(u, genesis, d, s) && Height(d) == h.number
  {
    hide Within, Scored, Rooted, Universe, NoDifficulty, NewChain, Reaches, CanonKnown, Linked;
    ChainEnds(db, h, chain, base);
    ChainBottom(u, genesis, db, s, top, h, chain, base);
    OnChain(db, h, chain, base, h.number);
    forall n: nat ensures n in d.canon <==> n < s.low || s.anchor <= n <= h.number {
      ReachesAt(db.canon, d.canon, chain, base, n);
    }
    ReachesAt(db.canon, d.canon, chain, base, h.number);
    ReachesAt(db.canon, d.canon, chain, base, s.anchor);
    ChainWritten(genesis, db, s, h, chain, base, d, s);
    SameHeaders(u, genesis, db, d, s, top, top);
  }

  lemma NoChildAbove(db: Db, h: Header, d: Db, checkpoints: seq<Hash>)
    requires h.number + 1 !in d.canon
    ensures DropOrphans(d, h, checkpoints) == Ok(d)
  {}

  // Making a header above the head the head: it is refused just when it does
  // not descend from the checkpoint.
  lemma HeadMoves(u: iset<Header>, genesis: Header, db: Db, s: Shape, top: nat, h: Header)
    requires Sound(u, genesis, db, s, top) && h.number == top > Height(db)
    requires h.hash in db.headers && db.headers[h.hash] == h
    ensures var r := SetAsHead(u, genesis, db, h);
            && (r.Ok? <==> Descends(u, genesis, db, s, h))
            && (r.Err? ==> r.error == CheckpointsMustBeCanonical)
            && (r.Ok? ==> && r.value.db.checkpoints == db.checkpoints
                          && Settled(u, genesis, r.value.db, s) && r.value.db.head == Some(h.hash)
                          && Height(r.value.db) == h.number && Replaces(db, r.value))
  {
    assert h in u && !IsCanonical(db, h);
    hide Sound, Settled, Descends, Canonicalize, Replaces, IsCanonical;
    if db.head == Some(h.parent) {
      HeadExtended(u, genesis, db, s, top, h);
    } else {
      HeadSwitched(u, genesis, db, s, top, h);
    }
  }

  lemma HeadSwitched(u: iset<Header>, genesis: Header, db: Db, s: Shape, top: nat, h: Header)
    requires Sound(u, genesis, db, s, top) && h.number == top > Height(db) && !IsCanonical(db, h)
    requires h in u && h.hash in db.headers && db.headers[h.hash] == h
    ensures var r := Canonicalize(u, genesis, db, h);
            && (r.Ok? <==> Descends(u, genesis, db, s, h))
            && (r.Err? ==> r.error == CheckpointsMustBeCanonical)
            && (r.Ok? ==> var d := r.value.db.(head := Some(h.hash));
                          && d.checkpoints == db.checkpoints && Settled(u, genesis, d, s) && Height(d) == h.number
                          && Replaces(db, Switch(d, r.value.added, r.value.removed)))
  {
    hide AncestorAt, CanonicalRange, NewChain, Reaches, AddLookups, Within, Universe, NewAncestors, Reverse, Replaces,
      DropOrphans, IsCanonical, Rooted, Scored, CanonKnown, Linked, NoDifficulty, Settled, CheckpointedIn, Descends,
      Canonicalize, HeadersToDecanonicalize;
    var chain, base := CanonicalizeChain(u, genesis, db, h);
    DescendsAbove(u, genesis, db, s, top, h, chain, base);
    if base <= s.anchor && s.anchor > 0 {
      CheckpointHit(u, genesis, db, s, top, base, h.number + 1);
    } else {
      ChainEnds(db, h, chain, base);
      var d := db.(canon := AddLookups(db.canon, chain));
      HeadWritten(u, genesis, db, s, top, h, chain, base, d.(head := Some(h.hash)));
      NoCheckpointAbove(u, genesis, db, s, top, base, h.number + 1);
      ReachesAt(db.canon, d.canon, chain, base, h.number + 1);
      NoChildAbove(db, h, d, db.checkpoints);
      ChainReplaces(db, h, chain, base, d.(head := Some(h.hash)));
    }
  }

  lemma CheckpointHit(u: iset<Header>, genesis: Header, db: Db, s: Shape, top: nat, a: nat, b: nat)
    requires Sound(u, genesis, db, s, top) && a <= s.anchor < b && s.anchor > 0
    ensures CheckpointedIn(db, a, b)
  {
    assert s.anchor in db.canon && db.canon[s.anchor] in db.checkpoints;
  }

  lemma NoCheckpointAbove(u: iset<Header>, genesis: Header, db: Db, s: Shape, top: nat, a: nat, b: nat)
    requires Sound(u, genesis, db, s, top) && (a > s.anchor || b <= s.anchor || s.anchor == 0)
    ensures !CheckpointedIn(db, a, b)
  {
    if s.anchor > 0 {
      assert s.anchor in db.canon;
      forall n: nat | n in db.canon && db.canon[n] in db.checkpoints ensures n == s.anchor {
        assert db.canon[n] == db.canon[s.anchor];
      }
    }
  }

  lemma OneLink(u: iset<Header>, genesis: Header, db: Db, h: Header, n: nat)
    requires Universe(u, genesis) && Within(u, db) && CanonKnown(db)
    requires h in u && h.hash in db.headers && db.headers[h.hash] == h
    requires h.number !in db.canon && n in db.canon && db.canon[n] == h.parent
    ensures h.number == n + 1 && NewChain(db, h, [h], n + 1)
    ensures Reaches(db.canon, db.canon[n + 1 := h.hash], [h], n + 1)
  {
    var p := db.headers[h.parent];
    assert p in u && p.hash == h.parent && h.number == p.number + 1;
    hide Universe, Within, CanonKnown;
    assert Last([h]) == h;
  }

  lemma HeadExtended(u: iset<Header>, genesis: Header, db: Db, s: Shape, top: nat, h: Header)
    requires Sound(u, genesis, db, s, top) && h.number == top > Height(db)
    requires h in u && h.hash in db.headers && db.headers[h.hash] == h && db.head == Some(h.parent)
    ensures var d := db.(canon := db.canon[h.number := h.hash], head := Some(h.hash));
            && Settled(u, genesis, d, s) && Height(d) == h.number && Replaces(db, Switch(d, [h], []))
            && Descends(u, genesis, db, s, h)
  {
    hide AncestorAt, NewChain, Reaches, Within, Universe, Replaces, Rooted, Scored, CanonKnown, Linked, NoDifficulty,
      Settled;
    var d := db.(canon := db.canon[h.number := h.hash], head := Some(h.hash));
    OneLink(u, genesis, db, h, Height(db));
    HeadWritten(u, genesis, db, s, top, h, [h], h.number, d);
    ChainReplaces(db, h, [h], h.number, d);
    assert CanonicalRange(db, h.number, h.number + 1) == [];
    DescendsAbove(u, genesis, db, s, top, h, [h], h.number);
  }

  lemma OffCanonical(
    u: iset<Header>, genesis: Header, db: Db, h: Header, chain: seq<Header>, base: nat, n: nat
  )
    requires Universe(u, genesis) && Within(u, db) && CanonKnown(db) && h in u && NewChain(db, h, chain, base)
    requires base <= n <= h.number && n in db.canon
    ensures AncestorAt(u, genesis, db, h, n) != Some(db.headers[db.canon[n]])
  {
    hide AncestorAt;
    ChainAncestors(u, genesis, db, h, chain, base, n);
    assert chain[n - base].number == n;
  }

  lemma BackOnCanonical(
    u: iset<Header>, genesis: Header, db: Db, h: Header, chain: seq<Header>, base: nat, n: nat
  )
    requires Universe(u, genesis) && Within(u, db) && CanonKnown(db) && Linked(db)
    requires h in u && NewChain(db, h, chain, base)
    requires n < base <= h.number && base - 1 in db.canon && db.canon[base - 1] == chain[0].parent
    requires forall k :: n <= k < base ==> k in db.canon
    ensures AncestorAt(u, genesis, db, h, n) == Some(db.headers[db.canon[n]])
  {
    hide Linked;
    var c, p := chain[0], db.headers[db.canon[base - 1]];
    assert c.hash in db.headers && db.headers[c.hash] == c && c in u && c.number == base && p in u;
    assert c.parent != GENESIS_PARENT_HASH;
    ChainAncestors(u, genesis, db, h, chain, base, n);
    CanonicalAncestors(u, genesis, db, base - 1, n);
  }

  lemma DescendsAbove(
    u: iset<Header>, genesis: Header, db: Db, s: Shape, top: nat, h: Header, chain: seq<Header>, base: nat
  )
    requires Sound(u, genesis, db, s, top) && h.number > Height(db) && h in u && NewChain(db, h, chain, base)
    ensures Descends(u, genesis, db, s, h) <==> base > s.anchor || s.anchor == 0
  {
    hide Universe, Within, Linked, NewChain, AncestorAt, Rooted, Scored, NoDifficulty;
    if s.anchor > 0 {
      ChainEnds(db, h, chain, base);
      ChainBottom(u, genesis, db, s, top, h, chain, base);
      assert s.anchor in db.canon;
      if base > s.anchor {
        BackOnCanonical(u, genesis, db, h, chain, base, s.anchor);
      } else {
        OffCanonical(u, genesis, db, h, chain, base, s.anchor);
      }
    }
  }

  //
  // One header of a batch
  //

  function Max(a: nat, b: nat): nat {
    if a < b then b else a
  }

  // A header at the lower end of the gap moves that end up.
  function After(s: Shape, h: Header): Shape {
    if h.number == s.low < s.anchor then Shape(s.low + 1, s.anchor) else s
  }

  predicate Placed(s: Shape, top: nat, n: nat) {
    n <= top + 1 && !(s.low < n < s.anchor)
  }

  lemma KnownParentPlaces(u: iset<Header>, genesis: Header, db: Db, s: Shape, top: nat, h: Header)
    requires Sound(u, genesis, db, s, top) && h in u && (h == genesis || h.parent in db.headers)
    ensures Placed(s, top, h.number)
    ensures h.parent in db.headers ==> h.number == db.headers[h.parent].number + 1
  {
    if h.parent in db.headers {
      assert db.headers[h.parent] in u && db.headers[h.parent].hash == h.parent;
    }
  }

  lemma FillShape(s: Shape, top: nat, h: Header)
    requires s.low <= s.anchor <= top + 1 && Placed(s, top, h.number)
    ensures FillGap(h.number, GapsOf(s, top + 1)) ==
            Ok((if h.number == top + 1 then TailWrite
                else if !(h.number == s.low < s.anchor) then NoChange
                else if s.low + 1 == s.anchor then GapFill else GapLeftShrink,
                GapsOf(After(s, h), Max(top, h.number) + 1)))
  {
    var g := GapsOf(s, top + 1);
    if s.low < s.anchor {
      var r := Range(s.low, s.anchor - 1);
      assert Front(g.ranges) == [] && Last(g.ranges) == r;
      assert Matching(g.ranges, h.number) == if Covers(r, h.number) then [0] else [];
      assert g.ranges[..0] + [] + g.ranges[1..] == [];
      assert forall x :: g.ranges[..0] + [x] + g.ranges[1..] == [x];
    }
  }

  lemma HeaderKept(u: iset<Header>, genesis: Header, db: Db, h: Header, d: Db)
    requires Universe(u, genesis) && Within(u, db) && h in u
    requires d.headers == db.headers[h.hash := h]
    ensures Within(u, d)
    ensures Extends(db, d)
  {
    assert h.hash in db.headers ==> db.headers[h.hash] == h;
  }

  lemma HeaderAddedCanonical(genesis: Header, db: Db, s: Shape, d: Db)
    requires Canonical(genesis, db, s) && d.canon == db.canon && d.head == db.head
    requires Extends(db, d)
    requires db.head.Some? ==> db.head.value in db.headers
    ensures Canonical(genesis, d, s) && Height(d) == Height(db)
  {
    assert CanonKnown(d);
  }

  lemma HeaderAddedRooted(u: iset<Header>, genesis: Header, db: Db, s: Shape, top: nat, h: Header, d: Db)
    requires Rooted(genesis, db, s, top) && Placed(s, top, h.number) && (h == genesis || h.parent in db.headers)
    requires d.headers == db.headers[h.hash := h] && d.canon == db.canon
    requires Extends(db, d)
    ensures Rooted(genesis, d, After(s, h), Max(top, h.number))
  {
    forall x | x in d.headers
      ensures x == genesis.hash || Anchors(d, After(s, h), x) || d.headers[x].parent in d.headers
    {
      assert Anchors(d, After(s, h), x) == Anchors(db, s, x);
    }
  }

  // Writing the lower end of the gap: the chain below it becomes canonical.
  lemma GapEndWritten(u: iset<Header>, genesis: Header, db: Db, s: Shape, top: nat, h: Header)
    requires Universe(u, genesis) && Within(u, db) && Canonical(genesis, db, s) && Rooted(genesis, db, After(s, h), top)
    requires h in u && h.hash in db.headers && db.headers[h.hash] == h
    requires 0 < s.low == h.number < s.anchor <= Height(db) && db.checkpoints == [db.canon[s.anchor]]
    requires h.number + 1 == s.anchor ==> db.headers[db.canon[s.anchor]].parent == h.hash
    requires db.head.Some? && db.head.value in db.headers
    ensures var r := Canonicalize(u, genesis, db, h);
            && r.Ok? && r.value.db == db.(canon := r.value.db.canon)
            && Canonical(genesis, r.value.db, After(s, h))
            && forall n: nat :: s.anchor <= n <= Height(db) ==>
                 n in r.value.db.canon && r.value.db.canon[n] == db.canon[n]
  {
    hide AncestorAt, CanonicalRange, NewChain, Reaches, AddLookups, Within, Universe, NewAncestors, Reverse,
      Rooted, Linked, CheckpointedIn, Canonicalize, HeadersToDecanonicalize;
    var chain, base := CanonicalizeChain(u, genesis, db, h);
    ChainEnds(db, h, chain, base);
    ChainBottom(u, genesis, db, After(s, h), top, h, chain, base);
    var d := db.(canon := AddLookups(db.canon, chain));
    forall n: nat
      ensures n in d.canon <==> n < s.low + 1 || s.anchor <= n <= Height(d)
      ensures s.anchor <= n <= Height(db) ==> d.canon[n] == db.canon[n]
    {
      ReachesAt(db.canon, d.canon, chain, base, n);
    }
    OnlyCheckpoint(db, s, base, h.number + 1);
    ChainWritten(genesis, db, s, h, chain, base, d, After(s, h));
    assert DropOrphans(d, h, db.checkpoints) == Ok(d);
  }

  lemma OnlyCheckpoint(db: Db, s: Shape, a: nat, b: nat)
    requires CanonKnown(db) && s.anchor in db.canon && db.checkpoints == [db.canon[s.anchor]] && b <= s.anchor
    ensures !CheckpointedIn(db, a, b)
  {
    forall n: nat | n in db.canon && db.canon[n] in db.checkpoints ensures n == s.anchor {
      assert db.canon[n] == db.canon[s.anchor];
    }
  }

  // A fill of the last missing number that the checkpoint does not hang on.
  predicate WrongFill(db: Db, s: Shape, h: Header) {
    h.number == s.low < s.anchor && s.low + 1 == s.anchor &&
    CanonicalHeader(db, s.anchor).Some? && CanonicalHeader(db, s.anchor).value.parent != h.hash
  }

  predicate ScoreBefore(db: Db, h: Header, score: int) {
    if h.parent == GENESIS_PARENT_HASH then score == 0
    else h.parent in db.headers && score == Tri(db.headers[h.parent].number)
  }

  // What persisting one header does to a sound database.
  ghost predicate OneDone(u: iset<Header>, genesis: Header, db: Db, s: Shape, top: nat, h: Header, p: Progress) {
    && Sound(u, genesis, p.db, After(s, h), Max(top, h.number))
    && p.gaps == p.db.gaps && p.score == Tri(h.number)
    && p.db.headers == db.headers[h.hash := h] && p.db.head == db.head && Height(p.db) == Height(db)
    && (forall n: nat :: s.anchor <= n && n in db.canon ==> n in p.db.canon && p.db.canon[n] == db.canon[n])
    && (s.anchor == 0 ==> p.db.canon == db.canon)
  }

  lemma ScoreStep(u: iset<Header>, genesis: Header, db: Db, h: Header, score: int)
    requires Universe(u, genesis) && NoDifficulty(u) && Within(u, db) && h in u && ScoreBefore(db, h, score)
    ensures NewScore(h, score) == Tri(h.number)
  {
    if h.parent == GENESIS_PARENT_HASH {
      assert h == genesis;
    } else {
      assert db.headers[h.parent] in u && db.headers[h.parent].hash == h.parent;
    }
    assert h.difficulty == 0;
  }

  lemma ScoredKept(db: Db, h: Header, score: int, d: Db)
    requires Scored(db) && NewScore(h, score) == Tri(h.number)
    requires d.headers == db.headers[h.hash := h] && d.scores == db.scores[h.hash := NewScore(h, score)]
    ensures Scored(d)
  {}

  // The database with h stored and the gaps recorded, before any lookup changes.
  function Recorded(db: Db, s: Shape, top: nat, h: Header, score: int): Db {
    WithHeader(db, h, score).(gaps := GapsOf(After(s, h), Max(top, h.number) + 1))
  }

  lemma HeaderRecorded(u: iset<Header>, genesis: Header, db: Db, s: Shape, top: nat, h: Header, score: int)
    requires Sound(u, genesis, db, s, top) && h in u && (h == genesis || h.parent in db.headers)
    requires ScoreBefore(db, h, score)
    ensures var d := Recorded(db, s, top, h, score);
            && Within(u, d) && Scored(d) && Canonical(genesis, d, s) && Height(d) == Height(db)
            && Rooted(genesis, d, After(s, h), Max(top, h.number)) && NewScore(h, score) == Tri(h.number)
            && Extends(db, d)
  {
    hide Universe, Within, NoDifficulty, Rooted, CanonKnown, Linked, Tri, NewScore, Scored, Height, GapsOf;
    var d := Recorded(db, s, top, h, score);
    KnownParentPlaces(u, genesis, db, s, top, h);
    ScoreStep(u, genesis, db, h, score);
    ScoredKept(db, h, score, d);
    HeaderKept(u, genesis, db, h, d);
    HeaderAddedCanonical(genesis, db, s, d);
    HeaderAddedRooted(u, genesis, db, s, top, h, d);
  }

  // A header is refused just when it is a wrong fill below the checkpoint.
  lemma PersistOneKeeps(u: iset<Header>, genesis: Header, db: Db, s: Shape, top: nat, h: Header, score: int)
    requires Sound(u, genesis, db, s, top) && h in u && (h == genesis || h.parent in db.headers)
    requires ScoreBefore(db, h, score)
    ensures var r := PersistOne(u, genesis, db, h, score, db.gaps);
            if WrongFill(db, s, h) then r == Err(CheckpointsMustBeCanonical)
            else r.Ok? && OneDone(u, genesis, db, s, top, h, r.value)
  {
    hide OneDone, PersistOne, ScoreBefore, WrongFill;
    if h.number == s.low < s.anchor {
      GapEndPersisted(u, genesis, db, s, top, h, score);
    } else {
      OutsideGapPersisted(u, genesis, db, s, top, h, score);
    }
    NotWrong(db, s, h);
  }

  lemma NotWrong(db: Db, s: Shape, h: Header)
    ensures WrongFill(db, s, h) ==> h.number == s.low < s.anchor
  {}

  lemma OutsideGapPersisted(u: iset<Header>, genesis: Header, db: Db, s: Shape, top: nat, h: Header, score: int)
    requires Sound(u, genesis, db, s, top) && h in u && (h == genesis || h.parent in db.headers)
    requires ScoreBefore(db, h, score) && !(h.number == s.low < s.anchor)
    ensures var r := PersistOne(u, genesis, db, h, score, db.gaps);
            r.Ok? && OneDone(u, genesis, db, s, top, h, r.value)
  {
    hide Within, Universe, NoDifficulty, Rooted, CanonKnown, Linked, Tri, NewScore, FillGap, Scored, GapsOf, Height,
      LinkRight, Canonicalize, ScoreBefore;
    KnownParentPlaces(u, genesis, db, s, top, h);
    FillShape(s, top, h);
    HeaderRecorded(u, genesis, db, s, top, h, score);
    var d := Recorded(db, s, top, h, score);
    if h.number <= top {
      assert d == WithHeader(db, h, score);
    }
    assert PersistOne(u, genesis, db, h, score, db.gaps) == Ok(Progress(d, d.gaps, NewScore(h, score)));
    assert Sound(u, genesis, d, s, Max(top, h.number));
  }

  lemma LinkedRight(u: iset<Header>, db: Db, s: Shape, h: Header, d: Db)
    requires CanonKnown(db) && s.anchor in db.canon && db.checkpoints == [db.canon[s.anchor]] && Within(u, d)
    requires d.canon == db.canon && d.checkpoints == db.checkpoints
    requires Extends(db, d)
    requires h.number == s.low && s.low + 1 == s.anchor
    ensures LinkRight(d, d.gaps, h) ==
            if WrongFill(db, s, h) then Err(CheckpointsMustBeCanonical) else Ok((d, d.gaps))
    ensures !WrongFill(db, s, h) ==> d.headers[d.canon[s.anchor]].parent == h.hash
  {
    assert CanonicalHeader(d, s.anchor) == CanonicalHeader(db, s.anchor);
    assert d.headers[d.canon[s.anchor]].hash == d.canon[s.anchor];
  }

  lemma GapWriteUnfolds(u: iset<Header>, genesis: Header, db: Db, h: Header, score: int, change: GapChange, d: Db)
    requires Universe(u, genesis) && Within(u, db) && Within(u, d) && h in u
    requires FillGap(h.number, db.gaps) == Ok((change, d.gaps)) && d == WithHeader(db, h, score).(gaps := d.gaps)
    requires change == GapFill || change == GapLeftShrink
    requires change == GapFill ==> LinkRight(d, d.gaps, h).Err? || LinkRight(d, d.gaps, h) == Ok((d, d.gaps))
    ensures PersistOne(u, genesis, db, h, score, db.gaps) ==
            if change == GapFill && LinkRight(d, d.gaps, h).Err? then Err(LinkRight(d, d.gaps, h).error)
            else
              var r := Canonicalize(u, genesis, d, h);
              if r.Err? then Err(r.error) else Ok(Progress(r.value.db, d.gaps, NewScore(h, score)))
  {
    hide Universe, Within, FillGap, LinkRight, Canonicalize;
  }

  lemma AnchorFacts(u: iset<Header>, genesis: Header, db: Db, s: Shape, top: nat)
    requires Sound(u, genesis, db, s, top) && s.anchor > 0
    ensures s.anchor in db.canon && db.checkpoints == [db.canon[s.anchor]] && 0 < s.low && s.anchor <= Height(db) <= top
    ensures forall n: nat :: s.anchor <= n <= Height(db) ==> n in db.canon
    ensures db.head.Some? && db.head.value in db.headers && db.canon[s.anchor] in db.headers
  {}

  lemma GapEndPersisted(u: iset<Header>, genesis: Header, db: Db, s: Shape, top: nat, h: Header, score: int)
    requires Sound(u, genesis, db, s, top) && h in u && h.number == s.low < s.anchor
    requires (h == genesis || h.parent in db.headers) && ScoreBefore(db, h, score)
    ensures var r := PersistOne(u, genesis, db, h, score, db.gaps);
            if WrongFill(db, s, h) then r == Err(CheckpointsMustBeCanonical)
            else r.Ok? && OneDone(u, genesis, db, s, top, h, r.value)
  {
    hide Within, Universe, NoDifficulty, Rooted, Linked, Tri, NewScore, FillGap, Scored, Canonicalize, GapsOf,
      LinkRight, ScoreBefore, Height, CanonKnown, OneDone, PersistOne, CanonicalHeader;
    AnchorFacts(u, genesis, db, s, top);
    FillShape(s, top, h);
    HeaderRecorded(u, genesis, db, s, top, h, score);
    var d := Recorded(db, s, top, h, score);
    if s.low + 1 == s.anchor {
      LinkedRight(u, db, s, h, d);
    }
    GapWriteUnfolds(u, genesis, db, h, score, if s.low + 1 == s.anchor then GapFill else GapLeftShrink, d);
    if !WrongFill(db, s, h) {
      GapEndWritten(u, genesis, d, s, top, h);
      GapEndDone(u, genesis, db, s, top, h, score);
    }
  }

  lemma GapEndDone(u: iset<Header>, genesis: Header, db: Db, s: Shape, top: nat, h: Header, score: int)
    requires Sound(u, genesis, db, s, top) && h in u && h.number == s.low < s.anchor
    requires (h == genesis || h.parent in db.headers) && ScoreBefore(db, h, score)
    requires var d := Recorded(db, s, top, h, score);
             && Within(u, d) &&
             var r := Canonicalize(u, genesis, d, h);
             && r.Ok? && r.value.db == d.(canon := r.value.db.canon)
             && Canonical(genesis, r.value.db, After(s, h))
             && forall n: nat :: s.anchor <= n <= Height(d) ==>
                  n in d.canon && n in r.value.db.canon && r.value.db.canon[n] == d.canon[n]
    ensures var d := Recorded(db, s, top, h, score);
            OneDone(u, genesis, db, s, top, h, Progress(Canonicalize(u, genesis, d, h).value.db, d.gaps, NewScore(h, score)))
  {
    hide Within, Universe, NoDifficulty, Rooted, Linked, Tri, NewScore, FillGap, Scored, Canonicalize, GapsOf,
      LinkRight, ScoreBefore, CanonKnown;
    HeaderRecorded(u, genesis, db, s, top, h, score);
    var d := Recorded(db, s, top, h, score);
    var e := Canonicalize(u, genesis, d, h).value.db;
    assert s.anchor in d.canon && s.anchor in e.canon && e.canon[s.anchor] == d.canon[s.anchor];
    SameHeaders(u, genesis, d, e, After(s, h), top, top);
    assert Sound(u, genesis, e, After(s, h), top);
  }

  //
  // Batches
  //

  ghost predicate Contiguous(headers: seq<Header>) {
    forall i, j :: 0 <= i < j < |headers| && j == i + 1 ==> headers[j].parent == headers[i].hash
  }

  // What a batch, up to its last header, does before the head is chosen.
  ghost predicate RestDone(u: iset<Header>, genesis: Header, db: Db, s: Shape, top: nat, last: Header, p: Progress, s': Shape) {
    && Sound(u, genesis, p.db, s', Max(top, last.number)) && s'.anchor == s.anchor && s.low <= s'.low
    && p.gaps == p.db.gaps && p.score == Tri(last.number)
    && last.hash in p.db.headers && p.db.headers[last.hash] == last
    && p.db.head == db.head && Height(p.db) == Height(db)
    && (forall n: nat :: s.anchor <= n && n in db.canon ==> n in p.db.canon && p.db.canon[n] == db.canon[n])
    && (s.anchor == 0 ==> p.db.canon == db.canon)
  }

  lemma {:induction false} PersistRestKeeps(
    u: iset<Header>, genesis: Header, p: Progress, s: Shape, top: nat, parent: Header, rest: seq<Header>
  ) returns (s': Shape)
    requires Sound(u, genesis, p.db, s, top) && forall h :: h in rest ==> h in u
    requires parent in u && parent.hash in p.db.headers && p.db.headers[parent.hash] == parent
    requires p.score == Tri(parent.number) && p.gaps == p.db.gaps && parent.number <= top
    ensures var r := PersistRest(u, genesis, p, parent, rest);
            && (r.Ok? ==> Contiguous([parent] + rest))
            && (r.Ok? && rest != [] ==> Last(rest).number == parent.number + |rest|)
            && (r.Ok? ==> RestDone(u, genesis, p.db, s, top, if rest == [] then parent else Last(rest), r.value, s'))
            && (r.Err? && Contiguous([parent] + rest) ==> r.error == CheckpointsMustBeCanonical && s.anchor > 0)
    decreases |rest|
  {
    hide Universe, Within, NoDifficulty, Canonical, Rooted, Scored, Tri, WrongFill, PersistOne, Contiguous, Height, GapsOf;
    s' := s;
    if rest == [] {
      OneIsContiguous(parent);
      assert [parent] + rest == [parent];
    } else {
      var h := rest[0];
      if h.parent == parent.hash {
        ParentNotGenesis(u, genesis, parent, h);
        PersistOneKeeps(u, genesis, p.db, s, top, h, p.score);
        var one := PersistOne(u, genesis, p.db, h, p.score, p.gaps);
        ContiguousTail(parent, rest);
        if one.Ok? {
          s' := PersistRestKeeps(u, genesis, one.value, After(s, h), Max(top, h.number), h, rest[1..]);
        } else {
          NotWrong(p.db, s, h);
        }
      } else {
        NotContiguous(parent, rest);
      }
    }
  }

  lemma OneIsContiguous(h: Header)
    ensures Contiguous([h])
  {}

  lemma NotContiguous(parent: Header, rest: seq<Header>)
    requires rest != [] && rest[0].parent != parent.hash
    ensures !Contiguous([parent] + rest)
  {
    var all := [parent] + rest;
    assert all[0] == parent && all[1] == rest[0];
  }

  lemma ParentNotGenesis(u: iset<Header>, genesis: Header, parent: Header, h: Header)
    requires Universe(u, genesis) && parent in u && h in u && h.parent == parent.hash
    ensures h.parent != GENESIS_PARENT_HASH && h.number == parent.number + 1
  {}

  lemma ContiguousTail(parent: Header, rest: seq<Header>)
    requires rest != [] && rest[0].parent == parent.hash
    ensures Contiguous([parent] + rest) <==> Contiguous([rest[0]] + rest[1..])
  {
    var all, tail := [parent] + rest, [rest[0]] + rest[1..];
    assert tail == rest;
    assert forall i :: 0 <= i < |rest| ==> all[i + 1] == rest[i];
    if Contiguous(tail) {
      forall i, j | 0 <= i < j < |all| && j == i + 1 ensures all[j].parent == all[i].hash {
        assert all[j] == rest[i];
        assert i > 0 ==> all[i] == rest[i - 1];
      }
    }
    if Contiguous(all) {
      forall i, j | 0 <= i < j < |tail| && j == i + 1 ensures tail[j].parent == tail[i].hash {
        assert all[j + 1] == rest[j] && all[i + 1] == rest[i];
      }
    }
  }
}
