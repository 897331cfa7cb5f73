// veda/db/header.py: the header database, its fork choice and its gap record.
// The keys of the underlying database are one field each: the headers by hash,
// the scores by hash, the canonical hash by number, the head, the gaps (with
// the default used when the key is absent) and the checkpoints.
module HeaderChains {
  import opened Wrappers
  import opened ChainGapRecords

  type Hash = nat

  const GENESIS_PARENT_HASH: Hash := 0

  datatype Header = Header(hash: Hash, parent: Hash, number: nat, difficulty: nat)

  datatype Failure =
    | ParentNotFound | NonContiguousChain | CheckpointsMustBeCanonical | HeaderNotFound
    | BadBlockNumber | TrueParentNotCanonical | GapFailure(error: Error)

  datatype Db = Db(
    headers: map<Hash, Header>,
    scores: map<Hash, int>,
    canon: map<nat, Hash>,
    head: Option<Hash>,
    gaps: ChainGaps,
    checkpoints: seq<Hash>)

  const EMPTY_DB := Db(map[], map[], map[], None, GENESIS_CHAIN_GAPS, [])

  // A database after a change of head: the headers that became canonical, in
  // ascending order, and those that were canonical at the same numbers.
  datatype Switch = Switch(db: Db, added: seq<Header>, removed: seq<Header>)

  // A database after one header of a batch, the gaps handed to the next one
  // and the score of the header.
  datatype Progress = Progress(db: Db, gaps: ChainGaps, score: int)

  // The headers that can ever be handed over: no two with one hash, children
  // numbered one above their parents, and a single genesis.
  ghost predicate Universe(u: iset<Header>, genesis: Header) {
    && genesis in u && genesis.number == 0 && genesis.parent == GENESIS_PARENT_HASH
    && (forall a, b :: a in u && b in u && a.hash == b.hash ==> a == b)
    && (forall a, b :: a in u && b in u && b.parent == a.hash ==> b.number == a.number + 1)
    && (forall a :: a in u && a.parent == GENESIS_PARENT_HASH ==> a == genesis)
  }

  ghost predicate Within(u: iset<Header>, db: Db) {
    forall x :: x in db.headers ==> db.headers[x] in u && db.headers[x].hash == x
  }

  function CanonicalHeader(db: Db, n: nat): Option<Header> {
    if n in db.canon && db.canon[n] in db.headers then Some(db.headers[db.canon[n]]) else None
  }

  function NewScore(h: Header, score: int): int {
    if h.difficulty != 0 then score + h.difficulty else score + h.number
  }

  function WithHeader(db: Db, h: Header, score: int): Db {
    db.(headers := db.headers[h.hash := h], scores := db.scores[h.hash := NewScore(h, score)])
  }

  // From h down to the first ancestor that is canonical, genesis, or without a
  // known parent.
  ghost function NewAncestors(u: iset<Header>, genesis: Header, db: Db, h: Header): seq<Header>
    requires Universe(u, genesis) && Within(u, db) && h in u
    decreases h.number
  {
    var orig := CanonicalHeader(db, h.number);
    if orig.Some? && orig.value.hash == h.hash then []
    else if h.parent == GENESIS_PARENT_HASH || h.parent !in db.headers then [h]
    else [h] + NewAncestors(u, genesis, db, db.headers[h.parent])
  }

  function Reverse(s: seq<Header>): seq<Header> {
    if s == [] then [] else Reverse(s[1..]) + [s[0]]
  }

  // The headers now canonical at the numbers of the added ones.
  function HeadersToDecanonicalize(db: Db, added: seq<Header>): Result<seq<Header>, Failure> {
    if added == [] then Ok([])
    else
      var n := added[0].number;
      if n !in db.canon then HeadersToDecanonicalize(db, added[1..])
      else if db.canon[n] !in db.headers then Err(HeaderNotFound)
      else
        var rest := HeadersToDecanonicalize(db, added[1..]);
        if rest.Err? then rest else Ok([db.headers[db.canon[n]]] + rest.value)
  }

  function AddLookups(canon: map<nat, Hash>, added: seq<Header>): map<nat, Hash> {
    if added == [] then canon else AddLookups(canon, Front(added))[Last(added).number := Last(added).hash]
  }

  // Take n and the canonical numbers that follow it without a break out of the
  // lookup, and record each as a gap.
  function DropStreak(db: Db, n: nat, checkpoints: seq<Hash>): Result<Db, Failure>
    requires n in db.canon
    decreases |db.canon|
  {
    var reopened := ReopenGap(n, db.gaps);
    if reopened.Err? then Err(GapFailure(reopened.error))
    else
      var d := db.(canon := db.canon - {n}, gaps := reopened.value);
      assert db.canon == d.canon[n := db.canon[n]];
      var next := CanonicalHeader(d, n + 1);
      if next.None? then Ok(d)
      else if next.value.hash in checkpoints then Err(CheckpointsMustBeCanonical)
      else DropStreak(d, n + 1, checkpoints)
  }

  function DropOrphans(db: Db, h: Header, checkpoints: seq<Hash>): Result<Db, Failure> {
    var child := CanonicalHeader(db, h.number + 1);
    if child.None? || child.value.parent == h.hash then Ok(db)
    else if child.value.hash in checkpoints then Err(CheckpointsMustBeCanonical)
    else DropStreak(db, h.number + 1, checkpoints)
  }

  predicate AnyCheckpoint(hs: seq<Header>, checkpoints: seq<Hash>) {
    exists i :: 0 <= i < |hs| && hs[i].hash in checkpoints
  }

  ghost function Canonicalize(u: iset<Header>, genesis: Header, db: Db, h: Header): Result<Switch, Failure>
    requires Universe(u, genesis) && Within(u, db) && h in u
  {
    var added := Reverse(NewAncestors(u, genesis, db, h));
    var removed := HeadersToDecanonicalize(db, added);
    if removed.Err? then Err(removed.error)
    else if AnyCheckpoint(removed.value, db.checkpoints) then Err(CheckpointsMustBeCanonical)
    else
      var d := db.(canon := AddLookups(db.canon, added));
      if added == [] then Ok(Switch(d, added, removed.value))
      else
        var dropped := DropOrphans(d, Last(added), db.checkpoints);
        if dropped.Err? then Err(dropped.error) else Ok(Switch(dropped.value, added, removed.value))
  }

  ghost function SetAsHead(u: iset<Header>, genesis: Header, db: Db, h: Header): Result<Switch, Failure>
    requires Universe(u, genesis) && Within(u, db) && h in u
  {
    if db.head == Some(h.parent) then
      Ok(Switch(db.(canon := db.canon[h.number := h.hash], head := Some(h.hash)), [h], []))
    else
      var r := Canonicalize(u, genesis, db, h);
      if r.Err? then r else Ok(r.value.(db := r.value.db.(head := Some(h.hash))))
  }

  function DecanonicalizeSingle(db: Db, n: nat, base: ChainGaps): Result<(Db, ChainGaps), Failure> {
    var reopened := ReopenGap(n, base);
    if reopened.Err? then Err(GapFailure(reopened.error))
    else
      var d := db.(canon := db.canon - {n});
      Ok((if reopened.value != base then d.(gaps := reopened.value) else d, reopened.value))
  }

  // Does a canonical child of h, the right neighbour of a filled gap, hang on
  // another parent?  A checkpoint that does rejects h, another header is dropped.
  function LinkRight(db: Db, gaps: ChainGaps, h: Header): Result<(Db, ChainGaps), Failure> {
    var child := CanonicalHeader(db, h.number + 1);
    if child.None? then Err(HeaderNotFound)
    else if child.value.parent == h.hash then Ok((db, gaps))
    else if child.value.hash in db.checkpoints then Err(CheckpointsMustBeCanonical)
    else DecanonicalizeSingle(db, child.value.number, gaps)
  }

  ghost function HandleGapChange(
    u: iset<Header>, genesis: Header, db: Db, change: GapChange, gaps: ChainGaps, h: Header
  ): Result<(Db, ChainGaps), Failure>
    requires Universe(u, genesis) && Within(u, db) && h in u
  {
    if !IsGapWrite(change) then Ok((db, gaps))
    else
      var linked :=
        if change == GapFill || change == GapRightShrink then LinkRight(db, gaps, h) else Ok((db, gaps));
      if linked.Err? then linked
      else
        var r := Canonicalize(u, genesis, linked.value.0, h);
        if r.Err? then Err(r.error) else Ok((r.value.db, linked.value.1))
  }

  ghost function PersistOne(
    u: iset<Header>, genesis: Header, db: Db, h: Header, score: int, base: ChainGaps
  ): Result<Progress, Failure>
    requires Universe(u, genesis) && Within(u, db) && h in u
  {
    var d := WithHeader(db, h, score);
    var fill := FillGap(h.number, base);
    if fill.Err? then Err(GapFailure(fill.error))
    else
      var (change, gaps) := fill.value;
      var r := HandleGapChange(u, genesis, if change == NoChange then d else d.(gaps := gaps), change, gaps, h);
      if r.Err? then Err(r.error) else Ok(Progress(r.value.0, r.value.1, NewScore(h, score)))
  }

  // The children of a batch, one after the other.
  ghost function PersistRest(
    u: iset<Header>, genesis: Header, p: Progress, parent: Header, rest: seq<Header>
  ): (r: Result<Progress, Failure>)
    requires Universe(u, genesis) && Within(u, p.db) && forall h :: h in rest ==> h in u
    decreases |rest|
  {
    if rest == [] then Ok(p)
    else if rest[0].parent != parent.hash then Err(NonContiguousChain)
    else
      var next := PersistOne(u, genesis, p.db, rest[0], p.score, p.gaps);
      if next.Err? then next
      else
        PersistOneWithin(u, genesis, p.db, rest[0], p.score, p.gaps);
        PersistRest(u, genesis, next.value, rest[0], rest[1..])
  }

  ghost function ChooseHead(u: iset<Header>, genesis: Header, p: Progress, last: Header): Result<Switch, Failure>
    requires Universe(u, genesis) && Within(u, p.db) && last in u
  {
    if p.db.head.None? then SetAsHead(u, genesis, p.db, last)
    else if p.db.head.value !in p.db.scores then Err(HeaderNotFound)
    else if p.score > p.db.scores[p.db.head.value] then SetAsHead(u, genesis, p.db, last)
    else Ok(Switch(p.db, [], []))
  }

  ghost function PersistHeaderChain(u: iset<Header>, genesis: Header, db: Db, headers: seq<Header>): Result<Switch, Failure>
    requires Universe(u, genesis) && Within(u, db) && forall h :: h in headers ==> h in u
  {
    if headers == [] then Ok(Switch(db, [], []))
    else
      var first := headers[0];
      var isGenesis := first.parent == GENESIS_PARENT_HASH;
      if !isGenesis && first.parent !in db.headers then Err(ParentNotFound)
      else if !isGenesis && first.parent !in db.scores then Err(HeaderNotFound)
      else
        var score := if isGenesis then 0 else db.scores[first.parent];
        var one := PersistOne(u, genesis, db, first, score, db.gaps);
        if one.Err? then Err(one.error)
        else
          PersistOneWithin(u, genesis, db, first, score, db.gaps);
          var all := PersistRest(u, genesis, one.value, first, headers[1..]);
          if all.Err? then Err(all.error)
          else
            PersistRestWithin(u, genesis, one.value, first, headers[1..]);
            ChooseHead(u, genesis, all.value, Last(headers))
  }

  ghost function PersistCheckpointHeader(u: iset<Header>, genesis: Header, db: Db, h: Header, score: int): Result<Db, Failure>
    requires Universe(u, genesis) && Within(u, db) && h in u
  {
    var previous := if h.difficulty != 0 then score - h.difficulty else score - h.number;
    var d := WithHeader(db, h, previous).(checkpoints := db.checkpoints + [h.hash]);
    var s := SetAsHead(u, genesis, d, h);
    if s.Err? then Err(s.error)
    else
      var fill := FillGap(h.number, s.value.db.gaps);
      if fill.Err? then Err(GapFailure(fill.error))
      else
        var (change, gaps) := fill.value;
        var f := if change == NoChange then s.value.db else s.value.db.(gaps := gaps);
        var checked := CheckParent(f, h, gaps);
        if checked.Err? then checked else DropOrphans(checked.value, h, d.checkpoints)
  }

  // A canonical header just below a checkpoint that is not its parent goes.
  function CheckParent(db: Db, h: Header, gaps: ChainGaps): Result<Db, Failure> {
    if h.number == 0 then Err(BadBlockNumber)
    else if h.number - 1 !in db.canon || db.canon[h.number - 1] == h.parent then Ok(db)
    else if h.parent in db.headers then Err(TrueParentNotCanonical)
    else
      var r := DecanonicalizeSingle(db, h.number - 1, gaps);
      if r.Err? then Err(r.error) else Ok(r.value.0)
  }

  //
  // No operation adds headers from elsewhere
  //

  lemma {:induction false} DropStreakHeaders(db: Db, n: nat, checkpoints: seq<Hash>)
    requires n in db.canon
    ensures var r := DropStreak(db, n, checkpoints);
            r.Ok? ==> r.value == db.(canon := r.value.canon, gaps := r.value.gaps)
    decreases |db.canon|
  {
    var reopened := ReopenGap(n, db.gaps);
    if reopened.Ok? {
      var d := db.(canon := db.canon - {n}, gaps := reopened.value);
      assert db.canon == d.canon[n := db.canon[n]];
      var next := CanonicalHeader(d, n + 1);
      if next.Some? && next.value.hash !in checkpoints {
        DropStreakHeaders(d, n + 1, checkpoints);
      }
    }
  }

  lemma CanonicalizeHeaders(u: iset<Header>, genesis: Header, db: Db, h: Header)
    requires Universe(u, genesis) && Within(u, db) && h in u
    ensures var r := Canonicalize(u, genesis, db, h);
            r.Ok? ==> r.value.db == db.(canon := r.value.db.canon, gaps := r.value.db.gaps)
  {
    hide Universe, Within, NewAncestors, ReopenGap, DropStreak;
    var added := Reverse(NewAncestors(u, genesis, db, h));
    if added != [] && Last(added).number + 1 in AddLookups(db.canon, added) {
      DropStreakHeaders(db.(canon := AddLookups(db.canon, added)), Last(added).number + 1, db.checkpoints);
    }
  }

  lemma HandleGapChangeHeaders(
    u: iset<Header>, genesis: Header, db: Db, change: GapChange, gaps: ChainGaps, h: Header
  )
    requires Universe(u, genesis) && Within(u, db) && h in u
    ensures var r := HandleGapChange(u, genesis, db, change, gaps, h);
            r.Ok? ==> r.value.0 == db.(canon := r.value.0.canon, gaps := r.value.0.gaps)
  {
    hide FillGap, ReopenGap, Canonicalize, Universe, Within, CanonicalHeader;
    if IsGapWrite(change) {
      var linked := if change == GapFill || change == GapRightShrink then LinkRight(db, gaps, h) else Ok((db, gaps));
      if linked.Ok? {
        assert linked.value.0 == db.(canon := linked.value.0.canon, gaps := linked.value.0.gaps);
        WithinHeaders(u, db, linked.value.0);
        CanonicalizeHeaders(u, genesis, linked.value.0, h);
      }
    }
  }

  lemma WithinHeaders(u: iset<Header>, db: Db, d: Db)
    requires Within(u, db) && d.headers == db.headers
    ensures Within(u, d)
  {}

  lemma PersistOneWithin(u: iset<Header>, genesis: Header, db: Db, h: Header, score: int, base: ChainGaps)
    requires Universe(u, genesis) && Within(u, db) && h in u
    ensures var r := PersistOne(u, genesis, db, h, score, base);
            r.Ok? ==> && Within(u, r.value.db) && r.value.db.headers == db.headers[h.hash := h]
                      && r.value.db.head == db.head && r.value.db.checkpoints == db.checkpoints
                      && r.value.db.scores == db.scores[h.hash := NewScore(h, score)]
  {
    hide FillGap, HandleGapChange;
    var d := WithHeader(db, h, score);
    var fill := FillGap(h.number, base);
    if fill.Ok? {
      var (change, gaps) := fill.value;
      HandleGapChangeHeaders(u, genesis, if change == NoChange then d else d.(gaps := gaps), change, gaps, h);
    }
  }

  lemma {:induction false} PersistRestWithin(u: iset<Header>, genesis: Header, p: Progress, parent: Header, rest: seq<Header>)
    requires Universe(u, genesis) && Within(u, p.db) && forall h :: h in rest ==> h in u
    ensures var r := PersistRest(u, genesis, p, parent, rest); r.Ok? ==> Within(u, r.value.db)
    decreases |rest|
  {
    hide Universe, Within, PersistOne;
    if rest != [] {
      var next := PersistOne(u, genesis, p.db, rest[0], p.score, p.gaps);
      if next.Ok? {
        PersistOneWithin(u, genesis, p.db, rest[0], p.score, p.gaps);
        PersistRestWithin(u, genesis, next.value, rest[0], rest[1..]);
      }
    }
  }
}
