// veda/db/header.py: which headers a batch leaves in the database, and their
// scores, for headers of any difficulty.
module HeaderRecords {
  import opened Wrappers
  import opened ChainGapRecords
  import opened HeaderChains
  import opened HeaderSafety
  import opened HeaderRuns

  // What a header adds to the score of its parent.
  function Weight(h: Header): int {
    if h.difficulty != 0 then h.difficulty else h.number
  }

  // The header known as x has the score of its parent, which is known too,
  // and its own weight.
  ghost predicate Adds(db: Db, x: Hash)
    requires x in db.headers
  {
    var h := db.headers[x];
    && x in db.scores
    && if h.parent == GENESIS_PARENT_HASH then db.scores[x] == Weight(h)
       else h.parent in db.headers && h.parent in db.scores && db.scores[x] == db.scores[h.parent] + Weight(h)
  }

  ghost predicate AddsUp(db: Db) {
    forall x :: x in db.headers ==> Adds(db, x)
  }

  lemma WithOneAddsUp(u: iset<Header>, genesis: Header, db: Db, d: Db, h: Header, score: int)
    requires Universe(u, genesis) && Within(u, db) && h in u && AddsUp(db)
    requires h.parent == GENESIS_PARENT_HASH ==> score == 0
    requires h.parent != GENESIS_PARENT_HASH ==>
               h.parent in db.headers && h.parent in db.scores && score == db.scores[h.parent]
    requires d.headers == db.headers[h.hash := h] && d.scores == db.scores[h.hash := NewScore(h, score)]
    ensures AddsUp(d)
  {
    hide AddsUp;
    forall x | x in d.headers ensures Adds(d, x) {
      if x == h.hash {
        NotItsParent(u, genesis, db, h);
      } else {
        AddsOf(db, x);
        var q := d.headers[x].parent;
        if q == h.hash && q != GENESIS_PARENT_HASH {
          KnownAs(u, genesis, db, h);
          AddsOf(db, q);
        }
      }
    }
    AllAdd(d);
  }

  lemma AddsOf(db: Db, x: Hash)
    requires AddsUp(db) && x in db.headers
    ensures Adds(db, x)
  {}

  lemma AllAdd(db: Db)
    requires forall x :: x in db.headers ==> Adds(db, x)
    ensures AddsUp(db)
  {}

  lemma NotItsParent(u: iset<Header>, genesis: Header, db: Db, h: Header)
    requires Universe(u, genesis) && Within(u, db) && h in u
    ensures h.parent in db.headers ==> h.parent != h.hash
  {}

  lemma KnownAs(u: iset<Header>, genesis: Header, db: Db, h: Header)
    requires Universe(u, genesis) && Within(u, db) && h in u
    ensures h.hash in db.headers ==> db.headers[h.hash] == h
  {}

  // The headers of a batch are there as they are, together with the old ones.
  ghost predicate Recorded(db: Db, d: Db, headers: seq<Header>) {
    && (forall h :: h in headers ==> h.hash in d.headers && d.headers[h.hash] == h)
    && Extends(db, d)
    && (forall x :: x in d.headers ==> x in db.headers || d.headers[x] in headers)
  }

  lemma OneRecorded(u: iset<Header>, genesis: Header, db: Db, d: Db, h: Header)
    requires Universe(u, genesis) && Within(u, db) && h in u && d.headers == db.headers[h.hash := h]
    ensures Recorded(db, d, [h])
  {
    KnownAs(u, genesis, db, h);
  }

  lemma RecordedTwice(db: Db, d: Db, e: Db, a: seq<Header>, b: seq<Header>)
    requires Recorded(db, d, a) && Recorded(d, e, b)
    ensures Recorded(db, e, a + b)
  {}

  lemma {:induction false} RestRecords(u: iset<Header>, genesis: Header, p: Progress, parent: Header, rest: seq<Header>)
    requires Universe(u, genesis) && Within(u, p.db) && AllIn(u, rest) && AddsUp(p.db) && parent in u
    requires parent.hash in p.db.headers && parent.hash in p.db.scores && p.score == p.db.scores[parent.hash]
    ensures var r := PersistRest(u, genesis, p, parent, rest);
            r.Ok? ==> Recorded(p.db, r.value.db, rest) && AddsUp(r.value.db)
    decreases |rest|
  {
    hide PersistOne, AddsUp, Recorded;
    if rest == [] {
      NothingRecorded(p.db);
    } else if rest[0].parent == parent.hash {
      var h := rest[0];
      assert h in u;
      var next := PersistOne(u, genesis, p.db, h, p.score, p.gaps);
      if next.Ok? {
        PersistOneWithin(u, genesis, p.db, h, p.score, p.gaps);
        ParentIsNotGenesis(u, genesis, p.db, h);
        WithOneAddsUp(u, genesis, p.db, next.value.db, h, p.score);
        OneRecorded(u, genesis, p.db, next.value.db, h);
        PersistOneScore(u, genesis, p.db, h, p.score, p.gaps);
        hide Universe, Within;
        RestRecords(u, genesis, next.value, h, rest[1..]);
        assert rest == [h] + rest[1..];
        if PersistRest(u, genesis, next.value, h, rest[1..]).Ok? {
          RecordedTwice(p.db, next.value.db, PersistRest(u, genesis, next.value, h, rest[1..]).value.db, [h], rest[1..]);
        }
      }
    }
  }

  lemma NothingRecorded(db: Db)
    ensures Recorded(db, db, [])
  {}

  // The parent of a known header's child is not the parent of genesis.
  lemma ParentIsNotGenesis(u: iset<Header>, genesis: Header, db: Db, h: Header)
    requires Universe(u, genesis) && Within(u, db) && h in u && h.parent in db.headers
    ensures h.parent != GENESIS_PARENT_HASH
  {
    assert db.headers[h.parent] in u && db.headers[h.parent].hash == h.parent;
  }

  lemma PersistOneScore(u: iset<Header>, genesis: Header, db: Db, h: Header, score: int, base: ChainGaps)
    requires Universe(u, genesis) && Within(u, db) && h in u
    ensures var r := PersistOne(u, genesis, db, h, score, base); r.Ok? ==> r.value.score == NewScore(h, score)
  {}

  lemma HeadKeepsHeaders(u: iset<Header>, genesis: Header, p: Progress, last: Header)
    requires Universe(u, genesis) && Within(u, p.db) && last in u
    ensures var r := ChooseHead(u, genesis, p, last);
            r.Ok? ==> r.value.db.headers == p.db.headers && r.value.db.scores == p.db.scores
  {
    hide Universe, Within, Canonicalize;
    CanonicalizeHeaders(u, genesis, p.db, last);
  }

  lemma SameRecords(db: Db, d: Db, e: Db, headers: seq<Header>)
    requires Recorded(db, d, headers) && AddsUp(d) && e.headers == d.headers && e.scores == d.scores
    ensures Recorded(db, e, headers) && AddsUp(e)
  {
    hide Adds;
    forall x | x in e.headers ensures Adds(e, x) {
      SameAdds(d, e, x);
    }
  }

  lemma SameAdds(d: Db, e: Db, x: Hash)
    requires e.headers == d.headers && e.scores == d.scores && x in d.headers && Adds(d, x)
    ensures Adds(e, x)
  {}

  // A batch that succeeds adds its headers and no other, each with its score.
  lemma BatchRecords(u: iset<Header>, genesis: Header, db: Db, headers: seq<Header>)
    requires Universe(u, genesis) && Within(u, db) && AllIn(u, headers) && AddsUp(db)
    ensures var r := PersistHeaderChain(u, genesis, db, headers);
            r.Ok? ==> Recorded(db, r.value.db, headers) && AddsUp(r.value.db)
  {
    hide PersistOne, AddsUp, Recorded, PersistRest, ChooseHead;
    if headers == [] {
      NothingRecorded(db);
    } else if PersistHeaderChain(u, genesis, db, headers).Ok? {
      BatchUnfolds(u, genesis, db, headers);
      var first := headers[0];
      assert first in u && headers == [first] + headers[1..];
      var score := if first.parent == GENESIS_PARENT_HASH then 0 else db.scores[first.parent];
      var one := PersistOne(u, genesis, db, first, score, db.gaps).value;
      PersistOneWithin(u, genesis, db, first, score, db.gaps);
      PersistOneScore(u, genesis, db, first, score, db.gaps);
      WithOneAddsUp(u, genesis, db, one.db, first, score);
      OneRecorded(u, genesis, db, one.db, first);
      RestRecords(u, genesis, one, first, headers[1..]);
      var all := PersistRest(u, genesis, one, first, headers[1..]).value;
      RecordedTwice(db, one.db, all.db, [first], headers[1..]);
      HeadKeepsHeaders(u, genesis, all, Last(headers));
      SameRecords(db, all.db, PersistHeaderChain(u, genesis, db, headers).value.db, headers);
    }
  }

  // In every run from an empty database the headers are exactly those accepted,
  // and every score is the sum of the weights down to genesis.
  lemma {:induction false} RunRecords(u: iset<Header>, genesis: Header, states: seq<Db>, batches: seq<seq<Header>>)
    requires Universe(u, genesis) && RunOf(u, genesis, states, batches) && states[0] == EMPTY_DB
    ensures Recorded(EMPTY_DB, Last(states), Accepted(u, genesis, states, batches)) && AddsUp(Last(states))
    decreases |batches|
  {
    if batches == [] {
      NothingRecorded(EMPTY_DB);
    } else {
      AcceptedStep(u, genesis, states, batches);
      RunRecords(u, genesis, Front(states), Front(batches));
      var db, headers := Last(Front(states)), Last(batches);
      var log := Accepted(u, genesis, Front(states), Front(batches));
      hide Universe, PersistHeaderChain, Accepted, Recorded, AddsUp, RunOf;
      BatchRecords(u, genesis, db, headers);
      if PersistHeaderChain(u, genesis, db, headers).Ok? {
        RecordedTwice(EMPTY_DB, db, Last(states), log, headers);
      } else {
        assert log + [] == log;
      }
    }
  }

  // The weights of the headers from h down to genesis.
  ghost function WeightSum(u: iset<Header>, genesis: Header, db: Db, h: Header): int
    requires Universe(u, genesis) && Within(u, db) && h in u
    decreases h.number
  {
    Weight(h) + if h.parent == GENESIS_PARENT_HASH || h.parent !in db.headers then 0
                else WeightSum(u, genesis, db, db.headers[h.parent])
  }

  lemma {:induction false} ScoreIsWeightSum(u: iset<Header>, genesis: Header, db: Db, x: Hash)
    requires Universe(u, genesis) && Within(u, db) && AddsUp(db) && x in db.headers
    ensures x in db.scores && db.scores[x] == WeightSum(u, genesis, db, db.headers[x])
    decreases db.headers[x].number
  {
    hide AddsUp;
    AddsOf(db, x);
    var h := db.headers[x];
    if h.parent != GENESIS_PARENT_HASH {
      assert db.headers[h.parent] in u && db.headers[h.parent].hash == h.parent;
      ScoreIsWeightSum(u, genesis, db, h.parent);
    }
  }

  // All but the lookup by number and the gaps is the same.
  predicate SameRecord(d: Db, e: Db) {
    e == d.(canon := e.canon, gaps := e.gaps)
  }

  lemma HeadRecords(u: iset<Header>, genesis: Header, d: Db, h: Header)
    requires Universe(u, genesis) && Within(u, d) && h in u
    ensures var r := SetAsHead(u, genesis, d, h); r.Ok? ==> SameRecord(d.(head := Some(h.hash)), r.value.db)
  {
    hide Universe, Within, Canonicalize;
    CanonicalizeHeaders(u, genesis, d, h);
  }

  lemma ParentRecords(d: Db, h: Header, gaps: ChainGaps)
    ensures var r := CheckParent(d, h, gaps); r.Ok? ==> SameRecord(d, r.value)
  {
    hide ReopenGap;
  }

  lemma OrphansRecords(d: Db, h: Header, checkpoints: seq<Hash>)
    ensures var r := DropOrphans(d, h, checkpoints); r.Ok? ==> SameRecord(d, r.value)
  {
    hide ReopenGap, DropStreak;
    if CanonicalHeader(d, h.number + 1).Some? {
      DropStreakHeaders(d, h.number + 1, checkpoints);
    }
  }

  lemma SameTwice(d: Db, e: Db, f: Db)
    requires SameRecord(d, e) && SameRecord(e, f)
    ensures SameRecord(d, f)
  {}

  // The checkpoint as it is put in before it becomes the head.
  function CheckpointAdded(db: Db, h: Header, score: int): Db {
    WithHeader(db, h, if h.difficulty != 0 then score - h.difficulty else score - h.number)
      .(checkpoints := db.checkpoints + [h.hash])
  }

  lemma CheckpointSame(u: iset<Header>, genesis: Header, db: Db, h: Header, score: int)
    requires Universe(u, genesis) && Within(u, db) && h in u
    requires Within(u, CheckpointAdded(db, h, score))
    ensures var r := PersistCheckpointHeader(u, genesis, db, h, score);
            r.Ok? ==> SameRecord(CheckpointAdded(db, h, score).(head := Some(h.hash)), r.value)
  {
    var r := PersistCheckpointHeader(u, genesis, db, h, score);
    var d := CheckpointAdded(db, h, score);
    HeadRecords(u, genesis, d, h);
    hide FillGap, SetAsHead, CheckParent, DropOrphans, Universe, Within, WithHeader;
    if r.Ok? {
      var s := SetAsHead(u, genesis, d, h).value.db;
      var (change, gaps) := FillGap(h.number, s.gaps).value;
      var f := if change == NoChange then s else s.(gaps := gaps);
      assert SameRecord(d.(head := Some(h.hash)), f);
      ParentRecords(f, h, gaps);
      var checked := CheckParent(f, h, gaps).value;
      OrphansRecords(checked, h, d.checkpoints);
      hide SameRecord;
      SameTwice(d.(head := Some(h.hash)), f, checked);
      SameTwice(d.(head := Some(h.hash)), checked, r.value);
    }
  }

  // A checkpoint of any difficulty becomes the head with the score that it is
  // given, and nothing else is recorded.
  lemma CheckpointRecords(u: iset<Header>, genesis: Header, db: Db, h: Header, score: int)
    requires Universe(u, genesis) && Within(u, db) && h in u
    ensures var r := PersistCheckpointHeader(u, genesis, db, h, score);
            r.Ok? ==>
              && r.value.headers == db.headers[h.hash := h] && r.value.scores == db.scores[h.hash := score]
              && r.value.head == Some(h.hash) && r.value.checkpoints == db.checkpoints + [h.hash]
  {
    CheckpointWithin(u, db, h, CheckpointAdded(db, h, score));
    hide PersistCheckpointHeader, Universe, Within;
    CheckpointSame(u, genesis, db, h, score);
  }

  lemma CheckpointWithin(u: iset<Header>, db: Db, h: Header, d: Db)
    requires Within(u, db) && h in u && d.headers == db.headers[h.hash := h]
    ensures Within(u, d)
  {}
}
