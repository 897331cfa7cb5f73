// Whole runs of veda/db/header.py: batches of headers, before and after a
// checkpoint.  A batch that raises leaves the database as it was.
module HeaderRuns {
  import opened Wrappers
  import opened ChainGapRecords
  import opened HeaderChains
  import opened HeaderSafety

  //
  // One batch
  //

  predicate FirstKnown(db: Db, genesis: Header, headers: seq<Header>) {
    headers != [] ==> headers[0] == genesis || headers[0].parent in db.headers
  }

  ghost predicate AllIn(u: iset<Header>, headers: seq<Header>) {
    forall h :: h in headers ==> h in u
  }

  // The head moves to the last header of a batch when that is higher.
  function HeadAfter(db: Db, headers: seq<Header>): Option<Hash> {
    if headers != [] && Last(headers).number > Height(db) then Some(Last(headers).hash) else db.head
  }

  ghost predicate BatchDone(u: iset<Header>, genesis: Header, db: Db, s: Shape, headers: seq<Header>, sw: Switch, s': Shape) {
    && Settled(u, genesis, sw.db, s') && s'.anchor == s.anchor
    && sw.db.head == HeadAfter(db, headers)
    && Height(sw.db) == (if headers != [] && Last(headers).number > Height(db) then Last(headers).number else Height(db))
    && (s.anchor > 0 ==> s.anchor in db.canon && s.anchor in sw.db.canon && sw.db.canon[s.anchor] == db.canon[s.anchor])
    && (s.anchor == 0 ==> Replaces(db, sw))
  }

  lemma SoundWithin(u: iset<Header>, genesis: Header, db: Db, s: Shape, top: nat)
    requires Sound(u, genesis, db, s, top)
    ensures Universe(u, genesis) && Within(u, db)
    ensures db.head.None? <==> Height(db) < 0
    ensures s.anchor > 0 ==> s.anchor in db.canon
    ensures s.anchor == 0 ==> s.low == 0
  {}

  lemma ScoreDecides(u: iset<Header>, genesis: Header, db: Db, s: Shape, top: nat, n: nat)
    requires Sound(u, genesis, db, s, top) && db.head.Some?
    ensures db.head.value in db.scores && (Tri(n) > db.scores[db.head.value] <==> n > Height(db))
  {
    assert db.scores[db.head.value] == Tri(Height(db));
    if n > Height(db) {
      TriGrows(Height(db), n);
    } else if n < Height(db) {
      TriGrows(n, Height(db));
    }
  }

  lemma FirstScore(u: iset<Header>, genesis: Header, db: Db, s: Shape, top: nat, h: Header)
    requires Sound(u, genesis, db, s, top) && h in u
    ensures h.parent == GENESIS_PARENT_HASH <==> h == genesis
    ensures h.parent != GENESIS_PARENT_HASH && h.parent in db.headers ==>
              h.parent in db.scores && ScoreBefore(db, h, db.scores[h.parent])
    ensures h == genesis ==> ScoreBefore(db, h, 0)
  {}

  lemma {:induction false} RangeKept(db: Db, d: Db, a: nat, b: nat)
    requires CanonKnown(db) && d.canon == db.canon
    requires Extends(db, d)
    ensures CanonicalRange(d, a, b) == CanonicalRange(db, a, b)
    decreases b - a
  {
    if a < b {
      RangeKept(db, d, a + 1, b);
    }
  }

  // The headers of a batch before the head is chosen, as one step.
  ghost function PersistAll(u: iset<Header>, genesis: Header, db: Db, headers: seq<Header>): Result<Progress, Failure>
    requires Universe(u, genesis) && Within(u, db) && AllIn(u, headers) && headers != []
  {
    var first := headers[0];
    var isGenesis := first.parent == GENESIS_PARENT_HASH;
    if !isGenesis && first.parent !in db.headers then Err(ParentNotFound)
    else if !isGenesis && first.parent !in db.scores then Err(HeaderNotFound)
    else
      var score := if isGenesis then 0 else db.scores[first.parent];
      var one := PersistOne(u, genesis, db, first, score, db.gaps);
      if one.Err? then Err(one.error)
      else
        PersistOneWithin(u, genesis, db, first, score, db.gaps);
        PersistRest(u, genesis, one.value, first, headers[1..])
  }

  lemma {:induction false} PersistRestHeaders(u: iset<Header>, genesis: Header, p: Progress, parent: Header, rest: seq<Header>)
    requires Universe(u, genesis) && Within(u, p.db) && AllIn(u, rest)
    ensures var r := PersistRest(u, genesis, p, parent, rest);
            r.Ok? ==> && Within(u, r.value.db)
                      && Extends(p.db, r.value.db)
    decreases |rest|
  {
    hide PersistOne;
    if rest != [] {
      var next := PersistOne(u, genesis, p.db, rest[0], p.score, p.gaps);
      if next.Ok? {
        PersistOneWithin(u, genesis, p.db, rest[0], p.score, p.gaps);
        HeaderKept(u, genesis, p.db, rest[0], next.value.db);
        hide Universe, Within;
        PersistRestHeaders(u, genesis, next.value, rest[0], rest[1..]);
      }
    }
  }

  lemma AllPersisted(u: iset<Header>, genesis: Header, db: Db, s: Shape, top: nat, headers: seq<Header>) returns (s': Shape)
    requires Sound(u, genesis, db, s, top) && AllIn(u, headers) && headers != []
    ensures var r := PersistAll(u, genesis, db, headers);
            && (r.Ok? ==> FirstKnown(db, genesis, headers) && Contiguous(headers))
            && (r.Ok? ==> RestDone(u, genesis, db, s, top, Last(headers), r.value, s'))
            && (r.Ok? ==> Last(headers).number == headers[0].number + |headers| - 1)
            && (r.Ok? ==> Within(u, r.value.db))
            && (r.Ok? ==>
                  Extends(db, r.value.db))
            && (r.Err? && FirstKnown(db, genesis, headers) && Contiguous(headers) ==>
                  r.error == CheckpointsMustBeCanonical && s.anchor > 0)
  {
    hide Universe, Within, NoDifficulty, Canonical, Rooted, Scored, Tri, WrongFill, PersistOne, PersistRest, Contiguous,
      Height, GapsOf, ScoreBefore, NewScore;
    var first, rest := headers[0], headers[1..];
    s' := s;
    assert headers == [first] + rest;
    assert first in u;
    FirstScore(u, genesis, db, s, top, first);
    if FirstKnown(db, genesis, headers) {
      KnownParentPlaces(u, genesis, db, s, top, first);
      var score := if first.parent == GENESIS_PARENT_HASH then 0 else db.scores[first.parent];
      assert ScoreBefore(db, first, score);
      PersistOneKeeps(u, genesis, db, s, top, first, score);
      NotWrong(db, s, first);
      var one := PersistOne(u, genesis, db, first, score, db.gaps);
      if one.Ok? {
        HeaderKept(u, genesis, db, first, one.value.db);
        s' := PersistRestKeeps(u, genesis, one.value, After(s, first), Max(top, first.number), first, rest);
        PersistRestHeaders(u, genesis, one.value, first, rest);
        RestSteps(u, genesis, db, s, top, first, one.value, PersistRest(u, genesis, one.value, first, rest), Last(headers), s');
      }
    }
  }

  lemma RestSteps(
    u: iset<Header>, genesis: Header, db: Db, s: Shape, top: nat, first: Header, p: Progress,
    r: Result<Progress, Failure>, last: Header, s': Shape
  )
    requires OneDone(u, genesis, db, s, top, first, p)
    requires r.Ok? ==> RestDone(u, genesis, p.db, After(s, first), Max(top, first.number), last, r.value, s')
    requires r.Ok? ==> last.number >= first.number
    ensures r.Ok? ==> RestDone(u, genesis, db, s, top, last, r.value, s')
  {
    hide Universe, Within, NoDifficulty, Canonical, Rooted, Scored, Tri, Height, GapsOf;
  }

  // A batch without a checkpoint succeeds just when it is contiguous and hangs
  // on a known header; with one it may also be refused for the checkpoint.
  lemma BatchKeeps(u: iset<Header>, genesis: Header, db: Db, s: Shape, headers: seq<Header>) returns (s': Shape)
    requires Settled(u, genesis, db, s) && AllIn(u, headers)
    ensures Universe(u, genesis) && Within(u, db)
    ensures var r := PersistHeaderChain(u, genesis, db, headers);
            && (r.Ok? ==> BatchDone(u, genesis, db, s, headers, r.value, s'))
            && (r.Ok? ==> FirstKnown(db, genesis, headers) && Contiguous(headers))
            && (r.Err? && FirstKnown(db, genesis, headers) && Contiguous(headers) ==>
                  r.error == CheckpointsMustBeCanonical && s.anchor > 0)
  {
    var top: nat := if Height(db) < 0 then 0 else Height(db);
    SoundWithin(u, genesis, db, s, top);
    hide Universe, Within, NoDifficulty, Canonical, Rooted, Scored, Tri, PersistOne, PersistRest, Contiguous, GapsOf,
      ChooseHead, FirstKnown, BatchDone, Sound, Height, RestDone;
    s' := s;
    if headers != [] {
      s' := AllPersisted(u, genesis, db, s, top, headers);
      var all := PersistAll(u, genesis, db, headers);
      BatchUnfolds(u, genesis, db, headers);
      if all.Ok? {
        HeadChosen(u, genesis, db, s, top, headers, all.value, s');
      }
    } else {
      EmptyBatch(u, genesis, db, s);
    }
  }

  lemma EmptyBatch(u: iset<Header>, genesis: Header, db: Db, s: Shape)
    requires Settled(u, genesis, db, s)
    ensures Universe(u, genesis) && Within(u, db) && AllIn(u, []) && FirstKnown(db, genesis, []) && Contiguous([])
    ensures var r := PersistHeaderChain(u, genesis, db, []);
            r.Ok? && BatchDone(u, genesis, db, s, [], r.value, s)
  {
    hide NoDifficulty, Rooted, Scored, CanonKnown, Linked;
    assert Replaces(db, Switch(db, [], []));
  }

  lemma BatchUnfolds(u: iset<Header>, genesis: Header, db: Db, headers: seq<Header>)
    requires Universe(u, genesis) && Within(u, db) && AllIn(u, headers) && headers != []
    ensures var all := PersistAll(u, genesis, db, headers);
            && (all.Ok? ==> Within(u, all.value.db))
            && (all.Ok? ==>
                  PersistHeaderChain(u, genesis, db, headers) == ChooseHead(u, genesis, all.value, Last(headers)))
            && (all.Err? ==> PersistHeaderChain(u, genesis, db, headers) == Err(all.error))
  {
    hide Universe, Within, PersistOne, PersistRest, ChooseHead;
    var first := headers[0];
    if first.parent == GENESIS_PARENT_HASH || (first.parent in db.headers && first.parent in db.scores) {
      var score := if first.parent == GENESIS_PARENT_HASH then 0 else db.scores[first.parent];
      var one := PersistOne(u, genesis, db, first, score, db.gaps);
      if one.Ok? {
        PersistOneWithin(u, genesis, db, first, score, db.gaps);
        PersistRestWithin(u, genesis, one.value, first, headers[1..]);
      }
    }
  }

  lemma HeadChosen(
    u: iset<Header>, genesis: Header, db: Db, s: Shape, top: nat, headers: seq<Header>, p: Progress, s': Shape
  )
    requires Sound(u, genesis, db, s, top) && top == (if Height(db) < 0 then 0 else Height(db))
    requires AllIn(u, headers) && headers != []
    requires RestDone(u, genesis, db, s, top, Last(headers), p, s') && Within(u, p.db)
    requires Extends(db, p.db)
    ensures Universe(u, genesis)
    ensures var r := ChooseHead(u, genesis, p, Last(headers));
            if r.Ok? then BatchDone(u, genesis, db, s, headers, r.value, s')
            else r.error == CheckpointsMustBeCanonical && s.anchor > 0
  {
    hide Universe, Within, NoDifficulty, Canonical, Rooted, Scored, Tri, GapsOf, Height, SetAsHead, Replaces, Descends;
    var last := Last(headers);
    SoundWithin(u, genesis, db, s, top);
    SoundWithin(u, genesis, p.db, s', Max(top, last.number));
    if p.db.head.Some? {
      ScoreDecides(u, genesis, p.db, s', Max(top, last.number), last.number);
    }
    if last.number > Height(db) {
      HeadMoves(u, genesis, p.db, s', last.number, last);
      var r := SetAsHead(u, genesis, p.db, last);
      if r.Ok? {
        AnchorStays(u, genesis, db, s, top, p.db, s', r.value);
      } else {
        DescendsTrivially(u, genesis, p.db, s', last);
      }
    } else if s.anchor == 0 {
      NothingReplaced(db, p.db);
    }
  }

  lemma NothingReplaced(db: Db, d: Db)
    requires d.canon == db.canon
    ensures Replaces(db, Switch(d, [], []))
  {}

  lemma DescendsTrivially(u: iset<Header>, genesis: Header, db: Db, s: Shape, h: Header)
    requires Universe(u, genesis) && Within(u, db) && h in u && !Descends(u, genesis, db, s, h)
    ensures s.anchor > 0
  {}

  lemma AnchorStays(
    u: iset<Header>, genesis: Header, db: Db, s: Shape, top: nat, p: Db, s': Shape, sw: Switch
  )
    requires Sound(u, genesis, db, s, top) && s'.anchor == s.anchor
    requires Settled(u, genesis, sw.db, s') && sw.db.checkpoints == p.checkpoints
    requires Extends(db, p)
    requires forall n: nat :: s.anchor <= n && n in db.canon ==> n in p.canon && p.canon[n] == db.canon[n]
    requires s.anchor == 0 ==> p.canon == db.canon
    requires Replaces(p, sw)
    requires p.checkpoints == if s.anchor > 0 && s.anchor in p.canon then [p.canon[s.anchor]] else []
    ensures s.anchor > 0 ==> s.anchor in db.canon && s.anchor in sw.db.canon && sw.db.canon[s.anchor] == db.canon[s.anchor]
    ensures s.anchor == 0 ==> Replaces(db, sw)
  {
    if s.anchor > 0 {
      assert s.anchor in sw.db.canon && sw.db.checkpoints == [sw.db.canon[s.anchor]];
      assert s.anchor in db.canon;
    } else if sw.added != [] {
      RangeKept(db, p, sw.added[0].number, Last(sw.added).number + 1);
    }
  }

  //
  // Runs of batches
  //

  // persist_header_chain in an atomic batch: an error leaves the database alone.
  ghost function Attempt(u: iset<Header>, genesis: Header, db: Db, headers: seq<Header>): Db
    requires Universe(u, genesis) && Within(u, db) && AllIn(u, headers)
  {
    var r := PersistHeaderChain(u, genesis, db, headers);
    if r.Ok? then r.value.db else db
  }

  // Each batch of a run with the database before it, the first one first.
  ghost predicate RunOf(u: iset<Header>, genesis: Header, states: seq<Db>, batches: seq<seq<Header>>) {
    && |states| == |batches| + 1 && (forall i :: 0 <= i < |batches| ==> AllIn(u, batches[i]))
    && forall i :: 0 <= i < |batches| ==> Step(u, genesis, states[i], batches[i], states[i + 1])
  }

  ghost predicate Step(u: iset<Header>, genesis: Header, db: Db, headers: seq<Header>, d: Db) {
    && Universe(u, genesis) && Within(u, db) && AllIn(u, headers)
    && d == Attempt(u, genesis, db, headers)
  }

  // The headers accepted in a run, in the order in which they were persisted.
  ghost function Accepted(u: iset<Header>, genesis: Header, states: seq<Db>, batches: seq<seq<Header>>): seq<Header>
    requires RunOf(u, genesis, states, batches)
    decreases |batches|
  {
    if batches == [] then []
    else
      assert Step(u, genesis, states[|batches| - 1], Last(batches), Last(states));
      RunFront(u, genesis, states, batches);
      Accepted(u, genesis, Front(states), Front(batches)) +
      if PersistHeaderChain(u, genesis, states[|batches| - 1], Last(batches)).Ok? then Last(batches) else []
  }

  lemma RunFront(u: iset<Header>, genesis: Header, states: seq<Db>, batches: seq<seq<Header>>)
    requires RunOf(u, genesis, states, batches) && batches != []
    ensures RunOf(u, genesis, Front(states), Front(batches))
    ensures Step(u, genesis, Last(Front(states)), Last(batches), Last(states))
  {
    forall i | 0 <= i < |Front(batches)|
      ensures AllIn(u, Front(batches)[i]) && Step(u, genesis, Front(states)[i], Front(batches)[i], Front(states)[i + 1])
    {
      assert AllIn(u, batches[i]) && Step(u, genesis, states[i], batches[i], states[i + 1]);
    }
    var last := |batches| - 1;
    assert Step(u, genesis, states[last], batches[last], states[last + 1]);
  }

  // h is the first of the highest headers in the log.
  ghost predicate FirstTallest(log: seq<Header>, h: Header) {
    exists i :: 0 <= i < |log| && log[i] == h
                && (forall j :: 0 <= j < |log| ==> log[j].number <= h.number)
                && (forall j :: 0 <= j < i ==> log[j].number < h.number)
  }

  ghost predicate HeadIsFirstTallest(db: Db, log: seq<Header>) {
    if log == [] then db.head.None?
    else db.head.Some? && db.head.value in db.headers && FirstTallest(log, db.headers[db.head.value])
  }

  lemma TallestExtends(log: seq<Header>, best: Header, batch: seq<Header>)
    requires FirstTallest(log, best) && batch != []
    requires forall i :: 0 <= i < |batch| ==> batch[i].number == batch[0].number + i
    ensures FirstTallest(log + batch, if Last(batch).number > best.number then Last(batch) else best)
  {
    var all := log + batch;
    var i :| 0 <= i < |log| && log[i] == best
             && (forall j :: 0 <= j < |log| ==> log[j].number <= best.number)
             && (forall j :: 0 <= j < i ==> log[j].number < best.number);
    assert forall j :: 0 <= j < |log| ==> all[j] == log[j];
    assert forall j :: |log| <= j < |all| ==> all[j] == batch[j - |log|];
    assert all[|all| - 1] == Last(batch) && all[i] == best;
    if Last(batch).number > best.number {
      assert forall j :: 0 <= j < |all| - 1 ==> all[j].number < Last(batch).number;
    } else {
      assert forall j :: 0 <= j < |all| ==> all[j].number <= best.number;
    }
  }

  lemma TallestOfFirst(batch: seq<Header>)
    requires batch != [] && forall i :: 0 <= i < |batch| ==> batch[i].number == batch[0].number + i
    ensures FirstTallest(batch, Last(batch))
  {
    assert batch[|batch| - 1] == Last(batch);
  }

  lemma {:induction false} ContiguousNumbers(u: iset<Header>, genesis: Header, headers: seq<Header>, i: nat)
    requires Universe(u, genesis) && AllIn(u, headers) && Contiguous(headers) && i < |headers|
    ensures headers[i].number == headers[0].number + i
  {
    if i > 0 {
      assert headers[i - 1] in u && headers[i] in u && headers[i].parent == headers[i - 1].hash;
      ContiguousNumbers(u, genesis, headers, i - 1);
    }
  }

  lemma EmptySettled(u: iset<Header>, genesis: Header)
    requires Universe(u, genesis) && NoDifficulty(u)
    ensures Settled(u, genesis, EMPTY_DB, Shape(0, 0))
  {
    assert CanonKnown(EMPTY_DB);
  }

  // The state after a step of a run, and what the step did to the head.
  lemma StepKeeps(u: iset<Header>, genesis: Header, db: Db, s: Shape, headers: seq<Header>, d: Db) returns (s': Shape)
    requires Settled(u, genesis, db, s) && Step(u, genesis, db, headers, d)
    ensures Settled(u, genesis, d, s') && s'.anchor == s.anchor
    ensures s.anchor > 0 ==> s.anchor in db.canon && s.anchor in d.canon && d.canon[s.anchor] == db.canon[s.anchor]
    ensures var r := PersistHeaderChain(u, genesis, db, headers);
            && (r.Ok? ==> Contiguous(headers) && d.head == HeadAfter(db, headers)) && (r.Err? ==> d == db)
  {
    SoundWithin(u, genesis, db, s, if Height(db) < 0 then 0 else Height(db));
    hide Settled, PersistHeaderChain, Universe, Within, Contiguous, HeadAfter, AllIn, Replaces;
    s' := BatchKeeps(u, genesis, db, s, headers);
    if PersistHeaderChain(u, genesis, db, headers).Err? {
      s' := s;
    }
  }

  lemma HeadKnown(u: iset<Header>, genesis: Header, db: Db, s: Shape, headers: seq<Header>)
    requires Settled(u, genesis, db, s) && AllIn(u, headers)
    ensures db.head.Some? ==> db.head.value in db.headers && db.headers[db.head.value].hash == db.head.value
                              && db.headers[db.head.value] in u && Height(db) == db.headers[db.head.value].number
    ensures db.head.None? ==> Height(db) == -1
  {}

  lemma SameHash(u: iset<Header>, genesis: Header, a: Header, b: Header)
    requires Universe(u, genesis) && a in u && b in u && a.hash == b.hash
    ensures a == b
  {}

  lemma AcceptedStep(u: iset<Header>, genesis: Header, states: seq<Db>, batches: seq<seq<Header>>)
    requires RunOf(u, genesis, states, batches) && batches != []
    ensures RunOf(u, genesis, Front(states), Front(batches))
    ensures Step(u, genesis, Last(Front(states)), Last(batches), Last(states))
    ensures var r := PersistHeaderChain(u, genesis, Last(Front(states)), Last(batches));
            Accepted(u, genesis, states, batches) ==
            Accepted(u, genesis, Front(states), Front(batches)) + if r.Ok? then Last(batches) else []
  {
    hide RunOf, PersistHeaderChain, Step;
    RunFront(u, genesis, states, batches);
    assert Last(Front(states)) == states[|batches| - 1] by {
      RunLength(u, genesis, states, batches);
    }
  }

  lemma RunLength(u: iset<Header>, genesis: Header, states: seq<Db>, batches: seq<seq<Header>>)
    requires RunOf(u, genesis, states, batches)
    ensures |states| == |batches| + 1
  {}

  lemma BatchHead(u: iset<Header>, genesis: Header, db: Db, d: Db, s: Shape, log: seq<Header>, headers: seq<Header>)
    requires Settled(u, genesis, db, Shape(0, 0)) && Settled(u, genesis, d, s)
    requires Universe(u, genesis) && AllIn(u, headers) && headers != [] && Contiguous(headers)
    requires HeadIsFirstTallest(db, log) && d.head == HeadAfter(db, headers)
    ensures HeadIsFirstTallest(d, log + headers)
  {
    hide Settled, Contiguous, HeadAfter, HeadIsFirstTallest;
    HeadKnown(u, genesis, db, Shape(0, 0), headers);
    HeadKnown(u, genesis, d, s, headers);
    forall i | 0 <= i < |headers| ensures headers[i].number == headers[0].number + i {
      ContiguousNumbers(u, genesis, headers, i);
    }
    assert Last(headers) in u;
    HeadStep(u, genesis, db, d, log, headers);
  }

  // Without a checkpoint, from an empty database: the head is the first
  // header accepted at the greatest height.
  lemma {:induction false} RunKeeps(u: iset<Header>, genesis: Header, states: seq<Db>, batches: seq<seq<Header>>)
    requires Universe(u, genesis) && NoDifficulty(u) && RunOf(u, genesis, states, batches) && states[0] == EMPTY_DB
    ensures Settled(u, genesis, Last(states), Shape(0, 0))
    ensures HeadIsFirstTallest(Last(states), Accepted(u, genesis, states, batches))
    decreases |batches|
  {
    if batches == [] {
      EmptySettled(u, genesis);
    } else {
      AcceptedStep(u, genesis, states, batches);
      RunKeeps(u, genesis, Front(states), Front(batches));
      var db, d, headers := Last(Front(states)), Last(states), Last(batches);
      hide Universe, Settled, PersistHeaderChain, Contiguous, NoDifficulty, HeadAfter, HeadIsFirstTallest, Accepted;
      var s := StepKeeps(u, genesis, db, Shape(0, 0), headers, d);
      LowIsZero(u, genesis, d, s);
      var log := Accepted(u, genesis, Front(states), Front(batches));
      if PersistHeaderChain(u, genesis, db, headers).Ok? && headers != [] {
        BatchHead(u, genesis, db, d, s, log, headers);
      } else {
        assert log + [] == log;
      }
    }
  }

  lemma LowIsZero(u: iset<Header>, genesis: Header, db: Db, s: Shape)
    requires Settled(u, genesis, db, s) && s.anchor == 0
    ensures s == Shape(0, 0)
  {}

  lemma HeadStep(u: iset<Header>, genesis: Header, db: Db, d: Db, log: seq<Header>, headers: seq<Header>)
    requires Universe(u, genesis) && headers != [] && Last(headers) in u && HeadIsFirstTallest(db, log)
    requires forall i :: 0 <= i < |headers| ==> headers[i].number == headers[0].number + i
    requires db.head.Some? ==> db.head.value in db.headers && db.headers[db.head.value] in u
    requires db.head.Some? ==> db.headers[db.head.value].hash == db.head.value
    requires d.head == HeadAfter(db, headers)
    requires d.head.Some? ==> d.head.value in d.headers && d.headers[d.head.value] in u
    requires d.head.Some? ==> d.headers[d.head.value].hash == d.head.value
    ensures HeadIsFirstTallest(d, log + headers)
  {
    hide FirstTallest;
    if db.head.None? {
      assert log + headers == headers;
      TallestOfFirst(headers);
      SameHash(u, genesis, d.headers[d.head.value], Last(headers));
    } else {
      var best := db.headers[db.head.value];
      TallestExtends(log, best, headers);
      SameHash(u, genesis, d.headers[d.head.value], if Last(headers).number > best.number then Last(headers) else best);
    }
  }

  // What the lookups say without a checkpoint, spelled out.
  lemma NoCheckpointLookups(u: iset<Header>, genesis: Header, states: seq<Db>, batches: seq<seq<Header>>)
    requires Universe(u, genesis) && NoDifficulty(u) && RunOf(u, genesis, states, batches) && states[0] == EMPTY_DB
    ensures var db := Last(states); var log := Accepted(u, genesis, states, batches);
            && (db.head.None? <==> log == [])
            && (db.head.Some? ==> db.head.value in db.headers && FirstTallest(log, db.headers[db.head.value]))
            && (forall n: nat :: n in db.canon <==> db.head.Some? && n <= db.headers[db.head.value].number)
            && (forall n: nat :: n in db.canon ==> db.canon[n] in db.headers && db.headers[db.canon[n]].number == n)
            && (db.head.Some? ==> db.canon[db.headers[db.head.value].number] == db.head.value)
            && (db.head.Some? ==> db.canon[0] == genesis.hash)
            && (forall m: nat, n: nat :: m in db.canon && n in db.canon && n == m + 1 ==>
                  db.headers[db.canon[n]].parent == db.canon[m])
  {
    hide FirstTallest, Universe, NoDifficulty, RunOf, Accepted, Within, Rooted, Scored;
    RunKeeps(u, genesis, states, batches);
    RunNotEmpty(u, genesis, states, batches);
  }

  lemma RunNotEmpty(u: iset<Header>, genesis: Header, states: seq<Db>, batches: seq<seq<Header>>)
    requires RunOf(u, genesis, states, batches)
    ensures states != []
  {}

  // Each accepted batch of such a run returns exactly the entries that changed
  // and the headers that stood there before.
  lemma ReturnsWhatChanged(u: iset<Header>, genesis: Header, states: seq<Db>, batches: seq<seq<Header>>, headers: seq<Header>)
    requires Universe(u, genesis) && NoDifficulty(u) && RunOf(u, genesis, states, batches) && states[0] == EMPTY_DB
    requires AllIn(u, headers)
    ensures states != [] && Within(u, Last(states))
    ensures var r := PersistHeaderChain(u, genesis, Last(states), headers);
            && (r.Ok? <==> FirstKnown(Last(states), genesis, headers) && Contiguous(headers))
            && (r.Ok? ==> Replaces(Last(states), r.value))
  {
    RunKeeps(u, genesis, states, batches);
    RunNotEmpty(u, genesis, states, batches);
    hide Settled, PersistHeaderChain, Contiguous, NoDifficulty, Universe, Within, RunOf, AllIn, Replaces, Accepted,
      FirstTallest, HeadIsFirstTallest, FirstKnown;
    var s' := BatchKeeps(u, genesis, Last(states), Shape(0, 0), headers);
  }
}
