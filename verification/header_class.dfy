// veda/db/header.py: the methods of HeaderDB over their database keys, each
// proved to do what the functions of HeaderChains say.  The public methods run
// in an atomic batch: when one fails, every key is as it was.
module HeaderDatabase {
  import opened Wrappers
  import opened ChainGapRecords
  import opened HeaderChains

  type Lists = Result<(seq<Header>, seq<Header>), Failure>

  class HeaderDB {
    var headers: map<Hash, Header>
    var scores: map<Hash, int>
    var canon: map<nat, Hash>
    var head: Option<Hash>
    var gaps: ChainGaps
    var checkpoints: seq<Hash>

    function State(): Db
      reads this
    {
      Db(headers, scores, canon, head, gaps, checkpoints)
    }

    constructor ()
      ensures State() == EMPTY_DB
    {
      headers, scores, canon, head := map[], map[], map[], None;
      gaps, checkpoints := GENESIS_CHAIN_GAPS, [];
    }

    // What a method returned and left behind is what the function says.
    ghost predicate Switched(expected: Result<Switch, Failure>, r: Lists)
      reads this
    {
      if expected.Err? then r == Err(expected.error)
      else r == Ok((expected.value.added, expected.value.removed)) && State() == expected.value.db
    }

    ghost predicate Became(expected: Result<Db, Failure>, r: Option<Failure>)
      reads this
    {
      if expected.Err? then r == Some(expected.error) else r == None && State() == expected.value
    }

    method FindNewAncestors(ghost u: iset<Header>, ghost genesis: Header, header: Header) returns (found: seq<Header>)
      requires Universe(u, genesis) && Within(u, State()) && header in u
      ensures found == NewAncestors(u, genesis, State(), header)
    {
      found := [];
      var h := header;
      var searching := true;
      while searching
        invariant h in u
        invariant NewAncestors(u, genesis, State(), header) ==
                  found + if searching then NewAncestors(u, genesis, State(), h) else []
        decreases if searching then h.number + 1 else 0
      {
        var orig := CanonicalHeader(State(), h.number);
        if orig.Some? && orig.value.hash == h.hash {
          searching := false;
        } else {
          found := found + [h];
          if h.parent == GENESIS_PARENT_HASH || h.parent !in headers {
            searching := false;
          } else {
            h := headers[h.parent];
          }
        }
      }
    }

    method FindHeadersToDecanonicalize(added: seq<Header>) returns (r: Result<seq<Header>, Failure>)
      ensures r == HeadersToDecanonicalize(State(), added)
    {
      var found: seq<Header> := [];
      assert added[0..] == added;
      assert HeadersToDecanonicalize(State(), added).Ok? ==>
               [] + HeadersToDecanonicalize(State(), added).value == HeadersToDecanonicalize(State(), added).value;
      for i := 0 to |added|
        invariant HeadersToDecanonicalize(State(), added) == Yielded(found, HeadersToDecanonicalize(State(), added[i..]))
      {
        assert added[i..][0] == added[i] && added[i..][1..] == added[i + 1..];
        var n := added[i].number;
        if n in canon {
          if canon[n] !in headers {
            return Err(HeaderNotFound);
          }
          ghost var rest := HeadersToDecanonicalize(State(), added[i + 1..]);
          assert rest.Ok? ==> found + ([headers[canon[n]]] + rest.value) == found + [headers[canon[n]]] + rest.value;
          found := found + [headers[canon[n]]];
        }
      }
      assert added[|added|..] == [] && found + [] == found;
      return Ok(found);
    }

    static function Yielded(found: seq<Header>, rest: Result<seq<Header>, Failure>): Result<seq<Header>, Failure> {
      if rest.Ok? then Ok(found + rest.value) else rest
    }

    method DecanonicalizeDescendantOrphans(header: Header, checkpoints: seq<Hash>) returns (r: Option<Failure>)
      modifies this`canon, this`gaps
      ensures Became(DropOrphans(old(State()), header, checkpoints), r)
    {
      hide ReopenGap;
      var childNumber := header.number + 1;
      var child := CanonicalHeader(State(), childNumber);
      var invalid := false;
      r := None;
      if child.Some? && child.value.parent != header.hash {
        if child.value.hash in checkpoints {
          return Some(CheckpointsMustBeCanonical);
        }
        invalid := true;
      }
      ghost var goal := DropOrphans(State(), header, checkpoints);
      var newGaps := gaps;
      while invalid
        invariant invalid ==> childNumber in canon
        invariant r == None && gaps == old(gaps)
        invariant goal == if invalid then DropStreak(State().(gaps := newGaps), childNumber, checkpoints)
                          else Ok(State().(gaps := newGaps))
        decreases |canon|, invalid
      {
        ghost var before := canon;
        canon := canon - {childNumber};
        assert before == canon[childNumber := before[childNumber]];
        var reopened := ReopenGap(childNumber, newGaps);
        if reopened.Err? {
          return Some(GapFailure(reopened.error));
        }
        newGaps := reopened.value;
        childNumber := childNumber + 1;
        child := CanonicalHeader(State(), childNumber);
        if child.None? {
          invalid := false;
        } else if child.value.hash in checkpoints {
          return Some(CheckpointsMustBeCanonical);
        }
      }
      if newGaps != gaps {
        gaps := newGaps;
      }
    }

    method DecanonicalizeOne(n: nat, base: ChainGaps) returns (r: Result<ChainGaps, Failure>)
      modifies this`canon, this`gaps
      ensures var expected := DecanonicalizeSingle(old(State()), n, base);
              if expected.Err? then r == Err(expected.error)
              else r == Ok(expected.value.1) && State() == expected.value.0
    {
      canon := canon - {n};
      var reopened := ReopenGap(n, base);
      if reopened.Err? {
        return Err(GapFailure(reopened.error));
      }
      if reopened.value != base {
        gaps := reopened.value;
      }
      return Ok(reopened.value);
    }

    method CanonicalizeHeader(ghost u: iset<Header>, ghost genesis: Header, header: Header) returns (r: Lists)
      requires Universe(u, genesis) && Within(u, State()) && header in u
      modifies this`canon, this`gaps
      ensures Switched(Canonicalize(u, genesis, old(State()), header), r)
    {
      hide Universe, Within, NewAncestors, DropOrphans, HeadersToDecanonicalize;
      var found := FindNewAncestors(u, genesis, header);
      var added := Reverse(found);
      var removed := FindHeadersToDecanonicalize(added);
      if removed.Err? {
        return Err(removed.error);
      }
      if AnyCheckpoint(removed.value, checkpoints) {
        return Err(CheckpointsMustBeCanonical);
      }
      AddBlockNumberToHashLookups(added);
      if added != [] {
        var failed := DecanonicalizeDescendantOrphans(Last(added), checkpoints);
        if failed.Some? {
          return Err(failed.value);
        }
      }
      return Ok((added, removed.value));
    }

    method AddBlockNumberToHashLookups(added: seq<Header>)
      modifies this`canon
      ensures canon == AddLookups(old(canon), added)
    {
      for i := 0 to |added|
        invariant canon == AddLookups(old(canon), added[..i])
      {
        assert Front(added[..i + 1]) == added[..i];
        canon := canon[added[i].number := added[i].hash];
      }
      assert added[..|added|] == added;
    }

    method SetAsCanonicalChainHead(ghost u: iset<Header>, ghost genesis: Header, header: Header) returns (r: Lists)
      requires Universe(u, genesis) && Within(u, State()) && header in u
      modifies this`canon, this`gaps, this`head
      ensures Switched(SetAsHead(u, genesis, old(State()), header), r)
    {
      hide Universe, Within, Canonicalize;
      if head == Some(header.parent) {
        canon := canon[header.number := header.hash];
        r := Ok(([header], []));
      } else {
        r := CanonicalizeHeader(u, genesis, header);
        if r.Err? {
          return;
        }
      }
      head := Some(header.hash);
    }

    method RespondToGapChange(
      ghost u: iset<Header>, ghost genesis: Header, change: GapChange, filled: ChainGaps, header: Header
    ) returns (r: Result<ChainGaps, Failure>)
      requires Universe(u, genesis) && Within(u, State()) && header in u
      modifies this`canon, this`gaps
      ensures var expected := HandleGapChange(u, genesis, old(State()), change, filled, header);
              if expected.Err? then r == Err(expected.error)
              else r == Ok(expected.value.1) && State() == expected.value.0
    {
      hide Universe, Canonicalize, DecanonicalizeSingle;
      if !IsGapWrite(change) {
        return Ok(filled);
      }
      var result := filled;
      if change == GapFill || change == GapRightShrink {
        var child := CanonicalHeader(State(), header.number + 1);
        if child.None? {
          return Err(HeaderNotFound);
        }
        if header.hash != child.value.parent {
          if child.value.hash in checkpoints {
            return Err(CheckpointsMustBeCanonical);
          }
          var single := DecanonicalizeOne(child.value.number, filled);
          if single.Err? {
            return Err(single.error);
          }
          result := single.value;
        }
      }
      var switched := CanonicalizeHeader(u, genesis, header);
      if switched.Err? {
        return Err(switched.error);
      }
      return Ok(result);
    }

    // One header of a batch: the header, its score, the gaps.
    method PersistNext(ghost u: iset<Header>, ghost genesis: Header, header: Header, score: int, base: ChainGaps)
      returns (r: Result<(ChainGaps, int), Failure>)
      requires Universe(u, genesis) && Within(u, State()) && header in u
      modifies this`headers, this`scores, this`canon, this`gaps
      ensures var expected := PersistOne(u, genesis, old(State()), header, score, base);
              if expected.Err? then r == Err(expected.error)
              else r == Ok((expected.value.gaps, expected.value.score)) && State() == expected.value.db
    {
      hide FillGap, HandleGapChange;
      headers := headers[header.hash := header];
      var newScore := NewScore(header, score);
      scores := scores[header.hash := newScore];
      var fill := FillGap(header.number, base);
      if fill.Err? {
        return Err(GapFailure(fill.error));
      }
      var (change, filled) := fill.value;
      if change != NoChange {
        gaps := filled;
      }
      hide Universe, Within;
      var handled := RespondToGapChange(u, genesis, change, filled, header);
      if handled.Err? {
        return Err(handled.error);
      }
      return Ok((handled.value, newScore));
    }

    method PersistBatch(ghost u: iset<Header>, ghost genesis: Header, batch: seq<Header>) returns (r: Lists)
      requires Universe(u, genesis) && Within(u, State()) && forall h :: h in batch ==> h in u
      modifies this
      ensures Switched(PersistHeaderChain(u, genesis, old(State()), batch), r)
    {
      hide Universe, Within, PersistOne, SetAsHead;
      if batch == [] {
        return Ok(([], []));
      }
      var first := batch[0];
      var isGenesis := first.parent == GENESIS_PARENT_HASH;
      if !isGenesis && first.parent !in headers {
        return Err(ParentNotFound);
      }
      if !isGenesis && first.parent !in scores {
        return Err(HeaderNotFound);
      }
      var score := if isGenesis then 0 else scores[first.parent];
      PersistOneWithin(u, genesis, State(), first, score, gaps);
      var next := PersistNext(u, genesis, first, score, gaps);
      if next.Err? {
        return Err(next.error);
      }
      var (base, newScore) := next.value;
      ghost var all := PersistRest(u, genesis, Progress(State(), base, newScore), first, batch[1..]);
      PersistRestWithin(u, genesis, Progress(State(), base, newScore), first, batch[1..]);
      var i := 1;
      while i < |batch|
        invariant 1 <= i <= |batch| && Within(u, State())
        invariant all == PersistRest(u, genesis, Progress(State(), base, newScore), batch[i - 1], batch[i..])
      {
        assert batch[i..][0] == batch[i] && batch[i..][1..] == batch[i + 1..];
        if batch[i].parent != batch[i - 1].hash {
          return Err(NonContiguousChain);
        }
        PersistOneWithin(u, genesis, State(), batch[i], newScore, base);
        next := PersistNext(u, genesis, batch[i], newScore, base);
        if next.Err? {
          return Err(next.error);
        }
        base, newScore := next.value.0, next.value.1;
        i := i + 1;
      }
      if head.Some? {
        if head.value !in scores {
          return Err(HeaderNotFound);
        }
        if newScore <= scores[head.value] {
          return Ok(([], []));
        }
      }
      r := SetAsCanonicalChainHead(u, genesis, Last(batch));
    }

    method PersistHeaders(ghost u: iset<Header>, ghost genesis: Header, batch: seq<Header>) returns (r: Lists)
      requires Universe(u, genesis) && Within(u, State()) && forall h :: h in batch ==> h in u
      modifies this
      ensures Switched(PersistHeaderChain(u, genesis, old(State()), batch), r)
      ensures r.Err? ==> State() == old(State())
    {
      var before := State();
      r := PersistBatch(u, genesis, batch);
      if r.Err? {
        RollBack(before);
      }
    }

    method RollBack(before: Db)
      modifies this
      ensures State() == before
    {
      headers, scores, canon, head := before.headers, before.scores, before.canon, before.head;
      gaps, checkpoints := before.gaps, before.checkpoints;
    }

    method PersistCheckpoint(ghost u: iset<Header>, ghost genesis: Header, header: Header, score: int)
      returns (r: Option<Failure>)
      requires Universe(u, genesis) && Within(u, State()) && header in u
      modifies this
      ensures Became(PersistCheckpointHeader(u, genesis, old(State()), header, score), r)
      ensures r.Some? ==> State() == old(State())
    {
      var before := State();
      r := PersistCheckpointBatch(u, genesis, header, score);
      if r.Some? {
        RollBack(before);
      }
    }

    method PersistCheckpointBatch(ghost u: iset<Header>, ghost genesis: Header, header: Header, score: int)
      returns (r: Option<Failure>)
      requires Universe(u, genesis) && Within(u, State()) && header in u
      modifies this
      ensures Became(PersistCheckpointHeader(u, genesis, old(State()), header, score), r)
    {
      hide FillGap, SetAsHead, DropOrphans, DecanonicalizeSingle;
      headers := headers[header.hash := header];
      checkpoints := checkpoints + [header.hash];
      var previous := if header.difficulty != 0 then score - header.difficulty else score - header.number;
      scores := scores[header.hash := NewScore(header, previous)];
      var switched := SetAsCanonicalChainHead(u, genesis, header);
      hide Universe, Within;
      if switched.Err? {
        return Some(switched.error);
      }
      var fill := FillGap(header.number, gaps);
      if fill.Err? {
        return Some(GapFailure(fill.error));
      }
      if fill.value.0 != NoChange {
        gaps := fill.value.1;
      }
      if header.number == 0 {
        return Some(BadBlockNumber);
      }
      if header.number - 1 in canon && canon[header.number - 1] != header.parent {
        if header.parent in headers {
          return Some(TrueParentNotCanonical);
        }
        var single := DecanonicalizeOne(header.number - 1, fill.value.1);
        if single.Err? {
          return Some(single.error);
        }
      }
      r := DecanonicalizeDescendantOrphans(header, checkpoints);
    }
  }
}
