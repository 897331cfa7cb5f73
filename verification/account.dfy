// veda/db/account.py: the account database.  Accounts, code and access marks
// are journaled; the storage of an account joins when it is first used.

// One store beside the checkpoints of the account database: it knows the last
// ones of them, and was untouched at the others.
module AccountStores {
  import opened Wrappers
  import opened Snapshots
  import opened Entries
  import J = Journaling
  import opened Storage

  // All of a store that its slots, now and at checkpoints, depend on.
  datatype Summary = Summary(
    frames: seq<Frame>,
    locked: Level<Slot, nat>,
    level: Level<Slot, nat>,
    base: Trie,
    start: Trie,
    root: Checkpoint)

  function StartTrie(st: Store): Trie {
    TrieAfter(st.history, Base(st), 0)
  }

  ghost function Summarize(st: Store): Summary
    requires Sound(st) && st.journal.stack != []
  {
    Summary(Frames(st), Now(st.locked), Now(st.journal), Base(st), StartTrie(st), st.journal.stack[0])
  }

  function FrameIds(frames: seq<Frame>): seq<Checkpoint> {
    seq(|frames|, i requires 0 <= i < |frames| => frames[i].id)
  }

  // cs are the checkpoints of the account database; a store that is not dirty
  // takes no part in them.
  predicate Fits(sm: Summary, cs: seq<Checkpoint>, dirty: bool) {
    && |sm.frames| <= |cs| && FrameIds(sm.frames) == cs[|cs| - |sm.frames|..]
    && sm.root !in cs
    && (|sm.frames| < |cs| || !dirty ==> sm.locked == Level(map[], false))
    && (!dirty ==> sm.frames == [] && sm.level == Level(map[], false) && sm.base == sm.start)
  }

  ghost predicate StoreOk(st: Store, cs: seq<Checkpoint>, dirty: bool) {
    Sound(st) && st.journal.stack != [] && Fits(Summarize(st), cs, dirty)
  }

  // The value of a slot now, and at the i-th of n checkpoints.
  function ValueNow(sm: Summary, k: Slot): nat {
    FrameValue(sm.locked, Frame(0, sm.level, sm.base), k)
  }

  function ValueAt(sm: Summary, n: nat, i: nat, k: Slot): nat
    requires |sm.frames| <= n && i < n
  {
    var since := n - |sm.frames|;
    if since <= i then FrameValue(sm.locked, sm.frames[i - since], k) else TrieGet(sm.start, k)
  }

  lemma CurrentIsValueNow(st: Store, k: Slot)
    requires Sound(st) && st.journal.stack != []
    ensures Current(st, k) == ValueNow(Summarize(st), k)
  {
    CurrentIsFrameValue(st, k, 0);
  }

  // What happens between checkpoints changes only the present.
  lemma TouchFits(sm: Summary, t: Summary, cs: seq<Checkpoint>, dirty: bool)
    requires Fits(sm, cs, dirty) && t == sm.(level := t.level, base := t.base)
    ensures Fits(t, cs, true)
    ensures forall i, j :: 0 <= i < |cs| ==> ValueAt(t, |cs|, i, j) == ValueAt(sm, |cs|, i, j)
  {}

  lemma SetShape(st: Store, k: Slot, v: nat)
    requires Usable(st)
    ensures var t := DoSet(st, k, v);
            t == st.(journal := t.journal) && t.journal.stack == st.journal.stack && StartTrie(t) == StartTrie(st)
  {}

  lemma RecordFits(sm: Summary, cs: seq<Checkpoint>, id: Checkpoint, frame: Frame)
    requires Fits(sm, cs, true) && id != sm.root
    requires frame == Frame(id, sm.level, sm.base)
    ensures var t := sm.(frames := sm.frames + [frame]);
            && Fits(t, cs + [id], true)
            && (forall i, j :: 0 <= i < |cs| ==> ValueAt(t, |cs| + 1, i, j) == ValueAt(sm, |cs|, i, j))
            && (forall j :: ValueAt(t, |cs| + 1, |cs|, j) == ValueNow(sm, j))
  {
    assert FrameIds(sm.frames + [frame]) == FrameIds(sm.frames) + [id];
  }

  lemma RecordLevel(st: Store, id: Checkpoint)
    requires J.Valid(st.journal) && !HasId(st.journal.entries, id)
    ensures Now(DoRecord(st, id).journal) == Now(st.journal)
  {
    J.RecordRefines(st.journal, id);
  }

  ghost predicate AllDistinct(cs: seq<Checkpoint>) {
    forall a, b :: 0 <= a < b < |cs| ==> cs[a] != cs[b]
  }

  // Where cs[j] is in the checkpoint stack of the store.
  lemma Position(st: Store, cs: seq<Checkpoint>, j: nat)
    requires StoreOk(st, cs, true) && j < |cs| && AllDistinct(cs)
    ensures var since := |cs| - |Frames(st)|;
            if since <= j then cs[j] in st.journal.stack && Find(st.journal.stack, cs[j]) == j - since + 1
            else cs[j] !in st.journal.stack
  {
    FrameNames(st);
    var since := |cs| - |Frames(st)|;
    forall i | 1 <= i < |st.journal.stack| ensures st.journal.stack[i] == cs[since + i - 1] {
      assert FrameIds(Frames(st))[i - 1] == cs[since..][i - 1];
    }
    if since <= j {
      assert st.journal.stack[j - since + 1] == cs[j];
    }
  }

  // Keeping only the checkpoints below cs[j].
  function Lower(sm: Summary, n: nat, j: nat): seq<Frame>
    requires |sm.frames| <= n && j < n
  {
    if n - |sm.frames| <= j then sm.frames[..j - (n - |sm.frames|)] else []
  }

  lemma LowerFits(sm: Summary, t: Summary, cs: seq<Checkpoint>, j: nat)
    requires Fits(sm, cs, true) && j < |cs| && t.root !in cs
    requires t.frames == Lower(sm, |cs|, j) && t.locked == sm.locked && t.start == sm.start
    ensures Fits(t, cs[..j], true)
    ensures forall i, k :: 0 <= i < j ==> ValueAt(t, j, i, k) == ValueAt(sm, |cs|, i, k)
  {
    if |cs| - |sm.frames| <= j {
      assert FrameIds(t.frames) == FrameIds(sm.frames)[..j - (|cs| - |sm.frames|)];
    }
    assert FrameIds(t.frames) == cs[..j][j - |t.frames|..];
  }

  // A dirty store after discarding (or, with restored false, committing) the
  // j-th checkpoint of the account database.
  ghost predicate Lowered(sm: Summary, t: Summary, cs: seq<Checkpoint>, j: nat, restored: bool)
  {
    && |sm.frames| <= |cs| && j < |cs|
    && t.root !in cs && t.frames == Lower(sm, |cs|, j)
    && t.locked == sm.locked && t.start == sm.start
    && forall k :: ValueNow(t, k) == if restored then ValueAt(sm, |cs|, j, k) else ValueNow(sm, k)
  }

  lemma StoreDiscard(st: Store, cs: seq<Checkpoint>, j: nat, root: Checkpoint)
    requires StoreOk(st, cs, true) && j < |cs| && root !in cs && AllDistinct(cs)
    ensures cs[j] in st.journal.stack ==> cs[j] in st.clearCount.stack
    ensures DoDiscard(st, cs[j], root).Ok? <==> WipesSince(st, cs[j]) <= 1
    ensures WipesSince(st, cs[j]) <= 1 ==>
              var t := DoDiscard(st, cs[j], root).value;
              && Sound(t) && t.journal.stack != []
              && Lowered(Summarize(st), Summarize(t), cs, j, true)
  {
    hide J.Valid, J.AnyClear, J.Marks, J.Meaning, Paired, FramesOf, BlankFrames, InOrder;
    Position(st, cs, j);
    FrameNames(st);
    TargetIs(st, cs, j);
    if |cs| - |Frames(st)| <= j {
      DiscardToCheckpoint(st, cs[j], root);
    } else {
      DiscardToStart(st, cs[j], root);
    }
    if WipesSince(st, cs[j]) <= 1 {
      var t := DoDiscard(st, cs[j], root).value;
      DiscardStart(st, cs[j], root);
      forall k ensures ValueNow(Summarize(t), k) == ValueAt(Summarize(st), |cs|, j, k) {
        TargetValue(Summarize(st), cs, j, Target(st, cs[j]), k);
      }
    }
  }

  lemma TargetIs(st: Store, cs: seq<Checkpoint>, j: nat)
    requires StoreOk(st, cs, true) && j < |cs| && AllDistinct(cs)
    ensures cs[j] in st.journal.stack ==> Find(st.journal.stack, cs[j]) > 0
    ensures var since := |cs| - |Frames(st)|;
            if since <= j then Target(st, cs[j]) == Frames(st)[j - since]
            else Target(st, cs[j]) == Frame(cs[j], Level(map[], false), StartTrie(st))
  {
    hide J.Valid, J.AnyClear, J.Lookup, BlankFrames, Local;
    Position(st, cs, j);
    FrameNames(st);
  }

  lemma TargetValue(sm: Summary, cs: seq<Checkpoint>, j: nat, target: Frame, k: Slot)
    requires |sm.frames| <= |cs| && j < |cs|
    requires |sm.frames| < |cs| ==> sm.locked == Level(map[], false)
    requires var since := |cs| - |sm.frames|;
             target == if since <= j then sm.frames[j - since] else Frame(cs[j], Level(map[], false), sm.start)
    ensures FrameValue(sm.locked, target, k) == ValueAt(sm, |cs|, j, k)
  {}

  // A discard leaves the very first trie of the transaction where it is.
  lemma DiscardStart(st: Store, id: Checkpoint, root: Checkpoint)
    requires id in st.journal.stack ==> id in st.clearCount.stack
    requires DoDiscard(st, id, root).Ok?
    ensures StartTrie(DoDiscard(st, id, root).value) == StartTrie(st)
  {}

  lemma StoreCommit(st: Store, cs: seq<Checkpoint>, j: nat)
    requires StoreOk(st, cs, true) && j < |cs| && AllDistinct(cs)
    ensures cs[j] in st.journal.stack ==> cs[j] in st.clearCount.stack
    ensures var t := DoCommit(st, cs[j]);
            && Sound(t) && t.journal.stack != []
            && Lowered(Summarize(st), Summarize(t), cs, j, false)
  {
    hide J.Valid, J.AnyClear, J.Marks, J.Meaning, Paired, FramesOf, BlankFrames, InOrder;
    Position(st, cs, j);
    FrameNames(st);
    CommitKeeps(st, cs[j]);
  }
}
