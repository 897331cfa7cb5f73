// veda/vm/computation.py: log entries and gas refunds collected over the tree
// of computations of a transaction, with the transaction's log counter.
module LogCollection {
  import opened Wrappers

  datatype Log = Log(account: nat, topics: seq<nat>, data: seq<nat>)

  // What a computation does that is collected afterwards, in order.
  datatype Event = Emit(log: Log) | Refund(amount: int) | Spawn(child: Node)

  datatype Node = Node(events: seq<Event>, fails: bool)

  datatype Entry = Entry(counter: nat, log: Log)

  // A finished computation: its own entries and refunds, and its children.
  datatype Record = Record(entries: seq<Entry>, children: seq<Record>, refunded: int, error: bool)

  //
  // Running a tree
  //

  // How far events move the transaction's log counter: failed computations
  // count too.
  function Emitted(events: seq<Event>): nat {
    if events == [] then 0
    else
      (match events[0]
       case Emit(_) => 1
       case Refund(_) => 0
       case Spawn(child) => assert child < events[0]; EmittedBy(child)) + Emitted(events[1..])
  }

  function EmittedBy(node: Node): nat {
    Emitted(node.events)
  }

  function OwnEntries(events: seq<Event>, k: nat): seq<Entry> {
    if events == [] then []
    else match events[0]
      case Emit(log) => [Entry(k, log)] + OwnEntries(events[1..], k + 1)
      case Refund(_) => OwnEntries(events[1..], k)
      case Spawn(child) => OwnEntries(events[1..], k + EmittedBy(child))
  }

  function OwnRefund(events: seq<Event>): int {
    if events == [] then 0
    else (if events[0].Refund? then events[0].amount else 0) + OwnRefund(events[1..])
  }

  function Children(events: seq<Event>, k: nat): seq<Record> {
    if events == [] then []
    else match events[0]
      case Emit(_) => Children(events[1..], k + 1)
      case Refund(_) => Children(events[1..], k)
      case Spawn(child) =>
        assert child < events[0];
        [Finish(child, k)] + Children(events[1..], k + EmittedBy(child))
  }

  // The computation as it stands once the node has run, from counter k.
  function Finish(node: Node, k: nat): Record {
    Record(OwnEntries(node.events, k), Children(node.events, k), OwnRefund(node.events), node.fails)
  }

  //
  // Collecting
  //

  function Insert(sorted: seq<Entry>, e: Entry): seq<Entry> {
    if sorted == [] || Last(sorted).counter <= e.counter then sorted + [e]
    else Insert(Front(sorted), e) + [Last(sorted)]
  }

  function Sort(entries: seq<Entry>): seq<Entry> {
    if entries == [] then [] else Insert(Sort(Front(entries)), Last(entries))
  }

  // get_raw_log_entries
  function RawLogEntries(r: Record): seq<Entry> {
    if r.error then [] else Sort(r.entries + ChildEntries(r.children))
  }

  function ChildEntries(children: seq<Record>): seq<Entry> {
    if children == [] then [] else RawLogEntries(children[0]) + ChildEntries(children[1..])
  }

  // get_log_entries
  function LogEntries(r: Record): seq<Log> {
    Logs(RawLogEntries(r))
  }

  function Logs(entries: seq<Entry>): seq<Log> {
    if entries == [] then [] else [entries[0].log] + Logs(entries[1..])
  }

  // get_gas_refund
  function GasRefund(r: Record): int {
    if r.error then 0 else r.refunded + ChildRefunds(r.children)
  }

  function ChildRefunds(children: seq<Record>): int {
    if children == [] then 0 else GasRefund(children[0]) + ChildRefunds(children[1..])
  }

  //
  // What should be collected: one walk over the events as they happened,
  // skipping computations that fail
  //

  function Surviving(events: seq<Event>, k: nat): seq<Entry> {
    if events == [] then []
    else match events[0]
      case Emit(log) => [Entry(k, log)] + Surviving(events[1..], k + 1)
      case Refund(_) => Surviving(events[1..], k)
      case Spawn(child) =>
        assert child < events[0];
        Kept(child, k) + Surviving(events[1..], k + EmittedBy(child))
  }

  function Kept(node: Node, k: nat): seq<Entry> {
    if node.fails then [] else Surviving(node.events, k)
  }

  function SurvivingLogs(events: seq<Event>): seq<Log> {
    if events == [] then []
    else match events[0]
      case Emit(log) => [log] + SurvivingLogs(events[1..])
      case Refund(_) => SurvivingLogs(events[1..])
      case Spawn(child) =>
        assert child < events[0];
        KeptLogs(child) + SurvivingLogs(events[1..])
  }

  function KeptLogs(node: Node): seq<Log> {
    if node.fails then [] else SurvivingLogs(node.events)
  }

  function SurvivingRefund(events: seq<Event>): int {
    if events == [] then 0
    else match events[0]
      case Emit(_) => SurvivingRefund(events[1..])
      case Refund(amount) => amount + SurvivingRefund(events[1..])
      case Spawn(child) =>
        assert child < events[0];
        KeptRefund(child) + SurvivingRefund(events[1..])
  }

  function KeptRefund(node: Node): int {
    if node.fails then 0 else SurvivingRefund(node.events)
  }

  //
  // Sorting
  //

  ghost predicate Ordered(s: seq<Entry>) {
    forall i, j :: 0 <= i < j < |s| ==> s[i].counter <= s[j].counter
  }

  ghost predicate Increasing(s: seq<Entry>, low: nat, high: nat) {
    && (forall i, j :: 0 <= i < j < |s| ==> s[i].counter < s[j].counter)
    && forall i :: 0 <= i < |s| ==> low <= s[i].counter < high
  }

  lemma OrderedAppend(s: seq<Entry>, e: Entry)
    requires Ordered(s) && forall x :: x in s ==> x.counter <= e.counter
    ensures Ordered(s + [e])
  {}

  lemma OrderedLast(s: seq<Entry>)
    requires Ordered(s) && s != []
    ensures Ordered(Front(s)) && forall x :: x in s ==> x.counter <= Last(s).counter
  {}

  lemma {:induction false} InsertOrders(s: seq<Entry>, e: Entry)
    requires Ordered(s)
    ensures Ordered(Insert(s, e)) && multiset(Insert(s, e)) == multiset(s) + multiset{e}
    ensures forall x :: x in Insert(s, e) ==> x in s || x == e
  {
    hide Ordered;
    if s == [] {
      OrderedAppend(s, e);
    } else {
      OrderedLast(s);
      if Last(s).counter <= e.counter {
        OrderedAppend(s, e);
      } else {
        InsertOrders(Front(s), e);
        assert s == Front(s) + [Last(s)];
        OrderedAppend(Insert(Front(s), e), Last(s));
      }
    }
  }

  lemma {:induction false} SortOrders(s: seq<Entry>)
    ensures Ordered(Sort(s)) && multiset(Sort(s)) == multiset(s)
  {
    if s != [] {
      SortOrders(Front(s));
      InsertOrders(Sort(Front(s)), Last(s));
      assert s == Front(s) + [Last(s)];
    }
  }

  // The last elements of two such lists are the same.
  lemma SameLast(s: seq<Entry>, t: seq<Entry>, low: nat, high: nat)
    requires Ordered(s) && Increasing(t, low, high) && multiset(s) == multiset(t) && s != [] && t != []
    ensures Last(s) == Last(t)
  {
    assert Last(s) in multiset(t) && Last(t) in multiset(s);
    var i :| 0 <= i < |t| && t[i] == Last(s);
    var j :| 0 <= j < |s| && s[j] == Last(t);
    assert s[j].counter <= Last(s).counter;
  }

  // A list in increasing order is the only ordered one with its elements.
  lemma {:induction false} OrderedUnique(s: seq<Entry>, t: seq<Entry>, low: nat, high: nat)
    requires Ordered(s) && Increasing(t, low, high) && multiset(s) == multiset(t)
    ensures s == t
    decreases |s|
  {
    SameLength(s, t);
    if s != [] {
      SameLast(s, t, low, high);
      FrontOrdered(s, t, low, high);
      hide Ordered, Increasing;
      SameFront(s, t);
      OrderedUnique(Front(s), Front(t), low, high);
      assert s == Front(s) + [Last(s)] && t == Front(t) + [Last(t)];
    }
  }

  lemma SameLength(s: seq<Entry>, t: seq<Entry>)
    requires multiset(s) == multiset(t)
    ensures |s| == |t|
  {
    assert |s| == |multiset(s)| == |multiset(t)| == |t|;
  }

  lemma FrontOrdered(s: seq<Entry>, t: seq<Entry>, low: nat, high: nat)
    requires s != [] && t != [] && Ordered(s) && Increasing(t, low, high)
    ensures Ordered(Front(s)) && Increasing(Front(t), low, high)
  {}

  lemma SameFront(s: seq<Entry>, t: seq<Entry>)
    requires s != [] && t != [] && Last(s) == Last(t) && multiset(s) == multiset(t)
    ensures multiset(Front(s)) == multiset(Front(t))
  {
    assert s == Front(s) + [Last(s)] && t == Front(t) + [Last(t)];
    assert multiset(s) == multiset(Front(s)) + multiset{Last(s)};
    assert multiset(t) == multiset(Front(t)) + multiset{Last(t)};
    assert multiset(Front(s)) == multiset(s) - multiset{Last(s)};
    assert multiset(Front(t)) == multiset(t) - multiset{Last(t)};
  }

  lemma SortIs(s: seq<Entry>, t: seq<Entry>, low: nat, high: nat)
    requires Increasing(t, low, high) && multiset(s) == multiset(t)
    ensures Sort(s) == t
  {
    SortOrders(s);
    OrderedUnique(Sort(s), t, low, high);
  }

  //
  // The collection is the walk
  //

  lemma IncreasingConcat(a: seq<Entry>, b: seq<Entry>, low: nat, mid: nat, high: nat)
    requires Increasing(a, low, mid) && Increasing(b, mid, high) && low <= mid <= high
    ensures Increasing(a + b, low, high)
  {}

  lemma {:induction false} SurvivingIncreasing(events: seq<Event>, k: nat)
    ensures Increasing(Surviving(events, k), k, k + Emitted(events))
  {
    hide Increasing;
    if events == [] {
      NoneIncreasing(k, k);
    } else {
      match events[0]
      case Emit(log) =>
        SurvivingIncreasing(events[1..], k + 1);
        OneIncreasing(Entry(k, log));
        IncreasingConcat([Entry(k, log)], Surviving(events[1..], k + 1), k, k + 1, k + Emitted(events));
      case Refund(_) =>
        SurvivingIncreasing(events[1..], k);
      case Spawn(child) =>
        var mid := k + EmittedBy(child);
        assert child < events[0];
        KeptIncreasing(child, k);
        SurvivingIncreasing(events[1..], mid);
        IncreasingConcat(Kept(child, k), Surviving(events[1..], mid), k, mid, k + Emitted(events));
    }
  }

  lemma {:induction false} KeptIncreasing(node: Node, k: nat)
    ensures Increasing(Kept(node, k), k, k + EmittedBy(node))
  {
    if node.fails {
      NoneIncreasing(k, k + EmittedBy(node));
    } else {
      SurvivingIncreasing(node.events, k);
    }
  }

  lemma NoneIncreasing(low: nat, high: nat)
    ensures Increasing([], low, high)
  {}

  lemma OneIncreasing(e: Entry)
    ensures Increasing([e], e.counter, e.counter + 1)
  {}

  lemma {:induction false} SameEntries(events: seq<Event>, k: nat)
    ensures multiset(OwnEntries(events, k)) + multiset(ChildEntries(Children(events, k))) == multiset(Surviving(events, k))
  {
    hide RawLogEntries, Kept;
    if events != [] {
      var rest := events[1..];
      match events[0]
      case Emit(log) =>
        SameEntries(rest, k + 1);
      case Refund(_) =>
        SameEntries(rest, k);
      case Spawn(child) =>
        var next := k + EmittedBy(child);
        SameEntries(rest, next);
        assert child < events[0];
        Collected(child, k);
        assert Children(events, k) == [Finish(child, k)] + Children(rest, next);
        assert Children(events, k)[1..] == Children(rest, next);
        assert ChildEntries(Children(events, k)) == Kept(child, k) + ChildEntries(Children(rest, next));
        assert Surviving(events, k) == Kept(child, k) + Surviving(rest, next);
    }
  }

  // The entries collected from a computation are those of its own and of the
  // computations below it that neither failed nor lie below one that did, in
  // the order in which they were emitted in the transaction.
  lemma {:induction false} Collected(node: Node, k: nat)
    ensures RawLogEntries(Finish(node, k)) == Kept(node, k)
  {
    if !node.fails {
      var all := OwnEntries(node.events, k) + ChildEntries(Children(node.events, k));
      SameEntries(node.events, k);
      SurvivingIncreasing(node.events, k);
      assert multiset(all) == multiset(Surviving(node.events, k));
      SortIs(all, Surviving(node.events, k), k, k + EmittedBy(node));
    }
  }

  lemma {:induction false} LogsOfConcat(a: seq<Entry>, b: seq<Entry>)
    ensures Logs(a + b) == Logs(a) + Logs(b)
  {
    if a == [] {
      assert a + b == b;
    } else {
      assert (a + b)[1..] == a[1..] + b;
      LogsOfConcat(a[1..], b);
    }
  }

  lemma {:induction false} SurvivingWithoutCounters(events: seq<Event>, k: nat)
    ensures Logs(Surviving(events, k)) == SurvivingLogs(events)
  {
    if events != [] {
      match events[0]
      case Emit(log) =>
        SurvivingWithoutCounters(events[1..], k + 1);
        LogsOfConcat([Entry(k, log)], Surviving(events[1..], k + 1));
      case Refund(_) =>
        SurvivingWithoutCounters(events[1..], k);
      case Spawn(child) =>
        assert child < events[0];
        KeptWithoutCounters(child, k);
        SurvivingWithoutCounters(events[1..], k + EmittedBy(child));
        LogsOfConcat(Kept(child, k), Surviving(events[1..], k + EmittedBy(child)));
    }
  }

  lemma {:induction false} KeptWithoutCounters(node: Node, k: nat)
    ensures Logs(Kept(node, k)) == KeptLogs(node)
  {
    SurvivingWithoutCounters(node.events, k);
  }

  // The logs of a computation do not depend on what the counter started from.
  lemma CollectedLogs(node: Node, k: nat)
    ensures LogEntries(Finish(node, k)) == KeptLogs(node)
  {
    Collected(node, k);
    KeptWithoutCounters(node, k);
  }

  lemma {:induction false} SameRefunds(events: seq<Event>, k: nat)
    ensures OwnRefund(events) + ChildRefunds(Children(events, k)) == SurvivingRefund(events)
  {
    if events != [] {
      match events[0]
      case Emit(_) =>
        SameRefunds(events[1..], k + 1);
      case Refund(_) =>
        SameRefunds(events[1..], k);
      case Spawn(child) =>
        SameRefunds(events[1..], k + EmittedBy(child));
        assert child < events[0];
        RefundCollected(child, k);
        assert Children(events, k)[1..] == Children(events[1..], k + EmittedBy(child));
    }
  }

  // So are the refunds: those of failed computations are lost, with all below.
  lemma {:induction false} RefundCollected(node: Node, k: nat)
    ensures GasRefund(Finish(node, k)) == KeptRefund(node)
  {
    if !node.fails {
      SameRefunds(node.events, k);
    }
  }

  //
  // The counter
  //

  // veda/vm/transaction_context.py: one counter for all computations.
  class TransactionContext {
    var logCounter: nat

    constructor ()
      ensures logCounter == 0
    {
      logCounter := 0;
    }

    method GetNextLogCounter() returns (n: nat)
      modifies this
      ensures n == old(logCounter) && logCounter == n + 1
    {
      n := logCounter;
      logCounter := logCounter + 1;
    }

    // Running a node in this transaction.
    method Execute(node: Node) returns (r: Record)
      modifies this
      ensures r == Finish(node, old(logCounter)) && logCounter == old(logCounter) + EmittedBy(node)
      decreases node
    {
      var entries: seq<Entry> := [];
      var children: seq<Record> := [];
      var refunded := 0;
      for i := 0 to |node.events|
        invariant OwnEntries(node.events, old(logCounter)) == entries + OwnEntries(node.events[i..], logCounter)
        invariant Children(node.events, old(logCounter)) == children + Children(node.events[i..], logCounter)
        invariant OwnRefund(node.events) == refunded + OwnRefund(node.events[i..])
        invariant old(logCounter) + EmittedBy(node) == logCounter + Emitted(node.events[i..])
      {
        assert node.events[i..][0] == node.events[i] && node.events[i..][1..] == node.events[i + 1..];
        match node.events[i]
        case Emit(log) =>
          var counter := GetNextLogCounter();
          entries := entries + [Entry(counter, log)];
        case Refund(amount) =>
          refunded := refunded + amount;
        case Spawn(child) =>
          var finished := Execute(child);
          children := children + [finished];
      }
      assert node.events[|node.events|..] == [];
      return Record(entries, children, refunded, node.fails);
    }
  }
}
