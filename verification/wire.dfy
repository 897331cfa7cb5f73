// veda/db/manager.py: the requests a database client sends, and how they are
// read back from the stream of bytes.
module WireProtocol {
  import opened Wrappers
  import opened Diffs

  const GET: Byte := 0
  const SET: Byte := 1
  const DELETE: Byte := 2
  const EXISTS: Byte := 3
  const ATOMIC_BATCH: Byte := 4

  const SUCCESS_BYTE: Byte := 1
  const FAIL_BYTE: Byte := 0

  const SIZE_CEILING: nat := 0x1_0000_0000

  datatype Request =
    | Get(key: Bytes)
    | Set(key: Bytes, value: Bytes)
    | Delete(key: Bytes)
    | Exists(key: Bytes)
    | Batch(sets: seq<(Bytes, Bytes)>, deletes: seq<Bytes>)

  //
  // Sizes, in four bytes, the lowest first
  //

  function PackSize(n: nat): (b: Bytes)
    requires n < SIZE_CEILING
    ensures |b| == 4
  {
    [n % 0x100, n / 0x100 % 0x100, n / 0x100 / 0x100 % 0x100, n / 0x100 / 0x100 / 0x100]
  }

  function UnpackSize(b: Bytes): (n: nat)
    requires |b| == 4
    ensures n < SIZE_CEILING
  {
    var b0: int, b1: int, b2: int, b3: int := b[0], b[1], b[2], b[3];
    b0 + 0x100 * (b1 + 0x100 * (b2 + 0x100 * b3))
  }

  lemma UnpackPacked(n: nat)
    requires n < SIZE_CEILING
    ensures UnpackSize(PackSize(n)) == n
  {}

  lemma PackUnpacked(b: Bytes)
    requires |b| == 4
    ensures PackSize(UnpackSize(b)) == b
  {
    var b0: int, b1: int, b2: int, b3: int := b[0], b[1], b[2], b[3];
    var n := UnpackSize(b);
    LowByte(b0, b1 + 0x100 * (b2 + 0x100 * b3));
    LowByte(b1, b2 + 0x100 * b3);
    LowByte(b2, b3);
    assert b == [b0, b1, b2, b3];
  }

  lemma LowByte(low: int, high: nat)
    requires 0 <= low < 0x100
    ensures (low + 0x100 * high) % 0x100 == low && (low + 0x100 * high) / 0x100 == high
  {}

  predicate Fit(sizes: seq<nat>) {
    forall i :: 0 <= i < |sizes| ==> sizes[i] < SIZE_CEILING
  }

  function PackSizes(sizes: seq<nat>): (b: Bytes)
    requires Fit(sizes)
    ensures |b| == 4 * |sizes|
  {
    if sizes == [] then [] else PackSize(sizes[0]) + PackSizes(sizes[1..])
  }

  function UnpackSizes(b: Bytes): (sizes: seq<nat>)
    requires |b| % 4 == 0
    ensures 4 * |sizes| == |b|
  {
    if b == [] then [] else [UnpackSize(b[..4])] + UnpackSizes(b[4..])
  }

  lemma {:induction false} UnpackAllPacked(sizes: seq<nat>)
    requires Fit(sizes)
    ensures UnpackSizes(PackSizes(sizes)) == sizes
  {
    if sizes != [] {
      var all := PackSizes(sizes);
      assert all[..4] == PackSize(sizes[0]) && all[4..] == PackSizes(sizes[1..]);
      UnpackPacked(sizes[0]);
      UnpackAllPacked(sizes[1..]);
    }
  }

  lemma {:induction false} PackAllUnpacked(b: Bytes)
    requires |b| % 4 == 0
    ensures Fit(UnpackSizes(b)) && PackSizes(UnpackSizes(b)) == b
    decreases |b|
  {
    if b != [] {
      PackUnpacked(b[..4]);
      PackAllUnpacked(b[4..]);
      assert b == b[..4] + b[4..];
      assert UnpackSizes(b)[1..] == UnpackSizes(b[4..]);
    }
  }

  //
  // Encoding
  //

  function PairSizes(sets: seq<(Bytes, Bytes)>): (sizes: seq<nat>)
    ensures |sizes| == 2 * |sets|
  {
    if sets == [] then [] else [|sets[0].0|, |sets[0].1|] + PairSizes(sets[1..])
  }

  function KeySizes(keys: seq<Bytes>): (sizes: seq<nat>)
    ensures |sizes| == |keys|
  {
    if keys == [] then [] else [|keys[0]|] + KeySizes(keys[1..])
  }

  function PairData(sets: seq<(Bytes, Bytes)>): Bytes {
    if sets == [] then [] else sets[0].0 + sets[0].1 + PairData(sets[1..])
  }

  function KeyData(keys: seq<Bytes>): Bytes {
    if keys == [] then [] else keys[0] + KeyData(keys[1..])
  }

  // Every length and count has to fit four bytes; packing fails otherwise.
  predicate Encodable(r: Request) {
    match r
    case Get(key) => |key| < SIZE_CEILING
    case Set(key, value) => |key| < SIZE_CEILING && |value| < SIZE_CEILING
    case Delete(key) => |key| < SIZE_CEILING
    case Exists(key) => |key| < SIZE_CEILING
    case Batch(sets, deletes) =>
      |sets| < SIZE_CEILING && |deletes| < SIZE_CEILING && Fit(PairSizes(sets) + KeySizes(deletes))
  }

  function OperationByte(r: Request): Byte {
    match r
    case Get(_) => GET
    case Set(_, _) => SET
    case Delete(_) => DELETE
    case Exists(_) => EXISTS
    case Batch(_, _) => ATOMIC_BATCH
  }

  // The sizes that go before the data.
  function Header(r: Request): Bytes
    requires Encodable(r)
  {
    match r
    case Set(key, value) => PackSize(|key|) + PackSize(|value|)
    case Batch(sets, deletes) =>
      PackSize(|sets|) + PackSize(|deletes|) + PackSizes(PairSizes(sets) + KeySizes(deletes))
    case _ => PackSize(|r.key|)
  }

  function Data(r: Request): Bytes {
    match r
    case Set(key, value) => key + value
    case Batch(sets, deletes) => PairData(sets) + KeyData(deletes)
    case _ => r.key
  }

  function Encode(r: Request): Bytes
    requires Encodable(r)
  {
    [OperationByte(r)] + Header(r) + Data(r)
  }

  function EncodeAll(rs: seq<Request>): Bytes
    requires forall i :: 0 <= i < |rs| ==> Encodable(rs[i])
  {
    if rs == [] then [] else Encode(rs[0]) + EncodeAll(rs[1..])
  }

  //
  // Parsing
  //

  datatype Parsed<T> = Parsed(value: T, rest: Bytes) | Closed | UnknownOperation

  // The next n bytes of a stream and what follows them.
  function Take(s: Bytes, n: nat): Option<(Bytes, Bytes)> {
    if |s| < n then None else Some((s[..n], s[n..]))
  }

  lemma TakeAppended(a: Bytes, b: Bytes)
    ensures Take(a + b, |a|) == Some((a, b))
  {}

  lemma TakeSplits(s: Bytes, n: nat)
    requires n <= |s|
    ensures Take(s, n).Some? && |Take(s, n).value.0| == n && Take(s, n).value.0 + Take(s, n).value.1 == s
  {}

  function ReadKey(s: Bytes): Parsed<Bytes> {
    var size := Take(s, 4);
    if size.None? then Closed
    else
      var key := Take(size.value.1, UnpackSize(size.value.0));
      if key.None? then Closed else Parsed(key.value.0, key.value.1)
  }

  function ReadSet(s: Bytes): Parsed<Request> {
    var header := Take(s, 8);
    if header.None? then Closed
    else
      var keySize, valueSize := UnpackSize(header.value.0[..4]), UnpackSize(header.value.0[4..]);
      var data := Take(header.value.1, keySize + valueSize);
      if data.None? then Closed else Parsed(Set(data.value.0[..keySize], data.value.0[keySize..]), data.value.1)
  }

  function ReadPairs(sizes: seq<nat>, s: Bytes): Parsed<seq<(Bytes, Bytes)>>
    requires |sizes| % 2 == 0
    decreases |sizes|
  {
    if sizes == [] then Parsed([], s)
    else
      var data := Take(s, sizes[0] + sizes[1]);
      if data.None? then Closed
      else
        var rest := ReadPairs(sizes[2..], data.value.1);
        if rest.Parsed? then
          Parsed([(data.value.0[..sizes[0]], data.value.0[sizes[0]..])] + rest.value, rest.rest)
        else rest
  }

  function ReadKeys(sizes: seq<nat>, s: Bytes): Parsed<seq<Bytes>>
    decreases |sizes|
  {
    if sizes == [] then Parsed([], s)
    else
      var data := Take(s, sizes[0]);
      if data.None? then Closed
      else
        var rest := ReadKeys(sizes[1..], data.value.1);
        if rest.Parsed? then Parsed([data.value.0] + rest.value, rest.rest) else rest
  }

  function ReadBatch(s: Bytes): Parsed<Request> {
    var counts := Take(s, 8);
    if counts.None? then Closed
    else
      var pairs, deletes := UnpackSize(counts.value.0[..4]), UnpackSize(counts.value.0[4..]);
      var packed := Take(counts.value.1, 8 * pairs + 4 * deletes);
      if packed.None? then Closed
      else ReadBatchData(UnpackSizes(packed.value.0), 2 * pairs, packed.value.1)
  }

  function ReadBatchData(sizes: seq<nat>, pairSizes: nat, s: Bytes): Parsed<Request>
    requires pairSizes <= |sizes| && pairSizes % 2 == 0
  {
    var sets := ReadPairs(sizes[..pairSizes], s);
    if !sets.Parsed? then Closed
    else
      var keys := ReadKeys(sizes[pairSizes..], sets.rest);
      if keys.Parsed? then Parsed(Batch(sets.value, keys.value), keys.rest) else Closed
  }

  // The body of a request whose operation byte has been read.
  function ReadBody(operation: Byte, s: Bytes): Parsed<Request> {
    if operation == SET then ReadSet(s)
    else if operation == ATOMIC_BATCH then ReadBatch(s)
    else if operation == GET || operation == DELETE || operation == EXISTS then
      var key := ReadKey(s);
      if !key.Parsed? then Closed
      else Parsed(if operation == GET then Get(key.value)
                  else if operation == DELETE then Delete(key.value) else Exists(key.value), key.rest)
    else UnknownOperation
  }

  function ReadRequest(s: Bytes): Parsed<Request> {
    if s == [] then Closed else ReadBody(s[0], s[1..])
  }

  //
  // Parsing undoes encoding
  //

  lemma KeyParses(key: Bytes, rest: Bytes)
    requires |key| < SIZE_CEILING
    ensures ReadKey(PackSize(|key|) + (key + rest)) == Parsed(key, rest)
  {
    hide Take, PackSize, UnpackSize;
    UnpackPacked(|key|);
    TakeAppended(PackSize(|key|), key + rest);
    TakeAppended(key, rest);
  }

  lemma SetParses(key: Bytes, value: Bytes, rest: Bytes)
    requires |key| < SIZE_CEILING && |value| < SIZE_CEILING
    ensures ReadSet((PackSize(|key|) + PackSize(|value|)) + (key + value + rest)) == Parsed(Set(key, value), rest)
  {
    hide Take, PackSize, UnpackSize;
    UnpackPacked(|key|);
    UnpackPacked(|value|);
    TakeAppended(PackSize(|key|) + PackSize(|value|), key + value + rest);
    TakeAppended(key + value, rest);
  }

  lemma {:induction false} PairsParse(sets: seq<(Bytes, Bytes)>, rest: Bytes)
    ensures ReadPairs(PairSizes(sets), PairData(sets) + rest) == Parsed(sets, rest)
  {
    if sets == [] {
      assert PairData(sets) + rest == rest;
    } else {
      hide Take;
      var (k, v) := sets[0];
      PairsParse(sets[1..], rest);
      assert PairData(sets) + rest == (k + v) + (PairData(sets[1..]) + rest);
      TakeAppended(k + v, PairData(sets[1..]) + rest);
      assert PairSizes(sets)[2..] == PairSizes(sets[1..]);
      assert (k + v)[..|k|] == k && (k + v)[|k|..] == v;
      assert sets == [(k, v)] + sets[1..];
    }
  }

  lemma {:induction false} KeysParse(keys: seq<Bytes>, rest: Bytes)
    ensures ReadKeys(KeySizes(keys), KeyData(keys) + rest) == Parsed(keys, rest)
  {
    if keys == [] {
      assert KeyData(keys) + rest == rest;
    } else {
      hide Take;
      KeysParse(keys[1..], rest);
      assert KeyData(keys) + rest == keys[0] + (KeyData(keys[1..]) + rest);
      TakeAppended(keys[0], KeyData(keys[1..]) + rest);
      assert KeySizes(keys)[1..] == KeySizes(keys[1..]);
      assert keys == [keys[0]] + keys[1..];
    }
  }

  lemma BatchParses(sets: seq<(Bytes, Bytes)>, deletes: seq<Bytes>, rest: Bytes)
    requires Encodable(Batch(sets, deletes))
    ensures ReadBatch(Header(Batch(sets, deletes)) + (Data(Batch(sets, deletes)) + rest)) ==
            Parsed(Batch(sets, deletes), rest)
  {
    hide Take, PackSize, UnpackSize, PackSizes, UnpackSizes, PairSizes, KeySizes, PairData, KeyData, ReadPairs, ReadKeys;
    var sizes := PairSizes(sets) + KeySizes(deletes);
    var counts, packed := PackSize(|sets|) + PackSize(|deletes|), PackSizes(sizes);
    var data := PairData(sets) + KeyData(deletes) + rest;
    UnpackPacked(|sets|);
    UnpackPacked(|deletes|);
    UnpackAllPacked(sizes);
    assert (counts + packed) + data == counts + (packed + data);
    TakeAppended(counts, packed + data);
    TakeAppended(packed, data);
    assert counts[..4] == PackSize(|sets|) && counts[4..] == PackSize(|deletes|);
    assert sizes[..2 * |sets|] == PairSizes(sets) && sizes[2 * |sets|..] == KeySizes(deletes);
    assert data == PairData(sets) + (KeyData(deletes) + rest);
    PairsParse(sets, KeyData(deletes) + rest);
    KeysParse(deletes, rest);
  }

  // Whatever follows, a request is read back and reading stops at its last byte.
  lemma RequestParses(r: Request, rest: Bytes)
    requires Encodable(r)
    ensures ReadRequest(Encode(r) + rest) == Parsed(r, rest)
  {
    hide PackSize, PackSizes, ReadBatch, ReadSet, ReadKey, PairSizes, KeySizes, PairData, KeyData;
    var body := Header(r) + (Data(r) + rest);
    assert Encode(r) + rest == [OperationByte(r)] + body;
    assert ([OperationByte(r)] + body)[1..] == body;
    match r
    case Set(key, value) => SetParses(key, value, rest);
    case Batch(sets, deletes) => BatchParses(sets, deletes, rest);
    case _ => KeyParses(r.key, rest);
  }

  //
  // Encoding undoes parsing
  //

  lemma PairJoins(sizes: seq<nat>, s: Bytes, data: Bytes, tail: Bytes, sets: seq<(Bytes, Bytes)>, rest: Bytes)
    requires |sizes| >= 2 && |data| == sizes[0] + sizes[1] && data + tail == s
    requires PairSizes(sets) == sizes[2..] && PairData(sets) + rest == tail
    ensures var all := [(data[..sizes[0]], data[sizes[0]..])] + sets;
            PairSizes(all) == sizes && PairData(all) + rest == s
  {
    var all := [(data[..sizes[0]], data[sizes[0]..])] + sets;
    assert all[1..] == sets;
    assert data == data[..sizes[0]] + data[sizes[0]..];
    assert PairData(all) == data + PairData(sets);
    assert data + PairData(sets) + rest == data + (PairData(sets) + rest);
    assert sizes == [sizes[0], sizes[1]] + sizes[2..];
  }

  lemma {:induction false} PairsPrint(sizes: seq<nat>, s: Bytes)
    requires |sizes| % 2 == 0 && ReadPairs(sizes, s).Parsed?
    ensures var p := ReadPairs(sizes, s); PairSizes(p.value) == sizes && PairData(p.value) + p.rest == s
    decreases |sizes|
  {
    if sizes == [] {
      assert PairData([]) + s == s;
    } else {
      var n := sizes[0] + sizes[1];
      TakeFits(s, n);
      TakeSplits(s, n);
      hide Take, PairSizes, PairData;
      var (data, tail) := Take(s, n).value;
      PairsPrint(sizes[2..], tail);
      var q := ReadPairs(sizes[2..], tail);
      PairJoins(sizes, s, data, tail, q.value, q.rest);
    }
  }

  lemma KeyJoins(sizes: seq<nat>, s: Bytes, data: Bytes, tail: Bytes, keys: seq<Bytes>, rest: Bytes)
    requires sizes != [] && |data| == sizes[0] && data + tail == s
    requires KeySizes(keys) == sizes[1..] && KeyData(keys) + rest == tail
    ensures KeySizes([data] + keys) == sizes && KeyData([data] + keys) + rest == s
  {
    assert ([data] + keys)[1..] == keys;
    assert data + KeyData(keys) + rest == data + (KeyData(keys) + rest);
    assert sizes == [sizes[0]] + sizes[1..];
  }

  lemma {:induction false} KeysPrint(sizes: seq<nat>, s: Bytes)
    requires ReadKeys(sizes, s).Parsed?
    ensures var p := ReadKeys(sizes, s); KeySizes(p.value) == sizes && KeyData(p.value) + p.rest == s
    decreases |sizes|
  {
    if sizes == [] {
      assert KeyData([]) + s == s;
    } else {
      TakeFits(s, sizes[0]);
      TakeSplits(s, sizes[0]);
      hide Take, KeySizes, KeyData;
      var (data, tail) := Take(s, sizes[0]).value;
      KeysPrint(sizes[1..], tail);
      var q := ReadKeys(sizes[1..], tail);
      KeyJoins(sizes, s, data, tail, q.value, q.rest);
    }
  }

  lemma KeyPrints(s: Bytes)
    requires ReadKey(s).Parsed?
    ensures var p := ReadKey(s);
            |p.value| < SIZE_CEILING && PackSize(|p.value|) + (p.value + p.rest) == s
  {
    TakeSplits(s, 4);
    var (size, tail) := Take(s, 4).value;
    PackUnpacked(size);
    TakeSplits(tail, UnpackSize(size));
    hide Take, PackSize, UnpackSize;
  }

  lemma SetPrints(s: Bytes)
    requires ReadSet(s).Parsed?
    ensures var p := ReadSet(s);
            p.value.Set? && Encodable(p.value) && Header(p.value) + (Data(p.value) + p.rest) == s
  {
    TakeSplits(s, 8);
    var (header, tail) := Take(s, 8).value;
    PackUnpacked(header[..4]);
    PackUnpacked(header[4..]);
    var keySize, valueSize := UnpackSize(header[..4]), UnpackSize(header[4..]);
    TakeSplits(tail, keySize + valueSize);
    hide Take, PackSize, UnpackSize;
    var (data, rest) := Take(tail, keySize + valueSize).value;
    assert data == data[..keySize] + data[keySize..] && header == header[..4] + header[4..];
  }

  lemma TakeFits(s: Bytes, n: nat)
    requires Take(s, n).Some?
    ensures n <= |s|
  {}

  lemma BatchDataPrints(sizes: seq<nat>, pairSizes: nat, s: Bytes)
    requires pairSizes <= |sizes| && pairSizes % 2 == 0 && ReadBatchData(sizes, pairSizes, s).Parsed?
    ensures var p := ReadBatchData(sizes, pairSizes, s);
            && p.value.Batch? && 2 * |p.value.sets| == pairSizes
            && PairSizes(p.value.sets) + KeySizes(p.value.deletes) == sizes
            && PairData(p.value.sets) + KeyData(p.value.deletes) + p.rest == s
  {
    hide PairSizes, KeySizes, PairData, KeyData, ReadPairs, ReadKeys;
    PairsPrint(sizes[..pairSizes], s);
    var sets := ReadPairs(sizes[..pairSizes], s);
    KeysPrint(sizes[pairSizes..], sets.rest);
    var keys := ReadKeys(sizes[pairSizes..], sets.rest);
    assert sizes == sizes[..pairSizes] + sizes[pairSizes..];
    assert PairData(sets.value) + KeyData(keys.value) + keys.rest == PairData(sets.value) + (KeyData(keys.value) + keys.rest);
  }

  lemma HeaderJoins(r: Request, s: Bytes, counts: Bytes, packed: Bytes, data: Bytes, rest: Bytes)
    requires r.Batch? && Encodable(r) && |counts| == 8 && s == counts + (packed + data)
    requires counts[..4] == PackSize(|r.sets|) && counts[4..] == PackSize(|r.deletes|)
    requires packed == PackSizes(PairSizes(r.sets) + KeySizes(r.deletes)) && Data(r) + rest == data
    ensures Header(r) + (Data(r) + rest) == s
  {
    hide PackSize, PackSizes, PairSizes, KeySizes, Data;
    assert counts == counts[..4] + counts[4..];
    assert counts + packed + data == s;
  }

  lemma BatchPrints(s: Bytes)
    requires ReadBatch(s).Parsed?
    ensures var p := ReadBatch(s);
            p.value.Batch? && Encodable(p.value) && Header(p.value) + (Data(p.value) + p.rest) == s
  {
    hide PackSize, UnpackSize, PackSizes, UnpackSizes, PairSizes, KeySizes, PairData, KeyData, ReadBatchData, Take,
      Header, Fit;
    TakeFits(s, 8);
    TakeSplits(s, 8);
    var (counts, tail) := Take(s, 8).value;
    PackUnpacked(counts[..4]);
    PackUnpacked(counts[4..]);
    var pairs, deletes := UnpackSize(counts[..4]), UnpackSize(counts[4..]);
    var n := 8 * pairs + 4 * deletes;
    TakeFits(tail, n);
    TakeSplits(tail, n);
    var (packed, data) := Take(tail, n).value;
    PackAllUnpacked(packed);
    BatchDataPrints(UnpackSizes(packed), 2 * pairs, data);
    var p := ReadBatchData(UnpackSizes(packed), 2 * pairs, data);
    HeaderJoins(p.value, s, counts, packed, data, p.rest);
  }

  // The bytes read for a request are exactly its encoding, so no two requests
  // and no second encoding of one are ever confused.
  lemma ParsedIsEncoded(s: Bytes)
    requires ReadRequest(s).Parsed?
    ensures var p := ReadRequest(s); Encodable(p.value) && Encode(p.value) + p.rest == s
  {
    hide PackSize, PackSizes, ReadBatch, ReadSet, ReadKey, PairSizes, KeySizes, PairData, KeyData;
    var body := s[1..];
    if s[0] == SET {
      SetPrints(body);
    } else if s[0] == ATOMIC_BATCH {
      BatchPrints(body);
    } else {
      KeyPrints(body);
    }
    var p := ReadRequest(s);
    assert Header(p.value) + (Data(p.value) + p.rest) == body;
    assert s == [OperationByte(p.value)] + body;
  }

  //
  // Effect and replies
  //

  function Effect(db: Store, r: Request): Store {
    match r
    case Set(key, value) => db[key := value]
    case Delete(key) => db - {key}
    case Batch(sets, deletes) => RemoveAll(PutAll(db, sets), deletes)
    case _ => db
  }

  function Flag(ok: bool): Bytes {
    [if ok then SUCCESS_BYTE else FAIL_BYTE]
  }

  // A value read back has to fit four bytes too.
  predicate Answerable(db: Store, r: Request) {
    r.Get? && r.key in db ==> |db[r.key]| < SIZE_CEILING
  }

  function Reply(db: Store, r: Request): Bytes
    requires Answerable(db, r)
  {
    match r
    case Get(key) => if key in db then [SUCCESS_BYTE] + PackSize(|db[key]|) + db[key] else [FAIL_BYTE]
    case Set(_, _) => [SUCCESS_BYTE]
    case Delete(key) => Flag(key in db)
    case Exists(key) => Flag(key in db)
    case Batch(_, _) => [SUCCESS_BYTE]
  }

  // What the client makes of the reply to a get.
  function ReadGetReply(s: Bytes): Parsed<Option<Bytes>> {
    if s == [] then Closed
    else if s[0] == FAIL_BYTE then Parsed(None, s[1..])
    else if s[0] == SUCCESS_BYTE then
      var value := ReadKey(s[1..]);
      if value.Parsed? then Parsed(Some(value.value), value.rest) else Closed
    else UnknownOperation
  }

  // The client gets what the database holds.
  lemma GetAnswered(db: Store, key: Bytes, rest: Bytes)
    requires Answerable(db, Get(key))
    ensures ReadGetReply(Reply(db, Get(key)) + rest) == Parsed(if key in db then Some(db[key]) else None, rest)
  {
    var s := Reply(db, Get(key)) + rest;
    if key in db {
      KeyParses(db[key], rest);
      assert s[1..] == PackSize(|db[key]|) + (db[key] + rest);
    } else {
      assert s[1..] == rest;
    }
  }

  // What the client makes of a one-byte reply: yes, no, or neither.
  function ReadFlag(s: Bytes): Option<bool> {
    if s == [] || s[0] > 1 then None else Some(s[0] == 1)
  }

  //
  // What a reader on the wire sees of the database
  //

  // The reply to a get, read back.
  function Fetch(db: Store, key: Bytes): Option<Bytes>
    requires Answerable(db, Get(key))
  {
    var r := ReadGetReply(Reply(db, Get(key)));
    if r.Parsed? then r.value else None
  }

  lemma FetchIs(db: Store, key: Bytes)
    requires Answerable(db, Get(key))
    ensures Fetch(db, key) == (if key in db then Some(db[key]) else None)
    ensures ReadGetReply(Reply(db, Get(key))).Parsed?
  {
    GetAnswered(db, key, []);
    assert Reply(db, Get(key)) + [] == Reply(db, Get(key));
  }

  // After a set the key reads as the value, and every other key as before.
  lemma FetchAfterSet(db: Store, key: Bytes, value: Bytes, other: Bytes)
    requires Encodable(Set(key, value)) && Answerable(db, Get(other))
    ensures Answerable(Effect(db, Set(key, value)), Get(other))
    ensures Fetch(Effect(db, Set(key, value)), other) == if other == key then Some(value) else Fetch(db, other)
  {
    hide Fetch, Reply;
    FetchIs(db, other);
    FetchIs(Effect(db, Set(key, value)), other);
  }

  // After a delete the key is missing, and every other key reads as before.
  lemma FetchAfterDelete(db: Store, key: Bytes, other: Bytes)
    requires Answerable(db, Get(other))
    ensures Answerable(Effect(db, Delete(key)), Get(other))
    ensures Fetch(Effect(db, Delete(key)), other) == if other == key then None else Fetch(db, other)
  {
    hide Fetch, Reply;
    FetchIs(db, other);
    FetchIs(Effect(db, Delete(key)), other);
  }

  // The value that the last pair for a key gives it.
  function LastValue(sets: seq<(Bytes, Bytes)>, key: Bytes): Option<Bytes> {
    if sets == [] then None
    else if Last(sets).0 == key then Some(Last(sets).1)
    else LastValue(Front(sets), key)
  }

  lemma {:induction false} PutAllAt(db: Store, sets: seq<(Bytes, Bytes)>, key: Bytes)
    ensures var t, v := PutAll(db, sets), LastValue(sets, key);
            (if key in t then Some(t[key]) else None) == if v.Some? then v else if key in db then Some(db[key]) else None
    decreases |sets|
  {
    if sets != [] {
      PutAllLast(db, sets);
      PutAllAt(db, Front(sets), key);
    }
  }

  lemma {:induction false} PutAllLast(db: Store, sets: seq<(Bytes, Bytes)>)
    requires sets != []
    ensures PutAll(db, sets) == PutAll(db, Front(sets))[Last(sets).0 := Last(sets).1]
    decreases |sets|
  {
    if |sets| > 1 {
      PutAllLast(db[sets[0].0 := sets[0].1], sets[1..]);
      assert Front(sets)[1..] == Front(sets[1..]) && Last(sets[1..]) == Last(sets);
    }
  }

  lemma {:induction false} RemoveAllAt(db: Store, keys: seq<Bytes>, key: Bytes)
    ensures var t := RemoveAll(db, keys);
            && (key in t <==> key in db && key !in keys)
            && (key in t ==> t[key] == db[key])
    decreases |keys|
  {
    if keys != [] {
      RemoveAllAt(db - {keys[0]}, keys[1..], key);
    }
  }

  // After a batch a deleted key is missing, and a key that was set reads as the
  // value of its last pair.
  lemma FetchAfterBatch(db: Store, sets: seq<(Bytes, Bytes)>, deletes: seq<Bytes>, key: Bytes)
    requires Answerable(db, Get(key)) && Answerable(Effect(db, Batch(sets, deletes)), Get(key))
    ensures Fetch(Effect(db, Batch(sets, deletes)), key) ==
            if key in deletes then None
            else if LastValue(sets, key).Some? then LastValue(sets, key)
            else Fetch(db, key)
  {
    hide Fetch, Reply;
    FetchIs(db, key);
    FetchIs(Effect(db, Batch(sets, deletes)), key);
    PutAllAt(db, sets, key);
    RemoveAllAt(PutAll(db, sets), deletes, key);
  }

  // Asking changes nothing, and the one-byte replies say whether a get finds
  // the key: for a delete, before it.
  lemma FlagsSayFound(db: Store, key: Bytes, other: Bytes, rest: Bytes)
    requires Answerable(db, Get(key)) && Answerable(db, Get(other))
    ensures Effect(db, Get(key)) == Effect(db, Exists(key)) == db
    ensures ReadFlag(Reply(db, Exists(key)) + rest) == Some(Fetch(db, key).Some?)
    ensures ReadFlag(Reply(db, Delete(key)) + rest) == Some(Fetch(db, key).Some?)
    ensures forall value: Bytes, sets, deletes ::
              Reply(db, Set(key, value)) == Reply(db, Batch(sets, deletes)) == [1]
  {
    hide Fetch;
    FetchIs(db, key);
  }

  //
  // The documented layout
  //

  // Sizes are little-endian numbers of four bytes.
  lemma SizesAreLittleEndian(n: nat)
    requires n < SIZE_CEILING
    ensures var b := PackSize(n);
            n == b[0] as int + 0x100 * b[1] as int + 0x1_0000 * b[2] as int + 0x100_0000 * b[3] as int
  {
    UnpackPacked(n);
  }

  // Operation byte, sizes, data.
  lemma RequestLayout(key: Bytes, value: Bytes)
    requires |key| < SIZE_CEILING && |value| < SIZE_CEILING
    ensures Encode(Get(key)) == [0] + PackSize(|key|) + key
    ensures Encode(Set(key, value)) == [1] + PackSize(|key|) + PackSize(|value|) + key + value
    ensures Encode(Delete(key)) == [2] + PackSize(|key|) + key
    ensures Encode(Exists(key)) == [3] + PackSize(|key|) + key
  {}

  // The counts, then the sizes of the pairs and of the deleted keys, then the
  // pairs and the deleted keys.
  lemma BatchLayout(key: Bytes, value: Bytes, gone: Bytes)
    requires Encodable(Batch([(key, value)], [gone]))
    requires |key| < SIZE_CEILING && |value| < SIZE_CEILING && |gone| < SIZE_CEILING
    ensures Encode(Batch([(key, value)], [gone])) ==
            [4] + (PackSize(1) + PackSize(1) + (PackSize(|key|) + PackSize(|value|) + PackSize(|gone|))) + (key + value + gone)
  {
    hide PackSize;
    var sets, deletes := [(key, value)], [gone];
    OneItem((key, value));
    OneItem(gone);
    assert PairSizes(sets) == [|key|, |value|] && KeySizes(deletes) == [|gone|];
    assert PairData(sets) == key + value && KeyData(deletes) == gone;
    assert [|key|, |value|] + [|gone|] == [|key|, |value|, |gone|];
    PackThree(|key|, |value|, |gone|);
  }

  lemma OneItem<T>(x: T)
    ensures [x][1..] == []
  {}

  lemma PackThree(a: nat, b: nat, c: nat)
    requires a < SIZE_CEILING && b < SIZE_CEILING && c < SIZE_CEILING
    ensures PackSizes([a, b, c]) == PackSize(a) + PackSize(b) + PackSize(c)
  {
    hide PackSize;
    var sizes: seq<nat> := [a, b, c];
    assert sizes[1..] == [b, c] && [b, c][1..] == [c] && [c][1..] == [];
    assert PackSizes([c]) == PackSize(c) + PackSizes([]);
    assert PackSizes([b, c]) == PackSize(b) + PackSizes([c]);
    assert PackSizes(sizes) == PackSize(a) + PackSizes([b, c]);
  }

  // A batch sent for a diff does to the database what the diff does.
  lemma BatchHasEffectOfDiff(db: Store, changes: seq<Change>)
    requires Distinct(changes)
    ensures Effect(db, Batch(Sets(changes), Deletes(changes))) == ApplyDiff(db, changes)
  {
    SetsThenDeletes(db, changes);
  }
}
