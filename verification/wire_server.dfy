// veda/_utils/socket.py and the two ends of veda/db/manager.py: the server
// that reads requests from a stream arriving in chunks, and the client.
module WireServer {
  import opened Wrappers
  import opened Diffs
  import opened WireProtocol

  function Flatten(chunks: seq<Bytes>): Bytes {
    if chunks == [] then [] else chunks[0] + Flatten(chunks[1..])
  }

  class BufferedSocket {
    var buffer: Bytes
    var incoming: seq<Bytes>
    var sent: Bytes

    // What is still to be read, however it is split.
    ghost function Stream(): Bytes
      reads this
    {
      buffer + Flatten(incoming)
    }

    // An empty chunk would mean that the connection is closed.
    ghost predicate Valid()
      reads this
    {
      forall i :: 0 <= i < |incoming| ==> incoming[i] != []
    }

    constructor (chunks: seq<Bytes>)
      requires forall i :: 0 <= i < |chunks| ==> chunks[i] != []
      ensures Valid() && Stream() == Flatten(chunks) && sent == []
    {
      buffer, incoming, sent := [], chunks, [];
    }

    // The next chunk, or nothing once the connection is closed.
    method Recv() returns (data: Bytes)
      requires Valid()
      modifies this`incoming
      ensures Valid() && data + Flatten(incoming) == old(Flatten(incoming))
      ensures data == [] <==> old(incoming) == []
      ensures data != [] ==> |incoming| < |old(incoming)|
    {
      if incoming == [] {
        return [];
      }
      data := incoming[0];
      incoming := incoming[1..];
    }

    // The next numBytes of the stream, whatever the chunks; nothing when the
    // connection closes before.
    method ReadExactly(numBytes: nat) returns (payload: Option<Bytes>)
      requires Valid()
      modifies this`buffer, this`incoming
      ensures Valid()
      ensures match Take(old(Stream()), numBytes)
              case Some(split) => payload == Some(split.0) && Stream() == split.1
              case None => payload == None && Stream() == old(Stream())
    {
      while |buffer| < numBytes
        invariant Valid() && Stream() == old(Stream())
        decreases |incoming|
      {
        ghost var before := incoming;
        var data := Recv();
        if data == [] {
          return None;
        }
        assert buffer + (data + Flatten(incoming)) == (buffer + data) + Flatten(incoming);
        buffer := buffer + data;
      }
      assert Stream()[..numBytes] == buffer[..numBytes];
      assert Stream()[numBytes..] == buffer[numBytes..] + Flatten(incoming);
      payload := Some(buffer[..numBytes]);
      buffer := buffer[numBytes..];
    }

    method SendAll(data: Bytes)
      modifies this`sent
      ensures sent == old(sent) + data
    {
      sent := sent + data;
    }
  }

  //
  // What serving a stream comes to
  //

  // Every value fits the four bytes of its size in a reply.
  ghost predicate AllFit(db: Store) {
    forall k :: k in db ==> |db[k]| < SIZE_CEILING
  }

  lemma {:induction false} PutAllFits(db: Store, sets: seq<(Bytes, Bytes)>)
    requires AllFit(db) && Fit(PairSizes(sets))
    ensures AllFit(PutAll(db, sets))
    decreases |sets|
  {
    if sets != [] {
      var sizes := PairSizes(sets);
      assert sizes[1] == |sets[0].1| && sizes[2..] == PairSizes(sets[1..]);
      assert forall i :: 0 <= i < |sizes[2..]| ==> sizes[2..][i] == sizes[i + 2];
      PutAllFits(db[sets[0].0 := sets[0].1], sets[1..]);
    }
  }

  lemma {:induction false} RemoveAllFits(db: Store, keys: seq<Bytes>)
    requires AllFit(db)
    ensures AllFit(RemoveAll(db, keys))
    decreases |keys|
  {
    if keys != [] {
      RemoveAllFits(db - {keys[0]}, keys[1..]);
    }
  }

  lemma EffectFits(db: Store, r: Request)
    requires AllFit(db) && Encodable(r)
    ensures AllFit(Effect(db, r)) && Answerable(db, r)
  {
    if r.Batch? {
      var sizes := PairSizes(r.sets) + KeySizes(r.deletes);
      assert forall i :: 0 <= i < |PairSizes(r.sets)| ==> PairSizes(r.sets)[i] == sizes[i];
      PutAllFits(db, r.sets);
      RemoveAllFits(PutAll(db, r.sets), r.deletes);
    }
  }

  datatype Served = Served(db: Store, replies: Bytes, end: End)

  datatype End = ConnectionClosed | BadOperation

  // Requests are taken off the stream and carried out until it ends, in the
  // middle of a request or not, or has an unknown operation byte.
  ghost function Serve(db: Store, s: Bytes): Served
    requires AllFit(db)
    decreases |s|
  {
    match ReadRequest(s)
    case Closed => Served(db, [], ConnectionClosed)
    case UnknownOperation => Served(db, [], BadOperation)
    case Parsed(r, rest) =>
      ParsedIsEncoded(s);
      EffectFits(db, r);
      var next := Serve(Effect(db, r), rest);
      Served(next.db, Reply(db, r) + next.replies, next.end)
  }

  ghost function EffectAll(db: Store, rs: seq<Request>): Store
    decreases |rs|
  {
    if rs == [] then db else EffectAll(Effect(db, rs[0]), rs[1..])
  }

  ghost function ReplyAll(db: Store, rs: seq<Request>): Bytes
    requires AllFit(db) && forall i :: 0 <= i < |rs| ==> Encodable(rs[i])
    decreases |rs|
  {
    if rs == [] then []
    else
      EffectFits(db, rs[0]);
      Reply(db, rs[0]) + ReplyAll(Effect(db, rs[0]), rs[1..])
  }

  // The server carries out exactly the requests that were sent, in order, and
  // answers each from the database as it then is.
  lemma {:induction false} ServesWhatWasSent(db: Store, rs: seq<Request>)
    requires AllFit(db) && forall i :: 0 <= i < |rs| ==> Encodable(rs[i])
    ensures Serve(db, EncodeAll(rs)) == Served(EffectAll(db, rs), ReplyAll(db, rs), ConnectionClosed)
    decreases |rs|
  {
    if rs != [] {
      RequestParses(rs[0], EncodeAll(rs[1..]));
      EffectFits(db, rs[0]);
      ServesWhatWasSent(Effect(db, rs[0]), rs[1..]);
    }
  }

  // What a request leaves a key at.
  function Held(before: Option<Bytes>, r: Request, key: Bytes): Option<Bytes> {
    match r
    case Set(k, value) => if k == key then Some(value) else before
    case Delete(k) => if k == key then None else before
    case Batch(sets, deletes) =>
      if key in deletes then None
      else if LastValue(sets, key).Some? then LastValue(sets, key) else before
    case _ => before
  }

  function HeldAfter(before: Option<Bytes>, rs: seq<Request>, key: Bytes): Option<Bytes> {
    if rs == [] then before else Held(HeldAfter(before, Front(rs), key), Last(rs), key)
  }

  lemma {:induction false} EffectAllLast(db: Store, rs: seq<Request>, r: Request)
    requires AllFit(db) && Encodable(r) && forall i :: 0 <= i < |rs| ==> Encodable(rs[i])
    ensures EffectAll(db, rs + [r]) == Effect(EffectAll(db, rs), r)
    ensures AllFit(EffectAll(db, rs)) && Answerable(EffectAll(db, rs), r)
    ensures ReplyAll(db, rs + [r]) == ReplyAll(db, rs) + Reply(EffectAll(db, rs), r)
    decreases |rs|
  {
    hide Reply, Effect, Answerable, AllFit, Encodable;
    if rs == [] {
      assert [] + [r] == [r] && [r][1..] == [];
      EffectFits(db, r);
      assert ReplyAll(Effect(db, r), []) == [];
    } else {
      EffectFits(db, rs[0]);
      EffectAllLast(Effect(db, rs[0]), rs[1..], r);
      assert (rs + [r])[0] == rs[0] && (rs + [r])[1..] == rs[1..] + [r];
    }
  }

  // At any moment of a session a get is answered with what the requests so far
  // have left the key at.
  lemma {:induction false} SessionReads(db: Store, rs: seq<Request>, key: Bytes)
    requires AllFit(db) && Encodable(Get(key)) && forall i :: 0 <= i < |rs| ==> Encodable(rs[i])
    ensures Answerable(db, Get(key)) && Answerable(EffectAll(db, rs), Get(key))
    ensures Fetch(EffectAll(db, rs), key) == HeldAfter(Fetch(db, key), rs, key)
    ensures ReplyAll(db, rs + [Get(key)]) == ReplyAll(db, rs) + Reply(EffectAll(db, rs), Get(key))
    decreases |rs|
  {
    EffectAllLast(db, rs, Get(key));
    EffectFits(db, Get(key));
    hide Fetch, Reply, Effect, AllFit, Encodable, EffectAll, ReplyAll, Answerable, Held;
    if rs == [] {
      NoEffect(db);
    } else {
      var before, r := EffectAll(db, Front(rs)), Last(rs);
      assert rs == Front(rs) + [r];
      SessionReads(db, Front(rs), key);
      EffectAllLast(db, Front(rs), r);
      FetchAfter(before, r, key);
    }
  }

  lemma NoEffect(db: Store)
    ensures EffectAll(db, []) == db
  {}

  lemma FetchAfter(db: Store, r: Request, key: Bytes)
    requires AllFit(db) && Encodable(r) && Encodable(Get(key))
    ensures Answerable(db, Get(key)) && Answerable(Effect(db, r), Get(key))
    ensures Fetch(Effect(db, r), key) == Held(Fetch(db, key), r, key)
  {
    EffectFits(db, r);
    EffectFits(db, Get(key));
    EffectFits(Effect(db, r), Get(key));
    hide Fetch, AllFit;
    match r
    case Set(k, value) => FetchAfterSet(db, k, value, key);
    case Delete(k) => FetchAfterDelete(db, k, key);
    case Batch(sets, deletes) => FetchAfterBatch(db, sets, deletes, key);
    case _ =>
  }

  // On the wire: the server, fed with the encoding of any requests and then of
  // a get, ends its answers with a reply that the client reads as that value.
  lemma ServesTheLastValue(db: Store, rs: seq<Request>, key: Bytes)
    requires AllFit(db) && Encodable(Get(key)) && forall i :: 0 <= i < |rs| ==> Encodable(rs[i])
    ensures Answerable(db, Get(key))
    ensures var sent, served := Serve(db, EncodeAll(rs)), Serve(db, EncodeAll(rs + [Get(key)]));
            && sent.replies <= served.replies
            && ReadGetReply(served.replies[|sent.replies|..]) == Parsed(HeldAfter(Fetch(db, key), rs, key), [])
  {
    SessionReads(db, rs, key);
    ServesWhatWasSent(db, rs);
    ServesWhatWasSent(db, rs + [Get(key)]);
    hide Fetch, ReadGetReply, Serve, EncodeAll, EffectAll, ReplyAll;
    var last := EffectAll(db, rs);
    var reply := Reply(last, Get(key));
    assert (ReplyAll(db, rs) + reply)[|ReplyAll(db, rs)|..] == reply;
    assert reply + [] == reply;
    GetAnswered(last, key, []);
    FetchIs(last, key);
  }

  //
  // The server
  //

  class DBManager {
    var db: Store
    const sock: BufferedSocket

    constructor (store: Store, socket: BufferedSocket)
      ensures db == store && sock == socket
    {
      db, sock := store, socket;
    }

    ghost predicate Valid()
      reads this, sock
    {
      sock.Valid() && AllFit(db)
    }

    // A handler that succeeds has carried out the request and answered it, and
    // stopped at its last byte; one that fails has done nothing.
    ghost predicate Handled(db0: Store, s: Bytes, sent0: Bytes, operation: Byte, ok: bool)
      reads this, sock
    {
      match ReadBody(operation, s)
      case Parsed(r, rest) =>
        ok && db == Effect(db0, r) && sock.Stream() == rest && Answerable(db0, r) && sock.sent == sent0 + Reply(db0, r)
      case _ => !ok && db == db0 && sock.sent == sent0
    }

    method ReadSizedKey() returns (key: Option<Bytes>)
      requires sock.Valid()
      modifies sock`buffer, sock`incoming
      ensures sock.Valid()
      ensures match ReadKey(old(sock.Stream()))
              case Parsed(k, rest) => key == Some(k) && sock.Stream() == rest
              case _ => key == None
    {
      hide UnpackSize, Take;
      var size := sock.ReadExactly(4);
      if size.None? {
        return None;
      }
      TakeFits(old(sock.Stream()), 4);
      TakeSplits(old(sock.Stream()), 4);
      key := sock.ReadExactly(UnpackSize(size.value));
    }

    method HandleGet() returns (ok: bool)
      requires Valid()
      modifies this, sock
      ensures sock.Valid() && Handled(old(db), old(sock.Stream()), old(sock.sent), GET, ok)
    {
      hide ReadKey, PackSize;
      var key := ReadSizedKey();
      if key.None? {
        return false;
      }
      if key.value in db {
        sock.SendAll([SUCCESS_BYTE] + PackSize(|db[key.value]|) + db[key.value]);
      } else {
        sock.SendAll([FAIL_BYTE]);
      }
      return true;
    }

    method HandleSet() returns (ok: bool)
      requires Valid()
      modifies this, sock
      ensures sock.Valid() && Handled(old(db), old(sock.Stream()), old(sock.sent), SET, ok)
    {
      hide UnpackSize, Take;
      ghost var s := sock.Stream();
      var sizes := sock.ReadExactly(8);
      if sizes.None? {
        return false;
      }
      TakeFits(s, 8);
      TakeSplits(s, 8);
      var keySize, valueSize := UnpackSize(sizes.value[..4]), UnpackSize(sizes.value[4..]);
      ghost var tail := sock.Stream();
      var data := sock.ReadExactly(keySize + valueSize);
      if data.None? {
        return false;
      }
      TakeFits(tail, keySize + valueSize);
      TakeSplits(tail, keySize + valueSize);
      db := db[data.value[..keySize] := data.value[keySize..]];
      sock.SendAll([SUCCESS_BYTE]);
      return true;
    }

    method HandleDelete() returns (ok: bool)
      requires Valid()
      modifies this, sock
      ensures sock.Valid() && Handled(old(db), old(sock.Stream()), old(sock.sent), DELETE, ok)
    {
      hide ReadKey;
      var key := ReadSizedKey();
      if key.None? {
        return false;
      }
      if key.value in db {
        db := db - {key.value};
        sock.SendAll([SUCCESS_BYTE]);
      } else {
        assert db - {key.value} == db;
        sock.SendAll([FAIL_BYTE]);
      }
      return true;
    }

    method HandleExists() returns (ok: bool)
      requires Valid()
      modifies this, sock
      ensures sock.Valid() && Handled(old(db), old(sock.Stream()), old(sock.sent), EXISTS, ok)
    {
      hide ReadKey;
      var key := ReadSizedKey();
      if key.None? {
        return false;
      }
      if key.value in db {
        sock.SendAll([SUCCESS_BYTE]);
      } else {
        sock.SendAll([FAIL_BYTE]);
      }
      return true;
    }

    // The pairs of a batch, read and written to it one after the other.
    method ReadBatchPairs(sizes: seq<nat>, store: Store) returns (batch: Option<Store>)
      requires sock.Valid() && |sizes| % 2 == 0
      modifies sock`buffer, sock`incoming
      ensures sock.Valid()
      ensures match ReadPairs(sizes, old(sock.Stream()))
              case Parsed(sets, rest) => batch == Some(PutAll(store, sets)) && sock.Stream() == rest
              case _ => batch == None
    {
      hide Take;
      var done := store;
      var i := 0;
      ghost var goal := ReadPairs(sizes, sock.Stream());
      assert sizes[0..] == sizes;
      while i < |sizes|
        invariant 0 <= i <= |sizes| && i % 2 == 0 && sock.Valid()
        invariant match ReadPairs(sizes[i..], sock.Stream())
                  case Parsed(sets, rest) =>
                    goal.Parsed? && PutAll(done, sets) == PutAll(store, goal.value) && rest == goal.rest
                  case _ => !goal.Parsed?
      {
        assert sizes[i..][0] == sizes[i] && sizes[i..][1] == sizes[i + 1] && sizes[i..][2..] == sizes[i + 2..];
        ghost var s := sock.Stream();
        var data := sock.ReadExactly(sizes[i] + sizes[i + 1]);
        if data.None? {
          return None;
        }
        TakeFits(s, sizes[i] + sizes[i + 1]);
        TakeSplits(s, sizes[i] + sizes[i + 1]);
        var key, value := data.value[..sizes[i]], data.value[sizes[i]..];
        ghost var later := ReadPairs(sizes[i + 2..], sock.Stream());
        assert later.Parsed? ==> ([(key, value)] + later.value)[1..] == later.value;
        done := done[key := value];
        i := i + 2;
      }
      assert sizes[|sizes|..] == [];
      return Some(done);
    }

    method ReadBatchKeys(sizes: seq<nat>, store: Store) returns (batch: Option<Store>)
      requires sock.Valid()
      modifies sock`buffer, sock`incoming
      ensures sock.Valid()
      ensures match ReadKeys(sizes, old(sock.Stream()))
              case Parsed(keys, rest) => batch == Some(RemoveAll(store, keys)) && sock.Stream() == rest
              case _ => batch == None
    {
      hide Take;
      var done := store;
      ghost var goal := ReadKeys(sizes, sock.Stream());
      assert sizes[0..] == sizes;
      for i := 0 to |sizes|
        invariant sock.Valid()
        invariant match ReadKeys(sizes[i..], sock.Stream())
                  case Parsed(keys, rest) =>
                    goal.Parsed? && RemoveAll(done, keys) == RemoveAll(store, goal.value) && rest == goal.rest
                  case _ => !goal.Parsed?
      {
        assert sizes[i..][0] == sizes[i] && sizes[i..][1..] == sizes[i + 1..];
        var key := sock.ReadExactly(sizes[i]);
        if key.None? {
          return None;
        }
        ghost var later := ReadKeys(sizes[i + 1..], sock.Stream());
        assert later.Parsed? ==> ([key.value] + later.value)[1..] == later.value;
        done := done - {key.value};
      }
      assert sizes[|sizes|..] == [];
      return Some(done);
    }

    // The batch becomes the database only once all of it has been read.
    method HandleAtomicBatch() returns (ok: bool)
      requires Valid()
      modifies this, sock
      ensures sock.Valid() && Handled(old(db), old(sock.Stream()), old(sock.sent), ATOMIC_BATCH, ok)
    {
      hide UnpackSize, UnpackSizes, Take, ReadPairs, ReadKeys, PutAll, RemoveAll;
      ghost var s := sock.Stream();
      var counts := sock.ReadExactly(8);
      if counts.None? {
        return false;
      }
      TakeFits(s, 8);
      TakeSplits(s, 8);
      var pairs, deletes := UnpackSize(counts.value[..4]), UnpackSize(counts.value[4..]);
      if pairs > 0 || deletes > 0 {
        ghost var tail := sock.Stream();
        var packed := sock.ReadExactly(8 * pairs + 4 * deletes);
        if packed.None? {
          return false;
        }
        TakeFits(tail, 8 * pairs + 4 * deletes);
        TakeSplits(tail, 8 * pairs + 4 * deletes);
        var sizes := UnpackSizes(packed.value);
        var batch := ReadBatchPairs(sizes[..2 * pairs], db);
        if batch.None? {
          return false;
        }
        batch := ReadBatchKeys(sizes[2 * pairs..], batch.value);
        if batch.None? {
          return false;
        }
        db := batch.value;
      } else {
        EmptyBatch(s, db);
      }
      sock.SendAll([SUCCESS_BYTE]);
      return true;
    }

    // One round: the operation byte, then its handler.
    method ServeOne() returns (end: Option<End>)
      requires Valid()
      modifies this, sock
      ensures Valid()
      ensures match ReadRequest(old(sock.Stream()))
              case Parsed(r, rest) =>
                && end == None && db == Effect(old(db), r) && sock.Stream() == rest
                && Answerable(old(db), r) && sock.sent == old(sock.sent) + Reply(old(db), r)
              case Closed => end == Some(ConnectionClosed) && db == old(db) && sock.sent == old(sock.sent)
              case UnknownOperation => end == Some(BadOperation) && db == old(db) && sock.sent == old(sock.sent)
    {
      hide ReadBody, Take, Encode, Reply, Effect;
      ghost var s := sock.Stream();
      var operation := sock.ReadExactly(1);
      OperationRead(s);
      if operation.None? {
        return Some(ConnectionClosed);
      }
      var byte := operation.value[0];
      if byte > ATOMIC_BATCH {
        NotAnOperation(byte, s[1..]);
        return Some(BadOperation);
      }
      IsAnOperation(byte, s[1..]);
      var ok;
      if byte == GET {
        ok := HandleGet();
      } else if byte == SET {
        ok := HandleSet();
      } else if byte == DELETE {
        ok := HandleDelete();
      } else if byte == EXISTS {
        ok := HandleExists();
      } else {
        ok := HandleAtomicBatch();
      }
      if !ok {
        return Some(ConnectionClosed);
      }
      ParsedIsEncoded(s);
      EffectFits(old(db), ReadRequest(s).value);
      return None;
    }

    // Requests are served until the stream ends.
    method ServeConn() returns (end: End)
      requires Valid()
      modifies this, sock
      ensures var expected := Serve(old(db), old(sock.Stream()));
              db == expected.db && sock.sent == old(sock.sent) + expected.replies && end == expected.end
    {
      hide Serve, ReadRequest, Encode, Reply, Effect;
      ghost var goal := Serve(db, sock.Stream());
      ghost var answered: Bytes := [];
      var ended: Option<End> := None;
      while ended == None
        invariant sock.sent == old(sock.sent) + answered && (ended == None ==> Valid())
        invariant if ended.Some? then goal == Served(db, answered, ended.value)
                  else
                    var later := Serve(db, sock.Stream());
                    goal == Served(later.db, answered + later.replies, later.end)
        decreases if ended.Some? then 0 else |sock.Stream()| + 1
      {
        ghost var s := sock.Stream();
        ghost var db0 := db;
        ServeUnfolds(db, s);
        ended := ServeOne();
        if ended == None {
          ghost var r := ReadRequest(s).value;
          ghost var later := Serve(db, sock.Stream());
          assert answered + (Reply(db0, r) + later.replies) == answered + Reply(db0, r) + later.replies;
          answered := answered + Reply(db0, r);
        } else {
          assert answered + [] == answered;
        }
      }
      return ended.value;
    }
  }

  lemma ServeUnfolds(db: Store, s: Bytes)
    requires AllFit(db)
    ensures ReadRequest(s) == Closed ==> Serve(db, s) == Served(db, [], ConnectionClosed)
    ensures ReadRequest(s) == UnknownOperation ==> Serve(db, s) == Served(db, [], BadOperation)
    ensures ReadRequest(s).Parsed? ==>
              && |ReadRequest(s).rest| < |s| && Encodable(ReadRequest(s).value)
              && Answerable(db, ReadRequest(s).value) && AllFit(Effect(db, ReadRequest(s).value))
              && Serve(db, s) == Carried(Reply(db, ReadRequest(s).value),
                                         Serve(Effect(db, ReadRequest(s).value), ReadRequest(s).rest))
  {
    hide ReadRequest, Effect;
    if ReadRequest(s).Parsed? {
      ParsedIsEncoded(s);
      EffectFits(db, ReadRequest(s).value);
    }
  }

  // One reply more, before those still to come.
  function Carried(reply: Bytes, next: Served): Served {
    next.(replies := reply + next.replies)
  }

  lemma EmptyBatch(s: Bytes, db: Store)
    requires |s| >= 8 && UnpackSize(s[..8][..4]) == 0 && UnpackSize(s[..8][4..]) == 0
    ensures ReadBody(ATOMIC_BATCH, s) == Parsed(Batch([], []), s[8..]) && Effect(db, Batch([], [])) == db
  {
    assert Take(s[8..], 0) == Some(([], s[8..])) by {
      assert s[8..][0..] == s[8..];
    }
    assert UnpackSizes([]) == [];
  }

  lemma OperationRead(s: Bytes)
    ensures Take(s, 1) == if s == [] then None else Some(([s[0]], s[1..]))
  {
    if s != [] {
      assert s[..1] == [s[0]];
    }
  }

  lemma NotAnOperation(byte: Byte, s: Bytes)
    requires byte > ATOMIC_BATCH
    ensures ReadBody(byte, s) == UnknownOperation
  {}

  lemma IsAnOperation(byte: Byte, s: Bytes)
    requires byte <= ATOMIC_BATCH
    ensures ReadBody(byte, s) != UnknownOperation
  {}

  //
  // The client
  //

  class DBClient {
    const sock: BufferedSocket

    constructor (socket: BufferedSocket)
      ensures sock == socket
    {
      sock := socket;
    }

    // What is returned is what the reply that comes next says.
    method GetItem(key: Bytes) returns (r: Fetched)
      requires sock.Valid() && Encodable(Get(key))
      modifies sock
      ensures sock.Valid() && sock.sent == old(sock.sent) + Encode(Get(key))
      ensures match ReadGetReply(old(sock.Stream()))
              case Parsed(Some(v), rest) => r == Found(v) && sock.Stream() == rest
              case Parsed(None, rest) => r == NoSuchKey && sock.Stream() == rest
              case _ => r == NoReply
    {
      hide UnpackSize, Take;
      sock.SendAll([GET] + PackSize(|key|) + key);
      ghost var s := sock.Stream();
      var flag := sock.ReadExactly(1);
      OperationRead(s);
      if flag.None? {
        return NoReply;
      }
      if flag.value[0] == SUCCESS_BYTE {
        ghost var tail := sock.Stream();
        var size := sock.ReadExactly(4);
        if size.None? {
          return NoReply;
        }
        TakeFits(tail, 4);
        TakeSplits(tail, 4);
        var data := sock.ReadExactly(UnpackSize(size.value));
        return if data.Some? then Found(data.value) else NoReply;
      }
      return if flag.value[0] == FAIL_BYTE then NoSuchKey else NoReply;
    }

    // The one-byte replies to the other requests.
    method Send(r: Request) returns (flag: Option<Byte>)
      requires sock.Valid() && Encodable(r)
      modifies sock
      ensures sock.Valid() && sock.sent == old(sock.sent) + Encode(r)
      ensures if old(sock.Stream()) == [] then flag == None
              else flag == Some(old(sock.Stream())[0]) && sock.Stream() == old(sock.Stream())[1..]
    {
      sock.SendAll(Encode(r));
      ghost var s := sock.Stream();
      var byte := sock.ReadExactly(1);
      OperationRead(s);
      return if byte.Some? then Some(byte.value[0]) else None;
    }

    // __setitem__: any reply byte but 0 and 1 is an error.
    method SetItem(key: Bytes, value: Bytes) returns (ok: bool)
      requires sock.Valid() && Encodable(Set(key, value))
      modifies sock
      ensures sock.Valid() && sock.sent == old(sock.sent) + Encode(Set(key, value))
      ensures ok <==> ReadFlag(old(sock.Stream())).Some?
    {
      var flag := Send(Set(key, value));
      return flag.Some? && flag.value <= 1;
    }

    // __delitem__ and _exists: whether the key was there, or no answer.
    method DelItem(key: Bytes) returns (found: Option<bool>)
      requires sock.Valid() && Encodable(Delete(key))
      modifies sock
      ensures sock.Valid() && sock.sent == old(sock.sent) + Encode(Delete(key))
      ensures found == ReadFlag(old(sock.Stream()))
    {
      var flag := Send(Delete(key));
      return if flag.None? || flag.value > 1 then None else Some(flag.value == SUCCESS_BYTE);
    }

    method Exists(key: Bytes) returns (found: Option<bool>)
      requires sock.Valid() && Encodable(Request.Exists(key))
      modifies sock
      ensures sock.Valid() && sock.sent == old(sock.sent) + Encode(Request.Exists(key))
      ensures found == ReadFlag(old(sock.Stream()))
    {
      var flag := Send(Request.Exists(key));
      return if flag.None? || flag.value > 1 then None else Some(flag.value == SUCCESS_BYTE);
    }

    // A batch goes out as one request made of its diff, with the keys it set
    // before the keys it deleted.
    method CommitBatch(batch: AtomicBatch) returns (flag: Option<Byte>)
      requires sock.Valid() && batch.Valid() && Encodable(Batch(Sets(batch.changes), Deletes(batch.changes)))
      modifies sock
      ensures sock.Valid() && sock.sent == old(sock.sent) + Encode(Batch(Sets(batch.changes), Deletes(batch.changes)))
      ensures flag == if old(sock.Stream()) == [] then None else Some(old(sock.Stream())[0])
      ensures Effect(batch.target, Batch(Sets(batch.changes), Deletes(batch.changes))) == batch.View()
    {
      BatchHasEffectOfDiff(batch.target, batch.changes);
      flag := Send(Batch(Sets(batch.changes), Deletes(batch.changes)));
    }
  }

  datatype Fetched = Found(value: Bytes) | NoSuchKey | NoReply
}
