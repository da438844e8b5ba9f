/**
 The reencryption of a realm: every version of every vlob starts in "todo", saved batches move
 versions to "done", and the new vlobs are built once nothing is left to do.
 */
module ReencryptionModel {
  import opened Common
  import opened Certificates

  type RealmId = nat
  type VlobId = nat

  datatype Atom = Atom(blob: Bytes, author: DeviceId, timestamp: Timestamp)

  datatype Vlob = Vlob(realmId: RealmId, data: seq<Atom>)

  /** One version of one vlob; versions count from 1. */
  datatype Key = Key(vlobId: VlobId, version: int)

  datatype Entry = Entry(key: Key, blob: Bytes)

  type Vlobs = map<VlobId, Vlob>

  /** `todo` is a dictionary in insertion order. */
  datatype State = State(realmId: RealmId, original: Vlobs, todo: seq<Entry>, done: map<Key, Bytes>, total: nat)

  ghost predicate IsKeyOf(vlobs: Vlobs, key: Key) {
    key.vlobId in vlobs && 1 <= key.version <= |vlobs[key.vlobId].data|
  }

  function BlobOf(vlobs: Vlobs, key: Key): Bytes
    requires IsKeyOf(vlobs, key)
  {
    vlobs[key.vlobId].data[key.version - 1].blob
  }

  predicate HasKey(entries: seq<Entry>, key: Key) {
    exists i :: 0 <= i < |entries| && entries[i].key == key
  }

  ghost predicate DistinctKeys(entries: seq<Entry>) {
    forall i, j :: 0 <= i < j < |entries| ==> entries[i].key != entries[j].key
  }

  /** Todo and done split the versions of the original vlobs, todo with the original blobs. */
  ghost predicate Partition(s: State) {
    && DistinctKeys(s.todo)
    && (forall i :: 0 <= i < |s.todo| ==>
          && IsKeyOf(s.original, s.todo[i].key) && s.todo[i].key !in s.done
          && s.todo[i].blob == BlobOf(s.original, s.todo[i].key))
    && (forall k :: k in s.done ==> IsKeyOf(s.original, k))
    && (forall k :: IsKeyOf(s.original, k) ==> k in s.done || HasKey(s.todo, k))
    && |s.todo| + |s.done| == s.total
  }

  // ---------- the operations ----------

  function Without(entries: seq<Entry>, key: Key): (r: seq<Entry>)
    ensures |r| <= |entries|
  {
    if entries == [] then []
    else if entries[0].key == key then entries[1..]
    else [entries[0]] + Without(entries[1..], key)
  }

  /** Python's `batch[:size]`, which counts from the end when `size` is negative. */
  function FirstEntries(entries: seq<Entry>, size: int): seq<Entry> {
    if size >= |entries| then entries
    else if size >= 0 then entries[..size]
    else if size + |entries| > 0 then entries[..size + |entries|]
    else []
  }

  function Pending(s: State, entries: seq<Entry>): seq<Entry> {
    if entries == [] then []
    else if entries[0].key in s.done then Pending(s, entries[1..])
    else [entries[0]] + Pending(s, entries[1..])
  }

  function GetBatch(s: State, size: int): seq<Entry> {
    FirstEntries(Pending(s, s.todo), size)
  }

  /** Move one version to done, unless it is there already; fail on an unknown one. */
  function SaveOne(s: State, entry: Entry): Option<State> {
    if entry.key in s.done then Some(s)
    else if HasKey(s.todo, entry.key) then
      Some(s.(todo := Without(s.todo, entry.key), done := s.done[entry.key := entry.blob]))
    else None
  }

  /** The state a batch leads to, and whether it went through; a failure keeps what came before it. */
  function SaveBatch(s: State, batch: seq<Entry>): (State, bool)
    decreases |batch|
  {
    if batch == [] then (s, true)
    else match SaveOne(s, batch[0])
      case None => (s, false)
      case Some(next) => SaveBatch(next, batch[1..])
  }

  predicate IsFinished(s: State) { s.todo == [] }

  /** The vlobs with their new blobs; authors and timestamps are those of the original versions. */
  ghost function Reencrypted(s: State): Vlobs
    requires Partition(s) && IsFinished(s)
  {
    map id | id in s.original :: Vlob(s.realmId, NewData(s, id, |s.original[id].data|))
  }

  ghost function NewData(s: State, id: VlobId, n: nat): (r: seq<Atom>)
    requires Partition(s) && IsFinished(s) && id in s.original && n <= |s.original[id].data|
    ensures |r| == n && forall i :: 0 <= i < n ==>
      r[i] == s.original[id].data[i].(blob := s.done[Key(id, i + 1)])
  {
    assert forall v :: 1 <= v <= n ==> IsKeyOf(s.original, Key(id, v));
    seq(n, i requires 0 <= i < n => s.original[id].data[i].(blob := s.done[Key(id, i + 1)]))
  }

  // ---------- what saving keeps ----------

  lemma {:induction false} WithoutIs(entries: seq<Entry>, key: Key, i: nat)
    requires DistinctKeys(entries) && i < |entries| && entries[i].key == key
    ensures Without(entries, key) == entries[..i] + entries[i + 1..]
  {
    if i == 0 {
      assert entries[..0] + entries[1..] == entries[1..];
    } else {
      WithoutIs(entries[1..], key, i - 1);
      assert entries[..i] == [entries[0]] + entries[1..][..i - 1];
      assert entries[1..][i..] == entries[i + 1..];
    }
  }

  lemma WithoutRemoves(entries: seq<Entry>, key: Key)
    requires DistinctKeys(entries) && HasKey(entries, key)
    ensures var r := Without(entries, key);
      && |r| == |entries| - 1 && DistinctKeys(r)
      && (forall j :: 0 <= j < |r| ==> r[j] in entries && r[j].key != key)
      && (forall k :: k != key && HasKey(entries, k) ==> HasKey(r, k))
  {
    var i :| 0 <= i < |entries| && entries[i].key == key;
    WithoutRemovesAt(entries, key, i);
    RemovingKeeps(entries, i, Without(entries, key));
  }

  lemma WithoutRemovesAt(entries: seq<Entry>, key: Key, i: nat)
    requires DistinctKeys(entries) && i < |entries| && entries[i].key == key
    ensures RemovedAt(entries, i, Without(entries, key))
  {
    WithoutIs(entries, key, i);
  }

  ghost predicate RemovedAt(entries: seq<Entry>, i: nat, r: seq<Entry>)
    requires i < |entries|
  {
    && |r| == |entries| - 1
    && (forall j :: 0 <= j < i ==> r[j] == entries[j])
    && (forall j :: i <= j < |r| ==> r[j] == entries[j + 1])
  }

  lemma RemovingKeeps(entries: seq<Entry>, i: nat, r: seq<Entry>)
    requires DistinctKeys(entries) && i < |entries| && RemovedAt(entries, i, r)
    ensures DistinctKeys(r)
    ensures forall j :: 0 <= j < |r| ==> r[j] in entries && r[j].key != entries[i].key
    ensures forall k :: k != entries[i].key && HasKey(entries, k) ==> HasKey(r, k)
  {
    forall k | k != entries[i].key && HasKey(entries, k) ensures HasKey(r, k) {
      RemovingKeepsKey(entries, i, r, k);
    }
  }

  lemma RemovingKeepsKey(entries: seq<Entry>, i: nat, r: seq<Entry>, k: Key)
    requires i < |entries| && RemovedAt(entries, i, r) && k != entries[i].key && HasKey(entries, k)
    ensures HasKey(r, k)
  {
    var j :| 0 <= j < |entries| && entries[j].key == k;
    assert r[if j < i then j else j - 1] == entries[j];
  }

  lemma SaveOneKeepsPartition(s: State, entry: Entry)
    requires Partition(s)
    ensures SaveOne(s, entry).Some? <==> IsKeyOf(s.original, entry.key)
    ensures SaveOne(s, entry).Some? ==>
      var n := SaveOne(s, entry).value;
      && Partition(n) && n.original == s.original && n.realmId == s.realmId && n.total == s.total
      && n.done == (if entry.key in s.done then s.done else s.done[entry.key := entry.blob])
  {
    if entry.key !in s.done && HasKey(s.todo, entry.key) {
      WithoutRemoves(s.todo, entry.key);
      var n := SaveOne(s, entry).value;
      assert |n.done| == |s.done| + 1;
      forall i | 0 <= i < |n.todo|
        ensures IsKeyOf(n.original, n.todo[i].key) && n.todo[i].key !in n.done &&
          n.todo[i].blob == BlobOf(n.original, n.todo[i].key)
      {
        assert n.todo[i] in s.todo;
      }
    }
  }

  /** What is done once these entries are saved: the first blob given for a version stays. */
  function DoneAfter(done: map<Key, Bytes>, batch: seq<Entry>): map<Key, Bytes>
    decreases |batch|
  {
    if batch == [] then done
    else DoneAfter(if batch[0].key in done then done else done[batch[0].key := batch[0].blob], batch[1..])
  }

  ghost predicate AllKnown(vlobs: Vlobs, batch: seq<Entry>) {
    forall i :: 0 <= i < |batch| ==> IsKeyOf(vlobs, batch[i].key)
  }

  /** Saving fails exactly on an unknown version, and keeps the partition in any case. */
  lemma {:induction false} SaveKeepsPartition(s: State, batch: seq<Entry>)
    requires Partition(s)
    ensures var (n, ok) := SaveBatch(s, batch);
      && Partition(n) && n.original == s.original && n.realmId == s.realmId && n.total == s.total
      && (ok <==> AllKnown(s.original, batch))
      && (ok ==> n.done == DoneAfter(s.done, batch))
      && (forall k :: k in s.done ==> k in n.done && n.done[k] == s.done[k])
    decreases |batch|
  {
    if batch != [] {
      SaveOneKeepsPartition(s, batch[0]);
      AllKnownFirst(s.original, batch);
      if SaveOne(s, batch[0]).Some? {
        SaveKeepsPartition(SaveOne(s, batch[0]).value, batch[1..]);
      }
    }
  }

  lemma AllKnownFirst(vlobs: Vlobs, batch: seq<Entry>)
    requires batch != []
    ensures AllKnown(vlobs, batch) <==> IsKeyOf(vlobs, batch[0].key) && AllKnown(vlobs, batch[1..])
  {
    assert forall i :: 0 < i < |batch| ==> batch[i] == batch[1..][i - 1];
  }

  /** A failed batch has saved exactly the entries that come before its first unknown version. */
  lemma {:induction false} FailedSaveKeepsPrefix(s: State, batch: seq<Entry>, i: nat)
    requires Partition(s) && i < |batch| && AllKnown(s.original, batch[..i]) && !IsKeyOf(s.original, batch[i].key)
    ensures SaveBatch(s, batch) == (SaveBatch(s, batch[..i]).0, false)
    decreases |batch|
  {
    SaveOneKeepsPartition(s, batch[0]);
    if i > 0 {
      assert batch[..i][0] == batch[0];
      assert batch[..i][1..] == batch[1..][..i - 1];
      FailedSaveKeepsPrefix(SaveOne(s, batch[0]).value, batch[1..], i - 1);
    }
  }

  lemma {:induction false} DoneAfterGivesFirst(done: map<Key, Bytes>, batch: seq<Entry>, i: nat)
    requires i < |batch| && batch[i].key !in done
    requires forall j :: 0 <= j < i ==> batch[j].key != batch[i].key
    ensures batch[i].key in DoneAfter(done, batch) && DoneAfter(done, batch)[batch[i].key] == batch[i].blob
    decreases |batch|
  {
    if i > 0 {
      DoneAfterGivesFirst(if batch[0].key in done then done else done[batch[0].key := batch[0].blob], batch[1..],
        i - 1);
    } else {
      DoneAfterKeeps(done[batch[0].key := batch[0].blob], batch[1..], batch[0].key);
    }
  }

  lemma {:induction false} DoneAfterKeeps(done: map<Key, Bytes>, batch: seq<Entry>, k: Key)
    requires k in done
    ensures k in DoneAfter(done, batch) && DoneAfter(done, batch)[k] == done[k]
    decreases |batch|
  {
    if batch != [] {
      DoneAfterKeeps(if batch[0].key in done then done else done[batch[0].key := batch[0].blob], batch[1..], k);
    }
  }

  // ---------- a client that saves what it gets ----------

  lemma {:induction false} NothingPendingIsDone(s: State, entries: seq<Entry>)
    requires forall i :: 0 <= i < |entries| ==> entries[i].key !in s.done
    ensures Pending(s, entries) == entries
  {
    if entries != [] {
      NothingPendingIsDone(s, entries[1..]);
    }
  }

  /** A batch is the next `size` entries to do. */
  lemma BatchIsFirstTodo(s: State, size: nat)
    requires Partition(s)
    ensures GetBatch(s, size) == s.todo[..if size <= |s.todo| then size else |s.todo|]
  {
    NothingPendingIsDone(s, s.todo);
  }

  /** The reencrypted batch: the same versions, each with its new blob. */
  function Answer(batch: seq<Entry>, reencrypt: Entry -> Bytes): (r: seq<Entry>)
    ensures |r| == |batch| && forall i :: 0 <= i < |r| ==> r[i] == Entry(batch[i].key, reencrypt(batch[i]))
  {
    seq(|batch|, i requires 0 <= i < |batch| => Entry(batch[i].key, reencrypt(batch[i])))
  }

  /** Saving the first entry to do leaves the others. */
  lemma SavingNextTodo(s: State, blob: Bytes)
    requires Partition(s) && s.todo != []
    ensures var next := SaveOne(s, Entry(s.todo[0].key, blob));
      next.Some? && Partition(next.value) && next.value.todo == s.todo[1..]
  {
    var first := Entry(s.todo[0].key, blob);
    assert HasKey(s.todo, first.key);
    SaveOneKeepsPartition(s, first);
    WithoutIs(s.todo, first.key, 0);
    assert s.todo[..0] + s.todo[1..] == s.todo[1..];
  }

  lemma {:induction false} SavingFirstTodo(s: State, n: nat, reencrypt: Entry -> Bytes)
    requires Partition(s) && n <= |s.todo|
    ensures var (r, ok) := SaveBatch(s, Answer(s.todo[..n], reencrypt));
      ok && r.todo == s.todo[n..]
    decreases n
  {
    if n > 0 {
      var batch := Answer(s.todo[..n], reencrypt);
      SavingNextTodo(s, batch[0].blob);
      var next := SaveOne(s, batch[0]).value;
      assert batch[1..] == Answer(next.todo[..n - 1], reencrypt);
      SavingFirstTodo(next, n - 1, reencrypt);
    }
  }

  /** One get/save round of a client that asks for `size` entries and saves them all. */
  function ClientRound(s: State, size: nat, reencrypt: Entry -> Bytes): State {
    SaveBatch(s, Answer(GetBatch(s, size), reencrypt)).0
  }

  function ClientRounds(s: State, size: nat, reencrypt: Entry -> Bytes, n: nat): State {
    if n == 0 then s else ClientRound(ClientRounds(s, size, reencrypt, n - 1), size, reencrypt)
  }

  lemma RoundMakesProgress(s: State, size: nat, reencrypt: Entry -> Bytes)
    requires Partition(s)
    ensures var r := ClientRound(s, size, reencrypt);
      && Partition(r) && r.original == s.original && r.total == s.total
      && |r.todo| == if size <= |s.todo| then |s.todo| - size else 0
  {
    BatchIsFirstTodo(s, size);
    SavingFirstTodo(s, if size <= |s.todo| then size else |s.todo|, reencrypt);
    SaveKeepsPartition(s, Answer(GetBatch(s, size), reencrypt));
  }

  /** What is left of `count` after taking `size` away `n` times. */
  function LeftAfter(count: nat, size: nat, n: nat): nat {
    if n == 0 then count
    else
      var left := LeftAfter(count, size, n - 1);
      if size <= left then left - size else 0
  }

  lemma {:induction false} LeftAfterIs(count: nat, size: nat, n: nat)
    ensures LeftAfter(count, size, n) == if n * size <= count then count - n * size else 0
  {
    if n > 0 {
      LeftAfterIs(count, size, n - 1);
      assert n * size == (n - 1) * size + size;
    }
  }

  ghost predicate Progressed(s: State, r: State, left: nat) {
    Partition(r) && r.original == s.original && r.total == s.total && |r.todo| == left
  }

  lemma OneMoreRound(s: State, r: State, size: nat, reencrypt: Entry -> Bytes, left: nat)
    requires Progressed(s, r, left)
    ensures Progressed(s, ClientRound(r, size, reencrypt), if size <= left then left - size else 0)
  {
    RoundMakesProgress(r, size, reencrypt);
  }

  lemma {:induction false} RoundsLeave(s: State, size: nat, reencrypt: Entry -> Bytes, n: nat)
    requires Partition(s)
    ensures Progressed(s, ClientRounds(s, size, reencrypt, n), LeftAfter(|s.todo|, size, n))
  {
    if n > 0 {
      RoundsLeave(s, size, reencrypt, n - 1);
      OneMoreRound(s, ClientRounds(s, size, reencrypt, n - 1), size, reencrypt, LeftAfter(|s.todo|, size, n - 1));
    }
  }

  /** Each round does `size` versions, or all that is left. */
  lemma RoundsMakeProgress(s: State, size: nat, reencrypt: Entry -> Bytes, n: nat)
    requires Partition(s)
    ensures var r := ClientRounds(s, size, reencrypt, n);
      && Partition(r) && r.original == s.original && r.total == s.total
      && |r.todo| == if n * size <= |s.todo| then |s.todo| - n * size else 0
  {
    RoundsLeave(s, size, reencrypt, n);
    LeftAfterIs(|s.todo|, size, n);
  }

  function CeilDiv(a: nat, b: nat): nat
    requires b > 0
  {
    (a + b - 1) / b
  }

  /** From the start, the client is finished after ceil(total / size) rounds and not before. */
  lemma FinishedInCeilRounds(s: State, size: nat, reencrypt: Entry -> Bytes, n: nat)
    requires Partition(s) && size > 0 && s.done == map[]
    ensures IsFinished(ClientRounds(s, size, reencrypt, n)) <==> n >= CeilDiv(s.total, size)
  {
    RoundsMakeProgress(s, size, reencrypt, n);
    CeilDivIsLeast(s.total, size, n);
  }

  lemma CeilDivIsLeast(a: nat, b: nat, n: nat)
    requires b > 0
    ensures n * b >= a <==> n >= CeilDiv(a, b)
  {
    var q := CeilDiv(a, b);
    var r := (a + b - 1) % b;
    assert a + b - 1 == b * q + r && 0 <= r < b;
    if n >= q {
      assert n * b >= q * b;
    } else {
      assert n * b <= (q - 1) * b;
    }
  }

  // ---------- any interleaving of requests ----------

  datatype Request = Get(size: int) | Save(batch: seq<Entry>)

  function Serve(s: State, requests: seq<Request>): State
    decreases |requests|
  {
    if requests == [] then s
    else Serve(match requests[0] case Get(_) => s case Save(batch) => SaveBatch(s, batch).0, requests[1..])
  }

  /** Whatever is asked and saved, in any order, todo and done split the versions and nothing done is lost. */
  lemma {:induction false} AnyRequestsKeepPartition(s: State, requests: seq<Request>)
    requires Partition(s)
    ensures var r := Serve(s, requests);
      && Partition(r) && r.original == s.original && r.realmId == s.realmId && r.total == s.total
      && forall k :: k in s.done ==> k in r.done && r.done[k] == s.done[k]
    decreases |requests|
  {
    if requests != [] {
      if requests[0].Save? {
        SaveKeepsPartition(s, requests[0].batch);
      }
      AnyRequestsKeepPartition(match requests[0] case Get(_) => s case Save(batch) => SaveBatch(s, batch).0,
        requests[1..]);
    }
  }

  // ---------- the first blob saved for a version, over any requests ----------

  /** What a batch saves: the entries before its first unknown version. */
  ghost function Known(vlobs: Vlobs, batch: seq<Entry>): seq<Entry>
    decreases |batch|
  {
    if batch == [] || !IsKeyOf(vlobs, batch[0].key) then [] else [batch[0]] + Known(vlobs, batch[1..])
  }

  /** What a sequence of requests saves, in order. */
  ghost function Saved(vlobs: Vlobs, requests: seq<Request>): seq<Entry>
    decreases |requests|
  {
    if requests == [] then []
    else (if requests[0].Save? then Known(vlobs, requests[0].batch) else []) + Saved(vlobs, requests[1..])
  }

  lemma {:induction false} BatchSavesKnown(s: State, batch: seq<Entry>)
    requires Partition(s)
    ensures SaveBatch(s, batch).0.done == DoneAfter(s.done, Known(s.original, batch))
    decreases |batch|
  {
    if batch != [] {
      SaveOneKeepsPartition(s, batch[0]);
      if SaveOne(s, batch[0]).Some? {
        BatchSavesKnown(SaveOne(s, batch[0]).value, batch[1..]);
        var known := Known(s.original, batch);
        assert known[0] == batch[0] && known[1..] == Known(s.original, batch[1..]);
      }
    }
  }

  lemma {:induction false} DoneAfterAppend(done: map<Key, Bytes>, a: seq<Entry>, b: seq<Entry>)
    ensures DoneAfter(done, a + b) == DoneAfter(DoneAfter(done, a), b)
    decreases |a|
  {
    if a == [] {
      assert a + b == b;
    } else {
      assert (a + b)[0] == a[0] && (a + b)[1..] == a[1..] + b;
      DoneAfterAppend(if a[0].key in done then done else done[a[0].key := a[0].blob], a[1..], b);
    }
  }

  /** What is done after any requests is what they saved, in order, the failed ones included. */
  lemma {:induction false} RequestsSave(s: State, requests: seq<Request>)
    requires Partition(s)
    ensures Serve(s, requests).done == DoneAfter(s.done, Saved(s.original, requests))
    decreases |requests|
  {
    if requests != [] {
      var rest := Saved(s.original, requests[1..]);
      match requests[0]
      case Get(_) =>
        RequestsSave(s, requests[1..]);
        assert [] + rest == rest;
      case Save(batch) =>
        SaveKeepsPartition(s, batch);
        BatchSavesKnown(s, batch);
        RequestsSave(SaveBatch(s, batch).0, requests[1..]);
        DoneAfterAppend(s.done, Known(s.original, batch), rest);
    }
  }

  /** Position `i` is the first that is about this version. */
  ghost predicate IsFirst(entries: seq<Entry>, i: nat, key: Key) {
    && i < |entries| && entries[i].key == key
    && forall j :: 0 <= j < i ==> entries[j].key != key
  }

  lemma {:induction false} DoneComesFromFirst(done: map<Key, Bytes>, entries: seq<Entry>, key: Key) returns (i: nat)
    requires key in DoneAfter(done, entries) && key !in done
    ensures IsFirst(entries, i, key) && DoneAfter(done, entries)[key] == entries[i].blob
    decreases |entries|
  {
    i := 0;
    if entries[0].key != key {
      i := DoneComesFromFirst(
        if entries[0].key in done then done else done[entries[0].key := entries[0].blob], entries[1..], key);
      i := i + 1;
      assert forall j :: 1 <= j < |entries| ==> entries[j] == entries[1..][j - 1];
    } else {
      DoneAfterGivesFirst(done, entries, 0);
    }
  }

  /** The blob of a version: the one done already, or else the first one that was saved for it. */
  ghost predicate IsFirstBlob(s: State, saved: seq<Entry>, key: Key, blob: Bytes) {
    if key in s.done then blob == s.done[key]
    else exists i: nat :: IsFirst(saved, i, key) && blob == saved[i].blob
  }

  lemma DoneBlobIsFirst(s: State, requests: seq<Request>, key: Key)
    requires Partition(s) && key in Serve(s, requests).done
    ensures IsFirstBlob(s, Saved(s.original, requests), key, Serve(s, requests).done[key])
  {
    RequestsSave(s, requests);
    AnyRequestsKeepPartition(s, requests);
    if key !in s.done {
      var i := DoneComesFromFirst(s.done, Saved(s.original, requests), key);
      assert IsFirst(Saved(s.original, requests), i, key);
    }
  }

  /** The same vlob with the authors and timestamps it had, each blob the first one saved for its version. */
  ghost predicate IsReencrypted(s: State, saved: seq<Entry>, id: VlobId, vlob: Vlob)
    requires id in s.original
  {
    && vlob.realmId == s.realmId
    && |vlob.data| == |s.original[id].data|
    && forall i :: 0 <= i < |vlob.data| ==>
         && vlob.data[i].author == s.original[id].data[i].author
         && vlob.data[i].timestamp == s.original[id].data[i].timestamp
         && IsFirstBlob(s, saved, Key(id, i + 1), vlob.data[i].blob)
  }

  /**
   Whatever was asked and saved, the finished result has the same vlobs, each version with the first blob saved for
   it.
   */
  lemma FinishedResult(s: State, requests: seq<Request>)
    requires Partition(s) && IsFinished(Serve(s, requests))
    ensures Partition(Serve(s, requests)) && Serve(s, requests).original == s.original
    ensures Reencrypted(Serve(s, requests)).Keys == s.original.Keys
    ensures forall id :: id in s.original ==>
      IsReencrypted(s, Saved(s.original, requests), id, Reencrypted(Serve(s, requests))[id])
  {
    AnyRequestsKeepPartition(s, requests);
    forall id | id in s.original
      ensures IsReencrypted(s, Saved(s.original, requests), id, Reencrypted(Serve(s, requests))[id])
    {
      FinishedVlob(s, requests, id);
    }
  }

  lemma FinishedVlob(s: State, requests: seq<Request>, id: VlobId)
    requires Partition(s) && IsFinished(Serve(s, requests)) && id in s.original
    requires Partition(Serve(s, requests)) && Serve(s, requests).original == s.original
    requires Serve(s, requests).realmId == s.realmId
    ensures IsReencrypted(s, Saved(s.original, requests), id, Reencrypted(Serve(s, requests))[id])
  {
    var r := Serve(s, requests);
    var vlob := Reencrypted(r)[id];
    forall i | 0 <= i < |vlob.data|
      ensures IsFirstBlob(s, Saved(s.original, requests), Key(id, i + 1), vlob.data[i].blob)
    {
      assert IsKeyOf(r.original, Key(id, i + 1));
      DoneBlobIsFirst(s, requests, Key(id, i + 1));
    }
  }

  lemma ServeOneSave(s: State, batch: seq<Entry>)
    ensures Serve(s, [Save(batch)]) == SaveBatch(s, batch).0
  {
    assert Serve(SaveBatch(s, batch).0, []) == SaveBatch(s, batch).0;
  }

  lemma {:induction false} ServeOneMore(s: State, requests: seq<Request>, request: Request)
    ensures Serve(s, requests + [request]) == Serve(Serve(s, requests), [request])
    decreases |requests|
  {
    if requests == [] {
      assert requests + [request] == [request];
    } else {
      assert (requests + [request])[0] == requests[0] && (requests + [request])[1..] == requests[1..] + [request];
      ServeOneMore(
        match requests[0] case Get(_) => s case Save(batch) => SaveBatch(s, batch).0, requests[1..], request);
    }
  }

  // ---------- building the new vlobs ----------

  /** The order of `sorted` on (vlob, version) pairs. */
  predicate Before(a: Key, b: Key) {
    a.vlobId < b.vlobId || (a.vlobId == b.vlobId && a.version < b.version)
  }

  method FirstKey(keys: set<Key>) returns (first: Key)
    requires keys != {}
    ensures first in keys && forall k :: k in keys && k != first ==> Before(first, k)
  {
    first :| first in keys;
    var rest := keys - {first};
    while rest != {}
      invariant first in keys && rest <= keys && first !in rest
      invariant forall k :: k in keys && k !in rest && k != first ==> Before(first, k)
      decreases |rest|
    {
      var k :| k in rest;
      if Before(k, first) {
        first := k;
      }
      rest := rest - {k};
    }
  }

  /** The versions already written: each vlob has its first versions, with nothing smaller left. */
  ghost predicate Written(s: State, vlobs: Vlobs, rest: set<Key>)
    requires Partition(s) && IsFinished(s)
  {
    && rest <= s.done.Keys
    && (forall id :: id in vlobs ==>
          && id in s.original && 0 < |vlobs[id].data| <= |s.original[id].data|
          && vlobs[id] == Vlob(s.realmId, NewData(s, id, |vlobs[id].data|)))
    && (forall k :: k in s.done ==> (k !in rest <==> k.vlobId in vlobs && k.version <= |vlobs[k.vlobId].data|))
  }

  lemma WriteNext(s: State, vlobs: Vlobs, rest: set<Key>, k: Key)
    requires Partition(s) && IsFinished(s) && Written(s, vlobs, rest)
    requires k in rest && forall k' :: k' in rest && k' != k ==> Before(k, k')
    ensures IsKeyOf(s.original, k)
    ensures k.version == if k.vlobId in vlobs then |vlobs[k.vlobId].data| + 1 else 1
    ensures var atom := s.original[k.vlobId].data[k.version - 1].(blob := s.done[k]);
      var data := if k.vlobId in vlobs then vlobs[k.vlobId].data + [atom] else [atom];
      Written(s, vlobs[k.vlobId := Vlob(s.realmId, data)], rest - {k})
  {
    var count := if k.vlobId in vlobs then |vlobs[k.vlobId].data| else 0;
    var next := Key(k.vlobId, count + 1);
    assert count < k.version;
    assert IsKeyOf(s.original, next);
    assert next in rest;
    assert next == k;
    var atom := s.original[k.vlobId].data[k.version - 1].(blob := s.done[k]);
    var data := if k.vlobId in vlobs then vlobs[k.vlobId].data + [atom] else [atom];
    assert data == NewData(s, k.vlobId, count + 1);
  }

  /** The new vlobs, built in sorted order; the length check made along the way always holds. */
  method GetReencryptedVlobs(s: State) returns (vlobs: Vlobs)
    requires Partition(s) && IsFinished(s)
    requires forall id :: id in s.original ==> |s.original[id].data| > 0
    ensures vlobs == Reencrypted(s)
  {
    vlobs := map[];
    var rest := s.done.Keys;
    while rest != {}
      invariant Written(s, vlobs, rest)
      decreases |rest|
    {
      var k := FirstKey(rest);
      WriteNext(s, vlobs, rest, k);
      var original := s.original[k.vlobId].data[k.version - 1];
      var atom := Atom(s.done[k], original.author, original.timestamp);
      if k.vlobId !in vlobs {
        vlobs := vlobs[k.vlobId := Vlob(s.realmId, [atom])];
      } else {
        vlobs := vlobs[k.vlobId := Vlob(s.realmId, vlobs[k.vlobId].data + [atom])];
      }
      assert |vlobs[k.vlobId].data| == k.version;
      rest := rest - {k};
    }
    AllWritten(s, vlobs);
  }

  lemma AllWritten(s: State, vlobs: Vlobs)
    requires Partition(s) && IsFinished(s) && Written(s, vlobs, {})
    requires forall id :: id in s.original ==> |s.original[id].data| > 0
    ensures vlobs == Reencrypted(s)
  {
    forall id | id in s.original
      ensures id in vlobs && |vlobs[id].data| == |s.original[id].data|
    {
      assert IsKeyOf(s.original, Key(id, |s.original[id].data|));
      assert Key(id, |s.original[id].data|) in s.done;
    }
  }

  // ---------- starting ----------

  /** A fresh reencryption: everything to do, nothing done. */
  ghost predicate IsStart(s: State, realmId: RealmId, vlobs: Vlobs) {
    s.realmId == realmId && s.original == vlobs && s.done == map[] && Partition(s)
  }

  /** Enumerate every version of every vlob, vlob by vlob. */
  method Start(realmId: RealmId, vlobs: Vlobs) returns (s: State)
    ensures IsStart(s, realmId, vlobs)
  {
    var todo: seq<Entry> := [];
    var rest := vlobs.Keys;
    while rest != {}
      invariant rest <= vlobs.Keys
      invariant Listed(vlobs, todo, vlobs.Keys - rest)
      decreases |rest|
    {
      var id :| id in rest;
      var data := vlobs[id].data;
      ghost var before := todo;
      for index := 0 to |data|
        invariant ListedUpTo(vlobs, todo, vlobs.Keys - rest, id, index)
      {
        todo := todo + [Entry(Key(id, index + 1), data[index].blob)];
        ListOneMore(vlobs, todo[..|todo| - 1], vlobs.Keys - rest, id, index);
        assert todo[..|todo| - 1] + [Entry(Key(id, index + 1), data[index].blob)] == todo;
      }
      ListVlob(vlobs, todo, vlobs.Keys - rest, id);
      assert vlobs.Keys - (rest - {id}) == (vlobs.Keys - rest) + {id};
      rest := rest - {id};
    }
    s := State(realmId, vlobs, todo, map[], |todo|);
    assert vlobs.Keys - {} == vlobs.Keys;
  }

  ghost predicate Listed(vlobs: Vlobs, todo: seq<Entry>, ids: set<VlobId>) {
    && DistinctKeys(todo)
    && (forall i :: 0 <= i < |todo| ==>
          IsKeyOf(vlobs, todo[i].key) && todo[i].key.vlobId in ids && todo[i].blob == BlobOf(vlobs, todo[i].key))
    && (forall k :: IsKeyOf(vlobs, k) && k.vlobId in ids ==> HasKey(todo, k))
  }

  ghost predicate ListedUpTo(vlobs: Vlobs, todo: seq<Entry>, ids: set<VlobId>, id: VlobId, n: nat) {
    && DistinctKeys(todo)
    && (forall i :: 0 <= i < |todo| ==>
          && IsKeyOf(vlobs, todo[i].key) && todo[i].blob == BlobOf(vlobs, todo[i].key)
          && (todo[i].key.vlobId in ids || (todo[i].key.vlobId == id && todo[i].key.version <= n)))
    && (forall k :: IsKeyOf(vlobs, k) && (k.vlobId in ids || (k.vlobId == id && k.version <= n)) ==> HasKey(todo, k))
  }

  lemma ListOneMore(vlobs: Vlobs, todo: seq<Entry>, ids: set<VlobId>, id: VlobId, n: nat)
    requires id in vlobs && id !in ids && n < |vlobs[id].data| && ListedUpTo(vlobs, todo, ids, id, n)
    ensures ListedUpTo(vlobs, todo + [Entry(Key(id, n + 1), vlobs[id].data[n].blob)], ids, id, n + 1)
  {
    var longer := todo + [Entry(Key(id, n + 1), vlobs[id].data[n].blob)];
    forall k | IsKeyOf(vlobs, k) && (k.vlobId in ids || (k.vlobId == id && k.version <= n + 1))
      ensures HasKey(longer, k)
    {
      if k == Key(id, n + 1) {
        assert longer[|todo|].key == k;
      } else {
        var i :| 0 <= i < |todo| && todo[i].key == k;
        assert longer[i].key == k;
      }
    }
  }

  lemma ListVlob(vlobs: Vlobs, todo: seq<Entry>, ids: set<VlobId>, id: VlobId)
    requires id in vlobs && ListedUpTo(vlobs, todo, ids, id, |vlobs[id].data|)
    ensures Listed(vlobs, todo, ids + {id})
  {
  }

  // ---------- the object ----------

  /** The running reencryption of a realm, updated in place. */
  class Reencryption {
    const realmId: RealmId
    const originalVlobs: Vlobs
    var todo: seq<Entry>
    var done: map<Key, Bytes>
    const total: nat

    ghost function Snapshot(): State
      reads this
    {
      State(realmId, originalVlobs, todo, done, total)
    }

    ghost predicate Valid()
      reads this
    {
      Partition(Snapshot())
    }

    constructor (realmId: RealmId, vlobs: Vlobs)
      ensures IsStart(Snapshot(), realmId, vlobs)
    {
      var s := Start(realmId, vlobs);
      this.realmId, originalVlobs, todo, done, total := realmId, vlobs, s.todo, map[], |s.todo|;
    }

    method NextBatch(size: int) returns (batch: seq<Entry>)
      ensures batch == GetBatch(Snapshot(), size)
    {
      batch := [];
      for i := 0 to |todo|
        invariant batch + Pending(Snapshot(), todo[i..]) == Pending(Snapshot(), todo)
      {
        assert todo[i..][1..] == todo[i + 1..];
        if todo[i].key !in done {
          batch := batch + [todo[i]];
        }
      }
      batch := FirstEntries(batch, size);
    }

    /** Returns the total and the number done, or fails on an unknown version after saving what came before it. */
    method Save(batch: seq<Entry>) returns (r: Option<(nat, nat)>)
      requires Valid()
      modifies this
      ensures Valid()
      ensures var (s, ok) := SaveBatch(old(Snapshot()), batch);
        Snapshot() == s && r == if ok then Some((total, |done|)) else None
    {
      SaveKeepsPartition(Snapshot(), batch);
      for i := 0 to |batch|
        invariant SaveBatch(old(Snapshot()), batch) == SaveBatch(Snapshot(), batch[i..])
      {
        var entry := batch[i];
        assert batch[i..][1..] == batch[i + 1..];
        if entry.key !in done {
          if !HasKey(todo, entry.key) {
            return None;
          }
          todo := Without(todo, entry.key);
          done := done[entry.key := entry.blob];
        }
      }
      return Some((total, |done|));
    }

    method Result() returns (vlobs: Vlobs)
      requires Valid() && IsFinished(Snapshot())
      requires forall id :: id in originalVlobs ==> |originalVlobs[id].data| > 0
      ensures vlobs == Reencrypted(Snapshot())
    {
      vlobs := GetReencryptedVlobs(State(realmId, originalVlobs, todo, done, total));
    }
  }
}
