/** Splitting a block into chunks with a parity chunk, and rebuilding it from all of them but one. */
module Raid5 {
  import opened Common
  import opened Raid5Xor

  type Chunks = seq<Bytes>

  const UINT32: nat := 0x1_0000_0000

  /** Why a block cannot be rebuilt. */
  datatype RebuildError = TooManyMissing | NoChecksum | UnequalLengths | NoHeader

  // ---------- the block length, as a big-endian uint32 ----------

  function PackLength(n: nat): (r: Bytes)
    requires n < UINT32
    ensures |r| == 4
  {
    [(n / 0x100_0000) as Byte, (n / 0x1_0000 % 0x100) as Byte, (n / 0x100 % 0x100) as Byte, (n % 0x100) as Byte]
  }

  function UnpackLength(b: Bytes): nat
    requires |b| == 4
  {
    FromBytes(Big, b)
  }

  lemma UnpackPacked(n: nat)
    requires n < UINT32
    ensures UnpackLength(PackLength(n)) == n
  {
    BigOfFour(PackLength(n));
    FourDigits(n);
  }

  lemma FourDigits(n: nat)
    ensures n == ((n / 0x100_0000 * 256 + n / 0x1_0000 % 0x100) * 256 + n / 0x100 % 0x100) * 256 + n % 0x100
  {
    LowDigit(n, n / 0x100);
    LowDigit(n / 0x100, n / 0x1_0000);
    LowDigit(n / 0x1_0000, n / 0x100_0000);
  }

  lemma LowDigit(n: nat, high: nat)
    requires high == n / 0x100
    ensures n == high * 0x100 + n % 0x100
  {
  }

  lemma BigOfFour(b: Bytes)
    requires |b| == 4
    ensures FromBytes(Big, b) == ((b[0] as nat * 256 + b[1] as nat) * 256 + b[2] as nat) * 256 + b[3] as nat
  {
    var r := Reverse(b);
    assert r[1..][0] == r[1] && r[1..][1..] == r[2..];
    assert r[2..][0] == r[2] && r[2..][1..] == r[3..];
    assert r[3..][0] == r[3] && r[3..][1..] == [];
    assert FromLittle(r[3..]) == r[3] as nat + 256 * FromLittle([]);
    assert FromLittle(r[2..]) == r[2] as nat + 256 * FromLittle(r[3..]);
    assert FromLittle(r[1..]) == r[1] as nat + 256 * FromLittle(r[2..]);
  }

  // ---------- splitting ----------

  /** The payload size divided by the number of chunks, rounded up. */
  function ChunkLength(payloadSize: nat, chunks: nat): (r: nat)
    requires chunks > 0
    ensures r * chunks >= payloadSize
    ensures r > 0 ==> (r - 1) * chunks < payloadSize
  {
    var floor := payloadSize / chunks;
    assert payloadSize == floor * chunks + payloadSize % chunks;
    if floor * chunks < payloadSize then
      assert (floor + 1) * chunks == floor * chunks + chunks;
      floor + 1
    else
      assert floor > 0 ==> (floor - 1) * chunks == floor * chunks - chunks;
      floor
  }

  function Padded(block: Bytes, size: nat): (r: Bytes)
    requires |block| < UINT32 && size >= |block| + 4
    ensures |r| == size
  {
    PackLength(|block|) + block + Zeros(size - (|block| + 4))
  }

  function Payload(block: Bytes, chunks: nat): (r: Bytes)
    requires chunks > 0 && |block| < UINT32
    ensures |r| == ChunkLength(|block| + 4, chunks) * chunks
  {
    Padded(block, ChunkLength(|block| + 4, chunks) * chunks)
  }

  function Slice(payload: Bytes, length: nat, i: nat): Bytes
    requires length * (i + 1) <= |payload|
  {
    assert length * i <= length * (i + 1);
    payload[length * i..length * (i + 1)]
  }

  function Slices(payload: Bytes, length: nat, n: nat): (r: Chunks)
    requires length * n <= |payload|
    ensures |r| == n && SameLength(r, length)
  {
    if n == 0 then []
    else
      assert length * (n - 1) + length == length * n;
      Slices(payload, length, n - 1) + [Slice(payload, length, n - 1)]
  }

  /** None for a block too long for its length to be packed. */
  function Split(block: Bytes, chunks: nat): (r: Option<Chunks>)
    requires chunks > 0
    ensures r.Some? <==> |block| < UINT32
    ensures r.Some? ==> |r.value| == chunks && SameLength(r.value, ChunkLength(|block| + 4, chunks))
  {
    if |block| >= UINT32 then None
    else
      var payload := Payload(block, chunks);
      var length := ChunkLength(|block| + 4, chunks);
      Some(Slices(payload, length, chunks))
  }

  /** The parity chunk. */
  function Checksum(chunks: Chunks): Bytes
    requires chunks != [] && SameLength(chunks, |chunks[0]|)
  {
    XorAll(chunks, |chunks[0]|)
  }

  function Join(chunks: Chunks): Bytes {
    if chunks == [] then [] else Join(chunks[..|chunks| - 1]) + chunks[|chunks| - 1]
  }

  lemma {:induction false} JoinOfSlices(payload: Bytes, length: nat, n: nat)
    requires length * n <= |payload|
    ensures Join(Slices(payload, length, n)) == payload[..length * n]
  {
    if n > 0 {
      assert length * (n - 1) + length == length * n;
      JoinOfSlices(payload, length, n - 1);
      var init := Slices(payload, length, n - 1);
      assert Slices(payload, length, n)[..n - 1] == init;
      assert payload[..length * (n - 1)] + payload[length * (n - 1)..length * n] == payload[..length * n];
    }
  }

  // ---------- rebuilding ----------

  function Valid(chunks: seq<Option<Bytes>>): Chunks {
    if chunks == [] then []
    else
      var init := Valid(chunks[..|chunks| - 1]);
      if chunks[|chunks| - 1].Some? then init + [chunks[|chunks| - 1].value] else init
  }

  /** The index of the first missing chunk, or the number of chunks. */
  function FirstMissing(chunks: seq<Option<Bytes>>): (r: nat)
    ensures r <= |chunks|
    ensures forall i :: 0 <= i < r ==> chunks[i].Some?
    ensures r < |chunks| ==> chunks[r].None?
  {
    if chunks == [] then 0
    else
      var init := chunks[..|chunks| - 1];
      var r := FirstMissing(init);
      if r < |init| then r else if chunks[|chunks| - 1].None? then |init| else |chunks|
  }

  /** The payload starts with the block length and holds the block right after it. */
  function Unwrap(payload: Bytes): Result<Bytes, RebuildError> {
    if |payload| < 4 then Err(NoHeader)
    else
      var end := 4 + UnpackLength(payload[..4]);
      Ok(payload[4..if end <= |payload| then end else |payload|])
  }

  /** The chunks with the missing one put back, as the exclusive or of the others and of the checksum. */
  function Restore(chunks: seq<Option<Bytes>>, checksum: Option<Bytes>): Result<Chunks, RebuildError> {
    var valid := Valid(chunks);
    var m := FirstMissing(chunks);
    if |chunks| - |valid| > 1 then Err(TooManyMissing)
    else if m == |chunks| then Ok(valid)
    else if checksum.None? then Err(NoChecksum)
    else
      var buffers := valid + [checksum.value];
      if exists i :: 0 <= i < |buffers| && |buffers[i]| != |buffers[0]| then Err(UnequalLengths)
      else Ok(Valid(chunks[..m]) + [XorAll(buffers, |buffers[0]|)] + Valid(chunks[m + 1..]))
  }

  function Rebuild(chunks: seq<Option<Bytes>>, checksum: Option<Bytes>): Result<Bytes, RebuildError> {
    match Restore(chunks, checksum)
    case Err(e) => Err(e)
    case Ok(all) => Unwrap(Join(all))
  }

  lemma {:induction false} ValidAppend(a: seq<Option<Bytes>>, b: seq<Option<Bytes>>)
    ensures Valid(a + b) == Valid(a) + Valid(b)
    decreases |b|
  {
    if b == [] {
      assert a + b == a;
    } else {
      assert (a + b)[..|a + b| - 1] == a + b[..|b| - 1];
      ValidAppend(a, b[..|b| - 1]);
    }
  }

  lemma {:induction false} ValidOfAll(chunks: seq<Option<Bytes>>)
    ensures |Valid(chunks)| <= |chunks|
    ensures |Valid(chunks)| == |chunks| <==> forall i :: 0 <= i < |chunks| ==> chunks[i].Some?
    ensures |Valid(chunks)| == |chunks| ==> forall i :: 0 <= i < |chunks| ==> Valid(chunks)[i] == chunks[i].value
  {
    if chunks != [] {
      ValidOfAll(chunks[..|chunks| - 1]);
    }
  }

  /** The chunks that are left when some are lost. */
  ghost predicate LeftOf(kept: seq<Option<Bytes>>, chunks: Chunks) {
    |kept| == |chunks| && forall i :: 0 <= i < |kept| ==> kept[i] == None || kept[i] == Some(chunks[i])
  }

  ghost predicate OnlyMissing(kept: seq<Option<Bytes>>, m: nat) {
    forall i :: 0 <= i < |kept| && i != m ==> kept[i].Some?
  }

  lemma NothingMissing(kept: seq<Option<Bytes>>, chunks: Chunks, checksum: Option<Bytes>)
    requires LeftOf(kept, chunks) && forall i :: 0 <= i < |kept| ==> kept[i].Some?
    ensures Restore(kept, checksum) == Ok(chunks)
  {
    ValidOfAll(kept);
    assert Valid(kept) == chunks;
  }

  lemma ValidOfKept(kept: seq<Option<Bytes>>, chunks: Chunks)
    requires LeftOf(kept, chunks) && forall i :: 0 <= i < |kept| ==> kept[i].Some?
    ensures Valid(kept) == chunks
  {
    ValidOfAll(kept);
  }

  lemma ValidOfOneMissing(kept: seq<Option<Bytes>>, chunks: Chunks, m: nat)
    requires LeftOf(kept, chunks) && m < |kept| && kept[m].None? && OnlyMissing(kept, m)
    ensures Valid(kept[..m]) == chunks[..m] && Valid(kept[m + 1..]) == chunks[m + 1..]
    ensures Valid(kept) == chunks[..m] + chunks[m + 1..]
  {
    var (before, after) := (kept[..m], kept[m + 1..]);
    assert kept == before + [None] + after;
    ValidAppend(before + [None], after);
    ValidAppend(before, [None]);
    assert Valid([None]) == [];
    ValidOfKept(before, chunks[..m]);
    ValidOfKept(after, chunks[m + 1..]);
  }

  lemma OneMissing(kept: seq<Option<Bytes>>, chunks: Chunks, n: nat, m: nat)
    requires LeftOf(kept, chunks) && m < |kept| && kept[m].None? && OnlyMissing(kept, m)
    requires SameLength(chunks, n)
    ensures Restore(kept, Some(Checksum(chunks))) == Ok(chunks)
  {
    ValidOfOneMissing(kept, chunks, m);
    assert FirstMissing(kept) == m;
    assert chunks == chunks[..m] + [chunks[m]] + chunks[m + 1..];
    var buffers := chunks[..m] + chunks[m + 1..] + [Checksum(chunks)];
    assert SameLength(buffers, n);
    MissingBuffer(chunks[..m], chunks[m], chunks[m + 1..], n);
  }

  lemma UnwrapPayload(block: Bytes, chunks: nat)
    requires chunks > 0 && |block| < UINT32
    ensures Unwrap(Payload(block, chunks)) == Ok(block)
  {
    UnwrapPadded(block, ChunkLength(|block| + 4, chunks) * chunks);
  }

  lemma UnwrapPadded(block: Bytes, size: nat)
    requires |block| < UINT32 && size >= |block| + 4
    ensures Unwrap(Padded(block, size)) == Ok(block)
  {
    var payload := Padded(block, size);
    assert payload[..4] == PackLength(|block|);
    UnpackPacked(|block|);
    assert payload[4..4 + |block|] == block;
  }

  lemma SplitJoins(block: Bytes, n: nat)
    requires n > 0 && |block| < UINT32
    ensures Join(Split(block, n).value) == Payload(block, n)
  {
    JoinOfAllSlices(Payload(block, n), ChunkLength(|block| + 4, n), n);
  }

  lemma JoinOfAllSlices(payload: Bytes, length: nat, n: nat)
    requires |payload| == length * n
    ensures Join(Slices(payload, length, n)) == payload
  {
    JoinOfSlices(payload, length, n);
    assert payload[..|payload|] == payload;
  }

  /** A block comes back from its chunks, all of them or all but any one together with the parity. */
  lemma RebuildsBlock(block: Bytes, n: nat, kept: seq<Option<Bytes>>, m: nat, checksum: Option<Bytes>)
    requires n > 0 && |block| < UINT32
    requires LeftOf(kept, Split(block, n).value) && OnlyMissing(kept, m)
    requires m < n && kept[m].None? ==> checksum == Some(Checksum(Split(block, n).value))
    ensures Rebuild(kept, checksum) == Ok(block)
  {
    var chunks := Split(block, n).value;
    if m < n && kept[m].None? {
      OneMissing(kept, chunks, ChunkLength(|block| + 4, n), m);
    } else {
      NothingMissing(kept, chunks, checksum);
    }
    SplitJoins(block, n);
    UnwrapPayload(block, n);
  }

  /** Two losses are never rebuilt. */
  lemma TwoMissing(kept: seq<Option<Bytes>>, i: nat, j: nat, checksum: Option<Bytes>)
    requires i < j < |kept| && kept[i].None? && kept[j].None?
    ensures Rebuild(kept, checksum) == Err(TooManyMissing)
  {
    ValidAppend(kept[..j], kept[j..]);
    assert kept[..j] + kept[j..] == kept;
    ValidOfAll(kept[..j]);
    ValidOfAll(kept[j..]);
    assert kept[..j][i] == kept[i] && kept[j..][0] == kept[j];
  }

  // ---------- the code ----------

  method SplitBlockInChunks(block: Bytes, chunks: nat) returns (r: Option<Chunks>)
    requires chunks > 0
    ensures r == Split(block, chunks)
  {
    var payloadSize := |block| + 4;
    var length := payloadSize / chunks;
    if length * chunks < payloadSize {
      length := length + 1;
    }
    assert length == ChunkLength(payloadSize, chunks);
    if |block| >= UINT32 {
      return None;
    }
    var payload := Padded(block, length * chunks);
    var slices := AllSlices(payload, length, chunks);
    return Some(slices);
  }

  method AllSlices(payload: Bytes, length: nat, n: nat) returns (slices: Chunks)
    requires length * n == |payload|
    ensures slices == Slices(payload, length, n)
  {
    slices := [];
    for i := 0 to n
      invariant length * i <= |payload|
      invariant slices == Slices(payload, length, i)
    {
      assert length * (i + 1) == length * i + length;
      NoMoreThan(length, i + 1, n);
      slices := slices + [payload[length * i..length * (i + 1)]];
    }
  }

  lemma NoMoreThan(length: nat, i: nat, n: nat)
    requires i <= n
    ensures length * i <= length * n
  {
  }

  /** What each store is given when a block is created: its chunk, and the checksum for the last store. */
  function Uploads(block: Bytes, chunks: nat): (r: Option<Chunks>)
    requires chunks > 0
    ensures r.Some? <==> |block| < UINT32
    ensures r.Some? ==> |r.value| == chunks + 1 && SameLength(r.value, ChunkLength(|block| + 4, chunks))
  {
    match Split(block, chunks)
    case None => None
    case Some(all) => Some(all + [Checksum(all)])
  }

  method ChunksToUpload(order: ByteOrder, block: Bytes, stores: nat) returns (r: Option<Chunks>)
    requires stores > 1
    ensures r == Uploads(block, stores - 1)
  {
    var chunks := SplitBlockInChunks(block, stores - 1);
    if chunks.None? {
      return None;
    }
    var checksum := XorBuffers(order, chunks.value);
    return Some(chunks.value + [checksum]);
  }

  method RebuildBlockFromChunks(order: ByteOrder, chunks: seq<Option<Bytes>>, checksum: Option<Bytes>)
    returns (r: Result<Bytes, RebuildError>)
    ensures r == Rebuild(chunks, checksum)
  {
    var valid := Valid(chunks);
    if |chunks| - |valid| > 1 {
      return Err(TooManyMissing);
    }
    ValidOfAll(chunks);
    var all := chunks;
    var m := FirstMissing(chunks);
    if m < |chunks| {
      if checksum.None? {
        return Err(NoChecksum);
      }
      var buffers := valid + [checksum.value];
      if exists i :: 0 <= i < |buffers| && |buffers[i]| != |buffers[0]| {
        return Err(UnequalLengths);
      }
      var missing := XorBuffers(order, buffers);
      all := chunks[m := Some(missing)];
      assert all == chunks[..m] + [Some(missing)] + chunks[m + 1..];
      ValidAppend(chunks[..m] + [Some(missing)], chunks[m + 1..]);
      ValidAppend(chunks[..m], [Some(missing)]);
      assert Valid([Some(missing)]) == [missing];
    }
    r := Unwrap(Join(Valid(all)));
  }
}
