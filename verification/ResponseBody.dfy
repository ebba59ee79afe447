/**
 Reading a response body into a buffer that grows by doubling and never beyond the limit.
 */
module ResponseBody {
  import opened Wrappers

  type Byte = n: int | 0 <= n < 256

  /** The `content-length` header; `Length` only when it is a safe integer. */
  datatype Declared = Absent | Unusable | Length(n: int)

  /** What one awaited read comes to; a stream that is exhausted is done. */
  datatype Read = Chunk(bytes: seq<Byte>) | Interrupted(reason: string)

  datatype Failure = TooLarge | Stopped(reason: string)

  const INITIAL_CAPACITY := 64 * 1024

  function Min(a: int, b: int): int { if a < b then a else b }

  function Max(a: int, b: int): int { if a < b then b else a }

  function Concat(received: seq<Read>, n: nat): seq<Byte>
    requires n <= |received|
  {
    if n == 0 then [] else Concat(received, n - 1) + if received[n - 1].Chunk? then received[n - 1].bytes else []
  }

  /** The first read that ends the loop early: an interruption, or the chunk that exceeds the limit. */
  function FirstStop(received: seq<Read>, n: nat, maxBytes: nat): (k: nat)
    requires n <= |received|
    ensures n <= k <= |received|
    decreases |received| - n
  {
    if n == |received| || !GoesOn(received, n, maxBytes) then n
    else FirstStop(received, n + 1, maxBytes)
  }

  function Outcome(declared: Declared, body: Option<seq<Read>>, maxBytes: nat): Result<seq<Byte>, Failure> {
    if declared.Length? && declared.n > maxBytes then Err(TooLarge)
    else if body.None? then Ok([])
    else AfterReads(body.value, maxBytes)
  }

  function AfterReads(received: seq<Read>, maxBytes: nat): Result<seq<Byte>, Failure> {
    var k := FirstStop(received, 0, maxBytes);
    if k == |received| then Ok(Concat(received, k))
    else if received[k].Interrupted? then Err(Stopped(received[k].reason))
    else Err(TooLarge)
  }

  /** What the copying of reallocations has cost against the capacity it bought. */
  ghost predicate CopyingIsPaidFor(copied: nat, capacity: nat, maxBytes: nat) {
    copied <= capacity || (capacity == maxBytes && copied < 2 * maxBytes)
  }

  function NextCapacity(capacity: nat, total: nat, declared: Declared, maxBytes: nat): int {
    var initial := if declared.Length? && declared.n > 0 then Min(declared.n, INITIAL_CAPACITY) else Min(INITIAL_CAPACITY, maxBytes);
    var doubled := if capacity > 0 then 2 * capacity else initial;
    Min(maxBytes, Max(total, doubled))
  }

  /** `bytes` holds the `length` bytes read so far. */
  ghost predicate Holds(bytes: array<Byte>, length: nat, contents: seq<Byte>)
    reads bytes
  {
    length <= bytes.Length && bytes[..length] == contents
  }

  /** `copied` is the number of bytes moved by reallocations. */
  method Grow(bytes: array<Byte>, previousTotal: nat, total: nat, declared: Declared, maxBytes: nat, ghost copied: nat)
      returns (grown: array<Byte>, ghost copiedNow: nat)
    requires previousTotal <= bytes.Length < total <= maxBytes
    requires bytes.Length == 0 ==> copied == 0
    requires CopyingIsPaidFor(copied, bytes.Length, maxBytes)
    ensures fresh(grown) && total <= grown.Length <= maxBytes && grown[..previousTotal] == bytes[..previousTotal]
    ensures copiedNow == copied + previousTotal && CopyingIsPaidFor(copiedNow, grown.Length, maxBytes)
  {
    var capacity := NextCapacity(bytes.Length, total, declared, maxBytes);
    grown := new Byte[capacity](_ => 0);
    forall i | 0 <= i < previousTotal {
      grown[i] := bytes[i];
    }
    copiedNow := copied + previousTotal;
  }

  /** `bytes.set(chunk, at)` */
  method SetChunk(bytes: array<Byte>, chunk: seq<Byte>, at: nat)
    requires at + |chunk| <= bytes.Length
    modifies bytes
    ensures bytes[..at] == old(bytes[..at]) && bytes[at..at + |chunk|] == chunk
  {
    forall i | 0 <= i < |chunk| {
      bytes[at + i] := chunk[i];
    }
  }

  /** One chunk taken in, into the same array or a larger one. */
  method Accept(bytes: array<Byte>, chunk: seq<Byte>, previousTotal: nat, declared: Declared, maxBytes: nat,
                ghost contents: seq<Byte>, ghost copied: nat) returns (next: array<Byte>, ghost copiedNow: nat)
    requires Holds(bytes, previousTotal, contents) && previousTotal + |chunk| <= maxBytes && bytes.Length <= maxBytes
    requires bytes.Length == 0 ==> copied == 0
    requires CopyingIsPaidFor(copied, bytes.Length, maxBytes)
    modifies bytes
    ensures next == bytes || fresh(next)
    ensures Holds(next, previousTotal + |chunk|, contents + chunk)
    ensures bytes.Length <= next.Length <= maxBytes && (next.Length == 0 ==> copiedNow == 0)
    ensures CopyingIsPaidFor(copiedNow, next.Length, maxBytes)
    ensures bytes.Length >= previousTotal + |chunk| ==> next == bytes
  {
    var total := previousTotal + |chunk|;
    next, copiedNow := bytes, copied;
    if bytes.Length < total {
      next, copiedNow := Grow(bytes, previousTotal, total, declared, maxBytes, copied);
    }
    SetChunk(next, chunk, previousTotal);
    assert next[..total] == next[..previousTotal] + next[previousTotal..total];
  }

  /** Where a read that has taken in `contents` stands. */
  ghost predicate Buffered(bytes: array<Byte>, totalBytes: nat, contents: seq<Byte>, maxBytes: nat, copied: nat, largest: nat)
    reads bytes
  {
    && Holds(bytes, totalBytes, contents)
    && bytes.Length == largest <= maxBytes && (bytes.Length == 0 ==> copied == 0)
    && CopyingIsPaidFor(copied, bytes.Length, maxBytes)
  }

  /** Main result: the outcome, with every capacity within the limit and copying below twice the limit. */
  method ReadBounded(declared: Declared, body: Option<seq<Read>>, maxBytes: nat)
      returns (r: Result<seq<Byte>, Failure>, ghost copied: nat, ghost largest: nat)
    ensures r == Outcome(declared, body, maxBytes)
    ensures copied == 0 || copied < 2 * maxBytes
    ensures largest <= maxBytes
    ensures r.Ok? ==> |r.value| <= largest
  {
    copied, largest := 0, 0;
    if declared.Length? && declared.n > maxBytes {
      return Err(TooLarge), copied, largest;
    }
    if body.None? {
      return Ok([]), copied, largest;
    }
    r, copied, largest := ReadChunks(declared, body.value, maxBytes);
  }

  method ReadChunks(declared: Declared, received: seq<Read>, maxBytes: nat)
      returns (r: Result<seq<Byte>, Failure>, ghost copied: nat, ghost largest: nat)
    ensures r == AfterReads(received, maxBytes)
    ensures copied == 0 || copied < 2 * maxBytes
    ensures largest <= maxBytes
    ensures r.Ok? ==> |r.value| <= largest
  {
    copied, largest := 0, 0;
    var bytes := new Byte[0];
    var totalBytes: nat := 0;
    ghost var contents: seq<Byte> := [];
    assert ReadUpTo(received, 0, maxBytes, contents);
    for k := 0 to |received|
      invariant fresh(bytes) && Buffered(bytes, totalBytes, contents, maxBytes, copied, largest)
      invariant ReadUpTo(received, k, maxBytes, contents)
    {
      OneMoreRead(received, k, maxBytes, contents);
      if received[k].Interrupted? {
        return Err(Stopped(received[k].reason)), copied, largest;
      }
      var chunk := received[k].bytes;
      if totalBytes + |chunk| > maxBytes {
        return Err(TooLarge), copied, largest;
      }
      bytes, copied := Accept(bytes, chunk, totalBytes, declared, maxBytes, contents, copied);
      totalBytes := totalBytes + |chunk|;
      contents := contents + chunk;
      largest := bytes.Length;
    }
    r := Ok(bytes[..totalBytes]);
  }

  /** The loop has taken in `contents` and gone on so far; at the end of the stream that is the outcome. */
  ghost predicate ReadUpTo(received: seq<Read>, k: nat, maxBytes: nat, contents: seq<Byte>)
    requires k <= |received|
  {
    && contents == Concat(received, k) && FirstStop(received, 0, maxBytes) == FirstStop(received, k, maxBytes)
    && (k == |received| ==> AfterReads(received, maxBytes) == Ok(contents))
  }

  /** One more read goes on, or is the outcome. */
  lemma OneMoreRead(received: seq<Read>, k: nat, maxBytes: nat, contents: seq<Byte>)
    requires k < |received| && ReadUpTo(received, k, maxBytes, contents)
    ensures received[k].Interrupted? ==> AfterReads(received, maxBytes) == Err(Stopped(received[k].reason))
    ensures received[k].Chunk? && |contents| + |received[k].bytes| > maxBytes ==> AfterReads(received, maxBytes) == Err(TooLarge)
    ensures received[k].Chunk? && |contents| + |received[k].bytes| <= maxBytes ==>
      ReadUpTo(received, k + 1, maxBytes, contents + received[k].bytes)
  {
  }

  // ---- What the outcome means ----

  /** Read `j` neither interrupts nor exceeds the limit. */
  predicate GoesOn(received: seq<Read>, j: nat, maxBytes: nat)
    requires j < |received|
  {
    received[j].Chunk? && |Concat(received, j + 1)| <= maxBytes
  }

  lemma {:induction false} StopIsFirst(received: seq<Read>, n: nat, maxBytes: nat)
    requires n <= |received|
    ensures forall j :: n <= j < FirstStop(received, n, maxBytes) ==> GoesOn(received, j, maxBytes)
    ensures FirstStop(received, n, maxBytes) < |received| ==> !GoesOn(received, FirstStop(received, n, maxBytes), maxBytes)
    decreases |received| - n
  {
    if n == |received| || !GoesOn(received, n, maxBytes) {
      assert FirstStop(received, n, maxBytes) == n;
    } else {
      StopIsFirst(received, n + 1, maxBytes);
      assert FirstStop(received, n, maxBytes) == FirstStop(received, n + 1, maxBytes);
    }
  }

  /** A body is accepted exactly when neither its declaration nor its bytes exceed the limit and nothing interrupts it. */
  lemma AcceptedIff(declared: Declared, received: seq<Read>, maxBytes: nat)
    ensures Outcome(declared, Some(received), maxBytes).Ok? <==>
      !(declared.Length? && declared.n > maxBytes) && |Concat(received, |received|)| <= maxBytes &&
      (forall j :: 0 <= j < |received| ==> received[j].Chunk?)
    ensures Outcome(declared, Some(received), maxBytes).Ok? ==>
      Outcome(declared, Some(received), maxBytes).value == Concat(received, |received|)
  {
    StopIsFirst(received, 0, maxBytes);
    var k := FirstStop(received, 0, maxBytes);
    if k < |received| {
      ConcatGrows(received, k + 1, |received|);
    } else {
      forall j | 0 <= j < k
        ensures received[j].Chunk? && |Concat(received, j + 1)| <= maxBytes
      {
        assert GoesOn(received, j, maxBytes);
      }
    }
  }

  lemma {:induction false} ConcatGrows(received: seq<Read>, a: nat, b: nat)
    requires a <= b <= |received|
    ensures |Concat(received, a)| <= |Concat(received, b)|
  {
    if a < b {
      ConcatGrows(received, a, b - 1);
    }
  }
}
