/** The growing, compacting and shrinking byte buffer of src/stream_buffer.cpp. */
module StreamBuffers {
  import opened Base

  /** Full drains an oversized buffer survives before it is halved. */
  const SHRINK_THRESHOLD: nat := 10
  const SHRINK_DIVISOR: nat := 2

  /** Capacity and shrink counter after one more drain of a buffer with no growth in between. */
  function AfterDrain(size: nat, count: nat, initial: nat): (r: (nat, nat)) {
    if size <= initial then (size, 0)
    else if count < SHRINK_THRESHOLD then (size, count + 1)
    else (Max(size / SHRINK_DIVISOR, initial), 0)
  }

  function AfterDrains(size: nat, count: nat, initial: nat, n: nat): (r: (nat, nat))
    decreases n
  {
    if n == 0 then (size, count)
    else
      var (s, c) := AfterDrain(size, count, initial);
      AfterDrains(s, c, initial, n - 1)
  }

  function Pow2(k: nat): nat { if k == 0 then 1 else 2 * Pow2(k - 1) }

  class StreamBuffer {
    var buffer: array<byte>
    var reader: nat
    var writer: nat
    var shrinkCount: nat
    const initialSize: nat

    ghost var content: seq<byte>   // the live bytes

    // Totals over the life of the buffer.
    ghost var popped: nat   // bytes handed out by Pop
    ghost var copied: nat   // bytes moved by Compact
    ghost var peak: nat     // largest number of live bytes ever held

    /** Users handle the invariant as one fact; only this class looks into it. */
    ghost predicate Valid()
      reads this, buffer
    {
      Invariant() == true
    }

    ghost predicate Invariant()
      reads this, buffer
    {
      && reader <= writer <= buffer.Length
      && content == buffer[reader..writer]
      && initialSize <= buffer.Length
      && shrinkCount <= SHRINK_THRESHOLD
      && (reader == writer ==> reader == 0)
      // The gap in front of the data never exceeds half of the capacity,
      && 2 * reader <= buffer.Length
      // so the capacity is bounded by the largest backlog,
      && |content| <= peak
      && (buffer.Length == initialSize || buffer.Length <= 2 * peak)
      // and compaction is paid for by the bytes taken out before it.
      && copied + reader <= popped
    }

    constructor (size: nat)
      ensures Valid() && fresh(buffer)
      ensures content == [] && initialSize == buffer.Length == size
      ensures popped == copied == peak == 0
    {
      buffer := new byte[size](_ => 0);
      reader, writer, shrinkCount := 0, 0, 0;
      initialSize := size;
      content, popped, copied, peak := [], 0, 0, 0;
    }

    method Size() returns (n: nat)
      requires Valid()
      ensures n == |content|
    {
      n := writer - reader;
    }

    method Space() returns (n: nat)
      requires Valid()
      ensures n == buffer.Length - writer
    {
      n := buffer.Length - writer;
    }

    method Empty() returns (b: bool)
      requires Valid()
      ensures b <==> content == []
    {
      b := reader == writer;
    }

    /** The first `n` live bytes, as the fragment callback receives them. */
    method Front(n: nat) returns (s: seq<byte>)
      requires Valid() && n <= |content|
      ensures s == content[..n]
    {
      s := buffer[reader..reader + n];
    }

    /** Changes the capacity and keeps the bytes below both capacities. */
    method Resize(size: nat)
      modifies this`buffer
      ensures fresh(buffer) && buffer.Length == size
      ensures forall i :: 0 <= i < size && i < old(buffer.Length) ==> buffer[i] == old(buffer[i])
    {
      var src := buffer;
      var dst := new byte[size](_ => 0);
      var n := if size < src.Length then size else src.Length;
      for i := 0 to n
        invariant forall j :: 0 <= j < i ==> dst[j] == src[j]
      {
        dst[i] := src[i];
      }
      buffer := dst;
    }

    /** Grows the storage to exactly fit `len` more bytes when the tail is too short. */
    method Reserve(len: nat)
      requires Valid() && |content| + len <= peak
      modifies this`buffer
      ensures Valid()
      ensures buffer.Length == Max(old(buffer.Length), writer + len)
      ensures buffer == old(buffer) || fresh(buffer)
    {
      if len > buffer.Length - writer {
        Resize(writer + len);
        assert forall i :: reader <= i < writer ==> buffer[i] == old(buffer[i]);
      }
    }

    /** Appends `data`. */
    method Insert(data: seq<byte>)
      requires Valid()
      modifies this, buffer
      ensures Valid() && (buffer == old(buffer) || fresh(buffer))
      ensures content == old(content) + data
      ensures popped == old(popped) && copied == old(copied)
      ensures peak == Max(old(peak), |content|)
      ensures buffer.Length == Max(old(buffer.Length), old(writer) + |data|)
    {
      // Counting the new backlog first makes the grown storage legal already.
      peak := Max(peak, |content| + |data|);
      Reserve(|data|);
      FillAndPush(data);
    }

    /** The kernel writes `data` into the free tail; the indices do not move. */
    method Fill(data: seq<byte>)
      requires Valid() && |data| <= buffer.Length - writer
      modifies buffer
      ensures Valid()
      ensures buffer[writer..writer + |data|] == data
    {
      for i := 0 to |data|
        invariant forall j :: reader <= j < writer ==> buffer[j] == old(buffer[j])
        invariant forall j :: 0 <= j < i ==> buffer[writer + j] == data[j]
      {
        buffer[writer + i] := data[i];
      }
    }

    /** Makes `len` bytes already written behind the data part of it. */
    method Push(len: nat)
      requires Valid() && len <= buffer.Length - writer
      modifies this
      ensures Valid() && buffer == old(buffer)
      ensures content == old(content) + old(buffer[writer..writer + len])
      ensures popped == old(popped) && copied == old(copied)
      ensures peak == Max(old(peak), |content|)
      ensures writer == old(writer) + len
    {
      content := content + buffer[writer..writer + len];
      writer := writer + len;
      peak := Max(peak, |content|);
    }

    /** Data that fits the free tail is written there and pushed. */
    method FillAndPush(data: seq<byte>)
      requires Valid() && |data| <= buffer.Length - writer
      modifies this, buffer
      ensures Valid() && buffer == old(buffer)
      ensures content == old(content) + data
      ensures popped == old(popped) && copied == old(copied)
      ensures peak == Max(old(peak), |content|)
    {
      Fill(data);
      Push(|data|);
    }

    /** Drops the first `len` bytes, or everything when fewer are held. */
    method Pop(len: nat)
      requires Valid()
      modifies this, buffer
      ensures Valid() && (buffer == old(buffer) || fresh(buffer))
      ensures content == old(content)[Min(len, |old(content)|)..]
      ensures popped == old(popped) + Min(len, |old(content)|)
      ensures peak == old(peak)
      // Data is moved exactly when the gap would exceed half of the storage, and then
      // the moved bytes are fewer than the gap they go to.
      ensures var moves := len < |old(content)| && 2 * (old(reader) + len) > old(buffer.Length);
              && copied == old(copied) + (if moves then |content| else 0)
              && (moves ==> |content| < old(reader) + len)
      // Only a drain may change the capacity, and it follows the shrink schedule.
      ensures if len >= |old(content)|
              then (buffer.Length, shrinkCount) == AfterDrain(old(buffer.Length), old(shrinkCount), initialSize)
              else buffer.Length == old(buffer.Length) && shrinkCount == old(shrinkCount)
    {
      popped := popped + Min(len, |content|);
      content := content[Min(len, |content|)..];
      reader := reader + len;
      if reader >= writer {
        Shrink();
        reader := 0;
        writer := 0;
        return;
      }
      if reader > buffer.Length / 2 {
        Compact();
      }
    }

    /** Drops everything and keeps the storage. */
    method Clear()
      requires Valid()
      modifies this
      ensures Valid() && buffer == old(buffer)
      ensures content == []
      ensures popped == old(popped) && copied == old(copied) && peak == old(peak)
      ensures shrinkCount == old(shrinkCount)
    {
      reader := 0;
      writer := 0;
      content := [];
    }

    /** Moves the live bytes to the front; the source and target ranges are disjoint. */
    method Compact()
      requires buffer.Length / 2 < reader <= writer <= buffer.Length
      modifies this`reader, this`writer, this`copied, buffer
      ensures reader == 0 && writer == old(writer - reader)
      ensures writer < old(reader)
      ensures buffer[..writer] == old(buffer[reader..writer])
      ensures copied == old(copied) + writer
    {
      var len := writer - reader;
      for i := 0 to len
        modifies buffer
        invariant forall j :: 0 <= j < i ==> buffer[j] == old(buffer[reader + j])
        invariant forall j :: reader <= j < writer ==> buffer[j] == old(buffer[j])
      {
        buffer[i] := buffer[reader + i];
      }
      reader := 0;
      writer := len;
      copied := copied + len;
    }

    /** Counts a drain of an oversized buffer and halves the storage on every eleventh. */
    method Shrink()
      requires initialSize <= buffer.Length
      modifies this`buffer, this`shrinkCount
      ensures (buffer.Length, shrinkCount) == AfterDrain(old(buffer.Length), old(shrinkCount), initialSize)
      ensures buffer == old(buffer) || fresh(buffer)
    {
      if buffer.Length <= initialSize {
        shrinkCount := 0;
        return;
      }
      if shrinkCount < SHRINK_THRESHOLD {
        shrinkCount := shrinkCount + 1;
        return;
      }
      shrinkCount := 0;
      var half := buffer.Length / SHRINK_DIVISOR;
      Resize(if half < initialSize then initialSize else half);
    }
  }

  lemma {:induction false} AfterDrainsSplit(size: nat, count: nat, initial: nat, m: nat, n: nat)
    ensures AfterDrains(size, count, initial, m + n) ==
            var (s, c) := AfterDrains(size, count, initial, m); AfterDrains(s, c, initial, n)
    decreases m
  {
    if m > 0 {
      var (s, c) := AfterDrain(size, count, initial);
      AfterDrainsSplit(s, c, initial, m - 1, n);
    }
  }

  /** A burst is kept for ten drains after it, and the eleventh halves the storage, never below the initial size. */
  lemma TenDrainsKeep(size: nat, initial: nat, n: nat)
    requires initial < size && n <= 10
    ensures AfterDrains(size, 0, initial, n).0 == size
    ensures AfterDrains(size, 0, initial, 11) == (if size / 2 < initial then initial else size / 2, 0)
  {
    DrainsBelowThreshold(size, 0, initial, n);
    DrainsBelowThreshold(size, 0, initial, 10);
    AfterDrainsSplit(size, 0, initial, 10, 1);
    var half := Max(size / 2, initial);
    assert AfterDrains(size, 10, initial, 1) == AfterDrains(half, 0, initial, 0);
  }

  /** `n` drains that stay below the threshold only advance the counter. */
  lemma {:induction false} DrainsBelowThreshold(size: nat, count: nat, initial: nat, n: nat)
    requires initial < size && count + n <= SHRINK_THRESHOLD
    ensures AfterDrains(size, count, initial, n) == (size, count + n)
    decreases n
  {
    if n > 0 {
      DrainsBelowThreshold(size, count + 1, initial, n - 1);
    }
  }

  /** Eleven drains halve the storage at least once and leave a legal counter. */
  lemma ElevenDrainsHalve(size: nat, count: nat, initial: nat)
    requires initial <= size && count <= SHRINK_THRESHOLD
    ensures var (s, c) := AfterDrains(size, count, initial, 11);
            initial <= s && c <= SHRINK_THRESHOLD && s - initial <= (size - initial) / 2
  {
    if size == initial {
      DrainsKeepInitial(initial, count, 11);
    } else {
      var m := SHRINK_THRESHOLD - count;
      DrainsBelowThreshold(size, count, initial, m);
      AfterDrainsSplit(size, count, initial, m, count + 1);
      var s := Max(size / 2, initial);
      assert AfterDrains(size, SHRINK_THRESHOLD, initial, count + 1) == AfterDrains(s, 0, initial, count);
      if s == initial {
        DrainsKeepInitial(initial, 0, count);
      } else {
        DrainsBelowThreshold(s, 0, initial, count);
      }
    }
  }

  /** A buffer at its initial size keeps it. */
  lemma {:induction false} DrainsKeepInitial(initial: nat, count: nat, n: nat)
    ensures AfterDrains(initial, count, initial, n) == (initial, if n == 0 then count else 0)
    decreases n
  {
    if n > 0 {
      DrainsKeepInitial(initial, 0, n - 1);
    }
  }

  /** A burst is given back: 11 * k drains shrink any excess below 2^k to nothing. */
  lemma {:induction false} DrainsRestoreInitialSize(size: nat, count: nat, initial: nat, k: nat)
    requires initial <= size && count <= SHRINK_THRESHOLD
    requires size - initial < Pow2(k)
    ensures AfterDrains(size, count, initial, 11 * k).0 == initial
    decreases k
  {
    if k > 0 {
      var (s, c) := AfterDrains(size, count, initial, 11);
      ElevenDrainsHalve(size, count, initial);
      AfterDrainsSplit(size, count, initial, 11, 11 * (k - 1));
      DrainsRestoreInitialSize(s, c, initial, k - 1);
    }
  }

  /**
   * The scatter read of stream_recv: the kernel fills the free tail first and a stack buffer with
   * the rest, which is then inserted. Either way exactly the bytes read are appended.
   */
  method ReadInto(b: StreamBuffer, data: seq<byte>) returns (spilled: bool)
    requires b.Valid()
    modifies b, b.buffer
    ensures b.Valid() && (b.buffer == old(b.buffer) || fresh(b.buffer))
    ensures b.content == old(b.content) + data
    ensures b.popped == old(b.popped) && b.copied == old(b.copied)
    ensures b.peak == Max(old(b.peak), |b.content|)
    ensures spilled <==> |data| > old(b.buffer.Length - b.writer)
  {
    var space := b.Space();
    spilled := |data| > space;
    if spilled {
      b.FillAndPush(data[..space]);
      b.Insert(data[space..]);
      assert data == data[..space] + data[space..];
    } else {
      b.FillAndPush(data);
    }
  }

  /** What a user of the buffer can ask for. */
  datatype Op = Append(data: seq<byte>) | Drop(len: nat) | Reset

  /** The plain byte queue the buffer stands for. */
  function Apply(q: seq<byte>, op: Op): seq<byte> {
    match op
    case Append(data) => q + data
    case Drop(len) => q[Min(len, |q|)..]
    case Reset => []
  }

  function Queue(ops: seq<Op>): seq<byte> {
    if ops == [] then [] else Apply(Queue(ops[..|ops| - 1]), ops[|ops| - 1])
  }

  /** The largest length the plain queue reaches. */
  function PeakBacklog(ops: seq<Op>): nat {
    if ops == [] then 0 else Max(PeakBacklog(ops[..|ops| - 1]), |Queue(ops)|)
  }

  /** The number of bytes the plain queue hands out. */
  function TotalDropped(ops: seq<Op>): nat {
    if ops == [] then 0
    else
      var before := ops[..|ops| - 1];
      TotalDropped(before) + match ops[|ops| - 1]
                             case Drop(len) => Min(len, |Queue(before)|)
                             case _ => 0
  }

  /**
   * Every run from a fresh buffer holds what the plain queue holds, in storage of at most the
   * initial size or twice the largest backlog, and moves no more bytes than were taken out.
   */
  method Replay(size: nat, ops: seq<Op>) returns (b: StreamBuffer, storage: nat)
    ensures fresh(b) && b.Valid() && fresh(b.buffer) && b.content == Queue(ops)
    ensures storage == b.buffer.Length <= Max(size, 2 * PeakBacklog(ops))
    ensures b.copied <= TotalDropped(ops)
  {
    b := new StreamBuffer(size);
    for i := 0 to |ops|
      invariant fresh(b) && b.Valid() && fresh(b.buffer) && b.initialSize == size
      invariant b.content == Queue(ops[..i])
      invariant b.peak == PeakBacklog(ops[..i]) && b.popped == TotalDropped(ops[..i])
    {
      assert ops[..i + 1][..i] == ops[..i];
      match ops[i]
      case Append(data) =>
        if * {
          b.Insert(data);
        } else {
          var spilled := ReadInto(b, data);
        }
      case Drop(len) => b.Pop(len);
      case Reset => b.Clear();
    }
    assert ops[..|ops|] == ops;
    storage := b.buffer.Length;
  }
}
