/**
 * Common/library/flatbuffers/vector_downward.h: one array holding two sequences, the buffer proper,
 * which grows towards lower addresses, and a scratch stack at the low end. Pointers are indices.
 */
module VectorDownwardModule {
  import opened Bytes

  function RoundUp(n: nat, k: nat): (r: nat)
    requires k > 0
    ensures n <= r < n + k && Aligned(r, k)
  {
    DivModUnique((n + k - 1) - (n + k - 1) % k, k, (n + k - 1) / k, 0);
    (n + k - 1) - (n + k - 1) % k
  }

  /** The size of the array after growing: half as much again, or more if `len` bytes need it. */
  function Grown(reserved: nat, len: nat, initialSize: nat, align: nat): (r: nat)
    requires align > 0
    ensures var least := reserved + Max(len, if reserved == 0 then initialSize else reserved / 2);
      least <= r < least + align
    ensures Aligned(r, align) && reserved + len <= r
  {
    RoundUp(reserved + Max(len, if reserved != 0 then reserved / 2 else initialSize), align)
  }

  /** allocator.h: moves the used bytes at both ends of an array into a larger one. */
  method ReallocateDownward(old_p: array<byte>, newSize: nat, inUseBack: nat, inUseFront: nat)
    returns (p: array<byte>)
    requires inUseBack <= old_p.Length <= newSize && inUseFront <= old_p.Length
    requires inUseBack + inUseFront <= newSize
    ensures fresh(p) && p.Length == newSize
    ensures p[newSize - inUseBack..] == old_p[old_p.Length - inUseBack..]
    ensures p[..inUseFront] == old_p[..inUseFront]
  {
    p := new byte[newSize](_ => 0);
    forall i | 0 <= i < inUseBack {
      p[newSize - inUseBack + i] := old_p[old_p.Length - inUseBack + i];
    }
    forall i | 0 <= i < inUseFront {
      p[i] := old_p[i];
    }
    assert forall j :: newSize - inUseBack <= j < newSize ==> p[j] == old_p[j - newSize + old_p.Length];
    SameBack(p[..], old_p[..], inUseBack);
  }

  lemma SameBack(p: seq<byte>, q: seq<byte>, n: nat)
    requires n <= |p| && n <= |q|
    requires forall j :: |p| - n <= j < |p| ==> p[j] == q[j - |p| + |q|]
    ensures p[|p| - n..] == q[|q| - n..]
  {
    var s, t := p[|p| - n..], q[|q| - n..];
    assert |s| == |t|;
    assert forall i :: 0 <= i < n ==> s[i] == t[i];
  }

  class VectorDownward {
    const initialSize: nat
    const bufferMinalign: nat
    var data: array<byte>
    var cur: nat
    var scratch: nat
    var size: nat

    ghost predicate Valid()
      reads this, data
    {
      scratch <= cur <= data.Length && size == data.Length - cur && bufferMinalign > 0
    }

    /** The buffer proper, in memory order. */
    ghost function Back(): (b: seq<byte>)
      requires Valid()
      reads this, data
      ensures |b| == size
    {
      data[cur..]
    }

    /** The scratch stack, bottom first. */
    ghost function Scratch(): (s: seq<byte>)
      requires Valid()
      reads this, data
      ensures |s| == scratch
    {
      data[..scratch]
    }

    constructor (initialSize: nat, bufferMinalign: nat)
      requires bufferMinalign > 0
      ensures Valid() && fresh(data) && Back() == [] && Scratch() == []
      ensures this.initialSize == initialSize && this.bufferMinalign == bufferMinalign
    {
      this.initialSize := initialSize;
      this.bufferMinalign := bufferMinalign;
      data := new byte[0];
      cur, scratch, size := 0, 0, 0;
    }

    /**
     * Grows the array by half, or more if `len` bytes need it, to a multiple of the alignment; neither
     * sequence changes.
     */
    method Reallocate(len: nat)
      requires Valid()
      modifies this
      ensures Valid() && fresh(data) && data.Length == Grown(old(data.Length), len, initialSize, bufferMinalign)
      ensures Back() == old(Back()) && Scratch() == old(Scratch()) && size == old(size)
      ensures cur - scratch >= len + old(cur - scratch)
    {
      hide Grown, Aligned;
      var reserved := Grown(data.Length, len, initialSize, bufferMinalign);
      data := ReallocateDownward(data, reserved, size, scratch);
      cur := reserved - size;
    }

    method EnsureSpace(len: nat)
      requires Valid()
      modifies this
      ensures Valid() && (data == old(data) || fresh(data))
      ensures Back() == old(Back()) && Scratch() == old(Scratch()) && size == old(size)
      ensures cur - scratch >= len
    {
      if len > cur - scratch {
        Reallocate(len);
      }
    }

    /** Makes room for `len` bytes, still to be written, in front of the buffer. */
    method MakeSpace(len: nat)
      requires Valid()
      modifies this
      ensures Valid() && (data == old(data) || fresh(data))
      ensures size == old(size) + len && Back()[len..] == old(Back()) && Scratch() == old(Scratch())
    {
      if len != 0 {
        EnsureSpace(len);
        cur := cur - len;
        size := size + len;
      }
    }

    /** Overwrites bytes of the buffer from index `i` on; WriteScalar through `data()` and `data_at`. */
    method Write(i: nat, bytes: seq<byte>)
      requires Valid() && i + |bytes| <= size
      modifies data
      ensures Valid() && Back() == old(Back())[..i] + bytes + old(Back())[i + |bytes|..]
      ensures Scratch() == old(Scratch())
    {
      forall k | 0 <= k < |bytes| {
        data[cur + i + k] := bytes[k];
      }
    }

    /** Bytes of the buffer from index `i` on; a pointer dereference through `data()` or `data_at`. */
    method Read(i: nat, n: nat) returns (bytes: seq<byte>)
      requires Valid() && i + n <= size
      ensures bytes == Back()[i..i + n]
    {
      bytes := data[cur + i..cur + i + n];
    }

    /** The same for the scratch stack. */
    method ReadScratch(i: nat, n: nat) returns (bytes: seq<byte>)
      requires Valid() && i + n <= scratch
      ensures bytes == Scratch()[i..i + n]
    {
      bytes := data[i..i + n];
    }

    method Push(bytes: seq<byte>)
      requires Valid()
      modifies this, data
      ensures Valid() && (data == old(data) || fresh(data))
      ensures Back() == bytes + old(Back()) && Scratch() == old(Scratch())
    {
      if |bytes| > 0 {
        MakeSpace(|bytes|);
        Write(0, bytes);
      }
    }

    /** The loop of `fill`: clears the first `n` bytes of the buffer. */
    method Clear(n: nat)
      requires Valid() && n <= size
      modifies data
      ensures Valid() && Back() == Zeros(n) + old(Back())[n..] && Scratch() == old(Scratch())
    {
      var i := 0;
      while i < n
        invariant 0 <= i <= n
        invariant forall k :: cur <= k < cur + i ==> data[k] == 0
        invariant forall k :: 0 <= k < data.Length && !(cur <= k < cur + n) ==> data[k] == old(data[k])
      {
        data[cur + i] := 0;
        i := i + 1;
      }
    }

    method Fill(n: nat)
      requires Valid()
      modifies this, data
      ensures Valid() && (data == old(data) || fresh(data))
      ensures Back() == Zeros(n) + old(Back()) && Scratch() == old(Scratch())
    {
      MakeSpace(n);
      Clear(n);
    }

    method Pop(n: nat)
      requires Valid() && n <= size
      modifies this
      ensures Valid() && data == old(data) && Back() == old(Back())[n..] && Scratch() == old(Scratch())
    {
      cur := cur + n;
      size := size - n;
    }

    method ScratchPushSmall(bytes: seq<byte>)
      requires Valid()
      modifies this, data
      ensures Valid() && (data == old(data) || fresh(data))
      ensures Back() == old(Back()) && Scratch() == old(Scratch()) + bytes
    {
      EnsureSpace(|bytes|);
      forall k | 0 <= k < |bytes| {
        data[scratch + k] := bytes[k];
      }
      scratch := scratch + |bytes|;
    }

    method ScratchPop(n: nat)
      requires Valid() && n <= scratch
      modifies this
      ensures Valid() && data == old(data) && Back() == old(Back())
      ensures scratch == old(scratch) - n && Scratch() == old(Scratch())[..scratch]
    {
      scratch := scratch - n;
    }

    method ClearScratch()
      requires Valid()
      modifies this
      ensures Valid() && data == old(data) && Back() == old(Back()) && Scratch() == []
    {
      scratch := 0;
    }
  }

  // ----------------------------------------------------------- whole runs

  datatype Op =
    | Push(bytes: seq<byte>)
    | Fill(n: nat)
    | Pop(n: nat)
    | ScratchPush(bytes: seq<byte>)
    | ScratchPop(n: nat)
    | Reserve(n: nat)

  /** The buffer alone: it does not know about the scratch stack or about reallocation. */
  function BackStep(b: seq<byte>, op: Op): seq<byte> {
    match op
    case Push(bytes) => bytes + b
    case Fill(n) => Zeros(n) + b
    case Pop(n) => if n <= |b| then b[n..] else b
    case _ => b
  }

  /** The scratch stack alone. */
  function ScratchStep(s: seq<byte>, op: Op): seq<byte> {
    match op
    case ScratchPush(bytes) => s + bytes
    case ScratchPop(n) => if n <= |s| then s[..|s| - n] else s
    case _ => s
  }

  function BackRun(b: seq<byte>, ops: seq<Op>): seq<byte>
    decreases |ops|
  {
    if ops == [] then b else BackRun(BackStep(b, ops[0]), ops[1..])
  }

  function ScratchRun(s: seq<byte>, ops: seq<Op>): seq<byte>
    decreases |ops|
  {
    if ops == [] then s else ScratchRun(ScratchStep(s, ops[0]), ops[1..])
  }

  /** The callers' obligation: nothing is popped that was not pushed. */
  predicate PopsOk(b: seq<byte>, s: seq<byte>, ops: seq<Op>)
    decreases |ops|
  {
    ops == [] ||
    ((ops[0].Pop? ==> ops[0].n <= |b|) &&
     (ops[0].ScratchPop? ==> ops[0].n <= |s|) &&
     PopsOk(BackStep(b, ops[0]), ScratchStep(s, ops[0]), ops[1..]))
  }

  method Step(v: VectorDownward, op: Op)
    requires v.Valid()
    requires (op.Pop? ==> op.n <= v.size) && (op.ScratchPop? ==> op.n <= v.scratch)
    modifies v, v.data
    ensures v.Valid() && (v.data == old(v.data) || fresh(v.data))
    ensures v.Back() == BackStep(old(v.Back()), op) && v.Scratch() == ScratchStep(old(v.Scratch()), op)
  {
    match op {
      case Push(bytes) => v.Push(bytes);
      case Fill(n) => v.Fill(n);
      case Pop(n) => v.Pop(n);
      case ScratchPush(bytes) => v.ScratchPushSmall(bytes);
      case ScratchPop(n) => v.ScratchPop(n);
      case Reserve(n) => v.EnsureSpace(n);
    }
  }

  /** Any run on the shared array is two independent runs, wherever growth happens. */
  method Run(v: VectorDownward, ops: seq<Op>)
    requires v.Valid() && PopsOk(v.Back(), v.Scratch(), ops)
    modifies v, v.data
    ensures v.Valid() && v.scratch <= v.cur <= v.data.Length
    ensures v.Back() == BackRun(old(v.Back()), ops)
    ensures v.Scratch() == ScratchRun(old(v.Scratch()), ops)
  {
    hide BackStep, ScratchStep;
    var i := 0;
    assert ops[0..] == ops;
    while i < |ops|
      invariant 0 <= i <= |ops| && v.Valid() && (v.data == old(v.data) || fresh(v.data))
      invariant PopsOk(v.Back(), v.Scratch(), ops[i..])
      invariant BackRun(v.Back(), ops[i..]) == BackRun(old(v.Back()), ops)
      invariant ScratchRun(v.Scratch(), ops[i..]) == ScratchRun(old(v.Scratch()), ops)
    {
      assert ops[i..][1..] == ops[i + 1..] && ops[i..][0] == ops[i];
      Step(v, ops[i]);
      i := i + 1;
    }
    assert ops[i..] == [];
  }

  predicate NeverBelow(b: seq<byte>, ops: seq<Op>, k: nat)
    decreases |ops|
  {
    k <= |b| && (ops == [] || NeverBelow(BackStep(b, ops[0]), ops[1..], k))
  }

  lemma StepTail(b: seq<byte>, op: Op, k: nat)
    requires k <= |b| && k <= |BackStep(b, op)|
    ensures BackStep(b, op)[|BackStep(b, op)| - k..] == b[|b| - k..]
  {
    hide Zeros;
    match op
    case Push(bytes) => PrefixTail(bytes, b, k);
    case Fill(n) => PrefixTail(Zeros(n), b, k);
    case Pop(n) => if n <= |b| { PrefixTail(b[..n], b[n..], k); assert b[..n] + b[n..] == b; }
    case _ =>
  }

  lemma PrefixTail(p: seq<byte>, b: seq<byte>, k: nat)
    requires k <= |b|
    ensures (p + b)[|p + b| - k..] == b[|b| - k..]
  {
  }

  /** Bytes at a fixed distance from the end never change until the buffer is popped below them. */
  lemma {:induction false} TailKept(b: seq<byte>, ops: seq<Op>, k: nat)
    requires NeverBelow(b, ops, k)
    ensures k <= |BackRun(b, ops)| && BackRun(b, ops)[|BackRun(b, ops)| - k..] == b[|b| - k..]
    decreases |ops|
  {
    hide BackStep;
    if ops != [] {
      StepTail(b, ops[0], k);
      TailKept(BackStep(b, ops[0]), ops[1..], k);
    }
  }
}
