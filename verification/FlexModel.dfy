/**
 * The builder of a FlexBuffer as functions on its state: the buffer written so far, the stack of
 * values not yet placed in a parent, and the pools of shared keys and strings.
 */
module FlexModel {
  import opened Wrappers
  import opened Bytes
  import opened FlexFormat

  datatype State = State(
    buf: seq<byte>,
    stack: seq<Value>,
    keyPool: seq<nat>,
    stringPool: seq<(nat, nat)>,
    shareKeys: bool,
    shareStrings: bool,
    forceMinBitWidth: BitWidth
  )

  function Init(shareKeys: bool, shareStrings: bool, force: BitWidth): State {
    State([], [], [], [], shareKeys, shareStrings, force)
  }

  // ------------------------------------------------------------------ writing

  function Align(b: seq<byte>, bw: BitWidth): seq<byte> {
    b + Zeros(PaddingBytes(|b|, ByteWidth(bw)))
  }

  /** The bytes WriteAny appends to a buffer of `size` bytes: a scalar, or the distance to an object. */
  function AnyBytes(size: nat, v: Value, bw: BitWidth): (s: seq<byte>)
    ensures |s| == ByteWidth(bw)
  {
    var w := ByteWidth(bw);
    LE(Unsigned(if IsInline(v.ftype) then v.u else size - v.u, w), w)
  }

  /** The values of a vector, each in the next slot. */
  function ElemBytes(size: nat, els: seq<Value>, bw: BitWidth): (s: seq<byte>)
    ensures |s| == Times(|els|, bw)
    decreases |els|
  {
    if els == [] then []
    else AnyBytes(size, els[0], bw) + ElemBytes(size + ByteWidth(bw), els[1..], bw)
  }

  function StoredWidth(v: Value, parent: BitWidth): BitWidth {
    if IsInline(v.ftype) then Wider(v.minWidth, parent) else v.minWidth
  }

  /** Types are below 64. */
  function PackedType(bw: BitWidth, ftype: nat): byte {
    (bw + 4 * ftype) % 256
  }

  function TypeBytes(els: seq<Value>, parent: BitWidth): (s: seq<byte>)
    ensures |s| == |els|
    ensures forall i :: 0 <= i < |els| ==> s[i] == PackedType(StoredWidth(els[i], parent), els[i].ftype)
  {
    seq(|els|, i requires 0 <= i < |els| => PackedType(StoredWidth(els[i], parent), els[i].ftype))
  }

  // ------------------------------------------------------------------ vectors

  /** Every object on the stack has been written. */
  predicate Written(v: Value, size: nat) {
    IsInline(v.ftype) || 0 <= v.u <= size
  }

  predicate AllWritten(els: seq<Value>, size: nat) {
    forall i :: 0 <= i < |els| ==> Written(els[i], size)
  }

  lemma WrittenLater(els: seq<Value>, size: nat, size': nat)
    requires AllWritten(els, size) && size <= size'
    ensures AllWritten(els, size')
  {
  }

  /** The widest of the widths the elements ask for; `index` moves on by `step` from one to the next. */
  function ElemsWidth(els: seq<Value>, size: nat, index: nat, step: nat): BitWidth
    requires AllWritten(els, size)
  {
    if els == [] then 0
    else Wider(ElemWidth(els[0], size, index), ElemsWidth(els[1..], size, index + step, step))
  }

  function PrefixElems(keys: Option<Value>): nat {
    if keys.Some? then 3 else 1
  }

  function VectorWidth(size: nat, els: seq<Value>, step: nat, keys: Option<Value>, force: BitWidth): BitWidth
    requires AllWritten(els, size) && (keys.Some? ==> Written(keys.value, size))
  {
    var own := Wider(force, WidthU(|els|));
    var bw := if keys.Some? then Wider(own, ElemWidth(keys.value, size, 0)) else own;
    Wider(bw, ElemsWidth(els, size, PrefixElems(keys), step))
  }

  /** The keys of a map, by distance and width, and the number of elements. */
  function PrefixBytes(size: nat, n: nat, keys: Option<Value>, bw: BitWidth): seq<byte> {
    var w := ByteWidth(bw);
    (if keys.Some? then
       LE(Unsigned(size - keys.value.u, w), w) + LE(ByteWidth(keys.value.minWidth), w)
     else [])
    + LE(n, w)
  }

  /**
   * Writes the vector of `els`. In a map the keys and values alternate on the stack, so the widths
   * are asked for slots `step` apart although the values end up next to each other.
   */
  function CreateVector(b: seq<byte>, els: seq<Value>, step: nat, typed: bool, keys: Option<Value>, force: BitWidth)
    : (r: (seq<byte>, Value))
    requires AllWritten(els, |b|) && (keys.Some? ==> Written(keys.value, |b|))
    ensures b <= r.0 && Written(r.1, |r.0|)
  {
    var bw := VectorWidth(|b|, els, step, keys, force);
    var head := Align(b, bw);
    var body := head + PrefixBytes(|head|, |els|, keys, bw);
    var all := body + ElemBytes(|body|, els, bw) + (if typed then [] else TypeBytes(els, bw));
    var ftype := if keys.Some? then FBT_MAP else if typed then FBT_VECTOR_KEY else FBT_VECTOR;
    (all, Value(|body|, ftype, bw))
  }

  // ------------------------------------------------------------------- values

  function Push(s: State, v: Value): State {
    s.(stack := s.stack + [v])
  }

  function PushNull(s: State): State {
    Push(s, Value(0, FBT_NULL, 0))
  }

  function PushBool(s: State, x: bool): State {
    Push(s, Value(if x then 1 else 0, FBT_BOOL, 0))
  }

  function PushInt(s: State, i: int): State {
    Push(s, Value(i, FBT_INT, WidthI(i)))
  }

  function PushUInt(s: State, u: nat): State {
    Push(s, Value(u, FBT_UINT, WidthU(u)))
  }

  /** strcmp of the characters at two positions, unsigned. */
  function StrCmp(b: seq<byte>, p: int, q: int): int
    decreases |b| - p
  {
    if p < 0 || p >= |b| || q < 0 || q >= |b| then 0
    else if b[p] != b[q] then b[p] - b[q]
    else if b[p] == 0 then 0
    else StrCmp(b, p + 1, q + 1)
  }

  /** The element of the pool that the ordering does not tell apart from the key at `p`. */
  function FindKey(b: seq<byte>, pool: seq<nat>, p: nat): Option<nat> {
    if pool == [] then None
    else if StrCmp(b, pool[0], p) == 0 then Some(pool[0])
    else FindKey(b, pool[1..], p)
  }

  /** A key, written unless an equal one is shared. */
  function PushKey(s: State, k: seq<byte>): State {
    var sloc := |s.buf|;
    var b := s.buf + k + [0];
    var found := if s.shareKeys then FindKey(b, s.keyPool, sloc) else None;
    match found
    case Some(q) => Push(s, Value(q, FBT_KEY, 0))
    case None =>
      Push(s, Value(sloc, FBT_KEY, 0))
      .(buf := b, keyPool := if s.shareKeys then s.keyPool + [sloc] else s.keyPool)
  }

  /** Strings of equal length whose characters and terminators agree. */
  predicate SameString(b: seq<byte>, x: (nat, nat), y: (nat, nat)) {
    && x.1 == y.1
    && x.0 + x.1 + 1 <= |b| && y.0 + y.1 + 1 <= |b|
    && b[x.0..x.0 + x.1 + 1] == b[y.0..y.0 + y.1 + 1]
  }

  function FindString(b: seq<byte>, pool: seq<(nat, nat)>, x: (nat, nat)): Option<nat> {
    if pool == [] then None
    else if SameString(b, pool[0], x) then Some(pool[0].0)
    else FindString(b, pool[1..], x)
  }

  /** CreateBlob with a terminator. */
  function StringBlob(b: seq<byte>, s: seq<byte>): seq<byte> {
    var bw := WidthU(|s|);
    Align(b, bw) + LE(|s|, ByteWidth(bw)) + s + [0]
  }

  function PushString(st: State, s: seq<byte>): State {
    var bw := WidthU(|s|);
    var b := StringBlob(st.buf, s);
    var sloc := |b| - |s| - 1;
    var found := if st.shareStrings then FindString(b, st.stringPool, (sloc, |s|)) else None;
    match found
    case Some(q) => Push(st, Value(q, FBT_STRING, bw))
    case None =>
      Push(st, Value(sloc, FBT_STRING, bw))
      .(buf := b, stringPool := if st.shareStrings then st.stringPool + [(sloc, |s|)] else st.stringPool)
  }

  // ------------------------------------------------------- vectors and maps

  function EndVector(s: State, start: nat): State
    requires start <= |s.stack| && AllWritten(s.stack[start..], |s.buf|)
  {
    var r := CreateVector(s.buf, s.stack[start..], 1, false, None, s.forceMinBitWidth);
    s.(buf := r.0, stack := s.stack[..start] + [r.1])
  }

  /** The interleaved keys and values from `start` on. */
  function Pairs(stack: seq<Value>): seq<(Value, Value)>
    requires |stack| % 2 == 0
  {
    if stack == [] then [] else [(stack[0], stack[1])] + Pairs(stack[2..])
  }

  lemma {:induction false} PairsHalf(els: seq<Value>)
    requires |els| % 2 == 0
    ensures 2 * |Pairs(els)| == |els|
    decreases |els|
  {
    if els != [] {
      PairsHalf(els[2..]);
    }
  }

  predicate KeyLess(b: seq<byte>, x: Value, y: Value) {
    StrCmp(b, x.u, y.u) < 0
  }

  /** The pair in its place among pairs already in order. */
  function Insert(b: seq<byte>, p: (Value, Value), ps: seq<(Value, Value)>): (r: seq<(Value, Value)>)
    ensures |r| == |ps| + 1 && forall x :: x in r ==> x == p || x in ps
  {
    if ps == [] then [p]
    else if KeyLess(b, ps[0].0, p.0) then [ps[0]] + Insert(b, p, ps[1..])
    else [p] + ps
  }

  function Sort(b: seq<byte>, ps: seq<(Value, Value)>): (r: seq<(Value, Value)>)
    ensures |r| == |ps| && forall x :: x in r ==> x in ps
  {
    if ps == [] then [] else Insert(b, ps[0], Sort(b, ps[1..]))
  }

  function Firsts<A, B>(ps: seq<(A, B)>): (r: seq<A>)
    ensures |r| == |ps| && forall i :: 0 <= i < |ps| ==> r[i] == ps[i].0
  {
    seq(|ps|, i requires 0 <= i < |ps| => ps[i].0)
  }

  function Seconds<A, B>(ps: seq<(A, B)>): (r: seq<B>)
    ensures |r| == |ps| && forall i :: 0 <= i < |ps| ==> r[i] == ps[i].1
  {
    seq(|ps|, i requires 0 <= i < |ps| => ps[i].1)
  }

  lemma SortedWritten(b: seq<byte>, els: seq<Value>, size: nat)
    requires |els| % 2 == 0 && AllWritten(els, size)
    ensures var ps := Sort(b, Pairs(els)); AllWritten(Firsts(ps), size) && AllWritten(Seconds(ps), size)
  {
    var ps := Sort(b, Pairs(els));
    forall i | 0 <= i < |ps|
      ensures Written(ps[i].0, size) && Written(ps[i].1, size)
    {
      assert ps[i] in ps;
      PairsWritten(els, size, ps[i]);
    }
  }

  lemma {:induction false} PairsWritten(els: seq<Value>, size: nat, p: (Value, Value))
    requires |els| % 2 == 0 && AllWritten(els, size) && p in Pairs(els)
    ensures Written(p.0, size) && Written(p.1, size)
    decreases |els|
  {
    if p != (els[0], els[1]) {
      PairsWritten(els[2..], size, p);
    }
  }

  /** The vector of the sorted keys, then the vector of the values in the same order. */
  function MapVectors(b: seq<byte>, els: seq<Value>, force: BitWidth): (r: (seq<byte>, Value))
    requires |els| % 2 == 0 && AllWritten(els, |b|)
    ensures b <= r.0 && Written(r.1, |r.0|)
  {
    SortedWritten(b, els, |b|);
    var ps := Sort(b, Pairs(els));
    var keys := CreateVector(b, Firsts(ps), 2, true, None, force);
    CreateVector(keys.0, Seconds(ps), 2, false, Some(keys.1), force)
  }

  function EndMap(s: State, start: nat): State
    requires start <= |s.stack| && (|s.stack| - start) % 2 == 0 && AllWritten(s.stack[start..], |s.buf|)
  {
    var r := MapVectors(s.buf, s.stack[start..], s.forceMinBitWidth);
    s.(buf := r.0, stack := s.stack[..start] + [r.1])
  }

  /** The root value, its type, and the width of the root slot. */
  function Finish(s: State): seq<byte>
    requires |s.stack| == 1 && AllWritten(s.stack, |s.buf|)
  {
    var v := s.stack[0];
    var bw := ElemWidth(v, |s.buf|, 0);
    var b := Align(s.buf, bw);
    b + AnyBytes(|b|, v, bw) + [PackedType(StoredWidth(v, 0), v.ftype)] + [ByteWidth(bw)]
  }
}
