/**
 * Readers of a FlexBuffer (Common/library/flatbuffers/flexbuffers.h), and what a tree of values looks
 * like through them. A pointer is an index; a read that leaves the buffer, undefined in the original,
 * yields `None`.
 */
module FlexReader {
  import opened Wrappers
  import opened Bytes
  import opened FlexFormat

  /** A value as a client sees it. The members of a map are listed in the order of their keys. */
  datatype Flex =
    | FNull
    | FBool(x: bool)
    | FInt(i: int)
    | FUInt(u: nat)
    | FKey(k: seq<byte>)
    | FString(s: seq<byte>)
    | FVector(elems: seq<Flex>)
    | FMap(keys: seq<seq<byte>>, values: seq<Flex>)

  // ---------------------------------------------------------------- accessors

  datatype Ref = Ref(data: int, parentWidth: nat, byteWidth: nat, ftype: nat)

  datatype Sized = Sized(data: int, byteWidth: nat, size: nat)

  /** The scalar size ReadSizedScalar chooses. */
  function ScalarSize(byteWidth: nat): nat {
    if byteWidth < 4 then (if byteWidth < 2 then 1 else 2) else (if byteWidth < 8 then 4 else 8)
  }

  function ReadUInt64(b: seq<byte>, p: int, byteWidth: nat): Option<nat> {
    ReadU(b, p, ScalarSize(byteWidth))
  }

  function ReadInt64(b: seq<byte>, p: int, byteWidth: nat): Option<int> {
    ReadS(b, p, ScalarSize(byteWidth))
  }

  function Indirect(b: seq<byte>, p: int, byteWidth: nat): Option<int> {
    var offset :- ReadUInt64(b, p, byteWidth);
    Some(p - offset)
  }

  function PackedRef(data: int, parentWidth: nat, packed: byte): Ref {
    var bw: BitWidth := packed % 4;
    Ref(data, parentWidth, ByteWidth(bw), packed / 4)
  }

  function NullRef(): Ref {
    Ref(0, 1, 1, FBT_NULL)
  }

  function GetRoot(b: seq<byte>): Option<Ref> {
    if |b| < 2 then None
    else Some(PackedRef(|b| - 2 - b[|b| - 1], b[|b| - 1], b[|b| - 2]))
  }

  /** The bytes up to the terminator. */
  function CStr(b: seq<byte>, p: int): Option<seq<byte>>
    decreases |b| - p
  {
    if p < 0 || p >= |b| then None
    else if b[p] == 0 then Some([])
    else
      var rest :- CStr(b, p + 1);
      Some([b[p]] + rest)
  }

  /** An object behind its size prefix. */
  function SizedAt(b: seq<byte>, pos: int, byteWidth: nat): Option<Sized> {
    var n :- ReadUInt64(b, pos - byteWidth, byteWidth);
    Some(Sized(pos, byteWidth, n))
  }

  function StringAt(b: seq<byte>, pos: int, byteWidth: nat): Option<seq<byte>> {
    var s :- SizedAt(b, pos, byteWidth);
    if 0 <= pos && pos + s.size < |b| && b[pos + s.size] == 0 then Some(b[pos..pos + s.size]) else None
  }

  /** Vector::operator[]. */
  function VectorGet(b: seq<byte>, v: Sized, i: nat): Option<Ref> {
    if i >= v.size then Some(NullRef())
    else
      var packed :- ReadU(b, v.data + v.size * v.byteWidth + i, 1);
      if packed < 256 then Some(PackedRef(v.data + i * v.byteWidth, v.byteWidth, packed)) else None
  }

  /** Map::Keys. */
  function Keys(b: seq<byte>, v: Sized): Option<Sized> {
    var keysOffset := v.data - v.byteWidth * 3;
    var pos :- Indirect(b, keysOffset, v.byteWidth);
    var width :- ReadUInt64(b, keysOffset + v.byteWidth, v.byteWidth);
    SizedAt(b, pos, width % 256)
  }

  /** An element of the vector of keys, as its characters. */
  function KeyGet(b: seq<byte>, keys: Sized, i: nat): Option<seq<byte>> {
    var pos :- Indirect(b, keys.data + i * keys.byteWidth, keys.byteWidth);
    CStr(b, pos)
  }

  // ------------------------------------------------------------------ meaning

  /** A scalar of that width, or what follows one, can be there: misaligned reads are undefined, too. */
  predicate InPlace(pos: int, width: nat) {
    width > 0 && pos % width == 0
  }

  /** A client that follows `r` with the accessors of its type finds exactly the value `t`. */
  ghost predicate Denotes(b: seq<byte>, r: Ref, t: Flex)
    decreases t, 1
  {
    match t
    case FNull => r.ftype == FBT_NULL
    case FBool(x) =>
      r.ftype == FBT_BOOL && InPlace(r.data, r.parentWidth) && ReadUInt64(b, r.data, r.parentWidth).Some?
      && (x <==> ReadUInt64(b, r.data, r.parentWidth).value != 0)
    case FInt(i) =>
      r.ftype == FBT_INT && InPlace(r.data, r.parentWidth) && ReadInt64(b, r.data, r.parentWidth) == Some(i)
    case FUInt(u) =>
      r.ftype == FBT_UINT && InPlace(r.data, r.parentWidth) && ReadUInt64(b, r.data, r.parentWidth) == Some(u)
    case _ =>
      && InPlace(r.data, r.parentWidth) && Indirect(b, r.data, r.parentWidth).Some?
      && Target(b, Indirect(b, r.data, r.parentWidth).value, r.byteWidth, r.ftype, t)
  }

  /** The object at `pos`, of that element width and type, is the value `t`. */
  ghost predicate Target(b: seq<byte>, pos: int, byteWidth: nat, ftype: nat, t: Flex)
    decreases t, 0
  {
    match t
    case FKey(k) => ftype == FBT_KEY && CStr(b, pos) == Some(k)
    case FString(s) => ftype == FBT_STRING && InPlace(pos, byteWidth) && StringAt(b, pos, byteWidth) == Some(s)
    case FVector(elems) => ftype == FBT_VECTOR && InPlace(pos, byteWidth) && Elements(b, pos, byteWidth, elems)
    case FMap(keys, values) =>
      && ftype == FBT_MAP && InPlace(pos, byteWidth) && |keys| == |values|
      && Elements(b, pos, byteWidth, values)
      && MapKeys(b, pos, byteWidth, keys)
    case _ => false
  }

  /** The vector at `pos` has exactly these elements. */
  ghost predicate Elements(b: seq<byte>, pos: int, byteWidth: nat, elems: seq<Flex>)
    decreases elems
  {
    && SizedAt(b, pos, byteWidth) == Some(Sized(pos, byteWidth, |elems|))
    && forall i :: 0 <= i < |elems| ==>
      var r := VectorGet(b, Sized(pos, byteWidth, |elems|), i);
      r.Some? && Denotes(b, r.value, elems[i])
  }

  ghost predicate MapKeys(b: seq<byte>, pos: int, byteWidth: nat, keys: seq<seq<byte>>) {
    var ks := Keys(b, Sized(pos, byteWidth, |keys|));
    && ks.Some? && ks.value.size == |keys| && ks.value.byteWidth in {1, 2, 4, 8}
    && InPlace(ks.value.data, ks.value.byteWidth)
    && forall i :: 0 <= i < |keys| ==> KeyGet(b, ks.value, i) == Some(keys[i])
  }

  // ------------------------------------------------- a reference has one meaning

  lemma {:induction false} DenotesUnique(b: seq<byte>, r: Ref, t: Flex, t': Flex)
    requires Denotes(b, r, t) && Denotes(b, r, t')
    ensures t == t'
    decreases t
  {
    match t
    case FVector(elems) =>
      var pos := Indirect(b, r.data, r.parentWidth).value;
      ElementsUnique(b, pos, r.byteWidth, elems, t'.elems);
    case FMap(keys, values) =>
      var pos := Indirect(b, r.data, r.parentWidth).value;
      ElementsUnique(b, pos, r.byteWidth, values, t'.values);
      KeysUnique(b, pos, r.byteWidth, keys, t'.keys);
    case _ =>
  }

  lemma {:induction false} ElementsUnique(b: seq<byte>, pos: int, byteWidth: nat, elems: seq<Flex>, elems': seq<Flex>)
    requires Elements(b, pos, byteWidth, elems) && Elements(b, pos, byteWidth, elems')
    ensures elems == elems'
    decreases elems
  {
    forall i | 0 <= i < |elems|
      ensures elems[i] == elems'[i]
    {
      DenotesUnique(b, VectorGet(b, Sized(pos, byteWidth, |elems|), i).value, elems[i], elems'[i]);
    }
  }

  lemma KeysUnique(b: seq<byte>, pos: int, byteWidth: nat, keys: seq<seq<byte>>, keys': seq<seq<byte>>)
    requires |keys| == |keys'| && MapKeys(b, pos, byteWidth, keys) && MapKeys(b, pos, byteWidth, keys')
    ensures keys == keys'
  {
  }

  // ------------------------------------------------------------------- growing

  // Bytes are only ever appended, so whatever could be read before still reads the same.

  lemma ReadUGrows(b: seq<byte>, b': seq<byte>, p: int, w: nat)
    requires b <= b' && ReadU(b, p, w).Some?
    ensures ReadU(b', p, w) == ReadU(b, p, w)
  {
    assert b'[p..p + w] == b[p..p + w];
  }

  lemma {:induction false} CStrGrows(b: seq<byte>, b': seq<byte>, p: int)
    requires b <= b' && CStr(b, p).Some?
    ensures CStr(b', p) == CStr(b, p)
    decreases |b| - p
  {
    if b[p] != 0 {
      CStrGrows(b, b', p + 1);
    }
  }

  lemma StringGrows(b: seq<byte>, b': seq<byte>, pos: int, byteWidth: nat)
    requires b <= b' && StringAt(b, pos, byteWidth).Some?
    ensures StringAt(b', pos, byteWidth) == StringAt(b, pos, byteWidth)
  {
    ReadUGrows(b, b', pos - byteWidth, ScalarSize(byteWidth));
    var n := SizedAt(b, pos, byteWidth).value.size;
    assert b'[pos..pos + n] == b[pos..pos + n];
  }

  lemma MapKeysGrow(b: seq<byte>, b': seq<byte>, pos: int, byteWidth: nat, keys: seq<seq<byte>>)
    requires b <= b' && MapKeys(b, pos, byteWidth, keys)
    ensures MapKeys(b', pos, byteWidth, keys)
  {
    hide ReadU;
    var v := Sized(pos, byteWidth, |keys|);
    var keysOffset, w := pos - byteWidth * 3, ScalarSize(byteWidth);
    ReadUGrows(b, b', keysOffset, w);
    ReadUGrows(b, b', keysOffset + byteWidth, w);
    var ks := Keys(b, v).value;
    ReadUGrows(b, b', ks.data - ks.byteWidth, ScalarSize(ks.byteWidth));
    assert Keys(b', v) == Keys(b, v);
    forall i | 0 <= i < |keys|
      ensures KeyGet(b', ks, i) == Some(keys[i])
    {
      KeyGetGrows(b, b', ks, i);
    }
  }

  lemma KeyGetGrows(b: seq<byte>, b': seq<byte>, ks: Sized, i: nat)
    requires b <= b' && KeyGet(b, ks, i).Some?
    ensures KeyGet(b', ks, i) == KeyGet(b, ks, i)
  {
    hide ReadU, CStr;
    var p := ks.data + i * ks.byteWidth;
    ReadUGrows(b, b', p, ScalarSize(ks.byteWidth));
    CStrGrows(b, b', Indirect(b, p, ks.byteWidth).value);
  }

  lemma {:induction false} DenotesGrows(b: seq<byte>, b': seq<byte>, r: Ref, t: Flex)
    requires b <= b' && Denotes(b, r, t)
    ensures Denotes(b', r, t)
    decreases t, 2
  {
    hide ReadU, Target;
    match t
    case FNull =>
    case FBool(_) => ReadUGrows(b, b', r.data, ScalarSize(r.parentWidth));
    case FInt(_) => ReadUGrows(b, b', r.data, ScalarSize(r.parentWidth));
    case FUInt(_) => ReadUGrows(b, b', r.data, ScalarSize(r.parentWidth));
    case _ =>
      ReadUGrows(b, b', r.data, ScalarSize(r.parentWidth));
      TargetGrows(b, b', Indirect(b, r.data, r.parentWidth).value, r.byteWidth, r.ftype, t);
  }

  lemma {:induction false} TargetGrows(b: seq<byte>, b': seq<byte>, pos: int, byteWidth: nat, ftype: nat, t: Flex)
    requires b <= b' && Target(b, pos, byteWidth, ftype, t)
    ensures Target(b', pos, byteWidth, ftype, t)
    decreases t, 1
  {
    hide Elements, MapKeys, CStr, StringAt;
    match t
    case FKey(_) => CStrGrows(b, b', pos);
    case FString(_) => StringGrows(b, b', pos, byteWidth);
    case FVector(elems) => ElementsGrow(b, b', pos, byteWidth, elems);
    case FMap(keys, values) =>
      ElementsGrow(b, b', pos, byteWidth, values);
      MapKeysGrow(b, b', pos, byteWidth, keys);
  }

  lemma {:induction false} ElementsGrow(b: seq<byte>, b': seq<byte>, pos: int, byteWidth: nat, elems: seq<Flex>)
    requires b <= b' && Elements(b, pos, byteWidth, elems)
    ensures Elements(b', pos, byteWidth, elems)
    decreases elems, 0
  {
    hide ReadU, Denotes;
    ReadUGrows(b, b', pos - byteWidth, ScalarSize(byteWidth));
    var v := Sized(pos, byteWidth, |elems|);
    forall i | 0 <= i < |elems|
      ensures VectorGet(b', v, i).Some? && Denotes(b', VectorGet(b', v, i).value, elems[i])
    {
      assert VectorGet(b, v, i).Some?;
      ReadUGrows(b, b', v.data + v.size * v.byteWidth + i, 1);
      DenotesGrows(b, b', VectorGet(b, v, i).value, elems[i]);
    }
  }
}
