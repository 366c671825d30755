/**
 * Readers of a FlatBuffer: table.h, vector.h, buffer.h and string.h. A pointer is an index into the
 * buffer; a read that leaves the buffer, undefined in the original, yields `None`.
 */
module FlatReader {
  import opened Wrappers
  import opened Bytes

  function GetVTable(b: seq<byte>, p: int): Option<int> {
    var soffset :- ReadS(b, p, 4);
    Some(p - soffset)
  }

  /** The offset of a field inside its table, 0 when the field is not present. */
  function GetOptionalFieldOffset(b: seq<byte>, p: int, field: nat): Option<nat> {
    var vtable :- GetVTable(b, p);
    var vtsize :- ReadU(b, vtable, 2);
    if field < vtsize then ReadU(b, vtable + field, 2) else Some(0)
  }

  function GetField(b: seq<byte>, p: int, field: nat, w: nat, defaultval: nat): Option<nat> {
    var fo :- GetOptionalFieldOffset(b, p, field);
    if fo != 0 then ReadU(b, p + fo, w) else Some(defaultval)
  }

  /** `Some(None)` is the null pointer of a field that is not present. */
  function GetPointer(b: seq<byte>, p: int, field: nat): Option<Option<int>> {
    var fo :- GetOptionalFieldOffset(b, p, field);
    if fo != 0 then
      var o :- ReadU(b, p + fo, 4);
      Some(Some(p + fo + o))
    else
      Some(None)
  }

  function VectorSize(b: seq<byte>, v: int): Option<nat> {
    ReadU(b, v, 4)
  }

  /** An element of a vector of offsets, as the position it refers to. */
  function VectorGet(b: seq<byte>, v: int, i: nat): Option<int> {
    var location := v + 4 + 4 * i;
    var o :- ReadU(b, location, 4);
    Some(location + o)
  }

  /** The characters of a string; its terminator must also be readable. */
  function StringBytes(b: seq<byte>, s: int): Option<seq<byte>> {
    var n :- VectorSize(b, s);
    var terminator :- ReadU(b, s + 4 + n, 1);
    Some(b[s + 4..s + 4 + n])
  }

  function GetRoot(b: seq<byte>): Option<int> {
    var o :- ReadU(b, 0, 4);
    Some(o as int)
  }

  // ------------------------------------------------------------- relocation

  // Every reader follows relative offsets only, so what it reads is unaffected by bytes put in
  // front of the buffer.

  lemma FieldOffsetShift(q: seq<byte>, b: seq<byte>, p: int, field: nat)
    requires GetOptionalFieldOffset(b, p, field).Some?
    ensures GetOptionalFieldOffset(q + b, |q| + p, field) == GetOptionalFieldOffset(b, p, field)
  {
    ReadUShift(q, b, p, 4);
    var vtable := GetVTable(b, p).value;
    ReadUShift(q, b, vtable, 2);
    assert GetVTable(q + b, |q| + p) == Some(|q| + vtable);
    if field < ReadU(b, vtable, 2).value {
      ReadUShift(q, b, vtable + field, 2);
    }
  }

  lemma FieldShift(q: seq<byte>, b: seq<byte>, p: int, field: nat, w: nat, defaultval: nat)
    requires GetField(b, p, field, w, defaultval).Some?
    ensures GetField(q + b, |q| + p, field, w, defaultval) == GetField(b, p, field, w, defaultval)
  {
    FieldOffsetShift(q, b, p, field);
    var fo := GetOptionalFieldOffset(b, p, field).value;
    if fo != 0 {
      ReadUShift(q, b, p + fo, w);
    }
  }

  function Moved(o: Option<int>, d: int): Option<int> {
    match o
    case None => None
    case Some(p) => Some(p + d)
  }

  lemma PointerShift(q: seq<byte>, b: seq<byte>, p: int, field: nat)
    requires GetPointer(b, p, field).Some?
    ensures GetPointer(q + b, |q| + p, field) == Some(Moved(GetPointer(b, p, field).value, |q|))
  {
    FieldOffsetShift(q, b, p, field);
    var fo := GetOptionalFieldOffset(b, p, field).value;
    if fo != 0 {
      ReadUShift(q, b, p + fo, 4);
    }
  }

  lemma VectorGetShift(q: seq<byte>, b: seq<byte>, v: int, i: nat)
    requires VectorGet(b, v, i).Some?
    ensures VectorGet(q + b, |q| + v, i) == Moved(VectorGet(b, v, i), |q|)
  {
    ReadUShift(q, b, v + 4 + 4 * i, 4);
  }

  lemma StringShift(q: seq<byte>, b: seq<byte>, s: int)
    requires StringBytes(b, s).Some?
    ensures StringBytes(q + b, |q| + s) == StringBytes(b, s)
  {
    ReadUShift(q, b, s, 4);
    var n := VectorSize(b, s).value;
    ReadUShift(q, b, s + 4 + n, 1);
    assert (q + b)[|q| + s + 4..|q| + s + 4 + n] == b[s + 4..s + 4 + n];
  }
}
