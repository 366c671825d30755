/** How the scratch pad stores vtable offsets (4 bytes) and field locations (8 bytes, 2 of them padding). */
module ScratchCodec {
  import opened Bytes
  import opened BuilderModel

  function EncodeOffsets(vs: seq<nat>): (s: seq<byte>)
    ensures |s| == 4 * |vs|
  {
    if vs == [] then [] else EncodeOffsets(vs[..|vs| - 1]) + LE(vs[|vs| - 1], 4)
  }

  function EncodeField(f: FieldLoc): (s: seq<byte>)
    ensures |s| == 8
  {
    LE(f.off, 4) + LE(f.id, 2) + Zeros(2)
  }

  function EncodeFields(fs: seq<FieldLoc>): (s: seq<byte>)
    ensures |s| == 8 * |fs|
  {
    if fs == [] then [] else EncodeFields(fs[..|fs| - 1]) + EncodeField(fs[|fs| - 1])
  }

  function EncodeScratch(vs: seq<nat>, fs: seq<FieldLoc>): (s: seq<byte>)
    ensures |s| == 4 * |vs| + 8 * |fs|
  {
    EncodeOffsets(vs) + EncodeFields(fs)
  }

  lemma {:induction false} OffsetSlice(vs: seq<nat>, i: nat)
    requires i < |vs|
    ensures EncodeOffsets(vs)[4 * i..4 * i + 4] == LE(vs[i], 4)
  {
    var last := |vs| - 1;
    if i < last {
      OffsetSlice(vs[..last], i);
    }
  }

  lemma {:induction false} FieldSlice(fs: seq<FieldLoc>, i: nat)
    requires i < |fs|
    ensures EncodeFields(fs)[8 * i..8 * i + 8] == EncodeField(fs[i])
  {
    var last := |fs| - 1;
    if i < last {
      FieldSlice(fs[..last], i);
    }
  }

  /** The `i`-th vtable offset reads back from the scratch pad. */
  lemma ScratchOffset(vs: seq<nat>, fs: seq<FieldLoc>, i: nat)
    requires i < |vs| && vs[i] < TWO_32
    ensures FromLE(EncodeScratch(vs, fs)[4 * i..4 * i + 4]) == vs[i]
  {
    OffsetSlice(vs, i);
    assert EncodeScratch(vs, fs)[4 * i..4 * i + 4] == EncodeOffsets(vs)[4 * i..4 * i + 4];
    Pow256Values();
    FromLEofLE(vs[i], 4);
    SmallMod(vs[i], TWO_32);
  }

  /** So does the `i`-th field location, at its place above the vtable offsets. */
  lemma ScratchField(vs: seq<nat>, fs: seq<FieldLoc>, i: nat)
    requires i < |fs| && fs[i].off < TWO_32 && fs[i].id < TWO_16
    ensures var p := 4 * |vs| + 8 * i; var s := EncodeScratch(vs, fs);
      FromLE(s[p..p + 4]) == fs[i].off && FromLE(s[p + 4..p + 6]) == fs[i].id
  {
    hide LE, FromLE;
    FieldSlice(fs, i);
    var p := 4 * |vs| + 8 * i;
    var s := EncodeScratch(vs, fs);
    var e := EncodeField(fs[i]);
    assert s[p..p + 8] == EncodeFields(fs)[8 * i..8 * i + 8];
    assert s[p..p + 4] == s[p..p + 8][..4] == e[..4] == LE(fs[i].off, 4);
    assert s[p + 4..p + 6] == s[p..p + 8][4..6] == e[4..6] == LE(fs[i].id, 2);
    Pow256Values();
    FromLEofLE(fs[i].off, 4);
    FromLEofLE(fs[i].id, 2);
    SmallMod(fs[i].off, TWO_32);
    SmallMod(fs[i].id, TWO_16);
  }

  lemma PushScratchField(vs: seq<nat>, fs: seq<FieldLoc>, f: FieldLoc)
    ensures EncodeScratch(vs, fs) + EncodeField(f) == EncodeScratch(vs, fs + [f])
  {
    assert (fs + [f])[..|fs|] == fs;
  }

  lemma PushScratchOffset(vs: seq<nat>, v: nat)
    ensures EncodeScratch(vs, []) + LE(v, 4) == EncodeScratch(vs + [v], [])
  {
    assert (vs + [v])[..|vs|] == vs;
  }

  lemma PopScratchFields(vs: seq<nat>, fs: seq<FieldLoc>)
    ensures EncodeScratch(vs, fs)[..4 * |vs|] == EncodeScratch(vs, [])
  {
  }
}
