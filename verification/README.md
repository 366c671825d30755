# Wire format and document code of the game server

The lobby server sends every message as a FlatBuffer, and carries FlatBuffers, FlexBuffers and a JSON
library in its source tree. This project models that code in Dafny and proves what a peer that
receives the bytes relies on. `dafny verify dfyconfig.toml` checks all of it.

There are four parts. Each has functions that say what an operation computes, classes and methods with
the loops and in-place updates of the source that are proved to compute those functions, and lemmas
about the functions.

**FlatBuffers and the lobby messages.** `BuilderModel` gives the state of a 32-bit builder as a value and
every operation as a function on it; `FlatBufferBuilder` (over `VectorDownward`, one array holding the
buffer and the scratch pad) is the object itself. `Tables`, `Fields`, `Objects`, `FinishLemmas` and `Runs`
prove that whatever a run of calls makes can be read back, through vtables stored once each, however the
buffer grows afterwards; `FinishedRuns` takes such a run through Finish, with everything aligned from the
front. `FlatVerifier`, `Messages` and `VerifierClass` are the checker of untrusted bytes, and `Placement`
says, with positions only, which bytes it accepts: exactly those. `LobbyModel`, `ItemBreakModel` and `LobbyProtocol` build the actual packets: they read back as the
items they were made from, and the checker accepts them; `LobbySizes` bounds them by what they are made
from, and `FlatExamples` has two of them byte by byte. Offsets are counted from the end of the buffer,
as the builder counts them, because bytes are only ever put in front.

**FlexBuffers.** `FlexFormat` chooses element widths while the width changes the distance being measured;
`FlexModel` and `FlexBuilder` are the stack-based builder; `FlexReader` holds the accessors and says when
a reference denotes a value tree. `FlexRuns` proves the builder follows a stack machine on trees and that
the finished buffer denotes exactly the tree left; `FlexTrees` that every tree can be built; `FlexLookup`
that binary search in a map finds what a scan of the added members would; `FlexWidths` when a vector is as
narrow as it can be, and `FlexWiderMap` a run that makes a map wider than that; `FlexSizes` bounds a buffer by
the calls or the tree it is made from; `FlexSharing` shows that what is shared is written once; `FlexExamples`
has whole buffers byte by byte.

**JSON patches.** `Json` and `JsonDiff` hold patch operations on documents (RFC 6902) and the difference of
two documents as a patch; `JsonLaws` what each operation does, by what is found where before and after it;
`JsonMerge` the merge patch (RFC 7396); `JsonDocument` the object patched in
place. Objects are maps, and every statement holds for any order in which members are visited, which may
differ from object to object even where the keys are the same.

**UTF-8 and JSON strings.** `Utf8` holds both conversions with their bit operations, against the grammar of
RFC 3629; `JsonEscape` the escaping of text, against the reading of strings in RFC 8259.

Pointers are indices. A read outside the buffer, which is undefined in C++, yields `None`; a FlexBuffer
reference denotes a tree only if every scalar and length on the way is aligned to its width. Scalars are
little-endian bytes of an explicit width, and signed values are two's complement of that width.

## What turned out to hold only under a condition

- A vtable's own size is a 16-bit number, so a field whose vtable offset is 65534 makes it wrap
  (`Tables.VTableSizeCovers`: the size covers every slot exactly when the largest offset is below 65534).
  Such a vtable says it has four bytes, and a reader finds the field absent (`Tables.LargestFieldLost`). Its
  slot is written all the same, 65534 bytes in: over two bytes of what is stored behind the vtable, which
  itself does not change (`Tables.LargestFieldOverwrites`), or past the buffer if less is stored there.
- Text escaped with `natural_utf8` is a JSON string that reads back as the text exactly when the text is
  well-formed and has no control character without a two-character escape, because such characters are
  copied as they are (`JsonEscape.ControlCopied` for the character 1); without `natural_utf8` well-formed
  text alone suffices. Text accepted only because malformed bytes are allowed is never a JSON string: `\x`
  is no escape of RFC 8259 (`JsonEscape.EscapeReadsBack`).
- EndVector finds the least width that holds the vector (`FlexWidths.EndVectorNarrowest`). EndMap asks about
  the slots `3 + 2i` although it uses the slots `3 + i`, since keys and values alternate on the stack; its
  vectors have the least width exactly when no distance from a slot asked about overflows the width that
  all distances from the slots used fit (`FlexWidths.EndMapNarrowestIff`). Sharing strings, a string of 213
  characters followed by a map from eight keys of one character to that string makes a map of two bytes a
  value where one byte is enough (`FlexWiderMap.WiderMapIsReached`). The offsets fit in any case
  (`FlexFormat.ElemWidthFits`).
- A FlexBuffer key reads back as itself exactly when it has no zero byte (`FlexRuns.KeyReadsBack`): "a", a
  zero byte and "b" read back as "a" (`FlexRuns.ZeroByteCutsKey`). The round trip is stated for keys without
  zero bytes, which is what C strings are.

## Model

| member | source | states |
|---|---|---|
| Bytes.PaddingBitsIsNegation | Common/library/flatbuffers/base.h:458-460 | the bit trick is `-n mod k` for every supported alignment |
| Bytes.PaddingLeast | Common/library/flatbuffers/base.h:458-460 | the padding is the least that reaches the alignment |
| Bytes.FromLEofLE | Common/library/flatbuffers/base.h:427-443 | a stored scalar reads back as its low-order bytes |
| Bytes.LEofFromLE | Common/library/flatbuffers/base.h:427-443 | what was read, stored again, is the same bytes |
| Bytes.SignedOfUnsigned | Common/library/flatbuffers/base.h:427-443 | a signed value in range survives its bit pattern |
| VectorDownwardModule.ReallocateDownward | Common/library/flatbuffers/allocator.h:41-63 | both ends in use are copied into the larger array |
| VectorDownwardModule.Grown | Common/library/flatbuffers/vector_downward.h:269-284 | the array grows by half, or by more if the bytes asked for need it, to the next multiple of the alignment |
| VectorDownwardModule.VectorDownward.Reallocate | Common/library/flatbuffers/vector_downward.h:269-284 | growth to that size gives at least `len` more free bytes and changes neither sequence |
| VectorDownwardModule.VectorDownward.EnsureSpace | Common/library/flatbuffers/vector_downward.h:141-148 | at least `len` bytes are free afterwards, contents unchanged |
| VectorDownwardModule.VectorDownward.MakeSpace | Common/library/flatbuffers/vector_downward.h:150-157 | the old buffer follows the new room, scratch unchanged |
| VectorDownwardModule.VectorDownward.Push | Common/library/flatbuffers/vector_downward.h:195-203 | the bytes stand in front of the buffer |
| VectorDownwardModule.VectorDownward.Fill | Common/library/flatbuffers/vector_downward.h:213-222 | zeros stand in front of the buffer |
| VectorDownwardModule.VectorDownward.Pop | Common/library/flatbuffers/vector_downward.h:224-227 | the front of the buffer is dropped |
| VectorDownwardModule.VectorDownward.ScratchPushSmall | Common/library/flatbuffers/vector_downward.h:205-209 | the scratch stack grows, the buffer does not change |
| VectorDownwardModule.VectorDownward.ScratchPop | Common/library/flatbuffers/vector_downward.h:229 | the top of the scratch stack is dropped |
| VectorDownwardModule.Run | Common/library/flatbuffers/vector_downward.h:141-284 | any run on the one array is a run on the buffer and an independent run on the scratch stack, and `buf <= scratch <= cur` |
| VectorDownwardModule.TailKept | Common/library/flatbuffers/vector_downward.h:193-227 | bytes at a fixed distance from the end never change until popped |
| ScratchCodec.ScratchOffset | Common/library/flatbuffers/flatbuffer_builder.h:457-459 | a remembered vtable offset reads back from the scratch pad |
| ScratchCodec.ScratchField | Common/library/flatbuffers/flatbuffer_builder.h:440-442 | so does a field location, above the vtable offsets |
| TableLemmas.FillVTableSlot | Common/library/flatbuffers/flatbuffer_builder.h:440-451 | each slot holds the distance to its field, other slots are untouched |
| TableLemmas.BuildVTableSlots | Common/library/flatbuffers/flatbuffer_builder.h:426-451 | a finished vtable holds its size, the table's size, and one slot for each field, 0 for absent ones |
| TableLemmas.FindVTableSound | Common/library/flatbuffers/flatbuffer_builder.h:458-470 | the search returns a remembered vtable with equal bytes, or there is none |
| TableLemmas.WellFormedGrows | Common/library/flatbuffers/flatbuffer_builder.h:289-327 | putting bytes in front keeps every stored vtable and shared string |
| Tables.VTableSizeCovers | Common/library/flatbuffers/flatbuffer_builder.h:430-433 | the 16-bit vtable size covers all slots exactly when the largest field offset is below 65534 |
| Tables.LargestFieldLost | Common/library/flatbuffers/flatbuffer_builder.h:430-433 | at 65534 the vtable says four bytes and a reader finds the stored field absent |
| Tables.LargestFieldOverwrites | Common/library/flatbuffers/flatbuffer_builder.h:440-451 | the slot at 65534 is written into what is stored behind the four bytes of the vtable, which stay as they are |
| Tables.EndTableLinks | Common/library/flatbuffers/flatbuffer_builder.h:418-484 | the table's signed offset leads to stored bytes equal to the vtable just built, whether found or new, and the remembered vtables stay distinct |
| Tables.EndTableField | Common/library/flatbuffers/table.h:35-43 | through that vtable each recorded field is found and every other id is absent |
| Fields.AddAllPlaces | Common/library/flatbuffers/flatbuffer_builder.h:325-346 | after any adds with distinct ids each member is where it was recorded or left out as its default, and nothing else is recorded |
| Fields.CreateTableHolds | Common/library/flatbuffers/flatbuffer_builder.h:409-484 | StartTable, any adds, EndTable: each member reads back, its default if left out, and is left out exactly then; there is no other field, earlier bytes keep their place |
| Objects.CreateStringHolds | Common/library/flatbuffers/flatbuffer_builder.h:530-540 | the new string is aligned, terminated and reads back |
| Objects.CreateSharedStringHolds | Common/library/flatbuffers/flatbuffer_builder.h:604-624 | the offset leads to an aligned, terminated string that reads back as the argument and is the pool's entry; a known string changes neither buffer nor pool, a new one adds one entry |
| Objects.SharedOnce | Common/library/flatbuffers/flatbuffer_builder.h:1331-1341 | equal contents have one offset in the pool and different offsets hold different contents |
| Objects.CreateVectorHolds | Common/library/flatbuffers/flatbuffer_builder.h:786-790 | the vector has the given length and its elements lead to the given objects in order |
| StringOrder.IncomparableIsEqual | Common/library/flatbuffers/buffer.h:79-83 | strings the ordering does not tell apart are equal, so the pool finds exactly the contents |
| StringOrder.LessTransitive | Common/library/flatbuffers/buffer.h:79-83 | the ordering is transitive |
| StringOrder.LessIff | Common/library/flatbuffers/buffer.h:79-83 | a string is less exactly when it ends first or has the smaller byte at the first difference |
| FinishLemmas.FinishHolds | Common/library/flatbuffers/flatbuffer_builder.h:1258-1283 | the finished size is a multiple of the largest alignment used; root offset, size prefix and identifier are where a reader looks; contents unchanged |
| Runs.TableStays | Common/library/flatbuffers/table.h:29-56 | a table reads the same after bytes are put in front |
| Runs.ReadsBackStays | Common/library/flatbuffers/flatbuffer_builder.h:289-327 | every object, shared strings included, reads the same whatever is put in front of it |
| Runs.DescribesStays | Common/library/flatbuffers/flatbuffer_builder.h:409-624 | while the builder is unfinished it also stays in its pool and keeps its remembered vtable |
| Runs.RunHolds | Common/library/flatbuffers/flatbuffer_builder.h:409-624 | after any run, every object made still reads back, every table's vtable is a remembered one, and remembered vtables and shared strings are pairwise distinct |
| FinishedRuns.ReadsBackAligned | Common/library/flatbuffers/flatbuffer_builder.h:289-315 | in a buffer that is a multiple of the largest alignment every length word, element, table, vtable and stored field is at a multiple of its own size |
| FinishedRuns.RunFinished | Common/library/flatbuffers/flatbuffer_builder.h:1258-1283 | after any run and Finish, with any object as the root: every object reads back, everything is aligned from the front, and the root offset leads to the root |
| Keeps.TableIsSmall | Common/library/flatbuffers/flatbuffer_builder.h:434-436 | a table of fewer than 4000 members is below the 64 KiB the library asserts |
| FlatBufferBuilderModule.FlatBufferBuilder.Align | Common/library/flatbuffers/flatbuffer_builder.h:285-292 | pads with zeros to the alignment and tracks it |
| FlatBufferBuilderModule.FlatBufferBuilder.PreAlign | Common/library/flatbuffers/flatbuffer_builder.h:516-520 | pads so that the alignment is reached after `len` more bytes |
| FlatBufferBuilderModule.FlatBufferBuilder.PushElement | Common/library/flatbuffers/flatbuffer_builder.h:309-315 | aligns and writes a scalar |
| FlatBufferBuilderModule.FlatBufferBuilder.TrackField | Common/library/flatbuffers/flatbuffer_builder.h:325-330 | records the field on the scratch pad |
| FlatBufferBuilderModule.FlatBufferBuilder.AddElement | Common/library/flatbuffers/flatbuffer_builder.h:333-337 | a default is left out unless forced, anything else is written and recorded |
| FlatBufferBuilderModule.FlatBufferBuilder.AddOffset | Common/library/flatbuffers/flatbuffer_builder.h:343-346 | a null offset is left out, any other is stored relative to its own place |
| FlatBufferBuilderModule.FlatBufferBuilder.FillVTable | Common/library/flatbuffers/flatbuffer_builder.h:440-451 | the loop over the scratch pad writes every slot |
| FlatBufferBuilderModule.FlatBufferBuilder.FindVTable | Common/library/flatbuffers/flatbuffer_builder.h:458-470 | the loop finds the first remembered vtable with equal size and bytes |
| FlatBufferBuilderModule.FlatBufferBuilder.AttachVTable | Common/library/flatbuffers/flatbuffer_builder.h:452-483 | an equal vtable is reused and the new bytes are popped, otherwise the new one is remembered; the table is linked to it |
| FlatBufferBuilderModule.FlatBufferBuilder.EndTable | Common/library/flatbuffers/flatbuffer_builder.h:418-484 | computes the EndTable of the model in place |
| FlatBufferBuilderModule.FlatBufferBuilder.CreateString | Common/library/flatbuffers/flatbuffer_builder.h:530-540 | computes the CreateString of the model in place |
| FlatBufferBuilderModule.FlatBufferBuilder.CreateSharedString | Common/library/flatbuffers/flatbuffer_builder.h:604-624 | writes, looks up, and takes the bytes back on a hit |
| FlatBufferBuilderModule.FlatBufferBuilder.CreateVector | Common/library/flatbuffers/flatbuffer_builder.h:786-790 | the loop pushes offsets last to first |
| FlatBufferBuilderModule.FlatBufferBuilder.Finish | Common/library/flatbuffers/flatbuffer_builder.h:1258-1283 | computes the Finish of the model in place |
| FlatVerifier.TableStartSound | Common/library/flatbuffers/verifier.h:183-198 | an accepted table has its vtable inside the buffer and every field lookup stays inside, although the subtraction may wrap |
| FlatVerifier.FieldSound | Common/library/flatbuffers/table.h:123-132 | an accepted scalar field can be read |
| FlatVerifier.PointerSound | Common/library/flatbuffers/verifier.h:258-275 | an accepted offset leads inside the buffer |
| FlatVerifier.StringSound | Common/library/flatbuffers/verifier.h:135-159 | an accepted string can be read to its zero terminator |
| FlatVerifier.VectorSound | Common/library/flatbuffers/verifier.h:145-159 | every element of an accepted vector can be read |
| Placement.TableStartIff | Common/library/flatbuffers/verifier.h:183-198 | a table is accepted exactly when it is at a multiple of 4, its true vtable at an even place with an even size, both inside, and the limits allow it |
| Placement.FieldIff | Common/library/flatbuffers/verifier.h:110-115 | a scalar field is accepted exactly when it is absent, or inside at a multiple of its width |
| Placement.OffsetIff | Common/library/flatbuffers/verifier.h:258-275 | an offset is accepted exactly when it is at a multiple of 4, not zero, below 2^31, and leads inside |
| Placement.VectorIff | Common/library/flatbuffers/verifier.h:145-159 | a vector is accepted exactly when its length is aligned, below the limit, and all elements are inside |
| Placement.StringIff | Common/library/flatbuffers/verifier.h:135-142 | a string exactly when besides a zero byte follows it inside the buffer |
| FlatVerifier.DefaultLimits | Common/library/flatbuffers/verifier.h:30-42 | 64 levels, a million tables, alignment checked, 2 GiB |
| Messages.AbsentFields | Common/include/utility/MESSAGE_PROTOCOL_generated.h:789-804 | a field that is not stored reads as zero, false or the null pointer |
| Messages.SlotSound | Common/include/utility/MESSAGE_PROTOCOL_generated.h:796-812 | an accepted slot reads completely, costs one table visit, and the depth is back where it was |
| Messages.SlotsSound | Common/library/flatbuffers/verifier.h:173-180 | so do all elements of the vector, each costing one visit even when they share a table |
| Messages.NoticeTableSound | Common/include/utility/MESSAGE_PROTOCOL_generated.h:870-883 | so does the whole table from any counters within the limit |
| Messages.NoticeBufferSound | Common/library/flatbuffers/verifier.h:243-247 | any accepted byte string reads completely as a NOTICE_INVENTORY and is laid out as `NoticeBufferPlaced` says, every table, vtable, length, element and field aligned; whatever the outcome at most `max_tables` visits pass, and the depth is restored |
| Messages.ItemBreakBufferSound | Common/include/utility/MESSAGE_PROTOCOL_generated.h:1118-1147 | any accepted byte string reads completely as a RESPONSE_ITEM_BREAK and is laid out and aligned in the same way |
| Messages.NoticeBufferIff | Common/library/flatbuffers/verifier.h:204-230 | a NOTICE_INVENTORY is accepted exactly when it is laid out so and its tables and depth are within the limits |
| Messages.ItemBreakBufferIff | Common/include/utility/MESSAGE_PROTOCOL_generated.h:1138-1146 | the same for RESPONSE_ITEM_BREAK |
| VerifierClass.Verifier.VerifyComplexity | Common/library/flatbuffers/verifier.h:280-284 | both counters go up and are compared with their limits |
| VerifierClass.Verifier.VerifyTableStart | Common/library/flatbuffers/verifier.h:183-198 | accepts exactly the tables placed as above while the limits allow it, and counts them |
| VerifierClass.Verifier.VerifySlots | Common/library/flatbuffers/verifier.h:173-180 | the loop computes the check of the model and stops at the first failure |
| VerifierClass.Verifier.VerifyBuffer | Common/library/flatbuffers/verifier.h:243-247 | accepts, without an identifier, exactly the buffers laid out as above within the limits; what is accepted reads completely, the depth is zero again and the tables are within their limit |
| Completeness.TableStartComplete | Common/library/flatbuffers/verifier.h:183-198 | a table the builder made is accepted, alignment checks included |
| Completeness.StringComplete | Common/library/flatbuffers/verifier.h:135-159 | a string the builder made is accepted |
| Completeness.VectorComplete | Common/library/flatbuffers/verifier.h:145-159 | a vector the builder made is accepted |
| LobbyModel.SlotReads | Common/include/utility/MESSAGE_PROTOCOL_generated.h:789-813 | a slot reads back as its item |
| LobbyModel.SlotsRead | Common/src/lobby/LobbyProtocol.cpp:49-56 | the slots read back as the items in order |
| LobbyModel.SlotsVerify | Common/include/utility/MESSAGE_PROTOCOL_generated.h:805-812 | the slots are accepted, one table visit each |
| LobbyModel.NoticeRoundTrip | Common/src/lobby/LobbyProtocol.cpp:44-62 | for every list of items, the empty one included, the finished packet read from its root gives the same guids, seeds and counts in order and the list's length |
| LobbyModel.NoticeVerifies | Common/include/utility/MESSAGE_PROTOCOL_generated.h:876-883 | every such packet within the limits is accepted |
| LobbyModel.NoticeLeavesOut | Common/include/utility/MESSAGE_PROTOCOL_generated.h:839-849 | nothing is stored for a seed or a count of zero, nor for the length of the empty list; everything else is, at the field offsets of the schema |
| FlatExamples.NoticeExample | Common/src/lobby/LobbyProtocol.cpp:44-62 | the packet of one item is these 72 bytes |
| ItemBreakModel.BreakRoundTrip | Common/src/lobby/LobbyProtocol.cpp:101-111 | the response reads back as its four arguments |
| ItemBreakModel.BreakVerifies | Common/include/utility/MESSAGE_PROTOCOL_generated.h:1138-1146 | every response within the limits is accepted |
| ItemBreakModel.BreakLeavesOut | Common/include/utility/MESSAGE_PROTOCOL_generated.h:1177-1189 | nothing is stored for false and zero arguments, everything else is |
| FlatExamples.BreakExample | Common/src/lobby/LobbyProtocol.cpp:101-111 | one response is these 44 bytes |
| LobbySizes.NoticeSize | Common/src/lobby/LobbyProtocol.cpp:44-62 | a packet is no larger than 110 bytes and, for each item, its characters and 92 bytes |
| LobbySizes.NoticeDelivered | Common/src/lobby/LobbyProtocol.cpp:44-62 | every list within that size is accepted and reads back as the list |
| LobbySizes.NoticeAcceptedIff | Common/library/flatbuffers/verifier.h:280-284 | a packet of acceptable size and depth is accepted exactly when its tables are within the limit |
| LobbySizes.NoticeAcceptedByDefault | Common/library/flatbuffers/verifier.h:30-42 | with the default limits, exactly when it has fewer than a million items |
| LobbySizes.BreakSize | Common/src/lobby/LobbyProtocol.cpp:101-111 | a response is no larger than its characters and 142 bytes |
| LobbySizes.BreakDelivered | Common/src/lobby/LobbyProtocol.cpp:101-111 | every response within that size is accepted and reads back as its arguments |
| LobbyProtocol.CreateInventorySlot | Common/include/utility/MESSAGE_PROTOCOL_generated.h:839-849 | the generated calls make the slot's table |
| LobbyProtocol.CreateNoticeInventory | Common/include/utility/MESSAGE_PROTOCOL_generated.h:907-915 | the generated calls make the root table |
| LobbyProtocol.BuildSlots | Common/src/lobby/LobbyProtocol.cpp:46-54 | the loop makes one string and one table for each item |
| LobbyProtocol.NoticeInventory | Common/src/lobby/LobbyProtocol.cpp:44-62 | the packet's body and size are those of the model; the content type is not set |
| LobbyProtocol.ResponseItemBreak | Common/src/lobby/LobbyProtocol.cpp:101-111 | the packet's body, size and content type are those of the response |
| FlexFormat.MasksAreBounds | Common/library/flatbuffers/flexbuffers.h:188-198 | a mask test of WidthU is a bound on the value |
| FlexFormat.WidthUFits | Common/library/flatbuffers/flexbuffers.h:188-198 | WidthU finds the least width that holds the value |
| FlexFormat.WidthIFits | Common/library/flatbuffers/flexbuffers.h:200-203 | the shift and complement of WidthI find the least two's complement width |
| FlexFormat.FirstFitIsSmallest | Common/library/flatbuffers/flexbuffers.h:1525-1552 | the loop returns from inside, with the least width whose own layout makes the offset fit |
| FlexFormat.ElemWidthFits | Common/library/flatbuffers/flexbuffers.h:1458-1462 | an offset that fits the width found fits every wider final width and any nearer slot, so writing it never overflows |
| FlexReader.DenotesUnique | Common/library/flatbuffers/flexbuffers.h:401-420 | a reference denotes at most one tree |
| FlexReader.DenotesGrows | Common/library/flatbuffers/flexbuffers.h:180-186 | appending bytes changes nothing that could be read |
| FlexHolds.SlotDenotes | Common/library/flatbuffers/flexbuffers.h:1564-1573 | a value written in an aligned slot it fits is read back as its tree |
| FlexVectors.ElementDenotes | Common/library/flatbuffers/flexbuffers.h:1647-1656 | every element of a vector is read back as its tree |
| FlexVectors.VectorHolds | Common/library/flatbuffers/flexbuffers.h:1166-1172 | EndVector makes the vector of the trees on the stack |
| FlexVectors.VectorWidthAttained | Common/library/flatbuffers/flexbuffers.h:1611-1626 | the width is one that the forced minimum, the length, the keys or some element asked for |
| FlexWidths.ElemWidthIff | Common/library/flatbuffers/flexbuffers.h:1525-1552 | a width is enough for a slot exactly when it is at least what ElemWidth finds for it |
| FlexWidths.VectorWidthIff | Common/library/flatbuffers/flexbuffers.h:1611-1626 | a width is enough for all slots asked about exactly when it is at least the width found |
| FlexWidths.EndVectorNarrowest | Common/library/flatbuffers/flexbuffers.h:1166-1172 | EndVector's vector can be written at its width and at no smaller one |
| FlexWidths.MapVectorNarrowestIff | Common/library/flatbuffers/flexbuffers.h:1622-1626 | asked two slots apart, a vector gets its least width exactly when no distance from a slot asked about overflows it |
| FlexWidths.EndMapNarrowestIff | Common/library/flatbuffers/flexbuffers.h:1214-1218 | the same for both vectors of EndMap, from the stack and the buffer before the call |
| FlexWiderMap.EndMapIsWider | Common/library/flatbuffers/flexbuffers.h:1214-1218 | in every state with eight keys at 200 to 231 and one string at the front, behind 231 bytes, EndMap takes two bytes a value although one byte is enough |
| FlexWiderMap.WiderMapIsReached | Common/library/flatbuffers/flexbuffers.h:1174-1223 | the calls for a string of 213 characters and a map to it from any eight distinct keys of one character are legal and lead from the empty builder to such a state |
| FlexMaps.KeyVectorHolds | Common/library/flatbuffers/flexbuffers.h:1217 | the typed vector holds exactly the keys, in order |
| FlexMaps.KeysFound | Common/library/flatbuffers/flexbuffers.h:344-351 | from the values the vector of keys is found with its width |
| FlexMaps.MapHolds | Common/library/flatbuffers/flexbuffers.h:1217-1221 | the two vectors together are the map |
| FlexOrder.StrcmpIsOrder | Common/library/flatbuffers/flexbuffers.h:901-906 | strcmp decides the lexicographic order of strings without zero bytes, and equality |
| FlexOrder.SortSorts | Common/library/flatbuffers/flexbuffers.h:1196-1213 | distinct keys end up strictly increasing and no member is lost |
| FlexOrder.SortHolds | Common/library/flatbuffers/flexbuffers.h:1196-1213 | sorting values by keys in the buffer sorts the members they stand for |
| FlexRuns.KeyReadsBack | Common/library/flatbuffers/flexbuffers.h:1073-1075 | a key written with its terminator reads back as itself exactly when it has no zero byte |
| FlexRuns.ZeroByteCutsKey | Common/library/flatbuffers/flexbuffers.h:1073-1075 | "a", a zero byte and "b" read back as "a" |
| FlexRuns.KeyIsShared | Common/library/flatbuffers/flexbuffers.h:1073-1089 | with sharing, a known key takes no room and gets the place it has |
| FlexRuns.StringIsShared | Common/library/flatbuffers/flexbuffers.h:1094-1111 | with sharing, a known string takes no room |
| FlexSharing.KeyWrittenOnce | Common/library/flatbuffers/flexbuffers.h:1073-1089 | with sharing, a key that any call of a run has written takes no more room |
| FlexSharing.StringWrittenOnce | Common/library/flatbuffers/flexbuffers.h:1094-1111 | nor does a string |
| FlexExamples.ScalarExamples | Common/library/flatbuffers/flexbuffers.h:1403-1419 | null, true, 5 and the unsigned 200 byte by byte |
| FlexExamples.StringExample | Common/library/flatbuffers/flexbuffers.h:1094-1111 | a string byte by byte |
| FlexExamples.VectorExample | Common/library/flatbuffers/flexbuffers.h:1166-1172 | a vector of two integers byte by byte |
| FlexExamples.MapExample | Common/library/flatbuffers/flexbuffers.h:1174-1223 | a map of two members, its keys in order, byte by byte |
| FlexRuns.StepStands | Common/library/flatbuffers/flexbuffers.h:1007-1223 | every call keeps the correspondence between stack, pools and trees |
| FlexRuns.RunStands | Common/library/flatbuffers/flexbuffers.h:1007-1223 | so does every run |
| FlexRuns.FinishDenotes | Common/library/flatbuffers/flexbuffers.h:1403-1419 | the finished buffer read from its root is the one tree left |
| FlexRuns.RoundTrip | Common/library/flatbuffers/flexbuffers.h:930-938 | for every run that leaves one value, whatever is shared and whatever width is forced, the root denotes that value and no other, all of it aligned |
| FlexTrees.CallsBuild | Common/library/flatbuffers/flexbuffers.h:1007-1223 | every tree has calls that build it |
| FlexTrees.EveryTreeRoundTrips | Common/library/flatbuffers/flexbuffers.h:930-938 | every tree of nulls, booleans, integers, strings, keys, vectors and maps survives building, finishing and reading |
| FlexSizes.RunPaid | Common/library/flatbuffers/flexbuffers.h:1007-1223 | whatever the calls, the buffer and 17 bytes for each value left on the stack stay within the sum of what each call costs |
| FlexSizes.CallsDelivered | Common/library/flatbuffers/flexbuffers.h:1403-1419 | calls whose cost stays more than 17 bytes below 2^63 and that leave one value give a finished buffer, within that cost and 17 bytes, that denotes that value and no other |
| FlexSizes.EveryTreeDelivered | Common/library/flatbuffers/flexbuffers.h:930-938 | every tree whose characters, values and members cost less than that survives building, finishing and reading |
| FlexLookup.FindIndex | Common/library/flatbuffers/flexbuffers.h:908-924 | binary search finds the key's index exactly when the key is there |
| FlexLookup.MapGet | Common/library/flatbuffers/flexbuffers.h:908-924 | the value under the key, or a reference that denotes null |
| FlexLookup.PastTheEnd | Common/library/flatbuffers/flexbuffers.h:880-886 | an index past the end gives a reference that denotes null and nothing else |
| FlexLookup.MapOfFinds | Common/library/flatbuffers/flexbuffers.h:1174-1223 | the map of distinct members holds under each key what a scan of the members finds |
| FlexLookup.LookupAdded | Common/library/flatbuffers/flexbuffers.h:901-924 | looking up a key in a finished map gives what was added under it, a reference that denotes null for an absent key |
| FlexBuilderModule.Builder.ElemWidth | Common/library/flatbuffers/flexbuffers.h:1525-1552 | the loop over widths finds the first fit |
| FlexBuilderModule.Builder.Key | Common/library/flatbuffers/flexbuffers.h:1073-1089 | written, looked up, and removed again when shared |
| FlexBuilderModule.Builder.String | Common/library/flatbuffers/flexbuffers.h:1094-1111 | the same for strings, padding included |
| FlexBuilderModule.Builder.CreateBlob | Common/library/flatbuffers/flexbuffers.h:1575-1583 | length, characters and terminator behind the padding |
| FlexBuilderModule.Builder.CreateVector | Common/library/flatbuffers/flexbuffers.h:1606-1662 | the three loops write the vector of the model |
| FlexOrder.DistinctInBuffer | Common/library/flatbuffers/flexbuffers.h:1199-1211 | the keys on the stack are distinct exactly when those of the members they stand for are |
| FlexBuilderModule.Builder.SortPairs | Common/library/flatbuffers/flexbuffers.h:1196-1213 | sorts the pairs by key and sets the duplicate flag exactly when two keys are equal |
| FlexBuilderModule.Builder.EndMap | Common/library/flatbuffers/flexbuffers.h:1174-1223 | the pairs are sorted, written as keys and values, and replaced by the map; the duplicate flag is set exactly when two keys are equal |
| FlexBuilderModule.Builder.Finish | Common/library/flatbuffers/flexbuffers.h:1403-1419 | root value, type and width |
| FlexBuilderModule.Build | Common/library/flatbuffers/flexbuffers.h:963-1419 | any calls that leave one value, then Finish, with any forced width: the returned buffer denotes that value and no other |
| Json.IndexRoundTrip | Common/library/nlohmann/json.hpp:5061 | an array index survives being written as a token and is never "-" |
| JsonLaws.IndexIff | Common/library/nlohmann/detail/json_pointer.hpp:213-250 | a token names the element n exactly when it is n in decimal |
| JsonLaws.IndexErrors | Common/library/nlohmann/detail/json_pointer.hpp:213-250 | which error any other token raises |
| JsonLaws.Elements | Common/library/nlohmann/detail/json_pointer.hpp:410-465 | the token n finds the nth element, and past the end one of the errors 401, 404 and 410 |
| JsonLaws.TestLaw | Common/library/nlohmann/json.hpp:4984-5003 | test changes nothing and succeeds exactly when the value is there; a malformed index keeps its error, any other failure is 501 |
| JsonLaws.AddToArray | Common/library/nlohmann/json.hpp:4817-4840 | adding at the index i makes v the ith element, keeps those before it and moves the others one on |
| JsonLaws.AddToObject | Common/library/nlohmann/json.hpp:4809-4815 | adding to an object or to null sets that member and no other |
| JsonLaws.AddedIsThere | Common/library/nlohmann/json.hpp:4786-4851 | what is added is found where it was added, at the end for "-" |
| JsonLaws.AddLaw | Common/library/nlohmann/json.hpp:4786-4851 | an addition succeeds exactly when its parent is an object, null, or an array with room at that index; otherwise the document is as it was |
| JsonLaws.AddErrors | Common/library/nlohmann/json.hpp:4817-4850 | which error it raises then |
| JsonLaws.AddKeeps | Common/library/nlohmann/json.hpp:4786-4851 | what lies apart from the parent is found as before |
| JsonLaws.RemoveFromArray | Common/library/nlohmann/json.hpp:4875-4879 | removing the element i closes the gap and keeps all others in order |
| JsonLaws.RemoveFromObject | Common/library/nlohmann/json.hpp:4862-4873 | removing a member takes that member and no other |
| JsonLaws.RemoveLaw | Common/library/nlohmann/json.hpp:4854-4880 | when a removal succeeds, which error it raises otherwise, and that the document is then as it was |
| JsonLaws.ReplaceLaw | Common/library/nlohmann/json.hpp:4945-4950 | the value is found where one was, and what lies apart is as before |
| JsonLaws.CopyLaw | Common/library/nlohmann/json.hpp:4969-4982 | the value at `from` is added and found at `path` |
| JsonLaws.MoveLaw | Common/library/nlohmann/json.hpp:4952-4967 | the value at `from` is added to the document without it and found at `path` there |
| JsonLaws.PatchLaw | Common/library/nlohmann/json.hpp:4889-5015 | each operation acts on what those before it left, and the first error ends the patch |
| JsonDiff.OpInside | Common/library/nlohmann/json.hpp:5061-5062 | an operation with a prefixed path acts on the child as the unprefixed one on its own |
| JsonDiff.PatchInside | Common/library/nlohmann/json.hpp:5061-5062 | so does a whole patch |
| JsonDiff.RemovalsTruncate | Common/library/nlohmann/json.hpp:5070-5081 | removals from the last index down truncate the array without an error |
| JsonDiff.AppendsExtend | Common/library/nlohmann/json.hpp:5084-5093 | the additions append the rest in order |
| JsonDiff.ElementsTurn | Common/library/nlohmann/json.hpp:5056-5064 | the first pass turns the common elements into the target's |
| JsonDiff.MembersTurn | Common/library/nlohmann/json.hpp:5100-5120 | the first pass over members removes or turns each of them, in any order |
| JsonDiff.DiffTurns | Common/library/nlohmann/json.hpp:5030-5160 | for all documents, the patch between them applied step by step to the first raises no error and yields the second |
| JsonDiff.EmptyDiff | Common/library/nlohmann/json.hpp:5037-5040 | the patch is empty exactly for equal documents |
| JsonDiff.AgreedMemberUntouched | Common/library/nlohmann/json.hpp:5100-5135 | a member both documents agree on is never mentioned |
| JsonDiff.AgreedElementUntouched | Common/library/nlohmann/json.hpp:5056-5093 | nor is an element two arrays agree on |
| JsonDocumentModule.DiffAt | Common/library/nlohmann/json.hpp:5030-5160 | the recursive method with its loops and insertions emits that patch below any path |
| JsonDocumentModule.DiffArrays | Common/library/nlohmann/json.hpp:5054-5096 | inserting removals at a fixed place reverses them |
| JsonDocumentModule.JsonDocument.OperationAdd | Common/library/nlohmann/json.hpp:4786-4851 | the addition or its error, with the document unchanged on error; it succeeds exactly when the parent has room, and the value is then found where it was added |
| JsonDocumentModule.JsonDocument.OperationRemove | Common/library/nlohmann/json.hpp:4854-4880 | the removal or its error |
| JsonDocumentModule.JsonDocument.PatchInplace | Common/library/nlohmann/json.hpp:4889-5015 | the operations in turn up to the first error; what was done before stays done |
| JsonDocumentModule.JsonDocument.Become | Common/library/nlohmann/json.hpp:5020-5160 | a document patched with its own difference from another becomes that other |
| JsonDocumentModule.JsonDocument.MergePatch | Common/library/nlohmann/json.hpp:5172-5196 | the loop in place computes MergePatch of section 2 of RFC 7396 |
| JsonMerge.MergeIsMerged | Common/library/nlohmann/json.hpp:5172-5196 | in whatever order the members of each object are visited, the loop computes the order-free specification |
| JsonMerge.Idempotent | Common/library/nlohmann/json.hpp:5172-5196 | merging the same patch again changes nothing |
| JsonMerge.OneMember | Common/library/nlohmann/json.hpp:5180-5190 | unmentioned members stay as they are, a null deletes, any other value leaves the member present |
| JsonMerge.UnmentionedStays | Common/library/nlohmann/json.hpp:5172-5196 | at any depth, a member the patch's objects lead to but do not mention is found, with all below it, exactly as in the target; where the target has no object there, nothing is found |
| JsonMerge.MentionedIs | Common/library/nlohmann/json.hpp:5172-5196 | at any depth, a null in the patch leaves nothing there, a value that is no object is found there itself, and an object gives an object |
| JsonMerge.LeavesNoNull | Common/library/nlohmann/json.hpp:5174-5191 | an object patch into a non-object, or into a document without null members, leaves no null member reachable through objects |
| Utf8.AcceptedIsShortest | Common/library/flatbuffers/util.h:527-568 | what is accepted lies inside the text, is one character of the RFC 3629 grammar, and is exactly what the encoder writes |
| Utf8.GrammarIsAccepted | Common/library/flatbuffers/util.h:527-568 | every character of the grammar is accepted, with its length, whatever follows |
| Utf8.EncodeThenDecode | Common/library/flatbuffers/util.h:499-568 | every scalar value encodes and decodes to itself, consuming exactly the bytes written |
| Utf8.BytesAreEncoding | Common/library/flatbuffers/util.h:502-517 | the shifts of the six forms give the encoding |
| Utf8.ToUTF8 | Common/library/flatbuffers/util.h:499-520 | the loops append the encoding and count its bytes |
| Utf8.FromUTF8 | Common/library/flatbuffers/util.h:527-568 | the loops decode one character or report corruption, and move past it |
| Utf8.Examples | Common/library/flatbuffers/util.h:499-520 | characters of one to four bytes as RFC 3629 lists them |
| JsonEscape.FourDigits | Common/library/flatbuffers/util.h:190-202 | a 16-bit code becomes its four digits, zeros included |
| JsonEscape.FourRead | Common/library/flatbuffers/util.h:190-202 | those digits read back as the code |
| JsonEscape.SurrogatesCombine | Common/library/flatbuffers/util.h:647-656 | the two surrogates combine to the code again |
| JsonEscape.WellFormedSplits | Common/library/flatbuffers/util.h:527-568 | text accepted character by character is a concatenation of grammar characters |
| JsonEscape.CharactersAreWellFormed | Common/library/flatbuffers/util.h:527-568 | and every such concatenation is accepted |
| JsonEscape.EscapeSucceeds | Common/library/flatbuffers/util.h:599-667 | escaping succeeds exactly for well-formed text, or always when malformed bytes are allowed |
| JsonEscape.EscapeReadsBack | Common/library/flatbuffers/util.h:599-667 | the string read as RFC 8259 says gives the text back exactly under the condition above, and is otherwise no JSON string |
| JsonEscape.EscapeReadsBackLeniently | Common/library/flatbuffers/util.h:621-623 | read by a reader that also takes `\x` and two digits as a byte, any text is given back, malformed bytes included, exactly when no control character was copied as it is |
| JsonEscape.EscapeGivesUp | Common/library/flatbuffers/util.h:624-638 | on failure what was emitted is, but for the closing quote, the characters before the first malformed one |
| JsonEscape.PlainIsQuoted | Common/library/flatbuffers/util.h:614-615 | printable ASCII without quote and backslash is only put in quotes |
| JsonEscape.ShortEscapes | Common/library/flatbuffers/util.h:606-612 | the seven short escapes byte by byte |
| JsonEscape.ByteExample | Common/library/flatbuffers/util.h:621-623 | the byte 255 byte by byte |
| JsonEscape.UnicodeExample | Common/library/flatbuffers/util.h:643-646 | the euro sign byte by byte |
| JsonEscape.HexIsUpper | Common/library/flatbuffers/util.h:190-202 | the digits are as many as asked for and upper case |
| JsonEscape.ControlCopied | Common/library/flatbuffers/util.h:640-642 | the control character 1, copied as it is, makes no JSON string |
| JsonEscape.EscapePrintable | Common/library/flatbuffers/util.h:599-667 | without `natural_utf8` only printable ASCII is emitted, even on failure |
| JsonEscape.EscapeString | Common/library/flatbuffers/util.h:599-667 | the loop appends that string, or what was emitted before giving up |

## Left out

- Sockets, completion ports, threads, ODBC, Redis, tokens, configuration and logging: input and output around the code modelled here.
- LobbyManager, AuthManager, GameManager and the database worker: only their headers are in the repository.
- The 64-bit FlatBuffer builder: the model has a 32-bit builder whose 64-bit region is empty.
- Custom allocators, moving, swapping and releasing buffers, big-endian machines.
- Structs, unions, nested buffers, `Mutate`/`SetField`, vectors of scalars and sorted vectors of tables: the lobby messages modelled here use none of them.
- The other messages: NoticeInventoryUpdate writes the same bytes as NoticeInventory for the same items and its table has the same fields; the rest are tables of scalars and strings like RESPONSE_ITEM_BREAK, covered by the statements about tables.
- Verification of size-prefixed and nested buffers, and the buffer-size tracking of SizeVerifier.
- Verifier counters are unbounded; the 32-bit counters of the source stop at their limits long before they could wrap.
- The assertions of the builder are preconditions: no nesting, tables below 64 KiB, no field set twice, field offsets below 65534, buffers below 2^31 bytes.
- The two padding bytes of a field location in the scratch pad are zero in the model; nothing reads them.
- `std::set` lookups of shared strings and keys are searches for an entry the ordering does not tell apart; `std::sort` is insertion sort and `std::bsearch` halving, which give the same results for distinct keys.
- FlexBuffers floats, indirect scalars, blobs, typed vectors other than the keys of a map, `Mutate`, `ToString`, `Undo` and the FlexBuffers verifier, whose check of keys does not establish their termination.
- Looking up keys in a FlexBuffer map with duplicate keys: not every value can be found, as the source says; the flag that reports them is modelled.
- FlexBuilderModule.Builder.CreateVector: does not model fixed vectors and typed vectors of scalars, because only the untyped vectors and the typed vectors of keys occur in the value trees here.
- VerifierClass.Verifier.VerifyBuffer: does not model the comparison of a file identifier, because the generated check of the messages passes none (Common/include/utility/MESSAGE_PROTOCOL_generated.h:1498-1501).
- The conversions between types that the FlexBuffer accessors make for a reference of another type.
- FlexBuffers of 2^63 bytes and more, which no `std::vector` can hold.
- The text of JSON pointers: a path is a sequence of tokens. `json_pointer.hpp` is not part of this model; of its errors for a malformed array index the model has 106, 109, 404 (indices of 2^64 and more included) and 410.
- JsonDocumentModule.JsonDocument.PatchInplace: does not model the errors 104 and 105 of a malformed patch document, because patches are operation values here.
- JSON floats, NaN, binary and discarded values, mixed integer comparison, the iterative destruction of values, and all parsing and printing.
- EscapeString: positions are unbounded, so the endless loop of a 32-bit index on text of 4 GiB is not modelled, and text is followed by a zero byte, as `std::string` and FlatBuffer strings are.
