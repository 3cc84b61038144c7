# Verified models of the dex writer, the adb connection and the CFG dump

This project models three parts of the Android Runtime and proves what they promise.

**dexlayout.** The writer turns an IR into a dex file through a random-access stream. Sections
that hold offsets of later items are first reserved and written later; code items are written
in between, once debug infos have their offsets. The main result is that all of this amounts to
one pass by a writer that knows every offset in advance: the file is that image byte for byte
(`DexFile.Write`), and every offset field in it leads to the item it means
(`DexFile.OffsetLeadsToItem`). So the file can be read back: a reader that knows nothing but the format
and starts at the header finds everything the IR said (`ReadBack.FileReadsBack`). The layout step puts
string datas, class datas and code items into an order that the profile decides; the file it leads to
still says the same (`LayoutRun.LayoutAndWrite`): loaded again, it gives an equal tree. No two items of a
kind share an offset, so a reader that makes one object for each offset shares its objects exactly as the
IR did (`Sharing.ReadReferences`). Around it are the encodings: LEB128, variable-width values, nested
encoded values, catch handler tables that are read in two phases and written out of order, class datas,
debug info streams, the hidden API section, the compact dex data section with its deduplication, and the
debug info offset table. The builder's collections are proved to keep every item exactly once.

**adbconnection.** The poll loop and the agent's transport exchange messages over FIFO channels.
The invariant says that the messages under way lead from what the loop believes to where the agent
is; safety follows, and for every run the exact condition under which the debug checks hold and the
handshake requests are right. A second model has threads that interleave at every lock operation and at
every piece of a write; it gives mutual exclusion by the eventfd, the exact contents of the client's
stream at every moment, and that all packets in it were published. A third follows the client's bytes
until the agent is loaded.

**dexdump.** The passes that find block starts, number blocks and emit edges are proved to give a
graph that shows everything the code can do, exceptions included, and nothing else.

## How the models are laid out

| files | part |
|---|---|
| `Bytes`, `Leb128`, `VarWidth`, `Reading` | numbers as bytes |
| `ByteStream` | the output stream and the algebra of writes to it |
| `EncodedValues`, `EncodedValueProofs`, `EncodedValueIO` | encoded values: definition, laws, reader and writer |
| `CatchHandlers`, `CatchHandlerWriter`, `CatchHandlerReader` | catch handler tables |
| `SectionWriter`, `CodeItems`, `HiddenApi`, `DexIr`, `DexRecords`, `DexItems` | sections, records, and how records read |
| `DexWriter`, `DexWriterRun`, `DexFile` | the one-pass image, the passes, the whole file |
| `CompactDex`, `CompactDexDebug`, `CompactOffsetTable` | compact dex |
| `DebugStream`, `DexTree`, `DexReader` | debug info streams, what a file says, and a reader of files |
| `ReadBackItems`, `ReadBackClasses`, `ReadBackIds`, `ReadBackHeader`, `ReadBackMap`, `ReadBack` | written files read back |
| `Builder`, `Sharing`, `StringMarks`, `Layout`, `LayoutMeaning`, `LayoutRun` | collections of the IR, identity of items through a file, reordering, and that it keeps the meaning |
| `AdbControl`, `AdbConnection`, `AdbWire`, `AdbDelivery`, `AdbPackets` | the connection |
| `Cfg`, `CfgDump` | the control flow graph |

Stream contents are compared up to trailing zeros, because storage grows ahead of the cursor and is
zero filled. References between IR items are positions in the owning vectors; an item's offset is
found in a map from sections to lists of offsets, and an item without an entry is unassigned.

## Assumptions

- `DexIr.Closed`: references in the IR are to items it owns, and the handlers of its code can be encoded. Nothing else
  is assumed of an IR that is written.
- `DexIr.HiddenapiFits`, the type of an IR: there are no hidden API items or there is one for each class definition, and its
  flags, if it has any, are for the members of the class data.
- `DexTree.Fits`, for reading back: numbers fit the fields of the format, strings have no zero byte, encoded values are valid and
  have no part of unknown type, a debug info is as long as its own opcodes say, and the handlers of a code item with tries are the
  lists of a table without gaps, in any order.
- `LayoutRun.Owned`: every string has its own data, every class data has a class and every code item a method, as the counts
  checked by the layout step demand.
- The agent (`AdbControl.Enabled`) is any sequence of calls to the transport of dt_fd_forward, one after the other, and what it
  says arrives. So it can stop listening without having accepted, say END-LISTEN again, or fail to receive descriptors.
  `AdbControl.Conforms` is an agent that receives what is sent, says END-LISTEN once it has accepted, and CLOSING only after
  that; what follows for runs with other agents is `AdbControl.ChecksHoldExactly`.
- In `AdbWire` a write that has been started is completed, in pieces of any size.
- In `Layout` and `Builder` an item is a number that stands for its identity.

## Where a promise fails, and exactly when it holds

- An encoded value does not survive writing and reading if a part of it has a type the format does not know,
  because nothing is written for that part: `EncodedValueProofs.RoundTripExactly`.
- The debug checks of the poll loop can fail. If an agent says CLOSING before END-LISTEN, a connection that arrives between the
  two is handed to nobody and is still marked as sent at the next START-LISTEN (`AdbControl.LateEndBreaksCheck`). If an agent
  does not receive the descriptors, PerformAttach says END-LISTEN, the loop keeps its mark, and the next START-LISTEN fails as
  well (`AdbControl.LossBreaksCheck`). Along any run the checks hold if and only if no START-LISTEN is taken after a transfer
  that was sent to an agent that did not wait for it, or that was not received before the agent stopped listening:
  `AdbControl.ChecksHoldExactly`.
- When sendmsg has failed, the retry on data asks for a handshake even if it was performed (`AdbControl.RetryAsksAgain`). The
  requests of a run are right if and only if it has no such step: `AdbControl.AsksRightExactly`, for a single step
  `AdbControl.AskedStep`.
- The first phase of reading catch handlers takes a typed handler with the null type for a catch-all
  (`CatchHandlerReader.NullTypedList`). A handler is its list, flag and all, if and only if the list ends with a catch-all or has no
  such handler: `CatchHandlerReader.FlagExactly`; for a whole table `CatchHandlerReader.ExactWhereTyped`.

## Where comments and code disagree

The models follow the code.

- The end of a scoped data section item is said to dedupe "excluding padding"
  (dexlayout/compact_dex_writer.cc:122), but the range starts before the alignment. The two
  callers that pass a deduper use alignment 1, so there is no padding.
- Published data is said to be sent before the handshake is finished (adbconnection/adbconnection.h:84-85);
  SendDdmPacket drops it until the handshake flag is set.
- The transport is said to read a one byte message with the descriptors (dt_fd_forward/README.md); the
  connection sends a string that asks for a handshake or not.

## Model

| member | source | states |
|---|---|---|
| `Leb128.UlebRoundTrip` | libartbase/base/leb128.h:33-56 | every 32-bit number followed by anything is read back, and reading stops where its canonical encoding ends, after at most five bytes |
| `Leb128.UlebShortest` | libartbase/base/leb128.h:201-206 | no encoding that the decoder accepts is shorter than the canonical one |
| `Leb128.SlebRoundTrip` | libartbase/base/leb128.h:116-147 | the same round trip for signed 32-bit numbers |
| `Leb128.EncodeUnsignedLeb128` | libartbase/base/leb128.h:259-268 | the loop appends exactly the canonical encoding |
| `Leb128.EncodeSignedLeb128` | libartbase/base/leb128.h:298-310 | the loop appends exactly the canonical signed encoding |
| `ByteStream.Stream.EnsureStorage` | dexlayout/dex_writer.h:156-163 | storage grows to what is needed; contents stay and new bytes are zero |
| `ByteStream.Stream.Write` | dexlayout/dex_writer.h:91-99 | requires the place to be all zeros (the debug check); afterwards exactly the given bytes are there and nothing else has changed |
| `ByteStream.Stream.Overwrite` | dexlayout/dex_writer.h:101-106 | the same without asking what was there |
| `ByteStream.Stream.Clear` | dexlayout/dex_writer.h:108-112 | the range is zero, nothing else has changed, the cursor stays |
| `ByteStream.Stream.WriteUleb128` | dexlayout/dex_writer.h:114-120 | the canonical encoding is written at the cursor, which moves past it |
| `ByteStream.Stream.AlignTo` | dexlayout/dex_writer.h:130-133 | the cursor moves to the next multiple, over unchanged contents |
| `VarWidth.EncodeSignedValue` | dexlayout/dex_writer.cc:35-50 | the in-place loops leave the shortest two's complement bytes in the buffer, at most 8, and at most 4 for 32-bit values |
| `VarWidth.EncodeUIntValue` | dexlayout/dex_writer.cc:52-59 | the in-place loop leaves the shortest unsigned bytes, at most 4 |
| `VarWidth.EncodeFloatingValue` | dexlayout/dex_writer.cc:83-110 | shifting out the low zero bytes leaves the shortest bytes that fill up to the same bits from the right, within the width |
| `VarWidth.SignedRoundTrip` | dexlayout/dex_writer.cc:35-81 | sign extension of the encoded bytes gives the value |
| `VarWidth.SignedShortest` | dexlayout/dex_writer.cc:35-81 | encoding again what any bytes denote never takes more bytes than they were |
| `VarWidth.UnsignedShortest` | dexlayout/dex_writer.cc:52-59 | the same for unsigned values |
| `VarWidth.FloatingRoundTrip` | dexlayout/dex_writer.cc:83-110 | right-filling the encoded bytes gives the bits |
| `VarWidth.FloatingShortest` | dexlayout/dex_writer.cc:83-110 | encoding again what any bytes fill up to never takes more bytes |
| `EncodedValueProofs.RoundTrip` | dexlayout/dex_writer.cc:117-206 | for every nested value without members of unknown type, and any suffix, reading what was written gives the value and stops at the suffix |
| `EncodedValueProofs.RoundTripAll` | dexlayout/dex_writer.cc:191-196 | the same for the values of an array, one after the other |
| `EncodedValueProofs.RoundTripElements` | dexlayout/dex_writer.cc:198-206 | the same for the named elements of an annotation |
| `EncodedValueProofs.RoundTripExactly` | dexlayout/dex_writer.cc:179-180 | the round trip holds for every suffix if and only if no part of the value has an unknown type, for which the writer writes nothing |
| `EncodedValueProofs.UnknownIsLost` | dexlayout/dex_writer.cc:179-180 | a concrete array that is read, written with its element missing, and cannot be read again |
| `EncodedValueProofs.ReadThenWriteShrinks` | dexlayout/dex_ir_builder.cc:1097-1223 | whatever bytes the reader accepts, the value it makes is valid and writing it takes no more bytes |
| `EncodedValueIO.WriteEncodedValue` | dexlayout/dex_writer.cc:117-184 | the recursive writer puts exactly the value's encoding at the cursor |
| `EncodedValueIO.WriteEncodedArray` | dexlayout/dex_writer.cc:191-196 | the count and then every value's encoding are at the cursor |
| `EncodedValueIO.WriteEncodedAnnotation` | dexlayout/dex_writer.cc:198-206 | type, count and then every element's encoding are at the cursor |
| `EncodedValueIO.ReadVarWidth` | dexlayout/dex_ir_builder.cc:34-44 | the loop yields the number that the bytes denote, sign extended on request |
| `EncodedValueIO.ReadEncodedValue` | dexlayout/dex_ir_builder.cc:1097-1223 | the moving-pointer reader accepts the same bytes, with the same value and the same end, as the recursive definition |
| `EncodedValueIO.ReadEncodedArray` | dexlayout/dex_ir_builder.cc:1186-1200 | the counted loop reads what the recursive definition of an array reads |
| `EncodedValueIO.ReadEncodedAnnotation` | dexlayout/dex_ir_builder.cc:1201-1214 | the counted loop reads what the recursive definition of an annotation reads |
| `CatchHandlers.ListRoundTrip` | dexlayout/dex_writer.cc:551-566 | a handler list is read back from its encoding (negated size with catch-all, zero for catch-all only), stopping at its end |
| `CatchHandlers.TableOfCanonical` | dexlayout/dex_ir_builder.cc:826-902 | walking a back-to-back table finds its lists in order, each at its own offset, whatever follows the table |
| `CatchHandlerWriter.AnyOrderReproduces` | dexlayout/dex_writer.cc:535-569 | lists with the offsets of a back-to-back canonical table, written by seeking in any order, give that table byte for byte |
| `CatchHandlerWriter.WriteHandlers` | dexlayout/dex_writer.cc:551-568 | seeking and writing list by list leaves exactly that table, and the cursor just behind it |
| `CatchHandlerReader.ReadHandlers` | dexlayout/dex_ir_builder.cc:826-902 | for every table: the two-phase read ends with exactly one handler for every encoded list, at its offset and with its pairs, and two tries share a handler if and only if they have the same offset; the catch-all flag is the list's own wherever no typed handler has the null type |
| `CatchHandlerReader.ExactWhereTyped` | dexlayout/dex_ir_builder.cc:826-902 | where no typed handler has the null type, the handlers are exactly the lists of the table |
| `CatchHandlerReader.FlagExactly` | dexlayout/dex_ir_builder.cc:842-854 | the handler read for a try item is the list of the table, flag and all, if and only if the list ends with a catch-all or no handler of it has the null type |
| `CatchHandlerReader.NullTypedList` | dexlayout/dex_ir_builder.cc:842-854 | the bytes of a list for which it is not |
| `CatchHandlerReader.ReadThenWriteReproduces` | dexlayout/dex_ir_builder.cc:826-902 | a canonical table that was read in the order of the two phases is written back byte for byte |
| `SectionWriter.WriteRecords` | dexlayout/dex_writer.cc:267-279 | a pass over a section writes every record on its alignment, with every offset it refers to already assigned, and reports where each record lies |
| `SectionWriter.ReserveRecords` | dexlayout/dex_writer.cc:232-246 | the reserving pass leaves contents unchanged and takes exactly the extent, and assigns exactly the offsets, of the writing pass |
| `SectionWriter.SectionStable` | dexlayout/dex_writer.cc:232-246 | a section whose offsets are all assigned has the same bytes and places however many more offsets are assigned |
| `SectionWriter.FixedPositions` | dexlayout/dex_writer.cc:602-626 | the places and the extent of a section without uleb128 offsets do not depend on any offset |
| `CodeItems.WritePostInstructionData` | dexlayout/dex_writer.cc:535-569 | padding, try items and handler table; while reserving the same extent with any try items |
| `CodeItems.WriteCodeItem` | dexlayout/dex_writer.cc:571-600 | writing puts padding and the whole record at the cursor; reserving moves as far and restores all zeros |
| `DexIr.RecordsTarget` | dexlayout/dex_writer.cc:232-708 | which sections the records of each section refer to, and that only class datas hold uleb128 offsets |
| `DexIr.OrderIsSound` | dexlayout/dex_writer.cc:841-905 | sections written in their turn refer to earlier sections only |
| `DexRecords.ClassDefReads` | dexlayout/dex_writer.cc:628-655 | all eight words of a class definition are where the format has them |
| `DexRecords.ProtoIdReads` | dexlayout/dex_writer.cc:300-318 | shorty, return type and the offset of the parameters are where the format has them |
| `DexRecords.MemberIdReads` | dexlayout/dex_writer.cc:320-352 | class, type or prototype, and name of a field or method id are where the format has them |
| `DexRecords.MethodHandleReads` | dexlayout/dex_writer.cc:694-708 | the halves of a method handle are where the format has them |
| `DexRecords.TypeListReads` | dexlayout/dex_writer.cc:281-298 | the count and every type of a type list are where the format has them |
| `DexRecords.AnnotationSetReads` | dexlayout/dex_writer.cc:381-398 | the count and every offset of an annotation set are where the format has them |
| `DexRecords.DirectoryReads` | dexlayout/dex_writer.cc:419-463 | class annotations, the three counts and every pair of the three lists are where the format has them |
| `DexRecords.ClassDataRoundTrip` | dexlayout/dex_writer.cc:657-675 | class data is read back with every index (from differences modulo 2^32), all flags, and the offsets of all code items, whatever follows |
| `DexRecords.FieldsRoundTrip` | dexlayout/dex_writer.cc:208-216 | a list of fields is read back from its differences |
| `DexRecords.MethodsRoundTrip` | dexlayout/dex_writer.cc:218-228 | a list of methods is read back from its differences and code offsets |
| `DexRecords.StringDataReads` | dexlayout/dex_writer.cc:248-255 | the length, the bytes and the terminator of a string |
| `DexItems.CodeItemReads` | dexlayout/dex_writer.cc:571-600 | registers, ins, outs, tries, debug info offset, size, every instruction, every try item on its word boundary and the handler table are where the format has them |
| `DexItems.TryReads` | dexlayout/dex_writer.cc:540-550 | start, extent and the offset of the handler list of a try item |
| `DexItems.EncodedArrayReads` | dexlayout/dex_writer.cc:354-364 | an encoded array item is read back as the same values |
| `DexItems.AnnotationReads` | dexlayout/dex_writer.cc:366-379 | visibility, type and all elements of an annotation item are read back |
| `DexWriterRun.ReserveCodeItems` | dexlayout/dex_writer.cc:602-626 | reserving code items restores all contents and assigns the offsets that writing them will have |
| `DexWriterRun.WriteCodeItems` | dexlayout/dex_writer.cc:602-626 | the writing pass puts every code item at the offset it was given |
| `DexWriterRun.Writer.Next` | dexlayout/dex_writer.cc:858-896 | a section written in its turn has all its offsets at hand, never lands on written bytes, and leaves all sections before it as they were |
| `DexWriterRun.Writer.ReserveNext` | dexlayout/dex_writer.cc:857-877 | a delayed section gets its place and its items their offsets, with zeros in place of its bytes |
| `DexWriterRun.Writer.WriteDelayed` | dexlayout/dex_writer.cc:880-914 | going back fills exactly the reserved place; every offset assigned a second time is the same again, and the cursor is put back |
| `DexWriterRun.Writer.WriteSections` | dexlayout/dex_writer.cc:841-915 | after all passes the file is, byte for byte, what one pass that knows all offsets would write, and every item has the offset at which it lies |
| `DexWriterRun.FillIn` | dexlayout/dex_writer.cc:880-914 | filling in a reserved section keeps every other section in place |
| `DexWriterRun.ReadyInTurn` | dexlayout/dex_writer.cc:841-915 | no offset is taken of an item that has none |
| `DexWriter.ItemLiesAtOffset` | dexlayout/dex_writer.cc:987-994 | in the one-pass image every item's record lies at the item's offset |
| `DexFile.WriteMapItems` | dexlayout/dex_writer.cc:710-724 | the map list holds each queued entry once, by ascending offset |
| `DexFile.FirstItemRounded` | dexlayout/dex_writer.cc:281-298 | the first item of a section lies at the section's offset rounded up to the alignment |
| `DexFile.MapItemReads` | dexlayout/dex_writer.cc:710-724 | type, size and offset of a map entry are where the format has them |
| `DexFile.EntriesRight` | dexlayout/dex_writer.cc:726-791 | the queue holds an entry for a section if and only if the section is not empty, with its type, its item count and its offset |
| `DexFile.EntriesDistinct` | dexlayout/dex_writer.cc:726-791 | no section has two entries |
| `DexFile.MapLiesInFile` | dexlayout/dex_writer.cc:917-926 | in the written file the map list lies at its offset, count first, then the entries in order |
| `DexFile.HeaderReads` | dexlayout/dex_writer.cc:793-835 | all numbers of the header, and the count and offset of every id section, are where the format has them |
| `DexFile.WriteHeader` | dexlayout/dex_writer.cc:793-835 | the header takes the first 0x70 bytes, the rest of the contents stays, and the section is trimmed to the file |
| `DexFile.Write` | dexlayout/dex_writer.cc:841-960 | the whole file: header, sections as the one-pass image, map list with every non-empty section, link data |
| `DexFile.ItemLiesInFile` | dexlayout/dex_writer.cc:841-960 | in the written file every item's record lies at the item's offset |
| `DexFile.OffsetLeadsToItem` | dexlayout/dex_writer.cc:841-960 | every 32-bit offset field, decoded where it lies in the written file, leads to the record of the item it refers to |
| `DexFile.UlebOffsetLeadsToItem` | dexlayout/dex_writer.cc:218-228 | every uleb128 code offset, decoded where it lies in the written file, leads to the code item |
| `HiddenApi.ItemSize` | dexlayout/dex_ir.h:1299-1309 | in whatever order the map is walked, the size is that of the stream in class data order, or zero if nothing is flagged |
| `HiddenApi.WriteHiddenapiClassData` | dexlayout/dex_writer.cc:465-517 | each entry of the header is where that class's stream lands, entry 0 is what was written in all, and the streams follow in class order |
| `HiddenApi.ReadFlags` | dexlayout/dex_ir_builder.cc:634-670 | the four loops over the members read what the stream holds for them |
| `HiddenApi.ClassReads` | dexlayout/dex_ir_builder.cc:634-670 | a class is read back with all its flags, or without any if all were zero, whatever follows the section |
| `HiddenApi.FlagsSurvive` | dexlayout/dex_ir_builder.cc:634-670 | every member of every class is read back with its flag, also in classes left out as all zero |
| `DexWriterRun.WriteHiddenapi` | dexlayout/dex_writer.cc:465-517 | within the file, the section has the flags of the IR's class definitions for the members of their class datas, as the one record of its kind, aligned first |
| `CompactDex.Container.Dedupe` | dexlayout/compact_dex_writer.cc:219-229 | a range with bytes already in the map gives the offset kept for them; otherwise it is added |
| `CompactDex.Container.WriteItem` | dexlayout/compact_dex_writer.cc:106-136 | after writing, looking up and possibly taking back, the item has an offset whose bytes are its encoding; all entries keep the bytes they had when inserted, and all beyond the cursor is zero |
| `CompactDex.WriteAll` | dexlayout/compact_dex_writer.cc:376-515 | over any sequence of files written into one container, every string and debug info lies inside the section with its own encoding at its offset, equal encodings share one offset and different ones do not, everything else stays intact, and no offset is the one for "did not dedupe" |
| `CompactDexDebug.CanGenerateCompactDex` | dexlayout/compact_dex_writer.cc:329-374 | true if and only if all methods with one id have the same code item |
| `CompactDexDebug.DebugInfoOffsets` | dexlayout/compact_dex_writer.cc:40-77 | when it is true, the check for conflicting offsets cannot fail, and the vector holds the offset of each method's debug info and zeros elsewhere |
| `CompactDexDebug.WriteDebugInfoOffsetTable` | dexlayout/compact_dex_writer.cc:40-104 | looking up a method id in the written table gives the offset of its debug info, or 0 if no method with that id has any |
| `CompactOffsetTable.Build` | libdexfile/dex/compact_offset_table.cc:74-131 | every offset is read back from the table, provided it is addressable with 32 bits |
| `CompactOffsetTable.BlockReads` | libdexfile/dex/compact_offset_table.cc:38-62 | mask, population count and sum of differences give back each of the sixteen entries of a block |
| `DebugStream.GetDebugInfoStreamSize` | dexlayout/dex_ir_builder.cc:46-92 | the scan finds the end that the grammar of the opcodes gives, or runs out of bytes where the grammar does |
| `DebugStream.StreamPrefix` | dexlayout/dex_ir_builder.cc:46-92 | a debug info stream that ends is the same stream whatever follows it |
| `DebugStream.StreamWithin` | dexlayout/dex_ir_builder.cc:46-92 | the bytes up to the end that was found are a whole stream by themselves |
| `Builder.Collection.Create` | dexlayout/dex_ir_builder.cc:94-138 | a new item goes to the end of the vector and under its offset, and map and vector stay one-to-one |
| `Builder.Collection.GetOrCreate` | dexlayout/dex_ir_builder.cc:113-117 | the item under an offset, the existing one if there is one |
| `Builder.Collection.SortByMapOrder` | dexlayout/dex_ir.h:262-274 | overwriting in place leaves a permutation of the vector, by ascending offset |
| `Sharing.OffsetsAscend` | dexlayout/dex_writer.cc:232-707 | in a written file the offsets of the items of a kind strictly ascend, so no two items share one |
| `Sharing.ReadReferences` | dexlayout/dex_ir_builder.cc:94-138 | references into a written file, read one after the other, give the same object exactly if they are to the same item of the IR; if every item is referred to, the vector in the end has the objects in the order of the IR |
| `Builder.ReadAll` | dexlayout/dex_ir_builder.cc:994-1006 | over any sequence of reads, equal offsets give the same object and different ones different objects; in the end the vector holds each once, in file order |
| `Layout.ClassOrder` | dexlayout/dexlayout.cc:1573-1587 | profile classes first, each group in the order it had |
| `Layout.LayoutClassData` | dexlayout/dexlayout.cc:1573-1604 | the in-place rewriting leaves a permutation, in order of first use by the classes in the new order; the count check holds |
| `Layout.LayoutStringData` | dexlayout/dexlayout.cc:1619-1728 | the in-place rewriting leaves a permutation, ordered by (hot, shorty, index), where a string is hot or a shorty exactly if a class or an executed method of the file makes it so |
| `Layout.LayoutCodeItems` | dexlayout/dexlayout.cc:1731-1815 | each code item has the least layout type of its methods, and the items are sorted by it, stably, as a permutation |
| `Layout.StableSort` | dexlayout/dexlayout.cc:1801-1814 | by rank, and among equal ranks in the order before |
| `StringMarks.MarkStrings` | dexlayout/dexlayout.cc:1619-1686 | a string is marked hot if and only if it names a profile class, its superclass or an interface, or is used by the code of an executed method, and as a shorty if and only if it is one of an executed method or of one that a class initializer uses |
| `LayoutRun.MethodsToLayOut` | dexlayout/dexlayout.cc:1740-1789 | the two passes over all classes visit exactly the methods with code, each with what profile and flags say of it |
| `LayoutRun.CodeOrder` | dexlayout/dexlayout.cc:1731-1815 | code is ordered by the least layout type of the methods that have it and, where that is the same, as it was |
| `LayoutMeaning.SameTree` | dexlayout/dex_verify.cc:33-49 | putting string datas, class datas and code items into any other order, with every reference following its item, changes nothing of what the file says |
| `LayoutMeaning.ClosedMoved` | dexlayout/dexlayout.cc:1573-1728 | after any reordering all references still lead to items of the IR |
| `LayoutMeaning.WriteLaidOut` | dexlayout/dexlayout.cc:1922-1977 | the file written after any reordering reads back as what the IR said before |
| `LayoutRun.LayoutAndWrite` | dexlayout/dexlayout.cc:1817-1821 | the three layout steps for a profile and the writing of the result: the file is the IR with strings by (hot, shorty, index), class datas by first use and code by its least layout type, stably, and reading it gives what the IR said before |
| `ReadBack.FileReadsBack` | dexlayout/dex_verify.cc:33-49 | for every IR whose values fit their fields, a reader that starts at the header of the written file finds all strings, types, prototypes, fields, methods, classes with their annotations, values, members, code, tries, handlers and debug infos, and the call sites, method handles and hidden API flags |
| `ReadBack.WriteFile` | dexlayout/dexlayout.cc:1941-1977 | the file that Write makes, loaded again, gives a tree equal to that of the IR |
| `ReadBack.SameFileSameTree` | dexlayout/dex_verify.cc:33-49 | two IRs that are written to the same bytes say the same |
| `ReadBackClasses.ClassLoads` | dexlayout/dex_verify.cc:224-277 | a class definition is found with its interfaces, annotations, members and static values, by following its offsets |
| `ReadBackClasses.ClassDataLoads` | dexlayout/dex_verify.cc:744-840 | class data is found with all members, flags and code |
| `ReadBackClasses.CodeLoads` | dexlayout/dex_verify.cc:842-897 | code is found with its instructions, debug info, tries and their handlers, whatever order the handlers were held in |
| `ReadBackClasses.DirectoryLoads` | dexlayout/dex_verify.cc:296-469 | the annotations of a class, its fields, methods and parameters are found |
| `ReadBackClasses.ArrayLoads` | dexlayout/dex_verify.cc:714-742 | an encoded array is found at its offset |
| `ReadBackItems.DebugInfoLoads` | dexlayout/dex_verify.cc:899-928 | debug info is found with its extent, which no field holds |
| `ReadBackHeader.AllInHeader` | dexlayout/dex_writer.cc:793-835 | the header of the written file says how many ids of each kind there are and where they start |
| `ReadBackHeader.IdAt` | dexlayout/dex_writer.cc:232-352 | every id lies a multiple of its size behind the start of its section |
| `ReadBackMap.OnlyEntry` | dexlayout/dex_writer.cc:726-791 | a section is in the map list of the written file if and only if it is not empty, and nothing else has its type |
| `ReadBack.FlagsLoad` | dexlayout/dex_ir_builder.cc:634-670 | through the map list, every class gets the hidden API flags it had, or none if they were all zero |
| `CfgDump.BranchTargets` | dexdump/dexdump_cfg.cc:42-70 | exactly the targets of all branches and switches |
| `CfgDump.NumberBlocks` | dexdump/dexdump_cfg.cc:72-144 | block starts are the first instruction, branch targets and what follows a switch or block end; blocks are numbered in order and every instruction has the number of its block |
| `CfgDump.EmitEdges` | dexdump/dexdump_cfg.cc:146-286 | regular and taken edges as required, common exception edges of every block at its end, and the blocks whose handlers do not agree |
| `CfgDump.DetailBlock` | dexdump/dexdump_cfg.cc:288-331 | one exception edge for each handler of each instruction from the block's start to its end |
| `Cfg.CommonKeeps` | dexdump/dexdump_cfg.cc:195-265 | as long as no mismatch is found, what is accumulated includes the handlers of every instruction of the block so far |
| `Cfg.ExceptionsCovered` | dexdump/dexdump_cfg.cc:152-331 | common edges at block ends plus details after a mismatch leave no handler of any instruction out |
| `CfgDump.TransfersCovered` | dexdump/dexdump_cfg.cc:159-273 | every transfer of control stays inside a block or has an edge between the right instructions, and its target starts a block |
| `CfgDump.DumpMethodCFG` | dexdump/dexdump_cfg.cc:36-331 | for every instruction list, the graph shows every fall-through, branch, switch and handler, and every edge stands for one of them |
| `AdbControl.CheckExactly` | adbconnection/adbconnection.cc:528-660 | in a state that satisfies the invariant, a debug check fails if and only if START-LISTEN is taken after a transfer has gone astray: sent to an agent that did not wait for it, or not received |
| `AdbControl.MessageKeeps` | adbconnection/adbconnection.cc:566-599 | taking any message of the agent keeps the invariant; descriptors go astray exactly when START-LISTEN is taken and the agent has said more since, which a conforming one has not |
| `AdbControl.PollKeeps` | adbconnection/adbconnection.cc:600-650 | a new connection, data or a hangup keep the invariant; descriptors go astray exactly when they are sent to an agent that does not wait for them, which does not happen with a conforming one |
| `AdbControl.StepKeeps` | adbconnection/adbconnection.cc:528-660 | every step of the loop and of an agent keeps the invariant as long as checks hold, also if the agent closes early, does not receive what was sent, or stops listening without having accepted; an open connection is handed to a listening agent unless sendmsg fails; with a conforming agent nothing goes astray |
| `AdbControl.AlwaysSafe` | adbconnection/adbconnection.cc:528-660 | in every run with an agent that receives what is sent, says END-LISTEN once it has accepted, and CLOSING only after that: descriptors sent or held by the agent imply an open socket, never both; listening implies loaded; handshake done implies an open socket; all debug checks hold; a listening agent has every open connection if sendmsg never failed |
| `AdbControl.ChecksHoldExactly` | adbconnection/adbconnection.cc:578-599 | all checks along any run hold if and only if no START-LISTEN is taken after descriptors were sent to an agent that did not wait for them, or were not received by the agent before it stopped listening |
| `AdbControl.SafeWhileChecksHold` | adbconnection/adbconnection.cc:528-660 | with any agent, the flags stay safe as long as the checks hold |
| `AdbControl.LossKeeps` | dt_fd_forward/dt_fd_forward.cc:98-106 | when the descriptors are not received, or END-LISTEN is said without having received them, the invariant is kept with the transfer marked as gone astray, and the flags of the loop are as before |
| `AdbControl.LateEndBreaksCheck` | adbconnection/adbconnection.cc:578-583 | a run with a late END-LISTEN in which START-LISTEN finds the descriptors sent already |
| `AdbControl.LossBreaksCheck` | dt_fd_forward/dt_fd_forward.cc:385-388 | a run in which every sendmsg succeeds, every transfer goes to an agent that waits for it, and nothing is closed, but the descriptors are not received: after END-LISTEN the next START-LISTEN finds them sent already |
| `AdbControl.AskedStep` | adbconnection/adbconnection.cc:578-650 | a step asks for a handshake rightly if and only if it is not the retry on data with the handshake already done |
| `AdbControl.AlwaysAsksRight` | adbconnection/adbconnection.cc:430-474 | in a run with transfers that succeed, every transfer asks for a handshake exactly when none was performed |
| `AdbControl.AsksRightExactly` | adbconnection/adbconnection.cc:641-650 | the transfers of a run ask for a handshake exactly when none was performed, if and only if no step of the run is a retry on data with the handshake already performed |
| `AdbControl.RetryAsksAgain` | adbconnection/adbconnection.cc:641-650 | a run with a failing sendmsg in which a performed handshake is asked for again |
| `AdbConnection.AdbConnectionState.Turn` | adbconnection/adbconnection.cc:536-658 | in every state that satisfies the invariant and the check at hand, a turn of the loop on the fields is the step of the protocol, keeps the invariant and leaves the flags safe |
| `AdbWire.LockIsMutex` | adbconnection/adbconnection.cc:135-148 | in every reachable state the eventfd counter and the tokens held add up to one, at most one thread is inside, and a packet is written only to the connection that was open at its check |
| `AdbWire.AlwaysFramed` | adbconnection/adbconnection.cc:343-428 | in every reachable state and on every connection never given to the agent: if nobody writes to it, it carries a prefix of the answer to the handshake, or that answer and then whole packets; at most one publisher writes to it, and then what follows the whole packets is exactly the part of its packet that it has written; a closed connection has no part of a packet |
| `AdbDelivery.FinishedWerePublished` | adbconnection/adbconnection.cc:343-428 | over all connections, a packet is carried whole at most as often as it was published |
| `AdbDelivery.PacketsWerePublished` | adbconnection/adbconnection.cc:343-428 | every whole packet on a connection is the packet of a publish action of the run |
| `AdbPackets.BuildPacket` | adbconnection/adbconnection.cc:360-412 | filling the header through a moving pointer gives the packet |
| `AdbPackets.PacketFields` | adbconnection/adbconnection.cc:360-412 | length, id, flags with command or error code, type, data length and data are where a receiver looks for them, in commands and replies |
| `AdbPackets.CommandRoundTrip` | adbconnection/adbconnection.cc:669-767 | a command that is sent is one packet to the reader and gives the same chunk |
| `AdbPackets.Client.PerformHandshake` | adbconnection/adbconnection.cc:769-808 | either the connection is closed, or exactly the fourteen bytes of the handshake have been read |
| `AdbPackets.Client.HandleDataWithoutAgent` | adbconnection/adbconnection.cc:669-767 | a turn reads one whole packet and hands on its chunk, or closes, or loads the agent with nothing read |
| `AdbPackets.RunAgentless` | adbconnection/adbconnection.cc:669-824 | whatever arrives in whatever pieces, when the agent is loaded all bytes so far are the handshake, whole DDM packets, and the unread rest |

## Left out

- Writing with the offsets that the input had, instead of computing them.
- The checksum, the signature and the choice of the magic number; the header takes them as given.
- The section writers differ only in their records and share one loop (`SectionWriter.WriteRecords`); within a file, an
  encoded array or annotation is one piece of bytes, and the writers that produce such pieces are proved on their own.
- The order and the header of a compact dex file, and its code item encoding; only the shared data section and the
  debug info table are modelled.
- CompactDex.Container.WriteItem: models alignment 1, the only one that is used with a deduper; hashing is left out, since
  entries are compared by content and their bytes never change.
- Building the IR object by object while reading, apart from which objects are shared (`Sharing`), encoded values, catch handlers,
  class data, debug info streams and hidden API flags; `DexReader` gives what a file says without sharing.
- CatchHandlerReader.ReadHandlers: the offsets of the tries are starts of lists below 2^16, as the verifier of the format
  demands of a file.
- ReadBack.FileReadsBack: for files below 2^32 bytes, the most that the offsets of the format can address.
- LayoutRun.LayoutAndWrite: the three orders are found on the IR before layout; since none of the steps looks at the vectors of
  the others, this is the order in which the source finds them.
- Layout.LayoutCodeItems: sorts a sequence, not the vector in place; the library's sort is modelled by insertion.
- The switch that also reorders class definitions, which is off.
- Decoding switch payloads into targets, and the text of the dump; edges are sets.
- CfgDump.DumpMethodCFG: takes instructions that tile the code.
- Notifications of DDM, connecting to adbd, thread start-up, and the log.
- AdbPackets.Client.HandleDataWithoutAgent: system calls succeed or fail as a parameter says; a receive that succeeds returns all
  that was asked for, as the amount available was checked before.
- AdbWire.AlwaysFramed: says nothing of connections given to the agent, whose own writes are not framed by this code.
- All other tools of the repository, and the dumping, statistics and XML output of the ones above.
