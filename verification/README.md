# CyuCore: codecs, plugin runtime and session protocol, verified

A Dafny project that models the parts of CyuCore, a Minecraft server core written in Go, whose correctness spans several
functions or several goroutines, and proves what those parts promise.

**Network NBT and the Configuration codecs.** `NetworkNbt` specifies the binary form of NBT as a printer and a
depth-bounded parser over a value tree; `ModifiedUtf8` its strings; `NbtCodec` has the recursive writer and reader with
their loops. `NbtJson` and `NbtJsonCodec` do the same for the typed JSON form, on parsed JSON trees. `Wire` has VarInts,
strings and packet frames. On these rest `RegistryModel` (registries, tags, sets), `ConfigurationCodec` (RegistryData and
UpdateTags), `CaptureCodec` and `CaptureReader` (reading captured payloads back), and `CaptureDataset` and
`CaptureBuilder` (the dataset built from a capture, the set loaded from it, and the numeric ids that survive the way
there and back). `RawTagOrder` and `Sorting` deal with order.

**The plugin runtime.** `TaskModel` is the tick scheduler as a sorted list and `TaskTheorems` its laws over whole runs;
`TaskHeap` and `TaskScheduler` are the indexed binary heap, the owner index and the counters, and refine it. A handler
that runs while the lock is released is a finite list of scheduler operations, and so is what other goroutines do at that
moment. `CommandRegistry` and `EventBus` are the two other owner-scoped registries. `PluginHost` puts the three together;
`PluginLifecycle` has the manager's lifecycle as values and `PluginManager` the manager itself. `NoResidue` takes one
plugin's registrations and its disabling apart into single flag accesses and lock operations.

**Sessions and the tick owner.** `SessionProtocol` is the state machine of network threads, `Close` and the tick owner, one
atomic operation a step; `SessionSafety` proves its invariant in every interleaving and `SessionHistory` the laws.
`Mailbox`, `Seqlock` and `TickLoop` are the two-class mailbox, the player snapshot store and the restartable loop.

Bytes and Go integers are subset types of `int`; wrap-around, truncation and two's complement are written out. A parser is
a function from bytes to a value and the bytes left over, and each reading method is proved to compute it. Errors are
results: where only the kind of an error matters the kinds are kept, elsewhere the failure alone. Functions of the Go
library enter as parameters with their contract: `NbtJson.Faithful` says that strconv reads back what encoding/json
writes of a number.

`dafny verify dfyconfig.toml` checks the project.

## Model

| member | source | states |
|---|---|---|
| `NetworkNbt.NetworkRoundTrip` | internal/nbt/encode.go:16-145 | For every value that can be written and every suffix, reading the encoding followed by the suffix gives exactly the value and leaves exactly the suffix: all twelve types, nested lists and compounds, the same depth bound on both sides |
| `NetworkNbt.DecodableIsEncodable` | internal/nbt/decode.go:14-164 | Whatever the reader returns can be written; its encoding is no longer than the bytes that were consumed, and reads back as the same value |
| `NetworkNbt.NetworkIsPrefixFree` | internal/nbt/encode.go:16-84 | No encoding is a proper prefix of another: equal streams come from equal values |
| `NetworkNbt.RoundTrip` | internal/nbt/decode.go:33-105 | The payload parser inverts the printer at every depth up to the bound |
| `NetworkNbt.FieldsRoundTrip` | internal/nbt/decode.go:137-164 | Compound entries are read back into the same map in whatever order distinct keys were written |
| `NetworkNbt.DecodedIsEncodable` | internal/nbt/decode.go:33-105 | At every depth: what is read has the type asked for, is writable at that depth, and re-encodes in no more bytes |
| `NetworkNbt.DecodedFields` | internal/nbt/decode.go:137-164 | The same for a compound read in any key order, against the encoding in sorted key order |
| `NetworkNbt.LeafRoundTrip` | internal/nbt/encode.go:29-84 | Numbers, strings and arrays are read back as they were written |
| `Sorting.InsertLists` | internal/nbt/encode.go:119-145 | Inserting a key into a sorted list of keys keeps it the sorted list of its elements |
| `Sorting.ListsUnique` | internal/nbt/encode.go:119-145 | A set of keys has only one sorted list, so the encoding does not depend on map order |
| `Sorting.SortStrings` | internal/nbt/encode.go:119-145 | Sorting the keys of a map, in whatever order they are visited, gives that list |
| `Streams.Writer.WriteAll` | internal/nbt/encode.go:178-192 | Repeated short writes hand over all the bytes, in order, or a prefix of them when an error or a write without progress ends it |
| `NbtCodec.WriteLength` | internal/nbt/encode.go:147-152 | A length is written only if it fits a signed 32-bit integer |
| `NbtCodec.WriteInts` | internal/nbt/encode.go:29-84 | The int-array loop emits the specified bytes |
| `NbtCodec.WriteLongs` | internal/nbt/encode.go:29-84 | The long-array loop emits the specified bytes |
| `NbtCodec.WriteLeaf` | internal/nbt/encode.go:29-84 | A number, string or array is emitted as specified, or refused |
| `NbtCodec.WritePayload` | internal/nbt/encode.go:29-84 | The recursive writer appends exactly the specified payload, and succeeds on a sound writer exactly for the values specified as writable |
| `NbtCodec.WriteList` | internal/nbt/encode.go:86-117 | List header and elements; an element of another type, a nil element, or a bad element type of a non-empty list is refused |
| `NbtCodec.WriteElements` | internal/nbt/encode.go:86-117 | The element loop emits the elements one level deeper |
| `NbtCodec.WriteCompound` | internal/nbt/encode.go:119-145 | Entries in sorted key order, then TAG_End |
| `NbtCodec.WriteFields` | internal/nbt/encode.go:119-145 | The loop over the sorted keys |
| `NbtCodec.WriteEntry` | internal/nbt/encode.go:119-145 | One entry: type, name, payload; refused if any of the three is |
| `NbtCodec.WriteNetwork` | internal/nbt/encode.go:16-27 | The unnamed root: type and payload |
| `NbtCodec.ReadLength` | internal/nbt/decode.go:166-176 | A negative length is refused |
| `NbtCodec.ReadInts` | internal/nbt/decode.go:33-105 | The int-array loop reads what the parser specifies |
| `NbtCodec.ReadLongs` | internal/nbt/decode.go:33-105 | The long-array loop reads what the parser specifies |
| `NbtCodec.ReadNumber` | internal/nbt/decode.go:33-105 | Two's-complement and bit-pattern numbers |
| `NbtCodec.ReadLeaf` | internal/nbt/decode.go:33-105 | Numbers, strings and arrays |
| `NbtCodec.ReadPayload` | internal/nbt/decode.go:33-105 | The recursive reader consumes and returns exactly what the parser specifies |
| `NbtCodec.ReadList` | internal/nbt/decode.go:107-135 | List header, its checks and its elements |
| `NbtCodec.ReadCompound` | internal/nbt/decode.go:137-164 | The loop up to TAG_End; a repeated key is refused |
| `NbtCodec.ReadNetwork` | internal/nbt/decode.go:14-31 | The unnamed root |
| `ModifiedUtf8.StringRoundTrip` | internal/nbt/modified_utf8.go:15-50 | A string that can be written is read back, whatever follows it |
| `ModifiedUtf8.ReadableIsWritable` | internal/nbt/modified_utf8_decode.go:9-60 | A string that is read, overlong forms included, can be written in no more bytes, and in as many only if the bytes were the canonical ones |
| `ModifiedUtf8.UnitsThenCodes` | internal/nbt/modified_utf8.go:15-50 | UTF-16 encoding of scalar values is undone by decoding |
| `ModifiedUtf8.CodesThenUnits` | internal/nbt/modified_utf8_decode.go:39-60 | Decoding paired units and encoding again gives the same units |
| `ModifiedUtf8.DecodeOfBytes` | internal/nbt/modified_utf8_decode.go:19-38 | The one- to three-byte forms of units are read back |
| `ModifiedUtf8.TakeUnitCanonical` | internal/nbt/modified_utf8_decode.go:19-38 | The canonical form of a unit is no longer than the form it was read from |
| `ModifiedUtf8.BytesOfDecode` | internal/nbt/modified_utf8_decode.go:19-38 | The same for a whole string of units |
| `ModifiedUtf8.MaskForms` | internal/nbt/modified_utf8_decode.go:19-38 | The masks and shifts of the two files, as the arithmetic used here |
| `ModifiedUtf8.WriteModifiedUTF8` | internal/nbt/modified_utf8.go:15-50 | The loop with its running length check writes the specified bytes or refuses the string |
| `ModifiedUtf8.ReadUnits` | internal/nbt/modified_utf8_decode.go:19-38 | The index loop over bytes |
| `ModifiedUtf8.CheckPairs` | internal/nbt/modified_utf8_decode.go:39-60 | The second loop accepts exactly the units whose surrogates are paired |
| `ModifiedUtf8.ReadModifiedUTF8` | internal/nbt/modified_utf8_decode.go:9-60 | The reader as a whole |
| `NbtJson.JsonRoundTrip` | internal/nbt/json_encode.go:37-126 | For every value that EncodeJSON accepts: decoding the encoding gives the value back if and only if its strings are valid UTF-8 |
| `NbtJson.RoundTrip` | internal/nbt/json.go:59-169 | The payload decoder inverts the payload encoder for the type that the context supplies, although list elements carry none |
| `NbtJson.LeafRoundTrip` | internal/nbt/json.go:59-100 | Numbers, strings and arrays, with an empty intArray written as null |
| `NbtJson.LongPairJoins` | internal/nbt/json_encode.go:128-130 | A signed 64-bit integer is the join of its signed [high, low] halves |
| `NbtJson.LongRoundTrip` | internal/nbt/json.go:254-271 | A long survives the pair representation |
| `NbtJson.BytesRoundTrip` | internal/nbt/json.go:206-220 | A byte array survives as signed numbers |
| `NbtJson.TypeNameRoundTrip` | internal/nbt/json_encode.go:132-163 | Type names and tag types correspond one to one |
| `NbtJson.CompoundRoundTrip` | internal/nbt/json.go:102-132 | A compound is read back from the members of its object |
| `NbtJson.ParsedTextOk` | internal/nbt/json.go:59-100 | Whatever is decoded has only valid strings |
| `NbtJsonCodec.EncodePayload` | internal/nbt/json_encode.go:49-126 | The recursive encoder returns the specified tree exactly for the values specified as representable |
| `NbtJsonCodec.EncodeNode` | internal/nbt/json_encode.go:37-47 | A payload with its type name |
| `NbtJsonCodec.EncodeElements` | internal/nbt/json_encode.go:79-101 | The loop over list elements: nil, a type other than the declared one, or an element that cannot be encoded is refused |
| `NbtJsonCodec.EncodeCompound` | internal/nbt/json_encode.go:102-114 | The loop over a compound's entries in any order |
| `NbtJsonCodec.DecodePayload` | internal/nbt/json.go:59-100 | The dispatch on the type name |
| `NbtJsonCodec.DecodeNode` | internal/nbt/json.go:49-57 | A missing type or value is refused |
| `NbtJsonCodec.DecodeList` | internal/nbt/json.go:134-169 | The list object, its type and its elements |
| `NbtJsonCodec.DecodeElements` | internal/nbt/json.go:157-168 | The loop over list elements |
| `NbtJsonCodec.DecodeCompound` | internal/nbt/json.go:102-132 | The loop over the members in any order; null members are dropped |
| `NbtJsonCodec.DecodeBytes` | internal/nbt/json.go:206-220 | parseByteArray's loop |
| `NbtJsonCodec.DecodeInts` | internal/nbt/json.go:222-236 | parseIntArray's loop |
| `NbtJsonCodec.DecodeLongs` | internal/nbt/json.go:238-252 | parseLongArray's loop |
| `Wire.VarIntRoundTrip` | internal/protocol/codec.go:18-46 | Every int32 is read back from its VarInt of 1 to 5 bytes, whatever follows |
| `Wire.VarIntIsShortest` | internal/protocol/codec.go:18-46 | The VarInt that is written is no longer than any form that is read as the same number |
| `Wire.SeptetsAccepted` | internal/protocol/codec.go:18-31 | A VarInt is accepted exactly when one of the first five bytes ends it, and reading stops behind that byte |
| `Wire.TextRoundTrip` | internal/protocol/codec.go:48-66 | A string is read back exactly when it is within the reader's bound |
| `Wire.PacketRoundTrip` | internal/protocol/codec.go:68-105 | A packet that the writer accepts is read back by a reader with the same bound, up to its end |
| `Wire.PacketsArePrefixFree` | internal/protocol/codec.go:68-105 | Frames are never confused, however they are followed |
| `Wire.AppendVarInt` | internal/protocol/codec.go:33-46 | The append loop emits the 7-bit groups |
| `Wire.ReadVarInt` | internal/protocol/codec.go:18-31 | The shift-accumulate loop, with what is shifted out of 32 bits lost |
| `Wire.AppendString` | internal/protocol/codec.go:63-66 | Length prefix and bytes |
| `Wire.ReadString` | internal/protocol/codec.go:48-61 | Length check and bytes |
| `Wire.ReadPacket` | internal/protocol/codec.go:68-89 | The frame and the id inside it |
| `Wire.WritePacket` | internal/protocol/codec.go:91-105 | A packet out of bounds is refused before anything is written; an accepted one is written whole or an error is reported |
| `RegistryModel.EntryIDInvertsPosition` | internal/registry/model.go:26-47 | An entry's id is its position and the other way round, while positions fit an int32 |
| `RegistryModel.IdsArePositions` | internal/registry/model.go:26-47 | The id map has exactly the keys, each at its position |
| `RegistryModel.NewRegistry` | internal/registry/model.go:26-47 | The constructor accepts exactly valid and distinct keys, and its loop builds that map |
| `RegistryModel.CheckTag` | internal/registry/model.go:143-165 | The checks of one tag: valid key, no repeated entry, every entry present |
| `RegistryModel.CheckTags` | internal/registry/model.go:143-165 | The loop over a group's tags: each passes, and no key repeats |
| `RegistryModel.CheckGroup` | internal/registry/model.go:129-140 | A group belongs to a registry of the set |
| `RegistryModel.NewSet` | internal/registry/model.go:102-127 | The set is made exactly when registries and groups are distinct and every group passes |
| `ConfigurationCodec.AppendEntry` | internal/protocol/java/v776/configuration.go:32-45 | One entry: key, presence byte, and its network NBT if it has data |
| `ConfigurationCodec.EncodeRegistryData` | internal/protocol/java/v776/configuration.go:21-47 | The payload in entry order, or an error for a count or NBT that cannot be written |
| `ConfigurationCodec.AppendCount` | internal/protocol/java/v776/configuration.go:97-102 | A count that does not fit a VarInt is refused |
| `ConfigurationCodec.AppendTag` | internal/protocol/java/v776/configuration.go:79-92 | A tag with its entries as ids; a missing entry is refused |
| `ConfigurationCodec.AppendGroup` | internal/protocol/java/v776/configuration.go:69-93 | A group with its tags |
| `ConfigurationCodec.CountGroups` | internal/protocol/java/v776/configuration.go:57-63 | The first loop counts the registries that have tags |
| `ConfigurationCodec.EncodeUpdateTags` | internal/protocol/java/v776/configuration.go:52-95 | The payload carries the groups in registry order, each entry as its id |
| `ConfigurationCodec.TaggedMembers` | internal/protocol/java/v776/configuration.go:57-73 | Each registry with tags contributes one group |
| `CaptureCodec.RegistryDataRoundTrip` | internal/vanilla/capture/configuration.go:35-91 | A registry's payload is decoded to the same registry, with its key, entries, order and data, exactly when its identifiers, its size and its data meet the reader's bounds, and is refused otherwise, even where the length of an identifier wraps |
| `CaptureCodec.RawGroupsRoundTrip` | internal/vanilla/capture/configuration.go:96-162 | A payload of groups under valid and distinct identifiers is decoded to the same groups exactly when the reader's bounds hold and no group is empty, and is refused otherwise, even where the length of an identifier wraps |
| `CaptureCodec.UpdateTagsRoundTrip` | internal/protocol/java/v776/configuration.go:52-95 | For every set that NewSet makes of well-formed registries: the payload of EncodeUpdateTags is decoded to the set's own groups, one for each tagged registry in registry order, exactly when the reader's bounds hold, and is refused otherwise; and every id of every tag is the position of that tag's entry in its registry |
| `CaptureCodec.IdsResolve` | internal/protocol/java/v776/configuration.go:85-91 | The ids that are emitted for a tag name its entries: each is the position of the entry at the same place, cut to 32 bits |
| `CaptureReader.DecodedRegistryReencodes` | internal/vanilla/capture/configuration.go:35-91 | What DecodeRegistryData accepts passes NewRegistry's checks, can be encoded, and survives another round |
| `CaptureReader.DecodedTagsReencode` | internal/vanilla/capture/configuration.go:96-162 | What DecodeUpdateTags accepts is well formed and survives another round |
| `CaptureReader.ReadRegistryData` | internal/vanilla/capture/configuration.go:35-91 | The decoder's loop, with its set of seen keys, computes the specified parse |
| `CaptureReader.ReadEntries` | internal/vanilla/capture/configuration.go:51-82 | The loop over the entries |
| `CaptureReader.ReadUpdateTags` | internal/vanilla/capture/configuration.go:96-162 | The decoder of tags as a whole |
| `CaptureReader.ReadGroups` | internal/vanilla/capture/configuration.go:104-157 | The loop over the groups |
| `CaptureReader.ReadTags` | internal/vanilla/capture/configuration.go:126-155 | The loop over the tags of a group |
| `CaptureReader.ReadIds` | internal/vanilla/capture/configuration.go:143-153 | The loop over the ids; a negative id is refused |
| `CaptureReader.ReadCount` | internal/vanilla/capture/configuration.go:323-332 | A count above 2^20 or below zero is refused |
| `CaptureDataset.CaptureKeepsIds` | internal/vanilla/capture/configuration.go:186-267 | For registries and groups that DecodeRegistryData and DecodeUpdateTags return, if BuildDataset succeeds on them: DecodeDataset accepts the dataset if and only if no tag repeats an id, and then the set keeps the captured registries unchanged and first, the payload of EncodeUpdateTags carries for every registry and tag exactly the captured ids and nothing else, and DecodeUpdateTags accepts it |
| `CaptureDataset.ReceivedIsCaptured` | internal/vanilla/capture/configuration.go:35-162 | What the two decoders return has well-formed registries with valid strings, and well-formed groups within the reader's bounds |
| `CaptureDataset.AcceptedUnlessRepeated` | internal/registry/model.go:152-163 | A dataset that BuildDataset returns is accepted if and only if no tag repeats an id |
| `CaptureDataset.OrderDoesNotMatter` | internal/vanilla/capture/configuration.go:219-265 | BuildDataset succeeds on one order of the groups and of their tags exactly when it does on any other, and then the dataset is the same |
| `CaptureDataset.RegistriesComeBack` | internal/registry/dataset.go:55-78 | The registries decoded from the dataset are the captured ones and the reported static ones |
| `CaptureDataset.RegistriesByKey` | internal/vanilla/capture/configuration.go:297-313 | Every captured group has a registry in the set whose positions are the ids of the capture |
| `CaptureDataset.IdsRestored` | internal/vanilla/capture/configuration.go:255-261 | Ids resolved to names and looked up again are the same ids; names repeat exactly when ids do |
| `CaptureDataset.SynchronizedSurvives` | internal/vanilla/capture/configuration.go:285-295 | A synchronized registry survives its definition, NBT included |
| `CaptureDataset.EmittedGroups` | internal/protocol/java/v776/configuration.go:69-93 | The groups that the set's payload carries are the captured ones, tags in key order |
| `RawTagOrder.SortTagsView` | internal/vanilla/capture/configuration.go:250-251 | Sorting the tags of a group keeps the ids of each |
| `RawTagOrder.SortTagsCanonical` | internal/vanilla/capture/configuration.go:250-251 | The sorted tags depend on nothing but the ids of each key |
| `CaptureBuilder.BuildDataset` | internal/vanilla/capture/configuration.go:186-267 | The loops of BuildDataset succeed exactly under the stated conditions and return the specified dataset |
| `CaptureBuilder.DefineSynchronized` | internal/vanilla/capture/configuration.go:193-206 | The loop over the synchronized registries |
| `CaptureBuilder.DefineRegistry` | internal/vanilla/capture/configuration.go:285-295 | The definition of one synchronized registry, or an error if its NBT has no JSON form |
| `CaptureBuilder.IndexGroups` | internal/vanilla/capture/configuration.go:210-218 | The loop over the raw groups; a repeated registry is refused |
| `CaptureBuilder.DefineStatic` | internal/vanilla/capture/configuration.go:227-238 | A reported registry is accepted exactly when its ids are 0, 1, 2, ... |
| `CaptureBuilder.ResolveEntryID` | internal/vanilla/capture/configuration.go:297-313 | An id in range names the entry at its position, in the synchronized registry if there is one |
| `CaptureBuilder.ResolveTag` | internal/vanilla/capture/configuration.go:253-261 | The loop over the ids of a tag |
| `CaptureBuilder.ResolveGroup` | internal/vanilla/capture/configuration.go:249-263 | The tags of a group, sorted and resolved |
| `CaptureBuilder.DecodeDefinition` | internal/registry/dataset.go:56-78 | One registry of the dataset, with optional data |
| `CaptureBuilder.LoadDataset` | internal/registry/dataset.go:39-110 | DecodeDataset accepts exactly the documents whose registries and tags pass all checks, and returns their set |
| `TaskScheduler.RepresentationInvariant` | internal/pluginruntime/scheduler.go:72-99 | In every state that the operations keep: queue positions equal task indices, the queue is a (due, id) heap, tasks off it have index -1, byOwner and pending record exactly the active tasks, and the one active task that may be off the queue is a repeating one |
| `TaskHeap.Heap.Swap` | internal/pluginruntime/scheduler.go:79-83 | Exchanges two entries and their indices |
| `TaskHeap.Heap.PushLast` | internal/pluginruntime/scheduler.go:85-89 | Appends a task at its index |
| `TaskHeap.Heap.PopLast` | internal/pluginruntime/scheduler.go:91-99 | Removes the last task and clears its index |
| `TaskHeap.Heap.Up` | internal/pluginruntime/scheduler.go:72-99 | Sift-up restores heap order and indices and keeps the tasks |
| `TaskHeap.Heap.Down` | internal/pluginruntime/scheduler.go:72-99 | Sift-down restores heap order and indices and keeps the tasks, and says whether it moved |
| `TaskHeap.Heap.Push` | internal/pluginruntime/scheduler.go:203 | A pushed task is queued and the heap is valid |
| `TaskHeap.Heap.Pop` | internal/pluginruntime/scheduler.go:271-283 | Takes a least task |
| `TaskHeap.Heap.Remove` | internal/pluginruntime/scheduler.go:216-218 | Removes a task from the middle |
| `TaskHeap.RootIsLeast` | internal/pluginruntime/scheduler.go:72-99 | The first task of a heap precedes all others |
| `TaskScheduler.Scheduler.ScheduleTask` | internal/pluginruntime/scheduler.go:154-205 | Refines the sorted-list model: same refusals in the same order, deadline overflow included, or the task is issued |
| `TaskScheduler.Scheduler.CancelTask` | internal/pluginruntime/scheduler.go:207-221 | True exactly for an active task, which leaves heap, index and counters |
| `TaskScheduler.Scheduler.CloseOwner` | internal/pluginruntime/scheduler.go:133-143 | The owner's tasks are gone from heap, index and counters, the running one included |
| `TaskScheduler.Scheduler.OpenOwner` | internal/pluginruntime/scheduler.go:123-131 | Only the owner's flag changes |
| `TaskScheduler.Scheduler.RemoveOwnerTasks` | internal/pluginruntime/scheduler.go:223-235 | The teardown loop |
| `TaskScheduler.Scheduler.Retire` | internal/pluginruntime/scheduler.go:237-252 | A task leaves index and counters and stops being active |
| `TaskScheduler.Scheduler.TakeDue` | internal/pluginruntime/scheduler.go:271-283 | The pop of a round refines the model, retiring a one-shot |
| `TaskScheduler.Scheduler.Settle` | internal/pluginruntime/scheduler.go:300-316 | The last locked section of a round: requeue by the interval, or drop |
| `TaskScheduler.Scheduler.RunRound` | internal/pluginruntime/scheduler.go:271-317 | A round, with whatever handlers and other goroutines do between its locked sections, refines the model's round |
| `TaskScheduler.Scheduler.RunLoop` | internal/pluginruntime/scheduler.go:271-317 | The loop refines the model's loop and reports its failures |
| `TaskScheduler.Scheduler.AdvanceTick` | internal/pluginruntime/scheduler.go:254-319 | advance as a whole refines the model |
| `TaskModel.RoundProgress` | internal/pluginruntime/scheduler.go:271-317 | Every round leaves fewer due tasks, whatever handlers schedule: advance terminates |
| `TaskTheorems.PopsInOrder` | internal/pluginruntime/scheduler.go:254-319 | Tasks are taken in strictly increasing (due, id), each at most once, and only due ones |
| `TaskTheorems.RunsWithinBudget` | internal/pluginruntime/scheduler.go:254-319 | Handlers run for a subsequence of those, at most `limit` of them; if fewer run then nothing due is left |
| `TaskTheorems.LoopLogsRuns` | internal/pluginruntime/scheduler.go:286-298 | The handlers that run are exactly those recorded |
| `TaskTheorems.ExecKeepsInv` | internal/pluginruntime/scheduler.go:154-235 | Every operation keeps the model's invariant |
| `TaskTheorems.AdvanceKeepsInv` | internal/pluginruntime/scheduler.go:254-319 | So does advance with arbitrary handlers |
| `TaskTheorems.NoStarvation` | internal/pluginruntime/scheduler.go:259-317 | An overdue task with k tasks before it is popped or removed within k / limit + 1 further calls of advance, whatever is scheduled meanwhile |
| `TaskTheorems.WholeRuns` | internal/pluginruntime/scheduler.go:154-319 | Over every run: no task runs before its delay, runs of a repeating task are at least its interval apart, a one-shot runs once, every handler run has a pop of its own at the same tick, and after Cancel returns true the task is not popped again and runs at most once more, from a pop that preceded the cancellation |
| `CommandRegistry.LiteralsAreDisjoint` | internal/pluginruntime/command_registry.go:75-117 | No literal belongs to two records |
| `CommandRegistry.FirstObstacleIsFirst` | internal/pluginruntime/command_registry.go:95-102 | The error is decided by the first literal that is reserved or taken |
| `CommandRegistry.EnlistedIsConsistent` | internal/pluginruntime/command_registry.go:104-115 | Entering a record under free literals keeps byName and byID in step |
| `CommandRegistry.Registry.Reserve` | internal/pluginruntime/command_registry.go:48-73 | All names are reserved or none |
| `CommandRegistry.Registry.Register` | internal/pluginruntime/command_registry.go:75-117 | Errors in the order of the checks; all literals are registered under a new id or nothing changes |
| `CommandRegistry.Registry.Remove` | internal/pluginruntime/command_registry.go:119-137 | Exactly one record and its literals go |
| `CommandRegistry.Registry.RemoveOwner` | internal/pluginruntime/command_registry.go:139-160 | Exactly the owner's records and literals go, in whatever order they are visited, and are counted |
| `CommandRegistry.Registry.Resolve` | internal/pluginruntime/command_registry.go:162-179 | A literal reaches its record exactly while the owner is enabled |
| `EventBus.CallsFollowTheSnapshot` | internal/pluginruntime/event_bus.go:152-171 | Dispatch calls a handler exactly when it is in the table that was loaded and its owner is enabled at its turn: once, in subscription order |
| `EventBus.Bus.Add` | internal/pluginruntime/event_bus.go:45-74 | Errors in the order of the checks; otherwise one more handler at the end of its list |
| `EventBus.Bus.Remove` | internal/pluginruntime/event_bus.go:76-107 | Exactly one handler goes, and an emptied list with it |
| `EventBus.Bus.RemoveOwner` | internal/pluginruntime/event_bus.go:109-138 | Exactly the owner's handlers go, in whatever order the lists are visited, and are counted |
| `EventBus.Bus.Dispatch` | internal/pluginruntime/event_bus.go:140-172 | The loop over the loaded list, while handlers change the bus; afterwards the bus is as their changes, in the order of the calls, have left it |
| `EventBus.Bus.Perform` | internal/pluginruntime/event_bus.go:45-138 | One change that a handler makes, as a function of the table and the id counter |
| `EventBus.PurgedIsSound` | internal/pluginruntime/event_bus.go:109-138 | Removing an owner keeps lists non-empty, ordered and ids unique |
| `PluginHost.QuietHoldsNothing` | internal/pluginruntime/manager.go:331-351 | A quiet plugin has no handler, no command, no task, no index entry and no pending count |
| `PluginHost.Host.Act` | internal/pluginruntime/manager.go:209-219 | No call of plugin code gives a shut-out plugin anything, or sets a flag |
| `PluginHost.Host.Shut` | internal/pluginruntime/manager.go:332-334 | The first part of disableEntry shuts the plugin out, whatever plugin code does between its steps |
| `PluginHost.Host.Purge` | internal/pluginruntime/manager.go:342-343 | The second part leaves the plugin quiet |
| `PluginHost.Host.Admit` | internal/pluginruntime/manager.go:251-253 | The first part of enabling clears enabled, sets acceptSubscriptions and opens the scheduler for the plugin and for no other, and leaves quiet plugins quiet |
| `PluginLifecycle.LifecycleIsBracketed` | internal/pluginruntime/manager.go:234-351 | Over every sequence of operations and hook outcomes, at every point of the trace each Disable closes the innermost open Enable; the default branch of enablePlan is not reached |
| `PluginLifecycle.PerformKeepsSound` | internal/pluginruntime/manager.go:179-329 | Between operations the manager is active exactly when all plugins are enabled, no plugin is left enabling or disabling, and the open Enable calls are those of the running plugins |
| `PluginLifecycle.EnableAllOutcome` | internal/pluginruntime/manager.go:234-287 | EnableAll enables all in order; or the first plugin that fails is cleaned up and failed, those before it are disabled in reverse, those after it untouched |
| `PluginLifecycle.DisableAllOutcome` | internal/pluginruntime/manager.go:310-329 | DisableAll disables every running plugin in reverse order, whatever the hooks do |
| `PluginLifecycle.PlanOutcome` | internal/pluginruntime/manager.go:289-306 | enablePlan succeeds exactly when no plugin has failed |
| `PluginManager.Manager.AddPlugin` | internal/pluginruntime/manager.go:179-229 | Errors in the order of the checks; otherwise the plugin is registered last |
| `PluginManager.Manager.EnablePlugins` | internal/pluginruntime/manager.go:234-287 | Refines EnableAll; afterwards a plugin that does not run holds nothing in any registry |
| `PluginManager.Manager.Plan` | internal/pluginruntime/manager.go:289-306 | Refines enablePlan |
| `PluginManager.Manager.RunPlan` | internal/pluginruntime/manager.go:249-286 | The enabling loop |
| `PluginManager.Manager.Undo` | internal/pluginruntime/manager.go:268-282 | Clean-up of the failing plugin and roll-back |
| `PluginManager.Manager.Revert` | internal/pluginruntime/manager.go:275-280 | The roll-back loop |
| `PluginManager.Manager.Disable` | internal/pluginruntime/manager.go:331-351 | Refines disableEntry and leaves the plugin quiet |
| `PluginManager.Manager.Enable` | internal/pluginruntime/manager.go:250-266 | One turn of the enabling loop |
| `PluginManager.Manager.DisablePlugins` | internal/pluginruntime/manager.go:310-329 | Refines DisableAll; afterwards no plugin holds anything |
| `PluginManager.Manager.DisableRunning` | internal/pluginruntime/manager.go:319-326 | The disabling loop |
| `NoResidue.NothingIsLeft` | internal/pluginruntime/manager.go:331-351 | In every interleaving of flag accesses and lock operations: when disableEntry is over, the three registries hold nothing of the plugin and no call under way will add anything |
| `NoResidue.NothingComesBack` | internal/pluginruntime/manager.go:331-351 | They stay empty until the plugin is enabled again |
| `NoResidue.StepKeepsInv` | internal/pluginruntime/command_registry.go:86-94 | Every step of manager and goroutines keeps the invariant this rests on |
| `SessionHistory.NoGhostPlayers` | server.go:214-238 | A closed session that is in the player map has a removal queued, a Close that has not finished, or the tick owner about to delete it |
| `SessionHistory.QuietMeansNoGhosts` | server.go:287-312 | With no removal queued and no Close under way, no closed session is a player or registered |
| `SessionHistory.ClosedIsAbsorbing` | session_login.go:122-159 | No step leaves Closed, and only the owner's compare-and-swap after the configuration was sent enters Play |
| `SessionHistory.PlayersConserved` | server.go:211-312 | Between events onlineCount is the size of the map, and the registered sessions are exactly the map's values under their own keys |
| `SessionHistory.EventsConserved` | player_state.go:177-214 | A session joins at most once, quits at most once and later, a duplicate does neither, and nothing changes on a session's behalf after its removal |
| `SessionHistory.BarrierDrains` | server.go:126-143 | When the owner signals the barrier, every removal queued before it has been applied |
| `SessionSafety.StepKeeps` | session.go:115-128 | Every step of Close, of the network threads and of the owner keeps the invariant |
| `SessionHistory.StepHistory` | player_state.go:161-188 | Every step keeps what the history says of each session |
| `Seqlock.LoadIsLinearizable` | player_state.go:89-110 | A snapshot that Load returns is the one that was complete at its first read of the sequence, in every interleaving |
| `Seqlock.SequenceNamesVersion` | player_state.go:74-110 | An even sequence names the version that the fields hold |
| `Seqlock.StepKeeps` | player_state.go:74-110 | Every atomic step of writer and readers keeps the invariant |
| `Mailbox.DrainConserves` | player_state.go:161-175 | A drain delivers to each class exactly what it applies of that class, in the order in which it applies it; everything accepted is delivered or waiting, once and in order; it stops short only on an empty mailbox |
| `Mailbox.DrainPrefersCritical` | internal/runtime/mailbox/queue.go:56-87 | Every event that a drain applies is the oldest of its class, and an ordinary one is applied only if no critical one was waiting when it was taken |
| `Mailbox.DrainServesCritical` | internal/runtime/mailbox/queue.go:56-87 | A drain begins with the critical values waiting at its start, in order, as far as its limit goes, whatever the ordinary backlog |
| `Mailbox.BarrierIsReached` | server.go:126-143 | A critical value behind k others is delivered within k / limit + 1 ticks, and everything critical that was accepted before it |
| `Mailbox.TicksServeCritical` | player_state.go:161-175 | The same bound over any number of ticks, with producers posting meanwhile |
| `Mailbox.Queue.TryPost` | internal/runtime/mailbox/queue.go:29-39 | Accepts exactly while there is room |
| `Mailbox.Queue.PostCritical` | internal/runtime/mailbox/queue.go:43-51 | Always accepts |
| `Mailbox.Queue.PopCritical` | internal/runtime/mailbox/queue.go:72-87 | The oldest critical value |
| `Mailbox.Queue.TryPop` | internal/runtime/mailbox/queue.go:56-70 | Critical first, then ordinary, with posts between the two looks |
| `Mailbox.Queue.Drain` | player_state.go:161-175 | The drain loop refines the model: what it applies, in order, and what it leaves |
| `TickLoop.OneRunner` | internal/runtime/tick/loop.go:53-137 | At most one run goroutine is alive |
| `TickLoop.StopChannelClosedOnce` | internal/runtime/tick/loop.go:68-88 | Each generation's stop channel is closed at most once |
| `TickLoop.NoCallbackAfterStop` | internal/runtime/tick/loop.go:68-137 | After a Stop that returns true, no callback runs until a later Start |
| `TickLoop.NoCallbackAfterReturn` | internal/runtime/tick/loop.go:68-88 | Nor does one of the stopped generation, or an earlier one, once Stop has returned |
| `TickLoop.StepKeepsStructure` | internal/runtime/tick/loop.go:53-137 | Every critical section and channel operation keeps the invariant |

## Left out

- CaptureDataset.AcceptedUnlessRepeated: a tag that repeats an id is accepted by DecodeUpdateTags and BuildDataset and refused only when the dataset is loaded; the model follows the code, and CaptureKeepsIds says that acceptance depends on exactly that.
- NbtJson.JsonRoundTrip: JSON text is not modelled, so neither are encoding/json's nesting limit, its case-insensitive field names, and its reading of a string that holds a number where a number is expected.
- NetworkNbt.DecodableIsEncodable: memory that the Go reader allocates for a length before it reads the elements is not modelled.
- TaskScheduler.Scheduler.ScheduleTask: task ids and the current tick are unbounded, so exhaustion of the 64-bit id counter is not modelled; the deadline-overflow checks are.
- Seqlock.LoadIsLinearizable: the sequence is unbounded, so the wrap of the 64-bit sequence after 2^63 stores, with a reader that sleeps through all of them, is not modelled.
- SessionHistory.NoGhostPlayers: the tick loop is running; what RemovePlayer does directly once the loop has stopped is not modelled.
- SessionProtocol is a state machine over values, as are Seqlock, TickLoop and NoResidue: their point is the interleaving of atomic steps, which a sequential method does not show, so updating fields in place is not captured there.
- PluginManager.Manager: an entry is a number, its lifecycle state a map value of the manager, and its enabled and acceptSubscriptions flags are set members of the scheduler and of the host; identity of entry objects beyond the number is not captured.
- PluginManager.Manager.EnablePlugins: hooks do not call the manager itself, whose lifecycle mutex is not reentrant.
- TaskScheduler.Scheduler.AdvanceTick: per-owner call counts and durations are not modelled, only which handlers run and which fail.
- TaskScheduler.Scheduler.OpenOwner: an owner's state is a map value here, where the Go code shares one object between the map and the owner's tasks.
- EventBus.Bus.Dispatch: durations and panic stacks are not modelled; a panic is a failed call.
- CommandRegistry.Registry.Resolve: the handler's invocation itself, its arguments and its metrics are not modelled.
- RegistryModel.NewSet: nil registries and ValidateRequirements are not modelled.
- CaptureBuilder.BuildDataset: the order that sort.Slice gives to tags with equal keys is taken to be stable; such tags are refused when the dataset is loaded.
- Cloning of NBT values, registries and tag groups is the identity on the values used here, so aliasing is not captured; NewList is not modelled.
- Sockets, keepalive and read loops, deadlines, logging, configuration files, packet builders, chunks, in-game commands, and the parsing of Mojang's reports are left out; the report is taken as a map from registries to entry lists with valid and distinct names, which is what its parser lets through.
- Unregister and Cancel handles have a flag that makes a second call return false; only the removal they call is modelled.
