# Deepend core, modelled in Dafny

Deepend is a client/server data store. This project models four parts of its core:

- **DataUtil.getDataObject.** It resolves a selector against a tree of data holders:
  - an explicit name;
  - a comma-separated list of names;
  - the wildcard `*` (every child);
  - the wildcard `*u` (every leaf, and the sub-holders that need an update for the asking peer).

  A missing selector in the request buffer falls back to enumerating every child. A sub-holder in a result is wrapped in a `HolderWrapper`, or resolved from the next selector in the buffer; in the fallback enumeration without wrapping it appears as its fallback object.
- **ServerResponse.** Eight response constants take byte codes 0 to 7 from a static counter. A byte-to-constant cache backs a total lookup that answers `UNKNOWN` for any byte it does not know.
- **BitField.** A map from each enum value's byte to the value. `construct` ORs the bytes of a collection into an `int`, and `extract` recovers the values whose bytes the field covers.
- **RequestChain.** A priority queue of data requests ordered by `internalID`, with a pending-request counter and an optional terminal request. `handle` drains the queue in ID order, then runs the terminal request once.

How each part is modelled:

- **Pure logic becomes specification functions.** `DataUtil.Resolve`, `ServerResponse.GetServerResponse` and `Bits.Construction` are examples. Lemmas state their properties.
- **Stateful code becomes classes.**
  - `DataUtil.DeependBuf` is the request buffer's cursor.
  - `DataUtil.DataList` is the result list.
  - `ServerResponse.ResponseTable` is the enum's static state.
  - `Bits.BitField` and `Requests.RequestChain` are the two classes of the same names.
- **Every method is tied to its specification.** Each method's `ensures` connects it to the specification function or to the new state. `GetDataObject`, for example, leaves the buffer and the lists as `Resolve` prescribes.

Java semantics the model writes out:

- `String.split(",")` drops trailing empty pieces; this is `JavaStrings.Split`.
- A `byte` widens to an `int` by sign extension; this is `Bits.Widen`.
- `b++` on a byte wraps around; this is `ServerResponse.Increment`.
- `java.lang.Byte` map keys are modelled by the datatype `Bits.Byte`.
- `PriorityQueue.poll` may return any element of least ID; this is `Requests.RequestChain.Poll`.

An empty chain returns before its terminal request runs (`RequestChain.java:37-40`), and so does `Requests.RequestChain.Handle`.

## Model

| member | source | states |
|---|---|---|
| DataUtil.Wrap | src/main/java/com/minecade/deepend/util/DataUtil.java:194-211 | a HolderWrapper is named after its holder, carries an empty value, and its delete() deletes the holder |
| DataUtil.FindKey | src/main/java/com/minecade/deepend/util/DataUtil.java:151 | the position of the first child stored under the key; None exactly when no child has that key |
| DataUtil.Fallbacks | src/main/java/com/minecade/deepend/util/DataUtil.java:73-89 | the fallback enumeration has one item per child, in order: a leaf itself, a sub-holder as a HolderWrapper when wrapping, else its fallback object |
| DataUtil.Resolve | src/main/java/com/minecade/deepend/util/DataUtil.java:58-185 | a call only ever appends to the caller's list and never moves the buffer cursor back |
| DataUtil.ResolvePieces | src/main/java/com/minecade/deepend/util/DataUtil.java:137-147 | the comma loop only appends, never moves the cursor back, and never returns a fresh one-element list |
| DataUtil.ResolveName | src/main/java/com/minecade/deepend/util/DataUtil.java:149-184 | a single name only appends to the caller's list and never moves the cursor back |
| DataUtil.ExpandedPiecesPlain | src/main/java/com/minecade/deepend/util/DataUtil.java:95-139 | every piece of an expanded `*` or `*u` is a name the holder itself supplied, so it is neither a wildcard nor a list |
| DataUtil.DeependBuf.GetString | src/main/java/com/minecade/deepend/util/DataUtil.java:67 | the read returns the next string and advances the cursor, or fails and leaves the cursor as it was when the buffer is exhausted |
| DataUtil.DataList.Add | src/main/java/com/minecade/deepend/util/DataUtil.java:76-88 | the list gains exactly the item, at its end |
| DataUtil.DataList.AddAll | src/main/java/com/minecade/deepend/util/DataUtil.java:146 | the list gains exactly the given items, in order, at its end |
| DataUtil.StarSelector | src/main/java/com/minecade/deepend/util/DataUtil.java:95-107 | the `*` loop builds the holder's keys in iteration order with "," between them |
| DataUtil.Expand | src/main/java/com/minecade/deepend/util/DataUtil.java:95-137 | a selector other than `*` and `*u` is kept as it is; either wildcard over two or more children expands to a list that contains "," and so takes the comma branch |
| DataUtil.ChangedOnlyRawIsJoin | src/main/java/com/minecade/deepend/util/DataUtil.java:110-125 | the `*u` builder is empty for a holder without children, and otherwise is the joined contributions followed by one "," |
| DataUtil.ChangedOnlySelector | src/main/java/com/minecade/deepend/util/DataUtil.java:108-132 | after the trailing "," is trimmed, the `*u` selector is the children's contributions joined with "," (a skipped sub-holder contributes "") |
| DataUtil.GetDataObject | src/main/java/com/minecade/deepend/util/DataUtil.java:58-185 | the returned reference, the caller's list and the buffer cursor agree with Resolve; a one-element result list is freshly allocated |
| DataUtil.AppendFallbacks | src/main/java/com/minecade/deepend/util/DataUtil.java:68-91 | after a failed read the caller's list gains Fallbacks of the children, in order |
| DataUtil.GetEachPiece | src/main/java/com/minecade/deepend/util/DataUtil.java:137-147 | the imperative comma loop agrees with ResolvePieces |
| DataUtil.GetByName | src/main/java/com/minecade/deepend/util/DataUtil.java:149-184 | the imperative single-name branch agrees with ResolveName |
| JavaStrings.FirstComma | src/main/java/com/minecade/deepend/util/DataUtil.java:139 | the index of the first "," in a string that has one |
| JavaStrings.Join | src/main/java/com/minecade/deepend/util/DataUtil.java:97-106 | the StringBuilder join puts "," between names, so two or more names always give a string containing "," |
| JavaStrings.RawSplit | src/main/java/com/minecade/deepend/util/DataUtil.java:139 | splitting at every "," gives at least one piece, and no piece contains "," |
| JavaStrings.DropTrailingEmpty | src/main/java/com/minecade/deepend/util/DataUtil.java:139 | the result is a prefix that does not end in "", and only "" pieces were removed |
| JavaStrings.Split | src/main/java/com/minecade/deepend/util/DataUtil.java:139 | Java's split(",") gives comma-free pieces, and a string without "," gives just itself |
| JavaStrings.JoinSnoc | src/main/java/com/minecade/deepend/util/DataUtil.java:99-106 | appending a key to a non-empty join adds "," and then the key |
| JavaStrings.JoinHasComma | src/main/java/com/minecade/deepend/util/DataUtil.java:137 | a join of comma-free names contains "," exactly when it has two or more names |
| JavaStrings.RawSplitJoin | src/main/java/com/minecade/deepend/util/DataUtil.java:139 | splitting a join of comma-free names gives the names back |
| JavaStrings.JoinRawSplit | src/main/java/com/minecade/deepend/util/DataUtil.java:139 | joining the pieces of a split gives the string back |
| JavaStrings.SplitJoin | src/main/java/com/minecade/deepend/util/DataUtil.java:137-139 | Java's split of a join of two or more names gives the names without their trailing empty ones |
| DataUtilProperties.ReadFailureEnumeratesChildren | src/main/java/com/minecade/deepend/util/DataUtil.java:62-91 | when the buffer is exhausted, the call returns the caller's list extended by one item per child, in order: a leaf as is, a sub-holder wrapped when wrapping, else its fallback |
| DataUtilProperties.StarIsKeyList | src/main/java/com/minecade/deepend/util/DataUtil.java:95-107 | `*` behaves exactly like the explicit list of the holder's keys |
| DataUtilProperties.StarPiecesAreKeys | src/main/java/com/minecade/deepend/util/DataUtil.java:97-106 | the pieces of the `*` expansion are exactly the holder's keys in order |
| DataUtilProperties.StarOnEmptyHolderIsNull | src/main/java/com/minecade/deepend/util/DataUtil.java:95-107 | `*` on a holder without children returns null, leaving the list and the cursor untouched |
| DataUtilProperties.ChangedOnlyPieces | src/main/java/com/minecade/deepend/util/DataUtil.java:108-132 | the `*u` expansion has one piece per child: a leaf's name, a sub-holder's identifier when it needs an update for the peer, and "" otherwise |
| DataUtilProperties.CommaListIsPieces | src/main/java/com/minecade/deepend/util/DataUtil.java:137-147 | a selector containing "," resolves as the comma loop over its Java split pieces |
| DataUtilProperties.PiecesCompose | src/main/java/com/minecade/deepend/util/DataUtil.java:139-147 | the comma loop over two lists runs the second from where the first ended; a null from the first is the result |
| DataUtilProperties.PieceFailureFailsAll | src/main/java/com/minecade/deepend/util/DataUtil.java:141-145 | a piece that resolves to null ends the loop with null, keeping what the earlier pieces appended |
| DataUtilProperties.MissingPieceFails | src/main/java/com/minecade/deepend/util/DataUtil.java:141-155 | a piece that names no child makes the whole list return null |
| DataUtilProperties.MissingNameIsNull | src/main/java/com/minecade/deepend/util/DataUtil.java:151-156 | a name that is not a key returns null, leaving the list and the cursor untouched |
| DataUtilProperties.LeafNameAppendsLeaf | src/main/java/com/minecade/deepend/util/DataUtil.java:157-159 | a name stored as a leaf appends exactly that object and returns the caller's list without reading the buffer |
| DataUtilProperties.SubHolderName | src/main/java/com/minecade/deepend/util/DataUtil.java:160-181 | a name stored as a sub-holder appends its wrapper when wrapping; otherwise the nested call on the next buffer string decides, and a null nested result becomes a fresh one-element list holding a HolderWrapper of the sub-holder |
| DataUtilProperties.PiecesStep | src/main/java/com/minecade/deepend/util/DataUtil.java:139-147 | one turn of the comma loop: the first piece's items are appended and the rest continue from its cursor |
| DataUtilProperties.LeafPiecesResolve | src/main/java/com/minecade/deepend/util/DataUtil.java:139-159 | a list of names of leaves appends exactly those leaves, in order, and reads nothing |
| DataUtilProperties.LeafNamesResolve | src/main/java/com/minecade/deepend/util/DataUtil.java:137-159 | the joined selector of one or more leaf names, the last not "", returns the caller's list extended by those leaves, with the cursor unchanged |
| DataUtilProperties.FindKeyOfKey | src/main/java/com/minecade/deepend/util/DataUtil.java:151 | with distinct keys, a child's own key finds that child |
| DataUtilProperties.StarOnLeavesReturnsAll | src/main/java/com/minecade/deepend/util/DataUtil.java:95-159 | `*` on a non-empty holder of leaves whose last key is not "" returns the caller's list extended by every leaf in order, which is also what the fallback enumeration gives |
| DataUtilProperties.ExplicitOnLeavesReadsNothing | src/main/java/com/minecade/deepend/util/DataUtil.java:95-184 | on a holder whose children are all leaves, an explicit selector never consumes the buffer |
| DataUtilProperties.PiecesOnLeavesReadNothing | src/main/java/com/minecade/deepend/util/DataUtil.java:137-147 | on such a holder the comma loop never consumes the buffer |
| DataUtilProperties.SkippedHolderBreaksChangedOnly | src/main/java/com/minecade/deepend/util/DataUtil.java:110-155 | as written, when no key is empty, `*u` returns null whenever a sub-holder that needs no update precedes a child that contributes a name |
| DataUtilProperties.IncludedAreLeaves | src/main/java/com/minecade/deepend/util/DataUtil.java:110-122 | when no sub-holder needs an update, the names `*u` means to include are exactly the leaves, in order |
| DataUtilProperties.IntendedChangedOnlyResolvesLeaves | src/main/java/com/minecade/deepend/util/DataUtil.java:108-159 | with a separator only between included names, `*u` over current sub-holders returns the caller's list extended by every leaf, and reads nothing |
| DataUtilProperties.ChangedOnlyIsCommaList | src/main/java/com/minecade/deepend/util/DataUtil.java:108-147 | a `*u` expansion containing "," is resolved by the comma loop over its Java split pieces |
| DataUtilProperties.EmptyPieceSurvives | src/main/java/com/minecade/deepend/util/DataUtil.java:124-139 | an empty contribution before a non-empty one remains an empty piece, at the same position, after Java's split |
| DataUtilProperties.ChangedOnlyExample | src/main/java/com/minecade/deepend/util/DataUtil.java:108-155 | for children `h` (a sub-holder that needs no update) and `x` (a leaf), the code expands `*u` to ",x" and returns null |
| DataUtilProperties.IntendedChangedOnlyExample | src/main/java/com/minecade/deepend/util/DataUtil.java:108-159 | for the same holder the intended expansion is "x", and it returns a list holding just the leaf `x` |
| ServerResponse.Increment | src/main/java/com/minecade/deepend/ServerResponse.java:110-113 | `b++` yields the successor modulo 256 within the byte range |
| ServerResponse.Values | src/main/java/com/minecade/deepend/ServerResponse.java:52-94 | values() has eight entries, one per declared constant (each listed once, by `ServerResponse.ValuesListsEachOnce`) |
| ServerResponse.ValuesListsEachOnce | src/main/java/com/minecade/deepend/ServerResponse.java:52-94 | values() lists every constant exactly once |
| ServerResponse.GetValue | src/main/java/com/minecade/deepend/ServerResponse.java:130-134 | a constant's code is its declaration position, which lies in 0..7 |
| ServerResponse.Cache | src/main/java/com/minecade/deepend/ServerResponse.java:96-106 | after the static block the cache has exactly the keys 0..7 |
| ServerResponse.GetServerResponse | src/main/java/com/minecade/deepend/ServerResponse.java:121-128 | a byte in 0..7 gives the constant with that code; any other byte gives UNKNOWN |
| ServerResponse.LookupOfValue | src/main/java/com/minecade/deepend/ServerResponse.java:99-134 | looking up a constant's code gives the constant back |
| ServerResponse.CodesDistinct | src/main/java/com/minecade/deepend/ServerResponse.java:99-106 | the codes are distinct, so the cache keeps eight entries and maps every code to its constant |
| ServerResponse.UnknownExactly | src/main/java/com/minecade/deepend/ServerResponse.java:121-128 | the lookup gives UNKNOWN exactly for UNKNOWN's own code 0 and for bytes outside 0..7 |
| ServerResponse.ResponseTable.GetNextByte | src/main/java/com/minecade/deepend/ServerResponse.java:110-113 | returns the counter and leaves it post-incremented with byte wrap-around, changing nothing else |
| ServerResponse.ResponseTable.Initialize | src/main/java/com/minecade/deepend/ServerResponse.java:52-106 | class initialisation leaves every constant holding its position as its code, the cache equal to Cache(), and the counter at 0, reset by its own initialiser |
| ServerResponse.ResponseTable.DeclareConstants | src/main/java/com/minecade/deepend/ServerResponse.java:52-94 | the constant declarations, each taking getNextByte(), give the constants the codes 0..7 and leave the counter at 8 |
| ServerResponse.ResponseTable.FillCache | src/main/java/com/minecade/deepend/ServerResponse.java:99-106 | the static block's loop fills the cache to exactly Cache() |
| ServerResponse.ResponseTable.Lookup | src/main/java/com/minecade/deepend/ServerResponse.java:121-128 | the cache-backed lookup agrees with GetServerResponse |
| ServerResponse.ResponseTable.Value | src/main/java/com/minecade/deepend/ServerResponse.java:130-134 | the stored responseCode agrees with GetValue |
| Bits.Widen | src/main/java/com/minecade/deepend/bits/BitField.java:71 | byte-to-int widening keeps the low 8 bits and copies bit 7 into the 24 high bits |
| Bits.WidenOr | src/main/java/com/minecade/deepend/bits/BitField.java:67-71 | widening distributes over OR, so ORing bytes and then widening equals ORing the widened bytes |
| Bits.WidenCovers | src/main/java/com/minecade/deepend/bits/BitField.java:43 | the int test `(field & b) == b` on widened bytes holds exactly when the bytes' bits cover each other |
| Bits.Construction | src/main/java/com/minecade/deepend/bits/BitField.java:62-72 | the constructed field is the widened OR of the objects' bytes |
| Bits.OrBytes | src/main/java/com/minecade/deepend/bits/BitField.java:67-70 | the byte accumulator after a step covers the byte just or-ed in |
| Bits.OrBytesCoversEach | src/main/java/com/minecade/deepend/bits/BitField.java:67-70 | the OR of the bytes covers every object's byte |
| Bits.OrBytesIsLeast | src/main/java/com/minecade/deepend/bits/BitField.java:67-70 | any byte covering every object's byte covers the OR; it is the least such byte |
| Bits.OrBytesOfSameElements | src/main/java/com/minecade/deepend/bits/BitField.java:62-72 | construct depends only on which objects occur, not on their order or on repeats |
| Bits.Registry | src/main/java/com/minecade/deepend/bits/BitField.java:21-27 | every value's byte is a key, and each key maps to a given value whose byte it is |
| Bits.LaterRegistrationWins | src/main/java/com/minecade/deepend/bits/BitField.java:24-26 | a value with no later value of the same byte is the one stored under its byte |
| Bits.SingleBitCovers | src/main/java/com/minecade/deepend/bits/BitField.java:43 | a single bit is covered by an OR exactly when one operand covers it |
| Bits.OrCoversBit | src/main/java/com/minecade/deepend/bits/BitField.java:67-70 | with single-bit bytes, the OR covers a bit exactly when some object has that byte |
| Bits.BitField.constructor | src/main/java/com/minecade/deepend/bits/BitField.java:21-27 | the constructor's loop builds internalMap equal to Registry of the values |
| Bits.BitField.Construct | src/main/java/com/minecade/deepend/bits/BitField.java:62-72 | the iterator loop computes Construction, and 0 for an empty collection |
| Bits.BitField.ConstructArray | src/main/java/com/minecade/deepend/bits/BitField.java:50-53 | the varargs overload computes Construction of the array's elements |
| Bits.BitField.Extract | src/main/java/com/minecade/deepend/bits/BitField.java:39-44 | field 0 gives the empty set; otherwise every registered value whose byte the field selects is returned, and nothing else |
| Bits.ExtractReturnsRegistered | src/main/java/com/minecade/deepend/bits/BitField.java:24-43 | extract only returns values given to the constructor |
| Bits.ZeroByteAlwaysExtracted | src/main/java/com/minecade/deepend/bits/BitField.java:40-43 | a value registered under byte 0 is in the result of every non-zero field |
| Bits.ExtractConstruct | src/main/java/com/minecade/deepend/bits/BitField.java:39-72 | with distinct single-bit bytes, extract(construct(xs)) is exactly the set of xs |
| Bits.ConstructUnpack | src/main/java/com/minecade/deepend/bits/BitField.java:39-72 | with distinct single-bit bytes, constructing the values extracted from a sign-extended byte field gives back that field restricted to the registered bits |
| Bits.UnpackedBit | src/main/java/com/minecade/deepend/bits/BitField.java:39-44 | an extracted value has bit k exactly when the field has k and some registered value has byte k |
| Bits.RawTopBitNotExtracted | src/main/java/com/minecade/deepend/bits/BitField.java:43 | the raw int 0x80 does not select a value registered under byte 0x80, because the key widens to 0xFFFFFF80 |
| Bits.ConstructionNonZero | src/main/java/com/minecade/deepend/bits/BitField.java:62-72 | a non-empty collection of single-bit values constructs a non-zero field |
| Bits.ConstructionSelects | src/main/java/com/minecade/deepend/bits/BitField.java:43-72 | with single-bit bytes, the constructed field selects a bit exactly when one of the objects has it |
| Requests.DispatchEvents | src/main/java/com/minecade/deepend/request/RequestChain.java:42-53 | three events per polled request |
| Requests.MinExists | src/main/java/com/minecade/deepend/request/RequestChain.java:18-25 | every non-empty queue has an element of least internalID for poll() to return |
| Requests.RequestChain.constructor | src/main/java/com/minecade/deepend/request/RequestChain.java:11-27 | a new chain has an empty queue, count 0, no terminal request and idPool 1 |
| Requests.RequestChain.Add | src/main/java/com/minecade/deepend/request/RequestChain.java:29-33 | add queues the request, increments the count, returns the chain itself, and keeps count equal to queue size |
| Requests.RequestChain.AddLast | src/main/java/com/minecade/deepend/request/RequestChain.java:61-63 | addLast sets the terminal request, replacing any earlier one, and changes nothing else |
| Requests.RequestChain.Poll | src/main/java/com/minecade/deepend/request/RequestChain.java:17-25 | poll gives null on an empty queue, else removes and returns one element of least internalID |
| Requests.RequestChain.Dispatch | src/main/java/com/minecade/deepend/request/RequestChain.java:43-52 | one loop turn adds the decrementing recipient, dispatches the request whatever its answer, and completes it one count lower |
| Requests.RequestChain.Drain | src/main/java/com/minecade/deepend/request/RequestChain.java:41-53 | the loop empties the queue in non-decreasing internalID order, each request exactly once (a permutation of the queue), leaves the count at 0, and produces the events of that order |
| Requests.RequestChain.Handle | src/main/java/com/minecade/deepend/request/RequestChain.java:36-59 | an empty chain returns true at once without running the terminal request; otherwise the queue is drained in non-decreasing internalID order, each request exactly once (a permutation), and the count returns to 0; the terminal request, if set, runs last; the result is always true |
| Requests.PrecedesStep | src/main/java/com/minecade/deepend/request/RequestChain.java:17-42 | polling a least element keeps the drained prefix sorted and no later than what is still queued |
| Requests.DispatchEventsAt | src/main/java/com/minecade/deepend/request/RequestChain.java:42-53 | the i-th polled request gets its recipient, is dispatched and completes, leaving count-i-1, before the next request starts, in this model (see Left out, Handle) |
| Requests.TerminalLastAndOnce | src/main/java/com/minecade/deepend/request/RequestChain.java:55-57 | the terminal request is handled exactly once, as the very last event, when it is set, and never otherwise |
| Requests.DispatchedInChain | src/main/java/com/minecade/deepend/request/RequestChain.java:42-57 | the dispatches of a chain's trace are exactly the polled requests, in polling order |
| Requests.SortedDrainUnique | src/main/java/com/minecade/deepend/request/RequestChain.java:17-42 | with distinct IDs, the poll order is fully determined by the queue's contents |

## Left out

- DataUtil.Resolve: requires `WellFormed`. Keys and names must be plain (no ",", neither `*` nor `*u`), keys distinct, recursively. A key such as `*` next to another key sends the Java code into unbounded recursion, so such holders are outside the model. The same precondition is on every DataUtil member that calls Resolve.
- DataUtil.DeependBuf.GetString: the buffer is a sequence of already decoded strings. The read fails exactly when the buffer is exhausted; byte-level decoding and other decoding errors are not modelled.
- The catch at DataUtil.java:172-176 is not modelled as a separate path. The nested call in the model cannot throw, because failed reads are handled inside it, and the catch would give the same fresh one-element list holding a HolderWrapper of the sub-holder as the null branch.
- DataHolder, UpdateStatus, DataObject and the holder's delete() are data. Children are an ordered sequence standing for the HashMap's iteration order; the same order is assumed for keySet(), values() and forEach. Staleness is a set of peer addresses. What delete() does to storage is not part of this model.
- The DeependConnection is only its remote address. Logging (DataUtil.java:154, RequestChain.java:45, 48, 54) and printStackTrace (DataUtil.java:174) are left out.
- Bits.BitField.constructor: ByteProvider.getByte() is a function parameter `byteOf`, and the enum values are a sequence. The Enum bound on E is not kept.
- Requests.RequestChain.Handle: the busy wait at RequestChain.java:50-52 and all concurrency are left out. A request's completion callback is taken to run before the loop polls again.
  - In the code, the wait compares against the count at entry, which is never refreshed. Only the first request's completion is actually awaited.
  - The model's synchronous completion does not show this.
- Bits.BitField.Extract: construct after extract gives back the field only for sign-extended byte fields (`Bits.ConstructUnpack`). A raw int field such as 0x80 does not extract a value registered under bit 7, because the key widens to 0xFFFFFF80 (`Bits.RawTopBitNotExtracted`).
- DataUtil.GetByName: `Collections.singletonList` is immutable in Java, while the model returns a fresh mutable `DataList`. Nothing in the core writes to the returned list, so no behaviour it depends on is lost.
- Requests.RequestChain.Add: the AtomicInteger is an unbounded `int`, so its 32-bit wrap-around is not modelled.
- DataRequest.handle, UUIDProvider and Bootstrap are outside this model. A request carries the boolean its handle() returns, and `internalID` is a plain integer field. ShutdownRequest's behaviour and the result of the terminal request's handle() are not modelled either.
- Requests.RequestChain.Poll: PriorityQueue's choice among requests of equal internalID is whatever its heap gives. The model allows any of them, and SortedDrainUnique shows that the order is fixed once IDs are distinct.
- `idPool` (RequestChain.java:15) is declared and never used; the model keeps it as a field no method changes.
- DataUtilProperties.IntendedChangedOnlyResolvesLeaves: it is proved only for holders whose sub-holders all need no update, in which each leaf's key equals its object's name, no key is empty, and at least one child is a leaf. The code as written fails on such a holder only when a skipped sub-holder comes before a child that adds a name (`SkippedHolderBreaksChangedOnly`); with the sub-holders last, as in children `x` (a leaf) then `h`, it returns `x` too.

## Findings

| source | as written | input that shows it | evidently intended | confidence | as-written member | corrected member |
|---|---|---|---|---|---|---|
| src/main/java/com/minecade/deepend/util/DataUtil.java:124 | the `*u` loop appends "," after every child, including a sub-holder it skipped because it needs no update | a holder with children `h` (a sub-holder that needs no update for the peer) and then `x` (a leaf): the selector becomes ",x", its empty first piece names no child, and the whole call returns null | a separator only between names actually written, so the selector is "x" and the call returns the leaf `x` | not executed | DataUtilProperties.SkippedHolderBreaksChangedOnly | DataUtilProperties.IntendedChangedOnlyResolvesLeaves |

`DataUtil.Resolve` keeps the code as written, and `DataUtilProperties.ChangedOnlyExample` exhibits the failing input; `DataUtilProperties.IntendedChangedOnlyExample` shows the same input under the correction. The corrected expansion is `DataUtilProperties.IntendedChangedOnly`, the join of the included names only. Fed to `Resolve` as the selector, it returns every leaf.
