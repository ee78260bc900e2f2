# A verified model of core pieces of the Fuchsia garnet tree

This project models, in Dafny, the parts of the garnet repository that do real
computation and state keeping. These are mostly the protocol and driver logic, not
their I/O plumbing. It also proves what that code promises. There is one Dafny module
per source file, plus three shared modules: `Base` (options, bytes, fixed-width integers,
little-endian encodings), `Zx` (Zircon status codes) and `Att` (Attribute Protocol
constants and UUIDs).

| module | source | what it models |
|---|---|---|
| `Vfs` | public/rust/crates/fuchsia-vfs/src/vfs.rs | one remote-I/O message: header validation, dispatch, OPEN with the pipeline flag, the status/protocol reply |
| `AttAttribute` | drivers/bluetooth/lib/att/attribute.cc | attributes, their access checks, and attribute groupings |
| `AttDatabase` | drivers/bluetooth/lib/att/database.cc | the sorted list of groupings, handle allocation, and the Find Information, Read By Type and Read By Group Type searches |
| `AttBearer` | drivers/bluetooth/lib/att/bearer.cc | PDU classification, the request and indication transaction queues, MTU, timeouts and shutdown |
| `GattServer` | drivers/bluetooth/lib/gatt/server.cc | Exchange MTU and Read By Group Type handlers |
| `GattLocalServiceManager` | drivers/bluetooth/lib/gatt/local_service_manager.cc | service validation, attribute layout, handler permission checks, registration and unregistration |
| `GattServerFidl` | bin/bluetooth/gatt_server_fidl_impl.cc | FIDL error codes, characteristic properties and security requirements |
| `GicDistributor` | lib/machina/arch/arm64/gic_distributor.cpp | the emulated GICv2 distributor's MMIO reads and writes and the SGI decode |
| `HdaController` | drivers/audio/intel-hda/controller/intel-hda-controller.cpp | the stream pools and per-direction tag masks |
| `HdaStreamBase` | drivers/audio/intel-hda/codecs/utils/stream-base.cpp | the stream format encoding, DMA stream assignment and request checks |
| `Ath10kLinuxisms` | drivers/wlan/third_party/atheros/ath10k/linuxisms.h | GENMASK, roundup_pow_of_two, roundup_log2, min |
| `LluiGeometry` | public/rust/crates/fuchsia-llui/src/geometry.rs | sizes, points and rectangles |
| `LluiInput` | public/rust/crates/fuchsia-llui/src/input.rs | mouse report parsing, handler choice, and cursor clamping and button actions |
| `ZirconStubs` | public/rust/crates/fuchsia-llui/src/zircon_stubs.rs | ioctl opcode packing |
| `MagmaPlatformBuffer` | lib/magma/src/magma_util/platform/zircon/zircon_platform_buffer.cc | the sparse per-page pin counts, commit/pin/unpin and CPU mapping |
| `MakeEfi` | go/src/make-efi/make-efi.go | the copy list from flags and manifest, the manifest reader, and the partition size |
| `Mdns` | bin/netconnector/mdns/mdns.cc | the question and resource queues, SendMessage's aggregation, and agent bookkeeping |
| `RalinkDevice` | drivers/wlan/mediatek/ralink/device.cpp | tx power, EEPROM reads, rate lookup, cipher mapping, key writes, tx length math, busy-wait |
| `WlanPacket` | drivers/wlan/wlan/packet.cpp | packets over slab buffers, CopyFrom and GetBuffer's fallbacks |
| `WlanScanner` | drivers/wlan/wlan/scanner.cpp | request validation, the channel dwell-time steps and the scan response |
| `WlanStates` | go/src/wlan/wlan/states.go | the client state machine and the association RSNE |
| `CpuperfCategories` | bin/cpuperf_provider/categories.cc | category selection, change detection, device configuration and the text form |

Code that keeps state in place is modelled as a Dafny `class` whose methods say what
the new state is. Examples are the bearer, the database, the stream pools, the pin
counts, the scanner, the trace configuration and the mDNS queues. Loops are `while`
loops with their invariants. Pure code is modelled as datatypes, functions and lemmas.
Headers that are not part of this model become parameters wherever their values matter.
These are the remote-I/O constants, packet.h's buffer sizes, ralink.h's power bounds,
the cpu-perf category tables and the Zircon page size. Where a standard fixes a value,
it is written out with its section: the Bluetooth Core Specification v5.0, IEEE Std
802.11-2016, and the Intel High Definition Audio specification.

vfs.rs's remote-I/O connection behaves as follows:
- A message shorter than the header is refused with ErrIo and no reply at all.
- The size and handle bounds (FDIO_CHUNK_SIZE, FDIO_MAX_HANDLES) are checked along
  with the length and handle-count consistency.
- A failed dispatch does not end the connection. `poll` ignores dispatch's result.
- A successful open always answers FDIO_PROTOCOL_REMOTE, not a protocol of the opened
  node.
- No open ever returns extra handles, so the "pipelined open with handles" rejection
  cannot be reached.

## Model

| member | source | states |
|---|---|---|
| AttAttribute.NoAccess | drivers/bluetooth/lib/att/attribute.cc:10 | the default access requirements allow nothing, not even access without security |
| AttAttribute.Requirements | drivers/bluetooth/lib/att/attribute.cc:12-25 | the flagged constructor allows access and records exactly the requested encryption, authentication and authorization; access needs no security iff none is requested |
| AttAttribute.NewAttribute | drivers/bluetooth/lib/att/attribute.cc:27-36 | an attribute built with a valid handle is initialized and has no static value and no handlers |
| AttAttribute.SetValue | drivers/bluetooth/lib/att/attribute.cc:40-45 | a static value must be non-empty, at most 512 octets, and only on an attribute that cannot be written; it replaces the value and nothing else |
| AttAttribute.ReadAsync | drivers/bluetooth/lib/att/attribute.cc:47-57 | the read handler is called iff the attribute is initialized, has a read handler and allows reads |
| AttAttribute.WriteAsync | drivers/bluetooth/lib/att/attribute.cc:59-70 | the write handler is called iff the attribute is initialized, has a write handler and allows writes |
| AttAttribute.NoAccessBlocksHandlers | drivers/bluetooth/lib/att/attribute.cc:47-70 | an attribute with the default requirements can be neither read nor written, whatever handlers it has |
| AttAttribute.AttributeGrouping.DeclValue | drivers/bluetooth/lib/att/attribute.cc:84-90 | the declaration value of a valid grouping is non-empty and is the static value of its first attribute |
| AttAttribute.GroupingRangeCheckWeakened | drivers/bluetooth/lib/att/attribute.cc:78 | every grouping the constructor's range check admits fits below kHandleMax, but a grouping ending exactly at 0xFFFF is refused |
| AttAttribute.NewGrouping | drivers/bluetooth/lib/att/attribute.cc:72-91 | a new grouping is valid and inactive, spans start to start + attrCount, and holds only its declaration, readable without security and not writable |
| AttAttribute.AddAttribute | drivers/bluetooth/lib/att/attribute.cc:93-107 | a complete grouping is returned unchanged with no attribute; otherwise the attribute gets the next handle, start plus the current count, and the grouping stays valid |
| AttAttribute.AddAll | drivers/bluetooth/lib/att/attribute.cc:93-107 | adding attributes one by one, each by AddAttribute, keeps the grouping valid |
| AttAttribute.AddAllCompletes | drivers/bluetooth/lib/att/attribute.cc:93-107 | adding at least as many attributes as there is room for completes the grouping, with the same handle range and the declaration still first |
| AttBearer.GetMethodType | drivers/bluetooth/lib/att/bearer.cc:19-76 | the command bit makes any opcode a command; only opcode 0 is invalid; exactly the listed response opcodes are responses and exactly 0x1D is an indication; any other opcode is a request |
| AttBearer.MatchingTransactionCode | drivers/bluetooth/lib/att/bearer.cc:81-112 | every response other than the error response is matched to the request one below it and a confirmation to the indication; every other opcode gets the invalid opcode |
| AttBearer.FailAllNotifiesEach | drivers/bluetooth/lib/att/bearer.cc:201-211 | failing a queue calls the error callback of every pending transaction exactly once, in queue order, with no error code and the invalid handle |
| AttBearer.SendNext | drivers/bluetooth/lib/att/bearer.cc:155-170 | nothing is sent while a transaction is outstanding; otherwise the first waiting one becomes current and its PDU is sent; the pending transactions are the same before and after |
| AttBearer.EndTargetOf | drivers/bluetooth/lib/att/bearer.cc:379-402 | only an error response of exactly four parameter octets reports an error, with its request opcode, little-endian handle and code; a malformed error response targets the invalid opcode; any other PDU targets its matching transaction code |
| AttBearer.ErrorResponsePdu | drivers/bluetooth/lib/att/bearer.cc:348-362 | the error response PDU is five octets starting with the error response opcode, and reading it back gives the request opcode, error code and handle it was built from |
| AttBearer.ShutDownKeepsInv | drivers/bluetooth/lib/att/bearer.cc:245-265 | shutting down keeps the queue invariant: each queue holds only transactions of its own kind, waits only behind an outstanding one, and is empty once closed |
| AttBearer.ShutDownIdempotent | drivers/bluetooth/lib/att/bearer.cc:245-248 | shutting down twice is the same as once, and the bearer is closed afterwards |
| AttBearer.ShutDownNotifiesAll | drivers/bluetooth/lib/att/bearer.cc:250-265 | shutting an open bearer down fails every pending request and then every pending indication, each once and in order, runs the closed callback last, and leaves nothing pending |
| AttBearer.SendKeepsInv | drivers/bluetooth/lib/att/bearer.cc:282-333 | sending keeps the queue invariant |
| AttBearer.SendAccepts | drivers/bluetooth/lib/att/bearer.cc:282-333 | a PDU is accepted iff the bearer is open, its length is valid, and it is a command or notification without callbacks or a request or indication with both callbacks; a refused PDU changes nothing |
| AttBearer.RequestWaitsForOutstanding | drivers/bluetooth/lib/att/bearer.cc:318-331 | a request behind an outstanding one is queued and nothing is sent; on an idle queue it is sent at once and becomes outstanding; the indication queue is untouched |
| AttBearer.OutstandingRequestIsNoIndication | drivers/bluetooth/lib/att/bearer.cc:384-407 | in every reachable state the outstanding request is neither an indication nor the invalid opcode, so the debug checks of HandleEndTransaction always hold |
| AttBearer.EndTransactionKeepsInv | drivers/bluetooth/lib/att/bearer.cc:364-424 | ending a transaction keeps the queue invariant |
| AttBearer.ReceiveKeepsInv | drivers/bluetooth/lib/att/bearer.cc:433-476 | receiving any PDU keeps the queue invariant |
| AttBearer.ResponseEndsOutstanding | drivers/bluetooth/lib/att/bearer.cc:364-424 | a response matching the outstanding request completes it, sends the next waiting request first and keeps the bearer open; any other response closes the bearer |
| AttBearer.ErrorResponseEndsOutstanding | drivers/bluetooth/lib/att/bearer.cc:379-424 | a well-formed error response naming the outstanding request fails it with the reported code and handle and keeps the bearer open; a malformed one or one naming another request closes the bearer |
| AttBearer.UnexpectedEndClosesBearer | drivers/bluetooth/lib/att/bearer.cc:369-375 | a response or confirmation with no outstanding transaction of its kind closes the bearer |
| AttBearer.ConfirmationEndsIndication | drivers/bluetooth/lib/att/bearer.cc:364-424 | a confirmation completes the outstanding indication, keeps the bearer open and leaves the request queue unchanged |
| AttBearer.TransactionQueue.constructor | drivers/bluetooth/lib/att/bearer.cc:130 | a new queue is empty, with nothing outstanding |
| AttBearer.TransactionQueue.ClearCurrent | drivers/bluetooth/lib/att/bearer.cc:145-149 | the outstanding transaction is returned and removed; the waiting ones stay |
| AttBearer.TransactionQueue.Enqueue | drivers/bluetooth/lib/att/bearer.cc:151-153 | the transaction is appended behind the waiting ones |
| AttBearer.TransactionQueue.TrySendNext | drivers/bluetooth/lib/att/bearer.cc:155-170 | the queue moves exactly as SendNext says and returns what SendNext sends |
| AttBearer.TransactionQueue.Reset | drivers/bluetooth/lib/att/bearer.cc:192-199 | the queue becomes empty |
| AttBearer.TransactionQueue.InvokeErrorAll | drivers/bluetooth/lib/att/bearer.cc:201-211 | the error callbacks run are FailAll of the pending transactions |
| AttBearer.Bearer.constructor | drivers/bluetooth/lib/att/bearer.cc:213-233 | the MTU starts at 23 over LE and 48 otherwise; the preferred MTU is the smaller channel MTU but never below that minimum; the bearer is open with empty queues |
| AttBearer.Bearer.ShutDown | drivers/bluetooth/lib/att/bearer.cc:245-248 | the state moves exactly as CloseIfOpen says |
| AttBearer.Bearer.ShutDownInternal | drivers/bluetooth/lib/att/bearer.cc:250-265 | the state moves exactly as Close says |
| AttBearer.Bearer.OnTransactionTimeout | drivers/bluetooth/lib/att/bearer.cc:172-190 | a transaction timeout closes the bearer with the timeout flag set |
| AttBearer.Bearer.OnChannelClosed | drivers/bluetooth/lib/att/bearer.cc:426-431 | a closed channel shuts the bearer down |
| AttBearer.Bearer.StartTransaction | drivers/bluetooth/lib/att/bearer.cc:267-275 | the state and result are those of Send with both callbacks |
| AttBearer.Bearer.SendWithoutResponse | drivers/bluetooth/lib/att/bearer.cc:277-280 | the state and result are those of Send with no callbacks |
| AttBearer.Bearer.SendInternal | drivers/bluetooth/lib/att/bearer.cc:282-333 | the state and result are those of Send |
| AttBearer.Bearer.IsPacketValid | drivers/bluetooth/lib/att/bearer.cc:335-337 | a packet is valid iff it is non-empty and no longer than the MTU |
| AttBearer.Bearer.TryStartNextTransaction | drivers/bluetooth/lib/att/bearer.cc:339-346 | the queue and the sent PDUs move as SendNext says; the bearer stays open with the same MTU |
| AttBearer.Bearer.SendErrorResponse | drivers/bluetooth/lib/att/bearer.cc:348-362 | exactly one PDU is sent: the error response for the opcode, handle and code |
| AttBearer.Bearer.HandleEndTransaction | drivers/bluetooth/lib/att/bearer.cc:364-424 | the state moves exactly as EndTransaction says |
| AttBearer.Bearer.OnRxBFrame | drivers/bluetooth/lib/att/bearer.cc:433-476 | the state moves exactly as Receive says |
| AttDatabase.InnerPlacementFirstFit | drivers/bluetooth/lib/att/database.cc:56-72 | the inner search returns the lowest gap from k on that holds the grouping, starting one past the previous grouping's end, or nothing when no later gap holds it |
| AttDatabase.PlacementFirstFit | drivers/bluetooth/lib/att/database.cc:32-81 | NewGrouping fails iff no gap in the range holds attrCount + 1 handles; otherwise it takes the head gap if it fits, else the tail gap, else the lowest inner gap that fits, starting just after the previous grouping |
| AttDatabase.PlacementFailsOnlyWhenFull | drivers/bluetooth/lib/att/database.cc:39-70 | when NewGrouping fails, no run of attrCount + 1 free handles exists anywhere in the database's range |
| AttDatabase.InsertKeepsDisjoint | drivers/bluetooth/lib/att/database.cc:77-78 | a grouping inserted between its two neighbours keeps the list sorted by handle and disjoint |
| AttDatabase.PlacementKeepsLayout | drivers/bluetooth/lib/att/database.cc:32-81 | the grouping NewGrouping places fits its gap, so inserting it keeps the list sorted, disjoint and inside the database's range |
| AttDatabase.LastHandleTripsGroupingCheck | drivers/bluetooth/lib/att/database.cc:39-44 | an empty database over 1..0xFFFF places a grouping of 0xFFFE attributes at handle 1, which the grouping constructor's range check refuses |
| AttDatabase.SpanInRange | drivers/bluetooth/lib/att/database.cc:110-152 | the attributes a Find Information or Read By Type search visits have handles within the requested range, in strictly increasing order, so none is visited twice |
| AttDatabase.GroupSpanHandles | drivers/bluetooth/lib/att/database.cc:130-140 | one grouping contributes the attributes at consecutive handles from max(start, startHandle) to min(end, endHandle), and only when it is active and complete |
| AttDatabase.ScanCharacterized | drivers/bluetooth/lib/att/database.cc:142-152 | a scan returns the longest prefix of the matches that share the first match's size and whose entries fit in the payload; it is empty only when there are no matches, and it stops exactly at the first match that breaks either rule |
| AttDatabase.ScanResultFits | drivers/bluetooth/lib/att/database.cc:142-152 | a scan's result starts with the first match, all its items share one size, and its entries together fit in the payload |
| AttDatabase.FindInformationCharacterized | drivers/bluetooth/lib/att/database.cc:94-159 | Find Information returns kInvalidHandle iff the range is invalid and kAttributeNotFound iff no attribute of an active, complete grouping lies in it; otherwise the attributes from the first one on, in handle order, with UUIDs of one size, as many as fit |
| AttDatabase.GroupCandidatesMatch | drivers/bluetooth/lib/att/database.cc:193-206 | every grouping a Read By Group Type search considers is in the database, active, complete, of the requested type, and starts in the range |
| AttDatabase.ReadByGroupTypeCharacterized | drivers/bluetooth/lib/att/database.cc:161-239 | Read By Group Type returns kInvalidHandle iff the range is invalid and kAttributeNotFound iff no active, complete grouping of the type starts in it; otherwise such groupings from the first one on, with declaration values of one size, as many as fit |
| AttDatabase.TypeScanStatic | drivers/bluetooth/lib/att/database.cc:308-345 | after a readable static first match, Read By Type keeps the longest prefix of readable static values of the first one's size whose entries fit, and stops exactly at the first that breaks a rule |
| AttDatabase.TypeScanCharacterized | drivers/bluetooth/lib/att/database.cc:295-350 | Read By Type is refused iff the first match cannot be read without security; a dynamic first match is the only result; otherwise the longest prefix of static values of the first one's size that fits |
| AttDatabase.RemoveKeepsLayout | drivers/bluetooth/lib/att/database.cc:83-92 | removing a grouping keeps the list sorted, disjoint and inside the range |
| AttDatabase.ReplaceKeepsLayout | drivers/bluetooth/lib/att/database.cc:77-80 | replacing a grouping by one over the same handles keeps the layout |
| AttDatabase.Database.constructor | drivers/bluetooth/lib/att/database.cc:25-30 | a new database is empty over a valid handle range |
| AttDatabase.Database.FindPlacement | drivers/bluetooth/lib/att/database.cc:39-70 | the search for a gap computes exactly Placement: the head, then the tail, then the inner gaps from the lowest handle up |
| AttDatabase.Database.NewGrouping | drivers/bluetooth/lib/att/database.cc:32-81 | a full database is left unchanged and returns nothing; otherwise the new inactive grouping is inserted at the first free gap, inside the range and over free handles, and its start handle is returned |
| AttDatabase.Database.LowerBoundByStart | drivers/bluetooth/lib/att/database.cc:15-17 | the index of the first grouping that does not start before the handle (std::lower_bound by start handle) |
| AttDatabase.Database.LowerBoundByEnd | drivers/bluetooth/lib/att/database.cc:19-21 | the index of the first grouping that does not end before the handle (std::lower_bound by end handle) |
| AttDatabase.Database.RemoveGrouping | drivers/bluetooth/lib/att/database.cc:83-92 | a grouping is removed iff one starts exactly at the handle, and then only that one; otherwise nothing changes |
| AttDatabase.Database.UpdateGrouping | drivers/bluetooth/lib/att/database.cc:77-80 | the writes through the grouping reference NewGrouping returns replace only the grouping at the same handles, and nothing changes when there is none |
| AttDatabase.Database.FindInformationRun | drivers/bluetooth/lib/att/database.cc:135-151 | the inner loop over one grouping's attributes in range computes the scan of them |
| AttDatabase.Database.FindInformationIn | drivers/bluetooth/lib/att/database.cc:117-151 | an inactive or incomplete grouping is skipped; otherwise its attributes in the range are scanned |
| AttDatabase.Database.FindInformation | drivers/bluetooth/lib/att/database.cc:94-159 | the error and results are exactly FindInformationResult |
| AttDatabase.Database.GroupEntry | drivers/bluetooth/lib/att/database.cc:213-233 | the first matching grouping fixes the value and entry sizes; a later one is taken only with the same value size and room left |
| AttDatabase.Database.ReadByGroupTypeScan | drivers/bluetooth/lib/att/database.cc:193-233 | the loop over the groupings from the lower bound on computes the scan of the candidate groupings |
| AttDatabase.Database.ReadByGroupType | drivers/bluetooth/lib/att/database.cc:161-239 | the error and results are exactly ReadByGroupTypeResult |
| AttDatabase.Database.TypeEntry | drivers/bluetooth/lib/att/database.cc:295-349 | one attribute of the requested type: one needing security ends the search, refused if nothing was found yet; the first fixes the sizes or, when dynamic, ends the search as the only result; a later one must be static, of the same size and fit |
| AttDatabase.Database.ReadByTypeRun | drivers/bluetooth/lib/att/database.cc:291-350 | the inner loop over one grouping's attributes in range computes the type scan of those of the requested type |
| AttDatabase.Database.ReadByTypeIn | drivers/bluetooth/lib/att/database.cc:278-350 | an inactive or incomplete grouping is skipped; otherwise its attributes in the range are scanned |
| AttDatabase.Database.ReadByTypeScan | drivers/bluetooth/lib/att/database.cc:274-351 | the outer loop over the groupings from the lower bound on computes the type scan of every attribute in range |
| AttDatabase.Database.ReadByType | drivers/bluetooth/lib/att/database.cc:241-357 | the error and results are exactly ReadByTypeResult |
| GattServer.ExchangeMtu | drivers/bluetooth/lib/gatt/server.cc:41-44 | an Exchange MTU request whose parameters are not exactly the two-octet client MTU, and only such a request, is answered with kInvalidPDU at handle 0 and changes no MTU |
| GattServer.ExchangeMtuNegotiates | drivers/bluetooth/lib/gatt/server.cc:46-64 | a well-formed request is answered with a three-octet Exchange MTU response carrying the server's preferred MTU little endian; the MTU taken on is one of the client's, the server's or the LE minimum, never below the LE minimum and otherwise within both sides' MTUs |
| GattServer.OnExchangeMtu | drivers/bluetooth/lib/gatt/server.cc:37-65 | the handler's reply and the MTU it sets are those of ExchangeMtu |
| GattServer.ParseGroupTypeRequest | drivers/bluetooth/lib/gatt/server.cc:71-88 | a request payload parses iff it is 6 or 20 octets long (a 16-bit or a 128-bit group type), and then yields 16-bit handles and a valid UUID |
| GattServer.ParseGroupTypeRequestRoundTrip | drivers/bluetooth/lib/gatt/server.cc:75-80 | parsing the little-endian encoding of a start handle, an end handle and a 16-bit type gives back exactly those values |
| GattServer.DeclBytes | drivers/bluetooth/lib/gatt/server.cc:143-145 | a group's declaration value has the declaration size the database records for it |
| GattServer.ValueSize | drivers/bluetooth/lib/gatt/server.cc:110-119 | the value size carried in each entry never exceeds the first group's declaration value, and when that group is alone it is cut to what the MTU leaves after the header and the entry's handles |
| GattServer.EntryBytes | drivers/bluetooth/lib/gatt/server.cc:139-145 | an attribute group data entry is four octets of handles followed by n octets of value |
| GattServer.EntriesLength | drivers/bluetooth/lib/gatt/server.cc:121-125 | the entries of k groups take k times the entry size, as the PDU size computation assumes |
| GattServer.EntriesPrefix | drivers/bluetooth/lib/gatt/server.cc:138-149 | the entries written for the first i groups are a prefix of the entries for all groups |
| GattServer.EntryAt | drivers/bluetooth/lib/gatt/server.cc:136-149 | entry i sits at offset i times the entry size and holds group i's entry, as the advancing output view places it |
| GattServer.ResultsFit | drivers/bluetooth/lib/gatt/server.cc:107-116 | groups found in a valid database of one declaration size all carry the chosen value size and 16-bit handles |
| GattServer.GroupSearchFound | drivers/bluetooth/lib/gatt/server.cc:97-107 | a successful database search returns a non-empty list of the database's own groups, all of the first one's declaration size, whose entries fit the payload the handler passes |
| GattServer.GroupResponseLayout | drivers/bluetooth/lib/gatt/server.cc:127-149 | the response is the Read By Group Type opcode, the entry length, then for each group its start and end handles little endian and the first n octets of its declaration value, entry i at offset 2 + i times the entry size |
| GattServer.GroupTypeReplyCharacterized | drivers/bluetooth/lib/gatt/server.cc:67-151 | a malformed request gets kInvalidPDU at handle 0, a group type other than a primary or secondary service gets kUnsupportedGroupType at the start handle, a database error is returned at the start handle, and otherwise the response lists every group found with the first group's value size, cut to the MTU only when that group is alone |
| GattServer.ServiceEntriesFitMtu | drivers/bluetooth/lib/gatt/server.cc:110-125 | with service declarations of at most 16 octets the handler's debug checks hold: the value size is within the MTU and the Read By Group Type limit, the entry length fits an octet, and the PDU fits the MTU |
| GattServer.WriteEntry | drivers/bluetooth/lib/gatt/server.cc:138-148 | writing one entry puts exactly its octets at the offset and leaves what comes before it unchanged |
| GattServer.BuildGroupResponse | drivers/bluetooth/lib/gatt/server.cc:127-148 | the buffer built entry by entry is exactly the response PDU |
| GattServer.OnReadByGroupType | drivers/bluetooth/lib/gatt/server.cc:67-151 | the handler's reply is the one GroupTypeReply describes |
| GattLocalServiceManager.IdsSplitAfter | drivers/bluetooth/lib/gatt/local_service_manager.cc:86-116 | the identifiers the validation walks are those of the characteristics before i, characteristic i's own and its descriptors', then those after i, in that order |
| GattLocalServiceManager.RepeatedIdRejected | drivers/bluetooth/lib/gatt/local_service_manager.cc:81-123 | any identifier that occurs twice anywhere in the hierarchy, characteristic or descriptor, makes validation fail |
| GattLocalServiceManager.DisallowedDescriptorRejected | drivers/bluetooth/lib/gatt/local_service_manager.cc:105-111 | a descriptor of the extended-properties, client-configuration or server-configuration type anywhere in the hierarchy makes validation fail |
| GattLocalServiceManager.AttrCountIsTwoPerCharacteristicPlusDescriptors | drivers/bluetooth/lib/gatt/local_service_manager.cc:92-116 | the attribute count is two per characteristic plus one per descriptor |
| GattLocalServiceManager.CheckDescriptors | drivers/bluetooth/lib/gatt/local_service_manager.cc:98-117 | the descriptor loop succeeds iff the descriptors' identifiers are new and distinct and none has a managed type, and then the set of seen identifiers grows by theirs and the count by one per descriptor |
| GattLocalServiceManager.RepeatedCharacteristicId | drivers/bluetooth/lib/gatt/local_service_manager.cc:87-90 | a characteristic whose identifier was already seen makes the identifiers of the hierarchy not distinct |
| GattLocalServiceManager.RejectedCharacteristic | drivers/bluetooth/lib/gatt/local_service_manager.cc:86-117 | when the identifiers up to characteristic i repeat, or one of its descriptors is disallowed, the whole hierarchy is invalid, so returning early is right |
| GattLocalServiceManager.ValidateService | drivers/bluetooth/lib/gatt/local_service_manager.cc:78-123 | the validation loop, which keeps the set of identifiers seen, answers exactly Validation: the attribute count iff the identifiers are distinct and no descriptor has a managed type |
| GattLocalServiceManager.SortBySizeSorts | drivers/bluetooth/lib/gatt/local_service_manager.cc:144-150 | sorting by UUID size is a permutation whose compact sizes, with 32-bit forms allowed as CompactSize's default allows them, never decrease: 16-bit UUIDs, then 32-bit ones, then 128-bit ones |
| Att.UuidFullRoundTrip | drivers/bluetooth/lib/gatt/server.cc:83-91 | every valid UUID reads back from its full 16-octet form, so a type received in 128-bit form is the same UUID as its 16-bit form |
| Att.UuidEqualIff | drivers/bluetooth/lib/gatt/server.cc:83-91 | two valid UUIDs are equal exactly when their full 16-octet forms are, as the group-type comparison needs |
| Att.UuidFrom128Of32Bit | drivers/bluetooth/lib/gatt/local_service_manager.cc:146-150 | a 32-bit UUID above the 16-bit range has the 4-octet compact size in the sort and the 16-octet one where 32-bit forms are disallowed |
| GattLocalServiceManager.SortBySizeSplits | drivers/bluetooth/lib/gatt/local_service_manager.cc:144-150 | after sorting, exactly the first n2 items have 2-octet UUIDs, the next n4 have 4-octet (32-bit) ones and the rest 16-octet ones, where n2 and n4 are how many of each the input has |
| GattLocalServiceManager.SortedAttrCount | drivers/bluetooth/lib/gatt/local_service_manager.cc:144-153 | sorting the characteristics does not change the number of attributes they need |
| GattLocalServiceManager.SortedTypesValid | drivers/bluetooth/lib/gatt/local_service_manager.cc:144-150 | sorting keeps every characteristic type well formed |
| GattLocalServiceManager.DeclarationValue | drivers/bluetooth/lib/gatt/local_service_manager.cc:40-54 | the characteristic declaration value is the properties octet, the value handle little endian, then the 16-bit or 128-bit UUID: 5 or 19 octets |
| GattLocalServiceManager.InsertCharacteristic | drivers/bluetooth/lib/gatt/local_service_manager.cc:15-56 | two attributes are appended and nothing else changes: the declaration at the next handle, readable without security, not writable, holding the declaration value that points at the following handle; then the value attribute with the characteristic's type, permissions and both handlers |
| GattLocalServiceManager.InsertDescriptor | drivers/bluetooth/lib/gatt/local_service_manager.cc:58-76 | exactly one attribute is appended, at the next handle, with the descriptor's type, permissions and both handlers |
| GattLocalServiceManager.AddDescriptors | drivers/bluetooth/lib/gatt/local_service_manager.cc:232-241 | adding the descriptors appends one attribute each, uses that much room and keeps the attributes already there |
| GattLocalServiceManager.AddCharacteristic | drivers/bluetooth/lib/gatt/local_service_manager.cc:160-242 | a characteristic takes two attributes plus one per descriptor, appended after those already in the grouping |
| GattLocalServiceManager.AddCharacteristics | drivers/bluetooth/lib/gatt/local_service_manager.cc:151-153 | the characteristics take exactly their attribute count of the grouping's room, appended after what is there |
| GattLocalServiceManager.ServiceGrouping | drivers/bluetooth/lib/gatt/local_service_manager.cc:127-153 | the grouping of a registered service has the primary or secondary service type, the service UUID as declaration value, and is complete and active with exactly the counted attributes after the declaration |
| GattLocalServiceManager.ChrcRead | drivers/bluetooth/lib/gatt/local_service_manager.cc:174-191 | a characteristic read is forwarded iff the service is still registered and the characteristic has the read property; otherwise it fails with kReadNotPermitted, or kUnlikelyError once the service is gone |
| GattLocalServiceManager.ChrcWrite | drivers/bluetooth/lib/gatt/local_service_manager.cc:193-221 | a write is forwarded iff the service is alive and the characteristic has the write property for a write with response, or the write-without-response property for one without; a write without response that is not forwarded is dropped, one with response fails with kWriteNotPermitted, or kUnlikelyError once the service is gone |
| GattLocalServiceManager.DescRead | drivers/bluetooth/lib/gatt/local_service_manager.cc:246-255 | a descriptor read is forwarded iff the service is still registered, and fails with kUnlikelyError otherwise |
| GattLocalServiceManager.DescWrite | drivers/bluetooth/lib/gatt/local_service_manager.cc:257-271 | a descriptor write is forwarded iff the service is alive and a response is wanted; without a response it is always dropped, otherwise it fails with kUnlikelyError |
| GattLocalServiceManager.StartsInsert | drivers/bluetooth/lib/gatt/local_service_manager.cc:316-336 | inserting a grouping adds exactly its start handle to the set of start handles |
| GattLocalServiceManager.StartsRemove | drivers/bluetooth/lib/gatt/local_service_manager.cc:349 | removing a grouping of a disjoint layout removes exactly its start handle from the set of start handles |
| GattLocalServiceManager.FreeStartIsNew | drivers/bluetooth/lib/gatt/local_service_manager.cc:316-320 | a grouping placed in a free run starts at a handle no other grouping starts at |
| GattLocalServiceManager.RegistryInsert | drivers/bluetooth/lib/gatt/local_service_manager.cc:331-336 | registering a new id for a new, complete and active grouping keeps the registry one-to-one with the database's groupings |
| GattLocalServiceManager.RegistryRemove | drivers/bluetooth/lib/gatt/local_service_manager.cc:341-352 | removing a service's id together with its grouping keeps the registry one-to-one with the database's groupings |
| GattLocalServiceManager.ServiceHasGrouping | drivers/bluetooth/lib/gatt/local_service_manager.cc:341-349 | every registered service has a grouping in the database at its start handle |
| GattLocalServiceManager.SameStartSameIndex | drivers/bluetooth/lib/gatt/local_service_manager.cc:349 | in a disjoint layout, two groupings with the same start handle are the same grouping |
| GattLocalServiceManager.LocalServiceManager.constructor | drivers/bluetooth/lib/gatt/local_service_manager.cc:286-289 | a new manager has an empty database over every handle, no services, and hands out ids from 1 |
| GattLocalServiceManager.LocalServiceManager.RegisterService | drivers/bluetooth/lib/gatt/local_service_manager.cc:293-339 | registration returns 0 iff the next id is taken, the hierarchy is invalid or the database has no room for it, and then changes nothing; otherwise it returns the next id, advances the counter, places the service's complete, active grouping where the database's placement puts it and records its start handle |
| GattLocalServiceManager.LocalServiceManager.Install | drivers/bluetooth/lib/gatt/local_service_manager.cc:309-338 | for a valid hierarchy and a free id, the service is registered iff the database has room, with the grouping and the id as RegisterService states |
| GattLocalServiceManager.LocalServiceManager.Register | drivers/bluetooth/lib/gatt/local_service_manager.cc:331-336 | the id handed out is the counter's value, the counter moves past it, and the registry maps it to the grouping's start handle |
| GattLocalServiceManager.LocalServiceManager.UnregisterService | drivers/bluetooth/lib/gatt/local_service_manager.cc:341-353 | unregistering succeeds iff the id is registered; then the service's entry and exactly its grouping are removed, and otherwise nothing changes |
| GattLocalServiceManager.AddServiceGrouping | drivers/bluetooth/lib/gatt/local_service_manager.cc:316-331 | the database part of registration succeeds iff the database has room, and then inserts exactly the service's populated, active grouping at a new start handle; on failure the database is unchanged |
| GattLocalServiceManager.NextIdIsFree | drivers/bluetooth/lib/gatt/local_service_manager.cc:300-303 | in a valid manager the next id is never registered, so with an unbounded counter the out-of-ids branch is never taken |
| GattServerFidl.ErrorCodeIff | bin/bluetooth/gatt_server_fidl_impl.cc:18-36 | the mapping in both directions: only NO_ERROR gives no error, only INVALID_OFFSET and INVALID_VALUE_LENGTH give their ATT codes, NOT_PERMITTED gives read-not-permitted exactly for a read and write-not-permitted exactly for a write, and every other code gives kUnlikelyError |
| GattServerFidl.ParseProperties | bin/bluetooth/gatt_server_fidl_impl.cc:38-89 | both fields are zero for a null or empty list; otherwise the loop leaves the OR of every listed property's bits in each field |
| GattServerFidl.AddProperty | bin/bluetooth/gatt_server_fidl_impl.cc:48-86 | one property ORs its bits into the two fields and leaves the rest of them as they were |
| GattServerFidl.FoldStep | bin/bluetooth/gatt_server_fidl_impl.cc:47-88 | each further property ORs its bits into both fields |
| GattServerFidl.PropertiesBits | bin/bluetooth/gatt_server_fidl_impl.cc:47-88 | a bit of the properties field is set iff some listed property brings it |
| GattServerFidl.ExtendedBits | bin/bluetooth/gatt_server_fidl_impl.cc:74-85 | an extended bit is set iff the property that brings it is listed |
| GattServerFidl.ExtendedLow | bin/bluetooth/gatt_server_fidl_impl.cc:74-85 | no extended bit other than reliable write and writable auxiliaries is ever set |
| GattServerFidl.PropertiesIff | bin/bluetooth/gatt_server_fidl_impl.cc:47-88 | each of the seven plain properties has its bit set iff it is listed, and the extended-properties flag is set iff reliable write or writable auxiliaries is listed |
| GattServerFidl.ExtendedIff | bin/bluetooth/gatt_server_fidl_impl.cc:74-85 | the reliable-write bit is set iff reliable write is listed, the writable-auxiliaries bit iff writable auxiliaries is listed, and no other extended bit is set |
| GattServerFidl.ParseSecurityRequirements | bin/bluetooth/gatt_server_fidl_impl.cc:91-99 | null requirements give the default, which allows no access; otherwise access is allowed with exactly the requested encryption, authentication and authorization |
| GicDistributor.DecodeSgi | lib/machina/arch/arm64/gic_distributor.cpp:33-38 | every field of a decoded SGI register value is within its width: a target of two bits, an eight-bit CPU mask, a non-secure flag and a four-bit vector |
| GicDistributor.EncodeSgi | lib/machina/arch/arm64/gic_distributor.cpp:33-38 | the register value holding exactly these fields is a 32-bit value |
| GicDistributor.SgiRoundTrip | lib/machina/arch/arm64/gic_distributor.cpp:33-38 | decoding the register value built from any fields gives those fields back |
| GicDistributor.DecodeSgiIgnores | lib/machina/arch/arm64/gic_distributor.cpp:33-38 | decoding reads the fields back whatever bits 31:26 and 14:4 hold, so those bits are ignored |
| GicDistributor.TyperItLines | lib/machina/arch/arm64/gic_distributor.cpp:40-42 | the TYPE field is (num_interrupts >> 5) - 1 in bits 4:0, with the 32-bit subtraction wrapping, so it is below 32 |
| GicDistributor.TyperCountsLines | lib/machina/arch/arm64/gic_distributor.cpp:40-42 | for 32 to 1024 interrupts in whole lines of 32, the field plus one is the number of lines |
| GicDistributor.Pidr2ArchRev | lib/machina/arch/arm64/gic_distributor.cpp:44-46 | the PID2 value holds the revision in bits 7:4 and nothing in bits 3:0 |
| GicDistributor.RegisterValues | lib/machina/arch/arm64/gic_distributor.cpp:11-12 | the TYPE register reads 3, four lines of 32 interrupts for the 128 emulated; PID2 reads 0x20, revision 2 |
| GicDistributor.ReadIff | lib/machina/arch/arm64/gic_distributor.cpp:53-74 | a read succeeds and stores a value iff it is a 4-byte access of the TYPE register, an aligned configuration register or PID2; it fails with IO_DATA_INTEGRITY iff the access size is wrong or a configuration register is misaligned, and with NOT_SUPPORTED for any other offset |
| GicDistributor.ReadValues | lib/machina/arch/arm64/gic_distributor.cpp:58-69 | reads store the TYPE lines, 0 for a configuration register and the PID2 revision |
| GicDistributor.WriteIff | lib/machina/arch/arm64/gic_distributor.cpp:76-97 | a write succeeds iff it targets CTL, an aligned enable, pending-clear or configuration register, or SGI; it fails with IO_DATA_INTEGRITY iff the offset is a misaligned bank register and with NOT_SUPPORTED otherwise; only an SGI write yields a decoded interrupt |
| HdaController.InsertById | drivers/audio/intel-hda/controller/intel-hda-controller.cpp:157-158 | inserting into a pool keyed by stream id adds exactly that stream |
| HdaController.InsertKeepsPool | drivers/audio/intel-hda/controller/intel-hda-controller.cpp:145-158 | returning an unconfigured stream with a new id keeps the pool ordered by id, of one hardware type, and unconfigured |
| HdaController.InsertAbove | drivers/audio/intel-hda/controller/intel-hda-controller.cpp:157-158 | inserting a stream above a bound into streams above it leaves all of them above it |
| HdaController.ConsPool | drivers/audio/intel-hda/controller/intel-hda-controller.cpp:145-158 | an unconfigured stream with a smaller id than every stream of a pool can head it |
| HdaController.ProcessClientRequest | drivers/audio/intel-hda/controller/intel-hda-controller.cpp:214-268 | INVALID_ARGS for a request shorter than its header, one carrying a handle, a GET_IDS or SNAPSHOT_REGS request of the wrong size, or an unknown command; a well-formed GET_IDS gets the channel write's result and a well-formed SNAPSHOT_REGS the snapshot's |
| HdaController.IntelHdaController.AllocateStreamTag | drivers/audio/intel-hda/controller/intel-hda-controller.cpp:161-172 | the tag is the lowest free tag from 1 to 15 of the direction's pool, whose bit is cleared, or 0 with nothing changed when none is free; the other direction's pool is untouched |
| HdaController.IntelHdaController.ReleaseStreamTag | drivers/audio/intel-hda/controller/intel-hda-controller.cpp:174-181 | a taken tag from 1 to 15 is marked free again, and nothing else changes |
| HdaController.IntelHdaController.AllocateStream | drivers/audio/intel-hda/controller/intel-hda-controller.cpp:108-138 | a type other than input or output gives null and changes nothing; otherwise the first stream of the direction's free pool, or of the bidirectional pool when that is empty, is removed and configured with the requested type and the lowest free tag, which is taken; when both pools are empty or no tag is free the result is null and nothing changes |
| HdaController.IntelHdaController.ReturnStream | drivers/audio/intel-hda/controller/intel-hda-controller.cpp:140-159 | the returned stream, unconfigured and with tag 0, is inserted by id into the pool of its hardware type; the other pools and the tags are unchanged |
| HdaStreamBase.SampleBits | drivers/audio/intel-hda/codecs/utils/stream-base.cpp:465-474 | a sample format has a BITS code iff it is one of the six HDA carries, and the code is at most 4 (both 32-bit formats share 4) |
| HdaStreamBase.RateRowIsExact | drivers/audio/intel-hda/codecs/utils/stream-base.cpp:478-498 | every row of the rate table fits the base, multiplier and divisor fields and encodes its own rate exactly: base times multiplier over divisor |
| HdaStreamBase.FindRate | drivers/audio/intel-hda/codecs/utils/stream-base.cpp:501-506 | the rate search finds a row iff the table lists the rate, and then the row is of the table and has that rate |
| HdaStreamBase.LookupRate | drivers/audio/intel-hda/codecs/utils/stream-base.cpp:501-506 | the loop over the rate table finds what FindRate finds |
| HdaStreamBase.StreamFormatWord | drivers/audio/intel-hda/codecs/utils/stream-base.cpp:453-509 | a stream format has a format word iff its channel count is 1 to 16, its sample format has a BITS code and its rate is in the table |
| HdaStreamBase.FieldsOfWord | drivers/audio/intel-hda/codecs/utils/stream-base.cpp:501-503 | the format word is 16 bits whose channel, BITS, divisor, multiplier and base fields hold the values OR-ed in |
| HdaStreamBase.WordRoundTrip | drivers/audio/intel-hda/codecs/utils/stream-base.cpp:501-503 | decoding the word gives back the channel count, the BITS code and the frame rate |
| HdaStreamBase.FormatWordRoundTrip | drivers/audio/intel-hda/codecs/utils/stream-base.cpp:453-509 | a supported format encodes into 16 bits that decode to its channel count, its sample size and its frame rate |
| HdaStreamBase.SupportedRate | drivers/audio/intel-hda/codecs/utils/stream-base.cpp:478-506 | the word of a supported format is built from a table row whose fields encode exactly the requested rate |
| HdaStreamBase.EncodeStreamFormat | drivers/audio/intel-hda/codecs/utils/stream-base.cpp:453-509 | NOT_SUPPORTED, and only that error, for a channel count outside 1 to 16, a sample format without a BITS code, or a rate missing from the table; otherwise NO_ERROR and the format word |
| HdaStreamBase.IntelHdaStreamBase.constructor | drivers/audio/intel-hda/codecs/utils/stream-base.cpp:39-44 | a new stream has its id and direction, no DMA stream, no pending format change, no channels and no device |
| HdaStreamBase.IntelHdaStreamBase.Activate | drivers/audio/intel-hda/codecs/utils/stream-base.cpp:50-74 | BAD_STATE, keeping the codec channel as it was, once shutting down or when already bound; otherwise the codec channel is bound and the result is the implementation's activation error, or else the result of requesting a DMA stream |
| HdaStreamBase.IntelHdaStreamBase.Deactivate | drivers/audio/intel-hda/codecs/utils/stream-base.cpp:76-125 | afterwards the stream is shutting down with no client channel, no codec channel and no device; the DMA stream is handed back iff one was assigned and the codec channel was open, and is forgotten |
| HdaStreamBase.IntelHdaStreamBase.PublishDevice | drivers/audio/intel-hda/codecs/utils/stream-base.cpp:127-153 | INVALID_ARGS without a driver and a parent device; BAD_STATE once shutting down or already published; otherwise the device-add result, and the stream is published iff it succeeded |
| HdaStreamBase.IntelHdaStreamBase.SetDmaStream | drivers/audio/intel-hda/codecs/utils/stream-base.cpp:249-263 | the DMA stream is assigned iff the id and tag are valid and none is assigned yet; otherwise INVALID_ARGS or BAD_STATE and nothing changes |
| HdaStreamBase.IntelHdaStreamBase.ProcessRequestStream | drivers/audio/intel-hda/codecs/utils/stream-base.cpp:159-182 | BAD_STATE once shutting down; otherwise an assignable stream is recorded and the implementation's hook answers, and an unassignable one fails with nothing changed, with INVALID_ARGS for the invalid id or tag and BAD_STATE when a DMA stream is already assigned |
| HdaStreamBase.IntelHdaStreamBase.ProcessSetStreamFmt | drivers/audio/intel-hda/codecs/utils/stream-base.cpp:184-230 | BAD_STATE with nothing changed once shutting down; otherwise NO_ERROR, the in-flight change is cleared, the client is answered iff a change was pending on an open channel and finished, and the client channel is closed iff the finish or the reply failed |
| HdaStreamBase.IntelHdaStreamBase.SendCodecCommand | drivers/audio/intel-hda/codecs/utils/stream-base.cpp:234-247 | BAD_STATE without a codec channel, otherwise the channel write's result |
| HdaStreamBase.IntelHdaStreamBase.DeviceIoctl | drivers/audio/intel-hda/codecs/utils/stream-base.cpp:265-307 | INVALID_ARGS for anything but the get-channel ioctl with a one-handle out buffer; BAD_STATE while a client is bound or once shutting down; NO_MEMORY when no channel can be made; otherwise the activation result, and the client is bound iff it succeeded |
| HdaStreamBase.IntelHdaStreamBase.DoSetStreamFormat | drivers/audio/intel-hda/codecs/utils/stream-base.cpp:309-384 | BAD_STATE without an assigned DMA stream or while a change is in flight, NOT_SUPPORTED for an unencodable format, the implementation's refusal as is, each answered to the client with nothing changed; a failed codec write is returned; otherwise the change is in flight under this transaction with the encoded format |
| HdaStreamBase.IntelHdaStreamBase.ProcessChannel | drivers/audio/intel-hda/codecs/utils/stream-base.cpp:395-436 | NO_ERROR once the client channel is gone; BAD_STATE when shutting down or without a codec channel; the read error; INVALID_ARGS for a request shorter than the header or with the invalid transaction id or a set-format request of the wrong size; NOT_SUPPORTED for an unknown command; nothing changes unless a set-format request is handled; a handled one returns the answer's write result when DoSetStreamFormatLocked refuses the format, otherwise the codec write's result, and only a successful codec write records the transaction and the encoded format |
| HdaStreamBase.IntelHdaStreamBase.NotifyChannelDeactivated | drivers/audio/intel-hda/codecs/utils/stream-base.cpp:439-448 | only the stream's own client channel is forgotten |
| Ath10kLinuxisms.GenMask1 | drivers/wlan/third_party/atheros/ath10k/linuxisms.h:31 | GENMASK1(val) is an unsigned long for shifts below 64 |
| Ath10kLinuxisms.LowMaskBit | drivers/wlan/third_party/atheros/ath10k/linuxisms.h:31 | GENMASK1(val), 2^val - 1, has exactly bits 0 to val - 1 set |
| Ath10kLinuxisms.GenMaskBits | drivers/wlan/third_party/atheros/ath10k/linuxisms.h:32 | GENMASK(start, end) has exactly bits end to start set, and none when end > start |
| Ath10kLinuxisms.Clzl | drivers/wlan/third_party/atheros/ath10k/linuxisms.h:46 | the leading zero count of a nonzero unsigned long is below 64 |
| Ath10kLinuxisms.ClzlBounds | drivers/wlan/third_party/atheros/ath10k/linuxisms.h:46 | the leading zero count places the highest set bit: 2^(63 - clz) <= x < 2^(64 - clz) |
| Ath10kLinuxisms.RoundupRange | drivers/wlan/third_party/atheros/ath10k/linuxisms.h:44-46 | roundup_pow_of_two has a result that fits an unsigned long exactly for val <= 2^63 |
| Ath10kLinuxisms.RoundupPowOfTwoLeast | drivers/wlan/third_party/atheros/ath10k/linuxisms.h:44-46 | roundup_pow_of_two(val) is the least power of two that is at least val, for every val from 1 to 2^63 |
| Ath10kLinuxisms.RoundupLog2IsLog | drivers/wlan/third_party/atheros/ath10k/linuxisms.h:48-51 | roundup_log2(val) is the base-2 logarithm of roundup_pow_of_two(val), below 64 |
| Ath10kLinuxisms.RoundupAsWrittenAgrees | drivers/wlan/third_party/atheros/ath10k/linuxisms.h:44-51 | the macros as written agree with the intended results wherever they are defined: 0 and 2 to 2^63 |
| Ath10kLinuxisms.RoundupOfOneUndefined | drivers/wlan/third_party/atheros/ath10k/linuxisms.h:44-51 | for val 1 both macros count the leading zeros of 0, which is undefined, where 1 and 0 are meant |
| Ath10kLinuxisms.RoundupAboveHalfUndefined | drivers/wlan/third_party/atheros/ath10k/linuxisms.h:44-46 | above 2^63 roundup_pow_of_two shifts by 64, which is undefined: no power of two fits |
| Ath10kLinuxisms.MinOf | drivers/wlan/third_party/atheros/ath10k/linuxisms.h:67 | min(a, b) is one of its arguments and at most both |
| Ath10kLinuxisms.MinT | drivers/wlan/third_party/atheros/ath10k/linuxisms.h:68 | min_t(t, a, b) is one of the two cast arguments and at most both |
| Ath10kLinuxisms.MinTAgreesWhenFits | drivers/wlan/third_party/atheros/ath10k/linuxisms.h:68 | when both arguments fit the type, min_t gives what min gives |
| Ath10kLinuxisms.MinTTruncates | drivers/wlan/third_party/atheros/ath10k/linuxisms.h:68 | with an 8-bit cast, an argument of 256 or more whose low byte is below the other argument makes min_t return that low byte, which is neither argument, where min returns the other argument (min_t(u8, 257, 5) is 1) |
| LluiGeometry.SizeAddSubtract | public/rust/crates/fuchsia-llui/src/geometry.rs:8-20 | subtracting a size that was added gives the size back, and size addition commutes |
| LluiGeometry.SizeSubtractAdd | public/rust/crates/fuchsia-llui/src/geometry.rs:8-20 | adding a size that was subtracted gives the size back |
| LluiGeometry.PointAddSubtract | public/rust/crates/fuchsia-llui/src/geometry.rs:30-42 | subtracting a point that was added gives the point back, and point addition commutes |
| LluiGeometry.PointSubtractAdd | public/rust/crates/fuchsia-llui/src/geometry.rs:30-42 | a point minus another is the offset that leads back to it |
| LluiGeometry.ToSizeHomomorphic | public/rust/crates/fuchsia-llui/src/geometry.rs:44-49 | to_size carries point addition and subtraction over to size addition and subtraction |
| LluiGeometry.IsEmptyIffNoPoint | public/rust/crates/fuchsia-llui/src/geometry.rs:59-61 | the corrected emptiness test holds exactly when the rectangle covers no point |
| LluiGeometry.EmptyAsWrittenFacts | public/rust/crates/fuchsia-llui/src/geometry.rs:59-61 | empty as written holds exactly when both dimensions are non-positive, and then no point is covered |
| LluiGeometry.EmptyAsWrittenMissesFlat | public/rust/crates/fuchsia-llui/src/geometry.rs:59-61 | a rectangle of width 0 and height 10 covers no point, yet empty as written says it is not empty |
| LluiInput.MouseEvents | public/rust/crates/fuchsia-llui/src/input.rs:51-69 | a buffer yields one mouse event per whole 3-byte report |
| LluiInput.ParseMouse | public/rust/crates/fuchsia-llui/src/input.rs:50-70 | the mouse handler's loop sends one event per report, in order, with the report's deltas and buttons, and panics iff the buffer's length is not a multiple of the report size; with overflow checks off and two bytes left over, byte_length wraps and one more event, its rel_y read past the end, is sent before the panic |
| LluiInput.SentEvents | public/rust/crates/fuchsia-llui/src/input.rs:50-70 | one event per whole report, plus one exactly when overflow checks are off and two bytes are left over |
| LluiInput.ParseEncodeRoundTrip | public/rust/crates/fuchsia-llui/src/input.rs:51-69 | parsing the boot mouse reports of a run of mouse events gives the events back |
| LluiInput.NewHandler | public/rust/crates/fuchsia-llui/src/input.rs:126-132 | protocol 1 gets a keyboard handler, 2 a mouse handler, and any other protocol none |
| LluiInput.Parse | public/rust/crates/fuchsia-llui/src/input.rs:43-76 | the keyboard handler produces nothing; the mouse handler sends what ParseMouse sends, in a build with or without overflow checks, and panics iff the buffer has a partial report |
| LluiInput.CheckForEvents | public/rust/crates/fuchsia-llui/src/input.rs:86-114 | false iff the report-size ioctl fails or reports less than one byte; otherwise a zeroed buffer of the maximum report size receives what was read, and the handler parses it iff anything was read |
| LluiInput.ActionForIff | public/rust/crates/fuchsia-llui/src/input.rs:281-292 | under a single-bit mask a button goes down iff its bit goes from clear to set, up iff from set to clear, and otherwise has no change |
| LluiInput.ButtonActionIff | public/rust/crates/fuchsia-llui/src/input.rs:281-292 | button i goes down iff it was up and is now down, up iff it was down and is now up, and has no change otherwise |
| LluiInput.ActionRestores | public/rust/crates/fuchsia-llui/src/input.rs:281-292 | applying each button's action to its old state gives its new state |
| LluiInput.ActionsDetermine | public/rust/crates/fuchsia-llui/src/input.rs:281-292 | the eight actions together with the old buttons determine the low eight bits of the new buttons |
| LluiInput.ButtonActionAt | public/rust/crates/fuchsia-llui/src/input.rs:284-290 | one step of the button loop: the action its mask's bit calls for |
| LluiInput.ButtonActions | public/rust/crates/fuchsia-llui/src/input.rs:280-292 | the loop records an action for each of the eight buttons and nothing else, each the one its bit's change calls for |
| LluiInput.Clamp | public/rust/crates/fuchsia-llui/src/input.rs:274-279 | a clamped coordinate lies between 0 and the maximum, is 0 when the maximum is negative, and is unchanged when already on screen |
| LluiInput.Cursor.constructor | public/rust/crates/fuchsia-llui/src/input.rs:263-271 | a new cursor has the screen's maxima, sits at the origin, and has no button pressed |
| LluiInput.Cursor.CreateEvent | public/rust/crates/fuchsia-llui/src/input.rs:273-294 | the position moves by the deltas clamped to the screen, each of the eight buttons gets the action its bit's change calls for, and the buttons become the new ones |
| ZirconStubs.IoctlFields | public/rust/crates/fuchsia-llui/src/zircon_stubs.rs:48-50 | the kind, family and number fields of an ioctl opcode read back as the low 4, 8 and 8 bits of the arguments |
| ZirconStubs.IoctlReservedBitsZero | public/rust/crates/fuchsia-llui/src/zircon_stubs.rs:48-50 | bits 16 to 19 and 24 to 31 of an opcode are zero, so it is a non-negative i32 |
| ZirconStubs.IoctlLowBitsOnly | public/rust/crates/fuchsia-llui/src/zircon_stubs.rs:48-50 | only the low 4 bits of the kind and the low 8 bits of the family and number matter |
| ZirconStubs.IoctlInjective | public/rust/crates/fuchsia-llui/src/zircon_stubs.rs:48-50 | arguments within their field widths give the same opcode iff they are the same |
| MagmaPlatformBuffer.SumPositive | lib/magma/src/magma_util/platform/zircon/zircon_platform_buffer.cc:55-58 | a total of pin counts is positive exactly when one of the counts is |
| MagmaPlatformBuffer.NewPinCountArray | lib/magma/src/magma_util/platform/zircon/zircon_platform_buffer.cc:26 | a new chunk has kPinCounts counters, all zero, and a zero total |
| MagmaPlatformBuffer.ChunkIncr | lib/magma/src/magma_util/platform/zircon/zircon_platform_buffer.cc:34-41 | incr raises the page's counter and the chunk's total by one and leaves every other counter as it was; the 8-bit counter must not be full |
| MagmaPlatformBuffer.ChunkDecr | lib/magma/src/magma_util/platform/zircon/zircon_platform_buffer.cc:44-52 | decr returns -1 with nothing changed for a zero counter; otherwise the counter and the total go down by one and the new count is returned |
| MagmaPlatformBuffer.TotalsUpdate | lib/magma/src/magma_util/platform/zircon/zircon_platform_buffer.cc:85-124 | replacing one chunk changes the sum of the chunk totals by the difference of the two chunks' totals |
| MagmaPlatformBuffer.PinCountSparseArray.constructor | lib/magma/src/magma_util/platform/zircon/zircon_platform_buffer.cc:63-69 | the sparse array has ceil(page_count / kPinCounts) chunks, all absent, enough for every page, and a zero total |
| MagmaPlatformBuffer.PinCountSparseArray.PinCount | lib/magma/src/magma_util/platform/zircon/zircon_platform_buffer.cc:73-83 | a page's pin count is at most 255, and 0 when its chunk is absent |
| MagmaPlatformBuffer.PinCountSparseArray.Incr | lib/magma/src/magma_util/platform/zircon/zircon_platform_buffer.cc:85-97 | the page's count goes up by one, allocating its chunk if absent, and every other page's count is unchanged |
| MagmaPlatformBuffer.PinCountSparseArray.Decr | lib/magma/src/magma_util/platform/zircon/zircon_platform_buffer.cc:99-118 | for a pinned page the count and the total go down by one, the new count is returned, and a chunk whose total reaches 0 is freed; for an unpinned page nothing changes and the result is negative |
| MagmaPlatformBuffer.TotalCountsPinnedPages | lib/magma/src/magma_util/platform/zircon/zircon_platform_buffer.cc:370-379 | the total pin count is positive exactly when some page is pinned |
| MagmaPlatformBuffer.RangeCheckWraps | lib/magma/src/magma_util/platform/zircon/zircon_platform_buffer.cc:275 | the range check as written, in 32-bit arithmetic, lets a range of pages far beyond a one-page buffer through |
| MagmaPlatformBuffer.RangeCheckAgrees | lib/magma/src/magma_util/platform/zircon/zircon_platform_buffer.cc:275 | where the 32-bit product does not wrap, the check as written is the intended one |
| MagmaPlatformBuffer.CommitPages | lib/magma/src/magma_util/platform/zircon/zircon_platform_buffer.cc:269-292 | true for an empty range; otherwise true iff the range fits the buffer and the commit succeeds |
| MagmaPlatformBuffer.ZirconPlatformBuffer.constructor | lib/magma/src/magma_util/platform/zircon/zircon_platform_buffer.cc:129-138 | a new buffer of a whole number of pages is unmapped and has no page pinned |
| MagmaPlatformBuffer.ZirconPlatformBuffer.PinPages | lib/magma/src/magma_util/platform/zircon/zircon_platform_buffer.cc:294-316 | true for an empty range; false with no count changed for a range past the end or when committing or locking fails; otherwise every page of the range gains exactly one pin and every other page keeps its count |
| MagmaPlatformBuffer.ZirconPlatformBuffer.CountPinned | lib/magma/src/magma_util/platform/zircon/zircon_platform_buffer.cc:329-339 | the first loop finds every page of the range pinned iff each is, and then counts how many have exactly one pin |
| MagmaPlatformBuffer.ZirconPlatformBuffer.UnpinPages | lib/magma/src/magma_util/platform/zircon/zircon_platform_buffer.cc:318-368 | true for an empty range; false with no count changed for a range past the end or with an unpinned page; otherwise every page of the range loses one pin, unlocked all at once when each had exactly one and page by page otherwise |
| MagmaPlatformBuffer.ZirconPlatformBuffer.UnpinEach | lib/magma/src/magma_util/platform/zircon/zircon_platform_buffer.cc:353-364 | the page-by-page walk removes one pin from each page of the range and unlocks each page whose count reaches zero, stopping at the first failed unlock |
| MagmaPlatformBuffer.ZirconPlatformBuffer.DecrementRange | lib/magma/src/magma_util/platform/zircon/zircon_platform_buffer.cc:342-344 | the decrement loop removes one pin from each page of the range and changes no other page |
| MagmaPlatformBuffer.ZirconPlatformBuffer.MapCpu | lib/magma/src/magma_util/platform/zircon/zircon_platform_buffer.cc:214-251 | the mapping succeeds iff the alignment is a page multiple and a power of two if non-zero and, for the first mapping, the VMAR is allocated and the VMO mapped; each success counts one more mapping |
| MagmaPlatformBuffer.ZirconPlatformBuffer.UnmapCpu | lib/magma/src/magma_util/platform/zircon/zircon_platform_buffer.cc:253-267 | unmapping fails iff nothing is mapped; otherwise there is one mapping fewer, even when the last unmap fails |
| MagmaPlatformBuffer.ZirconPlatformBuffer.ReleasePages | lib/magma/src/magma_util/platform/zircon/zircon_platform_buffer.cc:370-379 | the whole buffer is unlocked iff some page is still pinned |
| MagmaPlatformBuffer.ZirconPlatformBuffer.MapPageRangeBus | lib/magma/src/magma_util/platform/zircon/zircon_platform_buffer.cc:381-402 | the bus mapping succeeds iff every page of the range is pinned and the lookup succeeds |
| MakeEfi.TrimSpaceFacts | go/src/make-efi/make-efi.go:226 | strings.TrimSpace keeps a contiguous slice of the line, drops only whitespace around it, and leaves no whitespace at either end |
| MakeEfi.TrimSpaceNewline | go/src/make-efi/make-efi.go:225-226 | the newline ReadString leaves on a line makes no difference once the line is trimmed |
| MakeEfi.NoSpaceAtEnds | go/src/make-efi/make-efi.go:226 | a line without whitespace at either end is its own TrimSpace |
| MakeEfi.IndexOf | go/src/make-efi/make-efi.go:230 | the index found is that of the first occurrence of the character, or the length when there is none |
| MakeEfi.SplitN2 | go/src/make-efi/make-efi.go:230 | splitting at most once gives two parts iff the separator occurs, and then the parts joined by the separator give the line back with no separator in the first part; otherwise the one part is the line |
| MakeEfi.JoinPath | go/src/make-efi/make-efi.go:235 | the source is the manifest directory and the relative path joined by a slash, an empty element ignored |
| MakeEfi.ReadLine | go/src/make-efi/make-efi.go:225 | ReadString('\n') returns everything up to and including the first newline, leaving the rest; without a newline it returns the rest of the input and io.EOF |
| MakeEfi.ReadLineOf | go/src/make-efi/make-efi.go:225 | a line ended by a newline reads as itself and leaves what follows |
| MakeEfi.ReadLastLine | go/src/make-efi/make-efi.go:225 | a last line without a newline reads with io.EOF and leaves nothing |
| MakeEfi.NextOf | go/src/make-efi/make-efi.go:223-238 | every call either reaches io.EOF, leaving nothing to read, or consumes at least one line |
| MakeEfi.EmptyInput | go/src/make-efi/make-efi.go:225-234 | an exhausted manifest reads an empty line with io.EOF, a line without '=' |
| MakeEfi.NextAtEof | go/src/make-efi/make-efi.go:223-238 | the corrected Next of an exhausted manifest returns two empty strings and io.EOF |
| MakeEfi.NextSkipsLine | go/src/make-efi/make-efi.go:227-234 | comment lines and lines without '=' are passed over, and Next returns what the rest of the manifest gives |
| MakeEfi.NextReadsEntry | go/src/make-efi/make-efi.go:230-235 | a dst=src line yields the text before its first '=' as destination and the text after it, joined to the manifest directory, as source |
| MakeEfi.Entries | go/src/make-efi/make-efi.go:71-82 | the entries successive calls of Next return end with the one carrying io.EOF |
| MakeEfi.ManifestReader.constructor | go/src/make-efi/make-efi.go:211-221 | a new reader has the whole manifest to read and the manifest's directory as root |
| MakeEfi.ManifestReader.Next | go/src/make-efi/make-efi.go:223-238 | one call returns what NextOf describes and leaves the reader after the lines it consumed |
| MakeEfi.NextAsWrittenSpins | go/src/make-efi/make-efi.go:223-238 | as written, Next never returns on an exhausted manifest: ReadString yields an empty line with io.EOF, the line has no '=', and the loop's own shadowing err stays invisible to the loop condition |
| MakeEfi.LastLineExhausts | go/src/make-efi/make-efi.go:225 | after a last line ended by a newline, the reader is exhausted |
| MakeEfi.NextAsWrittenHangsAfterLastLine | go/src/make-efi/make-efi.go:223-238 | for a manifest whose last line ends in a newline, the corrected Next reports io.EOF on the following call while Next as written never returns |
| MakeEfi.FlagCopies | go/src/make-efi/make-efi.go:56-65 | the kernel, ramdisk and bootloader copies are present iff their flags are given, under their fixed destinations, and no other destination is |
| MakeEfi.LastEntryWins | go/src/make-efi/make-efi.go:71-75 | the last recorded manifest entry for a destination wins over earlier entries and over the flags |
| MakeEfi.RecordKeeps | go/src/make-efi/make-efi.go:71-75 | a destination that no recorded entry names keeps its flag copy, or its absence |
| MakeEfi.RecordNext | go/src/make-efi/make-efi.go:71-82 | recording a manifest is recording what Next returns, if both its strings are non-empty, then the entries after it |
| MakeEfi.CollectCopies | go/src/make-efi/make-efi.go:54-84 | the copy list is the flag copies, then every manifest entry Next returns with both strings non-empty, until io.EOF |
| MakeEfi.GetSize | go/src/make-efi/make-efi.go:194-203 | getSize is 0 for an empty path, the size os.Stat reports otherwise, and fatal exactly when Stat fails |
| MakeEfi.SumSizesRemove | go/src/make-efi/make-efi.go:242-244 | the sum of the sizes does not depend on the order the map is ranged over |
| MakeEfi.Pad | go/src/make-efi/make-efi.go:245-248 | the padded total is a uint64 |
| MakeEfi.PadFacts | go/src/make-efi/make-efi.go:245-248 | without wrap-around the padding adds total % 63: a multiple of 63 is kept and any other total grows by less than 63 |
| MakeEfi.ComputeSize | go/src/make-efi/make-efi.go:240-250 | computeSize is fatal iff some source cannot be sized; otherwise it is the padded uint64 sum of the sizes of all sources |
| MakeEfi.SumSources | go/src/make-efi/make-efi.go:241-244 | the summing loop is fatal iff some source cannot be sized, and otherwise sums every source's size in uint64 |
| MakeEfi.NoFilesSizeZero | go/src/make-efi/make-efi.go:194-197 | destinations without files contribute nothing, so their size is 0 |
| Mdns.InsertMultiset | bin/netconnector/mdns/mdns.cc:203-229 | queueing an entry adds exactly that entry to the queue |
| Mdns.InsertSorted | bin/netconnector/mdns/mdns.cc:203-229 | queueing keeps the queue ordered by due time, as the priority queue pops it |
| Mdns.InsertHead | bin/netconnector/mdns/mdns.cc:203-229 | the head after queueing is the old head, if due no later, or else the new entry |
| Mdns.InsertLast | bin/netconnector/mdns/mdns.cc:203-229 | an entry due no earlier than every queued one goes last |
| Mdns.DueSplit | bin/netconnector/mdns/mdns.cc:284-289 | on an ordered queue the entries popped as due are exactly those due no later than the window's end |
| Mdns.WithoutFacts | bin/netconnector/mdns/mdns.cc:240-255 | removing an agent's wake-ups keeps the queue ordered and holds exactly the other agents' entries |
| Mdns.DrainWithout | bin/netconnector/mdns/mdns.cc:243-255 | the drain-and-requeue loop leaves the wake queue holding exactly the other agents' entries |
| Mdns.TakeDueQuestions | bin/netconnector/mdns/mdns.cc:284-289 | the question loop pops the due questions in queue order and leaves the rest |
| Mdns.GatherDue | bin/netconnector/mdns/mdns.cc:295-325 | the resource loop pops the due resources and gathers those not cancelled and not yet added, each into its section |
| Mdns.GatheredIff | bin/netconnector/mdns/mdns.cc:295-325 | a resource is added iff some due entry brings it and it is not cancelled |
| Mdns.GatheredSections | bin/netconnector/mdns/mdns.cc:295-325 | the sections hold only added, uncancelled resources, none twice; and when no entry is for the expired section they hold every added resource |
| Mdns.AnyDue | bin/netconnector/mdns/mdns.cc:284 | some entry of an ordered queue is due iff its head is |
| Mdns.AnyLiveDue | bin/netconnector/mdns/mdns.cc:295-325 | the loop adds something iff some due resource is not cancelled |
| Mdns.CancelSentFacts | bin/netconnector/mdns/mdns.cc:346-364 | exactly the sent resources with TTL 0 become cancelled, and every other TTL is kept |
| Mdns.MarkCancelled | bin/netconnector/mdns/mdns.cc:346-364 | the TTL loops mark each sent resource whose TTL is 0 as cancelled |
| Mdns.SentTtlFacts | bin/netconnector/mdns/mdns.cc:346-364 | after sending, no resource of the message has TTL 0, and every other TTL is kept |
| Mdns.SendAllWellFormed | bin/netconnector/mdns/mdns.cc:274-365 | sending keeps both queues ordered |
| Mdns.SendAllIff | bin/netconnector/mdns/mdns.cc:327-329 | a message is sent iff some question is due or some due resource is not cancelled |
| Mdns.SendAllLeavesLater | bin/netconnector/mdns/mdns.cc:284-326 | everything due leaves the queues, and what remains is due after the window |
| Mdns.OutgoingContents | bin/netconnector/mdns/mdns.cc:274-344 | the message carries the due questions in queue order, is an authoritative response iff it has no question, and carries each due uncancelled resource exactly once in its section, and nothing else |
| Mdns.SendDue | bin/netconnector/mdns/mdns.cc:274-365 | the body of SendMessage pops what is due, and when something was added sends the message and marks the TTLs of its resources |
| Mdns.Mdns.constructor | bin/netconnector/mdns/mdns.cc:34 | a new engine is stopped, with no agents, no publications and empty queues |
| Mdns.Mdns.WakeAt | bin/netconnector/mdns/mdns.cc:203-206 | the agent's wake-up is queued at its time and nothing else changes |
| Mdns.Mdns.SendQuestion | bin/netconnector/mdns/mdns.cc:208-212 | the question is queued at its time and nothing else changes |
| Mdns.Mdns.SendResource | bin/netconnector/mdns/mdns.cc:214-229 | an expired resource goes to every agent and is never queued; any other is queued for its section at its time |
| Mdns.Mdns.SendMessage | bin/netconnector/mdns/mdns.cc:274-365 | everything due within the aggregation window after the clock leaves the queues; the outgoing message is sent iff something was added, and the TTLs of its resources are updated |
| Mdns.Mdns.AddAgent | bin/netconnector/mdns/mdns.cc:264-272 | the agent joins; once started, a message is sent |
| Mdns.Mdns.RemoveAgent | bin/netconnector/mdns/mdns.cc:240-262 | the agent leaves, its wake-ups are dropped, a named publication is forgotten, and a message is sent in case it left an epitaph |
| Mdns.Mdns.PublishServiceInstance | bin/netconnector/mdns/mdns.cc:133-160 | publication fails with nothing changed iff an instance of that full name is already published; otherwise a new responder agent joins and is recorded as its publisher |
| Mdns.Mdns.Start | bin/netconnector/mdns/mdns.cc:46-103 | from any state, including an engine already started: the address responder joins, sending at once if the engine was started; the engine is then started iff the transceiver started, and then a message is sent |
| Mdns.Mdns.Stop | bin/netconnector/mdns/mdns.cc:105-108 | the engine is stopped and nothing else changes |
| RalinkDevice.ExtractTxPower | drivers/wlan/mediatek/ralink/device.cpp:60-66 | the power is the selected byte read as a signed value, clamped to the band's minimum and maximum |
| RalinkDevice.TxPowerOfWordBytes | drivers/wlan/mediatek/ralink/device.cpp:60-66 | an even byte offset reads the word's low byte and an odd one its high byte |
| RalinkDevice.CompensateTx | drivers/wlan/mediatek/ralink/device.cpp:2649-2655 | each nibble of the compensated byte is the power's nibble capped at 0x0c |
| RalinkDevice.CompensateTxIdempotent | drivers/wlan/mediatek/ralink/device.cpp:2649-2655 | compensating twice is compensating once, a byte is left alone iff neither nibble exceeds 0x0c, and the result is at most 0xcc |
| RalinkDevice.RateIndex | drivers/wlan/mediatek/ralink/device.cpp:2830-2880 | the table index looked up is within the 4 by 8 table, and there is none for a phy mode of 4 or more |
| RalinkDevice.McsToRateAsWritten | drivers/wlan/mediatek/ralink/device.cpp:2830-2893 | as written the rate is 0 whenever no table index is found |
| RalinkDevice.McsToRate | drivers/wlan/mediatek/ralink/device.cpp:2830-2893 | with the scaled rate kept whole the rate is 0 without a table index and at most 300 half-Mbit/s |
| RalinkDevice.McsToRateMonotone | drivers/wlan/mediatek/ralink/device.cpp:2881-2890 | a 40 MHz channel or a short guard interval never lowers the rate |
| RalinkDevice.McsToRateAgrees | drivers/wlan/mediatek/ralink/device.cpp:2881-2890 | where the whole rate fits a byte, the code as written computes it |
| RalinkDevice.McsToRateOverflows | drivers/wlan/mediatek/ralink/device.cpp:2881-2890 | HT MCS 7 at 40 MHz is 130 times 108 over 52, 270 half-Mbit/s, which the uint8_t holds as 14 |
| RalinkDevice.MapCipherSuiteToKeyMode | drivers/wlan/mediatek/ralink/device.cpp:3377-3388 | TKIP of the standard OUI maps to the TKIP key mode and CCMP-128 to AES, each iff; anything else is unsupported |
| RalinkDevice.WriteKey | drivers/wlan/mediatek/ralink/device.cpp:3394-3426 | NOT_SUPPORTED iff the mode is not none, TKIP or AES; INVALID_ARGS iff the key length is not the mode's or a key is given for mode none; otherwise the key entry, zero for mode none and the key otherwise, is sent, and IO iff the transfer fails or is short |
| RalinkDevice.FrameLength | drivers/wlan/mediatek/ralink/device.cpp:3177-3183 | the frame length exists unless the tail offset is past the tail's length |
| RalinkDevice.AlignPad | drivers/wlan/mediatek/ralink/device.cpp:3192 | the alignment pad is below 4 and brings the length to a multiple of 4 |
| RalinkDevice.RequestLengthAligned | drivers/wlan/mediatek/ralink/device.cpp:3190-3194 | the request length is a multiple of 4 and covers TxInfo, the TXWI fields and the frame |
| RalinkDevice.Payload | drivers/wlan/mediatek/ralink/device.cpp:3165-3172 | the payload is the head, then the tail past its offset, then zeros for the alignment and terminal padding |
| RalinkDevice.BusyWait | drivers/wlan/mediatek/ralink/device.cpp:2765-2777 | the register is read at most kMaxBusyReads times and every read but the last failed the predicate; OK iff the last read succeeds with the predicate holding, a failed read's status otherwise, and TIMED_OUT after kMaxBusyReads reads without it |
| RalinkDevice.Device.constructor | drivers/wlan/mediatek/ralink/device.cpp:73-80 | a new device has nothing queued; it takes the state that setup produces as given: the EEPROM words that ReadEeprom (device.cpp:221-283) reads in, the free write requests and the chip flag |
| RalinkDevice.Device.ReadEepromField | drivers/wlan/mediatek/ralink/device.cpp:285-289 | a word address reads iff it is within the EEPROM, giving a 16-bit value; otherwise INVALID_ARGS |
| RalinkDevice.Device.ReadEepromByte | drivers/wlan/mediatek/ralink/device.cpp:291-302 | a byte address reads iff its word is within the EEPROM, giving one byte; otherwise INVALID_ARGS |
| RalinkDevice.Device.EepromBytesComposeWord | drivers/wlan/mediatek/ralink/device.cpp:291-302 | the two byte addresses of a word read back the word, low byte first |
| RalinkDevice.Device.QueueTx | drivers/wlan/mediatek/ralink/device.cpp:3174-3301 | INVALID_ARGS when the tail offset is past the tail, BUFFER_TOO_SMALL when the padded request exceeds the write buffer, IO when a request of a good length finds no write request free, the map's status when one is free but mapping fails, each with the free list and the queue unchanged; otherwise the last free request is taken and queued with the request length, the TxInfo length and the padded payload |
| Vfs.DefaultVfsOpen | public/rust/crates/fuchsia-vfs/src/vfs.rs:26-29 | the default filesystem resolves no path: it always fails with a non-zero status (ErrNotSupported) |
| Vfs.EncodeObject | public/rust/crates/fuchsia-vfs/src/vfs.rs:190-208 | too much extra data or too many handles is refused; otherwise the reply is the 8-byte status and protocol header followed by the extra bytes unchanged |
| Vfs.EncodeDecodeRoundTrip | public/rust/crates/fuchsia-vfs/src/vfs.rs:198-207 | every accepted reply decodes back to the status, protocol and extra bytes it was written from |
| Vfs.StatusReply | public/rust/crates/fuchsia-vfs/src/vfs.rs:184-188 | a status reply decodes to that status with protocol 0 and no extra bytes |
| Vfs.StripPipeline | public/rust/crates/fuchsia-vfs/src/vfs.rs:141-142 | the open flags lose the pipeline bit and keep every other bit |
| Vfs.Dispatch | public/rust/crates/fuchsia-vfs/src/vfs.rs:84-138 | a served vnode is served with exactly the flags handed to the filesystem's open, and one message is answered at most once |
| Vfs.ShortMessageFailsSilently | public/rust/crates/fuchsia-vfs/src/vfs.rs:87-90 | a message shorter than the header fails with ErrIo, opens nothing and writes no reply |
| Vfs.MalformedHeaderRejected | public/rust/crates/fuchsia-vfs/src/vfs.rs:96-109 | a header failing any of the length and handle-count checks, and only such a header, is answered ErrInvalidArgs on the connection's channel and fails with it |
| Vfs.OpenBadPathRejectedOnChild | public/rust/crates/fuchsia-vfs/src/vfs.rs:114-125 | an open with an empty or over-long path is answered ErrInvalidArgs on the new child channel and never reaches the filesystem |
| Vfs.OpenWithoutHandlePanics | public/rust/crates/fuchsia-vfs/src/vfs.rs:114-117 | a well-formed message panics exactly when it is an open carrying no handle |
| Vfs.UnknownOpNotSupported | public/rust/crates/fuchsia-vfs/src/vfs.rs:132-137 | any opcode other than open is answered ErrNotSupported on the connection's channel and dispatch succeeds |
| Vfs.OpenStripsPipelineFlag | public/rust/crates/fuchsia-vfs/src/vfs.rs:127-182 | a well-formed open passes the path bytes and the flags without the pipeline bit to the filesystem, replies exactly when the pipeline bit is clear, and serves a resolved vnode with the stripped flags |
| Vfs.OpenedReplyCarriesProtocol | public/rust/crates/fuchsia-vfs/src/vfs.rs:148-169 | an unpipelined successful open is answered NoError with the remote protocol on the child channel |
| Vfs.FailedOpenReplyCarriesError | public/rust/crates/fuchsia-vfs/src/vfs.rs:171-181 | an unpipelined failed open is answered with the filesystem's error and protocol 0, and dispatch itself succeeds |
| Vfs.DefaultVfsAnswersNotSupported | public/rust/crates/fuchsia-vfs/src/vfs.rs:26-29 | with the default filesystem every well-formed unpipelined open is answered ErrNotSupported |
| WlanPacket.FirstAvailable | drivers/wlan/wlan/packet.cpp:38-53 | the class chosen from a fallback chain is in the chain and its allocator has a buffer, and there is none exactly when no allocator of the chain has one |
| WlanPacket.GetBuffer | drivers/wlan/wlan/packet.cpp:35-55 | GetBuffer returns nothing exactly when every allocator of the length's fallback chain is exhausted |
| WlanPacket.GetBufferFits | drivers/wlan/wlan/packet.cpp:35-55 | every buffer handed out holds the requested length |
| WlanPacket.GetBufferPrefersSmallest | drivers/wlan/wlan/packet.cpp:38-53 | a small buffer is taken for a small length when one is free, a large one for a large length, and a longer length only ever gets a huge buffer |
| WlanPacket.GetBufferAsWrittenMisplaces | drivers/wlan/wlan/packet.cpp:38 | comparing the length with kLargeBuffers sends a small length to the huge allocator while small buffers are free, and can hand out a large buffer shorter than the length |
| WlanPacket.Packet.constructor | drivers/wlan/wlan/packet.cpp:23-26 | a packet owns the buffer and the length, which must lie within the buffer's capacity |
| WlanPacket.Packet.CopyFrom | drivers/wlan/wlan/packet.cpp:28-33 | a copy ending past the capacity fails with BUFFER_TOO_SMALL and changes nothing; otherwise the bytes land at the offset, every other byte is kept, and the length becomes the larger of the old length and the copy's end |
| WlanPacket.CopyFromReadsBack | drivers/wlan/wlan/packet.cpp:28-33 | reading back the range just copied gives the copied bytes |
| WlanPacket.CreateWlanPacket | drivers/wlan/wlan/packet.cpp:14-21 | a packet is created exactly when the corrected GetBuffer finds a buffer (the source calls GetBuffer as written, whose tier comparison is a finding below); it is fresh, has the frame length, uses the chosen buffer's capacity and is addressed to the WLAN peer |
| WlanScanner.MatchingExact | drivers/wlan/wlan/scanner.cpp:324-335 | a neighbour is reported exactly when no SSID was asked for or its SSID is the one asked for |
| WlanScanner.MatchingAll | drivers/wlan/wlan/scanner.cpp:331 | with no SSID asked for, every neighbour is reported in its order |
| WlanScanner.InitialTimeout | drivers/wlan/wlan/scanner.cpp:249-255 | the first deadline on a channel is the minimum dwell time after the channel start for a passive scan and the probe delay after it otherwise |
| WlanScanner.Scanner.constructor | drivers/wlan/wlan/scanner.cpp:27-31 | a new scanner is idle, with no response, no timer and no neighbours |
| WlanScanner.Scanner.Reset | drivers/wlan/wlan/scanner.cpp:112-121 | reset drops the request and the response, zeroes the channel index and start, cancels the timer and forgets the neighbours, and leaves the scanner idle |
| WlanScanner.Scanner.SendScanResponse | drivers/wlan/wlan/scanner.cpp:324-352 | the matching neighbours are appended to the response; it reaches the service only when a buffer was available and it serialized; the status reports which step failed; the neighbours are forgotten unless no buffer was available |
| WlanScanner.Scanner.Start | drivers/wlan/wlan/scanner.cpp:68-110 | a running scan refuses with UNAVAILABLE and changes nothing; an invalid request is answered NOT_SUPPORTED at once; otherwise the first channel is set and the timer armed at the initial timeout, and a failed channel switch or timer answers the scan and resets |
| WlanScanner.Scanner.BeginScan | drivers/wlan/wlan/scanner.cpp:85-109 | a valid request on an idle scanner switches to its first channel; with both calls succeeding the scan runs from that channel with the timer at the initial timeout, and a failure answers with SUCCESS for the channel and NOT_SUPPORTED for the timer and resets |
| WlanScanner.Scanner.Answer | drivers/wlan/wlan/scanner.cpp:324-352 | answering before any neighbour was heard sends the response unchanged |
| WlanScanner.Scanner.AbortStart | drivers/wlan/wlan/scanner.cpp:87-108 | a scan that could not start is answered with the given result code and no BSS, and the scanner is idle afterwards |
| WlanScanner.Scanner.StartWithResponseAsWritten | drivers/wlan/wlan/scanner.cpp:33-40 | while a scan runs, a refused start still replaces its response with an empty NOT_SUPPORTED one |
| WlanScanner.Scanner.StartWithResponse | drivers/wlan/wlan/scanner.cpp:33-66 | a running scan refuses with UNAVAILABLE and changes nothing; an invalid request gives INVALID_ARGS and stays idle; otherwise the scan runs on the first channel and the timer status is returned |
| WlanScanner.Scanner.StartWithResponseIdle | drivers/wlan/wlan/scanner.cpp:44-65 | an invalid request gives INVALID_ARGS with the request, start and timer untouched; a valid one starts the scan now and arms the timer at the initial timeout when the timer call succeeds |
| WlanScanner.Scanner.HandleTimeout | drivers/wlan/wlan/scanner.cpp:182-239 | past the maximum dwell time on the last channel the scan is answered and the scanner resets; on an earlier channel the scan moves to the next one and restarts its clock; past the minimum the timer moves to the maximum; an active scan past its probe delay probes and waits for the minimum; when setting the timer fails on any of those three branches, the scan is answered with the matching neighbours and the scanner resets; before any deadline nothing changes; every branch that does not answer keeps the neighbours, the pending response and the sent responses, so beacons heard on earlier channels reach the final answer |
| WlanScanner.Scanner.TimerFailed | drivers/wlan/wlan/scanner.cpp:233-238 | a failed timer answers the scan with the matching neighbours and leaves the scanner idle |
| WlanScanner.Scanner.HandleError | drivers/wlan/wlan/scanner.cpp:241-247 | an error is reported by sending a fresh NOT_SUPPORTED response that carries exactly the neighbours matching the request's SSID; the table is cleared once a buffer is had, and the response is recorded as sent iff it serializes |
| WlanScanner.Upsert | drivers/wlan/wlan/scanner.cpp:172 | after an upsert the heard BSS is in the table, every other entry was there before under another BSSID, and every earlier entry under another BSSID is kept |
| WlanScanner.UpsertReported | drivers/wlan/wlan/scanner.cpp:331-334 | a heard BSS whose SSID matches the request is reported, and apart from it the report holds only earlier matches under other BSSIDs |
| WlanScanner.Scanner.HandleBeaconOrProbeResponse | drivers/wlan/wlan/scanner.cpp:150-180 | a frame whose BSSID differs from its sender is ignored; otherwise a successful upsert records the BSS; the answer is always OK |
| WlanStates.NewScanState | go/src/wlan/wlan/states.go:134-141 | a new scan state is idle with nothing pending, and pauses exactly when no SSID is configured |
| WlanStates.HandleMlmeMsg | go/src/wlan/wlan/states.go:89-644 | a message a state does not expect leaves state and client unchanged and reports an error; an expected one never does |
| WlanStates.ScanResponseStep | go/src/wlan/wlan/states.go:225-247 | a scan response ends the scan; the client joins exactly when no scan command is pending, an SSID is configured and some access point matches, taking the first match; otherwise it stays scanning with the client unchanged |
| WlanStates.HandleMlmeMsgKeepsAp | go/src/wlan/wlan/states.go:225-341 | no message leads to joining, authenticating, associating or associated without an access point chosen |
| WlanStates.ConnectSequence | go/src/wlan/wlan/states.go:326-545 | successful join, authentication and association responses lead from joining to associated, and a failure at any step returns to a fresh scan state |
| WlanStates.AssociatedTransitions | go/src/wlan/wlan/states.go:608-641 | when associated, a deauthentication response clears the configuration and scans, a disassociation re-associates, a deauthentication indication re-authenticates, and reports and EAPOL frames stay associated |
| WlanStates.CommandIsDisabled | go/src/wlan/wlan/states.go:81-579 | commands wait while a scan runs and while joining, authenticating or associating, and are taken when starting a BSS or associated |
| WlanStates.NeedTimer | go/src/wlan/wlan/states.go:112-653 | a timer is needed exactly in an idle scan with an SSID configured, for the configured interval when positive and 5 seconds otherwise |
| WlanStates.TimerExpired | go/src/wlan/wlan/states.go:253-283 | a timer in the scan state ends the pause; every other state stays as it is |
| WlanStates.ScanRun | go/src/wlan/wlan/states.go:159-182 | a pending scan command scans for any SSID with its own timeout when positive, and panics when its argument is not a scan request; otherwise the configured SSID is scanned for unless paused; a failed send reports an error and leaves the scan not running |
| WlanStates.ScanHandleCommandAsWritten | go/src/wlan/wlan/states.go:188-201 | as written, every scan command becomes the pending command, even one answered INVALID_ARGS |
| WlanStates.SetScanConfig | go/src/wlan/wlan/states.go:202-217 | a configuration argument replaces the client's configuration and is answered with success; any other argument is answered INVALID_ARGS; the state is kept |
| WlanStates.BadScanCommandPanics | go/src/wlan/wlan/states.go:159-201 | a scan command with a wrong argument is answered INVALID_ARGS and then makes the next run fail its type assertion |
| WlanStates.ScanHandleCommand | go/src/wlan/wlan/states.go:188-223 | a scan command with a scan request becomes pending without a reply, one with another argument is answered INVALID_ARGS and dropped, and a disconnect is answered NOT_SUPPORTED |
| WlanStates.PendingStaysWellTyped | go/src/wlan/wlan/states.go:159-259 | with the corrected command handling, commands, messages, timers and runs keep every pending command a scan request, so run never panics |
| WlanStates.AssociatedHandleCommand | go/src/wlan/wlan/states.go:581-606 | when associated, a disconnect is answered with success, or INTERNAL when the deauthentication request cannot be sent; any other command is answered NOT_SUPPORTED; the state stays associated |
| WlanStates.CreateAssociationRsne | go/src/wlan/wlan/states.go:467-496 | the announced RSNE offers a CCMP-128 group cipher exactly when the beacon's group cipher is CCMP-128 and TKIP otherwise, CCMP-128 as the only pairwise cipher, PSK as the only AKM, and zero capabilities |
| WlanStates.PairwiseNeverTkip | go/src/wlan/wlan/states.go:478-489 | TKIP is never offered as a pairwise cipher |
| CpuperfCategories.FoldStaysAborted | bin/cpuperf_provider/categories.cc:134-151 | once Update has given up, no later category changes its outcome |
| CpuperfCategories.FoldAbortIff | bin/cpuperf_provider/categories.cc:117-158 | Update gives up exactly when a second sampling category or a second programmable category is enabled; until then it has a sampling rate iff exactly one sampling category was enabled, and a programmable category iff exactly one was |
| CpuperfCategories.FoldHaveSomething | bin/cpuperf_provider/categories.cc:142-155 | until Update gives up, it has something to collect iff a fixed or programmable category was enabled |
| CpuperfCategories.FoldOptions | bin/cpuperf_provider/categories.cc:121-133 | until Update gives up, it traces the OS or user side iff that option's category was enabled |
| CpuperfCategories.DefaultCaseDisabled | bin/cpuperf_provider/categories.cc:95-111 | when every category is enabled, the configuration stays reset and nothing is traced |
| CpuperfCategories.UpdateEnabledIff | bin/cpuperf_provider/categories.cc:113-166 | outside the default case, tracing is enabled iff at most one sampling and at most one programmable category, and at least one fixed or programmable category, are enabled |
| CpuperfCategories.UpdateOsUser | bin/cpuperf_provider/categories.cc:121-164 | a completed Update traces the OS side iff cpu:os was enabled or neither cpu:os nor cpu:user was, and the user side likewise |
| CpuperfCategories.Changed | bin/cpuperf_provider/categories.cc:169-183 | two configurations differ iff some field differs, the selection compared as a set; unchanged ones agree on selection and enablement |
| CpuperfCategories.TranslateToDeviceConfig | bin/cpuperf_provider/categories.cc:185-238 | the selected categories' counters fill the first slots in iteration order, the rest stay zero; it fails exactly when they do not fit, the slots then holding the counters that fitted and no rate or flags; on success each used slot carries the sampling rate and the option flags and every other slot none |
| CpuperfCategories.WriteAllCounters | bin/cpuperf_provider/categories.cc:189-221 | the counter loop writes as many counters as fit into the zeroed slots and reports whether all of them did |
| CpuperfCategories.CountersOverflow | bin/cpuperf_provider/categories.cc:194-215 | a category whose counters run past the last slot makes the whole translation overflow, with the same counters in the slots |
| CpuperfCategories.WriteCounters | bin/cpuperf_provider/categories.cc:194-216 | one category's counters are written from the current slot; the write fails exactly when they would run past the last slot, and only the slots written change |
| CpuperfCategories.Decimal | bin/cpuperf_provider/categories.cc:247 | the rate is printed as a non-empty string of decimal digits |
| CpuperfCategories.DecimalRoundTrip | bin/cpuperf_provider/categories.cc:247 | the printed digits read back as the number |
| CpuperfCategories.CategoryNames | bin/cpuperf_provider/categories.cc:259-262 | the loop's text is the names of the categories visited, in visiting order, each after a comma |
| CpuperfCategories.NamesOf | bin/cpuperf_provider/categories.cc:259-262 | exactly one name per visited category, in visiting order |
| CpuperfCategories.OptionText | bin/cpuperf_provider/categories.cc:252-257 | the text is the words of the options set, each after a comma |
| CpuperfCategories.OptionWords | bin/cpuperf_provider/categories.cc:252-257 | "os", "user" and "pc" each appear exactly when their option is set, nothing else appears, and they come in the order os, user, pc |
| CpuperfCategories.RateText | bin/cpuperf_provider/categories.cc:246-250 | a sampling configuration prints "@" and a counting one "tally" |
| CpuperfCategories.ToString | bin/cpuperf_provider/categories.cc:240-265 | the text is "disabled" exactly when tracing is disabled; otherwise it starts with "@" exactly when sampling |
| CpuperfCategories.ToStringFields | bin/cpuperf_provider/categories.cc:240-265 | an enabled configuration's text, split at its commas, is the rate text, then "os", "user" and "pc" for exactly the options set and in that order, then each selected category's name once, in iteration order, when no name holds a comma |
| CpuperfCategories.ToStringText | bin/cpuperf_provider/categories.cc:240-265 | an enabled configuration prints as its rate text followed by a comma and a word for each option set and each selected category, in that order |
| CpuperfCategories.FieldsOfJoined | bin/cpuperf_provider/categories.cc:252-262 | words without commas, each appended after a comma, split back into exactly those words |
| CpuperfCategories.ToStringRateRoundTrip | bin/cpuperf_provider/categories.cc:240-265 | the sampling rate of an enabled configuration reads back from its text |
| CpuperfCategories.TraceConfig.constructor | bin/cpuperf_provider/categories.cc:83-90 | a new configuration is the reset one |
| CpuperfCategories.TraceConfig.Reset | bin/cpuperf_provider/categories.cc:83-90 | reset disables tracing, clears every option and the rate, and empties the selection |
| CpuperfCategories.TraceConfig.Update | bin/cpuperf_provider/categories.cc:92-167 | Update leaves the configuration the enabled categories select, as the lemmas about it characterize |
| CpuperfCategories.TraceConfig.SelectCategories | bin/cpuperf_provider/categories.cc:113-158 | the second loop leaves the options, rate and selection of the enabled categories and says whether it completed and found something to collect |
| CpuperfCategories.TraceConfig.Visit | bin/cpuperf_provider/categories.cc:118-157 | one category's enabled switch sets its option, records its rate or selects it, and stops at a second sampling or programmable category |

## Left out

- Channel, USB, PCI, MMIO and VMO I/O, timers, clocks and the kernel calls behind them. Their outcomes are method parameters: a status, a `now`, or the bytes a device delivers. Only their effect on the modelled state is kept.
- Concurrency: locks, the tokio reactor, the dispatcher threads and the mDNS task runner. Every operation runs to completion on its own.
- Logging, tracing and debug printing (FXL_LOG, errorf, debugf, eprintln!, log.Printf).
- Headers that are not part of this model are parameters, not constants: remoteio, packet.h's buffer sizes, ralink.h's tx power bounds and key modes, cpu-perf.h's flags and the category .inc tables, intel-hda-proto.h and audio2-proto.h sizes. Zircon status codes take the values of Zircon's errors.h.
- Vfs: Vnode::close, Vnode::serve and Vfs::register_connection are represented by the recorded open call and the `served` flags. Connection::new and poll's receive loop, including the dropping of received handles, are I/O.
- Vfs: a message's header fields (op, datalen, arg, mode) arrive already decoded beside its bytes. The zxrio_msg_t layout is not part of this model.
- Vfs: a channel write never fails. The `?` after a failed write is not modelled.
- AttBearer: the L2CAP channel is a log of what is sent. Transaction ids and the channel's own close and error callbacks are outside the model.
- GattServer: the constructor's registration of the request handlers and the bearer's transaction bookkeeping (EndTransaction, ReplyWithError, set_mtu) are not modelled. Exchange MTU returns the MTU it would set.
- GattLocalServiceManager: the 64-bit wrap of next_service_id after 2^64 registrations is not modelled. std::sort is not stable, but the model keeps the given order among UUIDs of equal compact size, so it fixes one of the orders the source may produce.
- GattServerFidl: the numeric values of the FIDL enums are not modelled.
- GattServerFidl: NewDescriptor, NewCharacteristic and PublishService are not modelled. They parse each UUID string, rejecting an invalid one, and turn the permissions into access requirements. NewCharacteristic also rejects missing permissions and a null or invalid descriptor. PublishService rejects a missing adapter, service or delegate, registers the service with the adapter's local service manager, and keeps per-service bookkeeping that removes the service when its delegate disconnects. UUID string parsing and the adapter are not part of this model.
- HdaController.IntelHdaController.ReturnStream: returning a stream of invalid hardware type, or one already in its pool, is a precondition, as the source's debug assertions demand.
- MagmaPlatformBuffer.ZirconPlatformBuffer.MapPageRangeBus: requires the page range to lie within the pin-count array. The source does not check it.
- MagmaPlatformBuffer: GetFd, CleanCache and the Create/Import factories are not modelled, because they are kernel calls with no logic of their own.
- RalinkDevice: EEPROM loading and channel setup (ReadEeprom, InitializeChannelInfo and the register sequences) are hardware sequencing, not modelled.
- RalinkDevice.Device.QueueTx: the size_t wrap of the length arithmetic is not modelled. Lengths are whole numbers.
- GicDistributor: Interrupt, Init and the interrupt controller behind the distributor are not modelled. The bits.h helpers are written out as division and remainder.
- LluiGeometry: Size and Point arithmetic requires its results to fit in `i32`. A debug build panics there, and a release build wraps.
- LluiInput.Cursor.CreateEvent: requires the moved position to fit in `i32`, which is the same debug-build overflow. Buttons are 32-bit patterns of the `i32`.
- LluiInput: whether the build checks arithmetic overflow, and the byte read past the end of the buffer, are parameters of the mouse parser.
- LluiInput: open_devices, open_handle and wait_for_events are device I/O, not modelled.
- ZirconStubs: the vmar flags and the extern declarations of fdio_ioctl and zx_vmar_map, which are bindings with no logic. Arguments are 32-bit patterns.
- Ath10kLinuxisms: ARRAY_SIZE, WARN, WARN_ON, WARN_ON_ONCE, SPINLOCK_ASSERT_HELD, iowrite32, ioread32 and mdelay, which are I/O or diagnostics. The cast inside min_t is a parameter of the model.
- MakeEfi: filepath.Clean, which filepath.Join applies to its result, is not modelled. filepath.Dir of the manifest's path is given. msCopyIn, mkfs and main's file I/O are not modelled. A read error other than io.EOF cannot occur. Strings are sequences of chars, not UTF-8 bytes. computeSize's result does not depend on Go's map iteration order, so no order is modelled.
- Mdns: PostTask, ReceiveQuestion and ReceiveResource, the agents' own Start and Quit, AddResponder, UnpublishServiceInstance, ResolveHostName, SubscribeToService, SendAddresses, Renew, EnableInterface, SetVerbose, LocalInstanceFullName and the transceiver are not modelled. They are either I/O or work done by agents that are not part of this model.
- Mdns: the priority queues are kept sorted by time. Entries with equal times are taken in insertion order, not in std::priority_queue's unspecified order. Resource TTLs are a map handed in and out.
- WlanStates: CollectScanResults, the EAPOL client and supplicant construction, the join, auth and assoc run functions' request building, and String are not modelled. A scan response carries its filtered and unfiltered results.
- WlanScanner: HandleBeaconOrProbeResponse's frame parsing is not modelled; a frame is its BSSID, sender address and SSID. The BSS table (bss.cc) is not part of this model. It is a sequence with one entry per BSSID, and a failed upsert leaves it unchanged. SendProbeRequest's frame building is represented by the channel a probe went out on.
- WlanPacket.CreateWlanPacket: requires the frame length to be at most the huge buffer size. The source accepts any length, and only the Packet constructor's debug assertion (packet.cpp:25) catches a frame longer than the buffer. WlanPacket.GetBufferFits carries the same bound.
- CpuperfCategories: the category table and the trace engine's enabled query are parameters. The iteration order of the selected-category set is the `order` parameter, which lists every selected category exactly once.

## Findings

| source | as written | input that shows it | evidently intended | confidence | as-written member | corrected member |
|---|---|---|---|---|---|---|
| drivers/bluetooth/lib/att/attribute.cc:78 | the grouping constructor checks `kHandleMax - start_handle > attr_count`, which refuses a grouping whose last handle, `start_handle + attr_count`, is exactly kHandleMax | start handle 1 with 0xFFFE further attributes: the last handle is 0xFFFF, which is valid, and the check fails | the last handle is at most kHandleMax (`start_handle + attr_count <= kHandleMax`), the bound the database allocates to | medium, not executed | AttAttribute.GroupingRangeCheckAsWritten, AttAttribute.GroupingRangeCheckWeakened, AttDatabase.LastHandleTripsGroupingCheck | AttAttribute.GroupingRangeCheck, AttAttribute.NewGrouping |
| lib/magma/src/magma_util/platform/zircon/zircon_platform_buffer.cc:275 | `(start_page_index + page_count) * PAGE_SIZE > size()` is computed in 32-bit unsigned arithmetic, assuming PAGE_SIZE is the C library's `int` 4096; the same check is at lines 300 and 324 | start page 0xFFFFF, one page, a one-page buffer: the product wraps to 0 and the check passes | the range's end, computed without wrapping, lies within the buffer | medium, not executed | MagmaPlatformBuffer.RangeCheckAsWritten, MagmaPlatformBuffer.RangeCheckWraps | MagmaPlatformBuffer.RangeCheck, MagmaPlatformBuffer.RangeCheckAgrees |
| drivers/wlan/mediatek/ralink/device.cpp:2885-2889 | ralink_mcs_to_rate stores `rate * 108 / 52` back into a `uint8_t` | HT mix mode, mcs 7, 40 MHz: 130 * 108 / 52 = 270, stored as 14 | the scaled rate kept whole (up to 300 with the short guard interval) | high, not executed | RalinkDevice.McsToRateAsWritten, RalinkDevice.McsToRateOverflows | RalinkDevice.McsToRate, RalinkDevice.McsToRateAgrees |
| go/src/wlan/wlan/states.go:190-200 | scanState.handleCommand answers a CmdScan whose argument is not a *ScanRequest with INVALID_ARGS but still stores it in cmdPending; run then asserts the type at line 163 and panics | a CmdScan carrying any other argument, followed by the next run | a command answered INVALID_ARGS is dropped, so a pending command is always a scan request | high, not executed | WlanStates.ScanHandleCommandAsWritten, WlanStates.BadScanCommandPanics | WlanStates.ScanHandleCommand, WlanStates.PendingStaysWellTyped |
| drivers/wlan/wlan/scanner.cpp:35-39 | Start(req, resp) takes over the response and marks it NOT_SUPPORTED before checking IsRunning | Start with a response while a scan runs: the call is refused with UNAVAILABLE, yet the running scan's response has been replaced | a refused Start changes nothing | medium, not executed | WlanScanner.Scanner.StartWithResponseAsWritten | WlanScanner.Scanner.StartWithResponse |
| drivers/wlan/wlan/packet.cpp:38 | GetBuffer compares the length with kLargeBuffers, the number of large buffers, where the large buffer size is meant | a length above kLargeBuffers but within the small size gets a huge buffer although small ones are free; a length above the large size but within kLargeBuffers gets a large buffer too short for it | huge buffers only for lengths above the large buffer size | medium, not executed | WlanPacket.GetBufferAsWritten, WlanPacket.GetBufferAsWrittenMisplaces | WlanPacket.GetBuffer, WlanPacket.GetBufferFits |
| go/src/make-efi/make-efi.go:224-225 | `line, err := r.ReadString('\n')` declares a new err inside the loop, so the loop's own err stays nil and a skipped line always goes round again, even at io.EOF | the manifest "a=b\n": after its entry the reader is exhausted, and the next call reads "" with io.EOF forever | the read error ends the loop and is returned, so the caller sees io.EOF | high, not executed | MakeEfi.NextAsWritten, MakeEfi.NextAsWrittenSpins, MakeEfi.NextAsWrittenHangsAfterLastLine | MakeEfi.ManifestReader.Next, MakeEfi.NextAtEof |
| drivers/wlan/third_party/atheros/ath10k/linuxisms.h:44-51 | roundup_pow_of_two and roundup_log2 take `__builtin_clzl(val - 1)`, which is undefined for val 1 | val 1: clzl(0) | 1 and 0, the least power of two at least 1 and its logarithm | high, not executed | Ath10kLinuxisms.RoundupPowOfTwoAsWritten, Ath10kLinuxisms.RoundupOfOneUndefined | Ath10kLinuxisms.RoundupPowOfTwo, Ath10kLinuxisms.RoundupPowOfTwoLeast, Ath10kLinuxisms.RoundupLog2IsLog |
| public/rust/crates/fuchsia-llui/src/geometry.rs:59-61 | Rectangle::empty tests `width <= 0 && height <= 0` | width 0 and height 10: the rectangle covers no point, yet it is not empty | `width <= 0 \|\| height <= 0`: empty exactly when it covers no point | medium, not executed | LluiGeometry.Rectangle.EmptyAsWritten, LluiGeometry.EmptyAsWrittenMissesFlat | LluiGeometry.Rectangle.IsEmpty, LluiGeometry.IsEmptyIffNoPoint |
