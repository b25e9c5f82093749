# sFlow toolkit: a verified model

The toolkit is two daemons. `stcollectd` parses sFlow version 5 datagrams, passes filled sample
buffers from a collecting thread to a writing thread, and cuts each agent's samples into segments
of one minute that it announces through a message queue. `stprocessd` reads announced segments,
aggregates flow samples into conversation tables and turns interface counters into increments and
bulk statements. This project models the four cores and states what they guarantee.

- **Pipeline.** `BufferQueue` is the linked queue on the heap (stale `prev` links and all);
  `Pipeline` the two threads as a step system whose program counters stand inside `flushLists` and
  `writeBufferToDisk`; `PipelineInvariant` what every step keeps; `PipelineGuarantees` what that
  means for every schedule; `LaneBuffers` and `Daemon` refine the steps on the heap, with one owner
  for every buffer; `FlushTimes` says from a schedule alone when a flush begins; `SampleStore` is the
  minute rotation, `Segmentation` the exact condition under which it cuts correctly; `HandOff` the
  names, messages and sealed segments that leave the daemon.
- **Conversations.** `Packets` reads the captured header, and `Frames` shows for frames built from
  their fields that it finds these fields; `Conversations` states the four tables as maps; `RollUps` relates the tables to each other; `ConversationTables` is the array of bucket
  chains that refines the maps, `Chains` the linked nodes in them.
- **Datagrams.** `Decoder` states what the parser does on the words of a datagram, `DatagramParser`
  is the parser with its cursor and slots, `Encoding` an encoder for sFlow Version 5 (section 5 of
  that specification; padding as in section 4.10 of RFC 4506) with the proof that the decoder inverts it,
  `DecoderGuarantees` and `Accounting` what follows for stale slots, unknown tags, the two
  encodings and the drop counter. The encoder writes the specification's numbers.
- **Reports and messages.** `CounterReports` and `StatusTable` are the counter report,
  `BulkInsert` the bulk statements, `BulkText` their text as the database reads it, `Messaging` the
  message text, `Decimal` and `CStrings` numbers and C strings.
- **EndToEnd** joins them, from any schedule of the collecting daemon to the report and the
  conversations; **Delivery** does so through the lines that the processing daemon scans and the
  files that it opens by name; **WireToReport** starts at the words of the datagrams.

Where a promise does not hold on all inputs, the lemma says exactly on which inputs it does
(`...Iff`).

## Model

| member | source | states |
|---|---|---|
| BufferQueue.AdjustmentKeepsLast | src/bufferqueue.c:85-110 | growing or shrinking the free queue before a pop never changes which buffer the pop returns, and shrinking discards only the buffer in front |
| BufferQueue.BQueue.constructor | src/bufferqueue.c:6-20 | a new queue is a well-formed chain of `num` empty buffers |
| BufferQueue.BQueue.Push | src/bufferqueue.c:43-64 | pushing puts a detached buffer in front of the list and keeps the chain well formed, although an empty push clears no link |
| BufferQueue.BQueue.PushNew | src/bufferqueue.c:155-180 | a fresh empty buffer joins at the front |
| BufferQueue.BQueue.Free | src/bufferqueue.c:32-41 | the front buffer leaves, the others stay in order |
| BufferQueue.BQueue.PopWait | src/bufferqueue.c:119-153 | the oldest buffer is returned detached, with a null `next` |
| BufferQueue.BQueue.Settle | src/bufferqueue.c:84-99 | the wait's outcome allocates one buffer, frees one or does neither |
| BufferQueue.BQueue.Pop | src/bufferqueue.c:66-117 | a pop returns the oldest buffer of the queue it found, whatever the wait's outcome did to the front |
| LaneBuffers.LaneHeap.constructor | src/stcollectd.c:356-369 | after allocation the collector and the two queues own disjoint buffers |
| LaneBuffers.LaneHeap.Store | src/sflowparser.c:310-312 | a parsed sample lands at the end of the collector's buffer only |
| LaneBuffers.LaneHeap.Push | src/stcollectd.c:180-183 | ownership of the collector's buffer moves to the flush queue |
| LaneBuffers.LaneHeap.Pop | src/stcollectd.c:185-188 | the collector becomes the only owner of a free buffer |
| LaneBuffers.LaneHeap.Take | src/stcollectd.c:203-204 | the writer becomes the only owner of the oldest flushed buffer |
| LaneBuffers.LaneHeap.Empty | src/stcollectd.c:217-226 | the written buffer is emptied before it is returned |
| LaneBuffers.LaneHeap.GiveBack | src/stcollectd.c:232-235 | ownership moves back to the free queue |
| Daemon.Stcollectd.constructor | src/stcollectd.c:356-369 | the daemon starts in the initial state of the step system |
| Daemon.Stcollectd.ReceiveDatagram | src/stcollectd.c:264-297 | receiving a datagram is one step: its samples join the buffers and the flush condition decides |
| FlushTimes.LastFlushIsSince | src/stcollectd.c:273-294 | after every schedule the remembered time is that at which the collector began to wait for the datagram that led to the last flush, or for the first datagram before there was one, as the receptions alone tell |
| FlushTimes.FlushIff | src/stcollectd.c:264-296 | for every schedule, a received datagram begins a flush exactly if the interval had passed since that time (mod 2^32) when the collector began to wait for it, or one of the two buffers has at most ten places left in unsigned arithmetic |
| FlushTimes.QuietSamplesLeave | src/stcollectd.c:264-296 | no sample stays with the collector past the first datagram that it waits for an interval after the last flush |
| FlushTimes.NextArrivalFlushes | src/stcollectd.c:264-296 | once a datagram has arrived an interval after the last flush, the next one flushes at the latest |
| FlushTimes.LateArrivalStays | src/stcollectd.c:264-285 | that datagram itself need not flush, however late it arrives |
| Daemon.Stcollectd.FlushFlowBuffer | src/stcollectd.c:182 | the first push of `flushLists` refines its step |
| Daemon.Stcollectd.FlushCntrBuffer | src/stcollectd.c:183 | the second push of `flushLists` refines its step |
| Daemon.Stcollectd.RefillFlow | src/stcollectd.c:187 | the first pop of `flushLists` refines its step, for every outcome of the wait |
| Daemon.Stcollectd.RefillCntr | src/stcollectd.c:188 | the second pop of `flushLists` refines its step, for every outcome of the wait |
| Daemon.Stcollectd.WriteBuffers | src/stcollectd.c:199-236 | every pass of the writing thread refines the writer's steps |
| Daemon.Stcollectd.WriteFlow | src/stcollectd.c:209-218 | the flow loop writes one sample per step, in order |
| Daemon.Stcollectd.WriteCntr | src/stcollectd.c:219-227 | the counter loop writes one sample per step, in order |
| PipelineInvariant.StepOk | src/stcollectd.c:175-239 | every step of either thread keeps conservation, ownership, capacity, pairing and the write log |
| PipelineInvariant.RunOk | src/stcollectd.c:175-239 | the invariant holds after every schedule |
| PipelineGuarantees.SamplesConserved | src/stcollectd.c:175-239 | parsed samples are, in order, those written, the rest of the writer's buffer, the flush queue from end to start, and the collector's buffer |
| PipelineGuarantees.BuffersPaired | src/stcollectd.c:182-204 | the two buffers that the writer holds were flushed by the same `flushLists` call |
| PipelineGuarantees.BuffersBounded | src/stcollectd.c:209-233 | with room for a datagram, no buffer exceeds its capacity, free buffers are empty, the pool never falls below `buffer_num` |
| PipelineGuarantees.BoundedIffRoomForDatagrams | src/stcollectd.c:285 | whatever the most samples of a datagram are, the capacity bound holds for every schedule exactly if the flush condition leaves room for them: at most 10 with a buffer of 10, at most 11 with a larger one, at most the buffer if every datagram is flushed |
| PipelineGuarantees.FlowBufferReturns | src/stcollectd.c:187-232 | a collector that waits for a flow buffer gets one after boundedly many writer steps |
| PipelineGuarantees.CntrBufferReturns | src/stcollectd.c:188-233 | a collector that waits for a counter buffer gets one after boundedly many writer steps |
| PipelineGuarantees.NeverDeadlocked | src/stcollectd.c:175-239 | with `buffer_num` at least 1 and room for a datagram (`Pipeline.ValidConfig`) no schedule deadlocks: the collector can move, or the writer can and frees it in a number of steps that the lemma returns |
| PipelineGuarantees.SegmentsEndToEnd | src/samplestore.c:70-152 | after every schedule an agent's announced segments and the open one are, in order, its samples written so far, one minute each, announced once and in minute order, exactly if those samples' times can be cut |
| SampleStore.SegmentWriter.AddSampleToFile | src/samplestore.c:70-152 | the in-place rotation computes the store that the specification says, for one sample |
| SampleStore.WrittenIsSegmented | src/samplestore.c:79-150 | for minutes that never decrease, announced segments and the open segment are exactly the samples written |
| Segmentation.SegmentedIff | src/samplestore.c:70-152 | for every log: that holds exactly if the agent's minutes never decrease and its times lie from the second minute of the epoch to the end of the 32-bit clock, or it has one late sample alone |
| Segmentation.SameMinuteKeptIff | src/samplestore.c:79-81 | a log of just two samples of one minute is kept exactly if both times are in that range |
| Segmentation.AccountedAlways | src/samplestore.c:79-109 | at any times, every file of an agent is the open one or was announced, and an open file that is written over was announced before |
| SampleStore.ReopenedIsNotSegmented | src/samplestore.c:79-109 | a segment that is reopened is announced while it is still written |
| HandOff.HandOffStamps | src/samplestore.c:98-139 | a message is stamped from the sealed minute up to the next segment, and with the sealed minute exactly if no minute was skipped |
| HandOff.SealedIsFinal | src/samplestore.c:92-111 | an announcement stays, and an announced segment is never written again |
| HandOff.NamesInjective | src/samplestore.c:62-68 | two segment names are the same text exactly if agent, minute and kind agree |
| HandOff.NameForm | src/samplestore.c:62-68 | a name is the stamp, the agent's decimal number and `_flow` or `_cntr` |
| HandOff.MessageDelivered | src/samplestore.c:95-100 | every hand-off message is short enough for the queue, and is scanned as its agent, its stamp, its segment's name, and type 0 for flow and 1 for counter samples |
| Delivery.LinesSelect | src/stprocessd.c:44-52 | for every queue, the receiver's dispatch on the scanned lines selects the sender's segments one by one, by name, with agent, stamp and kind |
| Delivery.DirectoryExists | src/samplestore.c:62-68 | where the stamps tell the minutes apart, no two files of the daemon share a name |
| Delivery.NamesHaveFilesAlways | src/samplestore.c:79-111 | after every log, each announced and each open segment has its file |
| Packets.StripIp | src/dataparser.c:158-163 | whatever length an IP header claims, ports and TCP flags are read inside the 128 stored bytes |
| Frames.EthernetSeen | src/dataparser.c:123-146 | for every Ethernet header, tagged or not, the key has its addresses, the type counters its type, and exactly IPv4 frames reach the IP table |
| Frames.Ipv4Seen | src/dataparser.c:148-256 | for every IPv4 header behind it the key has its addresses, the histograms its version and protocol, and exactly the protocols 6 and 17 reach the transport tables |
| Frames.TransportSeen | src/dataparser.c:158-274 | for IP headers of every length the transport keys have the segment's ports and the flag counters its flags, in the order URG, ACK, PSH, RST, SYN, FIN |
| ConversationTables.HashKey | src/dataparser.c:410-451 | the bucket of every key lies in the table and no 32-bit sum overflows |
| Chains.Search | src/dataparser.c:285-294 | the walk over linked nodes ends at the key's node or proves its absence |
| Chains.KeysDistinct | src/dataparser.c:347-371 | a linked chain holds no key twice |
| ConversationTables.ConvTable.FindOrCreate | src/dataparser.c:344-371 | the key's node is found, or a zeroed one is linked in front; every key keeps one node in the bucket of its hash and `num` stays the chain length |
| ConversationTables.ConvTable.Count | src/dataparser.c:375-388 | only the found conversation is updated |
| ConversationTables.ConvTable.Add | src/dataparser.c:296-389 | find-or-create followed by the update refines an update of the map |
| ConversationTables.Aggregator.ConvListAdd | src/dataparser.c:296-389 | counting in one table leaves the three others as they were |
| ConversationTables.Aggregator.ProcessSample | src/dataparser.c:80-108 | one sample is counted at every layer that it reaches |
| ConversationTables.Aggregator.ProcessFile | src/dataparser.c:45-60 | after a file the four tables are the tables of its samples |
| Conversations.UpdateAddsShare | src/dataparser.c:223-283 | an update adds one sample's share to every counter of its conversation, mod 2^32, and nothing else |
| Conversations.TableKeys | src/dataparser.c:344-371 | a conversation exists exactly for the keys that occurred |
| Conversations.TableCounts | src/dataparser.c:223-283 | every counter is the sum of the shares of the matching samples mod 2^32 |
| Conversations.TablesPermuted | src/dataparser.c:296-389 | the order of the samples does not matter |
| RollUps.ColumnIsTotal | src/dataparser.c:223-283 | a counter summed over the conversations of a table is the sum over the samples, mod 2^32 |
| RollUps.TransportRollUp | src/dataparser.c:97-106 | `protocol[6]` and `protocol[17]` of an IP conversation are the frames of the TCP and UDP conversations below it |
| RollUps.LayersAgree | src/dataparser.c:95-107 | the Ethernet table's IP count, the IP table's frames and the number of IP samples agree, tagged or not, and the Ethernet table counts every sample |
| RollUps.HistogramsAddUp | src/dataparser.c:248-255 | the protocol and the version histogram of an IP conversation each add up to its frames |
| Encoding.GenericInverts | src/sflowparser.c:56-77 | the generic counter parser reads back every field of an encoded record |
| Encoding.EthernetInverts | src/sflowparser.c:79-94 | the Ethernet counter parser reads back every field of an encoded record |
| Encoding.RecordInverts | src/sflowparser.c:141-160 | one encoded counter record fills its part of the slot and is consumed exactly; an unknown one fills nothing |
| Encoding.RecordsInvert | src/sflowparser.c:219-221 | so does any list of records, in order |
| Encoding.CompactInverts | src/sflowparser.c:206-208 | a compact source id comes back with its index, and with its class sign-extended from 8 bits |
| Encoding.CompactInterfaceInverts | src/sflowparser.c:266-271 | a compact interface id comes back with its value, and with its format sign-extended from 2 bits |
| Encoding.HeaderBytesInvert | src/sflowparser.c:123-127 | the captured header comes back cut to 128 bytes and filled with zeros |
| Encoding.HeaderInverts | src/sflowparser.c:107-131 | a sampled header record is stored and consumed with its padding |
| Encoding.CounterSampleInverts | src/sflowparser.c:197-222 | an encoded counter sample, compact or expanded, is stored and consumed exactly |
| Encoding.FlowRecordInverts | src/sflowparser.c:171-185 | one encoded flow record is consumed exactly; a sampled header fills its part of the slot, any other record nothing |
| Encoding.FlowSampleInverts | src/sflowparser.c:242-292 | a flow sample with any list of records is stored from its head and its first record, and the cursor stops behind that record |
| Encoding.FlowCursorIff | src/sflowparser.c:273-291 | parsing a flow sample ends where the sample ends exactly if it has one record |
| Encoding.SampleInverts | src/sflowparser.c:301-343 | an encoded sample appends itself to its buffer, one with an unknown tag changes nothing, and the cursor stands behind it exactly unless it is a flow sample with several records |
| Encoding.SamplesInvert | src/sflowparser.c:413-417 | any list of samples whose flow samples have one record each is stored in order and consumed exactly |
| Encoding.DatagramInverts | src/sflowparser.c:358-417 | parsing inverts encoding where flow samples have one record: exactly the encoded words are read, the known samples are appended in order whatever the slots held, and the agent is counted under its own address or, for a loopback address, its sender's |
| DecoderGuarantees.InStepIff | src/sflowparser.c:291-417 | for every datagram: the cursor finds the start of every sample and the end exactly if every flow sample has one record |
| DecoderGuarantees.RecordsTakenForSamples | src/sflowparser.c:291-342 | further records of a flow sample are taken for samples and skipped, each in the place of a real one |
| DecoderGuarantees.SecondSampleLost | src/sflowparser.c:291-417 | in a datagram of two samples a flow sample with two records swallows the other one |
| DecoderGuarantees.CounterSampleLost | src/sflowparser.c:291-417 | a datagram for which that happens: a sampled header and an extended switch record, then a counter sample |
| DecoderGuarantees.UnknownIgnored | src/sflowparser.c:156-159 | samples and records with unknown tags leave no trace |
| DecoderGuarantees.LastRecordWins | src/sflowparser.c:152-155 | of several records of a kind the last one counts; without one the slot's old counters stay |
| DecoderGuarantees.DeterminedIff | src/sflowparser.c:326-333 | a stored counter sample is free of its slot's old counters exactly if the datagram has records of both kinds |
| DecoderGuarantees.FlowDeterminedIff | src/sflowparser.c:310-319 | a stored flow sample is free of the packet header that its slot held exactly if the record that is read is a sampled header |
| DecoderGuarantees.EncodingsAgreeIff | src/sflowparser.c:197-291 | compact and expanded encodings of a sample are stored alike exactly if class is below 128 and formats below 2, and each leaves the cursor at the sample that follows exactly if a flow sample has one record |
| DatagramParser.Cursor.GetData64 | src/sflowparser.c:38-43 | two words, the high one first |
| DatagramParser.Cursor.SkipBytes | src/sflowparser.c:33-36 | bytes are skipped in whole words, rounded up in 32 bits |
| DatagramParser.Cursor.GetAddress | src/sflowparser.c:45-54 | an address is two words for IPv4 and five otherwise |
| DatagramParser.Cursor.ParseCountersGeneric | src/sflowparser.c:56-77 | the cursor form computes the decoder's generic record |
| DatagramParser.Cursor.ParseCountersEthernet | src/sflowparser.c:79-94 | the cursor form computes the decoder's Ethernet record |
| DatagramParser.Collector.ParseSampledHeader | src/sflowparser.c:107-131 | only the given slot changes, to what the decoder says |
| DatagramParser.Collector.ParseFlowRecordHeader | src/sflowparser.c:171-185 | exactly one flow record is read into the slot |
| DatagramParser.Collector.ParseFlowSample | src/sflowparser.c:242-292 | only the given slot changes, to what the decoder says |
| DatagramParser.Collector.ParseCounterRecordHeader | src/sflowparser.c:141-160 | one record overwrites its part of the slot |
| DatagramParser.Collector.ParseCounterSample | src/sflowparser.c:197-222 | the record loop leaves what the decoder says in the slot |
| DatagramParser.Collector.ParseSample | src/sflowparser.c:301-343 | the sample takes the next slot of its buffer, all other slots stay |
| DatagramParser.Collector.CountDatagram | src/sflowparser.c:403-411 | the agent's counters move to the accounted state, other agents stay |
| DatagramParser.Collector.ParseDatagram | src/sflowparser.c:358-417 | the whole parser does what the decoder says to buffers, agent and cursor, if what it stores fits |
| Accounting.LastIsStored | src/sflowparser.c:406-411 | after any run the agent shows the sequence number, uptime and time of its latest datagram |
| Accounting.DatagramsCounted | src/sflowparser.c:405 | every datagram of an agent is counted |
| Accounting.DropsExact | src/sflowparser.c:408-411 | after any run drops are the last number less all numbers that met a stored 0, mod 2^32 |
| Accounting.DropsTelescope | src/sflowparser.c:408-411 | without a number 0 before the last, drops are last minus first mod 2^32 |
| Accounting.LossEstimateIff | src/sflowparser.c:405-411 | over increasing numbers, drops less the datagrams after the first is the number of missing datagrams exactly if the run does not continue from 0 |
| StatusTable.CounterTable.HashLookup | src/storage_csv.c:29-59 | find-or-create keeps one entry per interface in its agent's chain; a new entry is zero and in front |
| StatusTable.CounterTable.StoreSample | src/storage_csv.c:92-154 | a sample is reported against its interface's entry, which then holds the sample |
| StatusTable.CounterTable.StoreCntr | src/storage_csv.c:61-158 | the loop over a counter list computes the specified rows and table |
| CounterReports.ListsConcatenate | src/storage_csv.c:88-158 | reporting lists one by one is reporting their concatenation: files do not matter |
| CounterReports.TableIsLatest | src/storage_csv.c:149-152 | the table knows exactly the interfaces seen, each by its latest sample |
| CounterReports.RowMeaning | src/storage_csv.c:99-116 | a row's increments lead from the previous sample of the same interface to this one; the first row is unknown; the seconds and the link speed are those between and before the two |
| CounterReports.SecondsIff | src/storage_csv.c:99 | the seconds are defined and right exactly if the two times differ by less than 2^31 |
| CounterReports.Telescopes | src/storage_csv.c:100-105 | over any run the reported increments add up to the last counter less what came while no earlier time was known, mod 2^64 |
| CounterReports.TelescopesToLastMinusFirst | src/storage_csv.c:100-105 | with real times that is last minus first, across files and wraps |
| CounterReports.DeltaIsTrueIff | src/storage_csv.c:100-101 | an increment is the true one, even across a wrap, exactly if that is below 2^64 |
| CounterReports.ReportIsTrue | src/storage_csv.c:100-152 | the report accounts for every octet from an interface's first sample to its last |
| BulkInsert.BatchesPartition | src/storage_mysql.c:540-581 | the rows of all statements are, in order, the list |
| BulkInsert.BatchesBounded | src/storage_mysql.c:569-571 | no statement has more than 500 rows, for lists of any length |
| BulkInsert.AllFullIff | src/storage_mysql.c:569-571 | every statement but the last has exactly 500 rows, and the last n mod 500, exactly while the 32-bit row counter has not wrapped |
| BulkInsert.StatementForm | src/storage_mysql.c:571-582 | a statement is its rows separated by commas, the last comma replaced by a space; the last one has no row exactly if the counter ends at a multiple of 500 |
| BulkInsert.RowDetermines | src/storage_mysql.c:545-567 | two samples print alike exactly if they agree in agent, 32-bit time and all generic counters |
| BulkInsert.FieldsInColumns | src/storage_mysql.c:526-567 | every number of a row stands in the column that the statement names for it |
| BulkText.HeaderReads | src/storage_mysql.c:526-531 | between its parentheses and commas, a statement lists the 21 column names |
| BulkText.RowReads | src/storage_mysql.c:545-567 | between its parentheses and commas, a row lists its 21 fields |
| BulkText.SampleStored | src/storage_mysql.c:526-548 | read back from the text, time, agent, interface and type stand where the statement names `timestamp`, `agent`, `if_index` and `if_type` |
| BulkText.LinkStored | src/storage_mysql.c:526-551 | so do speed, direction and status |
| BulkText.InputStored | src/storage_mysql.c:528-555 | so do the octets and packets that came in, under their own names |
| BulkText.InputLossesStored | src/storage_mysql.c:529-558 | so do the discards, errors and unknown protocols of the input |
| BulkText.OutputStored | src/storage_mysql.c:529-562 | so do the octets and packets that went out |
| BulkText.OutputLossesStored | src/storage_mysql.c:530-567 | so do the discards and errors of the output, and the promiscuous mode |
| BulkInsert.BufferSuffices | src/storage_mysql.c:524-545 | the header, 500 rows of any values and the terminator fit into the 300000 characters of the buffer |
| BulkInsert.PrintRow | src/storage_mysql.c:545-567 | a row is printed behind those that wait, inside the buffer |
| BulkInsert.SendStatement | src/storage_mysql.c:572-573 | the database receives the buffered statement with its last character blanked |
| BulkInsert.StoreCntr | src/storage_mysql.c:517-585 | the loop sends exactly the specified statements |
| Decimal.DecWidths | src/storage_mysql.c:545 | a 32-bit number prints in at most 10 characters, a 64-bit number in at most 20 |
| Messaging.MessageQueue.SendMsg | src/messaging.c:42-57 | the printed message fits its buffer, and is queued unless it is longer than the 268 characters that the queue takes |
| Messaging.MessageQueue.RecvMsg | src/messaging.c:59-82 | the oldest line is taken and scanned |
| Messaging.ScannedNameIsToken | src/messaging.c:76 | whatever comes in, a scanned name is neither empty nor contains white space |
| Messaging.RoundTripIff | src/messaging.c:52-80 | scanning undoes printing for all 32-bit fields exactly if the name is not empty and has no white space |
| Messaging.DeliveredIff | src/messaging.c:18-82 | a sent message is received field by field exactly if its text has at most 268 characters and its name is not empty and has no white space |
| Messaging.LongNameRefused | src/messaging.c:18-55 | with numbers of ten digits, a name of up to 255 characters fits its field and makes the text too long exactly above 244 |
| EndToEnd.ReportIsOneList | src/dataparser.c:11-33 | processing announced segments one by one gives the report of all their counter samples |
| EndToEnd.ReadIsPrefixOfParsed | src/stprocessd.c:44-52 | what the processing daemon reads of an interface is, in order, the beginning of what the collecting daemon parsed of it, for every schedule |
| EndToEnd.ReportEndToEnd | src/storage_csv.c:88-158 | for every schedule, the octets reported for an interface are those that it moved between its first and last sample handed over |
| EndToEnd.ConversationsEndToEnd | src/dataparser.c:45-78 | for every schedule, layer, set of conversations and counter, what the tables of an agent's announced segments hold adds up to the shares of exactly the samples handed over, mod 2^32 |
| Delivery.ReportFromLines | src/stprocessd.c:44-52 | the same for the report that the delivered lines produce, each line scanned, dispatched by its type and its file opened by name |
| Delivery.ConversationsFromLines | src/stprocessd.c:44-52 | the same for the conversation tables that the delivered lines store for an agent |
| WireToReport.ParsedIsReceived | src/stcollectd.c:264-297 | what the collector parsed of either kind is what the received datagrams decode to, in order |
| WireToReport.DecodedReadings | src/sflowparser.c:308-342 | a received datagram gives the readings that it carries, whatever the reused slots hold |
| WireToReport.ReportFromWire | src/stcollectd.c:264-297 | for every schedule over datagrams as words, the octets reported for an interface are those between its first and last reading that was handed over |
| WireToReport.DecodedFlows | src/sflowparser.c:308-324 | a received datagram whose flow samples have one sampled header each gives these flow samples, whatever the reused slots hold |
| WireToReport.ConversationsFromWire | src/dataparser.c:45-108 | for every schedule over datagrams as words, layer, set of conversations and counter, an agent's tables add up to the shares of the first flow samples that its datagrams carry, exactly as many as were handed over |

## Where the code and its comments differ

- src/stcollectd.c:185 says that a pop allocates if no buffer is free. The pop waits until one is
  (src/bufferqueue.c:76-82) and allocates only afterwards, after a time-out.
- src/sflowparser.c:273-291 reads the number of flow records but then reads one record. Two announced
  samples, a flow sample with a sampled header and an extended switch record (tag 1001) and a counter
  sample, lose the counter sample (`DecoderGuarantees.CounterSampleLost`); the parser stays in step exactly
  if every flow sample has one record (`DecoderGuarantees.InStepIff`).
- src/stcollectd.c:284 means to flush when the interval has expired, but the time is taken at
  src/stcollectd.c:264, before the wait for the datagram, so the test is one datagram late
  (`FlushTimes.FlushIff`, `FlushTimes.LateArrivalStays`, `FlushTimes.NextArrivalFlushes`).
- src/stcollectd.c:284-285 means to keep room for ten samples, and the comparison keeps room for eleven
  where the buffer is larger than ten; nothing bounds the samples of a datagram
  (`PipelineGuarantees.BoundedIffRoomForDatagrams`).
- src/samplestore.c:98 stamps a message with the minute before the next segment, which is the sealed
  minute only if no minute was skipped (`HandOff.HandOffStamps`).
- src/storage_mysql.c:581-582 sends a last statement even if no row is left for it
  (`BulkInsert.StatementForm`).

## Left out

- Sockets, shared memory and the POSIX message queue: files are sequences, the queue takes any
  number of messages; `send_msg` drops one when the real queue is full. The processing daemon's
  removal of a file that it has read (src/dataparser.c:27 and 63) is left out.
- `localtime` and `strftime`: a name's stamp is a parameter of fourteen characters, and two minutes
  are assumed to have different stamps (an hour that is repeated at the end of daylight saving time
  has equal ones).
- src/agentlist.c: agents are a map from addresses, and datagrams come from known agents; the
  look-up by address bits, and the dereference of an unknown agent at src/sflowparser.c:397, are not
  part of this model.
- `conv_key_t` comparisons: src/dataparser.c:288 compares the size of the largest key; keys are
  values here, as if the smaller ones were padded with zeros.
- `conv_list_t` is a value in its bucket, with the count and the first node; the nodes themselves are
  linked on the heap.
- Captured headers that end before a field: the 128 stored bytes are zero there, and the tables read
  them as the code does.
- Datagrams longer than the receive buffer and reads behind the received words: the words there are
  arbitrary.
- DatagramParser.Collector.ParseDatagram: requires a known agent and room for what it stores, as the code
  relies on without checking; `PipelineGuarantees.BoundedIffRoomForDatagrams` says when there is room.
- Messaging.MessageQueue.RecvMsg: numbers of more than 64 bits, which the sender never prints, are not
  saturated.
- CounterReports.SecondsIff: where C's `abs` is not defined the model computes 2^31.
- CounterReports.RowMeaning: the loads are left as the integers that they are quotients of, and the
  columns that only copy a counter are not part of a row.
- BulkInsert.StoreCntr: the table name is a parameter of at most 31 characters; creating the table is left out.
- Times are natural numbers; where the code keeps one in 32 bits, so does the model.
- `process_sample_cntr`: the counter list of a file is the sequence of its samples.
- The writing thread's exit, signals, configuration files, logging, statistics, the RRD module,
  table creation, the conversation writers and the export scripts.
