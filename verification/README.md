# TOPAS, modelled and proved in Dafny

TOPAS collects IPFIX flow records. A receiver thread stores every packet, a manager
thread hands packet numbers to detection module processes, the modules decode the packets
and feed statistical tests, flow counters, a dump for offline use, or a pcap file. This
project models those parts and proves what they are for. `dafny verify dfyconfig.toml`
checks everything. Automatic induction is switched off wherever Dafny would apply it; every induction is written out.

## How the model is laid out

**Packet exchange.**
`PacketRing.dfy` holds the shared-memory ring as a value and the invariant that ties its octets to the unread packets;
`RingRuns.dfy` runs it with any number of reading cursors; `IpfixShm.dfy` is the ring as a class over an array.
`FileCounter.dfy` is the wrapping packet number. `Exchange.dfy` is the semaphore protocol of receiver,
manager and modules as atomic steps, `ExchangeProgress.dfy` proves that its rounds end, and `Delivery.dfy` puts packet
files and the ring underneath it. `PacketStore.dfy` is the sequential code of the store, the exporter and a module's
import loop. `RecordQueue.dfy` is the hand-over of records inside a module.

Two behaviours of the code bound what holds there, and both are stated exactly.
`IpfixShm::writePacket` clears the end of the block before it finds out that there is no room; a write that does so
while the writer is already behind the reader destroys unread packets (`PacketRing.Wipes`). Without such writes the
collector's own cursor is first in, first out, and so is every module's that no removal has overtaken; with such a write
the ring loses packets, and it does occur in permitted runs.
`DetectModExporter::notify` publishes the end of the range once per module, so a module that has already left its import
loop is not told of what was published for a later one (`Exchange.Late`). Every module gets every packet exactly once if
and only if no publication is late; with one module none ever is. What a late publication does depends on the exchange:
over packet files the module never opens the files it was not told of, but every file it opens is the right one. Over the
ring its cursor stays behind: it advances once for each packet number, whichever packet lies there, so as many of its next
reads as it misses packets are of packets that have been removed, although no write wiped anything
(`RingExchange.ReadIsDueIff`, `RingExchange.RemovedIsRead`).

**IPFIX decoding.** `TemplateBuffer.dfy` is the linked list of templates, `IpfixMessage.dfy` says what processing a
message means as functions on the received memory, `IpfixParser.dfy` is the parser proved against them, and
`IpfixRoundTrip.dfy` encodes messages as RFC 7011 lays down (sections 3.1, 3.2, 3.4.1, 3.4.3 and 7) and proves that
processing one reports exactly what was encoded. The record loops cannot cut every set: with variable-length fields the
loop stops three octets before the end, so a last record and padding of fewer than four octets together are not reported;
without them the record length is kept in 16 bits, 65535 is taken for a variable one, and with 0 the program does not
return. `IpfixRoundTrip.Cuttable` is that condition: a data set is decoded if and only if it holds, and a message is, set by
set, if and only if it holds for each.

**Statistics.** `RankTest.dfy` is the Wilcoxon-Mann-Whitney test, `ChiSquare.dfy` Pearson's test, `CusumLearning.dfy`,
`CusumTest.dfy`, `CusumSession.dfy` and `CusumEndpoint.dfy` the CUSUM test with its estimates, of a metric, over a session
and as the object the test loop keeps, `SampleWindow.dfy` the two sliding samples,
`Covariance.dfy` the learning phase of the principal component analysis. Floating point numbers are reals, a square root
is a parameter, and unsigned products wrap where the source computes them in `unsigned`. What that does to the rank test
is stated for every input: the rank sums are right if and only if the ranks of no tied value have a sum of 2^32 or more
(`RankTest.RanksFit`), the tie term if and only if no value found in both occurs 1626 times in all (`RankTest.DegreesFit`).
The variance of the rank test is the source's own formula, which differs from the textbook's in its tie term; what is
proved is that it is never negative and when it is zero. Likewise the variance the CUSUM test starts from is not the
sample variance: `CusumLearning.InitialVarianceIff` says by how much and when. Pausing updates during an attack is meant
to keep attack values out of the mean; `CusumSession.TakenAre` says exactly which ones it does.

**Flow counting, dumps, pcap.** `BloomFilter.dfy` and `FlowCount.dfy` count octets, packets and distinct flows;
`DumpText.dfy` and `OfflineStore.dfy` print traffic data and read it back; `Checksum.dfy` and `PcapWriter.dfy` write
packets with their checksums. A UDP or TCP checksum is wrong exactly when both partial sums are zero, because the source
then stores 1.

`Bytes.dfy`, `Containers.dfy` and `RealArithmetic.dfy` hold what the others share.

## Model

| member | source | states |
|---|---|---|
| `PacketRing.WriteGrows` | commonutils/packetstats.cpp:86-138 | a write that does not wipe keeps every unread packet, appends the new one exactly when it reports success, and leaves every cursor the same packets to read |
| `PacketRing.WipeLoses` | commonutils/packetstats.cpp:105-120 | a wiping write fails and the unread packets are no longer in the ring in any layout |
| `PacketRing.WriteIsSafeIff` | commonutils/packetstats.cpp:86-138 | the unread packets survive a write, with the new one behind them if it was accepted, if and only if the write does not wipe |
| `PacketRing.StoredIff` | commonutils/packetstats.cpp:86-138 | in every layout a packet is stored if and only if it fits, short of the end of the block, into octets that are not taken, where the last packet ends or at the start of the block; it is then found there, and the start is used only if the packet would reach the end |
| `PacketRing.TakenAre` | commonutils/packetstats.cpp:115-125 | taken are the packet handed out last, the unread packets and the zeros behind the wrap point, and nothing else |
| `PacketRing.ReadsDue` | commonutils/packetstats.cpp:140-166 | a cursor that is k packets ahead of the ring's own is handed the k-th unread packet, octet for octet, and is then k + 1 ahead: it wraps exactly where the writer did |
| `PacketRing.ProceedDrops` | commonutils/packetstats.cpp:168-171 | passing over one packet removes exactly the oldest unread packet and leaves every other cursor the same packets to read |
| `PacketRing.ChainUnique` | commonutils/packetstats.cpp:127-136 | the octets of the ring determine the packets stored in them |
| `RingRuns.FirstInFirstOut` | commonutils/packetstats.cpp:86-171 | over every run of non-wiping writes, reads and removals, each cursor that was never overtaken was handed exactly the first stored packets in order, the collector's own likewise, and the rest is still in the ring |
| `RingRuns.StoresIff` | commonutils/packetstats.cpp:86-138 | over every run, a packet that does not wipe is stored exactly if there is such room |
| `RingRuns.EmptiedStores` | commonutils/packetstats.cpp:105-125 | once everything stored was removed, no packet wipes, and one is stored if and only if it ends short of the end of the block where the writer stands, or fits below the collector's cursor |
| `RingRuns.NobodyOvertaken` | commonutils/packetstats.cpp:168-171 | a module is overtaken only by a removal that did not wait for its read |
| `RingRuns.ReadInv` | commonutils/packetstats.cpp:140-166 | in every reachable state the read of a module that was not overtaken hands over the next packet it has not seen |
| `RingRuns.RemoveInv` | commonutils/packetstats.cpp:168-171 | in every reachable state the packet removed is the oldest one stored |
| `RingRuns.WipeOccurs` | commonutils/packetstats.cpp:105-120 | eight permitted steps on a block of thirty octets lead to a write that destroys unread packets |
| `IpfixShmStorage.IpfixShm.WritePacket` | commonutils/packetstats.cpp:86-138 | the octets, positions and flag afterwards, and the result, are those of the ring's write, of which `PacketRing.StoredIff` says what it stores and `PacketRing.WriteGrows` what it keeps; without a block nothing changes |
| `IpfixShmStorage.IpfixShm.ReadPacket` | commonutils/packetstats.cpp:140-166 | the cursor moves as the ring's own does, and the result is where the packet starts and its length |
| `IpfixShmStorage.IpfixShm.Attach` | commonutils/packetstats.cpp:173-181 | the ring starts empty at the beginning of the block |
| `FileCounters.FileCounter.PreIncrement` | commonutils/sharedobj.cpp:96-101 | the counter of any packet number becomes that of the next one |
| `FileCounters.FileCounter.PostIncrement` | commonutils/sharedobj.cpp:104-110 | the same, and the caller gets the counter from before |
| `FileCounters.BumpWraps` | commonutils/sharedobj.cpp:96-110 | counting up is counting up modulo MAX_FILES |
| `FileCounters.MinusCountsIff` | commonutils/sharedobj.cpp:148-153 | subtraction of counters gives the number of outstanding packets if and only if fewer than MAX_FILES are outstanding |
| `FileCounters.MinusUndoesPlus` | commonutils/sharedobj.cpp:130-153 | addition and subtraction undo each other |
| `FileCounters.WrapTells` | commonutils/sharedobj.cpp:96-110 | numbers less than MAX_FILES apart are told apart by their counters |
| `Exchange.SafeInEveryRun` | collector/detectmodexporter.cpp:93-156 | in every interleaving with any number of modules: the packet number a module is about to read is of a stored packet not yet removed, no module is at work while packets are removed, clearSink never asks for too many, no number is handed over twice or out of order |
| `Exchange.CountersTell` | commonutils/packetstats.h:178-215 | newest minus oldest is the queue's length, the file name counter equals newest between exports, and clearSink removes exactly the published range |
| `Exchange.NoLostWakeup` | collector/manager.cpp:197-244 | when the manager sleeps and the receiver is not between push and post, the store is empty |
| `Exchange.DeliveredIffOnTime` | collector/modulecontainer.cpp:117-142 | between rounds every module was handed each removed packet once and in order if and only if no range end was published too late |
| `Exchange.LateLoses` | collector/detectmodexporter.cpp:97-98 | publishing a new end after a module of the round has finished means that this module is never handed the number of some packet |
| `Exchange.SoundStep` | collector/detectmodexporter.cpp:93-156 | a module keeps all packets up to the one it is at until a packet is removed whose number it was not handed |
| `Exchange.AtReadSound` | detectionmodules/detectionbase/filepolicy.h:168-168 | at a read a module was handed either every packet before this one, or fewer because the number of a removed one is missing |
| `ExchangeProgress.Progress` | collector/modulecontainer.cpp:117-142 | in every reachable state the manager or a module can go on unless the manager sleeps without a token, and every step of theirs lowers a measure that the receiver does not touch: every round ends |
| `ExchangeProgress.Drains` | collector/manager.cpp:197-244 | without new packets manager and modules alone come to rest with every stored packet removed |
| `ExchangeProgress.RestIsEmpty` | collector/manager.cpp:197-244 | and they come to rest in no other state, in whatever order they step |
| `Exchange.LateOccurs` | collector/detectmodexporter.cpp:93-110 | with two or more modules such a publication is reachable |
| `Exchange.OneModuleOnTime` | collector/modulecontainer.cpp:130-141 | with one module no publication is ever late |
| `Exchange.OneModuleGetsAll` | detectionmodules/detectionbase/filepolicy.h:160-196 | with one module each packet is delivered exactly once, in order, before it is removed |
| `Exchange.StepInv` | detectionmodules/detectionbase/filepolicy.cpp:81-119 | every step of receiver, manager or module, the semaphore's +2, -1, -1 and wait for zero among them, keeps the protocol's invariant |
| `FileExchange.EveryReadFindsItsPacket` | detectionmodules/detectionbase/filepolicy.h:168-187 | over packet files, every read finds its file, and the file holds the right packet, although names are reused |
| `FileExchange.ModulesReadEverything` | detectionmodules/detectionbase/filepolicy.h:160-196 | between rounds every module has read exactly the removed packets if and only if the run was on time |
| `RingExchange.EndToEnd` | commonutils/packetstats.cpp:86-171 | over the shared ring, between rounds each module's cursor was handed exactly the removed packets, octet for octet and in order, if and only if the run was on time |
| `RingExchange.CursorsFollow` | commonutils/packetstats.cpp:140-166 | in every interleaving of any number of modules: a module that misses no removed packet was handed exactly the first stored packets; the others, and only they, were overtaken by a removal |
| `RingExchange.ReadIsDueIff` | detectionmodules/detectionbase/filepolicy.h:188-189 | the cursor is at the packet the protocol means if and only if the module was handed every packet before it, and then reads it; otherwise it lags behind by at least the number of removed packets the module misses, and the first that many reads of a round are of removed packets |
| `RingExchange.RemovedIsRead` | detectionmodules/detectionbase/filepolicy.h:188-189 | two modules and no wiping write reach a state in which a module is about to read a removed packet |
| `RingExchange.ReadsAreDisciplined` | detectionmodules/detectionbase/filepolicy.h:188-194 | in every run a module reads no more packets than were stored |
| `RingExchange.RemovalsAreDisciplined` | collector/detectmodexporter.cpp:153-156 | in every run only stored packets are removed |
| `RingExchange.OneModuleFollows` | collector/modulecontainer.cpp:130-141 | with one module its cursor is handed exactly the first stored packets in every run, between rounds exactly the removed ones |
| `PacketStore.RangeUnwraps` | detectionmodules/detectionbase/filepolicy.h:168-168 | the counters of the import loop stand for the published packet numbers, in order |
| `PacketStore.IpfixFile.WritePacket` | commonutils/packetstats.cpp:30-60 | a stored packet is in the directory under its name and last in the list; a failure changes nothing |
| `PacketStore.IpfixFile.ProceedOnePacket` | commonutils/packetstats.cpp:62-68 | the oldest file and its name are gone, nothing else |
| `PacketStore.IpfixPacketStore.Push` | commonutils/packetstats.h:178-184 | the packet is queued last and newest moves on |
| `PacketStore.IpfixPacketStore.PopOne` | commonutils/packetstats.h:191-198 | the oldest packet leaves the queue and the directory, oldest moves on, and the counters still name the queued files |
| `PacketStore.IpfixPacketStore.Pop` | commonutils/packetstats.h:205-215 | exactly the first count packets leave, or the error is thrown and nothing changes |
| `PacketStore.DetectModExporter.ExportToSink` | collector/detectmodexporter.cpp:58-86 | a packet is stored under the counter's name and queued, or -1 is returned and nothing changes; the name counter stays equal to newest |
| `PacketStore.DetectModExporter.Publish` | collector/detectmodexporter.cpp:97-98 | the shared block names exactly the queued packets: the counters from `from` up to `to` are their file names, oldest first, and `to` minus `from` is how many there are |
| `PacketStore.DetectModExporter.ClearSink` | collector/detectmodexporter.cpp:153-156 | exactly the published files are removed, whatever was pushed since |
| `PacketStore.Import` | detectionmodules/detectionbase/filepolicy.h:160-196 | the wanted packets of the published range are processed, in order |
| `PacketStore.ImportedAll` | detectionmodules/detectionbase/filepolicy.h:168-187 | of a range of fewer than MAX_FILES packets exactly the wanted ones are imported, in the order of export, across the wrap |
| `PacketStore.SelectedAre` | detectionmodules/detectionbase/filepolicy.h:168-187 | the wanted ones are each there as often as exported, the others not at all |
| `RecordQueue.RecordsArriveWhole` | detectionmodules/detectionbase/detectcallbacks.h:49-73 | in every interleaving of parser and test thread the records taken are the first queued ones, complete and in order; the queued ones are the records that arrived, without exactly those that found 4096 waiting, which are counted; an empty list is never popped |
| `RecordQueue.ChosenAre` | detectionmodules/detectionbase/filepolicy.h:220-232 | a record keeps each field exactly as often as it came, if its id is subscribed to or no ids are, and drops the others |
| `RecordQueue.ChosenJoin` | detectionmodules/detectionbase/detectcallbacks.h:58-64 | in the order of the record |
| `RecordQueue.PacketLockCounts` | detectionmodules/detectionbase/filepolicy.h:337-359 | packetLock counts the queued buffers, less the one its taker is committed to |
| `RecordQueue.NobodyStuck` | detectionmodules/detectionbase/detectcallbacks.h:49-73 | in every interleaving a thread inside recordMutex can go on, the parser can come with any record when the test thread is not inside, and the test thread can take one when some wait |
| `Templates.TemplateBuffer.Find` | concentrator/templateBuffer.c:68-76 | the first node with the key, its place and its predecessor, or that there is none |
| `Templates.TemplateBuffer.Unlink` | concentrator/templateBuffer.c:78-82 | exactly that node leaves the list, whose links stay in order |
| `Templates.TemplateBuffer.DestroyBufferedTemplate` | concentrator/templateBuffer.c:66-95 | the map the list stands for loses exactly this key; the callbacks are invoked exactly if it was there (section 8.1 of RFC 7011) |
| `Templates.TemplateBuffer.BufferTemplate` | concentrator/templateBuffer.c:55-61 | the key maps to the new template, every other key to what it did; keys stay unique |
| `Templates.TemplateBuffer.GetBufferedTemplate` | concentrator/templateBuffer.c:35-50 | the node of the key exactly if there is one whose time is not over; an expired template is removed first |
| `Templates.DropRemoves` | concentrator/templateBuffer.c:66-82 | dropping the first entry of a list without duplicates is removing the key from the map |
| `IpfixParsing.ReadFields` | concentrator/rcvIpfix.c:179-196 | the field loop reads the specifiers that follow, stops behind them and sums up the lengths in 16 bits |
| `IpfixParsing.Settle` | concentrator/rcvIpfix.c:197-202 | the template is the announcement of its fields, which `IpfixRoundTrip.AnnouncedAre` spells out |
| `IpfixParsing.WalkRecord` | concentrator/rcvIpfix.c:467-484 | the offsets and lengths written into the template, and the record length, are those of the walk |
| `IpfixParsing.IpfixParser.ProcessTemplateSet` | concentrator/rcvIpfix.c:155-216 | templates and callbacks afterwards are those the set's records give |
| `IpfixParsing.IpfixParser.Install` | concentrator/rcvIpfix.c:204-214 | the template replaces the one with its key, whose destruction is reported first, and is announced |
| `IpfixParsing.IpfixParser.ProcessFixed` | concentrator/rcvIpfix.c:440-457 | the records of a fixed-length data set are reported one after the other, as long as a full one is left |
| `IpfixParsing.IpfixParser.ProcessVariable` | concentrator/rcvIpfix.c:458-494 | the records of a variable-length data set are reported one after the other |
| `IpfixParsing.IpfixParser.ProcessDataSet` | concentrator/rcvIpfix.c:419-495 | what a data set reports, with an unknown or expired template too |
| `IpfixParsing.IpfixParser.ProcessPacket` | concentrator/rcvIpfix.c:650-692 | templates and callbacks after a message are those of the message's meaning; a wrong length is rejected |
| `IpfixRoundTrip.FieldsParse` | concentrator/rcvIpfix.c:179-196 | encoded field specifiers are parsed back, and each offset is the sum of the lengths before it |
| `IpfixRoundTrip.AnnouncedAre` | concentrator/rcvIpfix.c:179-202 | a template announces the fields it specifies, in number, order, id, enterprise number, length and variability; with a variable-length field the record length and every offset are 65535, otherwise each offset is the 16-bit sum of the lengths before it |
| `IpfixRoundTrip.FieldsInForce` | concentrator/rcvIpfix.c:467-484 | whatever records a template in force has been used for, each field still has its id, enterprise number and variability, and a fixed one its length |
| `IpfixRoundTrip.RecordsMean` | concentrator/rcvIpfix.c:155-216 | an encoded template set puts exactly its templates into force, the last announcement wins, withdrawals remove, padding is ignored |
| `IpfixRoundTrip.FixedRowReads` | concentrator/rcvIpfix.c:440-457 | the field slices of a fixed-length record tile it and hold the encoded values |
| `IpfixRoundTrip.WalkReads` | concentrator/rcvIpfix.c:467-484 | the walk over a variable-length record finds every value behind its length, in the one-octet and in the three-octet form, and ends at the record's end |
| `IpfixRoundTrip.LoopInSet` | concentrator/rcvIpfix.c:429-466 | a data set of a template in force is the loop over its records, which ends where the set's length says; a length below that of the header wraps, so that the loop goes on 65536 octets further |
| `IpfixRoundTrip.FixedLoop` | concentrator/rcvIpfix.c:447-457 | the rows of an encoded data set are reported one by one, and the loop goes on behind them |
| `IpfixRoundTrip.VariableLoop` | concentrator/rcvIpfix.c:465-493 | likewise with variable-length fields, whatever lengths earlier records left in the template, if last row and padding take four octets |
| `IpfixRoundTrip.ShortLoop` | concentrator/rcvIpfix.c:465-466 | otherwise the last row is not reported |
| `IpfixRoundTrip.DataSetMeansIff` | concentrator/rcvIpfix.c:419-495 | a data set of any rows and padding is reported exactly, with its template still in force, if and only if it can be cut |
| `IpfixRoundTrip.ZeroLengthLoops` | concentrator/rcvIpfix.c:440-457 | with field lengths that sum to a multiple of 2^16 the program does not return |
| `IpfixRoundTrip.ShortRecordIsLost` | concentrator/rcvIpfix.c:465-466 | a data set with one record of two octets is processed without a trace when less than two octets of padding follow, and the record is reported when two do |
| `IpfixRoundTrip.SetsMean` | concentrator/rcvIpfix.c:666-688 | the sets of a message that can be cut are processed in order, each with the templates in force when it is reached |
| `IpfixRoundTrip.DecodesWhatWasEncoded` | concentrator/rcvIpfix.c:650-692 | processing an encoded message of such sets reports exactly the encoded records, value by value, leaves the exporter's templates in force, and does not depend on what lies behind the message |
| `IpfixRoundTrip.WrongLengthRejected` | concentrator/rcvIpfix.c:650-664 | an encoded message is rejected if and only if more or fewer octets than its own were received |
| `IpfixRoundTrip.DecodesIff` | concentrator/rcvIpfix.c:650-692 | set by set: every message made of the first of given sets is decoded if and only if each of the sets can be cut |
| `IpfixRoundTrip.MadeUpByChance` | concentrator/rcvIpfix.c:465-466 | two sets that cannot be cut may make up for each other, the padding of the second being taken for the record lost in the first |
| `RankTest.Merge` | detectionmodules/statmodules/wkp-module/wmw-test.cpp:354-460 | on sorted samples the loop gives, for every input, the rank sums with mean ranks for ties and the tie term, less what the 32-bit results of the tied groups lose by wrapping |
| `RankTest.TieBranch` | detectionmodules/statmodules/wkp-module/wmw-test.cpp:361-408 | every occurrence of a tied value gets the mean of its ranks |
| `RankTest.TiedRun` | detectionmodules/statmodules/wkp-module/wmw-test.cpp:373-379 | the occurrences of a value in one sample are passed and their ranks added up, modulo 2^32 |
| `RankTest.RestBranch` | detectionmodules/statmodules/wkp-module/wmw-test.cpp:430-456 | the ranks that are left belong to the sample that is left |
| `RankTest.RankSums` | detectionmodules/statmodules/wkp-module/wmw-test.cpp:342-460 | on samples in any order: twice a rank sum is n(n+1) plus twice the pairs won plus the pairs tied if and only if the ranks of no tied value have a sum of 2^32 or more, and the tie term is right if and only if no contribution to it is that large; otherwise both fall short by exactly what wrapping takes |
| `RankTest.SizesSuffice` | detectionmodules/statmodules/wkp-module/wmw-test.cpp:354-460 | the limits hold while the ranks of all observations, or the cube of their number, fit 32 bits |
| `RankTest.RanksSuffice` | detectionmodules/statmodules/wkp-module/wmw-test.cpp:354-480 | for the deviation 65534 observations are few enough |
| `RankTest.DegreesFitIff` | detectionmodules/statmodules/wkp-module/wmw-test.cpp:405-406 | the contributions to the tie term fit 32 bits if and only if no value of both samples occurs 1626 times or more |
| `RankTest.ConstantWraps` | detectionmodules/statmodules/wkp-module/wmw-test.cpp:361-388 | for two samples of one and the same value the sum of the ranks wraps from 92682 observations on |
| `RankTest.DeviationWraps` | detectionmodules/statmodules/wkp-module/wmw-test.cpp:474-483 | 92681 equal values against one more of them: no product of the sizes wraps, but a sum of ranks does, so the deviation is wrong |
| `RankTest.WrapsCancel` | detectionmodules/statmodules/wkp-module/wmw-test.cpp:461-474 | for two constant samples of one size the rank sum and its expectation lose the same, so that the deviation is right however wrong the rank sums are |
| `RankTest.RankSumsTotal` | detectionmodules/statmodules/wkp-module/wmw-test.cpp:354-460 | both rank sums together are the sum of the ranks 1 to n if and only if no sum of tied ranks wraps |
| `RankTest.WmwTest` | detectionmodules/statmodules/wkp-module/wmw-test.cpp:309-492 | twice the deviation is the excess of won over lost pairs, less what tied groups lose, plus what the expectation loses; while the expectation does not wrap it is right if and only if no sum of tied ranks does, and while the two products of the sizes do not, the number under the root is that of the formula if and only if no tie degree is too large |
| `RankTest.DeviationLaws` | detectionmodules/statmodules/wkp-module/wmw-test.cpp:474-483 | swapping the samples negates the deviation; it lies within n1 n2 / 2 of zero and reaches the bound exactly for samples that are completely separated |
| `RankTest.TieTermBounded` | detectionmodules/statmodules/wkp-module/wmw-test.cpp:405-406 | the tie term is at most n^3 - n |
| `RankTest.RadicandNonNegative` | detectionmodules/statmodules/wkp-module/wmw-test.cpp:492-492 | the number under the root is never negative, and zero only for two samples of one and the same value |
| `ChiSquare.NextCategory` | detectionmodules/statmodules/wkp-module/pcs-test.cpp:234-256 | the inner loop ends, and no earlier value makes both expectations at least 5 |
| `ChiSquare.OneCategory` | detectionmodules/statmodules/wkp-module/pcs-test.cpp:232-273 | the category it closes counts the values of an interval, is not empty, and ends at the first value that makes both expectations 5 or uses up a sample |
| `ChiSquare.EnoughIff` | detectionmodules/statmodules/wkp-module/pcs-test.cpp:234-256 | a category is closed once neither product of its size with a sample size, kept in 32 bits, is less than five times the number of values |
| `ChiSquare.PcsCategories` | detectionmodules/statmodules/wkp-module/pcs-test.cpp:207-280 | the categories count consecutive disjoint intervals, none is empty, all but the last have both expectations at least 5 and none would without its largest value, and the sizes sum to the sample sizes |
| `ChiSquare.CategoriesUnique` | detectionmodules/statmodules/wkp-module/pcs-test.cpp:207-280 | the samples determine their categories: two cuts with these properties have the same counts |
| `ChiSquare.Share` | detectionmodules/statmodules/wkp-module/pcs-test.cpp:321-331 | the expectations sum to the category's size, and the deviations are opposite, if and only if neither product wraps; then for a category that is not empty both expectations are positive and the summand is (a l2 - b l1)^2 / (l1 l2 (a + b)); a category in proportion adds nothing if and only if neither wraps, no expectation being zero |
| `ChiSquare.RightByChance` | detectionmodules/statmodules/wkp-module/pcs-test.cpp:321-331 | of other categories a wrapped product may leave the summand right |
| `ChiSquare.StatisticRange` | detectionmodules/statmodules/wkp-module/pcs-test.cpp:307-331 | the statistic is between 0 and n, and 0 exactly when the samples are in proportion in every category |
| `ChiSquare.PcsTest` | detectionmodules/statmodules/wkp-module/pcs-test.cpp:307-337 | the statistic is that of the samples' own categories, between 0 and n, and 0 exactly for proportional samples, unless an expectation's product wraps; for samples in proportion it is 0 if and only if none does, no expectation being zero |
| `ChiSquare.SizesFit` | detectionmodules/statmodules/wkp-module/pcs-test.cpp:321-322 | which takes more than 65535 observations |
| `SampleWindow.Params.WkpUpdate` | detectionmodules/statmodules/wkp-module/stat-main.cpp:1546-1643 | the samples shift as the window's update says, paused by the configured combination of last alarms |
| `SampleWindow.PausesIff` | detectionmodules/statmodules/wkp-module/stat-main.cpp:1604-1612 | mode 1 pauses when one of the three tests raised an alarm for some metric, mode 2 when all three did, no other mode ever |
| `SampleWindow.Params.constructor` | detectionmodules/statmodules/wkp-module/stat-main.cpp:1000-1034 | a new endpoint starts with its first observation in sample_old |
| `SampleWindow.SamplesAre` | detectionmodules/statmodules/wkp-module/stat-main.cpp:1546-1643 | over every run sample_new is the most recent observations and sample_old the most recent of those kept, an observation being kept unless the update at which its turn came was paused |
| `SampleWindow.NeverPaused` | detectionmodules/statmodules/wkp-module/stat-main.cpp:1627-1632 | without pauses both samples together are exactly the most recent observations in order of arrival |
| `SampleWindow.OldInOrder` | detectionmodules/statmodules/wkp-module/stat-main.cpp:1604-1632 | with pauses sample_old is an in-order subsequence of what came before sample_new |
| `CusumLearning.ReadyIff` | detectionmodules/statmodules/wkp-module/stat-main.cpp:1654-1695 | the estimates are ready exactly when more values than the learning phase takes have come |
| `CusumLearning.NarrowWraps` | detectionmodules/statmodules/wkp-module/stat-main.cpp:1678-1682 | a value kept for the next test is the one int that differs from it by a multiple of 2^32 |
| `CusumLearning.InitialMean` | detectionmodules/statmodules/wkp-module/stat-main.cpp:1656-1682 | the learning phase ends with the mean of its values, and the value that ends it waits for the next update |
| `CusumLearning.InitialVarianceIs` | detectionmodules/statmodules/wkp-module/stat-main.cpp:1678-1682 | the initial variance is the sample variance plus mean^2 (phase + 1) / phase |
| `CusumLearning.InitialVarianceIff` | detectionmodules/statmodules/wkp-module/stat-main.cpp:1678-1682 | it is never too small, and is the sample variance if and only if the values sum to zero |
| `CusumLearning.VarianceNonNegative` | detectionmodules/statmodules/wkp-module/stat-main.cpp:1722-1752 | whatever is paused, the variance stays non-negative, so that its root exists |
| `CusumLearning.MeanIsWeighted` | detectionmodules/statmodules/wkp-module/stat-main.cpp:1726-1744 | the mean is the initial one and the values used since, one update late, weighted exponentially by age |
| `CusumLearning.VarianceIsWeighted` | detectionmodules/statmodules/wkp-module/stat-main.cpp:1726-1744 | the variance, or its logarithm if that is smoothed, is the initial one and the squared distances of the values used from the means that had taken them in, weighted exponentially by age |
| `CusumLearning.MeanInRange` | detectionmodules/statmodules/wkp-module/stat-main.cpp:1726-1744 | the mean never leaves the range of the values |
| `CusumTest.Params.LearnFirst` | detectionmodules/statmodules/wkp-module/stat-main.cpp:1042-1049 | a new endpoint has learned its first value |
| `CusumTest.Params.LearnNext` | detectionmodules/statmodules/wkp-module/stat-main.cpp:1654-1695 | every metric adds its value and its square, or turns its sums into estimates |
| `CusumTest.Params.SmoothMetrics` | detectionmodules/statmodules/wkp-module/stat-main.cpp:1722-1752 | every metric, or every one without an alarm, is smoothed with its value before |
| `CusumTest.Params.CusumUpdate` | detectionmodules/statmodules/wkp-module/stat-main.cpp:1647-1753 | every metric makes exactly its own step, paused as pause_update_when_attack says |
| `CusumTest.LargestSuffix` | detectionmodules/statmodules/wkp-module/cusum-test.cpp:4-13 | the statistic is the largest sum of X - beta over any number of the last values since the reset, none included |
| `CusumTest.AlarmsCounted` | detectionmodules/statmodules/wkp-module/stat-main.cpp:1922-1946 | the counter counts the rising edges of "some suffix sum exceeds N", or every such run when repeated alarms are wanted |
| `CusumTest.HotWhenAbove` | detectionmodules/statmodules/wkp-module/stat-main.cpp:1922-1994 | the stored flag says whether some suffix sum exceeded the threshold |
| `CusumTest.FewerAlarms` | detectionmodules/statmodules/wkp-module/stat-main.cpp:1924-1927 | reporting first attacks only changes neither the statistic nor reports more |
| `CusumTest.Params.Test` | detectionmodules/statmodules/wkp-module/stat-main.cpp:1881-1998 | every metric of the endpoint makes exactly its own step, and the update flag is consumed; `CusumEndpoint.Endpoint.Decides` says what comes of it in means and deviations |
| `CusumTest.Params.TestMetric` | detectionmodules/statmodules/wkp-module/stat-main.cpp:1909-1947 | with `half` for half of amplitude_percentage deviations: the statistic grows exactly if the value exceeds the mean by more than half, otherwise it falls by what is missing but not below zero; there is an attack exactly if it is above repetition_factor times half; without a new value it is reset |
| `CusumSession.SessionIs` | detectionmodules/statmodules/wkp-module/stat-main.cpp:949-1222 | over intervals that are empty, bring data of other endpoints only, or data of this one, and with tests at any frequency, estimates and statistic of every metric are those of its values and of its test runs |
| `CusumSession.StatisticIs` | detectionmodules/statmodules/wkp-module/stat-main.cpp:1909-1994 | in every such run the statistic is the largest suffix sum since the last silent test, with the beta of each test |
| `CusumSession.ExcessDecides` | detectionmodules/statmodules/wkp-module/stat-main.cpp:1909-1994 | in every session the statistic is the largest excess of the last tested values over their means and half of amplitude_percentage deviations each, and an alarm is flagged if and only if such an excess is above repetition_factor times the last half |
| `CusumSession.GrowsIff` | detectionmodules/statmodules/wkp-module/stat-main.cpp:1909-1922 | a tested value makes the statistic grow if and only if it exceeds the mean by more than half of amplitude_percentage deviations |
| `CusumSession.SteadyIsQuiet` | detectionmodules/statmodules/wkp-module/stat-main.cpp:1909-1946 | values that never do leave it at zero and raise no alarm |
| `CusumEndpoint.Endpoint.Interval` | detectionmodules/statmodules/wkp-module/stat-main.cpp:949-1222 | one call of the test loop, on an endpoint that is new, has data or has none: estimates, statistic, flags and update flag of every metric stay those of the session so far |
| `CusumEndpoint.Endpoint.Decides` | detectionmodules/statmodules/wkp-module/stat-main.cpp:1909-1994 | so after any calls the stored statistic and flag of every metric are decided by its tested values, their means and deviations |
| `CusumSession.AlarmedLast` | detectionmodules/statmodules/wkp-module/stat-main.cpp:1984-1997 | with a test in every interval that is not empty a flag says that the last such interval brought values and raised an alarm: one in which only other endpoints have data clears it |
| `CusumSession.TakenAre` | detectionmodules/statmodules/wkp-module/stat-main.cpp:1690-1752 | in each pause mode the mean takes in every value but those with alarms, of any metric, of all or of its own, in the last interval before the next value that was not empty |
| `CusumSession.SilenceLetsIn` | detectionmodules/statmodules/wkp-module/stat-main.cpp:949-954 | a value that is held back stays out of the mean if the next interval has data, or is empty and the one behind it has, and gets in if only other endpoints have data in between |
| `CusumSession.EmptyKeeps` | detectionmodules/statmodules/wkp-module/stat-main.cpp:949-954 | an interval in which no endpoint has data leaves what is held back as it was |
| `CusumSession.AlarmOccurs` | detectionmodules/statmodules/wkp-module/stat-main.cpp:1909-1946 | such a value can occur |
| `CusumSession.MeanIs` | detectionmodules/statmodules/wkp-module/stat-main.cpp:1690-1752 | the mean of a run in closed form |
| `Covariance.OnePassIsTwoPass` | detectionmodules/statmodules/wkp-module/stat-main.cpp:2132-2140 | the one-pass formula on the sums is the centred two-pass covariance |
| `Covariance.CovarianceMatrix` | detectionmodules/statmodules/wkp-module/stat-main.cpp:1441-1448 | the matrix is symmetric, its diagonal not negative, and no squared entry exceeds the product of its diagonal entries |
| `Covariance.DeviationIsRoot` | detectionmodules/statmodules/wkp-module/stat-main.cpp:2142-2152 | the absolute value changes nothing: the square of the deviation is the variance |
| `Covariance.CorrelationRange` | detectionmodules/statmodules/wkp-module/stat-main.cpp:1451-1471 | correlations of metrics with non-zero deviations are between -1 and 1 |
| `Covariance.Params.Learn` | detectionmodules/statmodules/wkp-module/stat-main.cpp:1424-1438 | after each observation the sums are those of all observations, in both triangles |
| `Covariance.Signed64Wraps` | detectionmodules/statmodules/wkp-module/stat-main.cpp:1424-1438 | a product of observations is the one int64_t that differs from it by a multiple of 2^64 |
| `Covariance.Params.FillCovariance` | detectionmodules/statmodules/wkp-module/stat-main.cpp:1443-1448 | every entry is the two-pass covariance of its metrics |
| `Covariance.Params.ExtractPcaData` | detectionmodules/statmodules/wkp-module/stat-main.cpp:1418-1494 | the learning phase adds up exactly pca_learning_phase observations; the next call leaves the covariance matrix, or a symmetric correlation matrix with ones on its diagonal and entries in [-1, 1], each of which times both deviations is the covariance |
| `BloomFilters.SetsOneBit` | detectionmodules/countmodule/bloomfilter.cpp:21-31 | setting a bit through the mask table sets that bit of the octet and no other |
| `BloomFilters.Hashing.BitsAre` | detectionmodules/countmodule/bloomfilter.cpp:128-133 | the bits of a key are the hashes for the seeds, reduced to the size of the filter, no others |
| `BloomFilters.Bitmap.Set` | detectionmodules/countmodule/bloomfilter.cpp:47-51 | exactly the index is added, an index out of range is ignored |
| `BloomFilters.Bitmap.Test` | detectionmodules/countmodule/bloomfilter.cpp:53-59 | whether the index was set, false out of range |
| `BloomFilters.Bitmap.Clear` | detectionmodules/countmodule/bloomfilter.cpp:42-45 | no bit is left |
| `BloomFilters.BloomFilter.Insert` | detectionmodules/countmodule/bloomfilter.cpp:128-133 | exactly the key's bits are added |
| `BloomFilters.BloomFilter.Test` | detectionmodules/countmodule/bloomfilter.cpp:135-142 | true exactly if all of the key's bits are set |
| `BloomFilters.BloomFilter.TestBeforeInsert` | detectionmodules/countmodule/bloomfilter.cpp:144-155 | answers what Test would have answered on the old filter and leaves what Insert would have left, also when hash functions of the key collide |
| `BloomFilters.NoFalseNegatives` | detectionmodules/countmodule/bloomfilter.cpp:123-155 | over every run, a key inserted since the last clear tests true, and every set bit belongs to such a key |
| `BloomFilters.FalsePositives` | detectionmodules/countmodule/bloomfilter.cpp:135-142 | a key tests true if and only if each of its bits belongs to an inserted key |
| `FlowCount.EntriesAre` | detectionmodules/countmodule/countstore.cpp:118-274 | every table entry has the octet and packet totals of its records modulo 2^64, and its flow count plus the undetected filter collisions is the number of different 5-tuples |
| `FlowCount.KeyIff` | detectionmodules/countmodule/countstore.cpp:118-192 | records meet in a table exactly if they agree in the address, or in the protocol and the port, it is kept for |
| `FlowCount.DataTells` | detectionmodules/countmodule/bloomfilter.h:74-108 | the filter's key tells any two 5-tuples apart |
| `FlowCount.FlowCountIs` | detectionmodules/countmodule/countstore.cpp:118-192 | the flow count is at least 1, never more than the different 5-tuples, and exact when the filter had no false positive |
| `FlowCount.SeenIsKnown` | detectionmodules/countmodule/countstore.cpp:122-151 | a 5-tuple that came before is never taken for new |
| `FlowCount.CountStore.IsNew` | detectionmodules/countmodule/countstore.cpp:122-151 | the filter's answer, overruled by any kept table that lacks its key |
| `FlowCount.CountStore.RecordEnd` | detectionmodules/countmodule/countstore.cpp:118-192 | filter and tables stay exactly those of the records so far |
| `DumpText.DigitsOfDecimal` | detectionmodules/statmodules/wkp-module/shared.cpp:133-133 | a printed number is read back, whatever follows it |
| `DumpText.IpRoundTrip` | detectionmodules/detectionbase/ipaddress.cpp:34-57 | printing and parsing an address gives it back |
| `DumpText.EndPointRoundTrip` | detectionmodules/statmodules/wkp-module/shared.cpp:43-63 | an endpoint is parsed back from the text up to the underscore |
| `DumpText.LineRoundTrip` | detectionmodules/statmodules/wkp-module/stat-store.cpp:291-298 | a dumped line gives its endpoint and its six counters back |
| `DumpText.ParsedFits` | detectionmodules/statmodules/wkp-module/stat-store.cpp:294-298 | whatever the text, counters that are read fit 64 bits |
| `DumpText.LineLooks` | detectionmodules/statmodules/wkp-module/shared.cpp:130-137 | the order and the separators of a line, on an example |
| `OfflineStore.MaskGrows` | detectionmodules/detectionbase/ipaddress.cpp:122-156 | each netmask of the table has one more leading bit than the one before |
| `OfflineStore.MaskedTwice` | detectionmodules/detectionbase/ipaddress.cpp:119-169 | masking an address again changes nothing |
| `OfflineStore.MaskedWord` | detectionmodules/detectionbase/ipaddress.cpp:119-169 | masking octet by octet is masking the 32-bit address with the table's entry |
| `OfflineStore.AggregateTwice` | detectionmodules/statmodules/wkp-module/stat-store.cpp:300-308 | aggregating an endpoint again changes nothing |
| `OfflineStore.AggregateIff` | detectionmodules/statmodules/wkp-module/stat-store.cpp:300-308 | two endpoints are counted as one exactly if they agree in what the endpoint key names, the address under the netmask; the rest is zero |
| `OfflineStore.MatchesIff` | detectionmodules/statmodules/wkp-module/shared.cpp:106-120 | a filter lets an endpoint through exactly if each of its parts is a wildcard or agrees, the address in the filter's network |
| `OfflineStore.WantedMore` | detectionmodules/statmodules/wkp-module/stat-store.cpp:359-371 | one more filter lets its endpoints in and keeps none out; without filters only a store for every endpoint monitors any |
| `OfflineStore.TotalsAre` | detectionmodules/statmodules/wkp-module/stat-store.cpp:177-264 | after any records of an interval an endpoint is in the data if and only if it is of interest, some record names it and it is among the first that the list has room for; its counters are then, modulo 2^64, the packets, octets and records of those with this source, outgoing, and of those with this destination, incoming |
| `OfflineStore.NoneMissed` | detectionmodules/statmodules/wkp-module/stat-store.cpp:208-220 | while the list has room for all endpoints of interest, each one that a record names is in the data |
| `OfflineStore.CollectKnows` | detectionmodules/statmodules/wkp-module/stat-store.cpp:206-220 | the endpoint list is the known endpoints and the new ones in order of appearance, cut off at its maximal size |
| `OfflineStore.RecordInv` | detectionmodules/statmodules/wkp-module/stat-store.cpp:177-264 | a record keeps the endpoint list free of duplicates and within its bound, and the data within the list |
| `OfflineStore.ReadDump` | detectionmodules/statmodules/wkp-module/stat-store.cpp:267-352 | reading a dump loads its entries one by one and stops behind its separator |
| `OfflineStore.ReadTruncated` | detectionmodules/statmodules/wkp-module/stat-store.cpp:280-287 | a file that ends inside a line gives the entries before it, the line itself is dropped |
| `OfflineStore.DashesEnd` | detectionmodules/statmodules/wkp-module/stat-store.cpp:280-283 | any line that starts with three dashes ends an interval |
| `OfflineStore.Reloaded` | detectionmodules/statmodules/wkp-module/stat-store.cpp:310-345 | entries of distinct endpoints that the writer knew are loaded unchanged: the reader's list always has room |
| `OfflineStore.DumpAndReload` | detectionmodules/statmodules/wkp-module/stat-main.cpp:943-947 | with the same keys, netmask, filters and list size, reading the file of a session gives the data of every interval again, in order |
| `OfflineStore.StatStore.Handle` | detectionmodules/statmodules/wkp-module/stat-store.cpp:186-221 | data and endpoint list change as the store's addition says, in each of the branches; `OfflineStore.TotalsAre` says what that adds up to |
| `OfflineStore.StatStore.EndRecord` | detectionmodules/statmodules/wkp-module/stat-store.cpp:177-264 | the source endpoint gets outgoing, the destination endpoint incoming traffic |
| `OfflineStore.StatStore.Read` | detectionmodules/statmodules/wkp-module/stat-store.cpp:267-352 | the data, the rest of the file and the stream's state after reading one interval |
| `OfflineStore.StatStore.MonitorEndPoint` | detectionmodules/statmodules/wkp-module/stat-store.cpp:359-371 | whether some filter matches |
| `Checksum.FoldIs` | detectionmodules/snortmodule/pcapwriter.cpp:49-51 | folding ends, and is reduction modulo 2^16 - 1 to a number that is zero only for zero (section 4.1 of RFC 1071) |
| `Checksum.InChecksum` | detectionmodules/snortmodule/pcapwriter.cpp:34-54 | the complement of the folded sum of the words, an odd octet padded |
| `Checksum.OddPadded` | detectionmodules/snortmodule/pcapwriter.cpp:44-47 | an odd octet at the end counts as the high octet of a word |
| `Checksum.FilledInChecks` | detectionmodules/snortmodule/pcapwriter.cpp:235-238 | a header whose checksum was filled in checks to zero |
| `Checksum.CombinedChecks` | detectionmodules/snortmodule/pcapwriter.cpp:263-269 | a pseudo header and a header with the combined checksum check to zero if and only if u was not zero |
| `PcapWriting.IpHeaderChecks` | detectionmodules/snortmodule/pcapwriter.cpp:235-240 | the IP header written checks to zero |
| `PcapWriting.UdpHeaderChecks` | detectionmodules/snortmodule/pcapwriter.cpp:247-273 | a UDP header written checks to zero with its pseudo header and the padding, exactly when u was not zero |
| `PcapWriting.TcpHeaderChecks` | detectionmodules/snortmodule/pcapwriter.cpp:273-300 | likewise for a TCP header |
| `PcapWriting.UncheckedUdp` | detectionmodules/snortmodule/pcapwriter.cpp:263-269 | there are packets for which u is zero |
| `PcapWriting.PcapWriter.Measure` | detectionmodules/snortmodule/pcapwriter.cpp:174-202 | the length comes from the length field, the section or the headers to be assembled |
| `PcapWriting.PcapWriter.WriteTransport` | detectionmodules/snortmodule/pcapwriter.cpp:246-300 | the assembled transport header is appended, or nothing if it does not fit the length |
| `PcapWriting.PcapWriter.Pad` | detectionmodules/snortmodule/pcapwriter.cpp:361-371 | exactly the missing octets are appended, in portions of the buffer, as zeros |
| `PcapWriting.PcapWriter.WritePacket` | detectionmodules/snortmodule/pcapwriter.cpp:162-380 | one record is appended: its header, the Ethernet header and the IP packet, cut off or filled up to its length, as the lemmas on frames below take it apart |
| `PcapWriting.FramingExact` | detectionmodules/snortmodule/pcapwriter.cpp:205-222 | a record holds as many octets as incl_len says if and only if the header section is given or the packet is at least 20 octets long |
| `PcapWriting.FileIsReadable` | detectionmodules/snortmodule/pcapwriter.cpp:215-371 | the records of any sequence of such packets can be taken apart again, frame by frame |
| `PcapWriting.FrameIsIp` | detectionmodules/snortmodule/pcapwriter.cpp:215-219 | every such frame is 14 octets and the packet's length long, and has type 0x0800 at octet 12 |
| `PcapWriting.FrameShowsSection` | detectionmodules/snortmodule/pcapwriter.cpp:349-359 | a header section is found at octet 14 as it was collected, up to the packet's length, with zeros behind |
| `PcapWriting.FrameShowsIp` | detectionmodules/snortmodule/pcappacket.h:79-91 | otherwise a reader who takes the IP fields from their places (length at 2, protocol at 9, checksum at 10, addresses at 12) gets those of the packet, with the length of the frame; a checksum that was to be filled in checks |
| `PcapWriting.FrameShowsPayload` | detectionmodules/snortmodule/pcapwriter.cpp:341-347 | and finds a payload section at octet 34 |
| `PcapWriting.FrameShowsUdp` | detectionmodules/snortmodule/pcapwriter.cpp:246-273 | or there the UDP header, with its ports at 0, its length at 4 and its checksum at 6, zeros behind, and a filled-in checksum that checks exactly when u was not zero |
| `PcapWriting.FrameShowsTcp` | detectionmodules/snortmodule/pcapwriter.cpp:276-300 | or the TCP header, with its checksum at 16 |
| `PcapWriting.PseudoParses` | detectionmodules/snortmodule/pcapwriter.cpp:252-258 | the pseudo header has the addresses, a zero, the protocol and the length, in this order |
| `PcapWriting.GuessedExact` | detectionmodules/snortmodule/pcapwriter.cpp:179-202 | a length that is not given is guessed as exactly what is assembled, except for a packet known to be both TCP and UDP, which gets twelve zeros |

## Left out

- Sockets, processes, signals, real files, shared-memory allocation, XML configuration, IDMEF and xmlBlaster messages, metering, logging and report text: only their effect on the modelled state is kept.
- Modules that are killed for slowness, crash, are restarted or are removed: every module stays in state Running, so a semaphore or cursor never restarts out of step.
- The exchange with 100000 or more outstanding packets: `Exchange` stores a packet only below MAX_FILES outstanding; `FileCounters.MinusCountsIff` shows that the counters tell nothing beyond it.
- A wiping write inside the whole exchange: `RingExchange` runs the ring under the condition that no write wipes, which `PacketRing.WriteIsSafeIff` shows to be exactly the condition under which unread packets survive.
- RingExchange.ReadIsDueIff: counts reads and removals for a cursor that lags behind; which octets it is then pointed at depends on what was written there since, and is not stated.
- Each ring call is one atomic step, as is each step of the protocol; tearing within a call is not modelled.
- `Publish`, `ClearSink`, `Import`: their contracts speak of one thread; the interleavings are those of `Exchange`.
- Options Template Sets, Data Template Sets, their data records and NetFlow v9: only Template Sets and their Data Sets are processed, other sets end in the outcome OutOfScope or are skipped as in the source. The record loops of those sets invert a test and omit a byte-order conversion.
- Freeing memory, the destruction of a whole template buffer and allocation failure.
- Distribution functions, eigenvectors, the random generator and the Kolmogorov-Smirnov test, whose implementation is not part of this model.
- Rounding of floats and doubles; a division by zero, which happens only after an unsigned product wrapped or for a metric that never varies, gives 0 in the model.
- RankTest.WmwTest: the number under the root is stated while the two products of the sizes in it fit 32 bits; the p-value is not modelled.
- ChiSquare.PcsTest: for samples that are not in proportion the statistic is stated while a sample size times a category's size fits 32 bits; beyond, summands may be wrong or, as `ChiSquare.RightByChance` shows, right. The categories and their sums are stated without that limit, with the wrapping expectation.
- Covariance.OnePassIsTwoPass: assumes that no product of two observations overflows an int64_t; the model wraps such a product as the source does.
- CusumLearning.InitialVarianceIs: assumes that no square of a value overflows an int64_t and a phase of at least two values; with one the source divides by zero.
- CusumSession.TakenAre: for a test in every interval that has data, which is the default. `exp` and `log` of the logarithmic smoothing are parameters.
- The branches of the flow tables for a full map, the field extraction of records and the sharing of one filter by several stores.
- OfflineStore.StatStore.Read: a line that no dump contains, such as an address without four octets, ends in `ok` false, where the source reads or writes out of bounds; the choice of the most frequent endpoints as filters is left out.
- The pcap file header, SCTP's CRC, the dummy packet, the packet's own fields that the writer fills in, and the payload of a packet whose length field is below 20 octets, where the source's size turns negative.
