# aMule core, modelled and proved in Dafny

This project models the stateful core of aMule 3.0.1: the objects whose methods must keep several
tables, counters and files in step while packets, clocks and other threads interfere. Each module
states what such an object is for, writes its operations down with the branches, constants and edge
cases of the C++ code, and proves what holds after every operation and over every run.

`dafny verify dfyconfig.toml` checks everything. Nothing here is meant to be executed.

## Modules

| file | what it is about | main results |
|---|---|---|
| `Bytes`, `Options` | little-endian integers in bytes, an optional value | reading back gives the value reduced to its width |
| `FileModel`, `BufferedFile` | `CFile`, a 64 KB write buffer over a descriptor that may move fewer bytes than asked or fail | `RunsAgree`, `EachByteOnce`, `FaultyRuns`, `WrittenIsRead`; every method of `CFile` takes the step of the model |
| `CorruptionRecords`, `CorruptionBlackBox`, `CorruptionCharge` | who sent which bytes of a part, split, merged and trimmed as parts are verified, and what a corrupt range costs | `Conservation`, `VerifyExactly`, `BannedExactly`, `ChargedOnce` |
| `BandwidthThrottler` | the shared download budget, as interleaved loads, stores, compare-and-swaps and additions of any number of threads | `GrantsBounded`, `RateCap`, `RateCapReached`, `StoreRaises` |
| `ResponseCache` | the cache of serialized responses, its lock released while a response is rebuilt | `ResultsServe`, `SecondCallHits`, `FreshThroughout` |
| `Multimaps`, `ClientRegistry` | the three indexes of `CClientList` while the clients' own keys change | the invariant of `ClientList.Valid` in every method, `DeleteAll`, `FindMatchingClient` |
| `KadBuddy` | the Kad sources of `CClientList` and the one buddy among them | `Process`, for every order of visits and all deletions on the way |
| `SourceModel`, `SourceBook` | which client is asked for which file, which other files it could be asked for, and the part frequencies and counts kept along the way | the invariant of `SourceQueue.Valid` in every operation, `SwapToAnotherFile`, `ProcessFileStatus`, `StatusRoundTrip` |
| `BlockWire`, `BlockPipeline`, `BlockSwarm`, `BlockArrival` | the block requests of a download, in lists and on the wire, of one client and of all that download a file | `BlockSwarm.Run`, `NothingTwice`, `PlainPieces`, `PackedPieces`, `SendBlockRequests`, `ProcessBlockPacket`, `WireExact` |
| `UdpRotation` | asking the UDP servers for sources | `SendNextUDPPacket`, `ServedExactly`, `TwoServers`, `LeftOver` |
| `IdentModel`, `IdentRun`, `IdentHandshake`, `SecureIdent`, `ScoreRatio` | the secure identification: credit records, connections, and any number of clients with an adversary between them | `IdentifiedOnlyBySignature`, `Handshake`, `EvidenceExact`, `SignedAfterChallenge`, `LatestProofDecides`, `VerifiedKeyIsForever` |
| `CreditsFile` | `clients.met`, written through the buffered file of `BufferedFile` and read back | `RoundTrip`, `SaveAndLoad`, `SaveList`, `LoadList` |
| `DeadSources` | the expiring list of useless sources and its equality | `DeadOnlyIfAdded`, `DeadUntilExpiry`, `ForgottenUnlessAlike` |
| `ExpiringLists` | bans and request windows that are pruned on the way | `PruningUnobservable`, `TrimmingUnobservable` |
| `BitVectors` | the packed bit vector and its cached answer | refinement of a sequence of booleans by every method, `AllTrueExact` |

Most modules have the same shape. A datatype holds the state as a value, functions say what an operation
makes of it, lemmas prove what holds over all runs of those functions, and a class with the fields of the
original proves each of its methods to do what the function says. The clock is a natural number that is
passed in. An operation that can be interrupted by others (the throttler, the cache, the secure
identification) is a step relation, and its theorems are about every sequence of steps.

## What the proofs found

Where a property that one would expect does not hold, the code is modelled as it is, an input or a run
shows the failure, and the condition under which the property holds is proved.

- A failed drain of the write buffer forgets how much it had written. A retry repeats those bytes; the file
  reads as before if and only if nothing had been written (`FileModel.FailedDrainRepeats`), and over a whole run
  exactly the accepted bytes are handed over if and only if no failed drain or direct write had written any
  (`FileModel.FaultyRuns`).
- A read that goes past the end of the file delivers the last chunk of bytes but does not count it; this is
  exactly when the returned count is short (`BufferedFile.CFile.DoRead`).
- The header of the throttler (`DownloadBandwidthThrottler.h:44-47`) says that what is left of a tick's budget
  is discarded. The code carries it over, up to two budgets (`BandwidthThrottler.RefillAtOnce`), so that this holds
  if and only if nothing was left or there is no budget (`LeftoverDiscarded`). n ticks grant at most n budgets and
  one banked before (`RateCap`), and for every n some run grants just that (`RateCapReached`).
- A refill is a load and a store. It brings back bytes that were handed out between them if and only if the balance
  it overwrites is below both the value it loaded and its budget, by exactly the difference (`StoreRaises`);
  `WindowExample` is a run in which it does.
- A fresh cache entry is lost to its readers exactly by a pruning that leaves its file out or by a late installer of
  an older generation (`ResponseCache.FreshLost`, `FreshThroughout`). The second happens: the stamp drops though the
  blob is the same, and the next call builds it again (`LateInstallRebuilds`).
- In a legacy request packet with 4-byte offsets a block that ends at 0xFFFFFFFF is written with an end of 0 and
  skipped by the uploader (`BlockWire.WireExact`).
- A data packet that goes past the end of its block, or does not unzip, gives the block back to the file but leaves it
  pending. A client's pending blocks, once on the file's list, stay there through a packet if and only if that does not
  happen (`BlockPipeline.Downloader.ProcessBlockPacket`). Depths, flags and that no request is sent twice do not depend
  on it (`BlockSwarm.Run`); that no two clients fetch the same bytes does (`NothingTwice`). What a client gives back
  later are all the requests that cover its ranges, and another keeps its own if and only if none of them does
  (`BlockPipeline.SparesOthers`); `BlockSwarm.AnothersRequestLost` is a run in which it loses one.
- A UDP server's turn can be cut short, by its 35th file or by becoming the connected server, and the queue of files
  goes on from there. The next server is asked nothing if and only if no file left in that queue is eligible for it
  (`UdpRotation.UdpQueue.Step`), and about everything if and only if all that is for it is left there (`ServedExactly`).
  `UdpRotation.TwoServers` is a run in which the second of two servers is never asked about any of 35 files, and
  `LeftOver` one in which it is asked only about the few more than 35. With fewer than 35 files no turn ends that way
  (`Counted`).
- A version 2 signature is also a version 1 signature about a key five bytes longer, for a challenge whose high byte is
  the kind and for no other (`IdentModel.VersionsConfused`). `IdentRun.IdentifiedWithoutStatement` is a run in which a
  user is identified although nothing was ever signed about our key. It takes keys of two lengths: statements are
  unambiguous if and only if keys have one length (`IdentModel.MessageInjective`), and where all own keys and all keys
  taken have one, an identified user did sign our key and challenge (`IdentRun.EvidenceExact`).
- The equality of dead sources is not transitive, and an equal source takes the place of the first. A source stays
  listed for its time if only sources with the same ports are equal to it (`DeadSources.DeadUntilExpiry`); after one
  that differs in a port, some third makes the list forget it (`DeadSources.ForgottenUnlessAlike`).
- `SetAllTrue` does not touch the cached answer of `AllTrue`, which is right afterwards if and only if it did not
  say no before (`BitVectors.SetAllTrueCache`).

## Model

| member | source | states |
|---|---|---|
| `FileModel.WrittenIsRead` | amule-3.0.1/src/CFile.cpp:396-509 | what was written somewhere is read there; offset and length are what they must be, inside the file, across its end and beyond |
| `FileModel.AppendedAtEnd` | amule-3.0.1/src/CFile.cpp:240-285 | a file opened for appending takes everything at its end, wherever it was positioned |
| `FileModel.TruncatedIsRead` | amule-3.0.1/src/CFile.cpp:446-559 | a file truncated or extended to a length has it, and is read as what was there with zeros behind; what is available shrinks as it is read |
| `FileModel.WroteTwice` | amule-3.0.1/src/CFile.cpp:374-443 | writing two runs of bytes one after the other leaves the descriptor exactly as writing their concatenation once, append mode and holes included: why gathering and piecewise draining are invisible |
| `FileModel.WritesAgree` | amule-3.0.1/src/CFile.cpp:396-443 | a buffered write, whichever of its branches is taken, is the plain write on the file as its caller sees it, with the same answer |
| `FileModel.StepsAgree` | amule-3.0.1/src/CFile.cpp:341-559 | every call on the buffered file gives the answer, and leaves the visible file, of the plain call |
| `FileModel.RunsAgree` | amule-3.0.1/src/CFile.cpp:341-559 | for every sequence of writes, seeks, reads, position, length, available, truncation and flush calls: equal answers, equal final bytes and offset, and never more than 64 KB pending |
| `FileModel.EachByteOnce` | amule-3.0.1/src/CFile.cpp:374-443 | over any run the bytes handed to the descriptor followed by those pending are the bytes of the successful writes, in order, each once |
| `FileModel.FailedDrainRepeats` | amule-3.0.1/src/CFile.cpp:374-393 | after a drain that failed having written t bytes the bytes and offset of the visible file are what they were if and only if t is 0: all pending bytes are still pending, so a retry repeats the t bytes and ends t further on |
| `FileModel.FaultyRuns` | amule-3.0.1/src/CFile.cpp:341-559 | over any run of calls with drains and direct writes failing anywhere and after any number of bytes: the accepted bytes are handed over or pending in order, those handed over or pending exceed them by exactly what the failed ones had written, and they are equal if and only if none that failed had written anything |
| `FileModel.FailedDrainExample` | amule-3.0.1/src/CFile.cpp:374-393 | three pending bytes, one written before the failure: after the retry four bytes are on disk |
| `BufferedFile.Descriptor.ReadLoop` | amule-3.0.1/src/CFile.cpp:341-371 | doRead's loop delivers the next bytes of the file and moves the offset by as many; the count it returns is short of them exactly when the request goes past the end and there was something to read |
| `BufferedFile.Descriptor.WriteLoop` | amule-3.0.1/src/CFile.cpp:374-393 | however the system splits the writes, the descriptor has received a prefix of the data, all of it unless a write failed |
| `BufferedFile.CFile.Open` | amule-3.0.1/src/CFile.cpp:216-285 | an open file is closed first, and if that throws is still open with everything still pending; which modes open what, truncate, append or refuse; offset 0 and nothing pending in every mode |
| `BufferedFile.CFile.DrainWriteBuffer` | amule-3.0.1/src/CFile.cpp:374-393 | all pending bytes are on the descriptor, or, on failure, some are and all are still pending |
| `BufferedFile.CFile.DoWrite` | amule-3.0.1/src/CFile.cpp:396-443 | takes exactly the step of the buffered model, and what an exception can leave behind |
| `BufferedFile.CFile.DoSeek` | amule-3.0.1/src/CFile.cpp:446-471 | drains, then moves the offset: the step of the buffered model |
| `BufferedFile.CFile.GetPosition` | amule-3.0.1/src/CFile.cpp:474-490 | the offset as the caller sees it, pending bytes included |
| `BufferedFile.CFile.GetLength` | amule-3.0.1/src/CFile.cpp:493-509 | the length as the caller sees it, pending bytes included |
| `BufferedFile.CFile.GetAvailable` | amule-3.0.1/src/CFile.cpp:512-530 | what is left to read, as the caller sees it |
| `BufferedFile.CFile.SetLength` | amule-3.0.1/src/CFile.cpp:533-559 | truncation or extension of the visible file; on refusal only a drain has happened |
| `BufferedFile.CFile.Flush` | amule-3.0.1/src/CFile.cpp:325-338 | the step of the buffered model: nothing pending afterwards |
| `BufferedFile.CFile.Close` | amule-3.0.1/src/CFile.cpp:298-322 | the descriptor let go of holds the file as last seen; after a failed drain the file is still open |
| `BufferedFile.CFile.DoRead` | amule-3.0.1/src/CFile.cpp:341-371 | reads the visible file through the buffer; exact bytes, exact offset, and exactly when the returned count is short of the bytes delivered |
| `CorruptionRecords.AddedAddsExactly` | amule-3.0.1/src/CorruptionBlackBox.cpp:54-112 | adding a range, merged or appended, adds its length and one unit of coverage at exactly its positions, for its sender alone |
| `CorruptionRecords.CutExactly` | amule-3.0.1/src/CorruptionBlackBox.cpp:128-165 | each of the overlap branches leaves of a record precisely what lies outside the range, and takes out precisely what lies inside |
| `CorruptionRecords.RemainingExactly` | amule-3.0.1/src/CorruptionBlackBox.cpp:116-187 | over a whole list, overlapping records included: no coverage left in the range, every position outside it unchanged for every sender, and bytes kept plus pieces taken are the bytes before |
| `CorruptionRecords.NoneMeet` | amule-3.0.1/src/CorruptionBlackBox.cpp:116-187 | no record left meets the verified range |
| `CorruptionRecords.ChargeAtLeast` | amule-3.0.1/src/CorruptionBlackBox.cpp:166-175 | charging each piece as at least one block never counts fewer than its bytes, and counts something exactly if there were bytes |
| `CorruptionBlackBox.RelativePositions` | amule-3.0.1/src/CorruptionBlackBox.cpp:78-95 | for files of up to 65536 parts and ranges below 4 GB the 16-bit part number and 32-bit relative offsets are exact, in the recursive call too |
| `CorruptionBlackBox.BlackBox.TransferredData` | amule-3.0.1/src/CorruptionBlackBox.cpp:78-112 | the records become those of the model, ranges that cross part borders included |
| `CorruptionBlackBox.BlackBox.AddRange` | amule-3.0.1/src/CorruptionBlackBox.cpp:102-111 | the loop joins the first record it can and otherwise appends one |
| `CorruptionBlackBox.BlackBox.CutRecord` | amule-3.0.1/src/CorruptionBlackBox.cpp:128-165 | in place, one record becomes what is left of it, nothing, one or two records, and the loop goes on behind them |
| `CorruptionBlackBox.BlackBox.VerifiedData` | amule-3.0.1/src/CorruptionBlackBox.cpp:116-187 | the list of the part, the good and the bad totals become those of the model |
| `CorruptionBlackBox.BlackBox.EvaluateData` | amule-3.0.1/src/CorruptionBlackBox.cpp:191-241 | the banned addresses are exactly those over the threshold |
| `CorruptionBlackBox.BanLine` | amule-3.0.1/src/CorruptionBlackBox.cpp:196-213 | the truncated percentage bans exactly when 67 times the bad bytes reach 33 times the good ones |
| `CorruptionBlackBox.TransferExactly` | amule-3.0.1/src/CorruptionBlackBox.cpp:78-112 | a transfer adds its length to its sender and coverage to exactly its absolute positions, across part borders |
| `CorruptionBlackBox.VerifyExactly` | amule-3.0.1/src/CorruptionBlackBox.cpp:116-187 | a verification moves bytes from the records to the good total or out as corrupt, and touches no coverage outside its range in any part |
| `CorruptionBlackBox.Conservation` | amule-3.0.1/src/CorruptionBlackBox.cpp:78-187 | over any run and for every address: bytes reported are bytes on record plus bytes credited good plus bytes removed as corrupt, and the bad total grew by the removed pieces, each as at least a block |
| `CorruptionBlackBox.BannedExactly` | amule-3.0.1/src/CorruptionBlackBox.cpp:78-241 | after any run an address is banned if and only if something of it was removed as corrupt and its charge reaches 33/67 of what was credited to it, told from what the run removed |
| `CorruptionCharge.OneRecordGrows` | amule-3.0.1/src/CorruptionBlackBox.cpp:54-112 | however a range is cut into packets that each go on where those before end or begin, and whatever others send between them, it is one record of its sender |
| `CorruptionCharge.ChargedOnce` | amule-3.0.1/src/CorruptionBlackBox.cpp:54-187 | such a range costs its sender, when it is found corrupt, its length or 184320 bytes if that is more, once; verified in part, the bytes that the verification covers; found good, they are credited |
| `CorruptionCharge.BannedForRange` | amule-3.0.1/src/CorruptionBlackBox.cpp:54-213 | so that a sender not charged before is banned for it if and only if 67 times that charge reaches 33 times what it was credited with |
| `BandwidthThrottler.StepKeepsInv` | amule-3.0.1/src/DownloadBandwidthThrottler.cpp:24-93 | every atomic step of every thread keeps the balance nonnegative and the bound on grants |
| `BandwidthThrottler.GrantsBounded` | amule-3.0.1/src/DownloadBandwidthThrottler.cpp:24-93 | under every interleaving: balance never negative; grants less refunds at most the starting balance, plus budgets, plus bytes granted inside refill windows |
| `BandwidthThrottler.SwapGrants` | amule-3.0.1/src/DownloadBandwidthThrottler.cpp:63-80 | a swap that succeeds hands out what was wanted or the whole balance, whichever is less, and ends the call; one that fails hands out nothing and goes on wanting the same |
| `BandwidthThrottler.BudgetExact` | amule-3.0.1/src/DownloadBandwidthThrottler.cpp:24-40 | a tick's budget is the rate in units of 1024 times the time, cut to whole bytes |
| `BandwidthThrottler.WindowExample` | amule-3.0.1/src/DownloadBandwidthThrottler.cpp:24-60 | a run in which the window term is needed: a refill's store overwrites a grant made after its load |
| `BandwidthThrottler.RefillAtOnce` | amule-3.0.1/src/DownloadBandwidthThrottler.cpp:24-60 | an uninterrupted refill sets the balance to leftover plus budget, at most two budgets |
| `BandwidthThrottler.NothingExposed` | amule-3.0.1/src/DownloadBandwidthThrottler.cpp:24-93 | with uninterrupted refills nothing is granted inside a window |
| `BandwidthThrottler.LeftoverDiscarded` | amule-3.0.1/src/DownloadBandwidthThrottler.h:44-47 | the header's promise that a tick's leftover is discarded holds of an uninterrupted refill if and only if nothing was left or the budget is 0 |
| `BandwidthThrottler.StoreRaises` | amule-3.0.1/src/DownloadBandwidthThrottler.cpp:24-60 | a refill's store brings back bytes handed out since its load, so that more can be handed out than was ever budgeted, if and only if the balance it overwrites is below both the value loaded and the budget; by exactly that difference |
| `BandwidthThrottler.RateCap` | amule-3.0.1/src/DownloadBandwidthThrottler.cpp:24-93 | with uninterrupted refills of budget B, net grants over n consecutive ticks are at most n B plus what was banked before, of which at most B counts |
| `BandwidthThrottler.DrainedGrants` | amule-3.0.1/src/DownloadBandwidthThrottler.cpp:24-93 | for every n there is a run of n uninterrupted ticks that starts with nothing and hands out n budgets |
| `BandwidthThrottler.RateCapReached` | amule-3.0.1/src/DownloadBandwidthThrottler.cpp:24-93 | the cap is exact: for every number of ticks and every starting balance some run hands out just that much, n + 1 budgets if one was banked |
| `ResponseCache.StepKeepsInv` | amule-3.0.1/src/ECFullResponseCache.cpp:32-100 | every critical section and every unlocked build keeps: entries are of their file and no newer stamped than built, placeholders are exactly the indices still to build |
| `ResponseCache.ResultsServe` | amule-3.0.1/src/ECFullResponseCache.cpp:32-81 | in every interleaving of calls, prunings and file changes a returned call has one blob for each file, in order, of that file, at least as recent as asked for |
| `ResponseCache.AlwaysProgress` | amule-3.0.1/src/ECFullResponseCache.cpp:55-80 | a call in progress can always take its next step, which brings it closer to its end, and nobody else's step changes how far it has to go |
| `ResponseCache.FinishedAllFresh` | amule-3.0.1/src/ECFullResponseCache.cpp:32-81 | a call left alone ends with every file it named fresh in the cache |
| `ResponseCache.SecondCallHits` | amule-3.0.1/src/ECFullResponseCache.cpp:32-53 | asked again for the same snapshot with nothing between, the cache answers in its first critical section |
| `ResponseCache.FreshLost` | amule-3.0.1/src/ECFullResponseCache.cpp:66-100 | a fresh entry stops answering exactly by a pruning that leaves its file out or by a late installer of an older generation; by no other step of any thread |
| `ResponseCache.FreshThroughout` | amule-3.0.1/src/ECFullResponseCache.cpp:32-100 | over any run an entry answers its readers at every moment if and only if no step of the run is one of those two |
| `ResponseCache.LateInstallRebuilds` | amule-3.0.1/src/ECFullResponseCache.cpp:55-78 | it happens: from the empty cache, for any file and any two threads, a run after which the same call builds again what it was answered at once before a late install of the same blob |
| `ClientRegistry.FiledEntries` | amule-3.0.1/src/ClientList.cpp:104-128 | the index invariant in plain words: one entry for each listed client that has the key, under that key, none for anyone else |
| `ClientRegistry.RangeIsScan` | amule-3.0.1/src/ClientList.cpp:253-347 | the range of a key is exactly the listed clients with that key |
| `ClientRegistry.InsertKeeps` | amule-3.0.1/src/ClientList.cpp:104-128 | filing a client that is not yet known |
| `ClientRegistry.DropKeeps` | amule-3.0.1/src/ClientList.cpp:190-250 | erasing the one entry of a known client leaves an index of the others |
| `ClientRegistry.RekeyKeeps` | amule-3.0.1/src/ClientList.cpp:144-187 | an index follows a client's changed key by moving its entry, or not at all if the key stays |
| `ClientRegistry.ClientList.AddClient` | amule-3.0.1/src/ClientList.cpp:104-128 | a new client is filed in the indexes of the keys it has and becomes listed; any other is left alone |
| `ClientRegistry.ClientList.EraseFrom` | amule-3.0.1/src/ClientList.cpp:190-250 | the scan of a range erases the first entry of the client, and says whether there was one |
| `ClientRegistry.ClientList.RemoveIDFromList` | amule-3.0.1/src/ClientList.cpp:190-209 | the entry under the client's ID goes, and whether it was there |
| `ClientRegistry.ClientList.RemoveIPFromList` | amule-3.0.1/src/ClientList.cpp:212-230 | the entry under the client's IP goes, if it has an IP |
| `ClientRegistry.ClientList.RemoveHashFromList` | amule-3.0.1/src/ClientList.cpp:232-250 | the entry under the client's hash goes, if that is valid |
| `ClientRegistry.ClientList.UpdateClientID` | amule-3.0.1/src/ClientList.cpp:144-155 | the ID index is that of the new ID before the field changes |
| `ClientRegistry.ClientList.UpdateClientIP` | amule-3.0.1/src/ClientList.cpp:158-170 | the IP index is that of the new IP, with an entry exactly if it is nonzero |
| `ClientRegistry.ClientList.UpdateClientHash` | amule-3.0.1/src/ClientList.cpp:173-187 | the hash index is that of the new hash, with an entry exactly if it is not empty |
| `ClientRegistry.ClientList.RemoveClient` | amule-3.0.1/src/ClientList.cpp:131-141 | a client found by ID leaves all three indexes; one that is not leaves none |
| `ClientRegistry.ClientList.DeleteAll` | amule-3.0.1/src/ClientList.cpp:356-368 | though two indexes are cleared first, it ends, all three are empty and every listed client is dying |
| `ClientRegistry.ClientList.FindLowID` | amule-3.0.1/src/ClientList.cpp:265-298 | the branch for a firewalled client: a best match, or none exists |
| `ClientRegistry.ClientList.FindHighID` | amule-3.0.1/src/ClientList.cpp:299-331 | the two-round branch for the others: a best match, or none exists |
| `ClientRegistry.ClientList.FindMatchingClient` | amule-3.0.1/src/ClientList.cpp:253-347 | finds a client if and only if a scan of all listed clients finds a match, and one that no listed client betters in the order the probes define |
| `ClientRegistry.ClientList.SetUserIDHybrid` | amule-3.0.1/src/BaseClient.cpp:2397-2402 | registry and field change together, and the whole invariant holds again |
| `ClientRegistry.ClientList.SetIP` | amule-3.0.1/src/BaseClient.cpp:2405-2414 | registry and field change together, and the whole invariant holds again |
| `ClientRegistry.ClientList.SetUserHash` | amule-3.0.1/src/BaseClient.cpp:2417-2424 | registry, hash and validity change together, and the whole invariant holds again |
| `ClientRegistry.ClientList.SafeDelete` | amule-3.0.1/src/BaseClient.cpp:379-392 | a client being deleted leaves the registry and no other client is affected |
| `KadBuddy.KadList.AddToKadList` | amule-3.0.1/src/ClientList.cpp:949-954 | a Kad source more, the buddy invariant kept |
| `KadBuddy.KadList.RemoveFromKadList` | amule-3.0.1/src/ClientList.cpp:936-947 | a Kad source less; if it was the buddy, no buddy and no status |
| `KadBuddy.KadList.Delete` | amule-3.0.1/src/ClientList.cpp:936-947 | a client deleted at any moment takes the buddy link with it exactly if it was the buddy |
| `KadBuddy.KadList.Enlist` | amule-3.0.1/src/ClientList.cpp:876-904 | a peer that is not declined is given its task and becomes a Kad source exactly if it is idle towards Kad; otherwise nothing changes |
| `KadBuddy.KadList.Established` | amule-3.0.1/src/BaseClient.cpp:1659-1673 | which states become the connected ones: buddy, firewall check, firewall check over UDP; the idle and queued ones stay |
| `KadBuddy.KadList.TryToConnect` | amule-3.0.1/src/ClientList.cpp:574-606 | an attempt that may delete this client and any others: what they can be afterwards |
| `KadBuddy.KadList.Visit` | amule-3.0.1/src/ClientList.cpp:566-669 | the switch for one source keeps the buddy invariant and reports a buddy only for the three states that promise one |
| `KadBuddy.KadList.Process` | amule-3.0.1/src/ClientList.cpp:562-720 | a whole pass, in any order and with any deletions: linked buddy if and only if Connected, always a Kad source; finished sources leave; without a promising source it ends without a buddy, and without a running Kad with no source at all |
| `SourceModel.RemovedLinked` | amule-3.0.1/src/DownloadQueue.cpp:776-811 | forgetting a client everywhere keeps the source and other-file links of all |
| `SourceModel.DroppedLinked` | amule-3.0.1/src/DownloadQueue.cpp:639-649 | a forgotten client may cease to exist |
| `SourceModel.JoinedLinked` | amule-3.0.1/src/DownloadQueue.cpp:693-716 | becoming a source of one file keeps all links |
| `SourceModel.AddedLinked` | amule-3.0.1/src/DownloadClient.cpp:496-507 | one more other file keeps all links |
| `SourceModel.SwappedLinked` | amule-3.0.1/src/DownloadClient.cpp:1488-1536 | exchanging request file and other file keeps all links, with and without keeping the old one |
| `SourceModel.CountsMean` | amule-3.0.1/src/DownloadQueue.cpp:639-649 | the counts in plain words: the clients asked for a file that are queued, downloading or connected, those that are neither queued nor downloading, and for each part those that have it |
| `SourceModel.WithBitsKeeps` | amule-3.0.1/src/DownloadClient.cpp:386-459 | decrement, replace, increment keeps every part frequency the number of its holders, whatever the lengths of old and new status |
| `SourceModel.MovedKeeps` | amule-3.0.1/src/DownloadClient.cpp:1578-1599 | moving a client without status between files keeps frequencies and state counts |
| `SourceModel.InStateNowKeeps` | amule-3.0.1/src/DownloadClient.cpp:521-569 | a state change keeps the counts by state |
| `SourceModel.UnaskedIsUncounted` | amule-3.0.1/src/DownloadQueue.cpp:639-649 | a client asked for nothing is counted nowhere |
| `SourceBook.WritePartStatus` | amule-3.0.1/src/PartFile.cpp:1463-1481 | the sender's loop: of each eight parts the first is worth 1, the next 2, up to 128 |
| `SourceBook.StatusRoundTrip` | amule-3.0.1/src/DownloadClient.cpp:428-457 | what a client writes of the parts it has is read as exactly those, for every part count, a last byte in part included, and by a reader who looks at fewer; and whether one of them is missing here |
| `SourceBook.NeededPartsFirst` | amule-3.0.1/src/DownloadClient.cpp:1457-1486 | with priorities below 10, a target with needed parts is never passed over for one without, nor of two of a sort the one of higher priority, unless a high-priority one ended the search |
| `SourceBook.SwappedBack` | amule-3.0.1/src/DownloadClient.cpp:1488-1575 | a source swapped away from a file may be swapped back to it after 15 minutes and not before, unless that is ignored, and only if it has needed parts or that is ignored |
| `SourceBook.SourceQueue.UpdatePartsFrequency` | amule-3.0.1/src/PartFile.cpp:4075-4106 | the frequencies move by exactly the set bits of a status of the right length; a list of the wrong length is set up first, and only then counted up |
| `SourceBook.SourceQueue.ReplaceStatus` | amule-3.0.1/src/DownloadClient.cpp:386-459 | the numbers of every file are right after a status is replaced |
| `SourceBook.SourceQueue.SetRequestFile` | amule-3.0.1/src/DownloadClient.cpp:1578-1599 | another request file, the status gone, the numbers of both files right; the same file changes nothing |
| `SourceBook.SourceQueue.SetDownloadState` | amule-3.0.1/src/DownloadClient.cpp:521-569 | state, counts by state and, when a download ends in no state, the status |
| `SourceBook.SourceQueue.ProcessFileStatus` | amule-3.0.1/src/DownloadClient.cpp:386-459 | the bits read from the packet; exactly which packets are refused, a wrong part count and one too short for the parts; frequencies right in every case; and exactly when a part is needed |
| `SourceBook.SourceQueue.ReadStatus` | amule-3.0.1/src/DownloadClient.cpp:428-457 | the loop over the packet's bytes: the bits, whether a missing part is among them, and whether the packet ended early |
| `SourceBook.SourceQueue.ProcessFileInfo` | amule-3.0.1/src/DownloadClient.cpp:337-384 | a one-part file that is shared is complete at the source; refused exactly for a file that is not asked for |
| `SourceBook.SourceQueue.AddRequestForAnotherFile` | amule-3.0.1/src/DownloadClient.cpp:496-507 | both sides of the other-file link are set, or it was there |
| `SourceBook.SourceQueue.RemoveSource` | amule-3.0.1/src/DownloadQueue.cpp:776-811 | the client is in no file's sets and asked for nothing, nobody else is touched, and it says whether it was a source |
| `SourceBook.SourceQueue.ForgetEverywhere` | amule-3.0.1/src/DownloadQueue.cpp:781-799 | the loop over the files takes the client out of every set |
| `SourceBook.SourceQueue.SafeDelete` | amule-3.0.1/src/BaseClient.cpp:379-420 | a deleted client leaves consistent links and numbers behind |
| `SourceBook.SourceQueue.BecomeSource` | amule-3.0.1/src/DownloadQueue.cpp:693-716 | a client with no request file becomes a listed source of the sender |
| `SourceBook.SourceQueue.IsValidSwapTarget` | amule-3.0.1/src/DownloadClient.cpp:1543-1575 | exactly the swap targets; a suspension that has run out is forgotten, nothing else changes |
| `SourceBook.SourceQueue.ChooseTarget` | amule-3.0.1/src/DownloadClient.cpp:1443-1486 | the file wanted if it may be swapped to, else the best rated target; none only if there is none |
| `SourceBook.SourceQueue.ChooseBest` | amule-3.0.1/src/DownloadClient.cpp:1457-1486 | no target is rated higher than the one chosen, unless that one's rating ended the search early |
| `SourceBook.SourceQueue.SwapTo` | amule-3.0.1/src/DownloadClient.cpp:1488-1536 | the source's record after a swap, every link and number right |
| `SourceBook.SourceQueue.SwapToAnotherFile` | amule-3.0.1/src/DownloadClient.cpp:1431-1541 | swaps whenever there is a target and the source is not downloading; otherwise nothing changes but expired suspensions |
| `SourceBook.SourceQueue.CheckAndAddKnownSource` | amule-3.0.1/src/DownloadQueue.cpp:720-773 | the client is asked for the file or could be; an existing request stays what it was |
| `SourceBook.SourceQueue.FirstQueued` | amule-3.0.1/src/DownloadQueue.cpp:655-673 | the loop over clients of the same hash finds the first that is asked for anything, or there is none |
| `SourceBook.SourceQueue.AlsoAsk` | amule-3.0.1/src/DownloadQueue.cpp:660-673 | a queued client of the same hash stands for the new source, which is gone; its own request stays |
| `SourceBook.SourceQueue.CheckAndAddSource` | amule-3.0.1/src/DownloadQueue.cpp:623-717 | filtered sources vanish; otherwise some listed client stands for the file, and no existing request is lost |
| `BlockWire.ReadBack` | amule-3.0.1/src/DownloadClient.cpp:782-823 | offsets written one after the other are read back, each reduced to the width of its field |
| `BlockWire.SlotExact` | amule-3.0.1/src/DownloadClient.cpp:782-823 | each of the three slots comes out as its block, or as nothing if it is padding or its end wrapped to 0 |
| `BlockWire.WireExact` | amule-3.0.1/src/UploadClient.cpp:691-739 | what the uploader takes from a legacy packet is what was asked for, in order, if and only if no packet with 4-byte offsets asks for a block ending at 0xFFFFFFFF |
| `BlockPipeline.AskedOnce` | amule-3.0.1/src/DownloadClient.cpp:730-756 | the blocks of a packet are distinct and none of them was ever asked for, and the flags are right again |
| `BlockPipeline.EarliestFirst` | amule-3.0.1/src/DownloadClient.cpp:730-756 | blocks are asked for in the order in which they were set aside: none in a packet is younger than one left out |
| `BlockPipeline.DepthFollowsSpeed` | amule-3.0.1/src/DownloadClient.cpp:600-611 | blocks within 5 seconds of each other never lower the depth and four of them raise it to 32; slower ones never raise it, and four bring it down to 3 |
| `BlockPipeline.MarkedSame` | amule-3.0.1/src/DownloadClient.cpp:730-756 | flagging changes no block, and leaves none unasked if the packet had room |
| `BlockPipeline.Erased` | amule-3.0.1/src/DownloadClient.cpp:1035-1050 | a finished block leaves the list once and for all, and no other does |
| `BlockPipeline.ErasedTracked` | amule-3.0.1/src/DownloadClient.cpp:1035-1050 | the flags of the blocks that stay are still right |
| `BlockPipeline.BlockPool.GetNextRequestedBlock` | amule-3.0.1/src/PartFile.cpp:1976-2216 | of the blocks that the selection comes to, in order, those that overlap nothing outstanding, at most as many as wanted, each a new request |
| `BlockPipeline.BlockPool.RemoveBlockFromList` | amule-3.0.1/src/PartFile.cpp:2220-2230 | every outstanding request that covers the range is given back, and nothing is lost |
| `BlockPipeline.BlockPool.Complete` | amule-3.0.1/src/DownloadClient.cpp:1035-1050 | a request is fulfilled, whether still on the list or given back before, and with it whatever covers its range leaves the list |
| `BlockPipeline.CoversItself` | amule-3.0.1/src/PartFile.cpp:2220-2230 | as outstanding requests do not overlap, the range of one gives back that one alone |
| `BlockPipeline.GivesBackItsOwn` | amule-3.0.1/src/BaseClient.cpp:1206-1244 | a client whose blocks are all on the file's list gives back exactly its own |
| `BlockPipeline.AllCoveringExactly` | amule-3.0.1/src/BaseClient.cpp:1206-1244 | what giving back a client's blocks takes off the list is every request that covers one of their ranges, whoever's it is |
| `BlockPipeline.SparesOthers` | amule-3.0.1/src/BaseClient.cpp:1206-1244 | another client's blocks all stay on the list if and only if none of them covers a range given back |
| `BlockPipeline.MovedIn` | amule-3.0.1/src/DownloadClient.cpp:620-643 | blocks moved from the file behind the pending ones are new to the client and to everyone, and all is tracked and registered again |
| `BlockPipeline.Downloader.AdjustDepth` | amule-3.0.1/src/DownloadClient.cpp:593-612 | doubled up to 32 or halved down to 3, depending on when the last block came |
| `BlockPipeline.Downloader.Refill` | amule-3.0.1/src/DownloadClient.cpp:620-643 | the pending list grows by what the file hands out, never past the depth, so the 16-bit subtraction cannot wrap; other clients' requests are untouched |
| `BlockPipeline.Downloader.SetDownloadState` | amule-3.0.1/src/DownloadClient.cpp:521-569 | leaving the downloading state gives every block back |
| `BlockPipeline.Downloader.Drop` | amule-3.0.1/src/DownloadClient.cpp:646-669 | told to stop once, blocks given up, at most one cancel |
| `BlockPipeline.Downloader.FlagQueued` | amule-3.0.1/src/DownloadClient.cpp:765-785 | the blocks of the packet become asked for, in list order, and no others |
| `BlockPipeline.Downloader.RequestPending` | amule-3.0.1/src/DownloadClient.cpp:730-785 | the packet holds the first blocks not asked for, as many as fit; a block too long for the client stops it with a cancel |
| `BlockPipeline.Downloader.Prepare` | amule-3.0.1/src/DownloadClient.cpp:614-669 | the list is refilled, or a slower source displaced for it; both clients' lists stay apart and right |
| `BlockPipeline.Downloader.SendBlockRequests` | amule-3.0.1/src/DownloadClient.cpp:590-833 | in whatever state packets have left the client: 3 <= depth <= 32 and pending <= depth; exactly when a request goes out, and of what list; what goes on the wire was never asked for before, and is the front of the unasked list; a packet with room left asks for everything. As long as both clients' blocks are on the file's list they stay so, and nobody else's request changes |
| `BlockPipeline.Downloader.Erase` | amule-3.0.1/src/DownloadClient.cpp:1035-1050 | a finished block leaves both lists, the others stay, and so do everyone else's requests while the client's own are on the file's list |
| `BlockPipeline.Downloader.FinishBlock` | amule-3.0.1/src/DownloadClient.cpp:1035-1054 | a complete block leaves the list and is done, and the next request goes out: exactly its blocks are added to those ever asked for, and were not among them; nothing of the slower source but its pending list changes |
| `BlockPipeline.Downloader.Arrived` | amule-3.0.1/src/DownloadClient.cpp:929-1026 | what a piece does to its block, plain or compressed: the bytes unzipped so far, a stream in error, and whether the block is given back, kept or complete; the client's blocks are still all on the file's list exactly if it is not given back |
| `BlockPipeline.Downloader.ProcessBlockPacket` | amule-3.0.1/src/DownloadClient.cpp:853-1067 | the client is in order after every packet: whether it is ignored, which pending block a piece belongs to and what becomes of that; what was ever asked for grows by exactly what is sent; its blocks, on the file's list before, are so afterwards if and only if none was given back, and everyone else's requests stay |
| `BlockPipeline.Downloader.ClearDownloadBlockRequests` | amule-3.0.1/src/BaseClient.cpp:1206-1244 | nothing is pending and every block is with the file: exactly the requests covering a pending range leave its list, which are the client's own and nobody else's if its blocks were all on it |
| `BlockArrival.OwnExpected` | amule-3.0.1/src/DownloadClient.cpp:917-926 | a client whose blocks are all on the file's list can expect any of them: no other takes its bytes |
| `BlockArrival.PlainPiece` | amule-3.0.1/src/DownloadClient.cpp:945-1054 | a plain piece finishes its block if and only if it ends with it and brings something new; one that ends earlier or brings nothing leaves it pending, one that goes past the end gives it back |
| `BlockArrival.PlainPieces` | amule-3.0.1/src/DownloadClient.cpp:945-1054 | a block that arrives in any consecutive new pieces is pending until the last byte has come: every piece but the last is partial, and only the last makes it done |
| `BlockArrival.PackedPiece` | amule-3.0.1/src/DownloadClient.cpp:957-1054 | a compressed piece finishes its block if and only if it makes something new and all that was unzipped so far is as long as the block; more gives it back |
| `BlockArrival.PackedPieces` | amule-3.0.1/src/DownloadClient.cpp:957-1054 | a block that arrives compressed in any pieces is pending until their unzipped lengths come to its own |
| `BlockArrival.BrokenStream` | amule-3.0.1/src/DownloadClient.cpp:929-1019 | after an unzipping error the block is given back by that piece and by every later one, and stays pending |
| `BlockSwarm.Act` | amule-3.0.1/src/DownloadClient.cpp:590-1067 | any call on a client: what it may do to the source it displaces and to the file, in one contract |
| `BlockSwarm.Make` | amule-3.0.1/src/DownloadClient.cpp:590-1067 | one call on any of any number of clients keeps all of them in order and no block in two hands; its packet is new to the wire, for whomever; if everyone's blocks were on the file's list, they still are exactly if none was given back while pending |
| `BlockSwarm.Run` | amule-3.0.1/src/DownloadClient.cpp:590-1067 | over any run of calls on any number of clients nothing is asked for twice: not in one packet, not in two, not of two clients; and everyone's blocks stay on the file's list as long as none is given back while it is pending |
| `BlockSwarm.NothingTwice` | amule-3.0.1/src/PartFile.cpp:1976-2216 | as long as that is so, no two pending blocks overlap, within a client or between two: no byte is being fetched twice |
| `BlockSwarm.SendTooMuch` | amule-3.0.1/src/DownloadClient.cpp:950-956 | a client that sends more than its block holds leaves it pending and off the file's list |
| `BlockSwarm.AnothersRequestLost` | amule-3.0.1/src/BaseClient.cpp:1206-1244 | otherwise it fails, for any block: a run with two new clients, in which one is sent too much and later stops, and the request to the other, which was sent nothing wrong, is off the file's list so that a third may be asked for the same bytes |
| `UdpRotation.UdpQueue.GetMaxFilesPerUDPServerPacket` | amule-3.0.1/src/DownloadQueue.cpp:1294-1311 | 0 exactly without a server or after its 35 files; never more than 31, nor more than are left of the 35 |
| `UdpRotation.UdpQueue.NextServer` | amule-3.0.1/src/DownloadQueue.cpp:900-908 | the turn under way is over; the next server is not the connected one, has not had its turn, and begins with the files waiting now |
| `UdpRotation.UdpQueue.GetNextServer` | amule-3.0.1/src/DownloadQueue.cpp:900-904 | the loop takes servers off the queue until one is not the connected one |
| `UdpRotation.UdpQueue.BeginTurn` | amule-3.0.1/src/DownloadQueue.cpp:900-908 | the files waiting now are this server's, and nobody's share changes |
| `UdpRotation.UdpQueue.EndTurn` | amule-3.0.1/src/DownloadQueue.cpp:900-908 | a turn that ends with files waiting is one cut short |
| `UdpRotation.UdpQueue.FillPacket` | amule-3.0.1/src/DownloadQueue.cpp:922-951 | distinct eligible files off the queue until it is empty or the packet full; no eligible file is lost |
| `UdpRotation.UdpQueue.Counted` | amule-3.0.1/src/DownloadQueue.cpp:896-908 | with fewer than 35 files to ask about no turn is cut short |
| `UdpRotation.UdpQueue.Compose` | amule-3.0.1/src/DownloadQueue.cpp:918-956 | the packet is taken from the waiting files, new to the server and noted, and there is one exactly if a waiting file is eligible for the server; a turn that is on track to ask everything stays so |
| `UdpRotation.UdpQueue.TakeFiles` | amule-3.0.1/src/DownloadQueue.cpp:922-956 | what is eligible for the server is in the packet or still waiting |
| `UdpRotation.UdpQueue.Note` | amule-3.0.1/src/DownloadQueue.cpp:922-956 | the packet counts towards the turn, and the log of what was asked stays right |
| `UdpRotation.UdpQueue.Ask` | amule-3.0.1/src/DownloadQueue.cpp:917-966 | one packet for the current server if there is anything to ask it; its turn goes on exactly if the packet was filled |
| `UdpRotation.UdpQueue.AskOrPass` | amule-3.0.1/src/DownloadQueue.cpp:917-966 | a server whose turn begins is passed over exactly if it is asked nothing though some file is eligible for it |
| `UdpRotation.UdpQueue.Step` | amule-3.0.1/src/DownloadQueue.cpp:896-966 | one round of the loop: a server whose turn begins is asked nothing if and only if no file still waiting is eligible for it, and it is passed over, some other file being eligible, only if the turn before it was cut short; a packet holds only files waiting in the turn |
| `UdpRotation.UdpQueue.GoOn` | amule-3.0.1/src/DownloadQueue.cpp:896-966 | further rounds until a packet is sent or the servers are used up: each begins with all files, and none is passed over |
| `UdpRotation.UdpQueue.FillQueues` | amule-3.0.1/src/DownloadQueue.cpp:881-895 | a rotation begins anew with all servers and files waiting |
| `UdpRotation.UdpQueue.ServedExactly` | amule-3.0.1/src/DownloadQueue.cpp:896-966 | a turn that is over and was not cut short has asked its server about every file it could be asked about if and only if all of those were among the files waiting in its turn; one cut short only if |
| `UdpRotation.UdpQueue.SendNextUDPPacket` | amule-3.0.1/src/DownloadQueue.cpp:881-969 | terminates; at most 31 files in a packet, at most 35 for a server, never the connected server, never the same file twice for a server; with which files each turn begins: those left over after a turn cut short, else all; exactly which server is passed over, at most one a call, and that every other server without a packet had no file eligible; if no turn is cut short every server is asked about every file |
| `UdpRotation.FirstPacket` | amule-3.0.1/src/DownloadQueue.cpp:881-969 | any two servers, any 35 files or more: whichever server comes first gets 31 of them |
| `UdpRotation.SecondPacket` | amule-3.0.1/src/DownloadQueue.cpp:881-969 | then another 4, which ends its turn with the rest waiting |
| `UdpRotation.TwoServers` | amule-3.0.1/src/DownloadQueue.cpp:881-969 | with exactly 35 the second server is then passed over: the queues end with it asked about none of them |
| `UdpRotation.LeftOver` | amule-3.0.1/src/DownloadQueue.cpp:881-969 | with 36 to 65 the second server is asked about exactly those that the first was not, and its turn is over though 35 others are eligible for it |
| `UdpRotation.UdpQueue.FileAdded` | amule-3.0.1/src/ObservableQueue.h:355-385 | a file that appears joins the queue in use without disturbing the turn |
| `IdentModel.MessageInjective` | amule-3.0.1/src/ClientCreditsList.cpp:345-361 | equal messages of one signer are the same statement if and only if they are about keys of equal length |
| `IdentModel.VersionsConfused` | amule-3.0.1/src/ClientCreditsList.cpp:345-361 | a version 1 message about a key is also some version 2 message of a given kind, about a key five bytes shorter, if and only if the high byte of the challenge is that kind |
| `IdentModel.ConfusedMessage` | amule-3.0.1/src/ClientCreditsList.cpp:345-361 | the version 2 statement it is mistaken for, byte for byte |
| `IdentModel.OncePerAddress` | amule-3.0.1/src/BaseClient.cpp:2161-2215 | after one signature was examined at an address, good or bad, no other is |
| `IdentModel.FirstProof` | amule-3.0.1/src/ClientCredits.cpp:188-204 | the first proof of a key stores it and resets what was earned before; later ones leave key and totals |
| `IdentHandshake.TakesKey` | amule-3.0.1/src/BaseClient.cpp:2125-2158 | in any world, a key that arrives is known from then on, and is signed about at once if a signature is owed: for version 1, or with the address that the kind calls for |
| `IdentHandshake.Checks` | amule-3.0.1/src/ClientCreditsList.cpp:376-441 | in any world, the only signature that its signer made, about our key and challenge, identifies it if and only if the addresses agree |
| `IdentHandshake.Handshake` | amule-3.0.1/src/BaseClient.cpp:2043-2274 | completeness: two honest clients that meet, send each other what the other asks for and sign, end up identified by each other; each exactly if the other supports version 1, or it supports version 2 itself and the address it names is the one expected. Every packet delivered is the one that was sent |
| `IdentRun.StepKeepsInv` | amule-3.0.1/src/BaseClient.cpp:2043-2274 | every packet, sent, forged or replayed, keeps: the verified key is the one in use, a pending challenge was sent, an identified user has a proof, honest keys sign only what their owners sign |
| `IdentRun.IdentifiedOnlyBySignature` | amule-3.0.1/src/BaseClient.cpp:2043-2274 | in every run of any number of clients and an adversary a user is identified at an IP only if the proof was given at that IP and the owner of the stored key signed our key with a challenge sent to it, an honest owner itself |
| `IdentRun.EvidenceExact` | amule-3.0.1/src/ClientCreditsList.cpp:376-441 | in every run in which all own keys and all keys taken have one length, that statement names exactly our key, that challenge, and in version 2 that IP and kind |
| `IdentRun.IdentifiedWithoutStatement` | amule-3.0.1/src/ClientCreditsList.cpp:376-441 | without that condition it fails: for any two keys that are accepted and any challenge with high byte 10 (the kind for a firewalled peer), a run from two strangers after which one is identified by the other though the only statement ever signed is about a key five bytes shorter |
| `IdentRun.SignedAfterChallenge` | amule-3.0.1/src/BaseClient.cpp:2043-2274 | if challenges are not guessed, that is none was signed before it was sent, the signature that proves a user was made after its challenge went out |
| `IdentRun.LatestProofDecides` | amule-3.0.1/src/ClientCredits.cpp:188-231 | over any run the state reported for a user at an address is identified if and only if the last signature that verified came from that address, or there was none and it was so at the start |
| `IdentRun.StepMovesIdentity` | amule-3.0.1/src/ClientCredits.cpp:188-231 | the same for a single step of anyone |
| `IdentRun.VerifiedKeyIsForever` | amule-3.0.1/src/ClientCredits.cpp:188-216 | once verified, the stored key never changes, is the one in use, and both totals only grow |
| `IdentRun.StepKeepsKey` | amule-3.0.1/src/ClientCredits.cpp:188-216 | no single step of anyone changes a verified key or lowers its totals |
| `SecureIdent.ClientCredits.constructor` | amule-3.0.1/src/ClientCredits.cpp:44-62 | loaded keys have still to be proved |
| `SecureIdent.ClientCredits.Verified` | amule-3.0.1/src/ClientCredits.cpp:188-204 | identified for this IP; a first key is stored, and prior credits are reset to 1 and 1 if anything was downloaded |
| `SecureIdent.ClientCredits.SetSecureIdent` | amule-3.0.1/src/ClientCredits.cpp:207-216 | a key is taken if it fits and none is verified yet |
| `SecureIdent.ClientCredits.AddDownloaded` | amule-3.0.1/src/ClientCredits.cpp:71-87 | bytes count unless identification is due and missing |
| `SecureIdent.ClientCredits.AddUploaded` | amule-3.0.1/src/ClientCredits.cpp:90-106 | bytes count unless identification is due and missing |
| `SecureIdent.Client.SendSecIdentStatePacket` | amule-3.0.1/src/BaseClient.cpp:2217-2246 | asks for the key, the signature or nothing; a challenge is kept exactly if it is sent |
| `SecureIdent.Client.ProcessSecIdentStatePacket` | amule-3.0.1/src/BaseClient.cpp:2249-2274 | what the other side wants, and its challenge; unknown values change nothing |
| `SecureIdent.Client.SendPublicKeyPacket` | amule-3.0.1/src/BaseClient.cpp:2043-2062 | the key goes out only when wanted, and then a signature is owed |
| `SecureIdent.Client.SendSignaturePacket` | amule-3.0.1/src/BaseClient.cpp:2065-2122 | the exact statement signed, version, IP and kind; signed once, nothing being owed afterwards |
| `SecureIdent.Client.ProcessPublicKeyPacket` | amule-3.0.1/src/BaseClient.cpp:2125-2158 | exactly which keys are taken, and when that lets us sign at once |
| `SecureIdent.Client.ProcessSignaturePacket` | amule-3.0.1/src/BaseClient.cpp:2161-2215 | exactly which signatures are examined, over which message, and what follows; one for each IP |
| `SecureIdent.Client.VerifyIdent` | amule-3.0.1/src/ClientCreditsList.cpp:376-441 | identified, failed or unchanged, and not available without cryptography |
| `ScoreRatio.RatioExactly` | amule-3.0.1/src/ClientCredits.cpp:121-161 | which of its bounds the ratio is: twice the quotient, the root, 10 or 1, each exactly where it is |
| `ScoreRatio.RatioMonotone` | amule-3.0.1/src/ClientCredits.cpp:121-161 | over the reals the ratio is between 1 and 10, does not fall with bytes downloaded and does not rise with bytes uploaded |
| `CreditsFile.ParseRecord` | amule-3.0.1/src/ClientCreditsList.cpp:121-128 | a record is read back exactly, both 64-bit totals rebuilt from their halves, and the file goes on right behind it |
| `CreditsFile.LoadsRecords` | amule-3.0.1/src/ClientCreditsList.cpp:118-156 | the loading loop over records as saved: their map, or nothing if one has an oversized key |
| `CreditsFile.LatestOnly` | amule-3.0.1/src/ClientCreditsList.cpp:148-208 | for records of distinct keys, what a key leads to is its record if that is saved and alive |
| `CreditsFile.LoadsImage` | amule-3.0.1/src/ClientCreditsList.cpp:118-212 | loading a saved file, key by key: the last record saved and alive |
| `CreditsFile.RecordLayout` | amule-3.0.1/src/ClientCreditsList.cpp:195-206 | the 119 bytes of a record, each field at its offset |
| `CreditsFile.RoundTrip` | amule-3.0.1/src/ClientCreditsList.cpp:118-212 | loading gives back exactly the records with a nonzero total that were last seen no more than 12960000 seconds ago, if and only if no record written has an oversized key or none would be left; with a clock below that, the wrapped time decides |
| `CreditsFile.SaveAndLoad` | amule-3.0.1/src/ClientCreditsList.cpp:65-219 | the same through both loops and the file: what SaveList leaves on disk, LoadList reads as exactly those records |
| `CreditsFile.SaveList` | amule-3.0.1/src/ClientCreditsList.cpp:169-219 | through the buffered file and closed: if nothing throws, the bytes on disk are the image of the list, the count in its place |
| `CreditsFile.WriteBody` | amule-3.0.1/src/ClientCreditsList.cpp:184-212 | records after a placeholder, then the count written over it, nothing else disturbed |
| `CreditsFile.PutRecords` | amule-3.0.1/src/ClientCreditsList.cpp:190-208 | the loop writes the records with a nonzero total, in order, and counts them |
| `CreditsFile.PutRecord` | amule-3.0.1/src/ClientCreditsList.cpp:195-206 | the fields of one record in their order and widths |
| `CreditsFile.LoadList` | amule-3.0.1/src/ClientCreditsList.cpp:65-166 | the loop with its version test, early end, oversized key and expiry computes the map of the model |
| `Bytes.LeastFirst` | amule-3.0.1/src/ClientCreditsList.cpp:121-128 | integers are read with the least significant byte first |
| `DeadSources.DeadSourceList.IsDeadSource` | amule-3.0.1/src/DeadSourceList.cpp:95-120 | first match decides; an expired match is erased |
| `DeadSources.DeadSourceList.AddDeadSource` | amule-3.0.1/src/DeadSourceList.cpp:123-151 | first match is replaced, otherwise an entry more, and a cleanup once an hour |
| `DeadSources.DeadSourceList.CleanUp` | amule-3.0.1/src/DeadSourceList.cpp:154-165 | exactly the expired entries go, the order stays |
| `DeadSources.OneDeadSource` | amule-3.0.1/src/DeadSourceList.cpp:25-151 | once one source is listed, dead are exactly those with its ID, a port in common and, if the ID is low, its server; for 45 or 30 minutes, with a low ID 60 or 45 |
| `DeadSources.DeadOnlyIfAdded` | amule-3.0.1/src/DeadSourceList.cpp:95-165 | over any run a source is called dead only if one equal to it was added within its block time |
| `DeadSources.DeadUntilExpiry` | amule-3.0.1/src/DeadSourceList.cpp:95-165 | from any list, an added source is called dead until its time is over, whatever is asked, erased or cleaned up, as long as no source equal but not alike is added |
| `DeadSources.ForgottenUnlessAlike` | amule-3.0.1/src/DeadSourceList.cpp:63-76 | the equality is not transitive: after a source and an equal one, some third makes the first forgotten if and only if the two differ in a port |
| `ExpiringLists.PruningUnobservable` | amule-3.0.1/src/ClientList.cpp:727-753 | however bans are pruned by questions and cleanups, with a clock that does not go back every question is answered as the full history of bans and pardons would |
| `ExpiringLists.BanList.AddBannedClient` | amule-3.0.1/src/ClientList.cpp:727-731 | a ban from now on |
| `ExpiringLists.BanList.IsBannedClient` | amule-3.0.1/src/ClientList.cpp:734-746 | the answer, and an expired ban dropped |
| `ExpiringLists.BanList.RemoveBannedClient` | amule-3.0.1/src/ClientList.cpp:749-753 | a pardon |
| `ExpiringLists.BanList.ProcessBans` | amule-3.0.1/src/ClientList.cpp:522-540 | at most every 20 minutes exactly the expired bans go |
| `ExpiringLists.TrimmedExactly` | amule-3.0.1/src/ClientList.cpp:1042-1054 | only entries out of the window are dropped from the old end, and as the log is sorted all of them are |
| `ExpiringLists.TrimmingUnobservable` | amule-3.0.1/src/ClientList.cpp:1042-1124 | both request windows answer every question as logs that never drop anything |
| `ExpiringLists.RequestLog.Add` | amule-3.0.1/src/ClientList.cpp:1101-1113 | the new entry in front, the old end trimmed, still sorted |
| `ExpiringLists.RequestLog.IsRecent` | amule-3.0.1/src/ClientList.cpp:1056-1065 | whether an entry of the IP is inside the window |
| `BitVectors.SumOfBits` | amule-3.0.1/src/BitVector.h:53-81 | a byte is the sum of its bits, the first worth 1 and each next twice as much |
| `BitVectors.SetUnpacked` | amule-3.0.1/src/BitVector.h:63-81 | writing one bit through its mask changes that bit and no other, padding aside |
| `BitVectors.BitVector.Get` | amule-3.0.1/src/BitVector.h:53-60 | the bit, or false past the end |
| `BitVectors.BitVector.Set` | amule-3.0.1/src/BitVector.h:63-81 | refines the update of a sequence of booleans, with the cache as it says |
| `BitVectors.BitVector.SetSize` | amule-3.0.1/src/BitVector.h:94-110 | a vector of that many equal bits, the cache known |
| `BitVectors.BitVector.Clear` | amule-3.0.1/src/BitVector.h:84-91 | an empty vector |
| `BitVectors.BitVector.SetBuffer` | amule-3.0.1/src/BitVector.h:147 | the bits of the bytes, padding arbitrary, the cache unknown |
| `BitVectors.BitVector.SetAllTrue` | amule-3.0.1/src/BitVector.h:136 | all bits set, the cache as it was |
| `BitVectors.BitVector.AllTrue` | amule-3.0.1/src/BitVector.h:113-133 | the cached answer or the computed one |
| `BitVectors.BitVector.FoundFalse` | amule-3.0.1/src/BitVector.h:115-128 | bits of an incomplete last byte one by one and the rest bytewise decide whether all bits are set |
| `BitVectors.StepKeepsCache` | amule-3.0.1/src/BitVector.h:53-147 | every call keeps the cache truthful, SetAllTrue only when it did not say no |
| `BitVectors.SetAllTrueCache` | amule-3.0.1/src/BitVector.h:136 | after SetAllTrue on a vector that is not empty AllTrue is right if and only if the cache did not say no |
| `BitVectors.AllTrueExact` | amule-3.0.1/src/BitVector.h:53-147 | after any such run AllTrue on a vector that is not empty says whether every bit is set |

## Left out

What the modules above do not say about the code they model:

- BufferedFile.CFile.Open: the temporary file of the safe-write mode and its renaming on close, creation modes and paths are not part of this model; neither is `Reopen`.
- BufferedFile.CFile.Close: a failing `close`, which loses the descriptor all the same, and the renaming of a temporary file.
- BufferedFile.Descriptor.Write: real file systems; a write makes progress or fails, and offsets are unbounded.
- CorruptionBlackBox.BlackBox.TransferredData: stated for files of at most 65536 parts and ranges below 4 GB, which is where the 16-bit part number and the 32-bit offsets do not wrap.
- CorruptionBlackBox.BlackBox.EvaluateData: what banning does to a connected client; the result is the set of addresses.
- BandwidthThrottler.GrantsBounded: unlimited mode and the switch to and from it, where the sum in a refill leaves 64 bits. Atomic fields are the steps of a transition system, not fields of a class, and memory is sequentially consistent.
- ResponseCache.ResultsServe: the cache is a transition system over critical sections, not a class with a mutex; what a blob's bytes are is the generation they were built at.
- ClientRegistry.ClientList.RemoveClient: `RemoveFromKadList` and `RemoveDirectCallback`, which it calls first. The registry, the Kad sources and the source tables are three models of the same clients, each with its own part of deleting one (`ClientList.SafeDelete`, `KadList.Delete`, `SourceQueue.SafeDelete`); that one call makes all three happen is not stated.
- ClientRegistry.ClientList.DeleteAll: the sockets and uploads that deleting a client closes. `AttachToAlreadyKnown`, which moves a socket between client objects, is not part of this model, and an index keeps its entries in insertion order and not sorted by key.
- KadBuddy.KadList.Enlist: whether the peer is declined (it is ourselves, its address is known already, or is being checked for a firewall) is a parameter.
- KadBuddy.KadList.TryToConnect: connections, packets and searches; an attempt can leave the client alone, connect it, or delete it and any others.
- SourceBook.SourceQueue: clients and files are rows of two tables and not objects that point at each other, so aliasing and update in place are not captured; the 16-bit part counters are integers; the file a client's comment belongs to and the widget notifications are left out.
- SourceBook.SourceQueue.SetDownloadState: giving up the block requests, which is `BlockPipeline.Downloader.SetDownloadState`, and the list of downloading sources.
- SourceBook.SourceQueue.ProcessFileStatus: ends with a change of state, which is a separate call here.
- SourceBook.SourceQueue.ProcessFileInfo: ends with a change of state or a request for the hash set, which are separate calls here.
- SourceBook.SourceQueue.CheckAndAddKnownSource: whether the source is filtered is a parameter.
- SourceBook.SourceQueue.CheckAndAddSource: which sources are filtered, and which known client a source is, are parameters; the second is what `ClientRegistry.ClientList.FindMatchingClient` finds.
- BlockPipeline.BlockPool.GetNextRequestedBlock: which chunk and blocks of a file are chosen; the blocks that the selection comes to are a parameter.
- BlockPipeline.BlockPool.RemoveBlockFromList: the order of the list, which no caller depends on.
- BlockPipeline.Downloader.SendBlockRequests: a client without a request file, and the speed comparison that selects a slower source; the version 2 packet is its list of blocks.
- BlockPipeline.Downloader.ProcessBlockPacket: the unzipper itself, and how many bytes of a piece were new; both are parameters. A packet with a wrong file or size is thrown out before it is read.
- UdpRotation.UdpQueue.FileAdded: a `File` is one stay of a file in the list; a file that is removed and comes back is a new one, and may be asked about again.
- UdpRotation.UdpQueue.SendNextUDPPacket: the bytes of a packet, and servers that come and go while their queue is in use. The order in which the queues give out their elements is arbitrary.
- BlockArrival.PackedPieces: blocks of 4 GB or more, whose 32-bit count of unzipped bytes wraps.
- IdentHandshake.Handshake: one order of the packets, between two clients with different keys that meet for the first time and with nobody else about.
- IdentRun.IdentifiedOnlyBySignature: signatures are ideal (the signature scheme is RSASSA-PKCS1-v1_5, section 8.2 of RFC 8017); 64-bit totals do not wrap, and the waiting times are left out.
- SecureIdent.Client.SendSignaturePacket: a signature is the statement it is about; failures of the cryptographic library are left out.
- ScoreRatio.RatioMonotone: floating-point rounding; the square root is given by what it is.
- CreditsFile.SaveList: the records come as a list of the map's entries, fewer than 2^32 of them; the file's name, its backup copy and the log are left out.
- CreditsFile.LoadList: reads whole records from the bytes of the file; that a record cut short is not used is the same.
- DeadSources.DeadSourceList: entries are kept in one list in insertion order; as equal sources have the same ID, that is the order within an ID.
- ExpiringLists.BanList: the statistics counter of banned clients, which does not follow the map.
- BitVectors.BitVector: the empty vector is an empty array and not null; what `AllTrue` says of an empty vector depends on the calls before and is not stated.

What is not modelled at all:

- `CDownloadQueue::ProcessLocalRequests` and server requests over TCP: they fill one packet from one list.
- Sockets, packet dispatch, name resolution, logging, statistics and notifications.
- The upload side, searches, shared files, hashing and the verification of parts themselves.
- The user interface, the web and command line front ends, and the Rust engine.
