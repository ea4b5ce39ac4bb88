# soulseek-rs-lib: verified models of its five cores

This project models the parts of `soulseek-rs-lib` whose correctness is not plain from reading one function, and proves what they promise.

- **The zlib codec** (`utils/zlib.rs`): a hand-written inflater (bit reader, canonical Huffman trees, stored, fixed and dynamic blocks) and deflater (hash-chain LZ77 over the fixed code). Streams are sequences of bits. `InflateSpec` says what the inflater makes of any input, by position in the bit stream; `Inflater` is the code as it runs, loops over a bit reader and a growing output, proved to compute it within its memory bound. `Format`, `Headers` and `Streams` describe every zlib stream with stored, fixed or dynamic blocks independently of any decoder, and the inflater is proved to take each of them to the bytes it stands for. `Converse` goes the other way: what the inflater accepts is such a stream, exactly when the code lengths in its dynamic blocks are ones the format allows; `Strict` says the same of the RFCs' own, stricter streams, which the deflater writes; and `Unlawful` has a payload that is none of the first and one that is none of the second. `Vectors` has a payload byte by byte, and the RFC's tables in numbers. The deflater is proved to write such a stream, and the round trip follows; `Thrift` says what it saves.
- **Transfers** (`peer/download_peer.rs`, `peer/upload_peer.rs`, `download_store.rs`, `client/downloads.rs`). `DownloadSpec`/`DownloadStore` are the download table and its lock-held operations. `Transfer` is a state machine of one worker interleaved with the user's cancel, pause and resume and with the row's removal, every lock-held section, file operation and channel send being one step. `Attempts` draws out what its invariant means, over one attempt and over any number; `Pauses` says what pauses, resumes, cancels, faults and reads lead to; `TableSteps` is every operation on the table row by row. `PartFile` is the `.part`, a file that a path and a handle may name independently, and the uploader's end; `FinishTransfer` is the finish under the lock. `DownloadWorker` is the worker as it runs, its loops over the table, the disk and the socket, with any operations of others on the table and any removal of the path before each of its steps: whatever they do, the run it makes is one of `Transfer`'s.
- **The upload scheduler** (`client/upload_queue.rs`, `client/uploads.rs`). `ServeOrder` is the order donors and others are served in, `UploadSpec` a state machine that follows each request from the queue through its offer to its upload, `UploadOwners` whose request each place belongs to, `UploadOffers` how long an offer stands and `UploadSteps` what each operation moves where, `UploadQueue` the code over it.
- **The distributed-search leaf and the rate limit** (`client/distributed.rs`, `utils/rate_limit.rs`). `LeafSpec` is the leaf with a history of the links it issued and the notices it gave, `LeafTold` ties it to what each link said, `Leaf` is the class with its shared cancel flags; `RateLimit` is the token bucket and a ledger of what was granted.
- **Framing and the peer registry** (`message/*`, `actor/peer_registry.rs`, `actor/peer_actor.rs`). `Utf8`, `Messages`, `Distributed` and `MessageReader` go from a byte stream cut anywhere to the messages that were sent; `Wire` gives their layout in numbers. `RegistrySpec` is the registry, its actors and their late terminal notices as one state machine, `ActorSteps` says what each step makes of an actor and whom the registry tells to go; `PeerRegistry` is the map and the actor as they run.

Time, chunk sizes, socket and file outcomes and the choice of which thread runs next are arguments or events, so that every theorem about a run holds for all of them. Where a class changes state in place, its methods are proved equal to the functions of the state machine, and the theorems about runs are about those functions.

Some things the code does not do, though its documentation or the surrounding code suggests it does. Each is stated as lemmas: a concrete input or run, and the exact condition under which the code does it.

- The sweep tells the server that we have a parent when we have none, if a branch move was still waiting to be told when the parent closed or a new login reset the tree: `LeafSpec.AFalseNotice` is a run, `LeafSpec.TruthfulExactlyWhen` and `LeafSpec.NoticesStayTrueExactlyWhen` the condition.
- A second can admit twice the documented search budget: `LeafSpec.TwoBudgetsInASecond` is a run, `LeafSpec.OverBudgetExactlyWhen` the condition.
- Bytes granted while no rate was set and handed back once one is are granted again on top of the limit: `RateLimit.UnlimitedGrantsReturnedUnderALimit` is a run, `RateLimit.FreeBytesBreakTheLimit` and `RateLimit.LimitKeptExactlyWhen` the condition.
- An entry of the registry can outlive its actor for good, if the peer introduced itself by another name than the one it was registered under: `RegistrySpec.AZombie` is a run, `RegistrySpec.CaughtUpMeansAlive` the condition.
- A row that a peer's transfer request moves to the peer's token is lost if the token is the one it has, and shadowed if another row has it: `DownloadSpec.ARowIsLost` is a table, `DownloadSpec.RekeyedExactlyWhen` the condition.
- A cancelled download can leave its `.part` behind, if the worker opens it after the canceller has erased it and then dies on its socket: `Attempts.ADyingWorkerLeavesAPart` is a run, `Attempts.WhenACancelLeavesAPart` the condition.
- A finished file equals the peer's file only if the `.part` it resumed was a prefix of it, which nothing checks: `Attempts.AForeignPartIsFinished` is a run, `Attempts.FinishedIsTheSource` the condition.
- The inflater takes payloads that are no zlib streams, those with code lengths that no prefix code has or with a run that goes past the last length: `Unlawful.AcceptedThoughNoStream` is such a payload, `Converse.InflatesExactlyTheStreams` the condition, and for one list of lengths `Canonical.AllCodedIffApart`. Of the streams it also takes some the RFCs rule out: `Unlawful.AcceptedThoughNotStrict` is one, `Strict.StrictExactlyWhen` the condition.

## Model

| member | source | states |
|---|---|---|
| Deflater.Deflate | soulseek-rs-lib/src/utils/zlib.rs:520-573 | For every byte sequence the deflater writes a zlib stream of it that keeps to all the RFCs ask (`IsStrictZlib`), of at most 6 + ⌈(9n+10)/8⌉ bytes, which the inflater takes back to exactly those bytes under every ceiling they fit and refuses as too big under every other. It spells out no three bytes that stood at most 128 bytes before, and takes of a longer repeat all or 64 bytes at least, so that data that repeats itself after at most 128 bytes takes half a bit a byte |
| Thrift.RepeatsAreCheap | soulseek-rs-lib/src/utils/zlib.rs:535-573 | Tokens each as good as any repeat near by take, for data of any period up to 128, at most four bytes for each byte of the first period and half a bit for each that follows |
| Inflater.InflateLimited | soulseek-rs-lib/src/utils/zlib.rs:83-121 | On every input the inflater ends with the specified result or error, and at no moment holds more than the ceiling plus one copy (258 bytes), nor more than 1032 bytes per input byte |
| InflateSpec.Inflate | soulseek-rs-lib/src/utils/zlib.rs:88-121 | Whatever the input, an accepted payload is within the ceiling and within 1032 times the input |
| InflateSpec.BlocksAt | soulseek-rs-lib/src/utils/zlib.rs:134-154 | Decoding blocks always makes progress in the stream, stays inside it, and yields at most 129 bytes for each bit read |
| Streams.InflatesEveryStream | soulseek-rs-lib/src/utils/zlib.rs:88-121 | Every zlib stream (RFC 1950 section 2.2) of any stored, fixed or dynamic blocks inflates to the bytes it stands for, or is refused exactly when those exceed the ceiling |
| Streams.HeaderTaken | soulseek-rs-lib/src/utils/zlib.rs:88-113 | The inflater takes exactly the headers that section 2.2 of RFC 1950 has a writer lay out: method 8, a window size field of at most 7, any level, no preset dictionary, and check bits that make the pair a multiple of 31 |
| Streams.HeaderRefused | soulseek-rs-lib/src/utils/zlib.rs:88-113 | Every other header is refused under every ceiling, and with which error, from the fields the writer put in it, the first thing wrong first: the method, the window, the check bits, the preset dictionary |
| Streams.WrongSumRefused | soulseek-rs-lib/src/utils/zlib.rs:115-120 | Any blocks under any other checksum than that of what they stand for are refused for it |
| Vectors.OneLetter | soulseek-rs-lib/src/utils/zlib.rs:83-121 | A payload as another encoder writes it, byte for byte, inflates to its one letter |
| Vectors.AdlerIs | soulseek-rs-lib/src/utils/zlib.rs:123-132 | The checksum in closed form: the sum of the bytes and one, and the sum of each byte as often as there are bytes from it on, modulo 65521 |
| Vectors.LengthsAre | soulseek-rs-lib/src/utils/zlib.rs:231-238 | The table of lengths in closed form: fours of symbols, each with one extra bit more, and 258 by itself |
| Vectors.DistancesAre | soulseek-rs-lib/src/utils/zlib.rs:239-246 | The table of distances: pairs of symbols, each with one extra bit more |
| Vectors.OrderIs | soulseek-rs-lib/src/utils/zlib.rs:318-320 | The order of the code length codes: the four specials, then outwards from 8 and 7 in turn |
| Vectors.FixedIs | soulseek-rs-lib/src/utils/zlib.rs:398-415 | The lengths of the fixed codes, symbol by symbol |
| Vectors.RunsAre | soulseek-rs-lib/src/utils/zlib.rs:347-375 | The three kinds of run in numbers: the last length 3 to 6 times, 3 to 10 zeros, 11 to 138 zeros |
| Streams.BlocksDecoded | soulseek-rs-lib/src/utils/zlib.rs:134-170 | Any chain of blocks, from any bit position and output so far, is decoded to the output it stands for and to the bit where it ends; the complement of a stored length plays no part |
| Converse.InflatesExactlyTheStreams | soulseek-rs-lib/src/utils/zlib.rs:83-121 | Of any payload: it is a zlib stream for bytes within the ceiling exactly when the inflater accepts it for them and its dynamic blocks have code lengths the format allows |
| Strict.StrictExactlyWhen | soulseek-rs-lib/src/utils/zlib.rs:83-121 | Of any payload: it is a strict stream (a true complement beside each stored length, at most 286 literal codes, no distance past the window its header names, 258 by its own symbol only) for bytes within the ceiling exactly when, besides, what is read of it keeps to these, none of which the source checks |
| Strict.StrictIff | soulseek-rs-lib/src/utils/zlib.rs:134-170 | Blocks that stand in the stream are strict exactly when what is read of them is, from any position and output |
| Unlawful.AcceptedThoughNoStream | soulseek-rs-lib/src/utils/zlib.rs:347-375 | A payload whose last run of code lengths goes past the last length is accepted under every ceiling and is a stream for no bytes |
| Unlawful.AcceptedThoughNotStrict | soulseek-rs-lib/src/utils/zlib.rs:156-170 | A stored block with a wrong complement is accepted under every ceiling and is in no strict stream |
| Converse.InflatedIsAStream | soulseek-rs-lib/src/utils/zlib.rs:88-121 | A payload accepted, with such lengths, splits into blocks that stand for what was returned, under its checksum |
| Converse.BlockRead | soulseek-rs-lib/src/utils/zlib.rs:248-292 | Whatever the symbol loop accepts is a list of literals and matches and the end mark, written in the codes it decoded by |
| Converse.HeaderRead | soulseek-rs-lib/src/utils/zlib.rs:322-387 | Whatever lengths are accepted and allowed are those of a header that stands in the stream |
| Converse.LeafIsACode | soulseek-rs-lib/src/utils/zlib.rs:294-316 | Whatever the lengths, the tree holds no symbol but those inserted, and each at its code |
| Headers.HeaderDecoded | soulseek-rs-lib/src/utils/zlib.rs:322-387 | A dynamic block's header (RFC 1951 section 3.2.7), with its run-length coded lengths, is read back as the codes it was written from |
| Symbols.BlockDecoded | soulseek-rs-lib/src/utils/zlib.rs:248-292 | The bits of any list of literals and matches under any valid pair of codes decode to their expansion, overlapping copies included, and to the position after the end mark |
| Canonical.DecodesCode | soulseek-rs-lib/src/utils/zlib.rs:214-229 | In the tree built from any list of code lengths with Kraft sum at most 1, the bits of a symbol's canonical code, whatever follows them, decode to that symbol and use exactly its length |
| Canonical.PrefixFree | soulseek-rs-lib/src/utils/zlib.rs:294-316 | The canonical codes of such a list are prefix-free (RFC 1951 section 3.2.2) |
| Canonical.AllCodedIffApart | soulseek-rs-lib/src/utils/zlib.rs:294-316 | For any list of lengths, longer than the alphabet or not, the tree decodes every symbol inserted exactly when no code of one of them begins another's |
| Canonical.AllCodedIffSubscribed | soulseek-rs-lib/src/utils/zlib.rs:294-316 | A Kraft sum of at most 1 is enough for that with any list, and it is necessary when no symbol with a code is left out of the alphabet: the lists the code does not reject are the ones where it goes wrong |
| Canonical.OversubscribedAndCoded | soulseek-rs-lib/src/utils/zlib.rs:308-314 | With symbols left out it is not necessary: such a list |
| Canonical.KraftIsCodeEnd | soulseek-rs-lib/src/utils/zlib.rs:303-306 | The counter the code runs up by doubling is the Kraft sum scaled |
| Canonical.CodesFitTheirWidth | soulseek-rs-lib/src/utils/zlib.rs:303-314 | No code computed from lengths of at most 15 bits overflows 32 bits, however oversubscribed the list |
| Huffman.InsertKeeps | soulseek-rs-lib/src/utils/zlib.rs:198-212 | Inserting a codeword disturbs no path that is not comparable with it |
| Huffman.DecodeCoded | soulseek-rs-lib/src/utils/zlib.rs:214-229 | Walking the tree along a coded path ends at its symbol after just that many bits |
| FixedCodes.FixedCodeIsCanonical | soulseek-rs-lib/src/utils/zlib.rs:474-483 | The closed-form codes the encoder uses are the canonical codes of the fixed lengths (RFC 1951 section 3.2.6) from which the decoder builds its tree |
| FixedCodes.FixedDistanceCode | soulseek-rs-lib/src/utils/zlib.rs:496-500 | The same for the fixed distance codes |
| Format.CopyRepeats | soulseek-rs-lib/src/utils/zlib.rs:285-289 | Copying byte by byte from a distance behind reproduces any repeat at that distance, also where the copy overlaps itself |
| Inflater.BlListToTree | soulseek-rs-lib/src/utils/zlib.rs:294-316 | The three counting loops build the canonical tree of the lengths |
| Inflater.Adler32Of | soulseek-rs-lib/src/utils/zlib.rs:123-132 | The running sums are the checksum of section 8.2 of RFC 1950 |
| Inflater.InflateBlockData | soulseek-rs-lib/src/utils/zlib.rs:248-292 | The symbol loop computes the block's output within its bounds on every input |
| Inflater.InflateBlocks | soulseek-rs-lib/src/utils/zlib.rs:134-154 | The block loop ends on every input and computes the specified output |
| BitIO.BitReader.ReadBits | soulseek-rs-lib/src/utils/zlib.rs:42-48 | Bits come off least significant first, across byte boundaries, and running out is an error |
| BitIO.BitReader.ReadBytes | soulseek-rs-lib/src/utils/zlib.rs:50-57 | Whole bytes are read from the next byte boundary, little-endian |
| BitIO.BitReader.DecodeSymbol | soulseek-rs-lib/src/utils/zlib.rs:214-229 | The walk of the tree against the reader is the walk against the bit stream |
| BitIO.BitWriter.Bits | soulseek-rs-lib/src/utils/zlib.rs:435-443 | What is written is the value's low bits, least significant first, after everything written before |
| BitIO.BitWriter.Code | soulseek-rs-lib/src/utils/zlib.rs:446-450 | A Huffman code goes out most significant bit first |
| BitIO.BitWriter.Finish | soulseek-rs-lib/src/utils/zlib.rs:452-458 | The stream is padded with zeros to a byte and the trailer follows where a byte-aligned reader looks |
| Deflater.FindMatch | soulseek-rs-lib/src/utils/zlib.rs:535-557 | A match found is a true repeat of at most 258 bytes within the window, stays inside the data, is at least as long as the nearest candidate's, and of every run of three bytes or more repeated from 128 bytes back or less takes all or at least 64: the chain of equal hashes passes no such place by |
| Deflater.Remember | soulseek-rs-lib/src/utils/zlib.rs:510-518 | The chains stay exact: each head is the latest position with its hash and each link the one before it |
| Deflater.EmitMatch | soulseek-rs-lib/src/utils/zlib.rs:485-501 | The bits written are the encoding of a length and distance pair with just this length and distance |
| Deflater.FinishedIsZlib | soulseek-rs-lib/src/utils/zlib.rs:526-573 | What the loop has written, the end mark, padding and checksum make a strict zlib stream of the data, within the size bound |
| RateLimit.EveryRunBalances | soulseek-rs-lib/src/utils/rate_limit.rs:26-58 | Over any interleaving of takers, returns and rate changes, also between a load of the rate and the lock after it, the bytes granted under a rate, the tokens left and the tokens lost are together what refills allowed, what of it was handed back, and the free bytes let in |
| RateLimit.LimitKeptExactlyWhen | soulseek-rs-lib/src/utils/rate_limit.rs:26-58 | What is granted under a rate and not handed back is within what refills allowed exactly when the free bytes let in do not outweigh the tokens left and lost; always, if there are none |
| RateLimit.FreeBytesBreakTheLimit | soulseek-rs-lib/src/utils/rate_limit.rs:50-57 | After any run, bytes had under no rate that are handed back and taken before the next refill break the limit exactly when, with those let in before, they exceed the tokens lost |
| RateLimit.RateIsKept | soulseek-rs-lib/src/utils/rate_limit.rs:26-58 | However the rate is changed meanwhile, if no taker finds it lifted or above some rate of bytes a second, and takers hand back only what they had: ten times the bytes granted and not handed back over a span of time are at most that rate for each whole tenth of a second of it and one more; at a rate below 10, one byte for each |
| RateLimit.GrantIs | soulseek-rs-lib/src/utils/rate_limit.rs:26-48 | A turn at the start or a tenth of a second or more after the last refill finds a tenth of the rate (one byte at least) in the bucket, an earlier one what was left; it is granted what it wants of that and leaves the rest; without a rate it is granted all |
| RateLimit.ReturnIs | soulseek-rs-lib/src/utils/rate_limit.rs:50-57 | Under a rate, what is handed back is there for the next turn |
| RateLimit.RefillsAreSpaced | soulseek-rs-lib/src/utils/rate_limit.rs:34-39 | Refills are at least a tick apart |
| RateLimit.SleepIsLongEnough | soulseek-rs-lib/src/utils/rate_limit.rs:40-46 | A taker refused once and alone is granted what it wants, up to the quota, after the sleep the code chooses |
| RateLimit.UnlimitedGrantsReturnedUnderALimit | soulseek-rs-lib/src/utils/rate_limit.rs:50-57 | Handing back looks at the rate now and not at the grant: a run of honest takers that breaks the limit |
| RateLimit.RateLimit.TryTake | soulseek-rs-lib/src/utils/rate_limit.rs:26-48 | One turn of the loop under the lock, at the rate that was loaded before it: what it grants is `RateLimit.GrantIs` |
| LeafSpec.EveryRunKeeps | soulseek-rs-lib/src/client/distributed.rs:127-292 | In every reachable leaf there are at most ten candidates; every link ever issued is exactly one of live, closed by itself and cancelled; the branch is the one its parent gives; a move is either waiting or the last one told; and told moves are an interval apart |
| LeafSpec.BranchFollowsParent | soulseek-rs-lib/src/client/distributed.rs:198-216 | Parentless, the branch is our own name at level 0; with a parent it is the only candidate left, and once its root and level are known the branch is its root, one level down, without saturation |
| LeafTold.ToldIsKept | soulseek-rs-lib/src/client/distributed.rs:168-198 | Over every run, what is kept of a live candidate is what its own link said last: the last level, and the last root, its own name after level 0, none after a negative level |
| LeafTold.BranchIsWhatTheParentTold | soulseek-rs-lib/src/client/distributed.rs:198-216 | In every reachable state we are our own root at level 0 without a parent; with one it is the only candidate, and once its link has told a root and a level the branch is that root, one level down |
| LeafTold.AdoptedExactlyWhen | soulseek-rs-lib/src/client/distributed.rs:200-216 | In every reachable state a search makes its peer the parent exactly when there is no parent, its link is live and that link has told a root and a level; it is then the only candidate, the links of all others are cancelled, and the server is told that root one level down; any other search changes nothing |
| LeafTold.MovesAreTold | soulseek-rs-lib/src/client/distributed.rs:272-285 | In every reachable state what a link tells moves the branch only if it is the parent's; a move is told at once when a second has passed since the last one told, and waits otherwise |
| LeafTold.ClosedIsGone | soulseek-rs-lib/src/client/distributed.rs:228-241 | A close by the live link takes its candidate away and nobody else; the parent's makes us a root, as the server is told |
| LeafTold.ResetIsAFreshStart | soulseek-rs-lib/src/client/distributed.rs:243-247 | A new login leaves no candidate, no parent and our own branch, told to the server; a waiting move waits on |
| LeafTold.SweepIs | soulseek-rs-lib/src/client/distributed.rs:272-285 | A sweep tells a waiting move when a second has passed since the last one, and does nothing else |
| LeafTold.ConsideredAre | soulseek-rs-lib/src/client/distributed.rs:127-162 | Below a parent nobody is taken up. Without one the first offers are, each whose name is not known, once, until there are ten candidates, under new links, and all of them if there are fewer; the candidates there are stay as they are |
| LeafSpec.StaleLinkIsIgnored | soulseek-rs-lib/src/client/distributed.rs:168-253 | A thread whose link was closed, cancelled or never issued changes nothing, even for a user who has a newer link |
| LeafSpec.NoticesAreTold | soulseek-rs-lib/src/client/distributed.rs:255-285 | Each notice carries the branch as it now is, and nothing else changes what the server was told |
| LeafSpec.SweepTellsThePendingMove | soulseek-rs-lib/src/client/distributed.rs:272-285 | A waiting move is told by the first sweep an interval after the last one |
| LeafSpec.NoticesAreTrue | soulseek-rs-lib/src/client/distributed.rs:228-285 | In a run where no move is waiting when the parent goes or the session resets, every notice says truly whether there is a parent |
| LeafSpec.TruthfulExactlyWhen | soulseek-rs-lib/src/client/distributed.rs:255-285 | Of all notices only a due sweep's can be false, and it is exactly when a move is waiting without a parent |
| LeafSpec.NoticesStayTrueExactlyWhen | soulseek-rs-lib/src/client/distributed.rs:228-285 | All notices of all continuations in which neither a close nor a reset leaves a move waiting are true, exactly when none is waiting without a parent now |
| LeafSpec.ClosingThenSweeping | soulseek-rs-lib/src/client/operations/mod.rs:45-53 | When the parent goes, the next due sweep is truthful exactly if no move was waiting; otherwise it claims a parent |
| LeafSpec.ResettingThenSweeping | soulseek-rs-lib/src/client/operations/tree.rs:83-98 | The same after the reset at a new login |
| LeafSpec.AFalseNotice | soulseek-rs-lib/src/client/operations/mod.rs:45-53 | Such a run exists |
| LeafSpec.BudgetHolds | soulseek-rs-lib/src/client/distributed.rs:218-226 | What any half-open second admits is covered by the windows it meets, at most one budget from each |
| LeafSpec.AtMostTwoBudgetsASecond | soulseek-rs-lib/src/client/distributed.rs:218-226 | Any half-open second admits at most twice the budget |
| LeafSpec.TwoBudgetsInASecond | soulseek-rs-lib/src/client/distributed.rs:218-226 | Such a second does admit a hundred, twice what the comment promises |
| LeafSpec.OverBudgetExactlyWhen | soulseek-rs-lib/src/client/distributed.rs:218-226 | A second admits more than the budget exactly when a window starts strictly inside it and what was admitted before and what the new window admits by its end are together more |
| LeafSpec.NoWindowInside | soulseek-rs-lib/src/client/distributed.rs:218-226 | A second no window starts inside of keeps the budget |
| LeafSpec.OneWindow | soulseek-rs-lib/src/client/distributed.rs:218-226 | Within one window exactly the first 50 searches are admitted, all of them if fewer ask |
| Leaf.Leaf.Consider | soulseek-rs-lib/src/client/distributed.rs:127-162 | Each dial carries its own new link and a fresh cancel flag not raised, for just the offers not known, up to the cap |
| Leaf.Leaf.SearchFrom | soulseek-rs-lib/src/client/distributed.rs:200-216 | Adoption as specified, with the flags of all other candidates, and of nobody else, raised |
| Leaf.Leaf.Close | soulseek-rs-lib/src/client/distributed.rs:228-241 | A close by the live link alone takes the candidate away and returns whether it was the parent |
| Leaf.Leaf.Reset | soulseek-rs-lib/src/client/distributed.rs:243-247 | Every live candidate's flag is raised and the leaf is parentless |
| Leaf.Leaf.AdmitSearch | soulseek-rs-lib/src/client/distributed.rs:218-226 | The window and count as specified |
| ServeOrder.ServeOrder | soulseek-rs-lib/src/client/upload_queue.rs:55-61 | The order is a permutation of the queue sorted by donors first, then arrival |
| ServeOrder.NextToServe | soulseek-rs-lib/src/client/upload_queue.rs:63-71 | The scan finds the first entry of that order |
| ServeOrder.OrderIsServed | soulseek-rs-lib/src/client/upload_queue.rs:55-71 | Sorting once and taking the next again and again serve the same entries in the same order |
| ServeOrder.ServedThenRemaining | soulseek-rs-lib/src/client/upload_queue.rs:126-153 | After the first k are served the rest keep their order |
| ServeOrder.NobodyIsLost | soulseek-rs-lib/src/client/upload_queue.rs:126-153 | The first k and the remaining are together the queue |
| ServeOrder.NoOvertaking | soulseek-rs-lib/src/client/upload_queue.rs:50-53 | Nobody left waiting ranks before anybody served |
| UploadSpec.EveryRunKeeps | soulseek-rs-lib/src/client/upload_queue.rs:99-300 | Over every run of requests, pumps, answers, expiries, releases, servings, finishes and slot changes, each request ever made is in exactly one of queue, offered, uploading or done, expired and released; tokens are never shared; every donor flag agrees with the current list; and uploads in flight never exceed the most slots there ever were |
| UploadSpec.PumpKeeps | soulseek-rs-lib/src/client/upload_queue.rs:126-153 | A pump's offers are exactly the first min(free slots, queue length) entries of the serve order, with new tokens, and the queue is what remains |
| UploadSpec.PumpFillsTheSlots | soulseek-rs-lib/src/client/upload_queue.rs:131-153 | A pump leaves the queue empty or the slots full and never goes above the cap by itself |
| UploadSpec.PumpIsFair | soulseek-rs-lib/src/client/upload_queue.rs:3-11 | In every reachable state a pump passes over no waiting donor for another peer, and among equals serves whoever asked first |
| UploadSpec.PumpMovesEveryoneUp | soulseek-rs-lib/src/client/upload_queue.rs:78-94 | Each place still in the queue drops by exactly the number served, and none appears |
| UploadOwners.EveryPlaceIsItsOwners | soulseek-rs-lib/src/client/upload_queue.rs:99-300 | Over every run, wherever a request is, in the queue, on offer or uploading, it is there with the peer, file, path and size it was made with |
| UploadOwners.ReleasesOnlyTheirs | soulseek-rs-lib/src/client/upload_queue.rs:288-299 | In every reachable state a release ends just the requests its peer made that wait or are on offer, and leaves every other as it was |
| UploadOffers.ExpiresExactlyWhen | soulseek-rs-lib/src/client/upload_queue.rs:249-278 | In every reachable state the look for stale offers ends a request exactly when its offer has stood for the whole timeout since the pump that sent it, without an answer, and leaves every other as it was |
| UploadOffers.ExpiredOnlyIfLapsed | soulseek-rs-lib/src/client/upload_queue.rs:249-284 | Over every run, a request is expired only if at some event its offer had so lapsed |
| UploadOffers.AnsweredNeverExpires | soulseek-rs-lib/src/client/upload_queue.rs:280-284 | A request whose offer was answered never expires, whatever happens after: it is served, released with its peer, or still on offer |
| UploadQueue.Scheduler.PumpUploads | soulseek-rs-lib/src/client/upload_queue.rs:126-153 | The loop's offers and new state are those of the specification |
| UploadQueue.Scheduler.PlaceInQueue | soulseek-rs-lib/src/client/upload_queue.rs:78-94 | The place told is one more than the number of entries served before it |
| UploadQueue.Scheduler.UploadsInFlight | soulseek-rs-lib/src/client/upload_queue.rs:182-201 | Offers and streaming uploads count against the slots, finished ones do not |
| UploadQueue.Scheduler.ReleaseUploadSlots | soulseek-rs-lib/src/client/upload_queue.rs:288-299 | Everything of that peer is released and nothing else, and the answer says whether there was anything |
| UploadQueue.Scheduler.SpawnServe | soulseek-rs-lib/src/client/uploads.rs:109-136 | An offer becomes an upload without the slot being free in between; what moves where is `UploadSteps.AcceptedIsServed` |
| UploadSteps.AcceptedIsServed | soulseek-rs-lib/src/client/uploads.rs:109-136 | In every reachable state an accepted token leaves the offers and is an upload in progress of that peer, file and size; every other offer, upload and place stands, as many slots are taken, and the fate of the request that was offered it is to be served under it; any other token does nothing |
| UploadSteps.EndedFrees | soulseek-rs-lib/src/client/uploads.rs:149-183 | However an upload ends it keeps its entry and frees its slot, once, and nothing else differs |
| UploadSteps.SlotsTaken | soulseek-rs-lib/src/client/upload_queue.rs:182-201 | The slots taken are the offers and the uploads in progress |
| UploadSteps.SlotsAreSet | soulseek-rs-lib/src/client/uploads.rs:55-61 | The cap is the number asked for, at least one; what is taken stays taken |
| UploadSteps.RequestWaits | soulseek-rs-lib/src/client/upload_queue.rs:102-117 | A request goes to the end of the queue as it was made, with its peer's donor flag, and waits |
| UploadSteps.PumpOffers | soulseek-rs-lib/src/client/upload_queue.rs:126-153 | A pump lets in the first of the serve order, as many as slots are free, each under the next token with its own peer, file, path and size and as of now; nobody else's place changes |
| UploadSteps.DonorsAreRanked | soulseek-rs-lib/src/client/upload_queue.rs:234-241 | A new list of donors sets the flag of everybody waiting, and nothing else of them |
| UploadSteps.AnswerStopsTheClock | soulseek-rs-lib/src/client/upload_queue.rs:280-284 | An answer stops the clock of that offer and does nothing else |
| UploadSteps.StaleAreDropped | soulseek-rs-lib/src/client/upload_queue.rs:249-278 | An offer is dropped exactly when its clock runs and thirty seconds have passed |
| UploadSteps.ReleasedAreGone | soulseek-rs-lib/src/client/upload_queue.rs:288-299 | A release leaves nothing of that peer in the queue or on offer and keeps everybody else's in order |
| DownloadSpec.TerminalIsForever | soulseek-rs-lib/src/download_store.rs:56-77 | Whatever is done to the table, a row that has ended keeps its status until it is removed, if no other row is brought under its token |
| DownloadSpec.GoneIsGone | soulseek-rs-lib/src/download_store.rs:14-25 | A row once removed does not come back under its token |
| DownloadSpec.PausedNeedsResume | soulseek-rs-lib/src/download_store.rs:158-202 | A paused row goes on only by a resume, with the bytes it had |
| DownloadSpec.ClaimedOnce | soulseek-rs-lib/src/download_store.rs:79-101 | No run that brings one row under a token claims that row twice |
| DownloadSpec.ClaimNeedsQueued | soulseek-rs-lib/src/download_store.rs:83-93 | A claim succeeds exactly when the token's row is queued and its owner asks |
| DownloadSpec.StepOn | soulseek-rs-lib/src/download_store.rs:14-202 | Any operation, re-keying and failing a peer's queue among them, changes the row of a token only as its kind allows, never out of a terminal status, whatever tokens the other rows have |
| TableSteps.TableAfter | soulseek-rs-lib/src/download_store.rs:14-202 | Every operation on any table, exactly: which rows go, that the others stay in their order, which status each of them then has, and what comes at the end |
| TableSteps.FileAnswers | soulseek-rs-lib/src/download_store.rs:103-202 | What the caller hears of the first row for a file: a cancel hands it over unless it had ended, a pause answers whether it is paused now, a resume whether it is in progress |
| TableSteps.TokenAnswers | soulseek-rs-lib/src/download_store.rs:56-101 | Of the first row with a token: whether an update is taken, and that a claim hands the row over just when it is queued and its owner asks |
| TableSteps.NobodyAnswers | soulseek-rs-lib/src/download_store.rs:56-202 | Where there is no such row nothing is done, and the answer says so |
| DownloadSpec.FailQueuedOn | soulseek-rs-lib/src/client/downloads.rs:184-214 | A peer gone offline fails the row of a token exactly when it is queued and that peer's |
| DownloadSpec.ChannelHearsTheChanges | soulseek-rs-lib/src/download_store.rs:103-202 | Whoever operates on the table, what a row's channel is told under the lock is just what the row changed to |
| DownloadSpec.RekeyedExactlyWhen | soulseek-rs-lib/src/client/operations/transfers.rs:92-118 | A row moved to the peer's token is the one that token finds exactly when it is not the token it had and no other row keeps it; the row under the old token is gone in any case, and no third row is lost |
| DownloadSpec.ARowIsLost | soulseek-rs-lib/src/client/operations/transfers.rs:104-118 | A table whose one row is lost so |
| DownloadStore.DownloadStore.FailQueuedDownloads | soulseek-rs-lib/src/client/downloads.rs:184-214 | The loop over the doomed rows fails the row each of their tokens finds, and tells each token's channel once |
| DownloadStore.DownloadStore.UpdateDownloadTokens | soulseek-rs-lib/src/client/operations/transfers.rs:81-118 | The re-keying on the vector of rows, refused for a cancelled one |
| DownloadStore.DownloadStore.ClaimForPeer | soulseek-rs-lib/src/download_store.rs:83-101 | The claim on the vector of rows |
| DownloadStore.DownloadStore.CancelByFile | soulseek-rs-lib/src/download_store.rs:103-115 | The cancel, and the notice exactly when a row changed |
| DownloadStore.DownloadStore.FindToken | soulseek-rs-lib/src/download_store.rs:28-34 | The scan finds the first row with the token |
| Transfer.EveryRunKeeps | soulseek-rs-lib/src/peer/download_peer.rs:306-534 | Every interleaving of a worker with cancel, erase, pause, resume and the row's removal keeps: the open `.part` is what was resumed and then the peer's next bytes; the row is Completed exactly when the file was renamed; one terminal status at most is told; only a cancel ends the row while the worker runs |
| Transfer.NeverRefused | soulseek-rs-lib/src/peer/download_peer.rs:515-521 | A worker that finishes under the lock finds its row willing and its `.part` in place |
| Attempts.CompletedIsRenamed | soulseek-rs-lib/src/peer/download_peer.rs:482-525 | In every interleaving the row is Completed exactly when the `.part` was renamed, and then no `.part` is left |
| Attempts.CancelLeavesNothing | soulseek-rs-lib/src/peer/download_peer.rs:498-502 | A worker that stopped because it saw the cancel leaves neither `.part` nor final file |
| Attempts.OneEndIsTold | soulseek-rs-lib/src/peer/download_peer.rs:467-481 | The channel is told of at most one end, of none while the row has none, and of one when the worker is over, unless the row was taken out of the table |
| Attempts.TheEndToldIsTheRows | soulseek-rs-lib/src/peer/download_peer.rs:467-481 | The end told is the row's own |
| Attempts.FinishedIsTheSource | soulseek-rs-lib/src/peer/download_peer.rs:148-158 | A finished file is the peer's file exactly when the attempt began from no `.part`, one it restarts, or a prefix of the file |
| Attempts.AForeignPartIsFinished | soulseek-rs-lib/src/peer/download_peer.rs:148-158 | A run that completes and renames a file that is not the peer's |
| Attempts.PartStaysUsable | soulseek-rs-lib/src/peer/download_peer.rs:137-178 | From such a start the `.part` is one again at every moment, and the bytes written never pass the expected size |
| Attempts.EveryAttemptIsSound | soulseek-rs-lib/src/peer/download_peer.rs:123-124 | Over any number of attempts, each given up anywhere, with any chunking and faults, the `.part` stays usable and the attempt that finishes gives the peer's file |
| Attempts.UndisturbedCompletes | soulseek-rs-lib/src/peer/download_peer.rs:320-448 | From any `.part` and with any size of read, an attempt nobody cancels and no fault hits completes |
| Pauses.NothingElseFails | soulseek-rs-lib/src/peer/download_peer.rs:482-612 | Over every run in which no operation fails, nothing is closed or read empty and the row stays listed, however cancels, pauses and resumes fall, the worker never fails and is never gone; if nobody cancels it never stops, and its row is completed only as it finishes |
| Pauses.PausedWaits | soulseek-rs-lib/src/peer/download_peer.rs:532-555 | A worker that finds its row paused, before it starts, between reads or at the finish, stays as it is and looks again |
| Pauses.ResumedCompletes | soulseek-rs-lib/src/peer/download_peer.rs:532-612 | From every state such a run reaches that was not cancelled and is not paused now, the worker alone completes, with reads of any size, and the file is what was resumed and the rest of the peer's |
| Pauses.ResumeResumes | soulseek-rs-lib/src/download_store.rs:181-202 | A resume puts a paused row in progress with the bytes it had and leaves the worker where it was |
| Pauses.PausedStays | soulseek-rs-lib/src/peer/download_peer.rs:532-555 | As long as it is paused the row stays so, whatever the worker and its socket do, and the file is not finished |
| Pauses.CancelledStops | soulseek-rs-lib/src/peer/download_peer.rs:532-555 | From every state such a run reaches with its row cancelled, the worker alone stops within six of its own steps, with no final file, and with no `.part` once the canceller has erased |
| Pauses.FailsForAReason | soulseek-rs-lib/src/peer/download_peer.rs:557-612 | In every run a worker that is gone had cause: a fault of the file, a fault of the stream, a connection closed or read empty before the end, or the row taken out of the table, each under its own name |
| Pauses.FaultsEnd | soulseek-rs-lib/src/peer/download_peer.rs:557-612 | Wherever a fault strikes, the worker's next steps fail the row, tell its channel and keep the `.part` |
| Pauses.ReadBrings | soulseek-rs-lib/src/peer/download_peer.rs:167-178 | In every reachable state a read takes the file on by the peer's next bytes, as many as were read and are missing |
| Pauses.ProgressIsTold | soulseek-rs-lib/src/peer/download_peer.rs:450-463 | A report tells the row and its channel how many bytes are in the file and how many there are to be |
| Attempts.WhenACancelLeavesAPart | soulseek-rs-lib/src/client/downloads.rs:46-61 | Once the canceller has erased, a `.part` is there exactly if the worker opened it late and has not discarded it |
| Attempts.ADyingWorkerLeavesAPart | soulseek-rs-lib/src/client/downloads.rs:57-59 | A run in which that lasts for good |
| PartFile.PartFile.Open | soulseek-rs-lib/src/peer/download_peer.rs:137-165 | A `.part` shorter than the download is kept and resumed after, any other restarted, and the handle is the file the path names |
| PartFile.PartFile.Write | soulseek-rs-lib/src/peer/download_peer.rs:167-178 | Bytes past the expected size are dropped; a failed write leaves a front of them; also when the path is gone |
| PartFile.PartFile.Finish | soulseek-rs-lib/src/peer/download_peer.rs:189-202 | Renamed whole exactly when complete and the path still there, otherwise untouched, with the shortfall told |
| PartFile.PouredTwice | soulseek-rs-lib/src/peer/download_peer.rs:167-178 | How the bytes were cut into reads makes no difference to the file |
| DownloadWorker.OthersAreSteps | soulseek-rs-lib/src/download_store.rs:14-202 | Any operation of anybody else on the table is, for the worker's row and for its channel, a cancel, a pause, a resume, a removal or nothing |
| DownloadWorker.Worker.ActOnTable | soulseek-rs-lib/src/client/downloads.rs:24-100 | Done on the real table, it takes the run of the machine on by that step |
| DownloadWorker.Worker.WaitWhilePaused | soulseek-rs-lib/src/peer/download_peer.rs:532-555 | The polling loop goes on, breaks or stops as the machine does: it goes on only with the row listed and neither paused nor cancelled, breaks only with the row gone, stops only with it cancelled, and otherwise waits for as long as nobody resumes it |
| DownloadWorker.Worker.StartTransfer | soulseek-rs-lib/src/peer/download_peer.rs:306-318 | Waiting, opening and asking, with others before each step: a run of the machine, ending with the socket at the byte after the `.part` |
| DownloadWorker.Worker.Pour | soulseek-rs-lib/src/peer/download_peer.rs:167-178 | A write of what was read, whole or torn, is the machine's read, whether the path is linked or not |
| DownloadWorker.Worker.ReadDownloadStream | soulseek-rs-lib/src/peer/download_peer.rs:373-438 | The loop makes a run of the machine; what it wrote goes on from what was resumed, up to the expected size; a cancel removes the `.part` and a fault keeps it; undisturbed it completes |
| DownloadWorker.Worker.FinishOnce | soulseek-rs-lib/src/peer/download_peer.rs:492-528 | The locked section is the machine's finishing step, from every state an interleaving can reach |
| DownloadWorker.Worker.FinishTransfer | soulseek-rs-lib/src/peer/download_peer.rs:482-530 | The loop over it and the waiting make a run of the machine |
| DownloadWorker.Worker.DownloadFile | soulseek-rs-lib/src/peer/download_peer.rs:557-612 | The whole download, with anybody's operations between any two steps, makes a run of the machine and ends where that does: finished with the row completed and the file what was resumed and the rest of the peer's, stopped with the row cancelled and no file, given up, or still paused; and a usable `.part` stays one. With no fault, close or empty read it is given up only if the row left the table, and stops only if it did or was cancelled |
| PartFile.ServeFile | soulseek-rs-lib/src/peer/upload_peer.rs:70-109 | An offset past the end is refused; otherwise the rest of the file from the offset is sent, all of it on success and a front of it on cancel or on a fault of the file or the wire. The progress shown counts the offset and what was sent, except that a write that fails part-way may have put up to a buffer more on the wire |
| DownloadWorker.ResumeFromPeer | soulseek-rs-lib/src/peer/upload_peer.rs:70-109 | Both ends together, from any usable `.part`, with any reads on either side and bytes trailing on the wire: the downloader ends with the uploader's file and its row completed |
| FinishTransfer.FinishPass | soulseek-rs-lib/src/peer/download_peer.rs:482-529 | Under the lock a cancelled row loses its `.part`, or has lost it already, a paused one waits, and a complete `.part` is renamed and its row completed; renamed without being completed exactly when the row had already ended some other way |
| Utf8.DecodeEncode | soulseek-rs-lib/src/message/mod.rs:127-133 | Every string survives its encoding |
| Utf8.DecodesExactly | soulseek-rs-lib/src/message/mod.rs:127-133 | Bytes are taken as a string exactly when they are its encoding (RFC 3629, section 3): no overlong forms, no surrogates |
| Wire.CharactersAre | soulseek-rs-lib/src/message/mod.rs:188-193 | A character is written in as few bytes as its value fits into, the value being what their bits say |
| Wire.TextIs | soulseek-rs-lib/src/message/mod.rs:127-133 | Bytes that encode a string are read as it; any others as one character each, of the byte's own value |
| Messages.TakeStringOfPutString | soulseek-rs-lib/src/message/mod.rs:107-193 | A string whose length the field can hold is read back, and what follows it is left |
| Messages.TakeInt32OfLe32 | soulseek-rs-lib/src/message/mod.rs:164-203 | A 32-bit number is read back |
| Wire.NumbersAre | soulseek-rs-lib/src/message/mod.rs:164-203 | A number is written as the four bytes that stand for it, the least first, and read as what they stand for |
| Messages.Message.ReadString | soulseek-rs-lib/src/message/mod.rs:107-134 | Reading never goes past the end: a length that does gives the empty string and uses up the message |
| MessageReader.FrameComesOff | soulseek-rs-lib/src/message/mod.rs:96-105 | A body of less than 2^32 bytes, framed and followed by anything, comes off the stream whole with what follows left |
| Wire.WholeExactlyWhen | soulseek-rs-lib/src/message/message_reader.rs:67-88 | A frame comes off exactly when its length and that many bytes have come |
| Distributed.ReadsBack | soulseek-rs-lib/src/message/distributed.rs:29-129 | Every search, level (negative ones included) and root whose frame fits its length field is read back from its frame exactly when none of its strings is empty |
| Wire.ReadExactlyWhen | soulseek-rs-lib/src/message/distributed.rs:29-82 | A frame is read as a message exactly when its bytes say so, in numbers: code 3, identifier 49 and strings that end within the frame and are not empty; code 4 and a two's complement level; code 5 and a root; inside one envelope of code 93 or none, whatever stands behind |
| Wire.LayoutIs | soulseek-rs-lib/src/message/distributed.rs:82-130 | The body built says its message and has no byte more than that takes |
| Distributed.EnvelopeOpensOnce | soulseek-rs-lib/src/message/distributed.rs:39-48 | An envelope is read as what it wraps, and as nothing if that is an envelope again |
| Distributed.ParseMessageAt | soulseek-rs-lib/src/message/distributed.rs:42-82 | The pointer-moving parser computes the specified reading of what is left |
| Distributed.Build | soulseek-rs-lib/src/message/distributed.rs:82-130 | The builders lay out the documented bytes |
| MessageReader.NothingIsLost | soulseek-rs-lib/src/message/message_reader.rs:67-88 | Whatever arrives and whenever frames are taken, the frames given out and the buffer are together the bytes received, and are the same frames as splitting them all at the end gives |
| MessageReader.StreamArrives | soulseek-rs-lib/src/message/message_reader.rs:8-10 | A list of messages sent as frames, cut into any chunks and taken at any times, is read back in order: a front of it at every moment, all of it once everything has come |
| MessageReader.FramesOfMore | soulseek-rs-lib/src/message/message_reader.rs:67-88 | Splitting a stream as it comes and splitting it whole are the same |
| MessageReader.NoFrameIsLeft | soulseek-rs-lib/src/message/message_reader.rs:67-88 | What is kept back holds no whole frame |
| MessageReader.MessageReader.ExtractMessage | soulseek-rs-lib/src/message/message_reader.rs:67-88 | The first whole frame comes off the buffer, or nothing changes |
| MessageReader.MessageReader.ExtractAndParse | soulseek-rs-lib/src/client/distributed.rs:407-414 | The drain loop takes every whole frame there is, in order, and each is read as its message or found to be none |
| RegistrySpec.EveryRunKeeps | soulseek-rs-lib/src/actor/peer_registry.rs:71-203 | Over every run of registrations (each id drawn before the lock, so that they may enter out of order, and each with the capacity then in force), replacements, evictions, late notices, changes of the name an actor goes by and the actors' other steps: no more peers are held than the most the capacity has been, each entry is held by the actor made for it, which has been told neither to stop nor to retire, an entry whose actor has ended under the entry's name has its notice still queued, every other running actor has been told to go, and each actor reports once at most |
| RegistrySpec.NeverOverCapacity | soulseek-rs-lib/src/actor/peer_registry.rs:101-122 | The registry never holds more peers than a bound (at least one) that the capacity has kept to, however it was changed meanwhile |
| RegistrySpec.NoGrowthAtTheLimit | soulseek-rs-lib/src/actor/peer_registry.rs:101-122 | In every reachable state a registration at or above the capacity then in force does not make the map larger, also after the capacity was lowered |
| RegistrySpec.PlaceChangesOnlySo | soulseek-rs-lib/src/actor/peer_registry.rs:71-203 | In every reachable state a username loses its actor exactly by replacement, by being the unprotected peer with the least id in a full map, by removal, by shutdown, or by that very actor's notice: a late notice of a predecessor never costs the successor its place |
| RegistrySpec.AdmittedExactlyWhen | soulseek-rs-lib/src/actor/peer_registry.rs:101-144 | A registration takes its place exactly when its actor starts and there is room, a predecessor, or an unprotected peer |
| RegistrySpec.CaughtUpMeansAlive | soulseek-rs-lib/src/actor/peer_registry.rs:90-100 | When no notice is waiting every entry's actor is the one made for it, running and told nothing; it has not ended, exactly when it has not given its notice under another name than the entry's |
| RegistrySpec.NoZombies | soulseek-rs-lib/src/actor/peer_actor.rs:482-490 | Where peers introduce themselves by the names they are registered under, every entry's actor then is up |
| RegistrySpec.AZombie | soulseek-rs-lib/src/actor/peer_actor.rs:482-490 | A run in which a peer gives another name and goes, and its entry stays with nobody to remove it |
| RegistrySpec.OneNoticeEach | soulseek-rs-lib/src/actor/peer_actor.rs:736-805 | An actor gives one terminal notice at most, and has given it when it stops |
| RegistrySpec.RetiredEndsClean | soulseek-rs-lib/src/actor/peer_actor.rs:736-743 | Over every run: once an actor has noted its retirement, no notice of a lost or unreachable peer is ever sent for it |
| RegistrySpec.UnreachableNeverGotThrough | soulseek-rs-lib/src/actor/peer_actor.rs:752-788 | Over every run: an unreachable notice is only of an outbound dial, and its actor never was and never will be established |
| ActorSteps.WhatAnActorDoes | soulseek-rs-lib/src/actor/peer_actor.rs:736-1030 | One step of any actor, field by field, and what the client hears of it; nobody else is touched |
| ActorSteps.EstablishedExactlyWhen | soulseek-rs-lib/src/actor/peer_actor.rs:890-906 | In every run an actor is taken for established exactly when it was accepted or its dial got through |
| ActorSteps.FailureIsHeardAs | soulseek-rs-lib/src/actor/peer_actor.rs:736-786 | In every run a connection that fails is heard of once: as clean exactly when it had been retired, as unreachable exactly when it was a dial that never got through and was not retired, as lost in every other case |
| ActorSteps.WhoIsTold | soulseek-rs-lib/src/actor/peer_registry.rs:71-203 | In every reachable state the registry's operations tell an actor to retire exactly when another is registered under its name, and to stop exactly when it loses its place in another way; nobody else is told anything |
| RegistrySpec.NobodyLingers | soulseek-rs-lib/src/actor/peer_actor.rs:1020-1030 | No actor the registry has let go of is stuck: its own next steps end it, with its one notice given |
| PeerRegistry.PeerRegistry.RegisterPeerProtected | soulseek-rs-lib/src/actor/peer_registry.rs:71-144 | The map after a registration, and exactly which handles were told to stop or to retire |
| PeerRegistry.PeerRegistry.OldestIdle | soulseek-rs-lib/src/actor/peer_registry.rs:103-107 | The scan finds the unprotected peer with the least id, or that there is none |
| PeerRegistry.PeerRegistry.OnNotice | soulseek-rs-lib/src/client/operations/peers.rs:21-44 | A notice removes and stops its own actor's entry and leaves any other alone |
| PeerRegistry.PeerActor.DisconnectWithError | soulseek-rs-lib/src/actor/peer_actor.rs:736-788 | One notice at most, with the outcome the machine gives it |
| PeerRegistry.PeerActor.OnRetire | soulseek-rs-lib/src/actor/peer_actor.rs:240-265 | A dial in progress goes at once, an open connection notes its retirement |
| PeerRegistry.PeerActor.OnSetUsername | soulseek-rs-lib/src/actor/peer_actor.rs:482-490 | The name on the notice to come changes, and nothing else |

## Left out

- Sockets, threads, the filesystem and clocks: reads, writes, faults, instants and the scheduler's choices are events or arguments; a lock-held section is one step.
- Unsigned widths are written out where they matter (frame lengths, the 32-bit hash, signed levels, code widths); counters are unbounded: upload tokens, download tokens, link numbers, peer ids, arrival numbers, the count of searches in a window. That one row at most comes under a token is a precondition of the theorems about that token's row.
- Bit operations of the codec are additions, multiplications and divisions by powers of two; the writer's `held` below 2^bit makes the two agree.
- The Huffman tree is a value: an insertion rebuilds the path to its leaf, where the source follows mutable references down it.
- Converse.InflatesExactlyTheStreams: a stream here may have any complement beside a stored length, 287 or 288 literal codes and distances past the window its header names; `Strict.StrictExactlyWhen` is about streams that may not.
- Inflater.BlListToTree: lengths and codes are unbounded numbers; that the source's 32 bits hold them is `Canonical.CodesFitTheirWidth`.
- Deflater.Deflate: data of a length that the source could confuse with its empty mark, usize::MAX, is excluded; no Rust slice is that long.
- RateLimit.RateLimit.TryTake: one turn of `take`'s loop; the load of the rate before it and the sleep between turns are left to the events of a run.
- The waiting of a paused worker is repeated polling steps; the 200 ms sleeps, the stall deadline and the speeds of progress reports are not measured.
- DownloadWorker.Worker.DownloadFile: begins with a claimed row and a connection; connecting, the handshake and reading the token are left out, and so is the row's coming back under its token once it was removed. A read's size stands for the allowance of the rate limit.
- Two rows or two workers on one `.part`: a cancel of another row of the same file, or a retry started while a cancelled worker still holds its file open.
- PartFile.ServeFile: connecting, the peer-init message and reading the eight bytes of the offset are left out; the offset is an argument.
- `process_failed_uploads`: which rows it lists, under a lock of its own; that it then fails and removes a row under one lock is, for everybody else, the removal that is modelled.
- `upload_events` and `queued_uploads`, which only report; the registry handle a pump returns; `update_queue_position`.
- Distributed.ReadsBack: frames of 2^32 bytes or more, whose length field wraps around, are excluded by `Fits`.
- Server and peer messages other than the distributed ones, `read_int64`, `read_bool`, and the children and search-answering side of the tree.
- The actors' outbound queue, idle timer, retirement grace and dispatcher: when a connection closes is an event.
- Room rosters, interests, share listing and search, the audio and MD5 arithmetic, the command line, the terminal interface and the daemon.
