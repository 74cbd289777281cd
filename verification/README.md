# TGProxy in Dafny

A model of the parts of TGProxy whose behaviour is hard to see from one function, and proofs about it.
TGProxy cuts a sorted vector of 64-bit feature keys by equal key ranges, sends each slice to a model
server, and puts the replies together again; it keeps a list of model servers read from ZooKeeper; and
it brings its own MurmurHash3.

`dafny verify dfyconfig.toml` checks everything.

## How it is modelled

| module | what it models | form |
|---|---|---|
| `Bits`, `Bytes` | 32- and 64-bit words that wrap around, with an inverse for every operation of the hash; little-endian loads | functions on `bv32`/`bv64` |
| `BlockHash` | any hash that absorbs a key block by block: what follows if its round and its finish can be undone | functions over a scheme of functions |
| `MurmurX86`, `MurmurX86Quad`, `MurmurX64` | the three MurmurHash3 variants: body loop, fall-through tail switch, finalization, writing `out` | methods over arrays, each proved equal to the recursive form |
| `Slicer` | `KeyRange` and `RangeSlicer`, with `std::lower_bound` as a binary search | class with loops |
| `Urls` | a model server's URL, and the partition number at its end, written and read back | functions |
| `Transfers` | `MultiCURL`: create, add, finish, remove, call back; drains nested in a removal; `EventHub::register_event`, and an event loop of timers | a system of steps with a stack of outstanding callbacks, functions for what a timer does, and a class that is proved against both |
| `Postman` | `TGProxyPostman`: one request from its check to its answer | class over `Slicer` and `Transfers` |
| `Session` | the ZooKeeper handle under its recursive mutex: threads that run small programs instruction by instruction, in any interleaving | a system of steps, and class `ZK` |
| `Listing` | fetching the children with retries, sorting by strcmp, filtering | methods with loops |
| `Membership` | the cached server list: node versions, a one-shot watch, events, sessions lost and opened, and fetch and install as separate steps of the updates that the two watchers and the refresh loop run | a system of steps |
| `Cluster` | `TGPClusterAdmin`: the update and the round-robin pick | class |
| `Split`, `UrlParams` | `split` and the choice of a handler on top of it; `replace_url_param_value` | methods against functions |

A method that changes state is proved against a function or a step of the system beside it, and the
theorems are about those functions and about all runs of those steps.

What is taken as given:

- The platform is little-endian; `len` is a non-negative C `int` and the key has that many bytes.
- Where a theorem says so, the keys come range by range (`Slicer.Grouped`), as sorted keys do. `RangeSlicer`
  relies on it, `checkRequest` does not check it, and `Slicer.SlicedByOwnerIffGrouped` and
  `Postman.ServedByOwnerIff` say that nothing less will do.
- `std::lower_bound` halves its window, and takes the upper half if the key in the middle is smaller. On keys
  that are not partitioned at the value the C++ standard leaves its result undefined; what is said here
  about such keys is about this search.
- In `Postman.ScatterGather` every model server answers 200 and "ok" with one weight per key. The code
  does not compare the number of weights with the number of keys: `Postman.GatherOkIff` says what it
  then returns, and `Postman.LinedUpIffLengthsMatch` when that still lines up with the keys.
- libcurl reports a transfer as done once, and its calls back into `MultiCURL` come at any time, also
  while a handle is being added or removed.
- What happens in a registration and in the event loop is given as timers (`Transfers.Burst`): each says which
  transfers the library is done with then, and what fires inside the removals that follow. A timer inside a
  removal that does not come about does not fire, and a message for a transfer that is not running is none.
- ZooKeeper serves a fetch from the current version of the node and sets the watch in the same step; a
  watch fires once. Children of one node are the same whatever the order they are sent in.
- The ZooKeeper client runs all watchers of a session on one thread. It never gives a new handle the address
  of one that an event on its way still names: handles are numbered afresh in `Session`, and compared by
  number.
- A weight is an opaque value, and a host name any string.

## Where the code falls short of what it seems to promise

Each of these is stated as an exact condition, or shown by a concrete run.

- Keys in the top `max % range + 1` of the key space belong to no range. They get no weight, and there is
  an error only if the request has no other key (`Slicer.UncoveredTop`, `Slicer.AllSlicedIffBelowTop`,
  `Postman.ErrorIffNothingServed`, `Slicer.LargestKeyIsDropped`).
- A request whose keys do not come range by range is accepted, and some key below the top is then dropped
  or scored by a partition that does not own it (`Postman.ServedByOwnerIff`, `Slicer.KeyAfterTopIsDropped`).
- A reply with too many or too few weights moves the weight of some key; a total that is right does not
  help (`Postman.LinedUpIffLengthsMatch`, `Postman.UnevenRepliesExample`).
- A registration that libcurl refuses is only logged. Its handle is never deleted, and the request is
  answered with an error after the event loop (`Transfers.AllServed`, `Postman.LostIsError`).
- `slice` leaves stale slices in a reused output vector wherever the new slice is empty
  (`Slicer.ReuseIffCleared`, `Slicer.StaleSliceSurvives`).
- Callbacks need not come in the order in which the transfers finished. They do exactly if no timer fires
  inside `curl_multi_remove_handle` (`Transfers.OrderIffInTurn`, `Transfers.NestedReverses`).
- An update can be overtaken between its fetch and its install, and then an old list stays cached with
  nothing pending. That can still happen exactly as long as some update holds a list other than the last
  one fetched (`Membership.StaleIffHeld`, `Membership.OverlapIsStale`). It takes the refresh loop: the
  watchers run on one thread, and if the loop begins no update the cache is fresh
  (`Membership.WatchersAloneAreFresh`). A connected event's update is never overtaken, because it holds
  the session's mutex until its install (`Membership.ConnectedNeverOvertaken`).
- The loop's stop-then-start is refused as "running" if the initial start slips in between
  (`Session.EarlyLoopIsRefused`, `Session.RefusalIffUnsettled`).
- The round-robin repeats a position before the round is over when the 64-bit counter wraps inside the
  round, unless the number of addresses divides 2^64 (`Cluster.RoundIff`).
- The comment at TGProxy/proxy/tgp_proxy_handler_factory.h:43 says the first piece of a URL is empty; the
  code does not check it, so text before the first slash is accepted (`Split.OnRequest`,
  `Split.TextBeforeSlashIsAccepted`).
- A parameter value with an '&' is not overwritten whole the next time (`UrlParams.ExactLastWins`). A
  missing parameter is written so that it can be read and overwritten exactly if its first match, once it
  is appended, is where it was appended; a name without '=' always is (`UrlParams.LastWriteWinsIff`,
  `UrlParams.WriteIsReadIff`, `UrlParams.PlainIsExact`, `UrlParams.EqualsInNameLoses`).
- The parameter that is found can be another one whose name ends like the one asked for. It is the right one
  exactly if the match comes at the start or right after a '?' or an '&' (`UrlParams.ChangesOwnIff`,
  `UrlParams.EndOfNameMatches`).

## Model

| member | source | states |
|---|---|---|
| `Bits.FmixCancels64` | TGProxy/tiangan/murmur_hash3.cc:81-90 | fmix64 is a permutation of the 64-bit words, with an explicit inverse in both directions |
| `Bits.FmixCancels32` | TGProxy/tiangan/murmur_hash3.cc:68-77 | fmix32 is a permutation of the 32-bit words; its middle shift needs a longer inverse |
| `Bits.FmixInPlace64` | TGProxy/tiangan/murmur_hash3.cc:81-90 | the five statements, run in order, compute that permutation |
| `Bits.FmixInPlace32` | TGProxy/tiangan/murmur_hash3.cc:68-77 | the five statements, run in order, compute that permutation |
| `Bits.LaneUndone64` | TGProxy/tiangan/murmur_hash3.cc:277-283 | one lane of a round is a bijection of the lane for fixed mixed word and added lane |
| `Bits.LaneSolved64` | TGProxy/tiangan/murmur_hash3.cc:277-283 | for any two lane values exactly one mixed word leads from one to the other |
| `Bits.LaneUndone32` | TGProxy/tiangan/murmur_hash3.cc:178-192 | the same for the 32-bit lanes and their four rotations |
| `Bits.LaneSolved32` | TGProxy/tiangan/murmur_hash3.cc:178-192 | the same for the 32-bit lanes and their four rotations |
| `Bits.RotlGoesLeft64` | TGProxy/tiangan/murmur_hash3.cc:39-42 | the rotations by 27, 31 and 33 multiply by the power of two and add the bits that left at the top |
| `Bits.RotlGoesLeft32` | TGProxy/tiangan/murmur_hash3.cc:34-37 | the same for the 32-bit rotations by 13, 15, 16, 17, 18 and 19 |
| `Bytes.Gathered64` | TGProxy/tiangan/murmur_hash3.cc:294-314 | falling through all case labels of one tail word builds its little-endian value |
| `Bytes.LoadInjective64` | TGProxy/tiangan/murmur_hash3.cc:60-63 | a word determines the eight, possibly padded, bytes it was loaded from |
| `BlockHash.EachByteOnce` | TGProxy/tiangan/murmur_hash3.cc:258-289 | body and tail together take every byte of the key once, in order, and nothing else: absorbing by appending gives the key back |
| `BlockHash.SplitAligned` | TGProxy/tiangan/murmur_hash3.cc:270-289 | the body of a key continues across any aligned point from the state reached there, and the tail is that of the rest |
| `BlockHash.BodyUndone` | TGProxy/tiangan/murmur_hash3.cc:270-284 | over any number of blocks the body is a bijection of the state, if the round can be undone |
| `BlockHash.HashUndone` | TGProxy/tiangan/murmur_hash3.cc:255-332 | for a fixed key the whole hash is a bijection of the initial state |
| `BlockHash.CollideIffStatesMeet` | TGProxy/tiangan/murmur_hash3.cc:255-332 | keys of one length that share all bytes after an aligned point collide exactly when their states had met there already |
| `BlockHash.OneBlockDecides` | TGProxy/tiangan/murmur_hash3.cc:255-332 | changing one aligned block, anywhere, always changes the hash |
| `BlockHash.TailDecides` | TGProxy/tiangan/murmur_hash3.cc:255-332 | changing the tail at the same length always changes the hash |
| `BlockHash.BlockBijective` | TGProxy/tiangan/murmur_hash3.cc:255-332 | every hash value is reached by exactly one choice of one aligned block |
| `MurmurX64.RoundUndone` | TGProxy/tiangan/murmur_hash3.cc:272-284 | a round can be undone, from the second lane to the first, for known block words |
| `MurmurX64.RoundSolved` | TGProxy/tiangan/murmur_hash3.cc:272-284 | between any two states there is exactly one pair of block words |
| `MurmurX64.FinishUndone` | TGProxy/tiangan/murmur_hash3.cc:289-331 | tail mixing, length mixing and finalization are a bijection of the state |
| `MurmurX64.TailWordsInjective` | TGProxy/tiangan/murmur_hash3.cc:291-314 | the two mixed tail words determine the tail of a given length |
| `MurmurX64.BlockTheorem` | TGProxy/tiangan/murmur_hash3.cc:255-332 | for every seed and length: two keys that differ only inside one aligned 16-byte block have different 128-bit hashes, and each value is the hash of exactly one choice of that block |
| `MurmurX64.TailTheorem` | TGProxy/tiangan/murmur_hash3.cc:255-332 | two keys of one length that differ only in the tail have different hashes |
| `MurmurX64.SeedTheorem` | TGProxy/tiangan/murmur_hash3.cc:255-332 | one key has different hashes under different seeds |
| `MurmurX64.KnownAnswers` | TGProxy/tiangan/murmur_hash3.cc:255-332 | with the seed of the feature hash: the 128 bits for the byte 0x61, and for the bytes 0 to 30, which are a block and a tail that needs both words |
| `MurmurX64.TailSwitch` | TGProxy/tiangan/murmur_hash3.cc:289-314 | the fall-through switch mixes in the tail as one zero-padded block, without the round step |
| `MurmurX64.BodyRound` | TGProxy/tiangan/murmur_hash3.cc:274-283 | one iteration of the loop, statement by statement, is the invertible round |
| `MurmurX64.BodyLoop` | TGProxy/tiangan/murmur_hash3.cc:258-289 | the loop visits the blocks in ascending order and leaves the bytes after the last whole block as the tail |
| `MurmurX64.Finalize` | TGProxy/tiangan/murmur_hash3.cc:319-328 | the finalization statements complete the invertible finish |
| `MurmurX64.MurmurHash3_x64_128` | TGProxy/tiangan/murmur_hash3.cc:255-332 | the function writes the hash of exactly key[0..len) to the first two words of out and nothing else |
| `MurmurX86.RoundSolved` | TGProxy/tiangan/murmur_hash3.cc:110-121 | between any two states there is exactly one block word |
| `MurmurX86.BlockTheorem` | TGProxy/tiangan/murmur_hash3.cc:94-146 | the block theorem for aligned 4-byte blocks and 32-bit hashes |
| `MurmurX86.TailTheorem` | TGProxy/tiangan/murmur_hash3.cc:94-146 | two keys of one length that differ only in the last len % 4 bytes have different hashes |
| `MurmurX86.SeedTheorem` | TGProxy/tiangan/murmur_hash3.cc:94-146 | for a fixed key, seed and hash determine each other |
| `MurmurX86.KnownAnswer` | TGProxy/tiangan/murmur_hash3.cc:94-146 | with the same seed: the 32 bits for the bytes 0 to 6, a block and a tail of three bytes |
| `MurmurX86.TailSwitch` | TGProxy/tiangan/murmur_hash3.cc:126-136 | the fall-through switch mixes in the zero-padded tail word, and nothing for an empty tail |
| `MurmurX86.BodyLoop` | TGProxy/tiangan/murmur_hash3.cc:97-126 | with the block pointer after the last block and a negative index, the blocks are still visited in ascending order |
| `MurmurX86.MurmurHash3_x86_32` | TGProxy/tiangan/murmur_hash3.cc:94-146 | the function writes the hash of exactly key[0..len) to the first word of out and nothing else |
| `MurmurX86Quad.RoundUndone` | TGProxy/tiangan/murmur_hash3.cc:171-193 | the four-lane round, in which each lane reads its neighbour and the last reads the new first, can be undone |
| `MurmurX86Quad.RoundSolved` | TGProxy/tiangan/murmur_hash3.cc:171-193 | between any two states there is exactly one quadruple of block words |
| `MurmurX86Quad.SpreadUndone` | TGProxy/tiangan/murmur_hash3.cc:236-237 | the cross additions of the four lanes are a bijection |
| `MurmurX86Quad.FinishUndone` | TGProxy/tiangan/murmur_hash3.cc:198-250 | tail mixing, length mixing and finalization are a bijection of the four lanes |
| `MurmurX86Quad.BlockTheorem` | TGProxy/tiangan/murmur_hash3.cc:150-251 | the block theorem for the four-lane variant |
| `MurmurX86Quad.TailTheorem` | TGProxy/tiangan/murmur_hash3.cc:150-251 | the tail theorem for the four-lane variant |
| `MurmurX86Quad.SeedTheorem` | TGProxy/tiangan/murmur_hash3.cc:150-251 | one key has different hashes under different seeds |
| `MurmurX86Quad.KnownAnswer` | TGProxy/tiangan/murmur_hash3.cc:150-251 | with the same seed: the 128 bits for the bytes 0 to 30 |
| `MurmurX86Quad.TailSwitch` | TGProxy/tiangan/murmur_hash3.cc:198-229 | the fifteen-label fall-through switch mixes in the tail as one zero-padded block, without the round step |
| `MurmurX86Quad.SpreadInPlace` | TGProxy/tiangan/murmur_hash3.cc:236-237 | the six addition statements, in order, are that bijection |
| `MurmurX86Quad.BodyLoop` | TGProxy/tiangan/murmur_hash3.cc:153-198 | with a negative index the blocks are visited in ascending order, four words each |
| `MurmurX86Quad.MurmurHash3_x86_128` | TGProxy/tiangan/murmur_hash3.cc:150-251 | the function writes the hash of exactly key[0..len) to the first four words of out and nothing else |
| `Slicer.BoundFits` | TGProxy/tiangan/slicer.h:41-44 | no range bound overflows 64 bits, for any range count |
| `Slicer.RangesTile` | TGProxy/tiangan/slicer.h:40-45 | the ranges are contiguous, of one size, start at 0 and end at (max/range)*range |
| `Slicer.OneRangeOwns` | TGProxy/tiangan/slicer.h:40-45 | a key lies in range i exactly if key / (max/range) is i, and in some range exactly if it is below the top |
| `Slicer.UncoveredTop` | TGProxy/tiangan/slicer.h:40-45 | exactly max % range + 1 keys, at most range of them, lie in no range |
| `Slicer.LowerBound` | TGProxy/tiangan/slicer.h:56-59 | the binary search loop behind std::lower_bound ends where its recursive form does, for any keys |
| `Slicer.LowerBoundSplits` | TGProxy/tiangan/slicer.h:56-59 | on keys partitioned at the value, as sorted ones are, it splits the window into the keys below the value and the rest |
| `Slicer.RangeSlicer.constructor` | TGProxy/tiangan/slicer.h:40-45 | the loop builds the tiling, with wrap-around multiplication, and nothing for a count that is not positive |
| `Slicer.RangeSlicer.SlicePositions` | TGProxy/tiangan/slicer.h:50-63 | the moving begin and the running sums write the cuts of a chain of searches, and nothing without ranges |
| `Slicer.RangeSlicer.Slice` | TGProxy/tiangan/slicer.h:65-84 | each slice is the keys between two cuts, or what the output vector held there if the two are equal |
| `Slicer.CutsAscend` | TGProxy/tiangan/slicer.h:50-63 | for any keys, sorted or not, the first position is 0 and the positions never fall or pass the end |
| `Slicer.SlicesConcat` | TGProxy/tiangan/slicer.h:65-84 | for any keys, the slices put together are the keys before the last cut: none is duplicated or reordered |
| `Slicer.CutIsCount` | TGProxy/tiangan/slicer.h:50-63 | on keys that come range by range the one-pass chain refines the simple form: position i counts the keys below the start of range i |
| `Slicer.SliceIsOwned` | TGProxy/tiangan/slicer.h:65-84 | on such keys slice i is exactly the in-order subsequence of the keys range i owns |
| `Slicer.SlicedByOwnerIffGrouped` | TGProxy/tiangan/slicer.h:65-84 | for any keys: every slice is that subsequence exactly if the keys come range by range |
| `Slicer.AllSlicedIffBelowTop` | TGProxy/tiangan/slicer.h:65-84 | keys that come range by range are all sliced exactly if none lies in the uncovered top |
| `Slicer.LargestKeyIsDropped` | TGProxy/tiangan/slicer.h:40-45 | the largest key is in no slice, whatever the range count |
| `Slicer.KeyAfterTopIsDropped` | TGProxy/tiangan/slicer.h:50-63 | the request 5, MAX, 3 with one range, of which only 5 is sliced |
| `Slicer.ReuseIffCleared` | TGProxy/tiangan/slicer.h:76-83 | a reused output vector gives the fresh result exactly if it held nothing where the new slice is empty |
| `Slicer.StaleSliceSurvives` | TGProxy/tiangan/slicer.h:72-74 | a slice that survives a call with no keys |
| `Urls.StoiOfDecimal` | TGProxy/postman/tgp_postman.cc:218-246 | std::stoi reads back what std::to_string wrote, or reports that it does not fit an int |
| `Urls.TagRoundTrip` | TGProxy/postman/tgp_postman.cc:214-250 | whatever the host, the model name and the version contain, the callback reads out of a URL the partition it was built for, or std::stoi throws if that does not fit an int |
| `Urls.StoiOfSigned` | TGProxy/postman/tgp_postman.cc:218-219 | a sign may come before the number and anything but a digit after it |
| `Urls.StoiSkipsSpace` | TGProxy/postman/tgp_postman.cc:218-219 | white space before it is skipped; any other character that is not a digit or a sign makes std::stoi throw |
| `Urls.UrlPieces` | TGProxy/postman/tgp_postman.cc:230-250 | taken apart at its slashes, a URL is the host, "1", the model's name and version and the partition, in this order, if none of them holds a slash |
| `Urls.UrlExample` | TGProxy/postman/tgp_postman.cc:230-250 | "10.0.0.1:80/1/ctr/v3/12" |
| `Transfers.StepKeeps` | TGProxy/tiangan/curl_helper.h:243-332 | every operation keeps the invariant: the queue holds the finished handles and the stack those that wait for their callback, once each, and every handle's history has the right shape |
| `Transfers.HandleLife` | TGProxy/tiangan/curl_helper.h:243-332 | in every run, also with drains nested in removals, a one-shot handle is created, added, removed, called back and deleted once, in this order, and never touched again; a recycled handle is never deleted |
| `Transfers.QuietMeansCalledBack` | TGProxy/tiangan/curl_helper.h:283-332 | when nothing is being transferred, the queue is drained and no callback is outstanding, every transfer added has been removed and called back |
| `Transfers.OneShotRun` | TGProxy/tiangan/curl_helper.h:302-332 | in any one-shot run every deleted handle was called back exactly once, with the URL it was created for |
| `Transfers.MessagesConserved` | TGProxy/tiangan/curl_helper.h:302-332 | the messages called back, those of removed handles and the queue are together exactly the messages the library finished |
| `Transfers.CompleteOneShots` | TGProxy/tiangan/event_hub.h:45-69 | in a complete one-shot run the callbacks are exactly one per registered URL and receive exactly the finished messages |
| `Transfers.OrderIffInTurn` | TGProxy/tiangan/curl_helper.h:311-345 | over all one-shot runs: at most one callback is outstanding and the messages called back, outstanding and queued are the finished ones in their order, if and only if no timer has fired inside a removal |
| `Transfers.CalledInOrderIffInTurn` | TGProxy/tiangan/curl_helper.h:311-345 | with no callback outstanding, the callbacks have come in the order in which the transfers finished exactly if no timer has fired inside a removal |
| `Transfers.InTurnKeepsOrder` | TGProxy/tiangan/curl_helper.h:311-331 | one half of it, from any state: without a timer inside a removal, the line only grows at its end |
| `Transfers.NestedReverses` | TGProxy/tiangan/curl_helper.h:325-345 | a run in which a timer fires inside a removal and two callbacks come in the other order |
| `Transfers.FireServes` | TGProxy/tiangan/curl_helper.h:335-355 | when the timer fires, every running transfer the library is done with is called back, with the first message for it, and its handle is gone unless it is recycled |
| `Transfers.NestedServes` | TGProxy/tiangan/curl_helper.h:311-345 | so is every transfer the library is done with when a timer fires inside a removal |
| `Transfers.DrainCompletes` | TGProxy/tiangan/curl_helper.h:311-331 | whoever waits in the queue is called back when it is drained, whatever timers fire meanwhile |
| `Transfers.FireRunsOn` | TGProxy/tiangan/curl_helper.h:335-355 | a transfer for which no timer mentions a message goes on |
| `Transfers.AllServed` | TGProxy/tiangan/event_hub.h:45-69 | after registrations and an event loop no handle is left if every one was accepted and a timer inside its registration or later brought its message; and only if every one was accepted and its message is mentioned there |
| `Transfers.AllServedIff` | TGProxy/tiangan/event_hub.h:45-69 | if no timer brings a message inside a removal, no handle is left exactly if every registration was accepted and its message was brought inside it or later |
| `Transfers.CalledIsMentioned` | TGProxy/tiangan/event_hub.h:45-69 | every callback receives a message that some timer brought |
| `Transfers.MultiCURL.Create` | TGProxy/tiangan/curl_helper.h:243-281 | makes a new handle, not yet with the library, and touches no other: the log grows by this step |
| `Transfers.MultiCURL.Add` | TGProxy/tiangan/curl_helper.h:283-292 | hands an idle handle to the library, which may refuse it; one that is already there is refused |
| `Transfers.MultiCURL.RegisterEvent` | TGProxy/tiangan/event_hub.h:63-69 | creates a one-shot handle with a callback and adds it |
| `Transfers.MultiCURL.RemoveFirst` | TGProxy/tiangan/curl_helper.h:312-325 | reads the first message and removes its handle, whose callback is then outstanding; nothing else changes |
| `Transfers.MultiCURL.CallBackLast` | TGProxy/tiangan/curl_helper.h:326-329 | calls back the handle removed last, and deletes it unless it is recycled |
| `Transfers.MultiCURL.SocketAction` | TGProxy/tiangan/curl_helper.h:335-355 | the timer makes the library finish transfers and drains the queue: the whole new state is that of `Fire`, whose queue is empty and which has called back all that was finished |
| `Transfers.MultiCURL.CheckMultiInfo` | TGProxy/tiangan/curl_helper.h:302-332 | drains the queue, with what fires inside each removal: the whole new state is that of `Drain` |
| `Postman.CheckIff` | TGProxy/postman/tgp_postman.cc:21-75 | a request is accepted exactly if it lists features, all uint64, the postman then holds at least one, and the request's count, if given and not -1, is how many it holds; the features are taken over in order |
| `Postman.CheckReason` | TGProxy/postman/tgp_postman.cc:21-75 | which complaint each kind of unacceptable request gets |
| `Postman.TGProxyPostman.CheckRequest` | TGProxy/postman/tgp_postman.cc:21-75 | accepts exactly those requests, reports the first complaint otherwise, and leaves the features before a bad one in place |
| `Postman.TGProxyPostman.PushFeatures` | TGProxy/postman/tgp_postman.cc:50-59 | the loop pushes the features up to the first that is not a uint64 |
| `Postman.RegisteredIsFiled` | TGProxy/postman/tgp_postman.cc:199-228 | for a URL built for a partition in range, std::stoi does not throw, the range assertion holds, and a 200 reply is filed under that partition; for any other partition the assertion fails, or std::stoi throws |
| `Postman.TableIsCalls` | TGProxy/postman/tgp_postman.cc:199-228 | in every run, over or not, a partition holds the body of its own reply if that has come and was a 200 reply, and otherwise nothing |
| `Postman.TableIsReplies` | TGProxy/postman/tgp_postman.cc:77-114 | in a complete run, whatever the interleaving of registrations, completions and drains, each registered partition got exactly one reply and holds it |
| `Postman.ScatterGather` | TGProxy/postman/tgp_postman.cc:77-283 | for keys that come range by range, as sorted ones do, and every healthy run, in every reply order, the answer lists in the original order the score of every key below the top, by its owning partition |
| `Postman.AllAnsweredIffBelowTop` | TGProxy/postman/tgp_postman.cc:252-283 | every key of such a request is answered at its own position exactly if there is a key and none lies in the uncovered top |
| `Postman.AnsweredByOwnerIff` | TGProxy/postman/tgp_postman.cc:252-283 | for any request, sorted or not: every key is answered at its own position by its own partition exactly if there is a key, the keys come range by range, and none lies in the uncovered top |
| `Postman.ServedByOwnerIff` | TGProxy/postman/tgp_postman.cc:252-283 | for any request: the answer is the local one for the keys below the top, each by its own partition and in the request's order, exactly if the keys come range by range |
| `Postman.ErrorIffNothingServed` | TGProxy/postman/tgp_postman.cc:274-278 | with healthy replies, a request whose keys come range by range is answered with an error exactly if no key lies below the top |
| `Postman.UnansweredIsError` | TGProxy/postman/tgp_postman.cc:262-266 | a partition with keys whose reply has not come, or was not a 200 reply, makes the answer an error |
| `Postman.HealthyRunExists` | TGProxy/postman/tgp_postman.cc:77-283 | such a run exists for every key vector and every list of hosts |
| `Postman.ArrivedIsComplete` | TGProxy/postman/tgp_postman.cc:77-114 | if the library accepts every slice's transfer and is done with it while it is registered, or later, or in the event loop, then no transfer is left |
| `Postman.ArrivalsAreHealthy` | TGProxy/postman/tgp_postman.cc:77-283 | if the replies that arrive so are all healthy, what was done is a healthy run |
| `Postman.ArrivalsAreServed` | TGProxy/postman/tgp_postman.cc:77-283 | hence for keys that come range by range the answer is the local one for the keys below the top |
| `Postman.LostIsError` | TGProxy/postman/tgp_postman.cc:252-266 | if a slice's transfer is not accepted, or no reply to it is mentioned from then on, the answer is an error |
| `Postman.DecodeIff` | TGProxy/postman/tgp_postman.cc:163-197 | a reply is used exactly if its reason is "ok" and all its weights are doubles, which are then taken over in order |
| `Postman.DecodeReason` | TGProxy/postman/tgp_postman.cc:163-197 | a reply with another reason is refused with that reason; and what is said of a reply that does not parse, lacks the fields, or holds a weight that is not a double |
| `Postman.FirstComplaint` | TGProxy/postman/tgp_postman.cc:256-272 | the answer is the complaint of the first partition that has keys and no usable reply |
| `Postman.GatherOkIff` | TGProxy/postman/tgp_postman.cc:256-272 | gathering succeeds exactly if the reply of every non-empty slice decodes; the number of weights is then whatever the replies held |
| `Postman.LinedUpIffLengthsMatch` | TGProxy/postman/tgp_postman.cc:256-272 | the gathered weights line up with the keys exactly if every non-empty slice's reply has as many weights as the slice has keys |
| `Postman.UnevenRepliesExample` | TGProxy/postman/tgp_postman.cc:256-272 | replies of two, no and one weight for one key each: the total is right and the second key gets a weight of the first partition |
| `Postman.TGProxyPostman.RegisterSlices` | TGProxy/postman/tgp_postman.cc:85-111 | registers one URL per non-empty slice, in ascending order, each with what the library says to it and what arrives inside it: the whole new state of the transfers is that of `AfterSlices` |
| `Postman.TGProxyPostman.TransferRequest` | TGProxy/postman/tgp_postman.cc:77-114 | cuts the features, over whatever slices were there, and registers exactly the non-empty ones |
| `Postman.TGProxyPostman.DecodeMSWeights` | TGProxy/postman/tgp_postman.cc:163-197 | appends the weights of an "ok" reply whose weights are all doubles, and says what is wrong otherwise |
| `Postman.TGProxyPostman.CollectWeights` | TGProxy/postman/tgp_postman.cc:256-283 | puts the weights together in partition order, or reports the first complaint in that order |
| `Postman.TGProxyPostman.AnswerRequest` | TGProxy/postman/tgp_postman.cc:252-283 | runs the event loop, which delivers all of `rest`, and answers from the table that leaves |
| `Postman.TGProxyPostman.Express` | TGProxy/postman/tgp_postman.cc:77-283 | a whole request on a fresh postman: whatever libcurl accepts and completes, what was done is a run that registers the slices and lets everything arrive, and the answer is the answer of its table; if all arrives, the run is complete, and if all is healthy and the keys come range by range, the answer is the local one |
| `Session.StepKeeps` | TGProxy/cluster/tgp_zookeeper.cc:43-82 | every step of every thread, and so every interleaving, keeps mutual exclusion, the depth of the recursive mutex, and the data as the holder's next instruction needs it |
| `Session.OneOpenHandle` | TGProxy/cluster/tgp_zookeeper.cc:43-82 | in every interleaving, whenever the mutex is free, zzh_ is null exactly if every handle opened is closed and otherwise is the one that is not; no handle is closed twice |
| `Session.StaleIffClosed` | TGProxy/cluster/tgp_zk_watcher.cc:28-46 | the stale check is exact: an event is turned away exactly if its handle has been closed, and a watcher closes only its own handle |
| `Session.StaleChangesNothing` | TGProxy/cluster/tgp_zk_watcher.cc:28-46 | in no run does a watcher whose handle was closed before its check ever change the session, whatever the other threads do |
| `Session.NeverRefusedAgain` | TGProxy/cluster/tgp_cluster_admin.cc:72-76 | from a settled state on, no start is ever refused as running |
| `Session.RefusalIffUnsettled` | TGProxy/cluster/tgp_cluster_admin.cc:72-76 | once the initial start has returned, a start can still be refused exactly if the loop is between its stop and its start while a handle is there or being opened |
| `Session.EarlyLoopIsRefused` | TGProxy/cluster/tgp_cluster_admin.cc:72-76 | a run in which the loop's start is refused although the initial start has returned |
| `Session.WatcherAlone` | TGProxy/cluster/tgp_zk_watcher.cc:20-47 | undisturbed, an expired event of the current handle replaces it by a new one, and any other event leaves the session alone |
| `Session.RestartAlone` | TGProxy/cluster/tgp_cluster_admin.cc:74-75 | undisturbed, stop-then-start closes the handle and opens a new one if zookeeper_init does, in the loop and in the watcher |
| `Session.LoopAlone` | TGProxy/cluster/tgp_cluster_admin.cc:61-79 | undisturbed, a round of the loop leaves a connected session alone, and stops and starts any other, also one that has a handle but is not connected |
| `Session.ZK.StartZk` | TGProxy/cluster/tgp_zookeeper.cc:43-71 | opens a handle if there is none; returns 0 exactly if that worked and one of six polls says connected; a start that gives up waiting keeps its handle |
| `Session.ZK.FinalizeZk` | TGProxy/cluster/tgp_zookeeper.cc:73-82 | closes the handle, if any, and forgets it |
| `Session.ZK.IsConnected` | TGProxy/cluster/tgp_zookeeper.cc:104-119 | true exactly if there is a handle and its state is connected |
| `Session.ZK.ZkWatcher` | TGProxy/cluster/tgp_zk_watcher.cc:20-47 | does what its program does when run alone, and updates the list exactly on a connected event of the current handle |
| `Session.ZK.LoopRound` | TGProxy/cluster/tgp_cluster_admin.cc:61-79 | does what the loop's program does when run alone, and updates the list exactly if the session is connected |
| `Listing.FirstDifferenceDecides` | TGProxy/cluster/tgp_zookeeper.cc:292-297 | strcmp orders two names by the first position where they differ, and a name before its continuations |
| `Listing.SortedUnique` | TGProxy/cluster/tgp_zookeeper.cc:292-297 | names have one sorted order by strcmp, so it does not matter how qsort sorts |
| `Listing.ListingExact` | TGProxy/cluster/tgp_zookeeper.cc:377-408 | the listing is the one sorted list of exactly the names that hold a ':', each as often as it occurs |
| `Listing.ListingIgnoresOrder` | TGProxy/cluster/tgp_zookeeper.cc:350-357 | the order in which the server sends the children does not matter |
| `Listing.ListingExample` | TGProxy/cluster/tgp_zookeeper.cc:377-408 | of "b:2", "seq" and "a:1" the listing is "a:1", "b:2" |
| `Listing.DecidingIsFirst` | TGProxy/cluster/tgp_zookeeper.cc:351-370 | the first of three answers that is not retried decides a fetch, and if all are retried it has failed |
| `Listing.FetchedIff` | TGProxy/cluster/tgp_zookeeper.cc:342-371 | a fetch of a non-empty path succeeds, or finds no node, exactly if an answer says so and those before it are invalid-state or marshalling errors |
| `Listing.ZkWgetChdnodes` | TGProxy/cluster/tgp_zookeeper.cc:342-371 | the retry loop returns that answer's code, with the children sorted, and a parameter error for an empty path |
| `Listing.GetChdnodes` | TGProxy/cluster/tgp_zookeeper.cc:377-408 | returns the exact listing; if it is empty it reports success and leaves the caller's list alone |
| `Membership.StepKeeps` | TGProxy/cluster/tgp_cluster_admin.cc:82-111 | every step, of any thread, keeps the invariant: the latest fetch is current and watched, or an event or an unfetched update will make up for it; no fetched list gets lost; the cache is the last install |
| `Membership.ClosedIsSilent` | TGProxy/cluster/tgp_zookeeper.cc:73-82 | in every run, without a session no event is on its way and no watch is set |
| `Membership.CachedIsSomeListing` | TGProxy/cluster/tgp_cluster_admin.cc:94-108 | even with overlapping updates and lost sessions, the cached list is empty exactly before the first install, and afterwards is sorted, holds only addresses, and is the whole listing of one version of the node |
| `Membership.NeverEmptyAgain` | TGProxy/cluster/tgp_cluster_admin.cc:94-97 | a list once cached is never lost |
| `Membership.QuietIsFresh` | TGProxy/cluster/tgp_zk_watcher.cc:11-18 | no change is lost: with a session, no event pending, no update under way and a latest fetch that worked, that fetch got the current children; and if the last install was of the last fetched list, their listing is cached |
| `Membership.StaleIffHeld` | TGProxy/cluster/tgp_cluster_admin.cc:89-108 | seen before the installs: some order of the installs still to come leaves another list cached than the last one fetched exactly if an update holds another list, or none holds any and another one is cached already |
| `Membership.StaleListingIffHeld` | TGProxy/cluster/tgp_cluster_admin.cc:89-108 | the same for the listing of the current children: some completion leaves another list cached exactly if an update holds one, or one is cached already and none is held |
| `Membership.SerialIsFresh` | TGProxy/cluster/tgp_cluster_admin.cc:82-111 | with updates that do not overlap, the cached list then is the listing of the current children, or, if that is empty, the last non-empty listing |
| `Membership.WatchersAloneAreFresh` | TGProxy/cluster/tgp_zk_watcher.cc:11-40 | so it is in every run in which the refresh loop begins no update |
| `Membership.ConnectedNeverOvertaken` | TGProxy/cluster/tgp_zk_watcher.cc:29-40 | in every run at most one watcher's and one loop's update are under way, and the list a connected event's update holds is the last one fetched |
| `Membership.OverlapIsStale` | TGProxy/cluster/tgp_cluster_admin.cc:65-71 | for any two different non-empty listings there is a run, in which the child watcher's update overtakes the loop's, that comes to rest with the older one cached |
| `Cluster.TGPClusterAdmin.UpdateModelServerList` | TGProxy/cluster/tgp_cluster_admin.cc:82-111 | installs the exact listing of a fetch that worked and was not empty; otherwise reports failure and keeps the list |
| `Cluster.TGPClusterAdmin.GetOneMsAddr` | TGProxy/cluster/tgp_cluster_admin.cc:113-122 | counts on, with wrap-around, and returns the address at that position; without addresses it returns "" and does not count |
| `Cluster.UpdateAlone` | TGProxy/cluster/tgp_cluster_admin.cc:82-111 | an update that nothing overlaps leaves in the step system what the method leaves, whether its fetch works or fails |
| `Cluster.FairShare` | TGProxy/cluster/tgp_cluster_admin.cc:119-121 | until the counter wraps, each of n positions is picked m / n times in m calls, and exactly the next m % n positions once more |
| `Cluster.RoundIff` | TGProxy/cluster/tgp_cluster_admin.cc:119-121 | n calls in a row pick each of n positions once exactly if the counter does not wrap among them, or wraps at their start, or n divides 2^64 |
| `Split.Split` | TGProxy/utils/tgp_utils.cc:11-23 | the loop computes the recursive split: the piece after the last delimiter is always pushed, even if it is empty |
| `Split.SplitInterleaves` | TGProxy/utils/tgp_utils.cc:11-23 | for any set of delimiters: the pieces hold none, are one more than the delimiters in the text, and make it up with them in between |
| `Split.SplitUnique` | TGProxy/utils/tgp_utils.cc:11-23 | and there is only one such way to take a text apart |
| `Split.JoinOfSplit` | TGProxy/utils/tgp_utils.cc:11-23 | with one delimiter, joining what split gives yields the text again |
| `Split.SplitOfJoin` | TGProxy/utils/tgp_utils.cc:11-23 | splitting a join of pieces without the delimiter yields the pieces again |
| `Split.OnRequest` | TGProxy/proxy/tgp_proxy_handler_factory.h:29-60 | a model's handler is chosen, with its name and version, exactly for the URLs that end in a slash, the name, a slash and the version, with no other slash |
| `Split.TwoSlashes` | TGProxy/proxy/tgp_proxy_handler_factory.h:41-59 | some model is chosen exactly if the URL has two slashes and its last two pieces are not empty |
| `Split.TextBeforeSlashIsAccepted` | TGProxy/proxy/tgp_proxy_handler_factory.h:43-54 | "x/m/v" names the model m |
| `UrlParams.ReplaceUrlParamValue` | TGProxy/tiangan/curl_helper.h:36-61 | exchanges the first match's value or appends the parameter |
| `UrlParams.FoundChangesOnlyValue` | TGProxy/tiangan/curl_helper.h:52-60 | with a match, all text outside the first match's value stays |
| `UrlParams.ChangesOwnIff` | TGProxy/tiangan/curl_helper.h:37-40 | the first match is the parameter itself, and not the end of another one's name, exactly if it comes at the start or right after a '?' or an '&', and the name asked for holds neither |
| `UrlParams.EndOfNameMatches` | TGProxy/tiangan/curl_helper.h:37-40 | setting id in "/p?uid=5" changes uid |
| `UrlParams.AppendsToQuery` | TGProxy/tiangan/curl_helper.h:40-50 | a missing parameter is appended after an '&' if the URL holds a '?', and otherwise after a '?'; it is then the parameter of that name, if this holds neither |
| `UrlParams.WriteIsReadIff` | TGProxy/tiangan/curl_helper.h:36-61 | every value written is read back, up to its first '&', exactly if the parameter is there, or its first match once it is appended is where it was appended |
| `UrlParams.LastWriteWinsIff` | TGProxy/tiangan/curl_helper.h:36-61 | for exactly these URLs and names, writing a value without '&' and then another equals writing the other only |
| `UrlParams.ExactLastWins` | TGProxy/tiangan/curl_helper.h:36-61 | for these, the last write wins exactly if the first value holds no '&' |
| `UrlParams.PlainIsExact` | TGProxy/tiangan/curl_helper.h:40-50 | a parameter whose name holds no '=' is always one of these |
| `UrlParams.EqualsInNameLoses` | TGProxy/tiangan/curl_helper.h:40-50 | a missing parameter with an '=' in its name that is not, and for which the last write does not win |

## Left out

- JSON and INI parsing and printing, reading files: requests and replies are datatypes already parsed, with the field checks of `checkRequest` and `decodeMSWeights` kept. A document that is not a JSON object is not part of this model.
- Encoding a slice or the weights as JSON, and the branch for a slice that encodes to nothing (TGProxy/postman/tgp_postman.cc:97-101), which the encoder cannot produce.
- The inside of libcurl, libevent, proxygen and the ZooKeeper client: they are steps that may happen at any time.
- `Transfers.MultiCURL.Add`: clearing the handle's receive buffers, a message carries its reply; and a handle that is added again after its removal but before its callback, which only another handle's callback could do.
- `Transfers.MultiCURL.CallBackLast`: the error text of a handle; a callback that itself registers transfers, which this program's does not, acts here right after the deletion.
- `Postman.TGProxyPostman.Express`: a postman used for a second request, which the program never does; the two-second timeout and the end of the event loop are real time.
- The host of a URL is a parameter: the static fallback list and the configuration behind `get_ms_list`.
- Waiting, sleeping and real time: `zookeeper_close`, joins, the ten minutes of the refresh loop; the polls of `start_zk` are a list of answers.
- `Session.StepKeeps`: the last stop when the process shuts down, an empty ZooKeeper address, and the wait for the connection inside `start_zk`, which leaves the data alone.
- `Membership.QuietIsFresh`: a server that answers from an old version of the node; the model's fetches see the current one.
- `Cluster.TGPClusterAdmin.UpdateModelServerList`: the two locks, between whose holdings other threads run; `Membership` has fetch and install as separate steps, and `Cluster.UpdateAlone` connects the two.
- `hash_feature` and `hash_u64`, which keep half of the 128 bits, so nothing is claimed for them; `parse_mpath`, a stub.
- Buffers whose words are not aligned, and big-endian platforms, for the hash's block reads.
- Logging, `main`, the handler for wrong paths, statistics, finding the local address, the C interface, `EasyCURL`, tables of state names, and the helpers that create, read and write nodes: thin or easy.
