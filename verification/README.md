# Verified models of Offset's protocols

Offset is a payment network built on mutual credit between friends. This project models the parts of it whose
correctness is hardest to see from the code, and proves what they promise for every input, every run and every
reachable state:

* the **secure channel** between two nodes, with user traffic and rekeying in any interleaving,
* the **token channel**, in which two friends pass a signed token back and forth over a lossy link and keep mirrored
  accounts, on top of the real **mutual credit** operations,
* the **multi-route** split of a payment, its optimality, and the fee rates it rests on,
* the **nonce window** and the **nonce counter** of the encryptor and decryptor,
* the **seq map** that feeds an index server, the **listen pool** with its access control, the polling combinators
  **select streams** and **overwrite channel**, and the **keepalive** timers.

`dafny verify dfyconfig.toml` checks the whole project.

## How it is modelled

* Cryptography is symbolic. A box opens exactly under the key and nonce it was sealed with; a Diffie-Hellman secret is
  the unordered pair of exponents; hashes and signatures are injective, so a token contains its predecessor.
* Randomness, clocks and the network are parameters: every draw, tick, delivery, loss and answer of a stream is an
  arbitrary input of a run.
* Machine integers have their widths: balances are `i128`, amounts and counters `u128`, nonces 12 bytes, window words
  64 bits, fee rates 32-bit fixed point. Where the code uses big integers, so does the model.
* Code that updates fields or runs loops is a class or a method with a loop, proved against a specification function;
  the theorems are about the specification.
* A hash map or set is visited in any order.

Files: `SymEncrypt`, `Dh`, `ScState`, `ScProtocol` (secure channel); `MutualCredit`, `TokenTransitions`,
`TokenChannel`, `TokenRun` (token channel); `Rate`, `MultiRoute`; `NonceWindow`; `SeqMap`; `AccessControl`,
`ListenPool`; `SelectStreams`; `OverwriteChannel`; `Keepalive`; `Wrappers` and `Integers` are shared.

## Where the code and its comments disagree

The model follows the code.

* `SeqMap::next` is documented to return every pair of the last reset within the countdown, whatever is updated or
  removed meanwhile. It can miss one (`SeqMap.CountdownCanMissAKey`). `SeqMap.CycleCoversIff` says exactly which keys
  a cycle hands out, for any calls; `SeqMap.UpdatedKeyCoveredIff` says it in terms of what the caller does after the
  last update of a key; and `SeqMap.Coverage` says what always holds.
* `Rate::max_payable` is documented as a maximum. It can be one credit too low (`Rate.MaxPayableIsNotAlwaysMaximal`);
  `Rate.MaxPayableBounds` says exactly when.
* `set_local_addresses` says that local relays admit all friends. A relay that exists when it becomes local is not
  brought up to date (`ListenPool.LocalCanLackAFriend`), and a friend updated while there is no address for it, neither
  its own nor a local one, is forgotten (`ListenPool.LocalCanForgetAFriend`). `ListenPool.LocalAdmitsAllIff` gives the
  exact condition, with both guards.
* A decryptor accepts a prefix of the encrypted messages only up to 2^96 messages per key
  (`SymEncrypt.DecryptorAcceptsPrefixIff`).

## Model

| member | source | states |
|---|---|---|
| SymEncrypt.IncreaseNonce | components/crypto/src/sym_encrypt.rs:23-30 | the carry loop adds one, modulo 256 to the length, to the number the bytes spell |
| SymEncrypt.EncodeSpells | components/crypto/src/sym_encrypt.rs:23-30 | the little-endian encoding spells the number modulo 256 to the length |
| SymEncrypt.SpellsInjective | components/crypto/src/sym_encrypt.rs:23-30 | byte strings of one length that spell the same number are equal |
| SymEncrypt.EncryptNonceCounter.NextNonce | components/crypto/src/sym_encrypt.rs:44-49 | returns the encoding of the current count and advances it with wrap-around |
| SymEncrypt.DrawNonces | components/crypto/src/sym_encrypt.rs:36-49 | for any number of draws, the k-th nonce is the little-endian encoding of k |
| SymEncrypt.NoncesRepeatOnlyAfterWrap | components/crypto/src/sym_encrypt.rs:23-49 | two draws give the same nonce if and only if their numbers agree modulo 2^96 |
| SymEncrypt.FirstNoncesDistinct | components/crypto/src/sym_encrypt.rs:23-49 | the first 2^96 nonces are pairwise distinct |
| SymEncrypt.Encryptor.Encrypt | components/crypto/src/sym_encrypt.rs:81-93 | seals under the next nonce and advances the cipher |
| SymEncrypt.Decryptor.Decrypt | components/crypto/src/sym_encrypt.rs:113-129 | opens exactly the next expected message; any other leaves the decryptor unchanged |
| SymEncrypt.DecryptsOwnStream | components/crypto/src/sym_encrypt.rs:81-129 | decrypting an encrypted stream gives back the plain messages, then goes on where the stream ended |
| SymEncrypt.ReplayAcceptedAfterWrap | components/crypto/src/sym_encrypt.rs:113-129 | after 2^96 or more messages an old message is accepted once more |
| SymEncrypt.DecryptorAcceptsPrefixIff | components/crypto/src/sym_encrypt.rs:81-129 | whatever genuine messages are fed in any order, what is accepted is a prefix of what was encrypted, if and only if fewer than 2^96 were encrypted |
| Dh.KeysAgree | components/crypto/src/dh.rs:29-58 | each side's sending key is the other side's receiving key |
| ScState.ScState.constructor | components/secure_channel/src/state.rs:151-172 | the finished handshake state |
| ScState.ScState.Encrypt | components/secure_channel/src/state.rs:182-197 | seals under the sender and advances it, leaving the rest alone |
| ScState.ScState.Decrypt | components/secure_channel/src/state.rs:199-213 | tries the old receiver first, drops it at the first message of the new one, changes nothing on failure |
| ScState.ScState.CreateOutgoing | components/secure_channel/src/state.rs:226-235 | a user message under the current sender |
| ScState.ScState.StartRekey | components/secure_channel/src/state.rs:253-274 | refuses while a rekey is pending, otherwise sends one and remembers it |
| ScState.ScState.ReceiveRekey | components/secure_channel/src/state.rs:276-333 | answers or completes a rekey, with new streams and the old receiver kept |
| ScState.ScState.Receive | components/secure_channel/src/state.rs:336-350 | a user message or a rekey, or an error without a state change |
| ScState.SecureChannelLoop | components/secure_channel/src/secure_channel.rs:106-200 | the event loop writes and delivers what the specification of its events says, and what it did is a run from the start with a full countdown |
| ScState.LoopRuns | components/secure_channel/src/secure_channel.rs:145-197 | what the loop did is a run: one state before each event and one after the last, each a step from the one before |
| ScState.RekeyWhenDue | components/secure_channel/src/secure_channel.rs:154-191 | in every run, counted from the start or from the last rekey sent or received, a tick writes exactly one rekey if `ticksToRekey` ticks went before it and none is pending, and otherwise nothing |
| ScState.FailureIsFinal | components/secure_channel/src/secure_channel.rs:106-200 | once an event failed the loop has failed |
| ScState.HandshakeAcceptsIff | components/secure_channel/src/state.rs:74-172 | whoever sends the two messages, an endpoint arises if and only if the first names the expected key, where there is one, and the second carries our nonce and is signed over it by the key the first named |
| ScProtocol.HandshakeSucceedsIff | components/secure_channel/src/state.rs:74-172 | the handshake succeeds if and only if each side is the one the other wants; then the streams match |
| ScProtocol.StepKeepsInv | components/secure_channel/src/state.rs:199-349 | from any state satisfying the invariant every allowed step succeeds and keeps the invariant |
| ScProtocol.RunKeepsInv | components/secure_channel/src/state.rs:199-349 | every state of every run satisfies the invariant |
| ScProtocol.EveryDeliveryDecrypts | components/secure_channel/src/state.rs:199-349 | in every run, with any interleaving of sends, ticks and rekeys, every message in flight decrypts on arrival |
| ScProtocol.DeliveredExactlyOnceInOrder | components/secure_channel/src/state.rs:226-349 | delivered user messages followed by those in flight are exactly the sent ones, in order |
| ScProtocol.EpochsStayTogether | components/secure_channel/src/state.rs:253-333 | epochs differ by at most one, and each side sent one rekey per epoch it left plus a pending one, the i-th under the key of epoch i |
| ScProtocol.QuietChannelsAgree | components/secure_channel/src/state.rs:253-333 | with both channels empty nothing is pending, the epochs agree, and each sender equals the peer's receiver in key and nonce |
| MutualCredit.CheckedAddUnsigned | components/common/src/safe_arithmetic.rs:35-42 | adding in three halves fails if and only if the sum does not fit `i128` |
| MutualCredit.CheckedSubUnsigned | components/common/src/safe_arithmetic.rs:44-50 | subtracting in three halves fails if and only if the difference does not fit `i128` |
| MutualCredit.QueueEffect | components/funder/src/mutual_credit/outgoing.rs:48-296 | on a sound credit queueing never panics, and replaying its mutations has the stated effect on balance, debts and pending transactions |
| MutualCredit.QueueKeepsSound | components/funder/src/mutual_credit/outgoing.rs:48-296 | when a request fits, pending debts stay the sums of the frozen transactions and balances stay in range |
| MutualCredit.ProcessMirrorsQueue | components/funder/src/mutual_credit/incoming.rs:96-392 | the receiver accepts an operation if and only if the sender could queue it and it fits; it never panics, and both sides mirror each other afterwards |
| MutualCredit.ProcessAllMirrorsQueueAll | components/funder/src/mutual_credit/incoming.rs:70-94 | the same for every list of operations, whoever made it |
| MutualCredit.RefusedIffFault | components/funder/src/mutual_credit/incoming.rs:96-392 | a sound credit takes an operation if and only if it has none of the faults, each stated in the fields of the credit and of the pending transaction; a refusal names a fault that is there |
| MutualCredit.QueueRefusesFault | components/funder/src/mutual_credit/outgoing.rs:48-296 | what the sender refuses to queue, it refuses for a fault the receiver would find |
| MutualCredit.AcceptedTells | components/funder/src/mutual_credit/incoming.rs:113-392 | an accepted request is cancelled if and only if balance, remote pending debt, payment and fees together exceed the limit; a response, cancel or collect is told with the transaction stored under its id |
| MutualCredit.ListTells | components/funder/src/mutual_credit/incoming.rs:70-94 | in every accepted list each operation is told about in order, and right after each request that is passed on balance plus remote pending debt is within the limit |
| MutualCredit.MirrorInvolution | components/funder/src/mutual_credit/types.rs:71-81 | mirroring a credit twice gives it back |
| TokenTransitions.BalancesMirror | components/proto/src/funder/messages.rs:941-977 | flipping the balances of one side gives the balances of the mirrored side |
| TokenTransitions.CanonicalUnique | components/funder/src/token_channel.rs:596-611 | a sorted list with the map's entries is the canonical one, so visiting order does not matter |
| TokenChannel.CollectBalances | components/funder/src/token_channel.rs:596-611 | collecting in any order and sorting gives the canonical balances |
| TokenChannel.ProcessOperationsList | components/funder/src/mutual_credit/incoming.rs:70-94 | the mutations replay to the credit the operations lead to; the k-th message is the one due for the k-th operation, a request within the limit or its cancellation; the first error is reported |
| TokenChannel.TokenChannel.Mutate | components/funder/src/token_channel.rs:388-445 | applies one mutation to the channel |
| TokenChannel.TokenChannel.OpenCredits | components/funder/src/token_channel.rs:552-570 | opens a credit for every currency active on both sides, and the returned mutations replay to that |
| TokenChannel.TokenChannel.SimulateSend | components/funder/src/token_channel.rs:521-642 | the token, its info and mutations that replay to the channel after sending, or the error; the channel itself is unchanged |
| TokenChannel.TokenChannel.SimulateMatch | components/funder/src/token_channel.rs:683-863 | in good order the waiting side takes or refuses any next token without a panic, with mutations that replay to the new channel |
| TokenChannel.TokenChannel.SimulateReceive | components/funder/src/token_channel.rs:476-519 | for every token, of whatever origin: the holder answers duplicate if and only if it agrees in every field with the token held, else inconsistency; the waiting side answers inconsistency if and only if the token neither follows its own nor is what its own follows, retransmits in the second case, and takes up only what the remote side signed |
| TokenTransitions.HolderAnswers | components/funder/src/token_channel.rs:501-519 | whatever its origin, a token is a duplicate for the holder if and only if its old token, operations, relays, currencies, nonce and new token are those held; every other one is an inconsistency |
| TokenTransitions.HolderKnowsOneToken | components/funder/src/token_channel.rs:501-519 | among the tokens the remote side signed exactly the one that was received is a duplicate |
| TokenTransitions.WaiterAnswers | components/funder/src/token_channel.rs:654-672 | the waiting side goes on with a token that follows its own, sends its own again if and only if it follows the token shown, and answers inconsistency if and only if neither holds |
| TokenTransitions.ReceivedOnlyIf | components/funder/src/token_channel.rs:683-863 | a token is taken up only if the remote side signed it, it follows ours and it was hashed over the resulting balances; its relays are reported, its currencies recorded, and no credit is closed |
| TokenTransitions.OperationsTell | components/funder/src/token_channel.rs:745-800 | everything in a token that is taken up is told about in order, each list under its currency and against the limit configured for it, or zero |
| TokenTransitions.AddedCreditIsNew | components/funder/src/token_channel.rs:419-443 | a credit is only added for a currency that both sides declared, replaces none and changes nothing else |
| TokenRun.ReceivedIffHonest | components/funder/src/token_channel.rs:654-863 | a waiting side in good order takes up a token, of whatever origin, if and only if it is the one the honest holder would send for the same order, its requests fit and the counter is not exhausted |
| TokenRun.ReceiveNeverPanics | components/funder/src/token_channel.rs:683-863 | a waiting side in good order panics on no token whatsoever, of whatever origin |
| TokenRun.MatchingTokenFindsGood | components/funder/src/token_channel.rs:654-672 | in every run a token that follows ours finds us in good order |
| TokenRun.ReceiveMirrorsSend | components/funder/src/token_channel.rs:521-863 | what the holder sends the waiting side receives, and then the receiver is the holder that mirrors the sender |
| TokenRun.SetOutgoingSends | components/funder/src/token_channel.rs:402-411 | recording the signed token after the mutations of a send turns the channel into the waiting side the runs speak of |
| TokenRun.ReceiveRefuses | components/funder/src/token_channel.rs:683-863 | otherwise it is refused for a request that does not fit or for a counter at its maximum |
| TokenRun.NewPairHeld | components/funder/src/token_channel.rs:231-259 | two new channels agree on who holds the token |
| TokenTransitions.NewChannelKnows | components/funder/src/token_channel.rs:231-259 | a new channel knows which key is its own and which the other side's, waits if and only if its key is the lower one, and has no accounts |
| TokenRun.ResetsMirror | components/funder/src/token_channel.rs:269-347 | the two reset constructors build a waiting side and the holder that mirrors it |
| TokenRun.StepKeepsInv | components/funder/src/token_channel.rs:476-863 | sending, resending, delivering and losing tokens keep the invariant |
| TokenRun.EveryDeliveryIsUnderstood | components/funder/src/token_channel.rs:501-519 | in every run over lossy channels a delivery fails if and only if it carries a request that does not fit or exhausts the counter; otherwise it is received, a duplicate or a reminder |
| TokenRun.HolderMirrorsWaiter | components/funder/src/token_channel.rs:654-672 | at most one side holds the token, it agrees with the other on it, and all accounts are mirrored: balances negated, debts swapped and backed by pending transactions |
| TokenRun.CurrenciesInUse | components/funder/src/token_channel.rs:66-68 | in every reachable state the credits are exactly those of the currencies active on both sides |
| TokenRun.SendFailsOnlyByFault | components/funder/src/token_channel.rs:521-594 | in every run a send fails exactly when it drops a currency in use, names one that is not, or queues a refused operation |
| TokenRun.WaitingSidesRecover | components/funder/src/token_channel.rs:654-672 | when both sides wait, one token is the next one whatever was lost, and delivering it passes the token on |
| TokenRun.TokenGetsThrough | components/funder/src/token_channel.rs:654-672 | in every run in which both sides wait, whatever was lost, a reminder by either side and the deliveries it brings about lead to a state in which one side holds the token and mirrors the other, unless that token is one to refuse |
| Rate.CalcFee | components/proto/src/funder/messages.rs:651-655 | fails if and only if the fee exceeds `u128`; otherwise the proportional part is rounded down by less than one credit |
| Rate.FeeAlwaysFits | components/proto/src/funder/messages.rs:651-655 | for every rate and payment it does not fail |
| Rate.MaxPayableBounds | components/proto/src/funder/messages.rs:666-678 | everything up to the result fits with its fee, nothing above the result plus one does, and the result is the maximum exactly when the division leaves at most `mul` |
| Rate.MaxPayableIsNotAlwaysMaximal | components/proto/src/funder/messages.rs:657-678 | a concrete rate and capacity for which one more credit would fit |
| Rate.NothingPayable | components/proto/src/funder/messages.rs:666-678 | below the flat fee nothing fits, and the result is zero |
| MultiRoute.SortRoutes | components/route/src/multi_route.rs:43-57 | lists every route once with its capacity, largest first |
| MultiRoute.FillAmount | components/route/src/multi_route.rs:13-37 | no answer if and only if there is no route or the amount exceeds the total; otherwise how many routes and what is left to spread |
| MultiRoute.SpreadAmount | components/route/src/multi_route.rs:60-86 | the backwards loop gives each route its share, and the shares add up |
| MultiRoute.SafeMultiRouteAmounts | components/route/src/multi_route.rs:43-87 | an answer if and only if there is a route and the amount is at most the sum of what the routes can carry; then distinct routes pay it exactly, level, with room for their fees; without an answer, no split leaves every route it uses room for one credit more with its fee |
| MultiRoute.PayableBounds | components/route/src/multi_route.rs:49-57 | everything up to what a route is taken to carry fits its capacity with the fee, and nothing above the next credit does; below the flat fee it is zero and nothing fits |
| MultiRoute.RoomySuffices | components/route/src/multi_route.rs:13-57 | routes with a split of the amount that leaves each used route room for one credit more with its fee are never turned down |
| MultiRoute.ValidChoiceCoversFees | components/route/src/multi_route.rs:43-87 | each used route's capacity covers its part and the fee on it |
| MultiRoute.SpreadIsLevel | components/route/src/multi_route.rs:59-86 | leftovers of chosen routes differ by at most one and are no less than any other route's capacity |
| MultiRoute.LevelIsOptimal | components/route/src/multi_route.rs:59-86 | no other split of the amount has a smaller largest leftover |
| MultiRoute.LevelIsSafest | components/route/src/multi_route.rs:39-42 | every other split drains some route it uses at least as far as any route the choice uses |
| MultiRoute.ChooseMultiRoute | components/route/src/multi_route.rs:90-103 | the first multi-route that suffices, with a safe split; without an answer no multi-route has a split with room for one credit more on each route it uses |
| NonceWindow.ShiftLeft | components/crypto/src/nonce_window.rs:86-108 | shifting the word vector shifts the one bit string it stands for, for every count |
| NonceWindow.NonceWindow.Set | components/crypto/src/nonce_window.rs:70-82 | sets exactly one bit of the bit string and returns its old value |
| NonceWindow.NonceWindow.TryAccept | components/crypto/src/nonce_window.rs:45-67 | accepts if and only if the nonce was never accepted and, with the width added, exceeds the highest accepted one; the window then records it |
| NonceWindow.OfferAll | components/crypto/src/nonce_window.rs:27-67 | the verdicts on any sequence of nonces offered to a new window; one of width 0 fails on the first offer and takes none |
| NonceWindow.NoNonceTwice | components/crypto/src/nonce_window.rs:38-44 | in no sequence is a nonce accepted twice |
| NonceWindow.FirstOfferAccepted | components/crypto/src/nonce_window.rs:38-44 | a nonce offered for the first time is accepted unless one at least the width higher came before |
| NonceWindow.AcceptedIff | components/crypto/src/nonce_window.rs:38-67 | in every sequence a nonce is accepted if and only if it was not offered before and none at least the width higher was |
| NonceWindow.HighestOffered | components/crypto/src/nonce_window.rs:45-67 | the highest accepted nonce is the highest offered one |
| SeqMap.SeqMap.constructor | components/index_client/src/seq_map.rs:18-31 | queues every key once, in any order, with a full countdown |
| SeqMap.SeqMap.Update | components/index_client/src/seq_map.rs:33-39 | stores the value, moves the key to the back, returns the previous value and keeps the invariant |
| SeqMap.SeqMap.Remove | components/index_client/src/seq_map.rs:41-46 | removes key and queue entry, returns the previous value and keeps the invariant |
| SeqMap.SeqMap.ResetCountdown | components/index_client/src/seq_map.rs:48-50 | restarts the countdown at the number of keys |
| SeqMap.SeqMap.Next | components/index_client/src/seq_map.rs:61-71 | nothing if and only if the map is empty; otherwise the key at the front of the queue, which goes to the back, with its current value, so the lookup never fails |
| SeqMap.ApplyKeepsInv | components/index_client/src/seq_map.rs:33-71 | every call keeps the queue a duplicate-free listing of the keys, with all keys not mentioned since the reset within the countdown |
| SeqMap.RunKeepsInv | components/index_client/src/seq_map.rs:18-71 | the same after every sequence of calls, resets included |
| SeqMap.Coverage | components/index_client/src/seq_map.rs:52-71 | for every sequence of calls, replaying the log since the reset gives a sub-map, and exactly the map once the countdown is 0; every key of the reset was then returned, updated or removed |
| SeqMap.ReturnedUnlessChanged | components/index_client/src/seq_map.rs:52-71 | a key of the reset that was neither updated nor removed has been returned when the countdown is 0 |
| SeqMap.ResetStartsCycle | components/index_client/src/seq_map.rs:48-50 | whatever was called before, what follows the last reset of a run is a cycle |
| SeqMap.CycleCoversIff | components/index_client/src/seq_map.rs:52-71 | in a complete cycle of any calls a key is handed out during the countdown if and only if it was before the call that last concerns it, or at some moment after that its place is below the countdown |
| SeqMap.LeftAloneIsCovered | components/index_client/src/seq_map.rs:52-71 | a key of the reset that no call updates or removes is handed out during the countdown |
| SeqMap.UpdatedKeyCoveredIff | components/index_client/src/seq_map.rs:33-71 | a key whose last concerning call updates it is handed out during the countdown if and only if it was before, or while the countdown runs enough keys before it are updated or removed to make up for the countdown being shorter than the queue |
| SeqMap.UpdatedThenOnlyNextIff | components/index_client/src/seq_map.rs:33-71 | with only `next` after the update: if and only if it was before or the countdown is as long as the queue |
| SeqMap.InsertThenUpdateMisses | components/index_client/src/seq_map.rs:33-71 | for every map, inserting a key and updating one of the reset makes the countdown miss the updated key |
| SeqMap.CountdownCanMissAKey | components/index_client/src/seq_map.rs:52-71 | a concrete cycle in which the documented promise fails |
| AccessControl.AllowedIff | components/common/src/access_control.rs:26-40 | an item is allowed if and only if it was added and not removed later |
| AccessControl.AccessControl.ApplyOp | components/common/src/access_control.rs:26-35 | adds or removes the item |
| ListenPool.ListenPoolState.SetLocalAddresses | components/channeler/src/listen_pool_state.rs:30-58 | keeps the relays still needed, returns all their friends and each local address without a relay once |
| ListenPool.ListenPoolState.UpdateFriend | components/channeler/src/listen_pool_state.rs:66-129 | enters the friend at the given and local relays, drops it elsewhere, and returns exactly the relays to tell or to spawn |
| ListenPool.ListenPoolState.RemoveFriend | components/channeler/src/listen_pool_state.rs:133-158 | drops the friend and relays no longer needed, and returns the relays to tell |
| ListenPool.ListenPool.SpawnListen | components/channeler/src/listen_pool.rs:86-96 | the new listener lets in exactly the given friends |
| ListenPool.ListenPool.HandleConfig | components/channeler/src/listen_pool.rs:150-219 | state, messages and spawned listeners together reach the specified pool |
| ListenPool.ListenPool.HandleRelayClosed | components/channeler/src/listen_pool.rs:221-229 | the relay waits for the backoff; an unknown relay is ignored |
| ListenPool.ListenPool.HandleTimerTick | components/channeler/src/listen_pool.rs:231-255 | waiting relays count down, and those at zero get a listener with their current friends |
| ListenPool.ListenPoolLoop | components/channeler/src/listen_pool.rs:258-315 | the event loop ends in the specified pool, which satisfies the invariant |
| ListenPool.UpdateKeepsInv | components/channeler/src/listen_pool_state.rs:66-129 | after an update the friend is admitted at exactly the given and the local relays, and the invariant holds |
| ListenPool.RemoveKeepsInv | components/channeler/src/listen_pool_state.rs:133-158 | after a removal the friend is admitted nowhere, and the invariant holds |
| ListenPool.RunKeepsInv | components/channeler/src/listen_pool.rs:150-255 | after any events each listener lets in exactly its relay's friends, every local address has a relay, and every other relay has a friend |
| ListenPool.ClosedRelayReturns | components/channeler/src/listen_pool.rs:221-255 | whatever else happens, a closed relay that stays in the pool waits for exactly the backoff, tick by tick, and then has a listener again |
| ListenPool.FriendKept | components/channeler/src/listen_pool_state.rs:30-158 | until the next config for a friend it stays admitted where it was, and a friend admitted nowhere stays out |
| ListenPool.RecordedIff | components/channeler/src/listen_pool_state.rs:66-129 | in every run a friend is recorded at some relay if and only if there was an address for it, its own or a local one, at its last update |
| ListenPool.SetLocalAdmits | components/channeler/src/listen_pool_state.rs:30-58 | after new local addresses a relay that was there admits whom it did, and a new one every recorded friend |
| ListenPool.LocalAdmitsAllIff | components/channeler/src/listen_pool_state.rs:50-57 | after any events and new local addresses all of them admit all configured friends if and only if there are none, or every configured friend had an address at its last update and every local relay that existed admitted all of them |
| ListenPool.LocalCanLackAFriend | components/channeler/src/listen_pool_state.rs:50-57 | two friends at two relays, of which the one made local does not admit the other friend |
| ListenPool.LocalCanForgetAFriend | components/channeler/src/listen_pool_state.rs:66-129 | a friend updated without an address is not admitted at the first local relay |
| SelectStreams.SelectStreams.PollNext | components/common/src/select_streams.rs:30-56 | polls the streams in queue order, each at most once, up to the first item |
| SelectStreams.CallAnswers | components/common/src/select_streams.rs:35-55 | over if and only if all streams are over, an item if and only if some stream has one, pending only after polling all |
| SelectStreams.CallKeepsStreams | components/common/src/select_streams.rs:35-55 | a call loses no stream that is not over, adds none, and keeps them apart |
| SelectStreams.NothingLost | components/common/src/select_streams.rs:30-56 | after any number of calls exactly the items each stream answered with were handed out, in order |
| SelectStreams.NewFaithful | components/common/src/select_streams.rs:59-63 | a new combinator satisfies the invariant of `NothingLost` |
| SelectStreams.ReadyStreamServed | components/common/src/select_streams.rs:30-56 | a stream that always has an item, at queue position p, is served within p + 1 calls, all of which hand out an item |
| OverwriteChannel.OverwriteChannel.Receive | components/channeler/src/overwrite_channel.rs:34-53 | the receiver is asked unless it is over; a new item replaces the held one; without one the receiver has no answer left, is over or just said that there is nothing |
| OverwriteChannel.OverwriteChannel.Send | components/channeler/src/overwrite_channel.rs:55-68 | the held item is offered to the sink: it is taken, stays held, or the channel fails |
| OverwriteChannel.OverwriteChannel.Poll | components/channeler/src/overwrite_channel.rs:31-75 | for any answers the loop ends with an orderly log: only the held item is offered, each item is offered when it arrives, and the receiver is asked before each offer; success means the receiver is over and nothing is held; an unfinished poll was put off, in this call, by everything it still waits for |
| OverwriteChannel.NewestIsForwarded | components/channeler/src/overwrite_channel.rs:31-75 | in every orderly log what was sent is a subsequence of what was received, and what waits is the newest item, not sent; if nothing waits the newest was sent last |
| OverwriteChannel.ReceivedInOrder | components/channeler/src/overwrite_channel.rs:34-53 | what was received is what the receiver had to give, in order, and all of it up to its end once it is over |
| OverwriteChannel.PollUntilDone | components/channeler/src/overwrite_channel.rs:31-88 | each unfinished poll uses up an answer, so a future whose receiver comes to its end is done in time or holds an item the sink has no answer for |
| OverwriteChannel.Run | components/channeler/src/overwrite_channel.rs:31-88 | over a whole run of polls: success means that the receiver ended, every item before the end was received, and the last of them was sent; a failure is one of the sink; if the receiver ends, enough polls finish unless all answers of the sink went by with the last item still held, which cannot be if it takes as often as there are items |
| Keepalive.HandleEvent | components/keepalive/src/keepalive.rs:100-139 | the effect of one event on the counters and the two sides |
| Keepalive.InnerKeepaliveLoop | components/keepalive/src/keepalive.rs:90-142 | times out if and only if, before anything is closed, the remote side is silent for `keepalive_ticks` ticks in a row, or for one if that is zero; otherwise all payloads from the remote side reach the user and all messages of the user are sent, in order, up to the closing |
| Keepalive.KeepaliveEveryHalfPeriod | components/keepalive/src/keepalive.rs:115-135 | after any message, a user's or a keepalive, an endpoint whose user is silent sends one keepalive for each half period that goes by, and none before the first is over |
| Keepalive.QuietConnectionStaysOpen | components/keepalive/src/keepalive.rs:90-135 | in every run of two endpoints with enough ticks for the delay no side times out, and users' messages arrive once and in order |
| Keepalive.NeverTimesOutIff | components/keepalive/src/keepalive.rs:90-135 | no run times out if and only if there are at least 2 ticks and half of them plus the delay is less than all of them |

## Left out

- SymEncrypt.Decryptor.Decrypt: messages shorter than a nonce, on which the code's slicing panics, are not modelled.
- ScState.ScState.constructor: the sender and receiver are cipher values, not the `Encryptor` and `Decryptor` objects, so sharing of those objects is not captured.
- MutualCredit.QueueEffect: the operations are modelled on values that return mutations; that the code also updates a clone in place as it goes is not captured.
- NonceWindow.ShiftLeft: a 64-bit word is the list of its bits, and machine shifts and masks are taken bit by bit.
- ListenPool.ListenPool.SpawnListen: a spawner that fails, the relay connections themselves and the forwarding of connections are not modelled; an operation counts as applied when it is sent.
- OverwriteChannel.OverwriteChannel.Poll: the answers of receiver and sink are finite lists, after which both have nothing to say; a receiver with endlessly many ready items would keep the loop going.
- Keepalive.QuietConnectionStaysOpen: the two timers tick together; clocks that drift apart are not modelled.
- Random padding, serialization and the byte layout of messages and signature buffers.
- Real cryptography: only key agreement, freshness, nonce order and injectivity of hashes and signatures are used.
- The handshake's network exchange, task spawning, wake-ups and cancellation; handlers are atomic steps.
- The funder's handler around the token channel, including the inconsistency and reset negotiation; only the two reset constructors are covered.
- The index server's graph and verifier, the relay server, the connection pool, the database, timers and command-line tools.
- `seq_friends_loop` and the index client around the seq map: they pass calls on one by one.
- Freeze guards, permissions and liveness tables: easy or unused here.
