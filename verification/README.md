# SpiritChat: ledger, ratchet, mailbox and codecs, modelled and proved in Dafny

SpiritChat is a serverless messenger. Its Rust core keeps an `@username` proof-of-work ledger, encrypts
conversations with X3DH and the Double Ratchet, and lets strangers hold mail for peers who are offline. This
project models those parts, function by function and error by error, and proves what they promise: over every run,
every block tree, every network behaviour and every byte string. `dafny verify dfyconfig.toml` checks all of it
with Dafny 4.11.

## What is modelled

**The ledger** (`LedgerTypes`, `LedgerBytes`, `ChainRules`, `ChainViews`, `ChainInvariant`, `ChainRuns`,
`LedgerLaw`, `Chain`). `ChainRules` writes `Chain` and `validate_block` as functions on a value: the same rules in
the same order, so the error reported is the program's too. The class `Chain` in `Chain.dfy` has the program's
fields and loops, and is proved equal to those functions. Theorems are stated against a *history*: every body ever
accepted, including pruned ones. `Whole(c, g)` is the chain that never pruned. Hash functions and signature checks
are parameters (an `Oracle`), so each theorem holds for all of them; no block hashes to `ZERO`, and injectivity is
assumed only where a theorem says so. `LedgerLaw` states the rules of claims, blocks and ownership a second time, in
plain terms, and proves the checks equal to them. `ExampleChains` gives hash functions without collisions and chains
that grow under them.

**The durable store** (`StoreRules`, `StoreReplay`, `StoreRuns`, `StoreExample`, `ExampleChains`, `Store`). Four tables,
the transactions that change them, and the replay on open. Runs mix accepting, pruning, crashing between
transactions and reopening.

**Agreement, mining and sync** (`SameClaims`, `Convergence`, `Mining`, `Sync`, `LedgerNode`,
`LedgerExamples`). A block's hash fixes
the multiset of its claims but not their order, so two nodes may hold different bodies for one hash.

**The Double Ratchet and X3DH** (`SymbolicCrypto`, `RatchetSpec`, `RatchetConversation`, `RatchetDelivery`,
`RatchetRuns`, `RatchetRestarts`, `DoubleRatchet`, `Handshake`, `PrekeyRuns`). Two parties and a network that loses,
reorders, duplicates and injects. Diffie-Hellman is commutative, key derivations are injective constructors, key
pairs are fresh, and a ciphertext opens only under the key and associated data that sealed it. The design follows
"The Double Ratchet Algorithm", sections 2.6 and 3.3 to 3.5, and "The X3DH Key Agreement Protocol", sections 3.3 and
3.4.

**The mailbox cache** (`MailboxRules`, `MailboxRuns`, `MailboxStamp`, `Mailbox`). A table in byte order of its keys,
an index by tag, a byte counter, and the proof-of-work stamp. All that is assumed of the hash is that no two of the
deposits actually offered share a key.

**Arithmetic and codecs** (`BigEndian`, `Difficulty`, `Sorting`, `Varint`, `MessageCodec`, `RatchetCodec`,
`HandshakeCodec`). Compact targets as 256-bit integers, LEB128 varints (section 7.6 of DWARF version 4), and the
wire and saved formats.

## Where the code and its documentation part

The code is modelled as it is. Each of these is a theorem here.

- **A pruned store often cannot be reopened.** The documentation promises that reopening ends in exactly the state
  the chain was closed in (`packages/ledger-core/src/store.rs:77-83`). A replay starts at the saved checkpoint and
  refuses any retarget height whose interval starts below it. `StoreReplay.ReopenExactly` gives the exact condition:
  every canonical block above the floor must have its interval visible, be later than the median of the blocks still
  visible, and anchor its claims at or above the floor. `StoreRuns.DefaultPruneBreaksReopen`: with the default
  retention, pruning at any tip height that is not a multiple of 288 leaves a database that cannot be opened.
  `ExampleChains.DefaultPruneExample` is such a run. `StoreExample.PrunedExampleCannotReopen` is a three-block run in
  which an anchor below the floor does it.
- **A transaction's id does not cover its version**, although `canonical_bytes` is documented to omit nothing
  (`packages/ledger-core/src/transaction.rs:115-117`): `LedgerBytes.CanonicalBytesExact`.
- **The mailbox counter is not a running total.** Accepting adds the serialized length, removing subtracts only the
  envelope's (`packages/p2p-core/src/mailbox.rs:239-240`). `MailboxRuns.CounterExactly` says it is right exactly
  until something is removed or accepted twice. Once the excess leaves no room for two of the smallest deposits, the
  cache never again holds two after accepting one (`MailboxRuns.StarvedForever`), and an emptied cache only then
  (`MailboxRuns.StarvedExactly`). `MailboxRuns.DeliveriesStarve` counts the deliveries it takes.
- **A slow interval can end the chain.** The program means to clamp a scaled target to the largest 32-byte one, but
  in doubles that bound is 2^256, and writing it yields zero (`packages/ledger-core/src/difficulty.rs:120-129`).
  `Difficulty.RetargetVanishesExactly` says when, `Difficulty.EasiestTargetOverflows` gives one input,
  `Difficulty.NineSlowIntervals` a way there from the initial target, and `ChainViews.NoBlockMeetsZero` the
  consequence. Monotonicity, the fourfold bound and following the pace hold exactly up to there.
- **Five-minute blocks are too fast.** An interval is measured from its first block to its last, which spans one gap
  less than the 288 it is compared with (`packages/ledger-core/src/chain_state.rs:328-336`), so blocks exactly five
  minutes apart make the target harder: `ChainViews.FiveMinuteBlocksGetHarder`, `ExampleChains.SteadyGetsHarder`.
- **Reopening forgets forks.** A replay rebuilds the canonical path alone, so the state is what it was exactly if
  every known block was canonical (`StoreReplay.ReopenedSameExactly`), and later children of a fork block are refused
  (`StoreReplay.ChildOfForkRefused`). `LedgerExamples.ReopeningForgetsExample` is a run in which both happen.
- **Sync does not always follow a heavier fork.** `Sync.FollowedExactly` says when it ever does: the peer must be
  taller, its block at our own height must be known to us, and its block 500 further on, or its tip, must outweigh our
  tip. Otherwise our tip never moves, however often the round is repeated. `LedgerExamples.ForkIsNeverFollowed` misses
  the second condition with three blocks; `LedgerExamples.KnownForkIsNeverFollowed` misses only the third.
- **A claim can be shadowed while mining.** The first mempool claim to a name uses the name up even when it is
  invalid (`packages/p2p-core/src/node.rs:337-342`): `Mining.LeftOutExactly`, `LedgerExamples.InvalidClaimShadows`.
- `take_one_time_secret` tells callers to fall back to the handshake without a one-time key
  (`packages/crypto-core/src/prekey/store.rs:93-98`); `respond` returns an error instead, and the model follows it:
  `PrekeyRuns.CompletesExactlyOnce`.

## Model

| member | source | states |
|---|---|---|
| `LedgerTypes.ValidFormatIsNormalized` | packages/ledger-core/src/transaction.rs:147-151 | a name of valid format is already trimmed and lower case, so the second name check never refuses |
| `LedgerTypes.SelfContainedExactly` | packages/ledger-core/src/transaction.rs:147-165 | a claim passes on its own exactly if its name is well formed and its 64-byte signature verifies |
| `LedgerLaw.SelfContainedError` | packages/ledger-core/src/transaction.rs:147-165 | and otherwise the error is for the name first, then the signature |
| `LedgerBytes.HeaderBytesExact` | packages/ledger-core/src/block.rs:46-57 | two headers have the same canonical bytes exactly if they are equal |
| `LedgerBytes.HeaderLayout` | packages/ledger-core/src/block.rs:46-57 | where each field lies in the 125 bytes: counters little-endian, hashes and the key as they stand |
| `LedgerBytes.CanonicalBytesExact` | packages/ledger-core/src/transaction.rs:118-128 | two transactions have the same canonical bytes exactly if they agree on every field but the version |
| `LedgerBytes.ClaimLayout` | packages/ledger-core/src/transaction.rs:118-128 | where each field lies after the 26-byte domain tag, a 16-bit length before the name |
| `LedgerBytes.CanonicalLength` | packages/ledger-core/src/block.rs:91-94 | the size a block counts for a transaction is the length of its canonical bytes |
| `Difficulty.ExpandTarget` | packages/ledger-core/src/difficulty.rs:52-86 | the 32 bytes written denote floor(mantissa * 256^(exponent-3)), or 0 for exponents above 32 |
| `Difficulty.TargetOfFields` | packages/ledger-core/src/difficulty.rs:52-86 | that integer from the exponent byte and the mantissa, in every case |
| `Difficulty.CompactMeaning` | packages/ledger-core/src/difficulty.rs:92-103 | compacting keeps exactly the three most significant bytes of the target's integer |
| `Difficulty.ExpandCompactExpand` | packages/ledger-core/src/difficulty.rs:88-103 | expanding after compacting is the identity on every expanded target |
| `Difficulty.CompactExpandCompact` | packages/ledger-core/src/difficulty.rs:88-103 | and compacting after expanding is the identity on bits with a full mantissa |
| `Difficulty.RoundDownError` | packages/ledger-core/src/difficulty.rs:88-103 | otherwise compacting rounds down and loses less than one part in 65536 |
| `Difficulty.RoundDownExactly` | packages/ledger-core/src/difficulty.rs:88-103 | to the largest value not above that three bytes and a shift by whole bytes can carry |
| `Difficulty.RetargetMonotone` | packages/ledger-core/src/difficulty.rs:139-145 | slower blocks never make the next target smaller, exactly unless the scaled target no longer fits in 32 bytes |
| `Difficulty.RetargetBounded` | packages/ledger-core/src/difficulty.rs:139-145 | one retarget raises the target at most fourfold, and lowers it at most fourfold exactly if the scaled target fits in 32 bytes |
| `Difficulty.RetargetFollowsPace` | packages/ledger-core/src/difficulty.rs:133-145 | faster than expected never gives a larger target; slower never a smaller one, exactly unless the scaled target no longer fits |
| `Difficulty.RetargetExactly` | packages/ledger-core/src/difficulty.rs:133-145 | the next target in whole numbers: old target times span over expected span, the span held within a factor of four, rounded down to three bytes, zero from 2^256 on |
| `Difficulty.TargetAsReal` | packages/ledger-core/src/difficulty.rs:108-114 | the accumulating loop reads a target's bytes as its integer |
| `Difficulty.RealAsTarget` | packages/ledger-core/src/difficulty.rs:116-130 | the loop writes the 32 low bytes of the clamped value |
| `Difficulty.RetargetVanishesExactly` | packages/ledger-core/src/difficulty.rs:116-145 | the next target is zero exactly if the scaled one is below one or at least 2^256 |
| `Difficulty.EasiestTargetOverflows` | packages/ledger-core/src/difficulty.rs:116-145 | at bits 0x20ffffff an interval one second too slow gives bits 0 |
| `Difficulty.NineSlowIntervals` | packages/ledger-core/src/difficulty.rs:116-145 | from the initial target nine intervals at least four times too slow end in target zero |
| `Difficulty.RetargetHarderExactly` | packages/ledger-core/src/difficulty.rs:133-145 | the next target is strictly smaller exactly after a faster interval, or when the scaled target no longer fits |
| `Difficulty.HarderIsMoreWork` | packages/ledger-core/src/difficulty.rs:152-159 | a smaller satisfiable target adds strictly more work |
| `Difficulty.WorkExactly` | packages/ledger-core/src/difficulty.rs:147-159 | work times one more than the target is 2^256; an unsatisfiable target counts as the largest double |
| `Difficulty.MeetsTargetIsIntegerOrder` | packages/ledger-core/src/hash.rs:28-34 | the byte comparison of hash and target is integer comparison |
| `Sorting.SortIsCanonical` | packages/ledger-core/src/block.rs:75-84 | sorted id lists agree exactly when the multisets of ids do |
| `ChainObject.Chain.constructor` | packages/ledger-core/src/chain_state.rs:96-128 | a new chain knows genesis alone, with no owners |
| `ChainObject.Chain.FromCheckpoint` | packages/ledger-core/src/chain_state.rs:137-163 | a chain restored from a checkpoint knows that block alone and trusts its owner map |
| `ChainObject.Chain.AncestorsOf` | packages/ledger-core/src/chain_state.rs:259-272 | the parent walk terminates and yields the path from floor to block, or the unknown hash it met |
| `ChainObject.Chain.StateOf` | packages/ledger-core/src/chain_state.rs:280-299 | the replay loop yields the owner map as of a block, or the first missing body |
| `ChainObject.Chain.MedianTimePastOf` | packages/ledger-core/src/chain_state.rs:305-312 | the median timestamp of the last eleven visible ancestors |
| `ChainObject.Chain.ExpectedDifficultyOf` | packages/ledger-core/src/chain_state.rs:318-337 | the parent's target, or at a retarget height the one recomputed over the ended interval |
| `ChainObject.Chain.ValidateTransactionsOf` | packages/ledger-core/src/validation.rs:104-133 | the claim loop's verdict, first error first |
| `ChainObject.Chain.Validate` | packages/ledger-core/src/validation.rs:29-75 | the verdict of all rules, in order |
| `ChainObject.Chain.SetTip` | packages/ledger-core/src/chain_state.rs:387-396 | rebuilds index and owners for a new tip, or fails half-way |
| `ChainObject.Chain.TryApply` | packages/ledger-core/src/chain_state.rs:344-385 | validates, records, and moves the tip if the branch is strictly heavier |
| `ChainObject.Chain.PruneBodiesUpTo` | packages/ledger-core/src/chain_state.rs:241-252 | drops exactly the bodies at or below a canonical height and moves the floor with its owner map |
| `ChainObject.Chain.MakeCheckpoint` | packages/ledger-core/src/chain_state.rs:220-231 | the metadata and owner map of a canonical height |
| `ChainViews.MedianIsMiddle` | packages/ledger-core/src/chain_state.rs:305-312 | the median is an entry with half of the entries at or below it and the rest at or above it |
| `ChainViews.MedianTimePastExactly` | packages/ledger-core/src/chain_state.rs:305-312 | it is the middle of the timestamps of the last eleven ancestors, or of all if there are fewer |
| `ChainViews.ExpectedDifficultyExactly` | packages/ledger-core/src/chain_state.rs:318-337 | away from multiples of 288 the parent's bits; at one the old target scaled by the seconds since the 288th block back over a day, or an error if that block is not visible |
| `ChainViews.DifficultyFollowsPace` | packages/ledger-core/src/chain_state.rs:318-337 | between retargets nothing changes; at one, the target gets strictly harder exactly if the interval measured less than a day or so long that the scaled target no longer fits |
| `ChainViews.FiveMinuteBlocksGetHarder` | packages/ledger-core/src/chain_state.rs:328-336 | after an interval whose blocks are exactly five minutes apart the next expected target is strictly harder |
| `ExampleChains.SteadyGetsHarder` | packages/ledger-core/src/chain_state.rs:328-336 | a chain of 287 such blocks, and the harder target that follows |
| `ChainViews.NoBlockMeetsZero` | packages/ledger-core/src/validation.rs:51-62 | once the expected target is zero no block on that parent is ever valid |
| `ChainViews.SameViewSameVerdict` | packages/ledger-core/src/validation.rs:29-133 | validity is a function of ancestry: chains that agree on it give the same verdict and error |
| `ChainViews.CutDifficulty` | packages/ledger-core/src/chain_state.rs:318-337 | raising the floor keeps the difficulty rule exactly when no retarget is due or its interval is still visible, else the rule errors |
| `ChainViews.CutMedian` | packages/ledger-core/src/chain_state.rs:305-312 | raising the floor keeps the median while eleven ancestors remain visible |
| `ChainViews.CutAnchors` | packages/ledger-core/src/validation.rs:116-122 | 144 blocks above the floor every anchor young enough is still visible |
| `ChainViews.CutVerdict` | packages/ledger-core/src/validation.rs:29-133 | raising the floor changes no verdict for parents at least 287 above it |
| `ChainInvariant.EveryBlockIsRooted` | packages/ledger-core/src/chain_state.rs:259-299 | every known block's ancestry reaches the root and its complete replay is defined |
| `ChainInvariant.RetainedReplayIsComplete` | packages/ledger-core/src/chain_state.rs:280-299 | replaying kept bodies from the floor's snapshot equals replaying the complete history |
| `ChainInvariant.AcceptedIsLawful` | packages/ledger-core/src/validation.rs:29-133 | a block accepted above any floor satisfies every rule but time in the complete history |
| `ChainInvariant.ChecksPassExactly` | packages/ledger-core/src/validation.rs:104-133 | a block's claims pass exactly if each is lawful on its own and no name repeats |
| `LedgerLaw.ClaimsExactly` | packages/ledger-core/src/validation.rs:104-133 | claims pass exactly if each is allowed and no name repeats, and otherwise the error is that of the first claim that breaks a rule |
| `LedgerLaw.BlockValidExactly` | packages/ledger-core/src/validation.rs:29-75 | a block is valid exactly if it obeys the rules of shape, place, work, time and claims, with every bound written out |
| `LedgerLaw.BlockErrorExactly` | packages/ledger-core/src/validation.rs:29-75 | and otherwise the error is that of the first rule it breaks |
| `LedgerLaw.OwnersExactly` | packages/ledger-core/src/chain_state.rs:280-299 | the owners as of any block are those of the root and every claim of the path, each with exactly its record |
| `LedgerLaw.TipOwnersExactly` | packages/ledger-core/src/chain_state.rs:387-396 | so are the owners the chain shows |
| `LedgerLaw.GenesisExactly` | packages/ledger-core/src/chain_state.rs:96-128 | genesis alone, with its fixed time and target |
| `LedgerLaw.WrapExactly` | packages/ledger-core/src/chain_state.rs:333 | the span is congruent to the difference of timestamps modulo 2^64 and fits in a signed word |
| `ChainInvariant.FirstClaimWins` | packages/ledger-core/src/validation.rs:124-129 | an owner recorded at a block is the identical record at every descendant |
| `ChainRuns.FreshInv` | packages/ledger-core/src/chain_state.rs:96-128 | a new chain satisfies the invariant |
| `ChainRuns.CheckpointInv` | packages/ledger-core/src/chain_state.rs:137-163 | so does one restored from any checkpoint |
| `ChainRuns.NewTipSucceeds` | packages/ledger-core/src/chain_state.rs:387-396 | after validation, moving the tip cannot fail, even among branches forking below the floor |
| `ChainRuns.ApplyOutcome` | packages/ledger-core/src/chain_state.rs:344-385 | an accepted block is recorded and becomes the tip exactly if its branch is strictly heavier |
| `ChainRuns.ApplyIsAllOrNothing` | packages/ledger-core/src/chain_state.rs:344-385 | every error leaves the chain unchanged; a known block is a no-op; a valid block never errors |
| `ChainRuns.TipExtension` | packages/ledger-core/src/chain_state.rs:372-396 | a valid child of the tip extends it, field by field |
| `ChainRuns.ApplyKeepsInv` | packages/ledger-core/src/chain_state.rs:344-396 | applying keeps the invariant |
| `ChainRuns.ForkChoice` | packages/ledger-core/src/chain_state.rs:357-385 | the tip's work never falls, rises exactly when the tip changes, and a valid child of the tip becomes the tip |
| `ChainRuns.PruneOutcome` | packages/ledger-core/src/chain_state.rs:241-252 | pruning never fails, and does nothing for other than a canonical height above the floor |
| `ChainRuns.PruneKeepsInv` | packages/ledger-core/src/chain_state.rs:241-252 | pruning keeps the invariant and every cached view |
| `ChainRuns.PruningKeepsVerdicts` | packages/ledger-core/src/store.rs:52-57 | pruning changes no verdict, error included, for parents that descend from the floor at least 287 above it |
| `ChainRuns.InvOverRuns` | packages/ledger-core/src/chain_state.rs:241-396 | the invariant holds after any mix of applying, reorganising and pruning |
| `ChainRuns.CachedViewsAgreeWithReplay` | packages/ledger-core/src/chain_state.rs:84-93 | over every run the owner map replays the complete history, the index from the floor up is the tip's path, and no block is heavier than the tip |
| `StoreObject.ChainStore.RestoreFrom` | packages/ledger-core/src/store.rs:127-153 | the replay loop rebuilds the chain, or stops at the first missing or refused block |
| `StoreObject.ChainStore.OpenAt` | packages/ledger-core/src/store.rs:84-100 | an empty database starts at genesis and persists it, any other is restored |
| `StoreObject.ChainStore.PersistAfterApply` | packages/ledger-core/src/store.rs:223-265 | one transaction writes body, header, the whole canonical index without stale heights, and the tip |
| `StoreReplay.PersistExactly` | packages/ledger-core/src/store.rs:223-265 | what the transaction changes in each of the tables, key by key, and what it leaves |
| `StoreObject.InsertHeights` | packages/ledger-core/src/store.rs:240-243 | the loop overwrites exactly the path's heights |
| `StoreObject.RemoveHeights` | packages/ledger-core/src/store.rs:253-255 | the loop removes exactly the stale range |
| `StoreObject.RemoveStaleBodies` | packages/ledger-core/src/store.rs:303-317 | exactly the bodies at or below the new floor go |
| `StoreObject.ChainStore.TryApply` | packages/ledger-core/src/store.rs:211-217 | applies in memory, then persists unless the block was known |
| `StoreObject.ChainStore.PruneWithRetention` | packages/ledger-core/src/store.rs:283-319 | saves the checkpoint, prunes in memory, then deletes bodies, in that order |
| `StoreRuns.PruneExactly` | packages/ledger-core/src/store.rs:283-319 | what pruning leaves in each table and in memory: the checkpoint `retention` below the tip, and exactly the bodies above it |
| `StoreObject.ChainStore.Prune` | packages/ledger-core/src/store.rs:270-272 | pruning with the default retention of 2016 |
| `StoreReplay.CutVerdictExactly` | packages/ledger-core/src/validation.rs:29-133 | a lawful block passes under a cut ancestry exactly if its interval, a smaller median and its anchors are visible |
| `StoreReplay.ReopenExactly` | packages/ledger-core/src/store.rs:127-153 | reopening succeeds exactly if every canonical block above the floor survives the cut, and then tip, owners and index above the floor are those that were closed |
| `StoreReplay.NeverPrunedReopens` | packages/ledger-core/src/store.rs:77-100 | a database without a checkpoint always reopens to the same tip, owners and index |
| `StoreReplay.ReopenForgetsForks` | packages/ledger-core/src/store.rs:127-153 | a reopened chain knows the tip's path from the floor and nothing else, with the metadata it had |
| `StoreReplay.ReopenedSameExactly` | packages/ledger-core/src/store.rs:77-83 | without a checkpoint the chain that was closed comes back exactly if every block it knew was canonical |
| `StoreReplay.ChildOfForkRefused` | packages/ledger-core/src/store.rs:127-153 | a block acceptable before closing is refused for an unknown parent after reopening exactly if its parent was not canonical |
| `StoreReplay.UnalignedFloorCannotReopen` | packages/ledger-core/src/chain_state.rs:328-331 | a floor that is no retarget height makes reopening fail once the tip passes the next one |
| `StoreRuns.AcceptKeepsSound` | packages/ledger-core/src/store.rs:211-265 | accepting keeps the database a mirror of the chain and never meets an unknown tip or block |
| `StoreRuns.PruneKeepsSound` | packages/ledger-core/src/store.rs:283-319 | so does pruning, at both of its transaction boundaries |
| `StoreRuns.BootKeepsSound` | packages/ledger-core/src/store.rs:84-100 | so does reopening, whether it succeeds or not |
| `StoreRuns.RunsNeverPanic` | packages/ledger-core/src/store.rs:223-227 | no run of accepting, pruning, crashing and reopening reaches a panic |
| `StoreRuns.CrashSafety` | packages/ledger-core/src/store.rs:274-279 | at every transaction boundary each height from the durable floor to the durable tip has a stored body that continues the chain, and nothing lies above the tip |
| `StoreRuns.ReopenAfterRun` | packages/ledger-core/src/store.rs:77-83 | after any run, reopening succeeds exactly if every block above the floor survives the cut, with the same views |
| `StoreRuns.UnprunedReopens` | packages/ledger-core/src/store.rs:44-50 | after any run without pruning, reorganisations to shorter branches included, reopening gives the same tip, index and owners |
| `StoreRuns.UnprunedReopensSameExactly` | packages/ledger-core/src/store.rs:77-83 | after any such run the tree comes back exactly if every known block was canonical, otherwise the tip's path alone |
| `LedgerExamples.ReopeningForgetsExample` | packages/ledger-core/src/store.rs:127-153 | a run after which a block is known, and a child of it accepted, before reopening but not after |
| `StoreRuns.PruneToUnalignedFloorBreaksReopen` | packages/ledger-core/src/store.rs:283-319 | pruning by at least an interval to a height that is no retarget height leaves a database that cannot be opened |
| `StoreRuns.DefaultPruneBreaksReopen` | packages/ledger-core/src/store.rs:267-272 | so does the default prune at any tip height that is no retarget height |
| `StoreExample.PrunedExampleCannotReopen` | packages/ledger-core/src/validation.rs:116-118 | three blocks, a prune to height 1, and a claim anchored at genesis: the database cannot be opened |
| `ExampleChains.DefaultPruneExample` | packages/ledger-core/src/store.rs:267-272 | a run of 2017 accepted blocks and one default prune whose database cannot be opened |
| `ExampleChains.InjectiveAndUnpruned` | packages/ledger-core/src/chain_state.rs:344-385 | unpruned chains of every height up to three million exist under hash functions without collisions |
| `SameClaims.CommitmentFixesClaims` | packages/ledger-core/src/block.rs:75-84 | two bodies have the same commitment exactly if they hold the same claims with multiplicity |
| `SameClaims.SameChecks` | packages/ledger-core/src/validation.rs:104-133 | a body's claims pass whatever their order |
| `SameClaims.SameOwners` | packages/ledger-core/src/chain_state.rs:287-296 | the owner map after a body does not depend on the order of its claims |
| `Convergence.AgreeOnCommon` | packages/ledger-core/src/chain_state.rs:280-299 | unpruned nodes that know a block agree on its metadata, ancestry and owner map |
| `Convergence.AcceptedIsValidElsewhere` | packages/ledger-core/src/validation.rs:29-133 | a block one unpruned node accepted is valid for every other that knows its parent, whatever the order of its claims |
| `Convergence.FirstDeliveryDecides` | packages/ledger-core/src/chain_state.rs:344-385 | delivered parents first, a block that is ever accepted is accepted at its first delivery |
| `Convergence.NodesConverge` | packages/ledger-core/src/chain_state.rs:344-396 | the same blocks in any two parents-first orders give the same tree, and with a unique heaviest block the same tip, index and owners |
| `LedgerNodeObject.LedgerNode.SubmitClaim` | packages/p2p-core/src/node.rs:698-707 | a claim enters the mempool exactly if it passes on its own |
| `LedgerNodeObject.LedgerNode.IsValidForMempool` | packages/ledger-core/src/validation.rs:85-102 | whether a claim could go into a block on the tip |
| `LedgerNodeObject.SortById` | packages/p2p-core/src/node.rs:333-334 | the mempool's claims in ascending order of id |
| `LedgerNodeObject.IdOrderIsUnique` | packages/p2p-core/src/node.rs:307-309 | nodes with the same mempool consider the same candidates in the same order |
| `LedgerNodeObject.LedgerNode.SelectClaims` | packages/p2p-core/src/node.rs:331-343 | the selection loop |
| `Mining.SelectionExactly` | packages/p2p-core/src/node.rs:331-343 | the selection is the first 64 candidates that are valid and first to their name |
| `Mining.LeftOutExactly` | packages/p2p-core/src/node.rs:331-343 | a candidate is left out exactly if invalid, preceded by any candidate to its name, or past the 64th |
| `LedgerLaw.MempoolValidExactly` | packages/ledger-core/src/validation.rs:85-102 | the mempool check accepts exactly the claims that would pass alone in a block on the tip |
| `LedgerLaw.MinedClaimsExactly` | packages/p2p-core/src/node.rs:331-343 | a candidate is mined exactly if it is allowed on the tip, first to its name, and fewer than 64 such candidates come before it |
| `LedgerExamples.InvalidClaimShadows` | packages/p2p-core/src/node.rs:337-342 | a mempool of two claims from which a block on genesis takes neither, although one is valid |
| `LedgerNodeObject.LedgerNode.AssembleCandidate` | packages/p2p-core/src/node.rs:314-364 | the candidate header and claims chosen from the mempool in id order, or nothing if the tip's rules cannot be computed |
| `Mining.CandidateExactly` | packages/p2p-core/src/node.rs:322-329 | a candidate exists exactly if the interval the tip's child may need is visible |
| `Mining.CandidateFields` | packages/p2p-core/src/node.rs:346-364 | its header is the tip's child at the later of now and just after the median, for this miner, with nonce zero |
| `Mining.Mine` | packages/p2p-core/src/node.rs:375-399 | a search that ends emits the first attempt that meets the target, with the nonce and refreshed time of that attempt, unless told to stop before |
| `Mining.AttemptExactly` | packages/p2p-core/src/node.rs:375-399 | the nonce of each attempt, and its time: the latest of the start and one reading per 50000 attempts |
| `Mining.ClaimsFit` | packages/ledger-core/src/block.rs:14-15 | claims that pass on their own take at most 204 bytes each, so 64 of them fit |
| `Mining.MinedIsLawful` | packages/p2p-core/src/node.rs:314-399 | an emitted block satisfies every rule but the drift limit on the chain it was built from |
| `Mining.ApplyAllKeepsView` | packages/ledger-core/src/chain_state.rs:344-385 | further blocks change nothing a known block's children are judged by |
| `Mining.MinedBlockIsValid` | packages/p2p-core/src/node.rs:314-399 | every emitted block is valid on its chain and after any further blocks, if the clock has not gone back and the median was within the drift limit |
| `Mining.MinedBlockValidExactly` | packages/p2p-core/src/node.rs:314-399 | after any run of applying, reorganising and pruning it is valid exactly if its parent descends from the floor, its interval and anchors are visible and it is later than the visible median |
| `LedgerExamples.FirstBlockIsMined` | packages/p2p-core/src/node.rs:314-399 | a block that a search on genesis emits at its first attempt |
| `LedgerNodeObject.LedgerNode.ApplyAndBroadcast` | packages/p2p-core/src/node.rs:766-797 | a newly accepted block takes its claims out of the mempool; nothing else changes it |
| `LedgerNodeObject.WithoutClaimsExactly` | packages/p2p-core/src/node.rs:777-779 | exactly the block's own claims leave the mempool |
| `LedgerNodeObject.LedgerNode.BuildBlocksResponse` | packages/p2p-core/src/node.rs:1627-1642 | up to 500 canonical bodies from a height, or none if any is missing |
| `Sync.AnswerExactly` | packages/p2p-core/src/node.rs:1627-1642 | an answer is the canonical bodies of at most 500 consecutive heights, and absent exactly if one is missing |
| `Sync.RequestExactly` | packages/p2p-core/src/node.rs:1681-1683 | a request asks for as many blocks as the peer is ahead, modulo 2^64, at most 500 |
| `LedgerNodeObject.LedgerNode.HandleBlocks` | packages/p2p-core/src/node.rs:1690-1705 | served blocks are applied in order up to the first refused; every block tried takes its claims out of the mempool |
| `LedgerNodeObject.MempoolAfterExactly` | packages/p2p-core/src/node.rs:1690-1705 | exactly the claims of the blocks tried leave the mempool, the refused block included |
| `Sync.ServedAreConsecutive` | packages/p2p-core/src/node.rs:1627-1642 | an unpruned peer serves consecutive canonical blocks in full |
| `Sync.BatchIsAccepted` | packages/p2p-core/src/node.rs:1690-1705 | if the first served block's parent is known, every served block is known at the end |
| `Sync.BatchMovesTipExactly` | packages/p2p-core/src/node.rs:1690-1705 | such a batch moves our tip exactly if its last block outweighs it, and then to that block |
| `Sync.CatchUp` | packages/p2p-core/src/node.rs:1670-1714 | if our tip lies on a heavier peer's path, one round extends the tip block by block up to 500 further or to the peer's tip |
| `Sync.CatchUpFully` | packages/p2p-core/src/node.rs:1670-1714 | as many rounds as the gap has batches of 500 reach the peer's tip, and from then on a round does nothing |
| `Sync.SyncRoundExactly` | packages/p2p-core/src/node.rs:1670-1714 | what one round does against a shorter, equally tall or taller heavier peer, and when it makes no progress |
| `Sync.RoundMovesTipExactly` | packages/p2p-core/src/node.rs:1670-1714 | one round against a heavier peer moves our tip exactly if the peer is taller, its block at our height is known and its block where the batch ends outweighs our tip; then to that block, and otherwise a further round changes nothing |
| `Sync.FollowedExactly` | packages/p2p-core/src/node.rs:1670-1714 | some number of rounds reaches the peer's tip exactly if the first one moves our tip; then as many as the gap has batches do, and otherwise our tip never moves |
| `LedgerExamples.ForkIsNeverFollowed` | packages/p2p-core/src/node.rs:1681-1705 | three blocks on which sync against a heavier peer is refused in every round |
| `LedgerExamples.KnownForkIsNeverFollowed` | packages/p2p-core/src/node.rs:1681-1705 | a fork known up to our height 387 and heavier at its 3000th block that no number of rounds follows |
| `DoubleRatchetObjects.SkippedKeyStore.Insert` | packages/crypto-core/src/ratchet/skipped_keys.rs:31-38 | refuses at the cap without changing anything, else stores one key |
| `DoubleRatchetObjects.SkippedKeyStore.Take` | packages/crypto-core/src/ratchet/skipped_keys.rs:43-45 | returns and removes a key |
| `DoubleRatchetObjects.DoubleRatchet.InitInitiator` | packages/crypto-core/src/ratchet/state.rs:44-67 | the initiator's first state |
| `DoubleRatchetObjects.DoubleRatchet.InitResponder` | packages/crypto-core/src/ratchet/state.rs:74-88 | the responder's first state |
| `DoubleRatchetObjects.DoubleRatchet.Encrypt` | packages/crypto-core/src/ratchet/state.rs:128-146 | seals under the current chain key, stamps the counters, steps the chain |
| `DoubleRatchetObjects.DoubleRatchet.SkipMessageKeys` | packages/crypto-core/src/ratchet/state.rs:264-279 | the loop stores every key up to a position, under the cap |
| `RatchetSpec.SkipClosedForm` | packages/crypto-core/src/ratchet/state.rs:264-279 | skipping succeeds exactly if the keys fit, and stores exactly the window's keys |
| `DoubleRatchetObjects.DoubleRatchet.DhRatchetStep` | packages/crypto-core/src/ratchet/state.rs:286-304 | a receiving chain from the old key pair, a sending chain from a new one |
| `DoubleRatchetObjects.DoubleRatchet.Decrypt` | packages/crypto-core/src/ratchet/state.rs:159-192 | works on a copy; a rejected message leaves every field and the skipped store unchanged |
| `RatchetDelivery.HonestIsDelivered` | packages/crypto-core/src/ratchet/state.rs:159-192 | in any state satisfying the invariant an unopened message of the peer returns its plaintext exactly if the keys to skip fit |
| `RatchetRuns.RunKeepsInvariant` | packages/crypto-core/src/ratchet/state.rs:128-304 | the two-party invariant: chain keys are the sender's advanced by the count, root keys agree or are one step apart |
| `RatchetRuns.DeliveryOverRuns` | packages/crypto-core/src/ratchet/state.rs:148-192 | over every run, delivering any unopened honest message returns its exact plaintext if the keys fit under the cap, and otherwise fails without a trace |
| `RatchetRuns.DeliveredExactly` | packages/crypto-core/src/ratchet/state.rs:148-192 | the same in counts of messages: exactly if none is missing before it, or those missing and the keys stored are together at most 2000 |
| `RatchetRuns.FirstMessageArrives` | packages/crypto-core/src/ratchet/state.rs:148-192 | the shortest run: the initiator's first message returns its plaintext |
| `RatchetRuns.AuthenticityOverRuns` | packages/crypto-core/src/ratchet/state.rs:148-192 | over every run, what is accepted was sent by the peer with that header and data, and everything rejected leaves the state alone |
| `RatchetRuns.NoReplayOverRuns` | packages/crypto-core/src/ratchet/state.rs:159-192 | an accepted message is never accepted again, by either side, in any continuation |
| `Varint.DecodeExactly` | packages/crypto-core/src/encoding/varint.rs:23-37 | decoding succeeds exactly if one of the first ten bytes ends the varint, and what it denotes modulo 2^64 |
| `Varint.RoundTrip` | packages/crypto-core/src/encoding/varint.rs:7-37 | decoding undoes encoding for every 64-bit value and any suffix, in at most ten bytes |
| `Varint.StandardExamples` | packages/crypto-core/src/encoding/varint.rs:7-19 | the examples of section 7.6 of DWARF version 4 |
| `Varint.PrefixRejected` | packages/crypto-core/src/encoding/varint.rs:23-37 | no strict prefix of an encoding decodes |
| `Varint.EncodeTo` | packages/crypto-core/src/encoding/varint.rs:7-19 | the encoding loop |
| `Varint.DecodeLoop` | packages/crypto-core/src/encoding/varint.rs:23-37 | the decoding loop |
| `MessageCodec.WriteHeader` | packages/crypto-core/src/ratchet/header.rs:24-30 | the header's bytes |
| `MessageCodec.WriteEnvelope` | packages/crypto-core/src/ratchet/envelope.rs:13-17 | the header's bytes, then the ciphertext |
| `MessageCodec.HeaderRoundTrip` | packages/crypto-core/src/ratchet/header.rs:24-52 | decoding undoes encoding for every header and suffix and reports exactly the header's length |
| `MessageCodec.HeaderLayout` | packages/crypto-core/src/ratchet/header.rs:24-30 | where each field lies: key, length of the previous chain, number |
| `MessageCodec.HeaderDecodesExactly` | packages/crypto-core/src/ratchet/header.rs:39-52 | which inputs decode, and to what, counters cut to 32 bits |
| `MessageCodec.HeaderPlace` | packages/crypto-core/src/ratchet/envelope.rs:13-17 | the header stands before the ciphertext and after the caller's data |
| `MessageCodec.HeaderPrefixRejected` | packages/crypto-core/src/ratchet/header.rs:39-52 | no strict prefix of a header decodes |
| `MessageCodec.EnvelopeRoundTrip` | packages/crypto-core/src/ratchet/envelope.rs:13-26 | a message splits back into header and ciphertext |
| `MessageCodec.AssociatedDataDeterminesBoth` | packages/crypto-core/src/ratchet/state.rs:307-313 | under caller data of one length the authenticated bytes determine caller data and header |
| `RatchetCodec.SaveRatchet` | packages/crypto-core/src/ratchet/state.rs:202-222 | the saved bytes, for the order in which the skipped keys are visited |
| `RatchetCodec.LoadRatchet` | packages/crypto-core/src/ratchet/state.rs:224-258 | reading the fields at a moving offset |
| `RatchetCodec.RatchetRoundTrip` | packages/crypto-core/src/ratchet/state.rs:202-258 | loading undoes saving for every ratchet, every order of its skipped keys and any suffix |
| `RatchetCodec.SavedLayout` | packages/crypto-core/src/ratchet/state.rs:202-222 | where each field lies in the saved bytes |
| `RatchetCodec.EntryLayout` | packages/crypto-core/src/ratchet/state.rs:214-218 | where each field of a skipped key lies |
| `RatchetCodec.OptionalReadsExactly` | packages/crypto-core/src/ratchet/state.rs:343-370 | an optional key reads exactly from a flag of zero, or one and a key |
| `RatchetRestarts.RestartKeepsState` | packages/crypto-core/src/ratchet/state.rs:198-258 | a party saved in any order of its skipped keys and loaded again is unchanged |
| `RatchetRestarts.RestartsAreInvisible` | packages/crypto-core/src/ratchet/state.rs:198-201 | a run with restarts ends in the world of the run without them |
| `RatchetRestarts.DeliverySurvivesRestarts` | packages/crypto-core/src/ratchet/state.rs:198-201 | the delivery theorem over runs in which either party restarts at any time |
| `RatchetRestarts.NoReplayAcrossRestarts` | packages/crypto-core/src/ratchet/state.rs:198-201 | an accepted message is never accepted again, however often either party restarts |
| `RatchetRestarts.EncodingExists` | packages/crypto-core/src/ratchet/state.rs:202-222 | any finite set of states whose keys fit in 32 bytes can be written and read back |
| `RatchetRestarts.RestartIsPossible` | packages/crypto-core/src/ratchet/state.rs:202-258 | any party whose store is under the cap and whose counters fit in 32 bits can restart, with some encoding and visiting order |
| `HandshakeCodec.LoadList` | packages/crypto-core/src/prekey/store.rs:161-173 | the key list loop |
| `HandshakeCodec.PrekeysRoundTrip` | packages/crypto-core/src/prekey/store.rs:117-144 | loading a prekey store undoes saving it, both pools in order |
| `HandshakeCodec.PrekeysLayout` | packages/crypto-core/src/prekey/store.rs:117-124 | where each field lies in the saved store |
| `HandshakeCodec.InitialRoundTrip` | packages/crypto-core/src/handshake/x3dh.rs:48-95 | a first message survives the wire, with or without a one-time key |
| `HandshakeCodec.WireLayout` | packages/crypto-core/src/handshake/x3dh.rs:48-62 | where each field of a first message lies |
| `HandshakeCodec.WireDecodesExactly` | packages/crypto-core/src/handshake/x3dh.rs:64-95 | which inputs decode, to what, and with which error otherwise |
| `HandshakeCodec.InitialPrefixRejected` | packages/crypto-core/src/handshake/x3dh.rs:64-95 | no strict prefix of a first message decodes |
| `Handshake.BothSidesAgree` | packages/crypto-core/src/handshake/x3dh.rs:101-166 | both sides derive the same secret, whenever the responder still holds the one-time key the card named |
| `Handshake.InitiateExactly` | packages/crypto-core/src/handshake/x3dh.rs:101-131 | which cards are refused, and which shared points are combined in which order from any other |
| `Handshake.RespondExactly` | packages/crypto-core/src/handshake/x3dh.rs:138-166 | which messages are refused with which error, the store kept, and which key is used up otherwise |
| `Handshake.VerifiedCardNeedsKeys` | packages/crypto-core/src/prekey/bundle.rs:31-44 | a card that verifies from an identity's own signatures yields a secret derivable exactly from that identity's agreement, signed and named one-time keys, or the initiator's own |
| `Handshake.ForwardSecrecy` | packages/crypto-core/src/handshake/x3dh.rs:170-194 | without the ephemeral and the one-time secret, all long-term keys of both sides do not give the secret |
| `Handshake.FreshEphemeralFreshSecret` | packages/crypto-core/src/handshake/x3dh.rs:170-194 | different ephemeral keys give different secrets |
| `PrekeyRuns.PrekeyStore.constructor` | packages/crypto-core/src/prekey/store.rs:32-51 | a new store: a signed prekey, one-time keys all available |
| `PrekeyRuns.PrekeyStore.MakeBundle` | packages/crypto-core/src/prekey/store.rs:57-77 | hands out the last available one-time key and makes it pending |
| `PrekeyRuns.PrekeyStore.Take` | packages/crypto-core/src/prekey/store.rs:99-105 | finds and removes a pending key |
| `PrekeyRuns.PrekeyStore.Answer` | packages/crypto-core/src/handshake/x3dh.rs:138-166 | verifies the sender, uses up the named key or fails, combines the keys |
| `PrekeyRuns.RestartKeepsStore` | packages/crypto-core/src/prekey/store.rs:113-144 | a restart changes nothing |
| `PrekeyRuns.PartitionOverRuns` | packages/crypto-core/src/prekey/store.rs:15-19 | over every run available, pending and consumed keys partition the generated ones |
| `PrekeyRuns.EachKeyOnce` | packages/crypto-core/src/prekey/store.rs:53-56 | over every run no key is handed out twice, none completes two handshakes, none completes one without having been handed out |
| `PrekeyRuns.HandedOutInOrder` | packages/crypto-core/src/prekey/store.rs:57-77 | over every run cards name the generated keys in order from the last |
| `PrekeyRuns.CompletesExactlyOnce` | packages/crypto-core/src/handshake/x3dh.rs:138-166 | a handshake against a handed-out card completes, with one secret on both sides, exactly if its key has not completed one before |
| `PrekeyRuns.ReplayOfFirstMessageExactly` | packages/crypto-core/src/handshake/x3dh.rs:138-166 | an answered first message is refused in every continuation exactly if it names a one-time key, and otherwise answered with the same secret |
| `PrekeyRuns.CardStaysGood` | packages/crypto-core/src/prekey/store.rs:15-19 | a card handed out at any time verifies and stays answerable later |
| `PrekeyRuns.EncodingExists` | packages/crypto-core/src/prekey/store.rs:113-144 | every new store whose secrets fit in 32 bytes can be written and read back |
| `PrekeyRuns.CardAnsweredAfterRestart` | packages/crypto-core/src/prekey/store.rs:113-144 | a run that meets the hypotheses: card, restart, handshake with one secret on both sides |
| `MailboxObject.MailboxStore.constructor` | packages/p2p-core/src/mailbox.rs:279-289 | an empty cache with the default limit |
| `MailboxObject.MailboxStore.SetLimitBytes` | packages/p2p-core/src/mailbox.rs:291-293 | changes the limit alone |
| `MailboxObject.MailboxStore.RemoveLocked` | packages/p2p-core/src/mailbox.rs:363-378 | drops one entry, its index pair and its envelope's length |
| `MailboxObject.MailboxStore.EvictOldest` | packages/p2p-core/src/mailbox.rs:346-361 | drops the lowest key, or reports an empty cache |
| `MailboxObject.MailboxStore.EvictUntilRoomFor` | packages/p2p-core/src/mailbox.rs:328-342 | the eviction loop, which terminates |
| `MailboxRuns.EvictionExactly` | packages/p2p-core/src/mailbox.rs:328-342 | eviction drops the shortest oldest-first prefix that suffices, or everything |
| `MailboxObject.MailboxStore.Accept` | packages/p2p-core/src/mailbox.rs:306-326 | makes room, stores the deposit, indexes it and counts its serialized bytes |
| `MailboxRuns.AcceptKeepsInv` | packages/p2p-core/src/mailbox.rs:306-326 | the index stays exactly the tag-key relation and the counter never falls below the bytes stored |
| `MailboxRuns.AcceptExactly` | packages/p2p-core/src/mailbox.rs:301-342 | what the cache holds after accepting; the bytes stored are within the limit or the new deposit is alone |
| `MailboxRuns.AcceptedIsFound` | packages/p2p-core/src/mailbox.rs:306-326 | a deposit just accepted is found under its tag, with its time, digest and envelope |
| `MailboxRuns.StoredBytesExactly` | packages/p2p-core/src/mailbox.rs:308-310 | the bytes stored are forty for each deposit beside its envelope |
| `MailboxObject.MailboxStore.Remove` | packages/p2p-core/src/mailbox.rs:383-398 | removes one key, or nothing if absent |
| `MailboxRuns.RemoveExactly` | packages/p2p-core/src/mailbox.rs:363-398 | removing takes away exactly the key's entry, its index pair and its envelope's length |
| `MailboxObject.MailboxStore.EvictExpired` | packages/p2p-core/src/mailbox.rs:444-464 | the expiry loop |
| `MailboxRuns.KeyOrderIsTimeOrder` | packages/p2p-core/src/mailbox.rs:229-234 | byte order of keys is time order |
| `MailboxRuns.KeyCarriesTime` | packages/p2p-core/src/mailbox.rs:254-260 | a key's first eight bytes read back the deposit time |
| `MailboxRuns.ExpiryExactly` | packages/p2p-core/src/mailbox.rs:441-464 | stopping at the first fresh key leaves exactly the entries whose first eight key bytes are at most two weeks back |
| `MailboxRuns.DepositExpiry` | packages/p2p-core/src/mailbox.rs:441-464 | a stored deposit stays exactly while it is at most 1209600 seconds old |
| `MailboxObject.MailboxStore.ForTag` | packages/p2p-core/src/mailbox.rs:403-422 | the lookup through the index returns the tag's stored deposits in key order |
| `MailboxRuns.LookupExactly` | packages/p2p-core/src/mailbox.rs:400-422 | that is exactly the tag's deposits, oldest first |
| `MailboxObject.MailboxStore.DistinctTags` | packages/p2p-core/src/mailbox.rs:427-439 | each tag with a stored deposit, once |
| `MailboxRuns.StepKeepsInv` | packages/p2p-core/src/mailbox.rs:306-464 | every operation keeps the invariant; a removal leaves the counter 40 too high, a re-acceptance a whole deposit |
| `MailboxRuns.CounterOverRuns` | packages/p2p-core/src/mailbox.rs:239-242 | over every run the counter's excess is exactly 40 per removal plus the bytes accepted twice |
| `MailboxRuns.CounterExactly` | packages/p2p-core/src/mailbox.rs:239-242 | the counter is the stored bytes exactly if nothing was removed or accepted twice |
| `MailboxRuns.StarvesExactly` | packages/p2p-core/src/mailbox.rs:328-342 | accepting leaves the new deposit alone exactly if the newest stored one does not fit beside it and the counter's excess |
| `MailboxRuns.ExcessStarves` | packages/p2p-core/src/mailbox.rs:328-342 | so it is for every deposit once two of the smallest no longer fit beside the excess |
| `MailboxRuns.StarvedForever` | packages/p2p-core/src/mailbox.rs:328-342 | and under an unchanged limit it stays so for ever |
| `MailboxRuns.StarvedExactly` | packages/p2p-core/src/mailbox.rs:328-342 | an emptied cache is starved for ever exactly if its excess leaves no room for two of the smallest deposits |
| `MailboxRuns.DeliveriesStarve` | packages/p2p-core/src/mailbox.rs:301-398 | under the default limit storing and delivering a deposit again and again starves the cache for ever after exactly 1310718 deliveries |
| `MailboxRuns.StoredTwiceDeliveredOnce` | packages/p2p-core/src/mailbox.rs:306-398 | two deposits stored and one delivered: no collision, the invariant throughout, and a counter 40 too high |
| `MailboxStamp.CountLeadingZeroBits` | packages/p2p-core/src/mailbox.rs:166-177 | the counting loop |
| `MailboxStamp.ZeroBitsBoundValue` | packages/p2p-core/src/mailbox.rs:166-181 | at least k leading zero bits means an integer below two to the remaining bits |
| `MailboxStamp.MineStamp` | packages/p2p-core/src/mailbox.rs:191-200 | the least nonce that meets the difficulty, or none if there is none |
| `MailboxStamp.ValidExactly` | packages/p2p-core/src/mailbox.rs:209-225 | a deposit passes exactly if its size and time are in bounds and its digest is below 2^236 |
| `MailboxStamp.ValidDepositsRun` | packages/p2p-core/src/mailbox.rs:209-398 | such a run with deposits that validation lets through |

## Left out

- IEEE-754 rounding in `target_as_f64`, `f64_as_target` and `work_of`: work and retarget ratios are exact reals; only the largest 32-byte target is read as the double it rounds to, 2^256.
- Integer widths of heights, counters and sums: heights, message counters, cumulative timestamps and byte counters are unbounded; the wrap-around of the signed time span, the sync subtraction, nonces and decoded varints is modelled.
- Hash functions, signatures, HKDF, HMAC, X25519 and the AEAD are parameters or symbolic terms; nonces and keys are fresh by assumption, and an attacker seals only under keys of other sessions.
- The associated data of a message is a pair of caller data and header; `MessageCodec.AssociatedDataDeterminesBoth` says when its bytes determine both.
- Hashes are integers, byte strings only where `LedgerBytes`, `Difficulty` and the mailbox need them; usernames are ASCII bytes.
- Storage errors other than a crash at a transaction boundary, and the encoding of the tables' values.
- MailboxStamp.MineStamp: returns none where the program's loop, finding no nonce in 2^64, never returns.
- Mining.Mine: covers exactly the searches that end; the program's loop has no bound of its own.
- Mining.MinedBlockIsValid: covers further accepted blocks but no pruning; `Mining.MinedBlockValidExactly` covers both.
- RatchetCodec.RatchetRoundTrip: for fewer than 2^32 skipped keys; the store's cap is 2000.
- Restarts of a prekey store or a ratchet are from the latest saved state; restoring an older one is not modelled. Saved bytes are assumed to read back only for the keys actually saved.
- The headers table is written as in the program, but nothing reads it and no theorem speaks of it.
- Responses other than tips and blocks in chain sync, event reporting, mining generations and thread handling.
- libp2p, gossip, mix routing, the FFI crate, the Swift and TypeScript layers, contact cards' own codec, fingerprints, recovery phrases, DHT records, mailbox tag derivation.
