# Bitflash: a verified model of its protocols

This project models, in Dafny, the parts of Bitflash where a mistake costs coins or consent,
and proves what they promise over all inputs, all runs and all interleavings:

- the atomic-swap engine of the chat (`Swaps`, `SwapTick`, `SwapSteps`, `SwapRuns`,
  `SwapApprovals`, `SwapPresses`, `SwapEngines`);
- the light client: header index, difficulty, scan cursor, block filters, merkle check
  (`CompactTarget`, `BigNum`, `Retargets`, `Medians`, `HeaderIndex`, `LightHeaders`,
  `KeptBlocks`, `ScanCursor`, `ScanLosses`, `Bits`, `Golomb`, `Filter`, `FilterCode`, `Merkle`);
- the chat's delivery path: roster, replay table, history, outbox, inbox, and the ratcheted
  channel below it (`Rosters`, `RosterClass`, `Replay`, `Indexed`, `Histories`, `Outboxes`,
  `Inboxes`, `InboxRuns`, `Channel`, `ChannelRuns`);
- the chain scripts: main-chain choice, replay into unspent outputs, the commitment to them
  with its proofs, the treasury's ledger (`MainChain`, `Ledger`, `Treasury`, `UtxoProof`);
- cashaddr addresses (`Regroup`, `CashChecksum`, `CashTwoErrors`, `CashAddr`).

`Options`, `Maps`, `Texts`, `Powers` and `Sorting` are shared helpers; each file holds the module of
its name. `dafny verify dfyconfig.toml` checks
everything.

How the model is built. Code that computes a value is a function; code that changes a record,
a map or a buffer step by step is a method or a class whose contract ties the new state to a
function of the old one. Whole runs are state machines whose steps are those functions: the
swap engine with its copy in flight while the person presses buttons, two links joined by an
adversary, the inbox between the person's own moves, the scan cursor under reorganisations.
The wallet, the chains, the peer, the clock and the network are arguments, one answer for each
place the code asks. Signatures and sealed boxes are ideal; hashes are functions, free of
collisions only on the finite sets of inputs a statement names. A block checked against its header
has the transactions that header commits to, and a transaction's id names it.

## What the proofs brought out

- That an approval pressed while a round works on a swap survives exactly if the stage is unchanged
  holds if and only if the swap was not approved when the round copied it
  (`SwapPresses.ApprovalRule`). On a copy that was approved already, the merge keeps what the tick
  made of that first approval, so a second one is lost exactly where the tick takes the first back:
  nowhere to pay, no address of ours, or a lock the wallet did not answer
  (`SwapPresses.ApprovalStands`, `SwapPresses.SecondApprovalLost`).
- An exception that throws a ticked copy away after its lock was answered lets the same approval
  lock again; each such copy costs at most one more lock (`SwapPresses.LocksTwice`,
  `SwapApprovals.TriesWithinApprovals`).
- The maker's audit is held against the hash of its own secret exactly when the wallet's answer
  to the lock named that hash; with an answer that leaves it out, the comparison is skipped
  (`SwapRuns.HashHeldExactly`, `SwapRuns.SecretShownUnderAnyHash`).
- A script watched after headers of a reorganisation were added and before the cursor was
  reconciled moves the remembered block onto the new branch, so that blocks can be skipped for
  scripts watched before. It is harmless exactly when every active block between the fork and the
  new cursor was already covered for those scripts (`ScanCursor.WatchExact`,
  `ScanLosses.WatchCanSkip`).
- A window that starts at time zero exactly is taken for "no birthday", and the next watch moves the
  birthday up past it; blocks of the first window are then passed over unread
  (`ScanLosses.ZeroStartForgotten`).
- Once every payment to a contract that is known is spent with six confirmations, the contract is no
  longer looked for, and a further payment to it is passed over (`ScanLosses.SecondPaymentMissed`).
  With that and the window's start as the only exceptions, a payment and what spends it are both
  found in every run whose watches are harmless (`ScanCursor.RunFinds`).
- A single changed character in a cashaddr can only be accepted as the same letter in the other
  case, except that with a prefix of exactly eighteen characters, which no chain has, the checks of
  length do not rule out a colon that comes or goes (`CashAddr.OneWrongCharacter`,
  `CashAddr.TwoWrongCharacters`).
- `Roster::Block` takes the address out of every group; the comments in src/btfchat.h and
  src/btfchat.cpp speak of the groups we run only. The model follows the code.
- `Outbox::Expire` drops a message in the very second in which its receiver would still take it
  (`Outboxes.DroppedInTime`).
- `MatchFilter` leaves `match` set when only the padding of a filter is wrong. The filter is
  refused all the same (`FilterCode.MatchFilter`).

## Model

| member | source | states |
|---|---|---|
| `Swaps.CheckTheirs` | src/btfchatswap.cpp:251-310 | good exactly for a contract that pays our address, unspent, the exact amount, confirmed, with the time left and under the expected hash when there is one; waits exactly for a contract not found, not on the chain yet, or only short of its confirmations |
| `Swaps.BumpedRate` | src/btfchatswap.cpp:765-765 | a bumped fee rate is between 2000 and 1000000 and never below a rate within the cap |
| `SwapTick.NewAddress` | src/btfchatswap.cpp:207-219 | asks the wallet only when we have no address yet, and refuses only when it has none |
| `SwapTick.TakeLockResult` | src/btfchatswap.cpp:355-371 | keeps the wallet's answer to a lock whole, or changes nothing |
| `SwapTick.SettleRefund` | src/btfchatswap.cpp:378-397 | a refund waited for is in a block, given up, or still waited for |
| `SwapTick.SendRefund` | src/btfchatswap.cpp:449-493 | the refund only once our lock has run out, and where the swap stands after each answer |
| `SwapTick.TryRefund` | src/btfchatswap.cpp:374-493 | the refund at the end of our lock, for every answer of wallet and chain |
| `SwapTick.TickInviting` | src/btfchatswap.cpp:518-559 | inviting: the take goes out only to somebody who accepted |
| `SwapTick.TickTakeReceived` | src/btfchatswap.cpp:570-605 | the maker locks only with the approval, which a failure takes back |
| `SwapTick.TickChecking` | src/btfchatswap.cpp:607-654 | the taker goes on only with a contract that checks out, under its hash |
| `SwapTick.TickWaitPayment` | src/btfchatswap.cpp:656-695 | a contract waiting for its payment: locked, refunded or still waiting |
| `SwapTick.TickLocked` | src/btfchatswap.cpp:697-738 | ours is announced, watched for the secret and refunded in the end |
| `SwapTick.BumpRedeem` | src/btfchatswap.cpp:742-779 | a redeem already sent is finished or sent again with a higher fee |
| `SwapTick.TickRedeeming` | src/btfchatswap.cpp:740-848 | the first redeem of a maker only after an audit in the same tick |
| `SwapTick.TickRefunding` | src/btfchatswap.cpp:850-866 | while refunding, a secret shown on our contract still leads to the redeem |
| `SwapTick.Tick` | src/btfchatswap.cpp:499-868 | the whole tick, field by field, is the function the run proofs are about |
| `SwapSteps.TickKeeps` | src/btfchatswap.cpp:499-868 | every tick keeps the record sound, never moves it back, leaves what was agreed alone and makes only calls that the record and the audits of that tick allow |
| `SwapRuns.MergeExact` | src/btfchatswap.cpp:998-1025 | a cancel, a withdrawal and a new destination pressed mid-round stand; an approval of a copy that had none stands exactly if the stage did not change, and of one that had, the tick's own is kept |
| `SwapRuns.NextKeeps` | src/btfchatswap.cpp:967-1149 | every step of every interleaving keeps the invariant |
| `SwapRuns.RunKeeps` | src/btfchatswap.cpp:967-1149 | so does every run |
| `SwapRuns.NeverBackRun` | src/btfchatswap.cpp:126-129 | final stages are never left and no swap moves back, whatever interleaves |
| `SwapRuns.CancelStands` | src/btfchatswap.cpp:1113-1149 | an accepted cancel is never lost, in any continuation: cancelled for good without a funding of ours, or never again waiting for a payment or locked |
| `SwapRuns.CancelledUnfunded` | src/btfchatswap.cpp:998-1025 | no reachable cancelled swap has a funding transaction of ours |
| `SwapApprovals.TickTries` | src/btfchatswap.cpp:570-654 | a tick asks for a lock at most once, only with the approval on and nothing locked; an approval it leaves on was not used |
| `SwapApprovals.TriesWithinApprovals` | src/btfchatswap.cpp:967-1149 | in every run, for every swap, lock calls, answered or not, are no more than the approvals given for it and the copies thrown away after such a call |
| `SwapApprovals.LocksAtMostOnce` | src/btfchatswap.cpp:570-654 | in every run, for every swap, the wallet answers one lock, and one more for each answer that an exception threw away |
| `SwapPresses.TakenBackExactly` | src/btfchatswap.cpp:503-654 | a tick takes an approval back exactly where there is nowhere to pay, no address of ours, or a lock call without an answer, and then leaves the stage alone |
| `SwapPresses.ApprovalStands` | src/btfchatswap.cpp:1003-1017 | in every reachable state, when the approval on a stored swap outlives the merge: by the stage for a copy that had none, by what the tick did for a copy that had one |
| `SwapPresses.ApprovalRule` | src/btfchatswap.cpp:998-1017 | in every reachable state, a mid-round approval survives exactly if the stage is unchanged, whatever is answered and whenever it is pressed, if and only if the swap was not approved when the round began |
| `SwapPresses.SecondApprovalLost` | src/btfchatswap.cpp:998-1015 | a run from an empty engine in which an approval given over a failing first one is lost, the stage unchanged |
| `SwapPresses.LocksTwice` | src/btfchatswap.cpp:967-1015 | a run from an empty engine that reaches both bounds: one approval, one copy thrown away, two answered locks |
| `SwapRuns.SecretShownOnlyAudited` | src/btfchatswap.cpp:780-811 | in every run the first call with a maker's secret comes right after an audit of the very contract redeemed that showed it pays us; the secret is the one our wallet made |
| `SwapRuns.SecretShownUnderOurHash` | src/btfchatswap.cpp:780-811 | with a wallet that names the hash of its locks, the audited hash is that hash |
| `SwapRuns.HashHeldExactly` | src/btfchatswap.cpp:273-278 | with a stored hash the secret is shown only under it; it is empty if and only if for every hash whatever some world has the secret shown under that hash |
| `SwapRuns.SecretShownUnderAnyHash` | src/btfchatswap.cpp:273-278 | from an empty engine, for every hash whatever, a run in which the maker first shows the secret to a contract under that hash |
| `SwapRuns.TakerLocksOnlyAudited` | src/btfchatswap.cpp:607-654 | in every run a taker locks only right after its own audit, under the audited hash, the agreed amount, with the person's approval before it |
| `SwapRuns.LaterCallsRest` | src/btfchatswap.cpp:742-778 | fee bumps come only after a first redeem, refunds only right after an audit that showed our lock run out |
| `SwapEngines.ReadTwice` | src/btfchatswap.cpp:932-963 | a log read again changes nothing: no step of the peer is applied twice |
| `SwapEngines.ReadSeen` | src/btfchatswap.cpp:945-949 | after reading, exactly the old ids and the log's are marked as seen |
| `SwapEngines.Moved` | src/btfchatswap.cpp:905-928 | a peer's step on one swap: the two locks and the cancel, each only in its stage and role |
| `SwapEngines.SwapEngine.Approve` | src/btfchatswap.cpp:1081-1098 | approves exactly where there is something to approve |
| `SwapEngines.SwapEngine.SetBitcoinDestination` | src/btfchatswap.cpp:1100-1111 | a destination of 1 to 90 characters, only before our contract and our redeem |
| `SwapEngines.SwapEngine.Cancel` | src/btfchatswap.cpp:1113-1149 | cancels, withdraws or refuses, and who is told |
| `SwapEngines.SwapEngine.Take` | src/btfchatswap.cpp:1055-1079 | starts a taker's swap with the offer's two sides turned round, never on our own offer |
| `SwapEngines.SwapEngine.OnStep` | src/btfchatswap.cpp:874-930 | the table after a step of the peer |
| `SwapEngines.SwapEngine.ReadSteps` | src/btfchatswap.cpp:932-965 | every log line is handled once, in order |
| `SwapEngines.SwapEngine.MergeBack` | src/btfchatswap.cpp:998-1025 | the merge, as the run proofs use it |
| `SwapEngines.SwapEngine.Tend` | src/btfchatswap.cpp:976-1027 | copy, tick and merge with nothing landing in between is the tick on the stored swap |
| `SwapEngines.SwapEngine.Round` | src/btfchatswap.cpp:967-1031 | a whole round: the peer's new steps, then each swap in progress ticked once in the order of ids, up to where a shutdown stops it |
| `CompactTarget.BitsIsFloat` | src/btclight.cpp:89-98 | `Bits` is the normalised compact form |
| `CompactTarget.TargetOfBits` | src/btclight.cpp:80-98 | decoding what was encoded gives the number cut to its mantissa |
| `CompactTarget.TargetBelow256` | src/btclight.cpp:80-88 | every target is a 256-bit number |
| `CompactTarget.TruncLoss` | src/btclight.cpp:80-98 | the encoding never raises a target, loses less than one part in 2^15 and never all of it |
| `CompactTarget.TruncMono` | src/btclight.cpp:80-98 | order survives the encoding |
| `CompactTarget.BitsIdempotent` | src/btclight.cpp:80-98 | encoding is idempotent through decoding |
| `CompactTarget.CanonicalRoundTrip` | src/btclight.cpp:80-98 | a compact word survives decoding and encoding if and only if it is canonical |
| `BigNum.CBigNum.SetCompact` | src/bignum.h:275-286 | the held number is the word's signed value, of any size |
| `BigNum.CBigNum.GetCompact` | src/bignum.h:288-300 | for every number: the form that `Bits` computes, with the sign bit set for a negative one |
| `BigNum.SignedFloat` | src/bignum.h:288-300 | size and first bytes of the signed body are that form |
| `BigNum.MpiFloat` | src/bignum.h:288-298 | reading the first bytes of the big-endian form gives the normalised compact form |
| `BigNum.OverflowsExactly` | src/btclight.cpp:80-88 | the test on size and word finds exactly the values of 256 bits and more |
| `BigNum.TargetAgreesWithCBigNum` | src/btclight.cpp:80-88 | `Target` is the number `SetCompact` leaves wherever that is in [0, 2^256), and zero elsewhere |
| `Retargets.RetargetBand` | src/btclight.cpp:148-153 | a retarget moves a target within [1/4, 4], up to the cap and the encoding's loss |
| `Retargets.DigiShieldBand` | src/btclight.cpp:170-177 | DigiShield moves a target within [3/4, 3/2], up to the same |
| `Retargets.LitecoinBand` | src/btclight.cpp:157-167 | Litecoin's halving first costs only the lowest bits |
| `Retargets.RetargetMonotone` | src/btclight.cpp:148-177 | a longer time never yields a smaller target |
| `Retargets.FactorRange` | src/btclight.cpp:219-230 | the cubic fits in 64 bits for every fraction and the factor is in [65536, 131071] |
| `Retargets.FactorMono` | src/btclight.cpp:219-230 | the factor grows with the fraction |
| `Retargets.AsertTargetMono` | src/btclight.cpp:219-230 | the target is monotone in the exponent, across the steps of the shift |
| `Retargets.AsertWithinLimit` | src/btclight.cpp:219-230 | the target is never above the limit and never zero |
| `Retargets.AsertMonotone` | src/btclight.cpp:219-230 | the target is monotone in elapsed time through truncating division, flooring shift, cap and encoding |
| `Retargets.AsertOnSchedule` | src/btclight.cpp:219-230 | a chain exactly on schedule keeps its anchor's bits |
| `Medians.GrowingMedian` | src/btclight.cpp:715-726 | a larger time joining a window never lowers its median |
| `Medians.SlidingMedian` | src/btclight.cpp:715-726 | nor when a full window of odd size drops its oldest for it |
| `HeaderIndex.MedianAlongBranch` | src/btclight.cpp:849-849 | median time past never decreases along any accepted branch, with full or short windows |
| `HeaderIndex.GrownValid` | src/btclight.cpp:852-866 | after one more header the active vector is the parent-linked path to a header of most work |
| `HeaderIndex.StepKeeps` | src/btclight.cpp:775-868 | one `Add` keeps that, keeps the anchor's prefix, and moves the tip only to strictly more work |
| `HeaderIndex.Run` | src/btclight.cpp:775-868 | so does every sequence of `Add` calls |
| `LightHeaders.EarlyExit` | src/btclight.cpp:852-866 | the rewrite loop may stop at the first entry that is already right, also on a shorter or much longer branch |
| `LightHeaders.Headers.constructor` | src/btclight.cpp:670-701 | the index starts as its anchor, in order, sound |
| `LightHeaders.Headers.ActiveHeight` | src/btclight.cpp:709-714 | the height exactly of the headers on the active chain |
| `LightHeaders.Headers.Median` | src/btclight.cpp:715-726 | the median of up to eleven times back from a header |
| `LightHeaders.Headers.Add` | src/btclight.cpp:775-868 | in place, what `StepKeeps` is about, and when it says yes |
| `LightHeaders.Headers.ForkHeight` | src/btclight.cpp:869-878 | the highest active ancestor's height, or -1 for an unknown hash |
| `LightHeaders.Headers.Locator` | src/btclight.cpp:879-885 | the thinned list of active hashes from tip to base |
| `LightHeaders.ThinShape` | src/btclight.cpp:879-885 | it starts at the tip, ends at the base, and its newest entries stand without a gap |
| `ScanCursor.OldMeans` | src/btclight.cpp:1357-1360 | above the anchor, a block counted as before a window has its own time or its median time before the window's start |
| `ScanCursor.WindowOld` | src/btclight.cpp:1710-1713 | every active block below the window a watch computes is before the window's start |
| `ScanCursor.ReconcileExact` | src/btclight.cpp:1237-1252 | below the cursor every active header is an ancestor of the block last scanned, and the cursor is the highest such |
| `ScanCursor.ReconcileCovers` | src/btclight.cpp:1237-1252 | a reorganisation skips no block |
| `ScanCursor.SkippedCovers` | src/btclight.cpp:1358-1360 | blocks two hours before the birthday are before every window, so passing them over loses nothing |
| `KeptBlocks.CompleteMeans` | src/btclight.cpp:1736-1760 | a contract counts as complete only if a kept block on the active chain pays it and every such payment is spent in such a block with six confirmations |
| `KeptBlocks.CompleteIf` | src/btclight.cpp:1736-1760 | the other way round, where no known spend of a payment has fewer |
| `KeptBlocks.KnownTransactions` | src/btclight.cpp:1721-1735 | the table of the transactions in kept blocks on the active chain, each at its height |
| `KeptBlocks.TableHas` | src/btclight.cpp:1721-1735 | no transaction of such a block is missing from it |
| `KeptBlocks.ActiveScripts` | src/btclight.cpp:1736-1760 | exactly the watched scripts that are not complete |
| `KeptBlocks.MatchBlock` | src/btclight.cpp:1384-1394 | a block is kept exactly if a transaction of it pays a wanted script or spends a known payment, with the payments it adds |
| `KeptBlocks.ReadBlocks` | src/btclight.cpp:1376-1395 | the blocks of a batch that are kept, each judged by what the ones before it paid |
| `KeptBlocks.FoundSpends` | src/btclight.cpp:1384-1394 | a block that spends a payment known before the batch, or made earlier in it, is kept |
| `ScanCursor.KeptRead` | src/btclight.cpp:1364-1397 | what a batch reads for a script it looks for is kept: payments, and spends of payments in kept blocks below |
| `ScanCursor.BrokenCovers` | src/btclight.cpp:1378-1397 | a batch that breaks off, or that a new watch overtakes, loses nothing that was accounted for |
| `ScanCursor.AdvancedCovers` | src/btclight.cpp:1361-1397 | after a batch every block of it was read, with what it has kept, for the scripts it looked for, or passed for the complete ones |
| `ScanCursor.WatchExact` | src/btclight.cpp:1690-1720 | a watch landing at any moment keeps the scan able to resume and the birthday below every window if and only if the blocks between fork and new cursor were covered and no older window is forgotten |
| `ScanCursor.WatchSettled` | src/btclight.cpp:1690-1720 | on a settled cursor the blocks are always covered |
| `ScanLosses.WatchCanSkip` | src/btclight.cpp:1690-1720 | a run from a chain just started after which a watch and a reconcile leave a block below the cursor that was never read for a script |
| `ScanLosses.ZeroStartForgotten` | src/btclight.cpp:1716-1716 | such a run in which a start of zero is forgotten and a block of its window may be passed over |
| `ScanLosses.SecondPaymentMissed` | src/btclight.cpp:1361-1363 | such a run in which a payment to a complete contract is below the cursor, within the window and not in the table |
| `ScanCursor.Started` | src/btclight.cpp:1137-1147 | a fresh state, reconciled once, satisfies the invariant |
| `ScanCursor.RunCovers` | src/btclight.cpp:1237-1397 | in every run from the start with harmless watches, at every settled point, each active block below the cursor was read for the script with what it has for it kept, or passed while the kept blocks of that time showed the contract complete, or is older than its window |
| `ScanCursor.RunFinds` | src/btclight.cpp:1762-1800 | in every such run, a payment below the cursor and what spends it are both in the table of known transactions, with those exceptions only |
| `ScanCursor.Scanner.Reconcile` | src/btclight.cpp:1237-1252 | the cursor after a reorganisation |
| `ScanCursor.Scanner.Watch` | src/btclight.cpp:1690-1720 | the cursor, the window's start and the birthday after a watch, and what is left behind where it throws |
| `ScanCursor.Scanner.FollowTip` | src/btclight.cpp:1357-1357 | with nothing watched the cursor follows the tip |
| `ScanCursor.Scanner.SkipOld` | src/btclight.cpp:1358-1360 | passes over exactly the blocks two hours before the birthday, up to the first that is not |
| `ScanCursor.Scanner.BeginBatch` | src/btclight.cpp:1361-1376 | what a batch looks for and which payments are known when it begins |
| `ScanCursor.Scanner.Receive` | src/btclight.cpp:1377-1395 | which of the blocks that came in are kept |
| `ScanCursor.Scanner.FinishBatch` | src/btclight.cpp:1396-1396 | the cursor after a batch: moved on only if no watch came meanwhile |
| `ScanCursor.Scanner.RunBatch` | src/btclight.cpp:1361-1397 | a batch, the jump when every contract is complete, or a batch that breaks off, as the run proofs use them |
| `ScanCursor.Scanner.WatchDuringBatch` | src/btclight.cpp:1373-1397 | a watch landing inside a batch is not overwritten by the batch's advance, and what the batch brings is kept |
| `ScanCursor.Scanner.ScanBlocks` | src/btclight.cpp:1350-1397 | a call of it is a piece of a run: following, passing over, a batch, or one that breaks off |
| `Golomb.ParsesCodes` | src/btclight.cpp:910-917 | parsing the code of an ascending list gives the list and stops at its end |
| `Golomb.CodesParse` | src/btclight.cpp:929-942 | whatever is parsed is ascending and in range, and the bits read are its code |
| `Filter.CountsCompact` | src/btclight.cpp:41-45 | the count is read back from its compact form |
| `Filter.CompactCounts` | src/btclight.cpp:46-55 | every accepted count is in its one compact form |
| `Filter.FilterRoundTrip` | src/btclight.cpp:903-947 | every well-formed list of values is read back from its filter |
| `Filter.FilterCanonical` | src/btclight.cpp:920-947 | every accepted byte string is the one filter of the sorted values it is read as |
| `FilterCode.MappedBelow` | src/btclight.cpp:893-896 | a mapped hash is below the range |
| `FilterCode.Bit` | src/btclight.cpp:897-902 | one bit at the end of what was written |
| `FilterCode.PutCode` | src/btclight.cpp:912-916 | one difference written as quotient, zero and nineteen bits |
| `FilterCode.EncodeFilter` | src/btclight.cpp:903-919 | the filter of the scripts' values, empty and data-only scripts and repetitions left out |
| `FilterCode.ReadDelta` | src/btclight.cpp:931-937 | one difference read, or the exception |
| `FilterCode.MatchFilter` | src/btclight.cpp:920-948 | accepts exactly the filters and reports a hit exactly when a queried value is among the values read |
| `FilterCode.FilterMatches` | src/btclight.cpp:903-948 | a filter of up to a million scripts is accepted and matches exactly when a queried script's value is in the set |
| `FilterCode.AcceptedExactly` | src/btclight.cpp:925-925 | an encoded filter is accepted if and only if it holds at most a million scripts |
| `FilterCode.NoFalseNegatives` | src/btclight.cpp:903-948 | a script that went into the filter always matches |
| `Merkle.VerifyTree` | src/btclight.cpp:949-965 | accepts exactly the lists with the given root and no equal pair at any level |
| `Merkle.OneListPerRoot` | src/btclight.cpp:949-965 | two lists that pass against one root are the same list |
| `Merkle.DuplicatedTail` | src/btclight.cpp:949-965 | without the equal-pair rule a longer list would pass |
| `Rosters.RosterRuns` | src/btfchat.cpp:418-701 | in every run: pending are exactly those who asked, nobody is accepted without a yes from both sides since the last decline, no invite from and no group with somebody blocked, joined and pending groups are disjoint, the list is bounded |
| `Rosters.BlockedForGood` | src/btfchat.cpp:516-545 | a block is for good and no frame of any kind gets past it |
| `Rosters.StateMoves` | src/btfchat.cpp:418-545 | every way one address's state can change, and by which move |
| `RosterClass.Roster.NoteIncomingInvite` | src/btfchat.cpp:418-451 | an invite is filed, crosses ours, or is refused |
| `RosterClass.Roster.NoteOutgoingInvite` | src/btfchat.cpp:453-474 | an invite of ours, or the answer to theirs |
| `RosterClass.Roster.Accept` | src/btfchat.cpp:476-489 | accepts only somebody who asked |
| `RosterClass.Roster.NoteInviteAccepted` | src/btfchat.cpp:491-501 | accepts only somebody we asked |
| `RosterClass.Roster.Decline` | src/btfchat.cpp:503-514 | forgets an invite and its sender |
| `RosterClass.Roster.BlockPeer` | src/btfchat.cpp:516-545 | blocks, drops their invites and takes them out of every group |
| `RosterClass.Roster.Create` | src/btfchat.cpp:547-568 | a new group with us as its admin and only member |
| `RosterClass.Roster.NoteInvite` | src/btfchat.cpp:570-607 | a group invite from its admin, not blocked, within the cap |
| `RosterClass.Roster.AcceptGroup` | src/btfchat.cpp:609-631 | joins with the invite's group and ourselves, and changes nobody's state |
| `RosterClass.Roster.AddMember` | src/btfchat.cpp:633-647 | only the admin, in the group, adds somebody not blocked and not in it |
| `RosterClass.Roster.RemoveMember` | src/btfchat.cpp:649-662 | only the admin removes, and never the admin |
| `RosterClass.Roster.Leave` | src/btfchat.cpp:664-676 | the group is forgotten |
| `Replay.ReplayGuard.Prune` | src/btfchatmsg.cpp:483-492 | exactly the ids past the age limit go |
| `Replay.ReplayGuard.Accept` | src/btfchatmsg.cpp:494-527 | admits a frame in time, not remembered, with room left |
| `Replay.OfferedRemembers` | src/btfchatmsg.cpp:483-527 | an id is forgotten only when its own frame is too old to be admitted, so no frame is admitted twice |
| `Replay.OfferedBounded` | src/btfchatmsg.cpp:513-519 | the table stays within its cap |
| `Histories.History.PushInto` | src/btfchatlog.cpp:27-46 | a line at the end, the oldest of a full conversation gone with its id |
| `Histories.History.Append` | src/btfchatlog.cpp:48-115 | which frames are recorded, under which conversation, once |
| `Histories.History.Forget` | src/btfchatlog.cpp:133-155 | a conversation goes with exactly its ids |
| `Histories.AppendedOk` | src/btfchatlog.cpp:27-115 | recording and evicting keep the index exact, ids distinct and the caps |
| `Histories.ForgottenOk` | src/btfchatlog.cpp:133-155 | forgetting keeps them too |
| `Histories.SeenIsLogged` | src/btfchatlog.cpp:58-64 | an id is marked as seen if and only if a line with it is there |
| `Outboxes.Outbox.Size` | src/btfchatlog.cpp:391-398 | the number of messages waiting |
| `Outboxes.Outbox.Add` | src/btfchatlog.cpp:293-325 | queues a new message within both caps, keeps the index exact |
| `Outboxes.Outbox.Remove` | src/btfchatlog.cpp:344-361 | the message with that id goes, all others keep their place |
| `Outboxes.Outbox.Expire` | src/btfchatlog.cpp:363-389 | exactly the messages past the age limit go, counted, the rest in order, the index exact |
| `Outboxes.Outbox.ForgetPeer` | src/btfchatlog.cpp:406-414 | a peer's queue goes with exactly its ids |
| `Outboxes.DroppedInTime` | src/btfchatlog.cpp:372-374 | what is dropped no receiver takes at a later second, what is kept none refuses for its age, and the one second between the two |
| `Inboxes.Inbox.Judge` | src/btfchatlink.cpp:198-248 | signature, hand-over, consent and proof, in that order |
| `Inboxes.Inbox.Effect` | src/btfchatlink.cpp:252-302 | exactly one effect per kind of frame, and the reply it asks for |
| `Inboxes.Inbox.Deliver` | src/btfchatlink.cpp:198-303 | the whole delivery over roster, replay table and history |
| `Inboxes.Inbox.DeliverPost` | src/btfchatnode.cpp:1594-1608 | a community post goes into its log once, never from somebody blocked |
| `InboxRuns.AtMostOnce` | src/btfchatlink.cpp:198-303 | under a clock that does not go back, over a whole run, a frame is taken at most once, delivered or posted, and the replay table keeps its cap |
| `InboxRuns.LinesNeedConsent` | src/btfchatlink.cpp:210-291 | whoever has a line in a direct conversation was accepted by a yes from both sides, or is blocked by now |
| `InboxRuns.IndexAlwaysExact` | src/btfchatlog.cpp:27-162 | in every run the seen-id index is the set of ids in the logs, all distinct |
| `InboxRuns.BlockedUnheard` | src/btfchatlink.cpp:198-237 | whatever somebody blocked sends, of any kind and at any moment of any run, all tables and everything taken later are as if it had not been sent |
| `Channel.WriteCounter` | src/btfchan.cpp:282-284 | the counter's eight bytes, big endian |
| `Channel.ReadCounter` | src/btfchan.cpp:327-329 | the number eight bytes stand for |
| `Channel.CounterRoundTrip` | src/btfchan.cpp:282-329 | every 64-bit counter is read back |
| `Channel.ChanSession.Derive` | src/btfchan.cpp:90-122 | one side's sending chain is the other's receiving chain |
| `Channel.ChanSession.EncryptFrame` | src/btfchan.cpp:279-313 | the frame under this step's key, and the ratchet moved on |
| `Channel.ChanSession.DecryptBody` | src/btfchan.cpp:315-370 | opens only the expected frame; a refused body leaves keys and counters alone |
| `Channel.Link.SendFrame` | src/btfchatlink.cpp:117-146 | what is sent fits the receiver's limits, and a failed write closes the link |
| `Channel.Link.RecvFrame` | src/btfchatlink.cpp:148-194 | a frame, or a closed link |
| `ChannelRuns.ChannelSafe` | src/btfchan.cpp:279-370 | whatever an adversary does, each side accepted a prefix of what the other sealed; with two handshakes nothing; no frame key is used twice, not even past the counter's wrap-around |
| `ChannelRuns.NextFrameOnly` | src/btfchan.cpp:315-370 | in every reachable state a body is opened if and only if it is the peer's next frame |
| `MainChain.IndexBlocks` | scripts/bitflash_chain.py:242-247 | blocks by hash, the first of equals kept |
| `MainChain.Children` | scripts/bitflash_chain.py:249-253 | exactly each block's children, sorted by hash |
| `MainChain.SelectMainChain` | scripts/bitflash_chain.py:242-263 | a linked path from genesis that no path beats, ties to the smallest tip hash, or the error |
| `MainChain.BestUnique` | scripts/bitflash_chain.py:255-263 | there is one such path at most |
| `MainChain.OrderDoesNotMatter` | scripts/bitflash_chain.py:242-263 | it depends on the set of blocks alone |
| `MainChain.NoBestThroughCycle` | scripts/bitflash_chain.py:255-262 | with genesis's parent reachable from genesis there is no longest path to stop at |
| `Ledger.Conservation` | scripts/bitflash_chain.py:301-371 | unspent, spent and overwritten are all that was created |
| `Ledger.SupplyIdentity` | scripts/bitflash_chain.py:301-371 | coinbase less unspent is fees less deficits plus what was overwritten, on every chain |
| `Ledger.DeltaIsFees` | scripts/bitflash_chain.py:301-371 | coinbase less unspent is fees if and only if deficits and overwriting cancel |
| `Ledger.ApplyTx` | scripts/bitflash_chain.py:316-352 | one transaction's part in the set and the totals |
| `Ledger.ApplyBlocks` | scripts/bitflash_chain.py:301-371 | the set, totals, missing and repeated outputs of a chain exactly if it has no bad root and, when strict, no repeated output; otherwise the first of these, by height and outpoint |
| `Treasury.SpendTreasury` | scripts/build-treasury.py:106-134 | the treasury's inputs of a transaction and the movement they make |
| `Treasury.ReceiveTreasury` | scripts/build-treasury.py:135-153 | the treasury's outputs of a transaction and the movements they make |
| `Treasury.Scan` | scripts/build-treasury.py:96-154 | with distinct transaction ids, movements up to any height sum to the treasury outputs open at that height |
| `UtxoProof.UtxoRoot` | scripts/bitflash_chain.py:286-298 | the root over all outputs in the order of their outpoints, or the empty set's own |
| `UtxoProof.OneRootPerSet` | scripts/bitflash_chain.py:286-298 | a set has one such order, so one root |
| `UtxoProof.BuildMerkleProof` | scripts/prove-utxo.py:36-67 | the path of siblings and the root |
| `UtxoProof.PathFolds` | scripts/prove-utxo.py:36-67 | for every member of every non-empty set the path folds to the root and is as long as the tree is high |
| `UtxoProof.DomainsApart` | scripts/bitflash_chain.py:274-298 | no leaf's text is an inner node's text |
| `UtxoProof.LeafTextUnique` | scripts/bitflash_chain.py:274-283 | a leaf's text names one outpoint and one output |
| `UtxoProof.Verify` | scripts/verify-utxo-proof.py:26-98 | no failure exactly for the claims accepted |
| `UtxoProof.AcceptedIsMember` | scripts/verify-utxo-proof.py:26-98 | an accepted claim of any length names a member with exactly its fields |
| `UtxoProof.BuiltIsAccepted` | scripts/verify-utxo-proof.py:26-98 | what the prover writes for a member is accepted |
| `UtxoProof.EmptySetProvesNothing` | scripts/bitflash_chain.py:288-289 | nothing is accepted against the root of the empty set |
| `Regroup.Spread` | src/btcswap.cpp:422-436 | as many five-bit groups as the bytes need, spelling the same number with zero bits below it |
| `Regroup.SpellsOne` | src/btcswap.cpp:422-436 | there is one such run of groups |
| `Regroup.Gather` | src/btcswap.cpp:482-496 | groups to bytes, refusing five bits or more left over and non-zero padding |
| `Regroup.RegroupRoundTrip` | src/btcswap.cpp:422-496 | regrouping and back is the identity |
| `Regroup.GroupsUnique` | src/btcswap.cpp:482-496 | every run of groups accepted is the regrouping of its bytes |
| `CashChecksum.CashPolyMod` | src/btcswap.cpp:391-405 | the checksum loop |
| `CashChecksum.StepLinear` | src/btcswap.cpp:395-403 | one step is linear over exclusive or |
| `CashChecksum.ChecksumCloses` | src/btcswap.cpp:391-405 | eight groups close a message if and only if they are the checksum computed over zeros in their place |
| `CashChecksum.SingleErrorNoticed` | src/btcswap.cpp:391-405 | one wrong group anywhere is noticed |
| `CashAddr.CashEncode` | src/btcswap.cpp:418-447 | the address of a kind and a hash |
| `CashAddr.CashDecode` | src/btcswap.cpp:449-503 | an address, or the refusal |
| `CashAddr.AddressRoundTrip` | src/btcswap.cpp:418-503 | under a prefix without capitals and colons, what is encoded is read back if and only if the kind is below sixteen and the hash has twenty or thirty-two bytes |
| `CashAddr.DecodedIsEncoded` | src/btcswap.cpp:449-503 | every accepted address, with or without prefix, in capitals or not, is the one encoding of what it is read as |
| `CashTwoErrors.SixtySteps` | src/btcswap.cpp:391-405 | what a wrong group leaves in the checksum never looks like a single group within sixty steps |
| `CashTwoErrors.TwoErrorsNoticed` | src/btcswap.cpp:391-405 | two wrong groups up to sixty apart are noticed |
| `CashAddr.OneWrongCharacter` | src/btcswap.cpp:449-503 | one changed character anywhere in an accepted address, prefix and colon included, is refused, or is the same letter in the other case and read the same, or is a colon that comes or goes under a prefix of eighteen characters |
| `CashAddr.TwoWrongCharacters` | src/btcswap.cpp:449-503 | two wrong characters after the prefix, whatever they are, are never accepted, but for a colon where the prefix has eighteen characters and the address was written without it |

## Left out

- Sockets, Tor, peer discovery, threads and locks: runs are sequences of the atomic steps between which the code holds its lock.
- Real cryptography: signatures and sealed boxes are ideal, key derivation is a term algebra, the filters' keyed hash is a parameter, and SHA-256 is assumed free of collisions on the finite sets a statement names.
- The handshake's flights: a channel starts from the two roots they end in.
- JSON, files and sealed stores: what a loaded store may hold is deliberately weaker than what a run reaches, so the invariants are about runs from an empty state. The replay table does not outlive the process.
- Status and error texts, display lists and the time of last change.
- Wallet answers of the wrong JSON type: they throw, and a run may throw away a ticked copy at any point (`Abort`). Amounts are whole units; their conversion from floating point is not modelled.
- Machine integers in times, amounts and counts: unbounded, except where the width matters (compact words, the 64-bit cubic, ratchet counters, the version byte).
- Random ids: a run takes each new swap's id to be unused, as 128 random bits are; `SwapEngines.SwapEngine.Take` itself states what happens to one in use.
- `Headers::NextBits`, proof of work, merge-mining proofs and stored headers' checks: the verdict is part of a candidate header, the retarget functions themselves are modelled.
- The networks' parameter tables: limits, spans and windows are arguments.
- Transactions and blocks as bytes: `VerifyBlock` is modelled from the transaction hashes on, the Python scripts from parsed blocks on.
- Treasury.Scan: states its sums for chains with distinct transaction ids; a repeated id overwrites outputs, which `Ledger` accounts for.
- Ledger.ApplyBlocks: reports a strict duplicate after finishing its transaction, where the code raises in the middle of it; the outcome is the same error.
- `BuildSpend`, address destinations, bip21, bip32, base58, `.btf` addresses, the mailbox, the communities' envelopes and keys, the explorer and the mining tools: smaller round trips and plumbing.
