# Wildforge: conserved ledgers, proved

Wildforge keeps its magic and its matter in finite integer ledgers. This project models the parts that promise
exactness and proves those promises with Dafny. `dafny verify dfyconfig.toml` checks everything.

## What is modelled

**The Current ledger and its journal** (`CurrentUnits`, `LedgerModel`, `LedgerLaws`, `AttributionQueue`,
`AttributionBalance`, `LedgerRuns`, `Permissions`, `Snapshots`, `Frames`, `Journal`, `Recovery`, `RunningLedger`,
`Checkpoints`, `WorldRuns`, `NewWorlds`, `Validation`, `Staging`, `DrossBalance`, `ArcaneLedgerClass`). `ArcaneLedger`
is a class whose methods change accounts, versions, high-water marks, receipts and the attribution queue in place, and
drive a modelled world directory one disk operation at a time. Each method is proved equal to a specification on
ledger values; the specifications carry the theorems: conservation over every run, all-or-nothing application,
exactly-once recovery from a crash between any two disk steps or inside an append, with any number of further crashes
while recovering. `WorldRuns` puts these together: every life of a world, whatever was cut off in it, is a run of its
ledger, and `NewWorlds` shows where a life starts. Every disk operation is atomic except the append, which may stop
after any byte.

**Planetary transport** (`Bands`, `Apportion`, `Resonances`, `Flow`, `Transport`, `EdgeAmounts`, `EdgeSwaps`,
`FluxCommit`, `Wakes`, `GeographySteps`, `OverflowingPass`, `ArcaneGeographyClass`). A pass reads immutable cells and
writes integer deltas for eighteen bands a cell. Every delta is made of one elementary move, so one invariant carries
the whole pass: no band is debited below what it held, and every resonance sums to zero.
`ArcaneGeography.AdvanceToward` runs a pass in slices; a ghost counter of prepared and computed cells says where it
stands, and `Valid` ties the stored pass to the specification at that point.

**Living sites** (`Pouring`, `EcologyModel`, `EcologyRuns`, `EcologyDays`, `DayOutcomes`, `HarvestOutcomes`,
`ArcaneEcologyClass`). Sites move charge and dross between themselves and their cell, nutrients between their pools,
and units across the signed export boundary. Days, harvests and losses are the steps of a state machine that also says
what a failed step leaves and loses.

**Exact liquids** (`Liquid`), **voxel planes** (`Planes`) and **recipe matching** (`Crafting`). The reservoir's and
the water carrier's proportional splits are modelled as their sources define them
(`src/planet_atlas/water_cycle/mass.rs:59-76`, `src/workings.rs:69-90`).

Rust structs that are copied by value are datatypes; objects whose methods change their fields are classes; loops over
local or borrowed arrays are methods with loops over sequences. 16, 32 and 64-bit limits are written out wherever the
source can meet them, including the truncating casts of debits and of crystal stages. Functions of the outside world
(serialization, checksums, allowed paths, the floating-point steepness test, neighbourhood on the sphere, the swap
gate, weather, habitat) are arbitrary functions, so every theorem holds for all of them.

## What the proofs found

Where a promise fails for some inputs, the project proves exactly when it holds; the harder cases come with an input
that breaks it.

- Validation checks each debit against the account alone, application subtracts them together. A transaction with one
  owner in two debits can pass validation, be journaled, and make every later load fail. It applies exactly when each
  owner covers its debits together (`AppliesIff`, `TwiceDebitedPassesValidation`, `PoisonedFrame`).
- A record above 1 MiB, or a log above 64 MiB, is written but cannot be read back. Together with the item above this
  is the exact condition for a world to load after a commit (`OversizedFrameUnreadable`, `LoadAfterCommitIff`).
- An interrupted checkpoint is rolled back by the next load in two writes, the ledger before the log. If that load is
  cut off between them, the transactions since the last checkpoint are gone; a checkpoint survives every crash exactly
  when there were none or nothing new is being saved (`CheckpointSafeIff`, `SavingCanLoseACommit`).
- A checkpoint is written without asking whether it can be read back: a snapshot beyond the bounds of the reader, or
  one with an empty account, stops every later load (`FinishedCheckpointIff`). No transaction leaves an empty account;
  an operator who takes the last unit out of Deep does (`StepKeepsAccountsIff`, `DrainedDeep`, `DrainingStrands`).
- A commit to an empty journal that is cut off inside the header leaves a world that never loads, though its record is
  durable (`HeaderCutStrands`); a finished checkpoint always leaves the header in place (`FirstSaveMirrors`).
- On a ledger whose total passes 64 bits, application fails after its write, and exactly then (`ApplyValidated`). No
  sound run gets there (`RunSound`).
- An operator adjustment that fails after its band was changed leaves Deep changed in memory (`AdjustKeepsLedgerIff`,
  `FailedAdjustChangesDeep`).
- A refused take from a mixture drops the whole mixture, unless it was empty (`TakeUnits`).
- A pass that overflows a 16-bit band reports an error after units were moved; it commits exactly when no band
  overflows (`ApplyFluxExact`, `FailedPassLosesUnits`).
- A fouling that meets a full dross band has already taken its units (`FoulKeepsIff`, `FullBandLosesUnits`).
- A wake begun with the last id is refused after its cell was lifted; nothing is lost exactly when nothing was there
  to lift (`WakeLostKeepsIff`, `LastWakeLosesUnits`).
- A wake whose cursor is off its path is dropped with its load, so a resonance is kept exactly when no such wake
  carries any (`DecayKeepsIff`); wakes begun by the source never are off their path.
- A harvest that fails on a short band has withdrawn the bands before it, and one that meets a full boundary counter
  has withdrawn everything (`HarvestKeepsBooksIff`, `FailedHarvestLoses`). A plan carried out before its site changes
  is never short (`PlanStillThere`).
- An uptake that finds a 32-bit band full ends a day with its units lost: a slice of a day keeps the books exactly
  when every site has room for its uptake at its turn (`DayKeepsBooksIff`, `FailedDayLoses`). Species whose limits fit
  32 bits always have (`DayOfLaw`). For days, harvests and losses together: `RunKeepsBooksIff`.
- A destructive loss that exhausts the event counter reports an error although the loss has happened, with custody
  kept (`ApplyDestructiveLoss`).
- A take from a water that would carry no planetary water is refused after the parcel was removed (`Take`,
  `RefusedTakeLoses`).
- An empty parcel can be merged only before any other (`EmptyCannotFollow`, `ChainMergesIff`).

## Model

| member | source | states |
|---|---|---|
| `CurrentUnits.TakeUnits` | src/arcane.rs:123-155 | taking exactly `units` succeeds exactly when the mixture holds them, and no band is touched while an earlier preferred one still holds units; a refused take leaves nothing of the mixture and gives nothing out, so units are kept exactly when it held them or was empty |
| `CurrentUnits.CheckedAdd` | src/arcane.rs:157-170 | succeeds exactly when the sum of the totals fits 64 bits and is then the band-wise sum; a failure leaves the bands before the first overflowing one added, or the whole sum when only the total overflows |
| `CurrentUnits.CheckedSub` | src/arcane.rs:172-187 | succeeds exactly when every band covers the subtrahend and is then the band-wise difference; a failure leaves the bands before the first short one taken |
| `Validation.ValidateTransaction` | src/arcane.rs:2142-2282 | accepts exactly the transactions the declarative `Accepts` describes (sequence, origin, reasons, read set, versions, authority, each debit covered alone, credits allowed, transformed debits equal credits, registered resonances, links), and each error it reports is a clause that fails |
| `Permissions.PlayerSparesOthers` | src/arcane.rs:2284-2315 | a player's transaction that takes effect lowers no account but that player's own, in any resonance |
| `Permissions.RunSparesPlayer` | src/arcane.rs:2284-2315 | whatever the other players submit over a whole run, a player's account never loses a unit |
| `Permissions.ModSparesOthers` | src/arcane.rs:2284-2315 | a mod's transaction that takes effect changes only working accounts that were absent or carry its own identity, and its id is not blank |
| `Permissions.OperatorNeedsDevelopment` | src/arcane.rs:2284-2315 | an operator's transaction takes effect only in development and under a name that is not blank |
| `Permissions.PaymentTakesEffect` | src/arcane.rs:2142-2282 | a plain payment by anyone entitled to it, out of an account that covers it, takes effect and arrives in full |
| `Permissions.EffectiveIsNamed` | src/arcane.rs:2142-2282 | what takes effect has a reason and a content that are not blank, touches one to 128 owners, and links at most 16 mutations, each of which names its subsystem and operation and changes something |
| `Permissions.ReadsArePresent` | src/arcane.rs:2160-2199 | a transaction that takes effect has read every account it moves at its present version |
| `Permissions.SecondReaderFails` | src/arcane.rs:2160-2199 | of two transactions that read an account at the same version only the first takes effect, unless it closed an account that was never settled |
| `Permissions.IdentityLaw` | src/arcane.rs:2222-2246 | an account keeps its identity while part of what it held is left or nothing is credited; otherwise it takes the first identity its credits name |
| `Permissions.NameClashNeedsFullDebit` | src/arcane.rs:2222-2246 | another identity is credited only to an account that is debited in full |
| `Validation.ApplyTransforms` | src/arcane.rs:2954-2968 | the debited mixture transformed in order; an error exactly when some step is malformed or not covered |
| `LedgerLaws.TransformedLaw` | src/arcane.rs:2954-2968 | transforms keep the total of a mixture and change each resonance by exactly their declared net |
| `LedgerLaws.DebitAllIff` | src/arcane.rs:2336-2342 | cumulative debiting succeeds exactly when every owner covers the sum of all its debits, and then leaves every account with exactly the rest |
| `LedgerLaws.AppliesIff` | src/arcane.rs:2142-2456 | an accepted transaction applies exactly when every debited owner covers all its debits together and no touched version is at the maximum |
| `LedgerLaws.AcceptedOnceApplies` | src/arcane.rs:2142-2456 | with each owner at most once among the debits and versions below the maximum, whatever validation accepts applies |
| `LedgerLaws.TwiceDebitedPassesValidation` | src/arcane.rs:2208-2220 | a concrete transaction naming one owner in two debits passes validation and cannot be applied: the two subtractions are checked one by one but taken together |
| `LedgerLaws.AppliedBalances` | src/arcane.rs:2317-2389 | after an applied transaction each owner holds its old balance plus its credits minus its debits; touched accounts exist exactly when not empty and their version is one more; untouched accounts are the same entries |
| `LedgerLaws.AppliedConserves` | src/arcane.rs:2207-2260 | an applied transaction keeps the sum of all accounts and changes each resonance planet-wide by exactly its declared transforms |
| `Staging.StageDebits` | src/arcane.rs:2336-2342 | the staged accounts after all debits, or a failure exactly when cumulative debiting fails |
| `Staging.WriteBack` | src/arcane.rs:2383-2389 | writing the stage over the account table gives the settled accounts |
| `Staging.MeasureDross` | src/arcane.rs:3027-3083 | the net explicit dross a transaction generates; for balanced transactions it never fails, so the error path after the write is dead |
| `DrossBalance.DrossGeneratedIs` | src/arcane.rs:3027-3083 | what a transaction that leaves the geography alone generates is exactly what all explicit dross accounts together have gained |
| `ArcaneLedgerClass.ArcaneLedger.ApplyValidated` | src/arcane.rs:2317-2456 | all or nothing while the ledger total fits 64 bits: it succeeds exactly when the transaction applies, records exactly the specified new ledger, and a failure to apply leaves every field as it was; on an overflowing ledger it fails after the write, and exactly then |
| `ArcaneLedgerClass.ArcaneLedger.Apply` | src/arcane.rs:2020-2031 | one in-memory application is one step of a ledger run: success exactly for duplicates and for transactions that take effect; a fresh one is answered with its delta number and the next version of every touched owner, a duplicate with the remembered receipt, if there is one |
| `LedgerRuns.AppliedRemembers` | src/arcane.rs:2390-2405 | an applied transaction is remembered as the newest of at most 4,096, with its delta number and versions, and the receipts that stay are unchanged |
| `LedgerRuns.AdjustedExact` | src/arcane.rs:2602-2645 | an adjustment changes one band of Deep, its version and the count of outside changes, and nothing else |
| `ArcaneLedgerClass.ArcaneLedger.OperatorAdjustDeep` | src/arcane.rs:2602-2645 | passes exactly when the adjustment is allowed and the ledger was conserving, then is one step of a ledger run and performs the checkpoint; in every case, failures included, the ledger is the one stated stage by stage, and a failure writes nothing to disk |
| `LedgerRuns.AdjustKeepsLedgerIff` | src/arcane.rs:2602-2645 | a refused adjustment leaves the ledger as it was exactly when its request or the band of its resonance was refused; every later refusal has changed Deep |
| `LedgerRuns.FailedAdjustChangesDeep` | src/arcane.rs:2623-2637 | a concrete ledger and adjustment that fails on the total after Deep was changed |
| `ArcaneLedgerClass.ArcaneLedger.EnvironmentalDrossAttribution` | src/arcane.rs:1435-1458 | the contributions of the first `requested` queued units of one owner, in queue order |
| `ArcaneLedgerClass.ArcaneLedger.UpdatePendingDrossAttribution` | src/arcane.rs:2458-2534 | the queue after consuming the debited and queueing the credited environmental dross, newest entries kept |
| `AttributionBalance.AppliedAttribution` | src/arcane.rs:2458-2534 | after a transaction the queue is what consumption left and one entry a dross credit, in credit order, naming player, source, units and sequence; beyond the bound the newest 4,096 entries |
| `AttributionBalance.AttributionExact` | src/arcane.rs:2458-2534 | while the bound leaves room, each dross owner has queued exactly what it had, less what was debited as far as it was queued, plus all that was credited; its oldest contributions go first and the new ones come last |
| `AttributionBalance.ConsumeOldest` | src/arcane.rs:2458-2483 | consumption takes an owner's oldest units, cutting at most one entry, and leaves every other owner's entries alone |
| `AttributionQueue.AttributedExactly` | src/arcane.rs:1435-1458 | a request returns exactly the smaller of requested and queued units, cut from the front of the queue, and consuming as many leaves the rest queued |
| `AttributionQueue.AppliedBacked` | src/arcane.rs:2458-2534 | units queued for an environmental dross owner never exceed its account total after any applied transaction |
| `LedgerRuns.RunSound` | src/arcane.rs:2332-2456 | every ledger reachable by transactions and successful operator adjustments fits, sums to genesis plus external adjustment, indexes its receipts exactly and backs its attribution queue |
| `LedgerRuns.GenesisSound` | src/arcane.rs:851-960 | a ledger without history whose accounts, however they are laid out, sum to genesis starts such a run |
| `LedgerRuns.RunCounts` | src/arcane.rs:2390-2405 | each origin's high-water mark rises by exactly its applied transactions, and the delta sequence by all of them |
| `LedgerRuns.RunStaysInWidth` | src/arcane.rs:2140-2160 | no run carries a version or a sequence past 64 bits, or remembers more than 4,096 origins |
| `LedgerRuns.RetryChangesNothing` | src/arcane.rs:2135-2153 | once a transaction took effect, submitting it again after any further run changes nothing |
| `LedgerRuns.RunResonance` | src/arcane.rs:2207-2260 | over any run a resonance's planet-wide total changes by exactly the declared transforms and adjustments |
| `LedgerRuns.AppliedReceipts` | src/arcane.rs:2390-2405 | the receipt map stays indexed by exactly the ids in the duplicate-free, bounded queue |
| `Frames.EncodeFrame` | src/arcane.rs:3094-3104 | a frame is the length, the payload and the checksum in this order, refused only when the length does not fit 32 bits |
| `Frames.DecodeFrames` | src/arcane.rs:3107-3134 | the offset loop computes the declarative decoding |
| `Frames.DecodeCut` | src/arcane.rs:3094-3134 | a log of readable frames cut at any byte after its header decodes to exactly the records that fit whole, the offset where they end, and completeness exactly on a frame boundary |
| `Frames.OversizedFrameUnreadable` | src/arcane.rs:3094-3134 | a frame whose payload passes 1 MiB is written but never read back: the log decodes completely exactly when the payload is within the limit |
| `Frames.LittleEndianRoundTrip` | src/arcane.rs:3094-3134 | the fixed-width integers of a frame survive writing and reading |
| `ArcaneLedgerClass.ArcaneLedger.Commit` | src/arcane.rs:2033-2082 | performs exactly the operations of the commit program, in order, and ends in its outcome; a fresh transaction is answered with its delta number and the next version of every touched owner, a duplicate with the remembered receipt, if there is one; a failure on a fitting ledger leaves the ledger unchanged |
| `Recovery.CommitRecovers` | src/arcane.rs:2033-2082 | a commit cut off between any two disk steps or inside its append, followed by any number of loads each cut off anywhere, loads as exactly the ledger replayed before, or as that ledger with the transaction applied once; the disk is clean again |
| `RunningLedger.CommitCrashSafe` | src/arcane.rs:2033-2082 | the same for the ledger in memory, whose attribution queue may be ahead of its disk: everything durable comes back, the transaction applied exactly once when its pending record was written and not at all before |
| `RunningLedger.CommitMirrors` | src/arcane.rs:2033-2082 | a commit that runs to its end leaves a clean disk that again replays to everything durable of the ledger in memory |
| `RunningLedger.SaveMirrors` | src/arcane.rs:1188-1284 | so does a checkpoint, whether or not the ledger was ahead of its disk, exactly when its snapshot can be read back |
| `RunningLedger.LoadAfterCommitIff` | src/arcane.rs:2033-2082 | the world loads after a commit of any transaction, and after any loads cut off in between, exactly when the commit wrote no record, or every debited owner covers its debits together, no version and no total is at its limit and the record is within the readable limits |
| `RunningLedger.PoisonedFrame` | src/arcane.rs:2800-2869 | once a commit of a transaction that does not apply has touched the disk, cut off anywhere or not, no load ever finishes, whatever loads were cut off before it |
| `Recovery.LoadsStayStarted` | src/arcane.rs:2800-2869 | crashing inside replay any number of times leaves a disk that replays to the same ledger |
| `ArcaneLedgerClass.ArcaneLedger.RepairLog` | src/arcane.rs:2800-2850 | a torn tail is cut back and completed from the pending record, or the records are replayed as they stand |
| `ArcaneLedgerClass.ArcaneLedger.ReplayDeltaLog` | src/arcane.rs:2800-2869 | performs exactly the replay program and ends in its outcome |
| `ArcaneLedgerClass.ArcaneLedger.DecodeSnapshot` | src/arcane.rs:1188-1227 | a snapshot can be read back exactly when its size and its number of accounts are within bounds and no account is empty, beyond 64 bits or holds an unregistered resonance |
| `ArcaneLedgerClass.ArcaneLedger.Load` | src/arcane.rs:1160-1226 | performs exactly the load program: decode the snapshot or fail, restore an interrupted checkpoint from a backup that decodes, replay, finish a linked commit, check conservation |
| `ArcaneLedgerClass.ArcaneLedger.CommitLinkedFiles` | src/arcane.rs:2085-2133 | performs exactly the linked program: coordinator record, files, journal, record removed; and answers with the receipt of the commit |
| `ArcaneLedgerClass.ArcaneLedger.ApplyLinkedFiles` | src/arcane.rs:2759-2786 | replaces exactly the files not yet at their after bytes, and fails exactly at one that is at neither its before nor its after bytes |
| `Recovery.LinkedFilesExact` | src/arcane.rs:2759-2786 | for any record over distinct paths, its files go forward exactly when each is permitted, is the one its mutation names and holds the bytes recorded before or after it; a file that holds anything else is never overwritten, even when the rest has gone forward |
| `ArcaneLedgerClass.ArcaneLedger.RecoverLinkedCommit` | src/arcane.rs:2788-2798 | performs exactly the recovery of a pending coordinator record |
| `Recovery.LinkedCommitRecovers` | src/arcane.rs:2085-2133 | a linked commit cut off anywhere, followed by any crashes in the loads after it, loads as exactly the replayed ledger before or after the transaction, with every file done in the second case |
| `RunningLedger.LinkedCommitCrashSafe` | src/arcane.rs:2085-2133 | for the ledger in memory: once the coordinator record is durable, a crash anywhere, and any crashes in the loads that follow, end with every file at its after bytes, other files untouched and the transaction applied exactly once; before that nothing has changed |
| `Recovery.PendingRecordBlocks` | src/arcane.rs:2033-2051 | while a coordinator record is pending no unlinked transaction, no other linked transaction and no second linked commit does anything |
| `ArcaneLedgerClass.ArcaneLedger.Save` | src/arcane.rs:1264-1284 | performs exactly the checkpoint program, and only for a conserving ledger |
| `Recovery.SaveCrashSafe` | src/arcane.rs:1160-1284 | a checkpoint of any conserving ledger whose snapshot can be read back and whose fingerprint differs from the one it replaces, cut off anywhere, loads as the ledger the disk held or as the one being saved (attribution queue aside), on a clean disk, and as the saved one after the last step |
| `Checkpoints.FinishedCheckpointIff` | src/arcane.rs:1160-1284 | a finished checkpoint loads, now and after any loads cut off in between, exactly when its snapshot can be read back; saving checks nothing of the kind |
| `Checkpoints.CheckpointCrashSafe` | src/arcane.rs:1160-1284 | a checkpoint that can be read back, cut off anywhere, with the loads after it cut off any number of times, brings back what was durable before or what was being saved, on a clean disk, if nothing was committed since the last checkpoint or nothing new is saved; without that condition, if the first load after it is not cut off |
| `Checkpoints.CheckpointSafeIff` | src/arcane.rs:1160-1284 | both conditions are exact: every crash of the checkpoint and of the loads after it brings back one of the two ledgers exactly when its snapshot can be read back and nothing was committed since the last checkpoint or nothing new is saved |
| `Checkpoints.SavingCanLoseACommit` | src/arcane.rs:1160-1284 | after any acknowledged commit, however many came before it, a checkpoint cut off behind its log and one load cut off while it restores leave a world that loads as the last checkpoint or not at all, with the transaction undecided again |
| `Checkpoints.DrainingStrands` | src/arcane.rs:2602-2645 | an operator adjustment that takes the last unit out of Deep passes every check, is saved, and leaves a world no load can open |
| `Snapshots.StepKeepsAccountsIff` | src/arcane.rs:1315-1375 | every call keeps the accounts fit for a snapshot, unless it is an adjustment that takes everything out of Deep, and then it never does |
| `Snapshots.RunKeepsAccounts` | src/arcane.rs:1315-1375 | so does every run in which no adjustment empties Deep |
| `Snapshots.DrainedDeep` | src/arcane.rs:2602-2645 | a concrete sound ledger and allowed adjustment after which the accounts are not fit for a snapshot |
| `WorldRuns.LifeIsRun` | src/arcane.rs:1160-2133 | over every life of a world, with commits, linked commits, checkpoints and adjustments finished or cut off anywhere and loads broken any number of times, the ledger in memory is, its attribution queue aside, the one after a run that took each call in order, once or, if cut off before anything was written, not at all; the disk always mirrors it |
| `WorldRuns.LifeConserves` | src/arcane.rs:1160-2133 | so every ledger ever loaded or left by a call fits, conserves and indexes its receipts |
| `WorldRuns.AcknowledgedStays` | src/arcane.rs:2033-2082 | what a commit has acknowledged is neither lost nor repeated: after any further life of the world the transaction is decided, and submitting it again does nothing to disk or ledger |
| `WorldRuns.RetryAfterCrash` | src/arcane.rs:2033-2082 | submitting a transaction again after its commit was cut off anywhere and the world was reloaded ends with it applied exactly once |
| `NewWorlds.FirstSaveMirrors` | src/arcane.rs:1264-1286 | whatever stood in the directory, a finished checkpoint of a conserving ledger mirrors it and loads as it, exactly when its snapshot can be read back |
| `NewWorlds.WorldBegins` | src/arcane.rs:1017-1047 | a new world, checkpointed once, stands where every life starts: kept and sound |
| `NewWorlds.EmptyLogCommit` | src/arcane.rs:2066-2081 | the first commit to an empty journal writes its header and its frame and mirrors its ledger |
| `NewWorlds.HeaderCutStrands` | src/arcane.rs:2066-2081 | cut off inside the header, that commit leaves a world that no load brings back, with its record durable |
| `Apportion.WeightedAllocation` | src/arcane_geography.rs:832-883 | every cell gets the floor of its weighted share or one more and the shares sum to the total; it fails exactly when a share of the finished walk passes 16 bits |
| `Apportion.CoprimeStride` | src/arcane_geography.rs:868-873 | the stride search terminates at a stride coprime to the cell count |
| `Apportion.ComputeGcd` | src/arcane_geography.rs:1052-1059 | the loop computes the greatest common divisor |
| `Apportion.GcdIsGreatest` | src/arcane_geography.rs:1052-1059 | it divides both numbers, and whatever divides both divides it |
| `Apportion.WalkDistinct` | src/arcane_geography.rs:874-881 | a coprime walk visits no cell twice within a round |
| `Apportion.RemainderBelowCount` | src/arcane_geography.rs:846-864 | the rounded-down shares leave less than one unit per cell over |
| `Apportion.SpreadEvenly` | src/arcane_geography.rs:874-881 | the remainder walk adds one unit to exactly the visited cells |
| `Resonances.NormalizedSix` | src/arcane_geography.rs:553-590 | six bands, all present, adding up to exactly 255, each within a few units of its share |
| `Resonances.SplitResonance` | src/arcane_geography.rs:885-900 | all units of a cell are labelled, each band with the floor of its share or one more |
| `Resonances.Relabel` | src/arcane_geography.rs:940-974 | exactly the needed units change band inside their cells; cells that do not favour the deficit band are touched only once those that do are drained |
| `Resonances.AssignResonances` | src/arcane_geography.rs:905-983 | succeeds exactly when the six targets sum to the scalar allocation; then every cell keeps its scalar and every planet-wide band total is its target; the irreconcilable branch is dead |
| `Flow.BoundedFlow` | src/arcane_geography.rs:2685-2720 | the flow never exceeds the source, never reverses the gradient it follows, and keeps the remainder a proper fraction |
| `Flow.FlowNeverReverses` | src/arcane_geography.rs:2685-2720 | the bound behind it, for every capacity, conductivity up to 1000, divisor from 16 and carried remainder |
| `Flow.TakeProportional` | src/arcane_geography.rs:2722-2744 | takes exactly the request or everything, each band the floor of its share or one more and never more than held |
| `Flow.ProportionalIsFair` | src/arcane_geography.rs:2722-2744 | the same of the specification: one round of the ring gives out the whole remainder |
| `Transport.PourDownhill` | src/arcane_geography.rs:2849-2976 | as carried out in a pass, one flow runs from the fuller compartment to the emptier and stops before they change roles |
| `Transport.PassRunsDownhill` | src/arcane_geography.rs:2829-2980 | with controls of at most 1000, every flow of every edge and exchange meets the premises of that bound at its turn in the pass, so all of them run downhill |
| `Transport.PassFractions` | src/arcane_geography.rs:2829-2980 | remainders stay proper fractions at every point of a pass |
| `ArcaneGeographyClass.TransportPass.AddTransfer` | src/arcane_geography.rs:2746-2764 | moves the wanted bands as far as they are still undebited, and reports the units moved |
| `Transport.TransferSound` | src/arcane_geography.rs:2746-2764 | such a transfer keeps every band backed and the deltas balanced |
| `Transport.DebitedExact` | src/arcane_geography.rs:2755-2760 | the 16-bit truncation of a debit never bites |
| `ArcaneGeographyClass.TransportPass.AddResonanceSwap` | src/arcane_geography.rs:2776-2827 | performs exactly the specified trade |
| `ArcaneGeographyClass.ChooseSwap` | src/arcane_geography.rs:2791-2810 | the double loop finds the best ordered pair of resonances |
| `Transport.BestSwapIsBest` | src/arcane_geography.rs:2791-2810 | the trade chosen is a genuine improvement for both cells, of two different resonances, and no trade scores higher |
| `Transport.SwapSound` | src/arcane_geography.rs:2776-2827 | a swap keeps every band backed and the deltas balanced |
| `ArcaneGeographyClass.TransportPass.ComputeCellFlux` | src/arcane_geography.rs:2829-2980 | one cell contributes exactly its specified edges, swaps and exchange |
| `EdgeAmounts.EdgeMoves` | src/arcane_geography.rs:2829-2944 | at any point of a sound pass an edge moves exactly what is due for the smaller of the two facing conductances, Current first and then dross with the fraction left over, in fair shares as far as the bands still hold it; a swap changes resonances only |
| `EdgeAmounts.FirstEdgeMoves` | src/arcane_geography.rs:2829-2944 | on an untouched pass an edge moves min(floor((excess * c * 1000 / (wider * 16) + carried) / 1000000), source / 8 + 1, 65535) units of Current, nothing up to four times the wider capacity of excess, and the same of dross with 96 |
| `EdgeAmounts.ExchangeMoves` | src/arcane_geography.rs:2946-2977 | a cell exchanges with its depths what is due with 32, from the steeper of the two, as far as the bands still hold it |
| `EdgeAmounts.SwapMoves` | src/arcane_geography.rs:2776-2827 | a swap trades the score of the best pair, at most one unit and one more for every 500 of conductance, as far as both bands hold it, and nothing on a poor edge, at a closed gate or without an improvement |
| `EdgeSwaps.BestTrade` | src/arcane_geography.rs:2789-2812 | two cells trade exactly when some trade of one unit brings both nearer their baselines; it is the one that helps with the most units, and of those the first |
| `EdgeSwaps.EdgeTrades` | src/arcane_geography.rs:2776-2887 | on an edge the given ambient units run down the gradient resonance by resonance, and a trade follows exactly when something was given, conductance is 64 or more, the gate is open and some trade helps both |
| `EdgeSwaps.XorBits` | src/arcane_geography.rs:2786 | the pair of an edge sets exactly the bits in which its two cells differ |
| `EdgeAmounts.CellMoves` | src/arcane_geography.rs:2829-2980 | a cell works its edges to higher cells, east, north, west and south, each as above, and then exchanges with its depths |
| `Transport.CellFluxSound` | src/arcane_geography.rs:2829-2980 | however many edges, swaps and exchanges hit one band, it is never debited below what it held and every resonance still sums to zero |
| `Transport.PassSound` | src/arcane_geography.rs:2829-2980 | the same at every point of a pass |
| `ArcaneGeographyClass.ArcaneGeography.ApplyFlux` | src/arcane_geography.rs:2982-3005 | writes the deltas cell by cell and stops, partly written, at the first band that leaves 16 bits |
| `FluxCommit.ApplyFluxExact` | src/arcane_geography.rs:2982-3014 | it succeeds exactly when every band stays in range, and then every band moves by exactly its delta |
| `FluxCommit.FinishRecords` | src/arcane_geography.rs:2982-3014 | a committed cell widens its recorded range by just its new ambient total and keeps the remainder within one unit |
| `FluxCommit.SoundFluxConserves` | src/arcane_geography.rs:2982-3014 | a sound pass never fails by underflow, commits exactly when no band overflows, and keeps Current and dross of all six resonances |
| `OverflowingPass.FailedPassLosesUnits` | src/arcane_geography.rs:2829-3014 | a concrete planet of two cells and a step on it that fails: the pass the source computes overflows one cell after fifty units have left the other |
| `ArcaneGeographyClass.ArcaneGeography.DecayWakes` | src/arcane_geography.rs:3016-3060 | the cells, retained wakes and sites are exactly the specified ones |
| `Wakes.DecayReleases` | src/arcane_geography.rs:3016-3060 | every band of a wake gives its cell as much as the wake decays, as it has and as the cell has room for; the cursor moves on, but not past the end |
| `Wakes.DecayTurn` | src/arcane_geography.rs:3016-3060 | a wake stays while it carries anything; otherwise its cell is unmarked and the first site with its id inactive; off its path it is dropped |
| `Wakes.DecayBalance` | src/arcane_geography.rs:3016-3060 | decay moves units from wakes to cells and loses exactly what wakes off their path carry |
| `Wakes.DecayKeepsIff` | src/arcane_geography.rs:3016-3060 | a resonance is kept exactly when no wake off its path carries any of it |
| `Wakes.DecayKeepsShape` | src/arcane_geography.rs:3016-3060 | wakes on their path stay on it, and no band leaves 16 bits |
| `ArcaneGeographyClass.ArcaneGeography.AdvanceToward` | src/arcane_geography.rs:2371-2426 | each call is one slice: the geography changes only when a step completes, by exactly that step; it fails exactly when the pass overflows |
| `GeographySteps.SlicingIndependence` | src/arcane_geography.rs:2371-2426 | any budgets that complete a step leave what one whole step leaves, and enough calls always complete it |
| `GeographySteps.FullBudget` | src/arcane_geography.rs:2371-2426 | two calls with a full budget, one to prepare and one to compute, complete a step |
| `GeographySteps.StepConserves` | src/arcane_geography.rs:2371-2426 | a step succeeds exactly when its pass overflows no band, and then keeps Current and dross of every resonance in cells and wakes together |
| `GeographySteps.StepsConserve` | src/arcane_geography.rs:2428-2440 | so does any number of steps |
| `GeographySteps.StepRecords` | src/arcane_geography.rs:2371-2426 | a completed step counts itself and one more minute, in memory and in the manifest |
| `ArcaneGeographyClass.ArcaneGeography.FoulAmbient` | src/arcane_geography.rs:2443-2462 | succeeds exactly when every dross band has room, and then turns exactly the taken ambient bands to dross |
| `ArcaneGeographyClass.FoulKeepsIff` | src/arcane_geography.rs:2443-2462 | a fouling keeps the units of its cell exactly when every dross band has room for what it receives |
| `ArcaneGeographyClass.FullBandLosesUnits` | src/arcane_geography.rs:2443-2462 | a concrete cell that loses five units to a full band |
| `ArcaneGeographyClass.FailedFoulLoses` | src/arcane_geography.rs:2455-2460 | a refused fouling has taken the units of the full band from one pool without adding them to the other |
| `ArcaneGeographyClass.ArcaneGeography.BeginWake` | src/arcane_geography.rs:2465-2534 | succeeds exactly for a non-empty path on the map, a positive decay and a free id; then the wake carries exactly what left its first cell; a refused path changes nothing, the last id leaves the cell lifted and no wake |
| `ArcaneGeographyClass.WakeLostExactly` | src/arcane_geography.rs:2465-2534 | in that last case Current and dross of every resonance fall by exactly what was lifted |
| `ArcaneGeographyClass.WakeLostKeepsIff` | src/arcane_geography.rs:2465-2534 | so they are kept exactly when nothing was there to lift |
| `ArcaneGeographyClass.LastWakeLosesUnits` | src/arcane_geography.rs:2465-2534 | a concrete cell that loses units to the last wake id |
| `ArcaneGeographyClass.WakeLiftedConserves` | src/arcane_geography.rs:2465-2534 | lifting a wake keeps the planet's Current and dross and starts it on its path |
| `Pouring.ExportLaw` | src/arcane_geography.rs:376-389 | an export raises the net of its resonance by exactly its units and keeps one side of the boundary closed |
| `Pouring.ImportLaw` | src/arcane_geography.rs:394-405 | an import lowers it by exactly its units |
| `ArcaneEcologyClass.ArcaneEcology.RecordExport` | src/arcane_geography.rs:376-389 | succeeds exactly when the 64-bit counter has room for what inbound units do not cancel |
| `ArcaneEcologyClass.ArcaneEcology.RecordImport` | src/arcane_geography.rs:394-405 | the mirror image for inbound units |
| `Pouring.BoundaryRoundTrip` | src/arcane_geography.rs:376-405 | bringing units back undoes sending them out, and the other way round |
| `Pouring.TakeWeighted` | src/arcane_ecology.rs:1694-1730 | takes exactly the request or everything, by the specified shares |
| `Pouring.UptakeExact` | src/arcane_ecology.rs:1694-1730 | every present preferred band gives at least its weighted share, nothing is taken twice |
| `Pouring.UptakeByWeight` | src/arcane_ecology.rs:1694-1730 | each band gives at least the floor of its weighted share of what is taken, as far as present, and more only when every band before it is emptied |
| `Pouring.PreferredFits` | src/arcane_ecology.rs:1706-1714 | the preferred shares never ask for more than is wanted, so none is cut short |
| `Pouring.PouredExact` | src/arcane_ecology.rs:1715-1729 | filling bands in order moves the whole amount unless every cap is reached |
| `EcologyModel.AddBands` | src/arcane_ecology.rs:1732-1739 | succeeds exactly when no 32-bit band overflows and is then the band-wise sum |
| `EcologyModel.ReleaseCharge` | src/arcane_ecology.rs:1741-1758 | releases in band order as far as charge, room and allowance go; custody of the site and its cell is kept |
| `EcologyModel.Collapse` | src/arcane_ecology.rs:1760-1787 | everything that finds room moves to ambient, or to dross for a crystal; the rest stays, custody is kept |
| `EcologyModel.PopulationLost` | src/arcane_ecology.rs:1789-1801 | one individual fewer; its nutrients move to detritus, all of them with the last one |
| `EcologyModel.Mineralized` | src/arcane_ecology.rs:1803-1807 | some detritus returns to the soil whenever there is any; nutrients keep their sum |
| `EcologyModel.LiveDay` | src/arcane_ecology.rs:905-1063 | one site lives exactly the specified day, and an uptake that finds its band full leaves the day where it stopped |
| `EcologyModel.DayOfLaw` | src/arcane_ecology.rs:905-1063 | such a day keeps custody with its cell when it ends and loses exactly the units of the uptake that failed when it does not; nutrients only change pools, it drinks nothing or exactly its need, species limits hold on, and it cannot fail while the limits of the species fit 32 bits |
| `DayOutcomes.DayPopulation` | src/arcane_ecology.rs:905-1063 | after a day one more lives on a favourable regrowth day with room and soil, one fewer on an unfavourable one, one fewer more under a Scar on a regrowth day and one fewer more with more dross than tolerated; whoever is last leaves the site collapsed |
| `DayOutcomes.DayGrows` | src/arcane_ecology.rs:994-1031 | an unspoilt day of growth costs one seed and its nutrients, moved from soil to biomass, and the site is mature exactly from half its capacity on |
| `DayOutcomes.DaySeeds` | src/arcane_ecology.rs:994-1031 | at capacity a regrowth day adds one seed up to three times the capacity; without soil or room a collapsed site only wakes |
| `DayOutcomes.DayHarms` | src/arcane_ecology.rs:1032-1063 | one individual fewer turns its share of the biomass to detritus |
| `DayOutcomes.DayFeeds` | src/arcane_ecology.rs:955-993 | a favourable morning moves exactly what is asked for, or all there is, from the pool into the organism, and then gives back the daily release as far as there is charge and room |
| `HarvestOutcomes.SiteLivesItsDay` | src/arcane_ecology.rs:886-1075 | every known site of a slice lives the day of the slice in the weather and with the water that the sites before it left |
| `HarvestOutcomes.CollapseOutcome` | src/arcane_ecology.rs:1760-1787 | a collapsing crystal fouls its cell, anything else gives its charge back as ambient Current, band by band as far as there is room |
| `EcologyDays.DayKeepsCustodyIff` | src/arcane_ecology.rs:905-1063 | custody of a site and its cell survives the day exactly when the day is not favourable or every 32-bit band has room for what will be taken up |
| `ArcaneEcologyClass.ArcaneEcology.AdvanceToward` | src/arcane_ecology.rs:886-1075 | successful or not, a slice is exactly one `Day` step of a run: on success every resonance's custody over cells and sites is kept, water missing from the offer is the water reported transpired, other sites are untouched, and the day closes with its last site; a failure has lost exactly the units of the failing uptake |
| `EcologyRuns.LiveInSlices` | src/arcane_ecology.rs:886-1075 | a day lived in two slices is the day lived in one |
| `EcologyRuns.LiveToLaw` | src/arcane_ecology.rs:886-1075 | any stretch of sites keeps custody when it ends and has lost exactly the listed units when it does not; sites outside it are untouched |
| `EcologyDays.DayKeepsBooksIff` | src/arcane_ecology.rs:886-1075 | a slice of a day succeeds, and keeps custody plus net export of every resonance, exactly when every site of it has room for its uptake at its turn |
| `EcologyDays.FailedDayLoses` | src/arcane_ecology.rs:1732-1739 | a concrete site, species and cell whose day fails and loses units: the species may hold more than a 32-bit band |
| `ArcaneEcologyClass.ArcaneEcology.PlanHarvest` | src/arcane_ecology.rs:1140-1195 | a plan exactly for the first mature site of a block if its species, stage and drop allow, for the specified part of it |
| `EcologyRuns.PlanStillThere` | src/arcane_ecology.rs:1140-1195 | a plan never asks for more than its site holds, and leaves it unripe |
| `HarvestOutcomes.PlanShares` | src/arcane_ecology.rs:1140-1195 | a fruiting site gives a quarter of every band, a pruned or sporing one a third, a coppice half, a felled one or a crystal all of it |
| `HarvestOutcomes.HarvestOutcome` | src/arcane_ecology.rs:1265-1333 | after its harvest a crystal keeps only a bud it was left, anything else has lost a seed, or an individual and its seeds when felled, and recovers unless nothing is left |
| `ArcaneEcologyClass.ArcaneEcology.ApplyHarvest` | src/arcane_ecology.rs:1265-1333 | successful or not, a harvest is exactly one `Harvest` step of a run; it succeeds exactly when the site and species exist, hold the units and no counter is full, and then custody falls by exactly what the boundary's net export rises by, resonance by resonance |
| `EcologyRuns.HarvestMoves` | src/arcane_ecology.rs:1265-1333 | the same of the specification, unit by unit |
| `EcologyRuns.HarvestKeepsBooksIff` | src/arcane_ecology.rs:1265-1333 | a harvest keeps custody plus net export exactly when its plan names no known site, or its first short band comes before any unit is taken, or the site holds everything and no boundary counter is full |
| `EcologyRuns.FailedHarvestLoses` | src/arcane_ecology.rs:1265-1333 | two concrete harvests that fail and lose units: one band short after another was emptied, and a boundary counter found full after the withdrawal |
| `Pouring.ExportedUntilNet` | src/arcane_ecology.rs:1317-1325 | six exports raise each net by exactly the units recorded before the counter that stopped them |
| `Pouring.AccountedIff` | src/arcane_ecology.rs:1317-1325 | all units are recorded exactly when no counter is full |
| `ArcaneEcologyClass.ArcaneEcology.ApplyDestructiveLoss` | src/arcane_ecology.rs:1335-1397 | successful or not, a loss is exactly one `Loss` step of a run: the first standing site of a block is torn down, with custody kept even when the event counter is exhausted |
| `HarvestOutcomes.LossOutcome` | src/arcane_ecology.rs:1335-1397 | a torn-down site has nobody left and two seeds fewer, or none in a crystal, and its charge is in the pool its content disposes, band by band as far as there is room |
| `EcologyRuns.StepKeepsBooks` | src/arcane_ecology.rs:886-1397 | every day slice, harvest and loss keeps the ecology in order and lowers custody plus net export by exactly what it lists as lost, which is nothing when it succeeds |
| `EcologyRuns.RunKeepsBooks` | src/arcane_ecology.rs:886-1397 | over every run of days, harvests and losses, failures among them, custody plus net export of every resonance falls by exactly what the failed calls lost; a run of successful calls keeps it |
| `EcologyDays.RunKeepsBooksIff` | src/arcane_ecology.rs:886-1397 | a run keeps them exactly when each of its calls meets its own condition at its turn: what one call loses, no later call brings back |
| `Liquid.ExactLiquid.Take` | src/alchemy.rs:964-1008 | succeeds exactly for a valid liquid, a volume it has and, for water, a share carrying planetary water; that last refusal comes after the parcel was taken out |
| `Liquid.TakeValid` | src/alchemy.rs:964-1008 | the remainder of a split is always valid, the parcel exactly under that condition |
| `Liquid.RefusedTakeLoses` | src/alchemy.rs:964-1008 | a concrete brine whose refused take has removed one of its two volumes |
| `Liquid.TakeSplits` | src/alchemy.rs:964-1008 | parcel and remainder are the whole, component by component and solute by solute |
| `Liquid.TakeShares` | src/alchemy.rs:964-1008 | a take moves the floor of the proportional share of everything, heat toward zero and salt with its water |
| `Liquid.ChainNeverDilutes` | src/alchemy.rs:964-1008 | however a liquid is drawn off, no solute is weaker in what remains |
| `Liquid.ChainSucceedsIff` | src/alchemy.rs:964-1008 | a liquid can be drawn off in exactly the positive amounts that add up to no more than there is, unless it is water by name that carries other volume; parcels and rest have the volumes asked for and left |
| `Liquid.ExactLiquid.CheckedAdd` | src/alchemy.rs:1010-1036 | succeeds exactly when the addition is defined and then holds the sum; a mismatch changes nothing, an overflow leaves exactly the components before it added, a sum found invalid stays |
| `Liquid.AddMaterialVector` | src/alchemy.rs:2088-2106 | adds name by name without zero entries; fails exactly when a name passes 64 bits, with some names added and that one not |
| `Liquid.ChainMergesBack` | src/alchemy.rs:964-1036 | the parcels of any chain of takes and what is left, poured back together in any order, are exactly the liquid again |
| `Liquid.ChainMergesIff` | src/alchemy.rs:964-1036 | with the remainder in the order even when it is empty, pouring back succeeds exactly when something is left or the empty remainder comes first |
| `Liquid.EmptyCannotFollow` | src/alchemy.rs:1013-1021 | an empty remainder can be poured back only before anything else |
| `Planes.Plane.Set` | src/chunk.rs:66-76 | the array with one cell replaced |
| `Planes.Plane.FromSlice` | src/chunk.rs:49-55 | the given array, uniform exactly when all its cells agree |
| `Planes.Plane.Get` | src/chunk.rs:58-63 | the cell of the array |
| `Planes.Plane.Compact` | src/chunk.rs:90-97 | the same array, uniform exactly when all its cells agree |
| `Planes.Plane.Densify` | src/chunk.rs:79-87 | the same array, stored cell by cell |
| `Planes.Plane.Matches` | src/chunk.rs:100-105 | equality with a full array; a uniform plane only compares the values it is given |
| `Planes.PlaneRuns.Next` | src/chunk.rs:131-151 | the next run of the canonical decomposition, nothing exactly at the end |
| `Planes.RunsExpand` | src/chunk.rs:115-151 | the runs expand to the array and are maximal |
| `Planes.RunsUnique` | src/chunk.rs:115-151 | there is no other way to write an array as maximal runs |
| `Planes.PlaneRuns.All` | src/chunk.rs:115-151 | all runs of a plane are maximal, sum to 65,536 and expand to the array |
| `Planes.IdxIsBijection` | src/chunk.rs:243-246 | cell coordinates and indices correspond one to one |
| `Planes.Chunk.ReplaceUniformBlockLight` | src/chunk.rs:278-293 | same contents, storage and flag as comparing with the expanded array and replacing it |
| `Planes.Chunk.CompareThenSet` | src/chunk.rs:264-273 | the reference: compare, then set the whole field |
| `Crafting.MatchRecipe` | src/crafting.rs:91-138 | the first station-free recipe whose pattern, or its mirror image, is what the bounding box of the items shows |
| `Crafting.FirstFitIsFirst` | src/crafting.rs:115-137 | it fits, and no earlier recipe does |
| `Crafting.FitsSpelledOut` | src/crafting.rs:113-137 | to fit is to have no station and, within the smallest box around the items, read straight or mirrored, every blank empty, every item there and every choice holding one of its items |
| `Crafting.Corners` | src/crafting.rs:96-111 | the scan finds the bounding box |
| `Crafting.BoundsUnique` | src/crafting.rs:96-111 | there is only one bounding box |
| `Crafting.SlidingKeepsAnswer` | src/crafting.rs:91-138 | the answer does not depend on where the items lie |
| `Crafting.MirroringKeepsAnswer` | src/crafting.rs:91-138 | nor on which way round they lie |
| `Crafting.EmbeddingKeepsAnswer` | src/crafting.rs:91-138 | nor on the size of the grid around them |

## Left out

- `src/arcane.rs`: audit history, process-counter bucketing of generated dross, allocator ids and their reconciliation, legacy layouts, durable item scanning, content reconciliation, and the constructors of particular transactions.
- Error payloads: errors carry their kind, not their text or values.
- The attribution's installation id and the tick of a transaction are not kept in the model; no branch modelled here reads them.
- Serialization, checksums, the fingerprint of a snapshot, the size of a serialized coordinator record or snapshot and the table of replaceable paths are arbitrary functions; linked files need only differing checksums before and after, and `postcard` and `atomic_write` are not part of this model.
- A world directory always has a snapshot, a manifest and a journal file, which may be empty; a missing journal, which loading reads as a bare header, a first checkpoint cut off with no earlier snapshot to fall back on, manifest content beyond the fingerprint, and directory errors are not modelled.
- RunningLedger.LinkedCommitCrashSafe: needs distinct paths and pairwise differing before and after checksums, because with one path twice the source itself reports corruption.
- LedgerRuns.GenesisSound: takes the account table as given; how genesis lays accounts out over the planet is not modelled.
- WorldRuns.LifeIsRun: an adjustment that fails is not an event of a life, because it leaves the ledger in memory changed and unsaved; a commit is an event only under the condition of RunningLedger.LoadAfterCommitIff, outside which no load finishes; a checkpoint is one only when its snapshot can be read back; a load that restores an interrupted checkpoint is cut off only under the condition of Checkpoints.CheckpointSafeIff.
- ArcaneLedgerClass.ArcaneLedger.Commit: an unfitting ledger may be left changed by a failure, as the source leaves it.
- Genesis: planet topology, geology scoring, sites, names, edge geometry, surveys and maps are floating point or diagnostics.
- Apportion.WeightedAllocation: requires a positive weight sum, because the source divides by it.
- Flow.BoundedFlow: the gradient is promised for conductivities up to 1000, divisors from 16 and remainders below one unit, the ranges the geography keeps; a larger conductivity can reverse it.
- 32-bit deltas: a delta is an unbounded integer; at most five edges and one exchange of 16-bit amounts meet one band, far from the width of the source's field.
- GeographySteps.SlicingIndependence: speaks of cells untouched between calls. The ecology changes cells without discarding a pass in progress; what such a pass commits is not described.
- The second dross transport of `src/dross.rs` is not part of this model.
- Habitat, season and weather of a site are Boolean inputs; per-kind report counters (growth, collapse, dross harm), site identity fields no branch reads, fire history and restoration are left out.
- Finite mineral harvests and cultivation only repeat the moves proved for harvests and sites.
- Liquid.AddMaterialVector: adds the names in any order; the source adds them in the order of their text, which only shows after an overflow.
- ArcaneLedgerClass.ArcaneLedger.DecodeSnapshot: leaves out the checks of the dross-generation counters and of the audit history, which are not kept in the model.
- Alchemy batches, content validation and tables are single-branch facts or live in files not modelled.
- Planes.Plane.FromSlice: requires a full array, as every caller passes one.
- Crafting matches item ids; stack counts, repair and consumption are left out. Recipes are required to hold a pattern of their own width and height.
