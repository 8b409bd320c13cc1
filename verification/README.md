# A verified model of the shielded-pool vault and its services

The project models a vault that holds one asset for the owners of private notes, and the services around it.

- **The vault contract** takes deposits into an entry queue (shield, flag, unflag, attest, admit, cancel,
  refund), lets notes be spent (transact), and pays what leaves through a first-in, first-out exit queue under a
  daily window (release, with part payments, stranded exits and claim). A guardian can pause, halt and resume it
  and change its limits. `VaultSpec` is the state machine, `Vault` the contract as an object over its storage
  entries, proved equal to it call by call. `VaultInvariant`, `VaultRuns`, `EntryQueue`, `Deposits` and `Guardian`
  prove what holds of every call and of every run; `Checks`, `Payees`, `Authority` and `Reports` say what a call asks,
  whom it pays, who must sign for it and what it reports, without following the state machine.
- **The replay** rebuilds the vault's state from its events and refuses what the vault could not have done.
  `ParseCalls` groups events into calls, `ReplaySpec` says what each call changes, `Replay` is the object that
  does it in place, and `Refinement` proves that every run of the vault replays to the same state. `Traces` says which
  call may follow which, from the calls alone, and proves that the replay accepts exactly those runs; `Histories`
  draws what every accepted run has in its past.
- **The exits table** (`Rows`) stores the exits of the replay relationally; `Lineage` proves where every amount of
  an exit went; `WaitBound` bounds how long an exit waits and `Promises` proves the time by which the indexer says
  it is paid; `Signs`, `EndToEnd`, `StatusCheck` and `EveryPromise` join these to the vault's own runs from
  deployment.
- **Two incremental Merkle trees**, the vault's frontier with its ring of roots (`VaultTree`) and the client's
  paged tree (`PagedTree`), are proved against one simple tree (`Merkle`) over any compression function, for any
  depth.
- **Arithmetic**: Montgomery multiplication on 64-bit limbs (`Montgomery`, on `MontgomeryForm`), the field over
  unbounded integers with inverses and square roots (`Field`, on `ModularRoots` and the number theory of
  `PrimeField`), the encoding of curve points (`BabyJubjub`, on `Curve`) and scalar multiplication over any group
  (`ScalarMul`). `MontgomeryForm`, `ModularRoots` and `Curve` are about any modulus; `Montgomery`, `Field` and
  `BabyJubjub` apply them at the modulus of the source.
- **Services**: the crash-tolerant archive (`Archive`, `ArchiveLines`, `ArchiveEvents`), the relayer's cost
  estimate and quote (`Costs`) and the screener's attestation (`Attestation`).

`Common`, `Sums`, `Digits` and `Modular` hold shared arithmetic.

## How the surroundings are modelled

- The asset contract and the ledger answer through `Env.asset`: which accounts exist, which parties are authorized
  and which transfers are taken, in any combination, at every step of a release. A transfer out moves all of its
  amount or nothing. The balance may also move by donations and clawbacks between calls.
- Proof verification, the hash that binds the external data, the compression of the tree, the encoding of
  archive lines and the digest of a write are arbitrary functions. Archive lines are assumed to decode to
  themselves and not to decode when cut short.
- Authorization is the set of addresses that signed a call. Time never goes back within a run.
- A call that fails leaves no change behind, as the host rolls it back.
- Checked 128-bit and 64-bit operations of the contract are failures; the replay's unsigned 64-bit times wrap, and
  so do the estimate's signed 64-bit products and the words of the limb arithmetic.
- The tree's depth, the page height and the depth of the replay are parameters.

## What was found

- The strand of nothing: before the first limits are seen, the replay alone would keep an exit whose stranded event
  leaves nothing, while its row would read as settled. `Rows.StrandedRepresents` shows that rows and state agree
  after a strand if and only if it leaves something; decoding refuses the other events, and the vault never emits
  one (`Signs.StepSigns`).
- The indexer counts the rest of a window that a release may leave for a missing account once an exit, as the first
  part paid creates the account. Its promise holds even when such an account is merged away again: a part payment
  fills the window of its day, only the head is ever paid in part, and on any later day the head meets an untouched
  window that covers all it owes (`WaitBound.StepKeepsParts`, `Promises.PromiseIsKept`).
- Two crashes can damage an archive file: a write cut off strictly inside a line, and the next one that leaves
  anything cut off strictly inside its first line. `Archive.FileRecovers` shows that no other history does, and
  `Archive.TwoCrashesDamage` that such a one does. A line cut just before its break is readable.
- A restart of the cost estimate keeps the median of a full window exactly while twice of it fits a signed 64-bit
  word; beyond that the median becomes negative (`Costs.RestartKeepsMedian`).
- A write counts as finished when only its last line break is missing (`Archive.Finishes`).

## Model

| member | source | states |
|---|---|---|
| Vault.Vault.Deploy | contracts/vault/src/lib.rs:57-109 | deployment fails for limits that do not pass their check or delays in the wrong order, and otherwise leaves an empty vault with an empty tree |
| Vault.Vault.Shield | contracts/vault/src/lib.rs:113-216 | taking in a deposit: its result, events and transfers, and the whole new contract storage, are those of the state machine, for any answers of the asset contract; a failing call leaves every entry as it was |
| Vault.Vault.CheckShield | contracts/vault/src/lib.rs:121-175 | the checks of a deposit fail in the order and with the codes of the contract, and change nothing |
| Vault.Vault.Transact | contracts/vault/src/lib.rs:224-361 | a private transfer or an exit: its result, events and transfers, and the whole new contract storage, are those of the state machine, for any answers of the asset contract; a failing call leaves every entry as it was |
| Vault.Vault.CheckTransact | contracts/vault/src/lib.rs:224-298 | the checks of a transaction fail in the order and with the codes of the contract, known root included, and change nothing |
| Vault.Vault.Settle | contracts/vault/src/lib.rs:299-361 | a transaction is paid at once or takes the tail of the exit queue, as the state machine says |
| Vault.Vault.Release | contracts/vault/src/lib.rs:375-480 | releasing exits: its result, events and transfers, and the whole new contract storage, are those of the state machine, for any answers of the asset contract; a failing call leaves every entry as it was |
| Vault.Vault.ReleaseHead | contracts/vault/src/lib.rs:397-472 | one pass of the release loop moves exactly the fields the state machine moves, or stops, or fails |
| Vault.Vault.TryPay | contracts/vault/src/lib.rs:946-953 | a payment to an exit's party moves the whole amount or nothing, and never fails the call |
| Vault.Vault.Claim | contracts/vault/src/lib.rs:487-545 | moving stranded parts back into the queue: its result, events and transfers, and the whole new contract storage, are those of the state machine, for any answers of the asset contract; a failing call leaves every entry as it was |
| Vault.Vault.Attest | contracts/vault/src/lib.rs:549-562 | the ASP alone raises the attested ID, below the next deposit |
| Vault.Vault.Flag | contracts/vault/src/lib.rs:567-580 | flagging a deposit: its result, events and transfers, and the whole new contract storage, are those of the state machine, for any answers of the asset contract; a failing call leaves every entry as it was; the time of the first flag is kept |
| Vault.Vault.Unflag | contracts/vault/src/lib.rs:583-591 | the ASP alone lifts a flag |
| Vault.Vault.Admit | contracts/vault/src/lib.rs:596-656 | admitting deposits: its result, events and transfers, and the whole new contract storage, are those of the state machine, for any answers of the asset contract; a failing call leaves every entry as it was; a deposit that is not eligible is passed over, and IDs out of order fail all of them |
| Vault.Vault.AdmitOne | contracts/vault/src/lib.rs:608-650 | one ID of an admission inserts the pair of an attested, unflagged deposit whose delay is over, and passes over any other |
| Vault.Vault.ReturnDeposit | contracts/vault/src/lib.rs:1014-1033 | giving a deposit back takes it off the queue and both totals and pays its depositor |
| Vault.Vault.Cancel | contracts/vault/src/lib.rs:660-664 | a depositor takes a pending deposit back at any time: its result, events and transfers, and the whole new contract storage, are those of the state machine, for any answers of the asset contract; a failing call leaves every entry as it was |
| Vault.Vault.Refund | contracts/vault/src/lib.rs:667-674 | anyone refunds a deposit flagged for a day: its result, events and transfers, and the whole new contract storage, are those of the state machine, for any answers of the asset contract; a failing call leaves every entry as it was |
| Vault.Vault.SetPause | contracts/vault/src/lib.rs:678-690 | the guardian alone sets the two pauses |
| Vault.Vault.Halt | contracts/vault/src/lib.rs:695-710 | the guardian alone halts, for 72 hours, once the cooldown is over |
| Vault.Vault.Resume | contracts/vault/src/lib.rs:713-728 | the guardian alone ends a halt in force |
| Vault.Vault.SetLimits | contracts/vault/src/lib.rs:734-774 | changing limits: its result, events and transfers, and the whole new contract storage, are those of the state machine, for any answers of the asset contract; a failing call leaves every entry as it was |
| Vault.Vault.ApplyLimits | contracts/vault/src/lib.rs:777-791 | anyone applies queued limits once they are ready and still pass the checks |
| Vault.Vault.CancelLimits | contracts/vault/src/lib.rs:794-804 | the guardian alone drops queued limits |
| VaultInvariant.DeployedSolvent | contracts/vault/src/lib.rs:57-109 | a vault with checked limits starts solvent |
| VaultInvariant.TvlIsNonNegative | contracts/vault/src/lib.rs:161-216 | in a solvent vault every running total is non-negative |
| VaultInvariant.ShieldKeeps | contracts/vault/src/lib.rs:113-216 | a deposit keeps the totals equal to the sums of the entries, the note value non-negative, and the surplus of the balance over what is kept for users |
| VaultInvariant.SettleKeeps | contracts/vault/src/lib.rs:299-361 | so does the end of a transaction, whose payments are exactly what the total falls by |
| VaultInvariant.TransactKeeps | contracts/vault/src/lib.rs:224-361 | so does every transaction, whether it succeeds or fails |
| VaultInvariant.ClaimKeeps | contracts/vault/src/lib.rs:487-545 | so does a claim: what leaves the stranded exit enters the queue |
| VaultInvariant.ReturnKeeps | contracts/vault/src/lib.rs:1014-1033 | so does giving a deposit back |
| VaultInvariant.FlagKeeps | contracts/vault/src/lib.rs:567-580 | so does a flag |
| VaultInvariant.AdmitLoopKeeps | contracts/vault/src/lib.rs:608-650 | the loop of an admission keeps the entry queue from ID to ID, whatever IDs it is given, and only lowers the pending total |
| VaultInvariant.AdmitKeeps | contracts/vault/src/lib.rs:596-656 | so does an admission: what leaves the entry queue becomes the value of notes |
| VaultInvariant.PlanFits | contracts/vault/src/lib.rs:397-415 | what a release tries to pay fits the exit and the window, fills one of the two, and leaves no fee paid before the payout is |
| VaultInvariant.HandledKeepsQueue | contracts/vault/src/lib.rs:433-470 | settled, part paid or stranded, the head leaves a queue whose IDs run from the head to the tail and whose total is what its entries and the stranded ones are owed |
| VaultInvariant.ReleaseOneKeeps | contracts/vault/src/lib.rs:392-472 | one step of a release keeps the queue, the note value and an exact account of what it paid |
| VaultInvariant.ReleaseLoopKeeps | contracts/vault/src/lib.rs:386-473 | so do any number of steps |
| VaultInvariant.ReleaseKeeps | contracts/vault/src/lib.rs:375-480 | so does a release, whose payments are exactly what the total falls by |
| VaultRuns.StepKeeps | contracts/vault/src/lib.rs:113-804 | every entry point keeps the vault solvent, reports every movement of the asset, keeps the surplus and never lowers the daily window |
| VaultRuns.RunSolvent | contracts/vault/src/lib.rs:113-804 | along any run, with donations and clawbacks in between, the vault stays solvent and its surplus changes by those alone |
| VaultRuns.DeployedRunSolvent | contracts/vault/src/lib.rs:57-804 | from its deployment on the vault holds what it keeps for users unless the issuer took more than was given, and never keeps more than seven windows |
| VaultRuns.WiderWindow | contracts/vault/src/lib.rs:955-980 | limits that pass the change check never make a queued exit larger than one window |
| VaultRuns.StepAccounts | contracts/vault/src/lib.rs:889-896 | a call adds what it pays to the window of its own day and to no later one |
| VaultRuns.DayIsCapped | contracts/vault/src/lib.rs:304-344 | no UTC day of any run pays out more than the daily window, and the vault's record of the current day is what the day paid |
| VaultRuns.ReleaseIsFifo | contracts/vault/src/lib.rs:390-473 | a release pays in ID order, never an exit while a lower ID is queued, touches no exit behind the head, and part pays at most one exit, which fills the window exactly |
| VaultRuns.TransactIsFifo | contracts/vault/src/lib.rs:308-334 | a transaction pays anything only while no exit waits, and otherwise its exit takes the tail and changes no other |
| Payees.ReleasePaysParties | contracts/vault/src/lib.rs:426-472 | under each queued exit's ID a release makes at most one payment to its recipient and then at most one to its relayer, of what its payout and its fee fell by, and no other payment; what it pays was taken by the asset contract, what leaves the queue unpaid was refused by it, and a missing account never gets a part too small to create it |
| Payees.ReleaseIsIdle | contracts/vault/src/lib.rs:390-424 | a release that succeeds without handling an exit found no queue, a full window, or a head waiting for its account |
| Payees.TransactPaysParties | contracts/vault/src/lib.rs:299-361 | a transaction pays its recipient and then its relayer exactly the amounts it names, or, when others wait or the window lacks room, pays nobody and queues an exit with those parties and amounts |
| Payees.ClaimMovesParts | contracts/vault/src/lib.rs:487-545 | a claim succeeds exactly when a party of a stranded exit can take its part, and moves those parts, each whole, to a new exit of the same parties at the tail |
| Checks.ShieldTakes | contracts/vault/src/lib.rs:119-214 | a deposit is taken exactly when every condition on it holds, in whatever order they are checked; then its amount comes from its depositor, and otherwise nothing changes |
| Checks.TransactTakes | contracts/vault/src/lib.rs:224-298 | a transaction is accepted exactly when every condition on it holds, whatever the order, and its payment can go out or wait; then its two commitments are the next leaves |
| Checks.ShieldCodes | contracts/vault/src/lib.rs:119-170 | a code that a deposit fails with names a condition that does not hold |
| Checks.TransactCodes | contracts/vault/src/lib.rs:224-298 | so does a code that a transaction fails with |
| Guardian.StepHalts | contracts/vault/src/lib.rs:695-728 | only halt and resume move the halt, the first to 72 hours ahead when the cooldown is over, the second to now |
| Guardian.HaltBudget | contracts/vault/src/lib.rs:695-728 | in any ten days of any run from deployment the vault is halted for at most 72 hours, however often the guardian resumes early and halts again |
| Guardian.StepLimits | contracts/vault/src/lib.rs:734-804 | limits and queued limits change only as set, apply and cancel change them |
| Guardian.GuardianSetsLimits | contracts/vault/src/lib.rs:734-774 | the guardian may set limits that are in range and do not lower the daily window; when none of them gives more room they apply at once and drop the queue, and otherwise they wait seven days |
| Guardian.AnyoneAppliesLimits | contracts/vault/src/lib.rs:777-791 | queued limits apply exactly when they are ready, in range and no lower daily window |
| Guardian.LooseningWaited | contracts/vault/src/lib.rs:734-791 | a call that lowers the least deposit or raises any other limit applies exactly the limits the guardian queued at least seven days before, with no tightening or cancellation since, and does not lower the daily window |
| EntryQueue.DepositFate | contracts/vault/src/lib.rs:549-676 | a deposit that leaves the entry queue was admitted, attested, unflagged, and after both the wait it was given and the wait of its amount under the limits in force, with its pair at the leaves reported, or was returned whole to its depositor, at their request or a day after its flag; any other only changes its flag, by the ASP |
| EntryQueue.AdmitLoopEnters | contracts/vault/src/lib.rs:608-650 | so does every deposit an admission takes in, whatever list of IDs it is given |
| EntryQueue.ResolvedForGood | contracts/vault/src/lib.rs:113-216 | over any run a deposit is resolved once: its ID is never pending again |
| EntryQueue.StepSpends | contracts/vault/src/lib.rs:982-988 | a call reports as spent only nullifiers that were not, each once, and remembers exactly those |
| EntryQueue.NeverSpentTwice | contracts/vault/src/lib.rs:982-988 | over any run no nullifier is spent twice |
| EntryQueue.OnlyProvenSpends | contracts/vault/src/proof.rs:33-133 | a transaction that changes anything was proved over a recent root, for exactly its data and amount, before its deadline, and takes no more than the notes are worth |
| Deposits.PendingHasShield | contracts/vault/src/lib.rs:173-199 | every pending deposit of a run was shielded by an earlier call, at the time, with the amount, the commitments and the wait it keeps |
| Deposits.AdmittedAfterItsWait | contracts/vault/src/lib.rs:638-644 | over any run, a deposit enters the tree no sooner after its own shield than the long delay if its amount was at the threshold or above, under the limits of its shield and under those of the admission, and the small delay otherwise |
| Deposits.AdmitTakesDue | contracts/vault/src/lib.rs:596-656 | an admission takes exactly the listed deposits that are due, in ascending order, and inserts exactly their pairs |
| Deposits.AdmitFails | contracts/vault/src/lib.rs:596-656 | it fails only in a halt, for IDs out of order, a full tree or a total past its width |
| Deposits.DepositorIsCapped | contracts/vault/src/lib.rs:154-164 | over any run, what one depositor brings in on one UTC day, over all its shields, is within the daily limit at the last of them, and the total within its cap |
| Authority.StepIsLawful | contracts/vault/src/lib.rs:113-804 | only the ASP attests, only the guardian pauses, halts and sets limits, nothing is taken from an address that did not sign, and a halt freezes notes and queues but for what gives deposits back |
| Authority.AspCalls | contracts/vault/src/lib.rs:549-591 | exactly when an attestation, a flag and the lifting of a flag succeed, and what they change |
| Authority.ComesBack | contracts/vault/src/lib.rs:660-674 | a pending deposit goes back to its depositor whenever it signs, and a day after its first flag whoever calls, unless the asset contract refuses, halted or not |
| Reports.TransactReports | contracts/vault/src/lib.rs:299-361 | a transaction reports its nullifiers, its outputs at their leaves with their own ciphertexts, and the exit that waits or the payment made |
| Reports.AdmitReports | contracts/vault/src/lib.rs:625-650 | an admission reports each deposit it takes, with its own commitments and ciphertexts, at the leaves they take |
| VaultTree.Init | contracts/vault/src/tree.rs:224-237 | the stored tree is the tree over no leaves, and its root the one root of the ring |
| VaultTree.Appender.Append | contracts/vault/src/tree.rs:300-321 | after a pair the frontier and the ring are those of the full padded tree over two more leaves |
| VaultTree.ClimbLevel | contracts/vault/src/tree.rs:305-315 | each level of the climb is the node of the full tree, from the frontier on the left or the empty subtree on the right |
| VaultTree.RingAfterPair | contracts/vault/src/tree.rs:316-319 | the new root takes the slot of the one state that leaves the window |
| VaultTree.KnownRootsAreRecent | contracts/vault/src/tree.rs:266-272 | a root is known if and only if it is non-zero and the root after one of the last 256 states, the empty tree among them until it is overwritten |
| PagedTree.SubtreeLevels | sdk/private/src/merkle.ts:22-33 | the levels of a subtree are those of the full tree with absent nodes left out |
| PagedTree.Siblings | sdk/private/src/merkle.ts:35-42 | the siblings are the path of the leaf inside the subtree |
| PagedTree.CommitmentTree.Empty | sdk/private/src/merkle.ts:79-81 | the empty tree holds no leaves |
| PagedTree.CommitmentTree.FromSnapshot | sdk/private/src/merkle.ts:83-95 | a restored snapshot holds the leaves it was taken of; only its counts are checked |
| PagedTree.CommitmentTree.PushComplete | sdk/private/src/merkle.ts:164-171 | a complete node makes every node above that it completes |
| PagedTree.CommitmentTree.ApplyPage | sdk/private/src/merkle.ts:120-137 | applying a page holds exactly its leaves, or fails as the page is too long, not an extension, or past the end |
| PagedTree.CommitmentTree.Append | sdk/private/src/merkle.ts:141-152 | however leaves are batched the tree holds all of them, and the pages returned are exactly those completed, in order |
| PagedTree.CommitmentTree.NodeAt | sdk/private/src/merkle.ts:179-186 | a node at or above a page is the node of the full padded tree |
| PagedTree.CommitmentTree.TreeRoot | sdk/private/src/merkle.ts:188-190 | the root is that of the full padded tree over all leaves, the one the vault's tree has for the same leaves |
| PagedTree.CommitmentTree.PartialPath | sdk/private/src/merkle.ts:202-207 | the path of a leaf of the incomplete page is its path in the full tree |
| PagedTree.CommitmentTree.Path | sdk/private/src/merkle.ts:155-162 | the path of a leaf, with the siblings captured when its page completed, is its path in the full tree |
| PagedTree.PathInPage | sdk/private/src/merkle.ts:45-47 | a path captured inside a page stays the lower part of the leaf's path however the tree grows |
| PagedTree.RootFromPath | sdk/private/src/merkle.ts:211-218 | the loop computes the root that a leaf and its siblings lead to |
| PagedTree.PathProvesLeaf | sdk/private/src/merkle.ts:211-218 | every leaf with its path leads to the root |
| PagedTree.OnlyLeafProves | sdk/private/src/merkle.ts:211-218 | whatever leads to the root is the real leaf with its real path, or exhibits two different pairs of one level that compress to the same node |
| ParseCalls.Parse | services/internal/vault/calls.go:81-138 | the loop groups a transaction's events into calls as its specification does |
| ParseCalls.EventsParseBack | services/internal/vault/calls.go:81-138 | the events of any sequence of calls are grouped back into exactly those calls |
| ParseCalls.ParseLosesNothing | services/internal/vault/calls.go:81-138 | whatever is accepted is the events of the calls returned: none is dropped, added or moved |
| Replay.Tree.AppendPair | services/internal/tree/tree.go:66-85 | the services' own frontier tree holds the full padded tree over two more leaves, or is full |
| Replay.State.Pay | services/internal/chainstate/state.go:799-806 | a payment moves the total and the window of its day, starting a new day from zero |
| Replay.State.TakeOff | services/internal/chainstate/state.go:717-729 | taking the head off pays what was paid of it, and fails when a total would go below zero |
| Replay.State.ApplyTransact | services/internal/chainstate/state.go:549-610 | replaying a transaction changes the state, the window's changes and the spent nullifiers as specified, or fails exactly when it contradicts the vault's rules |
| Replay.State.ApplyExitSettled | services/internal/chainstate/state.go:624-646 | so does a settled exit |
| Replay.State.ApplyExitPaid | services/internal/chainstate/state.go:648-675 | so does a part payment |
| Replay.State.ApplyExitStranded | services/internal/chainstate/state.go:677-715 | so does a stranded exit |
| Replay.State.ApplyExitRequeued | services/internal/chainstate/state.go:731-765 | so does a claim |
| Replay.State.ApplyShield | services/internal/chainstate/state.go:401-424 | so does a deposit |
| Replay.State.ApplyAdmission | services/internal/chainstate/state.go:435-458 | so does an admission |
| Replay.State.ApplyRefunded | services/internal/chainstate/state.go:496-517 | so does a refund, in the replay's wrapping 64-bit times |
| Replay.State.Apply | services/internal/chainstate/state.go:381-547 | replaying the calls of a transaction in order is their specification applied one after another |
| Traces.ReplayAcceptsProper | services/internal/chainstate/state.go:381-806 | the replay of any windows from a new vault accepts them exactly when every call is proper after the calls before it, judged by the trace alone, and its state is then what the trace says: what is pending, flagged, attested, owed, to whom, and paid on each day |
| Traces.CallSteps | services/internal/chainstate/state.go:398-548 | one call after a trace is accepted exactly when it is proper, and leads to the state that the longer trace says |
| Histories.AdmissionHistory | services/internal/chainstate/state.go:435-458 | in any accepted run an admitted deposit was shielded earlier with the commitments inserted, attested after that, every flag on it since was lifted, and no halt was on |
| Histories.RefundHistory | services/internal/chainstate/state.go:496-516 | in any accepted run a deposit refunded with a reason carried it as its last flag, and a flag without a break for a day |
| Histories.SpentOnce | services/internal/chainstate/state.go:818-831 | in any accepted run no nullifier is spent twice in a window |
| Histories.DayIsCapped | services/internal/chainstate/state.go:791-806 | in any accepted run, once limits are known, no payment takes its day past the window |
| Histories.SettledAsNamed | services/internal/chainstate/state.go:624-646 | in any accepted run a settled exit pays the parties that a transaction before named, through any number of claims, and all it was still owed |
| Histories.HaltStops | services/internal/chainstate/state.go:394-548 | in any accepted run, in a halt only flags, returns of deposits and the guardian's calls appear |
| Refinement.ShieldReplays | services/internal/chainstate/state.go:401-424 | the events of a deposit are accepted and leave the replayed state equal to the vault's |
| Refinement.TransactReplays | services/internal/chainstate/state.go:549-610 | so are those of every transaction, paid or queued |
| Refinement.StepsAgree | services/internal/chainstate/state.go:769-780 | what the replay computes of the head's step is what the vault tried to pay |
| Refinement.ReleaseLoopReplays | services/internal/chainstate/state.go:624-729 | so are those of every step of a release, however many exits it settles, pays in part or strands |
| Refinement.ReleaseReplays | services/internal/chainstate/state.go:624-729 | so are those of a release |
| Refinement.ClaimReplays | services/internal/chainstate/state.go:731-765 | so are those of a claim |
| Refinement.AdmitReplays | services/internal/chainstate/state.go:435-458 | so are those of an admission of any number of deposits |
| Refinement.ReturnReplays | services/internal/chainstate/state.go:496-517 | so are those of a deposit given back |
| Refinement.SetLimitsReplays | services/internal/chainstate/state.go:529-545 | so are those of a change of limits, both events of a tightening that drops a queue |
| Refinement.StepIsReplayed | services/internal/chainstate/state.go:398-806 | whatever a call does, its events parse, the replay accepts them and agrees with the vault again |
| Refinement.RunIsReplayed | services/internal/chainstate/state.go:381-806 | from its deployment on, every run of the vault is accepted by the replay of its events, which ends with the same status, deposits, queued and stranded exits and window, before and after the first limits are seen |
| Rows.Store.CommitExit | services/internal/chainstate/store.go:522-584 | one change writes its row as specified, or finds no row to change and fails |
| Rows.Store.CommitExits | services/internal/chainstate/store.go:474-478 | a window's changes are written in order, all of them or none |
| Rows.Store.LoadExits | services/internal/chainstate/store.go:324-376 | loading fills the queued and the stranded exits from the rows, with what claims moved on from each |
| Rows.RepresentedLoads | services/internal/chainstate/store.go:324-376 | agreement between a table and a state means that loading gives exactly its exits |
| Rows.StrandedRepresents | services/internal/chainstate/store.go:546-562 | a strand agrees with its row if and only if it leaves something |
| Rows.KnownLimitsStrandSomething | services/internal/chainstate/state.go:677-715 | once limits are known the replay accepts no strand of nothing |
| Rows.StrandOfNothing | services/internal/chainstate/store.go:546-562 | before that it would: a concrete strand of nothing after which the rows and the state disagree |
| Rows.RequeuedRepresents | services/internal/chainstate/store.go:563-582 | the two rows of a claim load as the new exit and what its parent keeps |
| Rows.CallRepresents | services/internal/chainstate/store.go:522-584 | writing one more call's changes leaves a table that loads as the new state |
| Rows.WindowIsStored | services/internal/chainstate/store.go:324-376 | for any window, however often it queues, part pays, strands and moves one exit, writing succeeds and loading gives exactly the state's queued and stranded exits |
| Lineage.CallAccounted | services/internal/chainstate/state.go:549-765 | every accepted call keeps, for each exit and each of payout and fee, the account of what was paid, moved on and is still owed |
| Lineage.ExitIsConserved | services/internal/chainstate/state.go:54-80 | over any accepted run an exit was queued with what was paid under its ID, plus what claims moved on, plus what it still owes |
| Lineage.ReportedPaidIsPaid | services/internal/chainstate/state.go:135-140 | what the indexer reports as paid of an exit is the sum of its settlements |
| Lineage.MovedIsQueued | services/internal/chainstate/state.go:731-765 | over a requeue tree, what exits moved on is what the exits below the root started with |
| Lineage.TreeIsConserved | services/internal/chainstate/state.go:624-765 | over its whole requeue tree an exit's amount is everything paid, to its own parties alone, plus what its live descendants owe |
| Lineage.CallsPayOnlyHead | services/internal/chainstate/state.go:624-765 | no accepted call leaves a part paid exit anywhere but at the head of the queue |
| Lineage.NeverOverpaid | services/internal/vault/events.go:369-420 | with amounts that decode, no exit ever owes less than nothing or more than it was queued with |
| Promises.PaidBy | services/internal/indexer/exits.go:87-105 | the loop gives each exit the prediction for the exits up to it |
| Promises.TotalIsAhead | services/internal/indexer/exits.go:107-117 | the running total of the prediction is what the exits up to each one can take in the vault |
| Promises.AllowanceIsOnce | services/internal/indexer/exits.go:107-117 | the prediction counts of an exit what it is owed and, only while nothing of its payout was paid, the rest of a window too small to create its account |
| Promises.PromiseIsEndOfDay | services/internal/indexer/exits.go:98-104 | within the range of 64-bit times a prediction is the last second of its day |
| WaitBound.RanOutUses | contracts/vault/src/lib.rs:386-425 | a release that stops by itself in a vault that can pay leaves no queue, a full window, or less than 1 XLM of it at a head owed at least that whose account is missing |
| WaitBound.ReleaseCanRunOut | contracts/vault/src/lib.rs:375-480 | with no halt and a vault that can pay, a release of more exits than are queued never fails and stops by itself |
| WaitBound.StepServes | contracts/vault/src/lib.rs:113-804 | while an exit waits, no call pays anyone but the exits up to it, and new exits queue behind it |
| WaitBound.StepKeepsParts | contracts/vault/src/lib.rs:390-473 | only the head is ever paid in part, and while it waits the day's window is untouched or was filled by its part, through every call |
| WaitBound.RunningOutBounds | contracts/vault/src/lib.rs:386-425 | a day's last release takes a whole window off what the exits up to one can still take, or the head's allowance on top of what it paid |
| WaitBound.ExitLeavesInTime | services/internal/indexer/exits.go:81-105 | with releases that run out on as many days as the exits up to it take windows, an exit has left the queue, whatever else is called |
| Promises.PromiseIsKept | services/internal/indexer/exits.go:81-117 | every time the indexer promises is kept, whatever accounts are created or merged away: the exit has left the queue by it, settled or stranded |
| Signs.StepSigns | services/internal/vault/events.go:369-420 | the vault only emits amounts that the services decode |
| EndToEnd.RunIsStored | services/internal/chainstate/store.go:383-482 | wherever a run of the vault is cut into windows, every window commits onto the table of the last, which then loads as the vault's own queued and stranded exits |
| EndToEnd.RunIsCut | services/internal/chainstate/store.go:383-482 | between cuts the window in progress follows the vault, and its changes on top of the last table lead to rows that load as its state |
| EndToEnd.RunIsKept | services/internal/chainstate/state.go:381-806 | along every run of the vault exits are conserved, none is overpaid, only the head is paid in part, and its changes written to an empty table represent the replayed state |
| EveryPromise.EveryPromiseIsKept | services/internal/indexer/exits.go:81-117 | in every state a run from deployment reaches, each queued exit leaves the queue by the time promised for it |
| StatusCheck.StatusDiff | services/internal/chainstate/state.go:155-175 | the comparison lists exactly the fields that differ, the outflow of one day among them |
| StatusCheck.RunHasNoDiff | services/internal/chainstate/state.go:155-175 | no run of the vault ever shows a difference, on any day |
| Montgomery.Madd | services/internal/fr/fr.go:183-191 | the two words are exactly a*b + c + d: no carry is lost |
| Montgomery.LessThanQ | services/internal/fr/fr.go:138-145 | comparing limbs from the top decides whether the value is below the field order |
| Montgomery.SubQ | services/internal/fr/fr.go:147-153 | the borrow chain subtracts the field order, wrapping at 2^256 |
| Montgomery.Add | services/internal/fr/fr.go:117-129 | the sum is canonical and the field sum: no carry leaves 256 bits |
| Montgomery.AddRow | services/internal/fr/fr.go:160-166 | one row adds x times a limb to the accumulator, in six limbs, without loss |
| Montgomery.ReduceRow | services/internal/fr/fr.go:168-174 | one reduction adds a multiple of the field order and drops a limb that is zero, without loss |
| Montgomery.Rows | services/internal/fr/fr.go:156-175 | after all rows the accumulator times R is x*y plus a multiple of the field order, and below twice that order |
| Montgomery.Mul | services/internal/fr/fr.go:156-180 | one final subtraction is enough: the result is below the field order and congruent to x*y/R, also when it overwrites an operand |
| Montgomery.Product | services/internal/fr/fr.go:132-136 | multiplication of elements is multiplication in the field |
| Montgomery.StandardIsUnique | services/internal/fr/fr.go:11-12 | an element of the field has one Montgomery form |
| Montgomery.Invert | services/internal/fr/fr.go:29-34 | six Newton steps on wrapping words invert any odd word |
| Montgomery.NewtonStep | services/internal/fr/fr.go:31-33 | one step doubles the bits that are right |
| Montgomery.Init | services/internal/fr/fr.go:29-38 | the start-up loop computes the reduction constant of the field order |
| Montgomery.RConstants | services/internal/fr/fr.go:35-37 | the constant that moves values into Montgomery form is R^2 modulo the field order |
| Montgomery.SetBytes | services/internal/fr/fr.go:53-65 | exactly the encodings below the field order decode, to the element of that value |
| Montgomery.Bytes | services/internal/fr/fr.go:87-97 | an element encodes as its canonical value, big-endian |
| Montgomery.OneEncoding | services/internal/fr/fr.go:53-97 | decoding and encoding undo each other: equal bytes and equal elements are the same thing |
| Field.Mod | sdk/private/src/field.ts:8-11 | the canonical residue, for negative inputs too, of a remainder that follows the sign of the dividend |
| Field.Add | sdk/private/src/field.ts:17-20 | one conditional subtraction is addition modulo P on canonical inputs |
| Field.Sub | sdk/private/src/field.ts:22-25 | one conditional addition is subtraction modulo P on canonical inputs |
| Field.Neg | sdk/private/src/field.ts:27-29 | the negation is canonical and sums with its argument to zero |
| Field.Pow | sdk/private/src/field.ts:39-49 | square and multiply gives the power modulo P of any base, and one for a negative exponent |
| Field.Inv | sdk/private/src/field.ts:51-63 | Euclid's algorithm ends, fails exactly for zero and, with P prime, returns the canonical inverse |
| Field.Sqrt | sdk/private/src/field.ts:81-104 | the search always ends, what it returns is a canonical root and, with P prime and 5 no square, it returns one exactly for the squares |
| ModularRoots.SearchAdvances | sdk/private/src/field.ts:88-102 | each round brings t at least one squaring nearer to one, which is why a square never fails |
| Field.HighOrNegated | sdk/private/src/field.ts:69-72 | of a non-zero number and its negation exactly one is high |
| PrimeField.Fermat | sdk/private/src/field.ts:74-80 | Fermat's little theorem, on which the search rests |
| PrimeField.Euler | sdk/private/src/field.ts:74-80 | Euler's criterion for a number that is no square, which makes the root of unity one of full order |
| Curve.SolvedForX | sdk/private/src/babyjub.ts:73-78 | a point is on the curve exactly when its x squared is the quotient that decoding takes the root of |
| Curve.HasDenominator | sdk/private/src/babyjub.ts:130-132 | on the curve the denominator is never zero |
| BabyJubjub.PackPoint | sdk/private/src/babyjub.ts:116-120 | a point of the curve encodes as its y with the sign of x in the top bit |
| BabyJubjub.UnpackPoint | sdk/private/src/babyjub.ts:124-137 | with P prime, a decoded point is the only one on the curve that encodes to these bytes; with 5 no square too, every such encoding decodes |
| BabyJubjub.OnePointPerEncoding | sdk/private/src/babyjub.ts:116-137 | each point has one encoding and each encoding one point |
| ScalarMul.Multiply | sdk/private/src/babyjub.ts:84-97 | the windowed loop computes the multiple of the point by the scalar in any group, and refuses a negative one |
| Archive.File.AppendWrite | services/internal/archive/archive.go:133-187 | a write adds its lines and the record that closes it after ending a torn line; refused or failed it leaves the file as it was |
| Archive.LinesAfter | services/internal/archive/archive.go:199-212 | cut at any byte, a write leaves the lines before it, its whole lines, and the part of one more |
| Archive.ReadArchiveFile | services/internal/archive/archive.go:290-358 | the scan updates its open, ended and finished writes as specified, line by line |
| Archive.ReadsWrite | services/internal/archive/archive.go:318-352 | a whole write reads as finished, its count and digest matching |
| ArchiveLines.FileIsRead | services/internal/archive/archive.go:286-358 | a file of any bytes is accepted exactly when each of its lines may follow those before it: cut off but not after another cut-off line, an event of this vault, or a closing record that counts and sums its write, of a write that is not over; and the writes returned are then the closed ones |
| ArchiveLines.ClosedAreWhole | services/internal/archive/archive.go:286-352 | whatever a read returns of a write is all of it: its closing record is in the file and counts and sums exactly the lines its events come from |
| Archive.AdjoinIsTornTwice | services/internal/archive/archive.go:310-322 | two unreadable lines adjoin exactly when a write was cut off inside a line and the next one that left anything inside its first |
| Archive.FileRecovers | services/internal/archive/archive.go:290-358 | of a file built from writes and writes cut at any byte a reader takes exactly the finished ones in order, unless two crashes tore it so; then it fails |
| Archive.TwoCrashesDamage | services/internal/archive/archive.go:310-322 | two writes cut off after the first byte of their lines make a file that fails the read |
| ArchiveEvents.FindOwners | services/internal/archive/archive.go:247-257 | each ledger is owned by the last finished write that covers it |
| ArchiveEvents.Events | services/internal/archive/archive.go:228-284 | a range reads as the events of each ledger's owner in strict chain order, and fails exactly for a missing or damaged file, an uncovered ledger or a shared position |
| ArchiveEvents.KeptHolds | services/internal/archive/archive.go:247-272 | a range keeps exactly the events of its ledgers that the last write covering their ledger holds |
| ArchiveEvents.DirectoryRecovers | services/internal/archive/archive.go:228-245 | files that writes and crashes made read as the finished writes of all their windows |
| Costs.Estimate.Add | services/internal/relayer/fee.go:116-132 | a sample is recorded within twice the median of a full window, or the bootstrap value before |
| Costs.Estimate.ResourceFee | services/internal/relayer/fee.go:135-145 | the estimate is the bootstrap value until 50 samples are known, and then the sample that at most 5 exceed and at most 44 fall below |
| Costs.Estimate.constructor | services/internal/relayer/fee.go:94-112 | a start from stored samples records them one by one, or holds a full window against its own median |
| Costs.Rank | services/internal/relayer/fee.go:124-128 | an order statistic is above a bound exactly when enough samples are |
| Costs.WindowRanks | services/internal/relayer/fee.go:124-145 | of a full window exactly one number is a sample with at most 24 above and 25 below it, the median, and exactly one a sample with at most 5 above and 44 below it, the estimate |
| Costs.SampleIsTaken | services/internal/relayer/fee.go:116-132 | a confirmed fee becomes the newest sample, cut at twice the bootstrap value or at twice the median of a full window, whose oldest sample it replaces |
| Costs.MedianIsBounded | services/internal/relayer/fee.go:76-79 | fewer than 25 samples can be newer than the last doubling, too few to lift the median past the bound |
| Costs.InfluenceIsBounded | services/internal/relayer/fee.go:76-145 | from a full window of samples of at most m, after n recorded ones the median is at most m*2^(n div 25) and the estimate at most twice that, whatever fees are reported and even if a product wraps |
| Costs.RestartKeepsMedian | services/internal/relayer/fee.go:91-112 | a restart from the last 50 stored samples keeps their median, and cuts the estimate at twice of it, exactly when that fits 64 bits; otherwise both wrap; a sample of nothing leaves the bootstrap value |
| Costs.QuoteIsLeast | services/internal/relayer/fee.go:55-74 | the quote is the least multiple of the tier that covers the cost and the margin, and the cost in the asset the least amount worth the stroops |
| Attestation.AttestCandidate | services/internal/screening/screener.go:792-811 | the loop returns the end of the longest run and exactly the deposits to hold in it |
| Attestation.CandidateIsUnique | services/internal/screening/screener.go:786-791 | only one ID can be the end of the longest run |
| Attestation.EverythingCovered | services/internal/screening/screener.go:786-791 | every deposit above the attested ones and up to the result is flagged, passed lately, or held and holdable |
| Attestation.NothingUnchecked | services/internal/screening/screener.go:792-811 | every deposit an attestation covers was flagged here, or on the chain and not lifted since, passed its last check within the window, or is among those held first |
| Attestation.NothingLeftOut | services/internal/screening/screener.go:792-811 | a deposit that passed and lies above the end of the run comes after one above it that is not flagged, has not passed and may not be held |
| Attestation.Screener.Attest | services/internal/screening/screener.go:813-857 | an attestation is sent only after every hold, below the next deposit, in a vault not halted, when the chain accounts for every deposit it covers |
| Attestation.Screener.ChainAgrees | services/internal/screening/screener.go:863-899 | the chain agrees when each deposit covered is resolved, flagged there, or passed here |

## Left out

- Groth16 verification, Poseidon, Keccak and SHA-256: parameters of the model, and so is the domain derived from them at deployment.
- The refusal to deploy with a forgeable key on the main network, which depends on the build.
- Storage lifetimes, rent and `bump_ttl`: entries persist.
- The table of empty subtree roots in the vault and the services: taken as the iterated compression of zero.
- XDR and JSON encodings, field ranges of decoded events beyond the signs of amounts, and how transactions are cut out of a ledger.
- Leaves, roots, nullifiers, deposits and notices in a window's changes and their tables: inserts without the branching of the exits table.
- State that outlives a failed `Apply`: callers apply to a clone, so a failing window is not observed.
- Aliasing of big integers in the replay and the deep copy that `Clone` makes: integers are values.
- SQL itself: the exits table is a map from ID to row, and a failed statement undoes the window.
- Other indexer routes, `Strands`, alerts, the follower, configuration and command lines.
- Replay.State.ApplyGovernance: pause, halt, resume and limits are assignments; what they guarantee is in Guardian and Refinement.
- Field.Inv: that P is prime is a hypothesis of the inverse, stated in its contract.
- Field.Sqrt: that P is prime and that 5 is no square modulo P are hypotheses of completeness; ending and soundness need neither.
- BabyJubjub.UnpackPoint: what it accepts is characterized for a prime P; that it accepts every encoding assumes that 5 is no square as well.
- ScalarMul.Multiply: over any group whose addition, zero and doubling obey the laws; that the curve's own formulas do is not proved.
- Subgroup membership and the timing of scalar multiplication.
- ArchiveEvents.Events: window starts are unbounded integers, so ranges in the last window below 2^32 ledgers are not distinguished from others.
- Archive.ReadArchiveFile: a line at or above the scanner's limit fails the read; the scanner's exact buffer arithmetic is not modelled.
- Archive.File.AppendWrite: creating the directory, modes, syncing and the case that cutting a failed write off also fails.
- The quotes' history in the relayer (`publish`, `lowest`, `newest`): clock and memory of five minutes, with one-line searches.
- Screening decisions other than the attestation: first checks, reviews, lifting holds.
- Attestation.Screener.Attest: database updates between a flag and the attestation are not modelled; a flag fails or is sent.
- Promises.PromiseIsKept: assumes that the promised day ends within 64-bit time, beyond which the promise itself wraps.
