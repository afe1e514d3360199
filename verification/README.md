# The x4c ledgers, modelled and proved in Dafny

The project models the two LIGO contracts of the carbon credit system and the list helpers they share, and
proves what holds of them over whole runs of a chain that carries any number of both.

- The **token contract** (FA2, `src/fa2.mligo`) keeps a balance per owner and token id, operators, and
  write-once token metadata.
- The **custodian** (`src/custodian.mligo`) is a second ledger over the first. It divides what it holds at the
  token contracts among off-chain clients (`ledger`), caches its own balance of each token
  (`external_ledger`), resynchronises that cache with `internal_mint`, and debits both maps *before* the token
  contracts run the transfers and retirements it emits.

## How to read it

| file | contents |
|---|---|
| `Outcomes.dfy`, `Lists.dfy` | results with `failwith` codes; `List.fold`, `lib/list.mligo` and their laws |
| `Ledgers.dfy`, `Operators.dfy` | balance maps and signed postings, finite-map totals, moves; operator histories |
| `Tezos.dfy` | addresses, tokens, events |
| `FA2.dfy`, `FA2Proofs.dfy` | the token contract, and what its entrypoints do |
| `Custodian.dfy`, `CustodianProofs.dfy`, `MintProofs.dfy`, `CustodianEffects.dfy` | the custodian, and what its entrypoints do |
| `World.dfy` | transactions with reverts, runs, failed calls, and the invariant of every run |
| `Backing.dfy`, `Delivery.dfy` | pending operations, no bounce, backing over runs, end-to-end effect of forwarding |
| `Commitment.dfy`, `DuplicateRun.dfy` | exactly which calls commit, pay-outs, and a run that leaves backing |
| `TokenHistory.dfy`, `Journal.dfy`, `Replay.dfy` | supply, metadata, logs and replay over runs |
| `Roles.dfy`, `Delegation.dfy`, `Views.dfy` | who holds a role, who can lower whose balance, and what the views sum to, over runs |

The source is pure (storage threaded through folds), and so is the model: each step closure is a named
function, each entrypoint the same nesting of `Fold` as in the source, and `failwith` is `Err` with the same
number. `FA2.Transfer`, `FA2.UpdateOperators`, `FA2.MintTokens`, `FA2.RetireTokens`, `FA2.AddTokenId`,
`FA2.UpdateOracle` and `FA2.Main` are the token contract's entrypoints; `Custodian.InternalTransfer`,
`Custodian.InternalMint`, `Custodian.ExternalTransfer`, `Custodian.UpdateInternalOperators`,
`Custodian.Retire`, `Custodian.UpdateCustodian` and `Custodian.Main` are the custodian's. The lemmas in the
table below state what these functions mean.

Every posting to a ledger is a signed change of one key. A sequence of postings has a net effect per key and
per token, and succeeds exactly when no prefix overdraws the key it ends on (`Ledgers.PostExact`). Each
entrypoint is shown to be a permission check plus such a sequence; the rest of the project reasons about nets.
The verdict on every call is stated over its own parameter, with permissions as memberships in the operator
set (`FA2Proofs.MainExact`, `CustodianEffects.MainExact`) and, for whole transactions, in
`Commitment.CallCommits`.

A transaction (`World.Transact`) is a call by an address that is neither a token contract nor a custodian of
the world, followed by the operations the custodian emits, in list order, each token contract's own events
directly after its call. Any failure is the failure of the whole, and `World.Apply` then leaves the world as it
was; a run ends where it would have ended without its failed calls (`World.FailuresLeaveNoTrace`). A run starts
from freshly originated contracts with empty storage (`backend/pkg/x4c/custodian_originate.go:22-32`,
`backend/pkg/x4c/fa2_originate.go:20-30`). The world also records the committed calls and the emitted events, in
order.

## What the proofs found

- **`internal_mint` is not idempotent on every batch.** `docs/key-management.md:165` calls it idempotent, but
  every diff is taken against the storage the call started with (`src/custodian.mligo:202-222`), so a token
  listed k times is credited k times. `MintProofs.MintClosedForm` gives the closed form,
  `MintProofs.DuplicateOverstates` a witness, and `MintProofs.MintRepeats` the exact condition: an immediate
  repeat succeeds, changes nothing and emits nothing if and only if every listed token is listed once or already
  agrees with its view (`MintProofs.Synchronising`).
- **Backing depends on exactly that condition.** `Backing.RunBacks`: each world along a run keeps every cache
  within the token contract's balance if and only if each committed `internal_mint` of the run was
  synchronising. `DuplicateRun.DuplicateLeavesBacking` is a run from origination that leaves backing, and
  `DuplicateRun.DuplicateThenBounces` continues it with a retirement the token contract refuses.
- **When a call commits, exactly.** `Commitment.CallCommits` decides every call to either contract. In any sound
  world a retirement commits if and only if the custodian accepts it and really holds, token by token, what is
  retired (`Commitment.RetireCommits`); an external transfer, if and only if the moves it forwards are covered at
  their turn at each token contract (`Commitment.ExternalTransferCommits`); every other call, whenever it is
  accepted (`Commitment.LocalCallCommits`). With custodian accounts outside the modelled contracts, backing is
  exactly the condition under which nothing can bounce (`Commitment.BackedIsNoBounce`).
- **Self-transfers are unchecked.** Both contracts credit before they debit, so a self-transfer of any amount
  succeeds (`FA2Proofs.SelfTransferAboveBalance`, `CustodianProofs.InternalSelfTransfer`), where TZIP-12 would
  have the token contract's fail. Success conditions say so.
- **External transfers leave no custodian event.** A ledger rebuilt from the custodian's events exceeds the
  real one by exactly what external transfers took (`Replay.EventReplay`).

## Model

| member | source | states |
|---|---|---|
| Lists.Concat | lib/list.mligo:1-3 | the fold-right concatenation is list concatenation |
| Lists.FlatMap | lib/list.mligo:5-6 | every piece appears, in list order, none dropped or repeated |
| Lists.CompactList | lib/list.mligo:8-14 | exactly the present values remain, in order |
| Lists.FilterMap | lib/list.mligo:16-18 | exactly the images that are present, in order |
| Ledgers.UpdateBalance | src/fa2.mligo:104-109 | fails exactly on overdraft, changes one balance by the diff and no other, and never stores a zero |
| Ledgers.PostExact | src/custodian.mligo:143-148 | a sequence of balance updates succeeds exactly when no prefix overdraws the key it ends on, shifts each balance by its net and keeps maps canonical |
| Ledgers.CanonicalExtensional | src/fa2.mligo:253-257 | ledgers without stored zeros that answer every balance query alike are equal maps |
| Ledgers.TotalPosted | src/fa2.mligo:104-109 | the sum over all owners of one token changes by the net of the postings to that token |
| Ledgers.MovesExact | src/fa2.mligo:131-135 | a list of moves succeeds exactly when each is a self-transfer or its source holds the amount after the earlier moves; balances shift by inflow less outflow |
| Ledgers.MovesConserve | src/fa2.mligo:131-135 | moves change no token's total |
| Ledgers.OutgoingMoves | src/fa2.mligo:119-141 | moves out of one account succeed once it can pay the batch, and cost nobody else anything |
| Operators.LastUpdateDecides | src/custodian.mligo:284-300 | after any updates a triple is a member exactly if the last update naming it added it, or none did and it was there |
| FA2Proofs.TransferFlattens | src/fa2.mligo:121-141 | the nested folds equal one fold over the flattened moves, failures included |
| FA2Proofs.TransferExact | src/fa2.mligo:119-141 | `transfer` succeeds if and only if for every item the sender is the owner or the owner's operator for that id, and the item is covered at its turn; its exact effect; a failure carries the code of the first failing item |
| FA2Proofs.TransferComposes | src/fa2.mligo:119-141 | one call on two joined batches is two calls in a row |
| FA2Proofs.SelfTransferAboveBalance | src/fa2.mligo:132-134 | a self-transfer of any amount succeeds and changes nothing |
| FA2Proofs.RetireExact | src/fa2.mligo:202-218 | `retire` succeeds if and only if for every item the sender is the retiring party or its operator for that id, and each owner can pay its total; its exact effect and events; a failure carries the code of the first failing item |
| FA2Proofs.MintExact | src/fa2.mligo:186-199 | `mint` succeeds if and only if the oracle mints known ids; it never overdraws; which code each failure carries |
| FA2Proofs.OperatorUpdatesExact | src/fa2.mligo:163-183 | `update_operators` succeeds if and only if the sender owns every entry and adds nobody as own operator; it then applies every update and changes nothing else; a failure carries the code of the first failing update |
| FA2Proofs.AddTokensExact | src/fa2.mligo:222-232 | `add_token_id` succeeds if and only if the oracle lists ids new to contract and batch; earlier entries are kept, each listed one is filed under its id, the known ids are exactly the old and the listed; which code each failure carries |
| FA2Proofs.MainEffect | src/fa2.mligo:269-286 | every entrypoint is its postings, operator updates, filed metadata and events; oracle calls need the oracle; only `update_oracle` passes the role on |
| FA2Proofs.MainExact | src/fa2.mligo:269-286 | when each entrypoint accepts a call, `update_oracle` included, and which code a refusal carries |
| FA2Proofs.MainSpends | src/fa2.mligo:129-134 | a balance falls only if its owner or a current operator for that token sent the call |
| FA2Proofs.HeldIdsAreKnown | src/fa2.mligo:119-141 | a token id held after any call has metadata, although transfers never check |
| FA2Proofs.MainKeepsSound | src/fa2.mligo:269-286 | every call keeps the ledger canonical, its ids known, metadata keyed by id and no owner its own operator |
| CustodianProofs.InternalTransferFlattens | src/custodian.mligo:158-177 | the nested folds equal one fold over the flattened moves, failures included |
| CustodianProofs.InternalTransferExact | src/custodian.mligo:157-195 | `internal_transfer` succeeds if and only if for every item the sender is the custodian or the paying client's operator for that id, and the item is covered at its turn; its exact effect and one event per move; a failure carries the code of the first failing item |
| CustodianProofs.StrangerMovesNothing | src/custodian.mligo:163-167 | one item whose client has not named the sender operator for its id refuses the whole call, with denial where funds are no obstacle |
| CustodianProofs.InternalSelfTransfer | src/custodian.mligo:171-175 | a permitted self-transfer of any amount succeeds, is reported and changes nothing |
| CustodianProofs.InternalTransferComposes | src/custodian.mligo:157-195 | one call on two joined lists acts and reports as two calls in a row |
| CustodianProofs.ExternalTransferFlattens | src/custodian.mligo:247-266 | the three nested folds equal one fold over the flattened debits |
| CustodianProofs.RetireFlattens | src/custodian.mligo:304-323 | the nested folds equal one fold over the flattened, guarded debits |
| CustodianProofs.WithdrawalsExact | src/custodian.mligo:254-260 | on reconciled storage a debit batch succeeds if and only if each client can pay its total, the cached balance never deciding; each client pays and each cache falls by exactly what is owed |
| CustodianProofs.WithdrawalsPermute | src/custodian.mligo:254-260 | any permutation of a debit batch gets the same verdict and leaves the same storage |
| CustodianProofs.RetireRegroups | src/custodian.mligo:304-323 | regrouping or reordering a retire batch changes neither verdict nor storage of the local phase |
| CustodianProofs.ExternalTransferRegroups | src/custodian.mligo:247-266 | the same for external transfers |
| CustodianProofs.RetireExact | src/custodian.mligo:302-362 | `retire` succeeds if and only if for every item the sender is the custodian or the client's operator for that id, clients can pay and token contracts exist; its exact debits, forwarded retirements and events; which code each failure carries |
| CustodianProofs.StrangerRetiresNothing | src/custodian.mligo:309-310 | the same for `retire` |
| CustodianProofs.ExternalTransferExact | src/custodian.mligo:244-282 | `external_transfer` succeeds if and only if the custodian calls, clients can pay and token contracts exist; its exact debits and forwarded operations; which code each failure carries |
| MintProofs.MintEffect | src/custodian.mligo:198-240 | when `internal_mint` succeeds, what it posts to both maps and which events it emits |
| MintProofs.MintFailure | src/custodian.mligo:199-215 | a failed `internal_mint` carries the caller's denial or the code of the first token that cannot be viewed or has shrunk |
| MintProofs.MintClosedForm | src/custodian.mligo:202-230 | a token listed k times goes from cached b to b + k * (e - b) for viewed e; the unassigned holder gains the same, no client anything |
| MintProofs.MintSynchronises | src/custodian.mligo:198-240 | listed caches end at their viewed balances if and only if the batch is synchronising; otherwise one ends above |
| MintProofs.MintRepeats | docs/key-management.md:165 | the promised idempotence, exactly: an immediate repeat succeeds, without change or event, if and only if the batch was synchronising |
| MintProofs.MintEach | src/custodian.mligo:198-240 | single-token calls synchronise each listed token, repeats included |
| MintProofs.MintBatchSucceedsAlike | src/custodian.mligo:198-240 | a batch succeeds if and only if single-token calls in any order all do |
| MintProofs.MintBatchIsOneByOne | src/custodian.mligo:198-240 | a batch leaves the storage single-token calls in any order leave, if and only if it is synchronising |
| MintProofs.DuplicateOverstates | src/custodian.mligo:209-230 | a witness: a token listed twice counts its growth twice, and the repeat fails |
| CustodianEffects.MainEffect | src/custodian.mligo:384-397 | every entrypoint is its postings to both maps, operator updates and emitted operations; custodian calls need the custodian |
| CustodianEffects.PostingsAgree | src/custodian.mligo:171-175 | client totals and cached balance of each token change alike in every entrypoint |
| CustodianEffects.MainKeepsSound | src/custodian.mligo:384-397 | reconciliation: every call, duplicated mint batches included, keeps client balances summing to the cached balance of every token, and both maps canonical |
| CustodianEffects.MainSpends | src/custodian.mligo:163-167 | a client's balance falls only if the custodian or an operator of the client for that very token id sent the call |
| CustodianEffects.MainExact | src/custodian.mligo:384-397 | when each entrypoint accepts a call, `update_internal_operators` and `update_custodian` included, and which code a refusal carries |
| CustodianEffects.OpsAreOutgoing | src/custodian.mligo:268-282 | emitted transactions take from the custodian alone, at existing token contracts |
| CustodianEffects.CacheStaysKnown | src/custodian.mligo:204-210 | only tokens whose contract a view has found enter the cache |
| World.RunIsSound | src/custodian.mligo:384-397 | over every run all storages are sound, client balances reconcile, caches name existing token contracts, and no operator entry is owned by a modelled contract |
| World.FailuresLeaveNoTrace | src/custodian.mligo:365-366 | a failed call changes no storage, record or event, and a run ends where it would have ended without its failed calls |
| Backing.OutgoingAccepted | src/fa2.mligo:119-141 | a token contract accepts an outgoing operation its sender can pay |
| Backing.PendingOutflow | src/custodian.mligo:268-282 | after any number of emitted operations none has failed, and cached balance plus pending outflow of every token is still held |
| Backing.CallReserves | src/custodian.mligo:304-344 | minting aside, a call leaves cached balance plus pending outflow of each token as the cache was |
| Backing.NoBounce | src/custodian.mligo:302-362 | from a sound and backed world a custodian call commits if and only if the custodian accepts it |
| Backing.RunsDoNotBounce | src/custodian.mligo:302-362 | the same in every world a disciplined run reaches |
| Backing.OverstatedRetirementBounces | src/fa2.mligo:211-216 | where one client's balance exceeds the custodian's holding, retiring it passes the custodian and is refused by the token contract |
| Backing.StepBacks | src/custodian.mligo:198-240 | a backed world stays backed if and only if the call is disciplined |
| Backing.RunBacks | src/custodian.mligo:198-240 | every world along a run is backed if and only if each committed mint was synchronising |
| Backing.DuplicateFreeRunsAreBacked | src/custodian.mligo:34-35 | with duplicate-free mints, in every reachable world client balances sum to the cache, which the token contract covers |
| Backing.MintNeverShort | src/custodian.mligo:212-214 | in a backed world the insufficient-balance branch of `internal_mint` is unreachable |
| Delivery.ExternalTransferDelivers | src/custodian.mligo:244-282 | end to end, every holder gains what was addressed to it and the custodian gives up exactly the clients' debits |
| Delivery.RetirementDestroys | src/custodian.mligo:302-344 | end to end, a retirement destroys exactly the clients' debits and touches no other holding |
| Commitment.ExecuteAllExact | src/fa2.mligo:119-141 | outgoing operations all run if and only if every token contract can post all they have for it; the one failure is its shortage |
| Commitment.RetireCommits | src/custodian.mligo:302-362 | in any sound world a retirement commits if and only if the custodian accepts it and holds, token by token, what is retired |
| Commitment.ExternalTransferCommits | src/custodian.mligo:244-282 | in any sound world an external transfer commits if and only if the custodian accepts it and at each token contract the forwarded moves are covered at their turn |
| Commitment.LocalCallCommits | src/custodian.mligo:384-397 | every other call commits if and only if the custodian accepts it |
| Commitment.CallCommits | src/custodian.mligo:384-397 | every call, to either contract: it commits if and only if it comes from outside to a known contract that accepts it and what is forwarded is covered; and which failure it has otherwise |
| Commitment.OverstatedCacheBounces | src/custodian.mligo:302-344 | wherever a cache exceeds the holding, however spread over clients, retiring all of it is accepted by the custodian and refused by the token contract |
| Commitment.BackedIsNoBounce | src/custodian.mligo:302-362 | with custodian accounts outside the contracts, a sound world is backed if and only if no accepted call can bounce |
| Commitment.PayOutCommits | src/custodian.mligo:244-282 | in a backed world any part of any client's balance can be sent out; the client pays it and the receiver gains it |
| Commitment.ClientsCanBePaidOut | src/custodian.mligo:244-282 | the same in every world a disciplined run reaches |
| DuplicateRun.DuplicateLeavesBacking | src/custodian.mligo:202-230 | from origination, adding an id, minting to the custodian and one `internal_mint` listing the token twice leaves backing |
| DuplicateRun.DuplicateThenBounces | src/custodian.mligo:202-230 | the retirement of the doubled balance that follows is accepted by the custodian and bounces |
| TokenHistory.RunExplained | src/fa2.mligo:269-286 | a token contract's storage and event log are what its recorded calls produce from origination |
| TokenHistory.SupplyConserved | src/fa2.mligo:186-218 | over any run each id's balances sum to minted less retired in the emitted events |
| TokenHistory.BalanceIsNet | src/fa2.mligo:269-286 | over any run the view of a holding equals the net of the recorded calls' credits and debits to it |
| TokenHistory.OperatorsAreLastAdded | src/fa2.mligo:163-183 | over any run a triple is present if and only if its last committed update added it; its owner sent every update; none is its own operator |
| TokenHistory.BalanceFallsByOwnerOrOperator | src/fa2.mligo:129-134 | an outside call lowers a balance only if its owner sent it or a current operator for that very id did |
| TokenHistory.TokenUniverse | src/fa2.mligo:222-232 | over any run the metadata is exactly what committed `add_token_id` calls listed, no id twice; it is never removed or overwritten, is keyed by id and covers every held id |
| Journal.TransactLogs | src/custodian.mligo:362-362 | a transaction appends its own events and calls, in order, and changes at most the called custodian |
| Journal.RetireStories | src/custodian.mligo:325-362 | one retire call tells both logs the story its parameter requests |
| Journal.RunTellsOneStory | src/custodian.mligo:325-362 | over any run a token contract's retirement log for a custodian equals, in order, that custodian's log for the contract |
| Roles.OracleIsLastNamed | src/fa2.mligo:242-245 | over any run the oracle is whom the last committed `update_oracle` named, or the original one, and sent every committed call reserved for it |
| Roles.CustodianIsLastNamed | src/custodian.mligo:365-368 | over any run the custodian is whom the last committed `update_custodian` named, or the original one, and sent every committed call reserved for it |
| Replay.CallReplays | src/custodian.mligo:179-195 | the events of a call carry its postings, zero-amount mints left out; external transfers carry none |
| Replay.EventReplay | src/custodian.mligo:231-240 | folding a custodian's events from an empty map gives what its view answers plus what external transfers took, and the ledger itself if and only if they took nothing |
| Delegation.OutgoingSpares | src/custodian.mligo:274-274 | a custodian's operations never take from another holder, even one that named it operator |
| Delegation.HoldingFalls | src/fa2.mligo:129-134 | a holding falls only in a call by its owner or its operator for that id to the token contract, or in a call to the custodian holding it |
| Delegation.OnlyDelegatesSpend | src/fa2.mligo:129-134 | over any run an outside call lowers a holding only if its owner sent it, or an address whose last committed update as its operator for that id added it |
| Delegation.OnlyTheCustodianSpends | src/fa2.mligo:163-183 | over any run no operator exists for a custodian's holdings, and only calls to it lower them |
| Delegation.ClientBalanceFalls | src/custodian.mligo:163-167 | a client's balance falls only in a call by the custodian of the moment or an operator of that client for that id |
| Delegation.OnlyClientDelegatesSpend | src/custodian.mligo:163-167 | over any run a client's view falls only in a call by the custodian last named, or an address whose last committed update as the client's operator for that id added it |
| Delegation.InternalOperatorsAreLastAdded | src/custodian.mligo:284-300 | over any run a triple is a custodian operator if and only if its last committed update added it |
| Delegation.RetirementWasPermitted | src/custodian.mligo:309-310 | every retirement a custodian has logged belongs to a committed call whose sender was, by the updates recorded before it, the custodian or that client's operator for that id, and names its source |
| Views.ClientViewsSumToCache | src/custodian.mligo:375-378 | over any run the views of all clients of a token sum to its cached balance |
| Views.AccountViewsSumToSupply | src/fa2.mligo:253-257 | over any run the views of all holders of an id sum to minted less retired |

## Left out

- Token contracts other than `src/fa2.mligo`: every token address of a world runs that contract; any other address has no view and no entrypoint of the needed type.
- Atomic groups of several outside calls: each outside call is its own transaction, so a group reverting together is not modelled.
- `balance_of` (`src/fa2.mligo:144-160`): read-only, with one outward call to a contract that is not part of this model.
- `update_contract_metadata` and the `metadata` fields (`src/fa2.mligo:235-238`): a one-field overwrite nothing else reads.
- `view_get_metadata` (`src/fa2.mligo:260-263`): a lookup with no effect on the ledgers.
- Gas, tez amounts, record layouts and entrypoint-name resolution: beyond whether an address is a known token contract.
- Contract origination during a run: all contracts of a world exist from its start.
- Byte packing: client keys are opaque byte strings, and only the packed form of "self" is fixed.
- The Go backend and the TypeScript frontend: plumbing around the contracts, apart from the empty initial storage.
