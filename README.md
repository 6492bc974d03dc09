# SimpleAssets in Dafny

A model of the SimpleAssets EOSIO contract (`src/SimpleAssets.cpp`), with
proofs about it. The contract keeps two kinds of assets.

- **Non-fungible assets (NFTs).** Each record sits in the `sassets` table of
  its owner's scope. It can be:
  - offered to another account, and then claimed by that account;
  - transferred or burned;
  - lent for a period;
  - packed inside another asset of the same author and unpacked again.
- **Fungible tokens.** Authors define tokens (`stats`). Holders keep
  balances (`accounts`). Tokens can be:
  - issued, transferred, burned, offered in escrow and claimed;
  - attached to an NFT (`containerf`) and detached from it.

One counter of `getid` numbers both the NFTs and the token definitions. A
second counter numbers the deferred notifications and the token offers.

The model has three layers.

- **Specification functions.**
  - `Types`, `Folds`, `Nft`, `Fungible` and `Authors` describe each action
    as a pure function. It maps the state before the action to the state
    after it, or to the message of the first `check` that fails.
  - A batched action is a `Fold` over its `assetids`. A later id sees the
    writes of the earlier ones, as in the C++ loop.
  - An action that sends an inline action calls that action's function
    directly, with the contract's own authority. These are `issuef` →
    `transferf`, `delegate` → `transfer` and `undelegate` → `transfer`.
  - A failed `check` anywhere aborts the whole action.
- **The contract object.** `Contract.SimpleAssets` is a class whose fields
  are the tables and the two counters. Its methods perform each action step
  by step with loops. Each method is proved to end exactly as its
  specification function says:
  - on success, the tables hold the function's result;
  - on failure, the method returns the same message and every write is
    undone.
- **Properties.**
  - `Ledger` proves an invariant that every action of the model preserves:
    - each record lies in its owner's scope under its own issued id;
    - every id is held by exactly one record, either at the top of one scope
      or embedded once in one container;
    - no asset is both offered and delegated;
    - balances stay in `0 .. 2^62-1`, escrowed amounts are positive and no
      supply exceeds its maximum.

    For `detach` this holds only under the corrected rule below.
    `Findings.DetachStaleOwner` shows the code as written breaking it.
  - `NftFacts` and `TokenFacts` state what each action does and prove the
    round trips between actions: offer/cancel, offer/claim, delegate/undelegate,
    attach/detach, open/close, create/claim and register/clear.
  - `Findings` keeps four places where the code as written departs from what
    it evidently intends. Each comes with an input that shows it.

In four places the action functions follow the corrected rule of a
finding, not the code as written. The code as written is kept beside each
one in `Findings`, with an input on which the two differ.

- **Returning a loan through `transfer`.** `Nft.DelegationCheck` refuses,
  with the period message, a return that only the lender signed before the
  period ends. The code accepts it (src/SimpleAssets.cpp:190-205).
- **The owner of an unpacked record.** `Nft.DetachEntry` names the owner
  whose scope receives the record. The code keeps the owner stored when the
  record was packed (src/SimpleAssets.cpp:485).
- **The duplicate scan of `offerf` and `closef`.** `Fungible.SameOffer` and
  `Fungible.SameToken` compare the owner's own offers only. The code walks
  the owner index from `find(owner)` to its end without testing the owner
  (src/SimpleAssets.cpp:647-652 and 770-774).
- **The end of a loan.** `Nft.Expired` adds `cdate + period` over unbounded
  naturals, and `Nft.UndelegateStep` and `Nft.DelegationCheck` use it. The
  code adds the two in 64-bit unsigned arithmetic, which wraps
  (src/SimpleAssets.cpp:416).

Host inputs are parameters:

- the authorities the transaction carries;
- which names are accounts;
- the current time.

Notifications sent with `sendEvent` go to an outbox in the state, one event
per distinct author, in ascending name order.

The contract's documentation lets a loan be returned once `now` reaches
the end of its period. The code returns it only when `cdate + period < now`
(src/SimpleAssets.cpp:416), which is strictly after the period ends. The
model follows the code.

## Model

| member | source | states |
|---|---|---|
| Types.AddQ | src/SimpleAssets.cpp:931-933 | asset `+=` succeeds exactly when the symbols agree and the sum is within ±(2^62−1); the result keeps the symbol and differs from the first operand by the second |
| Types.SubQ | src/SimpleAssets.cpp:911-913 | asset `-=` succeeds exactly when the symbols agree and the difference is in range; the result differs from the first operand by exactly the second |
| Fungible.GetFTIndex | src/SimpleAssets.cpp:808-819 | succeeds exactly when the author has a token of that symbol code, and then returns that token's id |
| Authors.RegAuthor | src/SimpleAssets.cpp:25-46 | succeeds exactly when the author signed, the data is longer than three bytes and the author is not yet registered; it then adds exactly that profile and changes nothing else |
| Authors.AuthorUpdate | src/SimpleAssets.cpp:49-66 | succeeds exactly when the author signed and is registered; two empty fields delete the profile, otherwise both fields are overwritten; nothing else changes |
| Authors.RegisterThenClear | src/SimpleAssets.cpp:25-66 | registering and then updating with two empty fields gives back the original state |
| Folds.EventsOfSound | src/SimpleAssets.cpp:231-240 | every event sent after a batch is the note of one of the grouped authors |
| Folds.EventsOfComplete | src/SimpleAssets.cpp:231-240 | every grouped author gets its note |
| Folds.EventsOfAuthors | src/SimpleAssets.cpp:344-349 | each event's author is one of the grouped authors |
| Folds.EventsOfOrdered | src/SimpleAssets.cpp:156-161 | the events go out in strictly ascending order of author name, one per author (the order of `std::map<name, …>`) |
| Contract.SimpleAssets.GetId | src/SimpleAssets.cpp:789-805 | advances the chosen counter by one, returns its new value and changes nothing else |
| Contract.SimpleAssets.Notify | src/SimpleAssets.cpp:938-944 | `sendEvent` appends the one event to the outbox and draws one deferred id; nothing else changes |
| Contract.SimpleAssets.SendEvents | src/SimpleAssets.cpp:231-240 | the loop over the author map appends exactly `EventsOf(groups)` to the outbox, each event drawing one deferred id |
| Contract.SimpleAssets.Create | src/SimpleAssets.cpp:70-108 | `create` commits `Nft.Create` or fails with its message and leaves every table unchanged |
| Contract.SimpleAssets.Update | src/SimpleAssets.cpp:245-259 | `update` commits `Nft.Update`, or fails with nothing written |
| Contract.SimpleAssets.Transfer | src/SimpleAssets.cpp:165-242 | the loop over `assetids` plus the event loop commits `Nft.Transfer`, or fails with nothing written |
| Contract.SimpleAssets.Offer | src/SimpleAssets.cpp:262-293 | `offer` commits `Nft.Offer`, or fails with nothing written |
| Contract.SimpleAssets.CancelOffer | src/SimpleAssets.cpp:296-311 | `canceloffer` commits `Nft.CancelOffer`, or fails with nothing written |
| Contract.SimpleAssets.Claim | src/SimpleAssets.cpp:116-162 | `claim` commits `Nft.Claim`, or fails with nothing written |
| Contract.SimpleAssets.Burn | src/SimpleAssets.cpp:314-350 | `burn` commits `Nft.Burn`, or fails with nothing written |
| Contract.SimpleAssets.Delegate | src/SimpleAssets.cpp:353-391 | `delegate` records the loans and then performs the inline transfer; the whole commits `Nft.Delegate`, or fails with nothing written |
| Contract.SimpleAssets.Undelegate | src/SimpleAssets.cpp:394-423 | the checks, the memo loop and the inline transfer back commit `Nft.Undelegate`, or fail with nothing written |
| Contract.SimpleAssets.Attach | src/SimpleAssets.cpp:426-461 | `attach` commits `Nft.Attach`, or fails with nothing written |
| Contract.SimpleAssets.Detach | src/SimpleAssets.cpp:464-502 | the nested loops of `detach` commit `Nft.Detach`, or fail with nothing written |
| Contract.SimpleAssets.RegAuthor | src/SimpleAssets.cpp:25-46 | `regauthor` commits `Authors.RegAuthor`, or fails with nothing written |
| Contract.SimpleAssets.AuthorUpdate | src/SimpleAssets.cpp:49-66 | `authorupdate` commits `Authors.AuthorUpdate`, or fails with nothing written |
| Contract.SimpleAssets.SubBalance | src/SimpleAssets.cpp:900-914 | `sub_balancef` commits `Fungible.SubBalance`, or fails with nothing written |
| Contract.SimpleAssets.AddBalance | src/SimpleAssets.cpp:917-935 | `add_balancef` commits `Fungible.AddBalance`, or fails with nothing written |
| Contract.SimpleAssets.CreateF | src/SimpleAssets.cpp:518-541 | `createf` commits `Fungible.CreateF`, or fails with nothing written |
| Contract.SimpleAssets.UpdateF | src/SimpleAssets.cpp:544-556 | `updatef` commits `Fungible.UpdateF`, or fails with nothing written |
| Contract.SimpleAssets.IssueF | src/SimpleAssets.cpp:559-588 | `issuef` with its inline `transferf` commits `Fungible.IssueF`, or fails with nothing written |
| Contract.SimpleAssets.TransferF | src/SimpleAssets.cpp:591-620 | `transferf` commits `Fungible.TransferF`, or fails with nothing written |
| Contract.SimpleAssets.ScanOffers | src/SimpleAssets.cpp:647-652 | the loop over the open token offers returns true exactly when some offer matches |
| Contract.SimpleAssets.OfferF | src/SimpleAssets.cpp:623-663 | `offerf` commits `Fungible.OfferF`, or fails with nothing written |
| Contract.SimpleAssets.CancelOfferF | src/SimpleAssets.cpp:666-683 | `cancelofferf` commits `Fungible.CancelOfferF`, or fails with nothing written |
| Contract.SimpleAssets.ClaimF | src/SimpleAssets.cpp:685-705 | `claimf` commits `Fungible.ClaimF`, or fails with nothing written |
| Contract.SimpleAssets.BurnF | src/SimpleAssets.cpp:708-731 | `burnf` commits `Fungible.BurnF`, or fails with nothing written |
| Contract.SimpleAssets.OpenF | src/SimpleAssets.cpp:734-756 | `openf` commits `Fungible.OpenF`, or fails with nothing written |
| Contract.SimpleAssets.CloseF | src/SimpleAssets.cpp:759-777 | `closef` commits `Fungible.CloseF`, or fails with nothing written |
| Contract.SimpleAssets.MergeContainerF | src/SimpleAssets.cpp:857-875 | the loop over `containerf` computes the entries kept, and whether the token was found, as the fold of `MergeEntry` does, or fails on an overdrawn entry |
| Contract.SimpleAssets.AttachDetach | src/SimpleAssets.cpp:821-898 | `attachdeatch` commits `Fungible.AttachDetach`, or fails with nothing written |
| Contract.SimpleAssets.AttachF | src/SimpleAssets.cpp:505-507 | `attachf` is `attachdeatch` with `attach` set |
| Contract.SimpleAssets.DetachF | src/SimpleAssets.cpp:510-512 | `detachf` is `attachdeatch` with `attach` cleared |
| Ledger.CreateKeepsValid | src/SimpleAssets.cpp:70-108 | `create` preserves the ledger invariant; the new id is above every id held, so it is held once |
| Ledger.UpdateKeepsValid | src/SimpleAssets.cpp:245-259 | `update` preserves the ledger invariant |
| Ledger.TransferKeepsValid | src/SimpleAssets.cpp:165-242 | `transfer` preserves the ledger invariant |
| Ledger.OfferKeepsValid | src/SimpleAssets.cpp:262-293 | `offer` preserves the ledger invariant |
| Ledger.CancelOfferKeepsValid | src/SimpleAssets.cpp:296-311 | `canceloffer` preserves the ledger invariant |
| Ledger.ClaimKeepsValid | src/SimpleAssets.cpp:116-162 | `claim` preserves the ledger invariant |
| Ledger.BurnKeepsValid | src/SimpleAssets.cpp:314-350 | `burn` preserves the ledger invariant |
| Ledger.DelegateKeepsValid | src/SimpleAssets.cpp:353-391 | `delegate` preserves the ledger invariant, so a lent asset is never also offered |
| Ledger.UndelegateKeepsValid | src/SimpleAssets.cpp:394-423 | `undelegate` preserves the ledger invariant |
| Ledger.AttachKeepsValid | src/SimpleAssets.cpp:426-461 | `attach` preserves the ledger invariant: nested ids stay issued, and a record moved into a container takes its ids with it, so each id is still held once |
| Ledger.DetachKeepsValid | src/SimpleAssets.cpp:464-502 | the corrected `detach` preserves the ledger invariant: an unpacked record lands in its new owner's scope naming that owner, and its ids leave the container, so each id is still held once |
| Ledger.RegAuthorKeepsValid | src/SimpleAssets.cpp:25-46 | `regauthor` preserves the ledger invariant |
| Ledger.AuthorUpdateKeepsValid | src/SimpleAssets.cpp:49-66 | `authorupdate` preserves the ledger invariant |
| Ledger.SubBalanceKeepsValid | src/SimpleAssets.cpp:900-914 | a debit never drives a balance below zero |
| Ledger.AddBalanceKeepsValid | src/SimpleAssets.cpp:917-935 | a credit of a non-negative amount keeps every balance in range |
| Ledger.CreateFKeepsValid | src/SimpleAssets.cpp:518-541 | `createf` preserves the ledger invariant |
| Ledger.UpdateFKeepsValid | src/SimpleAssets.cpp:544-556 | `updatef` preserves the ledger invariant |
| Ledger.TransferFKeepsValid | src/SimpleAssets.cpp:591-620 | `transferf` preserves the ledger invariant |
| Ledger.IssueFKeepsValid | src/SimpleAssets.cpp:559-588 | `issuef` never lets the supply exceed the maximum supply |
| Ledger.BurnFKeepsValid | src/SimpleAssets.cpp:708-731 | `burnf` preserves the ledger invariant |
| Ledger.OfferFKeepsValid | src/SimpleAssets.cpp:623-663 | `offerf` preserves the ledger invariant; the escrowed amount is positive |
| Ledger.CancelOfferFKeepsValid | src/SimpleAssets.cpp:666-683 | `cancelofferf` preserves the ledger invariant |
| Ledger.ClaimFKeepsValid | src/SimpleAssets.cpp:685-705 | `claimf` preserves the ledger invariant |
| Ledger.OpenFKeepsValid | src/SimpleAssets.cpp:734-756 | `openf` preserves the ledger invariant |
| Ledger.CloseFKeepsValid | src/SimpleAssets.cpp:759-777 | `closef` preserves the ledger invariant |
| Ledger.AttachDetachKeepsValid | src/SimpleAssets.cpp:821-898 | `attachf` and `detachf` preserve the ledger invariant |
| NftFacts.TransferMoves | src/SimpleAssets.cpp:165-229 | a successful `transfer` needs distinct ids, each held and owned by `from`, not offered and passing the loan rule; it moves exactly those records to `to`'s scope with only their owner rewritten; it drops exactly the loans returned to their lender and touches no other table |
| NftFacts.TransferNotifies | src/SimpleAssets.cpp:231-240 | `transfer` appends one notification per distinct author of the moved records, in ascending author order, and keeps the earlier outbox |
| NftFacts.CancelOfferErases | src/SimpleAssets.cpp:296-311 | `canceloffer` succeeds exactly when the owner signed and every id is distinct and offered by that owner; it then erases exactly those offers |
| NftFacts.OfferThenCancel | src/SimpleAssets.cpp:262-311 | offering ids and then cancelling the same ids gives back the original state |
| NftFacts.CreateMints | src/SimpleAssets.cpp:70-108 | `create` refuses a claim-required asset to its own author; a success adds one record under id `lnftid+1` with the owner or author as holder, an offer when a claim is required, and one event, and changes nothing else |
| NftFacts.CreateSucceeds | src/SimpleAssets.cpp:70-108 | on a valid ledger `create` succeeds exactly when the author signed, the owner is an account and a claim is not required of the author itself; the new id is always free |
| NftFacts.ClaimStepMoves | src/SimpleAssets.cpp:116-153 | one claim succeeds exactly when the id is offered to the claimer by an owner who still holds it and the claimer's scope lacks it; it moves the record with only its owner rewritten and erases the offer |
| NftFacts.CreateThenClaim | src/SimpleAssets.cpp:70-162 | on a valid ledger, creating with `requireclaim` and then claiming leaves the asset and offer tables as a direct create would |
| NftFacts.UndelegateMemoFits | src/SimpleAssets.cpp:417-421 | the memo `undelegate` builds for one 64-bit id fits the 256-byte memo limit of `transfer` |
| NftFacts.TransferSingle | src/SimpleAssets.cpp:165-242 | a one-id `transfer` succeeds exactly when the parties differ, the recipient exists, the memo fits and the single step succeeds |
| NftFacts.DelegateSingle | src/SimpleAssets.cpp:353-391 | a one-id `delegate` needs the lender to hold and own the asset with no offer and no loan; it records the loan and moves the record to the borrower |
| NftFacts.UndelegateSingle | src/SimpleAssets.cpp:394-423 | before the period ends `undelegate` fails with the period message; after it, the record returns to the lender and the loan is erased |
| NftFacts.UndelegateEarly | src/SimpleAssets.cpp:416 | while `cdate + period < now` does not hold, recalling a lent asset fails with the period message |
| NftFacts.UndelegateIsTransfer | src/SimpleAssets.cpp:404-422 | once every check passes, `undelegate` of one id is exactly the inline `transfer` from the borrower back to the lender, signed by the lender, with memo `undelegate assetid: ` and the id |
| NftFacts.ReturnTransfer | src/SimpleAssets.cpp:186-229 | after the period, the lender's signature alone moves the record back from the borrower and erases the loan; no other loan or offer changes |
| NftFacts.DelegateThenUndelegate | src/SimpleAssets.cpp:353-423 | delegating one asset and then undelegating it after the period restores the asset, offer and loan tables; undelegating earlier fails |
| NftFacts.AttachSingle | src/SimpleAssets.cpp:426-461 | a one-id `attach` appends the record to the container and erases it from the scope |
| NftFacts.AttachThenDetach | src/SimpleAssets.cpp:426-502 | on a valid ledger, attaching an id and detaching it gives back the original state |
| NftFacts.DetachMissing | src/SimpleAssets.cpp:475-501 | detaching an id the container does not hold leaves the state unchanged |
| NftFacts.UpdateRewrites | src/SimpleAssets.cpp:245-259 | `update` succeeds exactly when the author signed and the record exists with that author; it rewrites only that record's `mdata` |
| NftFacts.BurnStepRemoves | src/SimpleAssets.cpp:324-341 | one burn succeeds exactly when the record is held, owned by the burner, not offered and not delegated; it erases exactly that record and groups the id under its author |
| TokenFacts.CreateFRegisters | src/SimpleAssets.cpp:518-541 | `createf` succeeds exactly when the author signed, the maximum supply is valid and positive and the symbol is new for that author; it adds one definition with id `lnftid+1` and zero supply |
| TokenFacts.UpdateFRewrites | src/SimpleAssets.cpp:544-556 | `updatef` succeeds exactly when the author signed, the symbol is valid and the token exists; it rewrites only that token's `data` |
| TokenFacts.SubBalanceDebits | src/SimpleAssets.cpp:900-914 | a debit succeeds exactly when the row exists with the same symbol and holds at least the amount; it lowers only that balance by the amount |
| TokenFacts.AddBalanceCredits | src/SimpleAssets.cpp:917-935 | a credit succeeds exactly when the token exists and an existing row has the same symbol and stays in range; it raises only that balance, opening the row if needed |
| TokenFacts.TransferFMoves | src/SimpleAssets.cpp:591-620 | `transferf` moves a positive amount from `from` to `to`, keeps their sum, and touches no other balance or table |
| TokenFacts.IssueFMints | src/SimpleAssets.cpp:559-588 | `issuef` needs the issuer's signature and room under the maximum supply; it raises the supply and the recipient's balance by the amount and leaves the issuer's balance as it was |
| TokenFacts.BurnFRetires | src/SimpleAssets.cpp:708-731 | `burnf` lowers the supply and the holder's balance by the same positive amount, never below zero |
| TokenFacts.OfferFDuplicate | src/SimpleAssets.cpp:623-652 | with the corrected scan, `offerf` fails as a duplicate exactly when every earlier check passes and the owner already has an offer with the same author, recipient and symbol; other owners' offers never make it fail |
| TokenFacts.OfferFEscrows | src/SimpleAssets.cpp:623-663 | `offerf` fails on an offer the owner already made with the same author, recipient and symbol; a success records the offer under the next deferred id and debits exactly the owner's balance |
| TokenFacts.CancelOfferFStepCredits | src/SimpleAssets.cpp:666-683 | cancelling one token offer erases it and credits its amount back to its owner only |
| TokenFacts.ClaimFStepCredits | src/SimpleAssets.cpp:685-705 | claiming one token offer erases it and credits its amount to the claimer only |
| TokenFacts.SubThenAdd | src/SimpleAssets.cpp:900-935 | crediting back what was debited from an in-range balance restores the state |
| TokenFacts.OfferFThenCancelOfferF | src/SimpleAssets.cpp:623-683 | on a valid ledger, an offer and its cancellation restore the state apart from the spent deferred id |
| TokenFacts.OfferFThenClaimF | src/SimpleAssets.cpp:623-705 | claiming a fresh token offer succeeds exactly when the recipient's row is absent or compatible and stays in range; the owner ends with the amount less, the recipient with it more, and the offer table is back to what it was |
| TokenFacts.MergeKeepsPositive | src/SimpleAssets.cpp:873-874 | `attachdeatch` keeps only positive entries in `containerf` |
| TokenFacts.AttachFold | src/SimpleAssets.cpp:861-875 | with attach set, the loop raises every entry of the token by the amount and reports whether one was found |
| TokenFacts.DetachFold | src/SimpleAssets.cpp:861-887 | with attach cleared, the loop succeeds exactly when every entry of the token holds at least the amount; it then lowers the held amount by the amount per entry |
| TokenFacts.AttachFMoves | src/SimpleAssets.cpp:821-898 | `attachf` debits the owner by a positive amount and adds it to the container's entry, keeping every entry positive; nothing else changes |
| TokenFacts.DetachFMoves | src/SimpleAssets.cpp:821-898 | `detachf` needs the token to be attached; it takes the amount from each entry of the token, credits the owner by it, and keeps every entry positive |
| TokenFacts.AttachFThenDetachF | src/SimpleAssets.cpp:505-512 | on valid balances, attaching an amount and detaching it gives back the original state |
| TokenFacts.OpenFOpens | src/SimpleAssets.cpp:734-756 | `openf` succeeds exactly when the payer signed and the token exists with that symbol; it opens a zero row if missing, touches an existing one not at all, and changes no balance |
| TokenFacts.OpenFIdempotent | src/SimpleAssets.cpp:734-756 | opening twice is the same as opening once |
| TokenFacts.CloseFCloses | src/SimpleAssets.cpp:759-777 | `closef` succeeds exactly when the owner signed, the row exists with zero balance and the owner has no open offer of the token; it removes only that row |
| TokenFacts.CloseFOpenOffers | src/SimpleAssets.cpp:759-775 | with the corrected scan, `closef` is refused for open offers exactly when every earlier check passes and the owner has an offer of that token; other owners' offers never block it |
| TokenFacts.OpenFThenCloseF | src/SimpleAssets.cpp:734-777 | opening a row that was missing and then closing it gives back the original state |
| Findings.ScanFalseClash | src/SimpleAssets.cpp:647-652 | concrete ledger on which the scan as written refuses an offer that no offer of the same owner duplicates |
| Findings.ScanCoversCorrected | src/SimpleAssets.cpp:770-774 | the scan as written refuses everything the corrected check refuses, for `offerf` and for `closef` |
| Findings.DetachStaleOwner | src/SimpleAssets.cpp:482-491 | on a valid ledger, `detach` as written places the record in the new owner's scope still naming its previous owner, breaking the invariant, and the holder can no longer transfer it |
| Findings.DetachCorrected | src/SimpleAssets.cpp:482-491 | on the same input the corrected `detach` names the new owner, keeps the ledger valid, and lets the holder transfer it |
| Findings.EarlyRecall | src/SimpleAssets.cpp:190-203 | concrete loan at time 200 with a period to 1100 that the rule as written lets the lender take back, though `undelegate` refuses it |
| Findings.RecallRulesAgree | src/SimpleAssets.cpp:190-203 | the rule as written and the corrected rule differ exactly on a lender's recall before the period ends without the borrower's signature |
| Findings.RecallHonoursPeriod | src/SimpleAssets.cpp:190-203 | under the corrected rule a loan goes back before its period ends only on the borrower's own signature |
| Findings.PeriodWraps | src/SimpleAssets.cpp:416 | concrete loan whose 64-bit period end wraps, so the test as written counts it as over one second after it was made |
| Findings.ExpiredAgrees | src/SimpleAssets.cpp:416 | the test as written and the exact test agree whenever the period end fits in 64 bits |

## Left out

- `require_recipient`, RAM payers and the table `scope` arguments: no state effect in the model.
- The `createlog` and `updatever` actions, the `Configs` table, and everything outside the listed lines of `src/SimpleAssets.cpp`. The header that declares the tables is not part of this model.
- `sendEvent`: the deferred transaction is reduced to one `Event` appended to the outbox under a fresh deferred id. Its packing, its delay and its delivery are left out.
- Bytes of names and strings: account names are their 64-bit values, and strings are sequences of one character per byte. `symbol` parsing and the encoding of memos are reduced to lengths and symbol codes.
- Integer widths: ids, times and periods are unbounded naturals. Only the 64-bit period end (see Findings) and the `asset` range `±(2^62−1)` are modelled. A counter overflow at 2^64 ids is not modelled. `attachf` and `detachf` raise and lower the `containerf` entries with the raw 64-bit `+=` and `-=` (src/SimpleAssets.cpp:865 and 868), not the range-checked `asset` operators. `Fungible.MergeEntry` adds and subtracts over unbounded integers, so it does not model the wrap of an entry that passes 2^63 − 1.
- Total token conservation across the whole ledger is not proved. Each transfer, issue, burn, offer, claim and attach is proved to move exactly its amount between the rows it names.
- Ledger.BurnFKeepsValid: does not prove that a supply stays at or above zero. `burnf` lowers the supply without comparing it with the amount (src/SimpleAssets.cpp:724-726), so that bound needs the conservation left out above. `Ledger.TokensValid` states only `supply <= maxSupply`.
- Reading erased rows: `transfer` reads the loan through `itrd` after erasing it (src/SimpleAssets.cpp:195 and 202), and reads the record through `itr` after erasing it (src/SimpleAssets.cpp:211-222). `claim` reads `itr->author` and `itrc->owner` after erasing both rows (src/SimpleAssets.cpp:148-152), and `burn` reads `itr->author` after its erase (src/SimpleAssets.cpp:337-340). `Nft.ClaimStep` and `Nft.BurnStep` read those values before the erase, as `transfer` is read. The model reads all of them as they were before the erase. The third finding rests on that reading.
- Contract.SimpleAssets.Transfer: implements the corrected loan rule of the third finding. On a loan from 1 to 2 made at time 100 for 1000 seconds, `transfer(2, 1, [1])` signed by 1 alone at time 200 fails with the period message here, while the code moves the asset.
- NftFacts.TransferMoves: its success condition contains the corrected loan rule, so on the input above it states a failure where the code succeeds.
- NftFacts.TransferSingle: its iff is stated with the corrected loan rule, so it differs from the code on the input above.
- Contract.SimpleAssets.Detach: implements the corrected owner of the second finding. On `Findings.PackedState`, detaching asset 2 stores owner 2 here, while the code stores owner 1.
- Contract.SimpleAssets.ScanOffers: tests the owner of every offer, the corrected scan of the first finding. The code walks the owner index from `find(owner)` to its end without testing the owner.
- Contract.SimpleAssets.OfferF: uses the corrected scan. On the ledger of `Findings.ScanFalseClash`, owner 5's new offer of token T to 9 passes the duplicate check here, while the code refuses it as a duplicate.
- Contract.SimpleAssets.CloseF: uses the corrected scan. With owner 5 holding an offer of another token and owner 6 an offer of this token, closing owner 5's zero row of this token passes the open-offer check here, while the code refuses it.
- TokenFacts.CloseFCloses: its iff is stated with the corrected scan, so it differs from the code on the input above.
- TokenFacts.OpenFThenCloseF: is stated with the corrected scan. It does not hold of the code when the owner has an offer of another token and a higher owner has an offer of this one.
- TokenFacts.AttachFMoves: states the rise in the held amount only when the container has at most one entry of the token. With several entries, each one is raised, as the source does.
- TokenFacts.AttachFThenDetachF: requires the container's entries to be positive and the balances to be in range. Both hold on any ledger that the actions produce.
- Contract.SimpleAssets.Undelegate: tests the end of the loan with the unbounded `Nft.Expired`, the corrected rule of the fourth finding. On the loan of `Findings.PeriodWraps` (made at time 100 for 2^64 − 50 seconds), `undelegate` at time 101 fails with the period message here, while the code's wrapped sum lets it through.
- NftFacts.UndelegateEarly: states the refusal with the unbounded sum, so on the loan of `Findings.PeriodWraps` at time 101 it states a failure where the code succeeds. `Findings.ExpiredAgrees` shows the two tests agree whenever the period end fits in 64 bits.
- NftFacts.DelegateThenUndelegate: states that undelegating before the unbounded end fails, so on a period of 2^64 − 50 seconds, one second after the loan, it states a failure where the code succeeds.
- NftFacts.DelegateThenUndelegate: is proved for a batch of one asset. Batches of several ids have no round-trip lemma.
- NftFacts.DelegateThenUndelegate and NftFacts.UndelegateMemoFits: require the id to fit in 64 bits, because the memo of `undelegate` must fit the 256-byte limit.

## Findings

| source | as written | input that shows it | evidently intended | confidence | as-written member | corrected member |
|---|---|---|---|---|---|---|
| src/SimpleAssets.cpp:647-652 and 770-774 | the duplicate-offer scan starts at `find(owner)` on the owner index and runs to the end of the index, so it also compares the offers of every higher owner | owner 5 has an offer of token T of author 7 to 8, and owner 6 has one to 9; owner 5's new offer to 9 is refused as a duplicate | refuse only an offer of the same owner with the same author, recipient and symbol (and, in `closef`, only the owner's own offers) | not executed | Findings.ScanFalseClash | TokenFacts.OfferFDuplicate |
| src/SimpleAssets.cpp:482-491 | an unpacked record keeps the owner it had when it was packed | 1 packs its asset 2 into asset 1 and transfers asset 1 to 2; 2 detaches asset 2, which lands in 2's scope naming owner 1, and 2 cannot transfer it | the unpacked record names the owner whose scope receives it | not executed | Findings.DetachStaleOwner | Findings.DetachCorrected |
| src/SimpleAssets.cpp:190-203 | a loan goes back to its lender on the lender's signature alone, at any time (reading the loan's lender at line 202, after its erase at line 195, as it was before) | asset 1 lent by 1 to 2 at time 100 for 1000 seconds; at time 200 the lender moves it back, though `undelegate` refuses until time 1101 | before the period ends, only the borrower may return the asset | not executed | Findings.EarlyRecall | Findings.RecallHonoursPeriod |
| src/SimpleAssets.cpp:416 | `cdate + period` is summed in 64-bit unsigned arithmetic (`period` is `uint64_t`, line 353) and wraps | a loan at time 100 for 2^64 − 50 seconds counts as over at time 101 | a loan ends at its exact end, which is never earlier than its start | not executed | Findings.PeriodWraps | NftFacts.UndelegateSingle |
