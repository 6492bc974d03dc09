/**
 * The records, tables and host inputs of the SimpleAssets ledger.
 *
 * EOSIO account names are 64-bit values; a `Name` is that value, so the
 * ordering of names (as used by `std::map<name, ...>`) is numeric order.
 * Strings stand for byte strings: one `char` per byte.
 */
module Types {

  type Name = nat
  type Id = nat

  /** The outcome of a step that may abort the whole action with a message. */
  datatype Result<+T> = Ok(value: T) | Err(msg: string) {
    predicate IsFailure() { Err? }
    function PropagateFailure<U>(): Result<U> requires Err? { Err(msg) }
    function Extract(): T requires Ok? { value }
  }

  /** The outcome of a `check(cond, msg)` or of an action as a whole. */
  datatype Check = Pass | Fail(msg: string) {
    predicate IsFailure() { Fail? }
    function PropagateFailure<U>(): Result<U> requires Fail? { Err(msg) }
  }

  function Require(cond: bool, msg: string): (c: Check)
    ensures c.Pass? <==> cond
  {
    if cond then Pass else Fail(msg)
  }

  // Host messages (require_auth, multi_index emplace and get).
  const MissingAuthority := "missing authority"
  const DuplicateKey := "could not insert object, most likely a uniqueness constraint was violated"
  const KeyNotFound := "unable to find key"

  // Messages of the contract's own checks, word for word.
  const AssetNotFound := "Asset cannot be found."
  const AssetDelegated := "Asset is delegated."
  const AssetOffered := "Assets has an open offer and cannot be delegated."
  const BurnDelegated := "At least one of assets is delegated and cannot be burned."
  const FtNotOfferedToYou := "At least one of the FTs has not been offerred to you."
  const TransferNotFound := "At least one of the assets cannot be found (check ids?)"
  const SomeAssetNotFound := "At least one of the assets cannot be found."
  const TransferDelegated := "At least one of the assets cannot be transferred because it is delegated"
  const BurnOffered := "At least one of the assets has an open offer and cannot be burned."
  const SomeAssetOffered := "At least one of the assets has an open offer and cannot be delegated."
  const TransferOffered := "At least one of the assets has been offered for a claim and cannot be transferred. Cancel offer?"
  const NotOfferedToYou := "At least one of the assets has not been offerred to you."
  const AlreadyDelegated := "At least one of the assets is already delegated."
  const AlreadyOffered := "At least one of the assets is already offered for claim."
  const OfferDelegated := "At least one of the assets is delegated and cannot be offered."
  const SomeAssetDelegated := "At least one of the assets is delegated."
  const NotDelegated := "At least one of the assets is not delegated."
  const TransferNotYours := "At least one of the assets is not yours to transfer."
  const SomeAssetMissing := "At least one of the assets was not found."
  const BurnNotYours := "At least one of the assets you're attempting to burn is not yours."
  const NoBalanceRow := "Balance row already deleted or never existed. Action won't have any effect."
  const ClaimBySelf := "Can't requireclaim if author == owner."
  const AttachToSelf := "Cannot attcach to self."
  const BalanceNotZero := "Cannot close because the balance is not zero."
  const FtClaimNotFound := "Cannot find at least one of the FT you're attempting to claim."
  const ClaimNotFound := "Cannot find at least one of the assets you're attempting to claim."
  const PeriodNotOver := "Cannot undelegate until the PERIOD expires."
  const DataTooShort := "Data field is too short. Please tell us about yourselves."
  const DifferentAuthor := "Different authors"
  const DifferentAuthors := "Different authors."
  const NotDelegatedTo := "FROM does not match DELEGATEDTO for at least one of the assets."
  const OnlyAuthorUpdates := "Only author can update asset."
  const OwnerChanged := "Owner was changed for at least one of the items!?"
  const AlreadyRegistered := "Registration Error. You're probably already registered. Try the authupdate action."
  const OfferExists := "Such an offer already exists"
  const SymbolMissing := "Symbol not exists"
  const TransferRecipientMissing := "TO account does not exist"
  const FtOfferNotFound := "The offer for at least one of the FT was not found."
  const OfferNotFound := "The offer for at least one of the assets was not found."
  const WrongSymbol := "Wrong symbol"
  const NotLender := "You are not the owner of at least one of these assets."
  const OpenFtOffers := "You have open offers for this FT.."
  const NotOfferOwner := "You're not the owner of at least one of the assets whose offers you're attempting to cancel."
  const NotFtOfferOwner := "You're not the owner of at least one of those FTs."
  const AddOverflow := "addition overflow"
  const AddUnderflow := "addition underflow"
  const UpdateAssetMissing := "asset not found"
  const ContainerNotFound := "assetid cannot be found."
  const AddSymbolMismatch := "attempt to add asset with different symbol"
  const SubSymbolMismatch := "attempt to subtract asset with different symbol"
  const AuthorNotRegistered := "author not registered"
  const DelegateToSelf := "cannot delegate to yourself"
  const OfferToSelf := "cannot offer to yourself"
  const FtTransferToSelf := "cannot transfer to self"
  const TransferToSelf := "cannot transfer to yourself"
  const InvalidQuantity := "invalid quantity"
  const InvalidSupply := "invalid supply"
  const InvalidSymbol := "invalid symbol name"
  const MaxSupplyNotPositive := "max-supply must be positive"
  const MemoTooLong := "memo has more than 256 bytes"
  const IssueNotPositive := "must issue positive quantity"
  const RetireNotPositive := "must retire positive quantity"
  const TransferNotPositive := "must transfer positive quantity"
  const NewOwnerMissing := "newowner account does not exist"
  const NoBalanceObject := "no balance object found"
  const NotAttached := "not attached"
  const Overdrawn := "overdrawn balance"
  const OwnerAccountMissing := "owner account does not exist"
  const ExceedsSupply := "quantity exceeds available supply"
  const SubOverflow := "subtraction overflow"
  const SubUnderflow := "subtraction underflow"
  const OpenSymbolMissing := "symbol does not exist"
  const PrecisionMismatch := "symbol precision mismatch"
  const RecipientMissing := "to account does not exist"
  const TokenExists := "token with symbol already exists"
  const TokenMissing := "token with symbol does not exist"
  const IssueTokenMissing := "token with symbol does not exist, create token before issue"
  const FtIndexMissing := "token with symbol does not exist."

  /** Largest memo, in bytes, that the actions accept. */
  const MemoLimit := 256

  // ---------------------------------------------------------------- symbols and quantities

  /** A token symbol: its code (upper-case letters) and its precision. */
  datatype Symbol = Symbol(code: string, precision: nat)

  /** `symbol::is_valid`: one to seven upper-case letters. */
  predicate SymbolValid(sym: Symbol) {
    && 1 <= |sym.code| <= 7
    && forall i :: 0 <= i < |sym.code| ==> 'A' <= sym.code[i] <= 'Z'
  }

  /** `asset::max_amount`, that is (1 << 62) - 1. */
  const MaxAmount: int := 0x3FFF_FFFF_FFFF_FFFF

  /** An EOSIO `asset`: an amount in units of a symbol. */
  datatype Quantity = Quantity(amount: int, sym: Symbol)

  /** `asset::is_valid`: the amount is within range and the symbol is valid. */
  predicate QuantityValid(q: Quantity) {
    -MaxAmount <= q.amount <= MaxAmount && SymbolValid(q.sym)
  }

  /** The `asset` operator `+=`, with its symbol and range checks. */
  function AddQ(a: Quantity, b: Quantity): (r: Result<Quantity>)
    ensures r.Ok? <==> a.sym == b.sym && -MaxAmount <= a.amount + b.amount <= MaxAmount
    ensures r.Ok? ==> r.value.sym == a.sym && r.value.amount - a.amount == b.amount
  {
    var sum := a.amount + b.amount;
    :- Require(a.sym == b.sym, AddSymbolMismatch);
    :- Require(-MaxAmount <= sum, AddUnderflow);
    :- Require(sum <= MaxAmount, AddOverflow);
    Ok(Quantity(sum, a.sym))
  }

  /** The `asset` operator `-=`, with its symbol and range checks. */
  function SubQ(a: Quantity, b: Quantity): (r: Result<Quantity>)
    ensures r.Ok? <==> a.sym == b.sym && -MaxAmount <= a.amount - b.amount <= MaxAmount
    ensures r.Ok? ==> r.value.sym == a.sym && a.amount - r.value.amount == b.amount
  {
    var diff := a.amount - b.amount;
    :- Require(a.sym == b.sym, SubSymbolMismatch);
    :- Require(-MaxAmount <= diff, SubUnderflow);
    :- Require(diff <= MaxAmount, SubOverflow);
    Ok(Quantity(diff, a.sym))
  }

  // ---------------------------------------------------------------- records

  /** A fungible balance row (table `accounts`), also the entry type of `containerf`. */
  datatype Account = Account(id: Id, author: Name, balance: Quantity)

  /**
   * A non-fungible asset (table `sassets`). `container` holds whole embedded
   * records, `containerf` the fungible amounts attached to it.
   */
  datatype Asset = Asset(
    id: Id,
    owner: Name,
    author: Name,
    category: Name,
    idata: string,
    mdata: string,
    container: seq<Asset>,
    containerf: seq<Account>)

  /** A pending claim of an asset (table `offers`, keyed by asset id). */
  datatype AssetOffer = AssetOffer(owner: Name, offeredto: Name, cdate: nat)

  /** A time-boxed loan of an asset (table `delegates`, keyed by asset id). */
  datatype Delegation = Delegation(owner: Name, delegatedto: Name, cdate: nat, period: nat)

  /** A token definition (table `stats`, scoped by author, keyed by symbol code). */
  datatype Currency = Currency(
    supply: Quantity,
    maxSupply: Quantity,
    issuer: Name,
    id: Id,
    authorctrl: bool,
    data: string)

  /** An escrowed fungible offer (table `offerfs`, keyed by its id). */
  datatype TokenOffer = TokenOffer(author: Name, quantity: Quantity, owner: Name, offeredto: Name, cdate: nat)

  /** A registered author's profile (table `authors`). */
  datatype Profile = Profile(data: string, stemplate: string)

  /** A notification handed to the deferred-transaction outbox, one per distinct author. */
  datatype Event =
    | Created(author: Name, owner: Name, assetid: Id)
    | Claimed(author: Name, claimer: Name, previous: map<Id, Name>)
    | Transferred(author: Name, from: Name, to: Name, assetids: seq<Id>, memo: string)
    | Burned(author: Name, owner: Name, assetids: seq<Id>, memo: string)

  /**
   * The whole persistent state: every table, the two counters of `getid`,
   * and the outbox of scheduled notifications.
   * `sassets` and `accounts` are scoped tables, keyed by (scope, primary key);
   * `stats` is keyed by (author, symbol code).
   */
  datatype State = State(
    sassets: map<(Name, Id), Asset>,
    offers: map<Id, AssetOffer>,
    delegates: map<Id, Delegation>,
    authors: map<Name, Profile>,
    stats: map<(Name, string), Currency>,
    accounts: map<(Name, Id), Account>,
    offerfs: map<Id, TokenOffer>,
    lnftid: nat,
    defid: nat,
    outbox: seq<Event>)

  /**
   * What the host tells an action: the names whose authority the
   * transaction carries (`has_auth`), the names that are accounts
   * (`is_account`) and the current time in seconds (`now()`).
   */
  datatype Env = Env(auth: set<Name>, accounts: set<Name>, now: nat)

  /** `require_auth(who)`. */
  function Authorize(env: Env, who: Name): (c: Check)
    ensures c.Pass? <==> who in env.auth
  {
    Require(who in env.auth, MissingAuthority)
  }

  /** The same state after an action has scheduled `events`, each drawing one deferred id. */
  function Emit(s: State, events: seq<Event>): (s': State)
    ensures s'.defid == s.defid + |events| && s'.outbox == s.outbox + events
    ensures s' == s.(defid := s'.defid, outbox := s'.outbox)
  {
    s.(defid := s.defid + |events|, outbox := s.outbox + events)
  }

  /** Emitting two runs of events one after the other is emitting them together. */
  lemma EmitTwice(s: State, xs: seq<Event>, ys: seq<Event>)
    ensures Emit(Emit(s, xs), ys) == Emit(s, xs + ys)
  {
    assert s.outbox + xs + ys == s.outbox + (xs + ys);
  }
}
