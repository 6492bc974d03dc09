/**
 * The fungible-token actions of SimpleAssets as functions on `State`:
 * token definitions (`stats`), balances (`accounts`), escrowed offers
 * (`offerfs`) and amounts attached to an asset (`containerf`).
 */
module Fungible {
  import opened Types
  import opened Folds

  /** The balance an owner holds of token `ftid`; a missing row holds nothing. */
  function BalanceOf(s: State, owner: Name, ftid: Id): int {
    if (owner, ftid) in s.accounts then s.accounts[(owner, ftid)].balance.amount else 0
  }

  /** `getFTIndex`: the id of the token `sym` of `author`. */
  function GetFTIndex(s: State, author: Name, sym: Symbol): (r: Result<Id>)
    ensures r.Ok? <==> (author, sym.code) in s.stats
    ensures r.Ok? ==> r.value == s.stats[(author, sym.code)].id
  {
    var key := (author, sym.code);
    :- Require(key in s.stats, FtIndexMissing);
    Ok(s.stats[key].id)
  }

  /** `sub_balancef`: debit an existing balance row, never below zero; the row stays even at zero. */
  function SubBalance(s: State, owner: Name, author: Name, value: Quantity): (r: Result<State>)
  {
    var ftid :- GetFTIndex(s, author, value.sym);
    :- Require((owner, ftid) in s.accounts, NoBalanceObject);
    var row := s.accounts[(owner, ftid)];
    :- Require(row.balance.amount >= value.amount, Overdrawn);
    :- Require(value.sym.code == row.balance.sym.code, WrongSymbol);
    var balance :- SubQ(row.balance, value);
    Ok(s.(accounts := s.accounts[(owner, ftid) := row.(balance := balance)]))
  }

  /** `add_balancef`: credit a balance row, opening it if it is missing. */
  function AddBalance(s: State, owner: Name, author: Name, value: Quantity): (r: Result<State>)
  {
    var ftid :- GetFTIndex(s, author, value.sym);
    if (owner, ftid) !in s.accounts then
      Ok(s.(accounts := s.accounts[(owner, ftid) := Account(ftid, author, value)]))
    else
      var row := s.accounts[(owner, ftid)];
      var balance :- AddQ(row.balance, value);
      Ok(s.(accounts := s.accounts[(owner, ftid) := row.(balance := balance)]))
  }

  // ---------------------------------------------------------------- token definitions

  /** `createf`: define a token of `author` with a positive maximum supply. */
  function CreateF(s: State, env: Env, author: Name, maximumSupply: Quantity, authorctrl: bool, data: string): (r: Result<State>)
  {
    var sym := maximumSupply.sym;
    :- Authorize(env, author);
    :- Require(SymbolValid(sym), InvalidSymbol);
    :- Require(QuantityValid(maximumSupply), InvalidSupply);
    :- Require(maximumSupply.amount > 0, MaxSupplyNotPositive);
    :- Require((author, sym.code) !in s.stats, TokenExists);
    var id := s.lnftid + 1;
    var st := Currency(Quantity(0, sym), maximumSupply, author, id, authorctrl, data);
    Ok(s.(stats := s.stats[(author, sym.code) := st], lnftid := id))
  }

  /** `updatef`: replace the data of an existing token. */
  function UpdateF(s: State, env: Env, author: Name, sym: Symbol, data: string): (r: Result<State>)
  {
    var key := (author, sym.code);
    :- Authorize(env, author);
    :- Require(SymbolValid(sym), InvalidSymbol);
    :- Require(key in s.stats, SymbolMissing);
    Ok(s.(stats := s.stats[key := s.stats[key].(data := data)]))
  }

  // ---------------------------------------------------------------- issue / transfer / burn

  /** The name `transferf` and `burnf` require: the issuer under author control, otherwise the holder. */
  function Signer(st: Currency, env: Env, holder: Name): Name {
    if st.authorctrl && st.issuer in env.auth then st.issuer else holder
  }

  /** `transferf`: move an amount between two balances. */
  function TransferF(s: State, env: Env, from: Name, to: Name, author: Name, quantity: Quantity, memo: string): (r: Result<State>)
  {
    var key := (author, quantity.sym.code);
    :- Require(from != to, FtTransferToSelf);
    :- Require(to in env.accounts, RecipientMissing);
    :- Require(key in s.stats, KeyNotFound);
    var st := s.stats[key];
    :- Require(QuantityValid(quantity), InvalidQuantity);
    :- Require(quantity.amount > 0, TransferNotPositive);
    :- Require(quantity.sym == st.supply.sym, PrecisionMismatch);
    :- Require(|memo| <= MemoLimit, MemoTooLong);
    :- Authorize(env, Signer(st, env, from));
    var s1 :- SubBalance(s, from, author, quantity);
    AddBalance(s1, to, author, quantity)
  }

  /** `issuef`: raise the supply within the maximum, credit the issuer, then pass the amount on to `to`. */
  function IssueF(s: State, env: Env, to: Name, author: Name, quantity: Quantity, memo: string): (r: Result<State>)
  {
    var sym := quantity.sym;
    :- Require(SymbolValid(sym), InvalidSymbol);
    :- Require(|memo| <= MemoLimit, MemoTooLong);
    :- Require((author, sym.code) in s.stats, IssueTokenMissing);
    var st := s.stats[(author, sym.code)];
    :- Authorize(env, st.issuer);
    :- Require(QuantityValid(quantity), InvalidQuantity);
    :- Require(quantity.amount > 0, IssueNotPositive);
    :- Require(quantity.sym == st.supply.sym, PrecisionMismatch);
    :- Require(quantity.amount <= st.maxSupply.amount - st.supply.amount, ExceedsSupply);
    var supply :- AddQ(st.supply, quantity);
    var s1 := s.(stats := s.stats[(author, sym.code) := st.(supply := supply)]);
    var s2 :- AddBalance(s1, st.issuer, author, quantity);
    if to != st.issuer then TransferF(s2, env.(auth := {st.issuer}), st.issuer, to, author, quantity, memo)
    else Ok(s2)
  }

  /** `burnf`: lower the supply and the holder's balance by the same amount. */
  function BurnF(s: State, env: Env, from: Name, author: Name, quantity: Quantity, memo: string): (r: Result<State>)
  {
    var sym := quantity.sym;
    :- Require(SymbolValid(sym), InvalidSymbol);
    :- Require(|memo| <= MemoLimit, MemoTooLong);
    :- Require((author, sym.code) in s.stats, TokenMissing);
    var st := s.stats[(author, sym.code)];
    :- Authorize(env, Signer(st, env, from));
    :- Require(QuantityValid(quantity), InvalidQuantity);
    :- Require(quantity.amount > 0, RetireNotPositive);
    :- Require(quantity.sym == st.supply.sym, PrecisionMismatch);
    var supply :- SubQ(st.supply, quantity);
    var s1 := s.(stats := s.stats[(author, sym.code) := st.(supply := supply)]);
    SubBalance(s1, from, author, quantity)
  }

  // ---------------------------------------------------------------- escrowed offers

  /** Some open fungible offer satisfies `matches`. */
  predicate AnyTokenOffer(s: State, matches: TokenOffer -> bool) {
    exists id :: id in s.offerfs && matches(s.offerfs[id])
  }

  /** An offer by `owner` of `author`'s token `sym`, to anyone. */
  function SameToken(owner: Name, author: Name, sym: Symbol): TokenOffer -> bool {
    (o: TokenOffer) => o.owner == owner && o.author == author && o.quantity.sym == sym
  }

  /** An offer by `owner` of `author`'s token `sym` to `offeredto`. */
  function SameOffer(owner: Name, author: Name, offeredto: Name, sym: Symbol): TokenOffer -> bool {
    (o: TokenOffer) => o.owner == owner && o.author == author && o.offeredto == offeredto && o.quantity.sym == sym
  }

  /** `offerf`: escrow an amount for `newowner`, at most one offer per owner, author, recipient and symbol. */
  function OfferF(s: State, env: Env, owner: Name, newowner: Name, author: Name, quantity: Quantity, memo: string): (r: Result<State>)
  {
    var sym := quantity.sym;
    :- Authorize(env, owner);
    :- Require(newowner in env.accounts, NewOwnerMissing);
    :- Require(owner != newowner, OfferToSelf);
    :- Require(SymbolValid(sym), InvalidSymbol);
    :- Require(|memo| <= MemoLimit, MemoTooLong);
    :- Require((author, sym.code) in s.stats, TokenMissing);
    var st := s.stats[(author, sym.code)];
    :- Require(QuantityValid(quantity), InvalidQuantity);
    :- Require(quantity.amount > 0, RetireNotPositive);
    :- Require(quantity.sym == st.supply.sym, PrecisionMismatch);
    :- Require(!AnyTokenOffer(s, SameOffer(owner, author, newowner, sym)), OfferExists);
    var id := s.defid + 1;
    :- Require(id !in s.offerfs, DuplicateKey);
    var s1 := s.(offerfs := s.offerfs[id := TokenOffer(author, quantity, owner, newowner, env.now)], defid := id);
    SubBalance(s1, owner, author, quantity)
  }

  /** A successful `offerf` is the escrow record, then the debit of the owner. */
  lemma OfferFUnfold(s: State, env: Env, owner: Name, newowner: Name, author: Name, quantity: Quantity, memo: string)
    requires OfferF(s, env, owner, newowner, author, quantity, memo).Ok?
    ensures var id := s.defid + 1;
            var s1 := s.(offerfs := s.offerfs[id := TokenOffer(author, quantity, owner, newowner, env.now)], defid := id);
            && id !in s.offerfs && quantity.amount > 0 && QuantityValid(quantity)
            && (author, quantity.sym.code) in s.stats && quantity.sym == s.stats[(author, quantity.sym.code)].supply.sym
            && OfferF(s, env, owner, newowner, author, quantity, memo) == SubBalance(s1, owner, author, quantity)
  {
  }

  /** One id of `cancelofferf`: the escrow goes back to the owner. */
  function CancelOfferFStep(s: State, owner: Name, id: Id): Result<State>
  {
    if id !in s.offerfs then Err(FtOfferNotFound) else
    var o := s.offerfs[id];
    :- Require(owner == o.owner, NotFtOfferOwner);
    var s1 :- AddBalance(s, owner, o.author, o.quantity);
    Ok(s1.(offerfs := s1.offerfs - {id}))
  }

  function CancelOfferFStepFn(owner: Name): (State, Id) -> Result<State> {
    (s: State, id: Id) => CancelOfferFStep(s, owner, id)
  }

  /** `cancelofferf`: withdraw fungible offers. */
  function CancelOfferF(s: State, env: Env, owner: Name, ids: seq<Id>): (r: Result<State>)
  {
    var step := CancelOfferFStepFn(owner);
    :- Authorize(env, owner);
    Fold(s, ids, step)
  }

  /** One id of `claimf`: the escrow goes to the claimer. */
  function ClaimFStep(s: State, claimer: Name, id: Id): Result<State>
  {
    if id !in s.offerfs then Err(FtClaimNotFound) else
    var o := s.offerfs[id];
    :- Require(claimer == o.offeredto, FtNotOfferedToYou);
    var s1 :- AddBalance(s, claimer, o.author, o.quantity);
    Ok(s1.(offerfs := s1.offerfs - {id}))
  }

  function ClaimFStepFn(claimer: Name): (State, Id) -> Result<State> {
    (s: State, id: Id) => ClaimFStep(s, claimer, id)
  }

  /** `claimf`: take fungible offers made to `claimer`. */
  function ClaimF(s: State, env: Env, claimer: Name, ids: seq<Id>): (r: Result<State>)
  {
    var step := ClaimFStepFn(claimer);
    :- Authorize(env, claimer);
    Fold(s, ids, step)
  }

  // ---------------------------------------------------------------- balance rows

  /** `openf`: open a zero balance row unless one exists. */
  function OpenF(s: State, env: Env, owner: Name, author: Name, sym: Symbol, ramPayer: Name): (r: Result<State>)
  {
    var key := (author, sym.code);
    :- Authorize(env, ramPayer);
    :- Require(key in s.stats, OpenSymbolMissing);
    var st := s.stats[key];
    :- Require(st.supply.sym == sym, PrecisionMismatch);
    if (owner, st.id) in s.accounts then Ok(s)
    else Ok(s.(accounts := s.accounts[(owner, st.id) := Account(st.id, author, Quantity(0, sym))]))
  }

  /** `closef`: delete a zero balance row that no open offer of its owner still needs. */
  function CloseF(s: State, env: Env, owner: Name, author: Name, sym: Symbol): (r: Result<State>)
  {
    var open := SameToken(owner, author, sym);
    :- Authorize(env, owner);
    var ftid :- GetFTIndex(s, author, sym);
    :- Require((owner, ftid) in s.accounts,
               NoBalanceRow);
    :- Require(s.accounts[(owner, ftid)].balance.amount == 0, BalanceNotZero);
    :- Require(!AnyTokenOffer(s, open), OpenFtOffers);
    Ok(s.(accounts := s.accounts - {(owner, ftid)}))
  }

  // ---------------------------------------------------------------- attachf / detachf

  /** What the pass of `attachdeatch` over `containerf` has built: the entries kept, and whether the token was met. */
  datatype Merging = Merging(kept: seq<Account>, found: bool)

  /** Keep an entry only while it holds a positive amount. */
  function Keep(kept: seq<Account>, e: Account, found: bool): Merging {
    Merging(if e.balance.amount > 0 then kept + [e] else kept, found)
  }

  /** One entry of `containerf`: the token's entry gains or loses `amount`. */
  function MergeEntry(m: Merging, ftid: Id, amount: int, attach: bool, e: Account): Result<Merging>
  {
    if e.id != ftid then Ok(Keep(m.kept, e, m.found))
    else if attach then Ok(Keep(m.kept, e.(balance := e.balance.(amount := e.balance.amount + amount)), true))
    else
      :- Require(e.balance.amount >= amount, Overdrawn);
      Ok(Keep(m.kept, e.(balance := e.balance.(amount := e.balance.amount - amount)), true))
  }

  function MergeEntryFn(ftid: Id, amount: int, attach: bool): (Merging, Account) -> Result<Merging> {
    (m: Merging, e: Account) => MergeEntry(m, ftid, amount, attach, e)
  }

  /**
   * `attachdeatch`: move `quantity` between the owner's balance and the
   * asset's `containerf` (attach: into the asset; detach: out of it).
   */
  function AttachDetach(s: State, env: Env, owner: Name, author: Name, quantity: Quantity, assetidc: Id, attach: bool): (r: Result<State>)
  {
    var signer := if attach then author else owner;
    :- Require((author, quantity.sym.code) in s.stats, KeyNotFound);
    var st := s.stats[(author, quantity.sym.code)];
    :- Require(QuantityValid(quantity), InvalidQuantity);
    :- Require(quantity.amount > 0, TransferNotPositive);
    :- Require(quantity.sym == st.supply.sym, PrecisionMismatch);
    :- Require(st.issuer == author, DifferentAuthor);
    :- Authorize(env, signer);
    :- Require((owner, assetidc) in s.sassets, ContainerNotFound);
    var ac := s.sassets[(owner, assetidc)];
    :- Require(ac.author == author, DifferentAuthors);
    :- Require(assetidc !in s.delegates, AssetDelegated);
    :- Require(assetidc !in s.offers, AssetOffered);
    var m :- Fold(Merging([], false), ac.containerf, MergeEntryFn(st.id, quantity.amount, attach));
    var kept := if !m.found && attach then m.kept + [Account(st.id, author, quantity)] else m.kept;
    :- Require(attach || m.found, NotAttached);
    var s1 := s.(sassets := s.sassets[(owner, assetidc) := ac.(containerf := kept)]);
    if attach then SubBalance(s1, owner, author, quantity) else AddBalance(s1, owner, author, quantity)
  }

  /** A successful `attachdeatch` is the rewritten `containerf`, then the debit or credit of the owner. */
  lemma AttachDetachUnfold(s: State, env: Env, owner: Name, author: Name, quantity: Quantity, assetidc: Id, attach: bool)
    requires AttachDetach(s, env, owner, author, quantity, assetidc, attach).Ok?
    ensures var st := s.stats[(author, quantity.sym.code)];
            var ac := s.sassets[(owner, assetidc)];
            var m := Fold(Merging([], false), ac.containerf, MergeEntryFn(st.id, quantity.amount, attach));
            && (owner, assetidc) in s.sassets && m.Ok? && quantity.amount > 0
            && var kept := if !m.value.found && attach then m.value.kept + [Account(st.id, author, quantity)] else m.value.kept;
               var s1 := s.(sassets := s.sassets[(owner, assetidc) := ac.(containerf := kept)]);
               AttachDetach(s, env, owner, author, quantity, assetidc, attach)
                 == if attach then SubBalance(s1, owner, author, quantity) else AddBalance(s1, owner, author, quantity)
  {
  }
}
