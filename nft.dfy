/**
 * The non-fungible actions of SimpleAssets as functions from the state
 * before an action to the state after it, or to the message of the first
 * check that fails (the host then discards every write of the action).
 *
 * Batched actions loop over `assetids`; each loop body is a `...Step`
 * function and the loop is `Fold` over the ids, so a later id sees the
 * writes of the earlier ones, as the C++ does.
 */
module Nft {
  import opened Types
  import opened Folds

  /** The staged state of a batched action and the ids it has grouped by author so far. */
  datatype Batch<G> = Batch(state: State, groups: map<Name, G>)

  /** The staged state of `attach`/`detach` and the container record as last written. */
  datatype Nesting = Nesting(state: State, container: Asset)

  /** The staged asset table of one pass of `detach` over a container, and the entries it keeps. */
  datatype Unpacking = Unpacking(sassets: map<(Name, Id), Asset>, kept: seq<Asset>)

  /** `uniqauthor[author].push_back(id)`. */
  function Push(groups: map<Name, seq<Id>>, author: Name, id: Id): (g: map<Name, seq<Id>>)
    ensures g.Keys == groups.Keys + {author}
  {
    groups[author := (if author in groups then groups[author] else []) + [id]]
  }

  /** A delegation whose period is over: `cdate + period < now`, without wrap-around. */
  predicate Expired(d: Delegation, now: nat) {
    d.cdate + d.period < now
  }

  /** `std::to_string` of an id. */
  function DecimalString(n: nat): (r: string)
    ensures |r| >= 1
    ensures forall i :: 0 <= i < |r| ==> '0' <= r[i] <= '9'
  {
    var digit := ['0' + (n % 10) as char];
    if n < 10 then digit else DecimalString(n / 10) + digit
  }

  // ---------------------------------------------------------------- create / update

  /** `create`: mint a new asset, directly to `owner` or, with `requireclaim`, as an offer from `author`. */
  function Create(s: State, env: Env, author: Name, category: Name, owner: Name,
                  idata: string, mdata: string, requireclaim: bool): (r: Result<State>)
  {
    var id := s.lnftid + 1;
    :- Authorize(env, author);
    :- Require(owner in env.accounts, OwnerAccountMissing);
    :- Require(!(author == owner && requireclaim), ClaimBySelf);
    var holder := if requireclaim then author else owner;
    :- Require(!requireclaim || id !in s.offers, DuplicateKey);
    :- Require((holder, id) !in s.sassets, DuplicateKey);
    var offers := if requireclaim then s.offers[id := AssetOffer(author, owner, env.now)] else s.offers;
    var a := Asset(id, holder, author, category, idata, mdata, [], []);
    Ok(Emit(s.(sassets := s.sassets[(holder, id) := a], offers := offers, lnftid := id),
            [Created(author, owner, id)]))
  }

  /** `update`: the author rewrites the mutable data of an asset held by `owner`. */
  function Update(s: State, env: Env, author: Name, owner: Name, assetid: Id, mdata: string): (r: Result<State>)
  {
    var key := (owner, assetid);
    :- Authorize(env, author);
    :- Require(key in s.sassets, UpdateAssetMissing);
    var a := s.sassets[key];
    :- Require(a.author == author, OnlyAuthorUpdates);
    Ok(s.(sassets := s.sassets[key := a.(mdata := mdata)]))
  }

  // ---------------------------------------------------------------- transfer

  /**
   * The delegation rules of `transfer` for one id: a delegated asset moves
   * only back to its lender or on to its borrower, signed by the lender or
   * by `from`; otherwise `from` signs.
   */
  function DelegationCheck(s: State, env: Env, from: Name, to: Name, id: Id): Check
  {
    if id !in s.delegates then Authorize(env, from)
    else
      var d := s.delegates[id];
      if !(d.owner == to || d.delegatedto == to) then
        Fail(TransferDelegated)
      else if !(d.owner in env.auth || from in env.auth) then
        Fail(MissingAuthority)
      // a loan returned on the lender's signature alone is held to the period, as `undelegate` is
      else if d.owner == to && from !in env.auth && !Expired(d, env.now) then
        Fail(PeriodNotOver)
      else Pass
  }

  /** One id of `transfer`. */
  function TransferStep(b: Batch<seq<Id>>, env: Env, from: Name, to: Name, id: Id): Result<Batch<seq<Id>>>
  {
    var s := b.state;
    :- DelegationCheck(s, env, from, to, id);
    :- Require((from, id) in s.sassets, TransferNotFound);
    var a := s.sassets[(from, id)];
    :- Require(from == a.owner, TransferNotYours);
    :- Require(id !in s.offers,
               TransferOffered);
    var rest := s.sassets - {(from, id)};
    :- Require((to, id) !in rest, DuplicateKey);
    var delegates := if id in s.delegates && s.delegates[id].owner == to then s.delegates - {id} else s.delegates;
    Ok(Batch(s.(sassets := rest[(to, id) := a.(owner := to)], delegates := delegates),
             Push(b.groups, a.author, id)))
  }

  function TransferStepFn(env: Env, from: Name, to: Name): (Batch<seq<Id>>, Id) -> Result<Batch<seq<Id>>> {
    (b: Batch<seq<Id>>, id: Id) => TransferStep(b, env, from, to, id)
  }

  function TransferNote(from: Name, to: Name, memo: string): (Name, seq<Id>) -> Event {
    (author: Name, ids: seq<Id>) => Transferred(author, from, to, ids, memo)
  }

  /** `transfer`: move whole records from `from`'s scope to `to`'s. */
  ghost function Transfer(s: State, env: Env, from: Name, to: Name, ids: seq<Id>, memo: string): (r: Result<State>)
  {
    var start := Batch(s, map[]);
    :- Require(from != to, TransferToSelf);
    :- Require(to in env.accounts, TransferRecipientMissing);
    :- Require(|memo| <= MemoLimit, MemoTooLong);
    var b :- Fold(start, ids, TransferStepFn(env, from, to));
    Ok(Emit(b.state, EventsOf(b.groups, TransferNote(from, to, memo))))
  }

  // ---------------------------------------------------------------- offer / canceloffer / claim

  /** One id of `offer`. */
  function OfferStep(s: State, env: Env, owner: Name, newowner: Name, id: Id): Result<State>
  {
    var key := (owner, id);
    :- Require(key in s.sassets, SomeAssetMissing);
    :- Require(id !in s.offers, AlreadyOffered);
    :- Require(id !in s.delegates, OfferDelegated);
    Ok(s.(offers := s.offers[id := AssetOffer(owner, newowner, env.now)]))
  }

  function OfferStepFn(env: Env, owner: Name, newowner: Name): (State, Id) -> Result<State> {
    (s: State, id: Id) => OfferStep(s, env, owner, newowner, id)
  }

  /** `offer`: open a claim on each asset for `newowner`. */
  function Offer(s: State, env: Env, owner: Name, newowner: Name, ids: seq<Id>, memo: string): (r: Result<State>)
  {
    var step := OfferStepFn(env, owner, newowner);
    :- Require(owner != newowner, OfferToSelf);
    :- Authorize(env, owner);
    :- Require(newowner in env.accounts, NewOwnerMissing);
    Fold(s, ids, step)
  }

  /** One id of `canceloffer`. */
  function CancelOfferStep(s: State, owner: Name, id: Id): Result<State>
  {
    if id !in s.offers then Err(OfferNotFound) else
    :- Require(owner == s.offers[id].owner,
               NotOfferOwner);
    Ok(s.(offers := s.offers - {id}))
  }

  function CancelOfferStepFn(owner: Name): (State, Id) -> Result<State> {
    (s: State, id: Id) => CancelOfferStep(s, owner, id)
  }

  /** `canceloffer`: withdraw the offers on the given assets. */
  function CancelOffer(s: State, env: Env, owner: Name, ids: seq<Id>): (r: Result<State>)
  {
    var step := CancelOfferStepFn(owner);
    :- Authorize(env, owner);
    Fold(s, ids, step)
  }

  /** One id of `claim`; the author is read before the record is erased. */
  function ClaimStep(b: Batch<map<Id, Name>>, claimer: Name, id: Id): Result<Batch<map<Id, Name>>>
  {
    var s := b.state;
    :- Require(id in s.offers, ClaimNotFound);
    var o := s.offers[id];
    :- Require(claimer == o.offeredto, NotOfferedToYou);
    :- Require((o.owner, id) in s.sassets, ClaimNotFound);
    var a := s.sassets[(o.owner, id)];
    :- Require(o.owner == a.owner, OwnerChanged);
    :- Require((claimer, id) !in s.sassets, DuplicateKey);
    var previous := if a.author in b.groups then b.groups[a.author] else map[];
    Ok(Batch(s.(sassets := s.sassets[(claimer, id) := a.(owner := claimer)] - {(o.owner, id)},
                offers := s.offers - {id}),
             b.groups[a.author := previous[id := o.owner]]))
  }

  function ClaimStepFn(claimer: Name): (Batch<map<Id, Name>>, Id) -> Result<Batch<map<Id, Name>>> {
    (b: Batch<map<Id, Name>>, id: Id) => ClaimStep(b, claimer, id)
  }

  function ClaimNote(claimer: Name): (Name, map<Id, Name>) -> Event {
    (author: Name, previous: map<Id, Name>) => Claimed(author, claimer, previous)
  }

  /** `claim`: take the assets offered to `claimer`. */
  ghost function Claim(s: State, env: Env, claimer: Name, ids: seq<Id>): (r: Result<State>)
  {
    var start := Batch(s, map[]);
    :- Authorize(env, claimer);
    var b :- Fold(start, ids, ClaimStepFn(claimer));
    Ok(Emit(b.state, EventsOf(b.groups, ClaimNote(claimer))))
  }

  // ---------------------------------------------------------------- burn

  /** One id of `burn`. */
  function BurnStep(b: Batch<seq<Id>>, owner: Name, id: Id): Result<Batch<seq<Id>>>
  {
    var s := b.state;
    :- Require((owner, id) in s.sassets, SomeAssetMissing);
    var a := s.sassets[(owner, id)];
    :- Require(owner == a.owner, BurnNotYours);
    :- Require(id !in s.offers, BurnOffered);
    :- Require(id !in s.delegates, BurnDelegated);
    Ok(Batch(s.(sassets := s.sassets - {(owner, id)}), Push(b.groups, a.author, id)))
  }

  function BurnStepFn(owner: Name): (Batch<seq<Id>>, Id) -> Result<Batch<seq<Id>>> {
    (b: Batch<seq<Id>>, id: Id) => BurnStep(b, owner, id)
  }

  function BurnNote(owner: Name, memo: string): (Name, seq<Id>) -> Event {
    (author: Name, ids: seq<Id>) => Burned(author, owner, ids, memo)
  }

  /** `burn`: destroy the owner's assets. */
  ghost function Burn(s: State, env: Env, owner: Name, ids: seq<Id>, memo: string): (r: Result<State>)
  {
    var start := Batch(s, map[]);
    :- Authorize(env, owner);
    var b :- Fold(start, ids, BurnStepFn(owner));
    Ok(Emit(b.state, EventsOf(b.groups, BurnNote(owner, memo))))
  }

  // ---------------------------------------------------------------- delegate / undelegate

  /** One id of `delegate`. */
  function DelegateStep(s: State, env: Env, owner: Name, to: Name, period: nat, id: Id): Result<State>
  {
    var key := (owner, id);
    :- Require(key in s.sassets, SomeAssetNotFound);
    :- Require(id !in s.delegates, AlreadyDelegated);
    :- Require(id !in s.offers, SomeAssetOffered);
    Ok(s.(delegates := s.delegates[id := Delegation(owner, to, env.now, period)]))
  }

  function DelegateStepFn(env: Env, owner: Name, to: Name, period: nat): (State, Id) -> Result<State> {
    (s: State, id: Id) => DelegateStep(s, env, owner, to, period, id)
  }

  /** The memo `delegate` hands to its inline `transfer`. */
  function DelegateMemo(memo: string): string {
    "Delegate memo: " + memo
  }

  /** `delegate`: record a loan per asset, then transfer the assets to the borrower. */
  ghost function Delegate(s: State, env: Env, owner: Name, to: Name, ids: seq<Id>, period: nat, memo: string): (r: Result<State>)
  {
    var step := DelegateStepFn(env, owner, to, period);
    :- Require(owner != to, DelegateToSelf);
    :- Authorize(env, owner);
    :- Require(to in env.accounts, TransferRecipientMissing);
    var s1 :- Fold(s, ids, step);
    Transfer(s1, env.(auth := {owner}), owner, to, ids, DelegateMemo(memo))
  }

  /** One id of `undelegate`: its checks, and the id appended to the memo. */
  function UndelegateStep(s: State, env: Env, owner: Name, from: Name, idlist: string, id: Id): Result<string>
  {
    var key := (from, id);
    :- Require(key in s.sassets, SomeAssetNotFound);
    :- Require(id in s.delegates, NotDelegated);
    var d := s.delegates[id];
    :- Require(owner == d.owner, NotLender);
    :- Require(from == d.delegatedto, NotDelegatedTo);
    :- Require(s.sassets[key].owner == d.delegatedto,
               NotDelegatedTo);
    :- Require(Expired(d, env.now), PeriodNotOver);
    Ok((if idlist == "" then "" else idlist + ", ") + DecimalString(id))
  }

  function UndelegateStepFn(s: State, env: Env, owner: Name, from: Name): (string, Id) -> Result<string> {
    (idlist: string, id: Id) => UndelegateStep(s, env, owner, from, idlist, id)
  }

  /** `undelegate`: after the period, the lender takes the assets back from the borrower. */
  ghost function Undelegate(s: State, env: Env, owner: Name, from: Name, ids: seq<Id>): (r: Result<State>)
  {
    var step := UndelegateStepFn(s, env, owner, from);
    :- Authorize(env, owner);
    :- Require(from in env.accounts, RecipientMissing);
    var idlist :- Fold("", ids, step);
    Transfer(s, env.(auth := {owner}), from, owner, ids, "undelegate assetid: " + idlist)
  }

  // ---------------------------------------------------------------- attach / detach

  /** One id of `attach`: append the record to the container, then erase it from the scope. */
  function AttachStep(p: Nesting, owner: Name, assetidc: Id, id: Id): Result<Nesting>
  {
    var s := p.state;
    :- Require((owner, id) in s.sassets, SomeAssetNotFound);
    :- Require(assetidc != id, AttachToSelf);
    var a := s.sassets[(owner, id)];
    :- Require(a.author == p.container.author, DifferentAuthors);
    :- Require(id !in s.delegates, SomeAssetDelegated);
    :- Require(id !in s.offers, SomeAssetOffered);
    var c := p.container.(container := p.container.container + [a]);
    Ok(Nesting(s.(sassets := s.sassets[(owner, assetidc) := c] - {(owner, id)}), c))
  }

  function AttachStepFn(owner: Name, assetidc: Id): (Nesting, Id) -> Result<Nesting> {
    (p: Nesting, id: Id) => AttachStep(p, owner, assetidc, id)
  }

  /** `attach`: embed assets of the container's author into the container. */
  function Attach(s: State, env: Env, owner: Name, assetidc: Id, ids: seq<Id>): (r: Result<State>)
  {
    var key := (owner, assetidc);
    :- Require(key in s.sassets, AssetNotFound);
    var c := s.sassets[key];
    :- Authorize(env, c.author);
    var p :- Fold(Nesting(s, c), ids, AttachStepFn(owner, assetidc));
    Ok(p.state)
  }

  /**
   * One embedded record met by `detach`'s inner loop: the one asked for goes
   * back to the owner's scope under its own id, the others are kept.
   */
  function DetachEntry(u: Unpacking, owner: Name, id: Id, e: Asset): Result<Unpacking>
  {
    if e.id == id then
      :- Require((owner, e.id) !in u.sassets, DuplicateKey);
      Ok(Unpacking(u.sassets[(owner, e.id) := e.(owner := owner)], u.kept))
    else
      Ok(Unpacking(u.sassets, u.kept + [e]))
  }

  function DetachEntryFn(owner: Name, id: Id): (Unpacking, Asset) -> Result<Unpacking> {
    (u: Unpacking, e: Asset) => DetachEntry(u, owner, id, e)
  }

  /** One id of `detach`: a pass over the container, then the container rewritten. */
  function DetachStep(p: Nesting, owner: Name, assetidc: Id, id: Id): Result<Nesting>
  {
    var u :- Fold(Unpacking(p.state.sassets, []), p.container.container, DetachEntryFn(owner, id));
    var c := p.container.(container := u.kept);
    Ok(Nesting(p.state.(sassets := u.sassets[(owner, assetidc) := c]), c))
  }

  function DetachStepFn(owner: Name, assetidc: Id): (Nesting, Id) -> Result<Nesting> {
    (p: Nesting, id: Id) => DetachStep(p, owner, assetidc, id)
  }

  /** `detach`: take embedded records out of the container, back into the owner's scope. */
  function Detach(s: State, env: Env, owner: Name, assetidc: Id, ids: seq<Id>): (r: Result<State>)
  {
    var key := (owner, assetidc);
    :- Authorize(env, owner);
    :- Require(key in s.sassets, AssetNotFound);
    var p :- Fold(Nesting(s, s.sassets[key]), ids, DetachStepFn(owner, assetidc));
    Ok(p.state)
  }
}
