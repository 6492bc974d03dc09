/**
 * Four places where the contract's code does something its own checks and
 * messages show was not meant. Each is kept here as written, next to an
 * input that exhibits it; the rest of the model uses the corrected rule,
 * whose intended property is proved here or in the fact modules.
 */
module Findings {
  import opened Types
  import opened Folds
  import opened Nft
  import Fungible
  import Ledger

  // ---------------------------------------------------------------- offerf / closef: the owner index scan

  /**
   * The duplicate scan of `offerf` and `closef` as written: `find(owner)`
   * on the owner index gives the end of the index unless the owner has an
   * offer, and the loop then runs to the end of the index, over the offers
   * of every owner from `owner` upwards, testing the fields in `fields`
   * without testing the owner.
   */
  predicate ScanAsWritten(s: State, owner: Name, fields: TokenOffer -> bool) {
    && (exists id :: id in s.offerfs && s.offerfs[id].owner == owner)
    && (exists id :: id in s.offerfs && s.offerfs[id].owner >= owner && fields(s.offerfs[id]))
  }

  /** The fields the `offerf` scan compares. */
  function OfferFields(author: Name, offeredto: Name, sym: Symbol): TokenOffer -> bool {
    (o: TokenOffer) => o.author == author && o.offeredto == offeredto && o.quantity.sym == sym
  }

  /** The fields the `closef` scan compares. */
  function TokenFields(author: Name, sym: Symbol): TokenOffer -> bool {
    (o: TokenOffer) => o.author == author && o.quantity.sym == sym
  }

  /**
   * The scan as written refuses every offer the corrected check refuses:
   * it never lets a duplicate offer through, nor a row with open offers
   * be closed.
   */
  lemma ScanCoversCorrected(s: State, owner: Name, author: Name, offeredto: Name, sym: Symbol)
    ensures Fungible.AnyTokenOffer(s, Fungible.SameOffer(owner, author, offeredto, sym)) ==>
              ScanAsWritten(s, owner, OfferFields(author, offeredto, sym))
    ensures Fungible.AnyTokenOffer(s, Fungible.SameToken(owner, author, sym)) ==>
              ScanAsWritten(s, owner, TokenFields(author, sym))
  {
    if Fungible.AnyTokenOffer(s, Fungible.SameOffer(owner, author, offeredto, sym)) {
      var id :| id in s.offerfs && Fungible.SameOffer(owner, author, offeredto, sym)(s.offerfs[id]);
      assert OfferFields(author, offeredto, sym)(s.offerfs[id]);
    }
    if Fungible.AnyTokenOffer(s, Fungible.SameToken(owner, author, sym)) {
      var id :| id in s.offerfs && Fungible.SameToken(owner, author, sym)(s.offerfs[id]);
      assert TokenFields(author, sym)(s.offerfs[id]);
    }
  }

  /**
   * Owner 5 has an offer of token `T` of author 7 to 8; owner 6 has one to
   * 9. The scan as written refuses owner 5's new offer to 9, and refuses to
   * close a row of owner 5 for another reason than the corrected check.
   */
  lemma ScanFalseClash()
    ensures var sym := Symbol("T", 0);
            var s := State(map[], map[], map[], map[], map[], map[],
                           map[1 := TokenOffer(7, Quantity(1, sym), 5, 8, 0),
                               2 := TokenOffer(7, Quantity(1, sym), 6, 9, 0)], 0, 2, []);
            && ScanAsWritten(s, 5, OfferFields(7, 9, sym))
            && !Fungible.AnyTokenOffer(s, Fungible.SameOffer(5, 7, 9, sym))
  {
    var sym := Symbol("T", 0);
    var s := State(map[], map[], map[], map[], map[], map[],
                   map[1 := TokenOffer(7, Quantity(1, sym), 5, 8, 0),
                       2 := TokenOffer(7, Quantity(1, sym), 6, 9, 0)], 0, 2, []);
    assert s.offerfs[1].owner == 5;
    assert s.offerfs[2].owner >= 5 && OfferFields(7, 9, sym)(s.offerfs[2]);
    assert s.offerfs.Keys == {1, 2};
  }

  // ---------------------------------------------------------------- detach: the stale owner field

  /** One entry of a `detach` pass as written: the record is unpacked with the owner field it was packed with. */
  function DetachEntryAsWritten(u: Unpacking, owner: Name, id: Id, e: Asset): Result<Unpacking>
  {
    if e.id == id then
      :- Require((owner, e.id) !in u.sassets, DuplicateKey);
      Ok(Unpacking(u.sassets[(owner, e.id) := e], u.kept))
    else
      Ok(Unpacking(u.sassets, u.kept + [e]))
  }

  function DetachEntryAsWrittenFn(owner: Name, id: Id): (Unpacking, Asset) -> Result<Unpacking> {
    (u: Unpacking, e: Asset) => DetachEntryAsWritten(u, owner, id, e)
  }

  function DetachStepAsWritten(p: Nesting, owner: Name, assetidc: Id, id: Id): Result<Nesting>
  {
    var u :- Fold(Unpacking(p.state.sassets, []), p.container.container, DetachEntryAsWrittenFn(owner, id));
    var c := p.container.(container := u.kept);
    Ok(Nesting(p.state.(sassets := u.sassets[(owner, assetidc) := c]), c))
  }

  function DetachStepAsWrittenFn(owner: Name, assetidc: Id): (Nesting, Id) -> Result<Nesting> {
    (p: Nesting, id: Id) => DetachStepAsWritten(p, owner, assetidc, id)
  }

  /** `detach` as written. */
  function DetachAsWritten(s: State, env: Env, owner: Name, assetidc: Id, ids: seq<Id>): Result<State>
  {
    var key := (owner, assetidc);
    :- Authorize(env, owner);
    :- Require(key in s.sassets, AssetNotFound);
    var p :- Fold(Nesting(s, s.sassets[key]), ids, DetachStepAsWrittenFn(owner, assetidc));
    Ok(p.state)
  }

  /** The container that 1 filled with its asset 2 and then transferred to 2. */
  function PackedState(): State {
    var inner := Asset(2, 1, 9, 0, "", "", [], []);
    var outer := Asset(1, 2, 9, 0, "", "", [inner], []);
    State(map[(2, 1) := outer], map[], map[], map[], map[], map[], map[], 2, 0, [])
  }

  /** The packed ledger is valid: asset 2 is held once, inside asset 1. */
  lemma PackedValid()
    ensures Ledger.Valid(PackedState())
  {
    var inner := Asset(2, 1, 9, 0, "", "", [], []);
    var outer := Asset(1, 2, 9, 0, "", "", [inner], []);
    assert Ledger.Bounded(inner, 2);
    assert Ledger.Bounded(outer, 2) by {
      assert forall e :: e in outer.container ==> e == inner;
    }
    assert Ledger.Held(inner) == {2};
    assert Ledger.HeldIn(outer.container) == {2};
    assert Ledger.Tree(outer);
  }

  /**
   * On a valid ledger, account 2 detaches asset 2 from its container 1.
   * As written, the record lands in 2's table still naming 1 as its owner,
   * which breaks the scope invariant, and 2 can then no longer transfer it.
   */
  lemma DetachStaleOwner()
    ensures Ledger.Valid(PackedState())
    ensures var r := DetachAsWritten(PackedState(), Env({2}, {3}, 0), 2, 1, [2]);
            && r.Ok? && (2, 2) in r.value.sassets && r.value.sassets[(2, 2)].owner == 1
            && !Ledger.ScopesValid(r.value)
            && TransferStep(Batch(r.value, map[]), Env({2}, {3}, 0), 2, 3, 2)
                 == Err(TransferNotYours)
  {
    var s := PackedState();
    var env := Env({2}, {3}, 0);
    var inner := Asset(2, 1, 9, 0, "", "", [], []);
    PackedValid();
    FoldSingle(Unpacking(s.sassets, []), inner, DetachEntryAsWrittenFn(2, 2));
    var p := Nesting(s, s.sassets[(2, 1)]);
    FoldSingle<Nesting, Id>(p, 2, DetachStepAsWrittenFn(2, 1));
  }

  /**
   * The corrected `detach` on the same input hands the record to 2 and
   * keeps the invariant, as `Ledger.DetachKeepsValid` proves for every
   * input; 2 can then transfer it.
   */
  lemma DetachCorrected()
    ensures var r := Detach(PackedState(), Env({2}, {3}, 0), 2, 1, [2]);
            && r.Ok? && (2, 2) in r.value.sassets && r.value.sassets[(2, 2)].owner == 2
            && Ledger.Valid(r.value)
            && TransferStep(Batch(r.value, map[]), Env({2}, {3}, 0), 2, 3, 2).Ok?
  {
    var s := PackedState();
    var env := Env({2}, {3}, 0);
    DetachStaleOwner();
    var inner := Asset(2, 1, 9, 0, "", "", [], []);
    var outer := Asset(1, 2, 9, 0, "", "", [inner], []);
    FoldSingle(Unpacking(s.sassets, []), inner, DetachEntryFn(2, 2));
    FoldSingle<Nesting, Id>(Nesting(s, outer), 2, DetachStepFn(2, 1));
    Ledger.DetachKeepsValid(s, env, 2, 1, [2]);
  }

  // ---------------------------------------------------------------- transfer: recalling a loan

  /** The loan rule of `transfer` as written: the lender's signature alone returns a loan at any time. */
  function DelegationCheckAsWritten(s: State, env: Env, from: Name, to: Name, id: Id): Check
  {
    if id !in s.delegates then Authorize(env, from)
    else
      var d := s.delegates[id];
      if !(d.owner == to || d.delegatedto == to) then
        Fail(TransferDelegated)
      else if !(d.owner in env.auth || from in env.auth) then
        Fail(MissingAuthority)
      else Pass
  }

  /**
   * Asset 1 is lent by 1 to 2 at time 100 for 1000 seconds. At time 200 the
   * rule as written lets 1 alone move it back, though `undelegate` refuses
   * until time 1101; the corrected rule refuses with `undelegate`'s message.
   */
  lemma EarlyRecall()
    ensures var s := State(map[], map[], map[1 := Delegation(1, 2, 100, 1000)], map[], map[], map[], map[], 1, 0, []);
            var env := Env({1}, {1, 2}, 200);
            && DelegationCheckAsWritten(s, env, 2, 1, 1) == Pass
            && UndelegateStep(s.(sassets := map[(2, 1) := Asset(1, 2, 9, 0, "", "", [], [])]), env, 1, 2, "", 1)
                 == Err(PeriodNotOver)
            && DelegationCheck(s, env, 2, 1, 1) == Fail(PeriodNotOver)
  {
  }

  /**
   * Under the corrected rule a loan goes back to its lender before the
   * period is over only on the borrower's own signature.
   */
  lemma RecallHonoursPeriod(b: Batch<seq<Id>>, env: Env, from: Name, to: Name, id: Id)
    requires id in b.state.delegates && b.state.delegates[id].owner == to
    requires !Expired(b.state.delegates[id], env.now)
    ensures TransferStep(b, env, from, to, id).Ok? ==> from in env.auth
  {
  }

  /** The rule as written and the corrected one differ only on an early recall. */
  lemma RecallRulesAgree(s: State, env: Env, from: Name, to: Name, id: Id)
    ensures DelegationCheck(s, env, from, to, id) != DelegationCheckAsWritten(s, env, from, to, id) <==>
              && id in s.delegates && s.delegates[id].owner == to
              && s.delegates[id].owner in env.auth && from !in env.auth
              && !Expired(s.delegates[id], env.now)
  {
  }

  // ---------------------------------------------------------------- undelegate: 64-bit period end

  /** The period test of `undelegate` as written, with the sum taken in 64-bit unsigned arithmetic. */
  predicate ExpiredAsWritten(d: Delegation, now: nat) {
    (d.cdate + d.period) % 0x1_0000_0000_0000_0000 < now
  }

  /** The two tests agree whenever the end of the period fits in 64 bits. */
  lemma ExpiredAgrees(d: Delegation, now: nat)
    requires d.cdate + d.period < 0x1_0000_0000_0000_0000
    ensures ExpiredAsWritten(d, now) <==> Expired(d, now)
  {
  }

  /**
   * A loan made at time 100 for 2^64 - 50 seconds, which `delegate` accepts
   * as a 64-bit period, counts as over at time 101 as written.
   */
  lemma PeriodWraps()
    ensures var d := Delegation(1, 2, 100, 0xFFFF_FFFF_FFFF_FFCE);
            ExpiredAsWritten(d, 101) && !Expired(d, 101)
  {
  }
}
