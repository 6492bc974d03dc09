/**
 * What the fungible-token actions of SimpleAssets guarantee, stated over
 * the action functions of `Fungible`: exact balance and supply effects,
 * the escrow round trips, the row lifecycle of `openf`/`closef`, and the
 * conservation of `attachf`/`detachf`.
 */
module TokenFacts {
  import opened Types
  import opened Folds
  import opened Fungible
  import opened MapFacts
  import Ledger

  /** The id of `author`'s token with the code of `sym`; the token must exist. */
  function TokenId(s: State, author: Name, sym: Symbol): Id
    requires (author, sym.code) in s.stats
  {
    s.stats[(author, sym.code)].id
  }

  /**
   * `t` is `s` with only the balance row of `owner` in token `ftid`
   * changed, by `delta`; the row exists afterwards.
   */
  ghost predicate Credited(s: State, t: State, owner: Name, ftid: Id, delta: int) {
    && t == s.(accounts := t.accounts)
    && (owner, ftid) in t.accounts
    && t.accounts - {(owner, ftid)} == s.accounts - {(owner, ftid)}
    && BalanceOf(t, owner, ftid) == BalanceOf(s, owner, ftid) + delta
  }

  // ---------------------------------------------------------------- createf / updatef

  /**
   * `createf` succeeds exactly when the author authorised it, the maximum
   * supply is a valid positive amount of a valid symbol and the author has
   * no token of that symbol; the new token takes the next id of the shared
   * counter and starts with nothing issued.
   */
  lemma CreateFRegisters(s: State, env: Env, author: Name, maximumSupply: Quantity, authorctrl: bool, data: string)
    ensures var r := CreateF(s, env, author, maximumSupply, authorctrl, data);
            r.Ok? <==> && author in env.auth && SymbolValid(maximumSupply.sym) && QuantityValid(maximumSupply)
                       && maximumSupply.amount > 0 && (author, maximumSupply.sym.code) !in s.stats
    ensures var r := CreateF(s, env, author, maximumSupply, authorctrl, data);
            r.Ok? ==>
              var key := (author, maximumSupply.sym.code);
              && key in r.value.stats
              && var st := r.value.stats[key];
                 && st.id == s.lnftid + 1 && r.value.lnftid == st.id
                 && st.supply == Quantity(0, maximumSupply.sym) && st.maxSupply == maximumSupply
                 && st.issuer == author && st.authorctrl == authorctrl && st.data == data
                 && r.value.stats - {key} == s.stats
                 && r.value == s.(stats := r.value.stats, lnftid := st.id)
  {
    var r := CreateF(s, env, author, maximumSupply, authorctrl, data);
    if r.Ok? {
      assert r.value.stats - {(author, maximumSupply.sym.code)} == s.stats;
    }
  }

  /** `updatef` succeeds exactly on an existing token of the authorising author, and replaces its data alone. */
  lemma UpdateFRewrites(s: State, env: Env, author: Name, sym: Symbol, data: string)
    ensures var r := UpdateF(s, env, author, sym, data);
            r.Ok? <==> author in env.auth && SymbolValid(sym) && (author, sym.code) in s.stats
    ensures var r := UpdateF(s, env, author, sym, data);
            r.Ok? ==>
              && (author, sym.code) in r.value.stats
              && r.value.stats[(author, sym.code)] == s.stats[(author, sym.code)].(data := data)
              && r.value.stats - {(author, sym.code)} == s.stats - {(author, sym.code)}
              && r.value == s.(stats := r.value.stats)
  {
  }

  // ---------------------------------------------------------------- sub_balancef / add_balancef

  /**
   * `sub_balancef` succeeds exactly on an existing row of the same symbol
   * holding at least the amount, and debits that row by the amount, which
   * never takes it below zero and keeps the row.
   */
  lemma SubBalanceDebits(s: State, owner: Name, author: Name, value: Quantity)
    ensures SubBalance(s, owner, author, value).Ok? <==>
              && (author, value.sym.code) in s.stats
              && var key := (owner, TokenId(s, author, value.sym));
                 && key in s.accounts
                 && s.accounts[key].balance.sym == value.sym
                 && value.amount <= s.accounts[key].balance.amount <= MaxAmount + value.amount
    ensures SubBalance(s, owner, author, value).Ok? ==>
              var ftid := TokenId(s, author, value.sym);
              var t := SubBalance(s, owner, author, value).value;
              && (owner, ftid) in s.accounts
              && Credited(s, t, owner, ftid, -value.amount)
              && BalanceOf(t, owner, ftid) >= 0
              && t.accounts[(owner, ftid)].id == s.accounts[(owner, ftid)].id
              && t.accounts[(owner, ftid)].author == s.accounts[(owner, ftid)].author
  {
  }

  /**
   * `add_balancef` succeeds exactly for an existing token when the row is
   * missing or holds the same symbol with room for the amount, and credits
   * the amount, opening the row if need be.
   */
  lemma AddBalanceCredits(s: State, owner: Name, author: Name, value: Quantity)
    ensures AddBalance(s, owner, author, value).Ok? <==>
              && (author, value.sym.code) in s.stats
              && var key := (owner, TokenId(s, author, value.sym));
                 key in s.accounts ==>
                   && s.accounts[key].balance.sym == value.sym
                   && -MaxAmount <= s.accounts[key].balance.amount + value.amount <= MaxAmount
    ensures AddBalance(s, owner, author, value).Ok? ==>
              Credited(s, AddBalance(s, owner, author, value).value, owner, TokenId(s, author, value.sym), value.amount)
  {
  }

  // ---------------------------------------------------------------- transferf / issuef / burnf

  /**
   * A successful `transferf` debits `from` and credits `to` by the same
   * positive amount, so their sum is unchanged; nothing else changes.
   */
  lemma TransferFMoves(s: State, env: Env, from: Name, to: Name, author: Name, quantity: Quantity, memo: string)
    ensures var r := TransferF(s, env, from, to, author, quantity, memo);
            r.Ok? ==>
              && from != to && quantity.amount > 0 && (author, quantity.sym.code) in s.stats
              && var ftid := TokenId(s, author, quantity.sym);
                 var t := r.value;
                 && BalanceOf(t, from, ftid) == BalanceOf(s, from, ftid) - quantity.amount
                 && BalanceOf(t, to, ftid) == BalanceOf(s, to, ftid) + quantity.amount
                 && BalanceOf(t, from, ftid) + BalanceOf(t, to, ftid) == BalanceOf(s, from, ftid) + BalanceOf(s, to, ftid)
                 && t.accounts - {(from, ftid), (to, ftid)} == s.accounts - {(from, ftid), (to, ftid)}
                 && t == s.(accounts := t.accounts)
  {
    var r := TransferF(s, env, from, to, author, quantity, memo);
    if r.Ok? {
      SubBalanceDebits(s, from, author, quantity);
      var s1 := SubBalance(s, from, author, quantity).value;
      AddBalanceCredits(s1, to, author, quantity);
      var ftid := TokenId(s, author, quantity.sym);
      assert r == AddBalance(s1, to, author, quantity);
      assert TokenId(s1, author, quantity.sym) == ftid;
      DebitThenCredit(s, s1, r.value, from, to, ftid, quantity.amount);
    }
  }

  /** A debit of one row followed by a credit of another by the same amount moves that amount between them. */
  lemma DebitThenCredit(s: State, s1: State, t: State, from: Name, to: Name, ftid: Id, amount: int)
    requires from != to
    requires Credited(s, s1, from, ftid, -amount) && Credited(s1, t, to, ftid, amount)
    ensures BalanceOf(t, from, ftid) == BalanceOf(s, from, ftid) - amount
    ensures BalanceOf(t, to, ftid) == BalanceOf(s, to, ftid) + amount
    ensures t.accounts - {(from, ftid), (to, ftid)} == s.accounts - {(from, ftid), (to, ftid)}
    ensures t == s.(accounts := t.accounts)
  {
    assert (from, ftid) in s1.accounts - {(to, ftid)};
    assert BalanceOf(t, from, ftid) == BalanceOf(s1, from, ftid);
    var k := (to, ftid);
    assert (k in s1.accounts) == (k in s1.accounts - {(from, ftid)});
    assert (k in s.accounts) == (k in s.accounts - {(from, ftid)});
    if k in s.accounts {
      assert s1.accounts[k] == (s1.accounts - {(from, ftid)})[k];
      assert s.accounts[k] == (s.accounts - {(from, ftid)})[k];
    }
    assert BalanceOf(s1, to, ftid) == BalanceOf(s, to, ftid);
    DropPair(t.accounts, (from, ftid), (to, ftid));
    DropPair(s1.accounts, (from, ftid), (to, ftid));
    DropPair(s.accounts, (from, ftid), (to, ftid));
  }

  /** A successful `issuef`: its checks, the raised supply, the issuer's credit, then the hand-over. */
  lemma IssueFUnfold(s: State, env: Env, to: Name, author: Name, quantity: Quantity, memo: string)
    requires IssueF(s, env, to, author, quantity, memo).Ok?
    ensures && (author, quantity.sym.code) in s.stats
            && var st := s.stats[(author, quantity.sym.code)];
               && st.issuer in env.auth
               && 0 < quantity.amount <= st.maxSupply.amount - st.supply.amount
               && AddQ(st.supply, quantity).Ok?
    ensures var st := s.stats[(author, quantity.sym.code)];
            var s1 := s.(stats := s.stats[(author, quantity.sym.code) := st.(supply := AddQ(st.supply, quantity).value)]);
            && AddBalance(s1, st.issuer, author, quantity).Ok?
            && var s2 := AddBalance(s1, st.issuer, author, quantity).value;
               && (to != st.issuer ==>
                     IssueF(s, env, to, author, quantity, memo)
                       == TransferF(s2, env.(auth := {st.issuer}), st.issuer, to, author, quantity, memo))
               && (to == st.issuer ==> IssueF(s, env, to, author, quantity, memo) == Ok(s2))
  {
  }

  /** The issuer's credit followed by a move of the same amount to `to`: only `to`'s balance has grown. */
  lemma IssueHandOver(s: State, s1: State, s2: State, t: State, issuer: Name, to: Name, amount: int, ftid: Id)
    requires issuer != to
    requires s1 == s.(stats := s1.stats) && Credited(s1, s2, issuer, ftid, amount)
    requires BalanceOf(t, issuer, ftid) == BalanceOf(s2, issuer, ftid) - amount
    requires BalanceOf(t, to, ftid) == BalanceOf(s2, to, ftid) + amount
    requires t.accounts - {(issuer, ftid), (to, ftid)} == s2.accounts - {(issuer, ftid), (to, ftid)}
    requires t == s2.(accounts := t.accounts)
    ensures BalanceOf(t, to, ftid) == BalanceOf(s, to, ftid) + amount
    ensures BalanceOf(t, issuer, ftid) == BalanceOf(s, issuer, ftid)
    ensures t.accounts - {(to, ftid), (issuer, ftid)} == s.accounts - {(to, ftid), (issuer, ftid)}
    ensures t == s.(stats := s1.stats, accounts := t.accounts)
  {
    assert (to, ftid) in s2.accounts - {(issuer, ftid)} <==> (to, ftid) in s1.accounts - {(issuer, ftid)};
    assert BalanceOf(s2, to, ftid) == BalanceOf(s, to, ftid);
    assert t.accounts - {(to, ftid), (issuer, ftid)} == t.accounts - {(issuer, ftid), (to, ftid)};
    assert s2.accounts - {(issuer, ftid), (to, ftid)} == (s2.accounts - {(issuer, ftid)}) - {(to, ftid)};
    assert s.accounts - {(to, ftid), (issuer, ftid)} == (s.accounts - {(issuer, ftid)}) - {(to, ftid)};
  }

  /** The hand-over of freshly issued tokens from the issuer to another account. */
  lemma IssueToOther(s: State, s1: State, s2: State, t: State, env: Env, issuer: Name, to: Name,
                     author: Name, quantity: Quantity, memo: string, ftid: Id)
    requires issuer != to && (author, quantity.sym.code) in s2.stats && TokenId(s2, author, quantity.sym) == ftid
    requires s1 == s.(stats := s1.stats) && Credited(s1, s2, issuer, ftid, quantity.amount)
    requires TransferF(s2, env, issuer, to, author, quantity, memo) == Ok(t)
    ensures BalanceOf(t, to, ftid) == BalanceOf(s, to, ftid) + quantity.amount
    ensures BalanceOf(t, issuer, ftid) == BalanceOf(s, issuer, ftid)
    ensures t.accounts - {(to, ftid), (issuer, ftid)} == s.accounts - {(to, ftid), (issuer, ftid)}
    ensures t == s.(stats := s1.stats, accounts := t.accounts)
  {
    TransferFMoves(s2, env, issuer, to, author, quantity, memo);
    IssueHandOver(s, s1, s2, t, issuer, to, quantity.amount, ftid);
  }

  /**
   * A successful `issuef` is signed by the issuer, stays within the
   * maximum supply, raises the supply by exactly the amount and credits it
   * to `to`; when `to` is not the issuer, the issuer's balance ends where
   * it began.
   */
  lemma IssueFMints(s: State, env: Env, to: Name, author: Name, quantity: Quantity, memo: string)
    ensures var r := IssueF(s, env, to, author, quantity, memo);
            r.Ok? ==>
              && (author, quantity.sym.code) in s.stats
              && var key := (author, quantity.sym.code);
                 var st := s.stats[key];
                 var ftid := st.id;
                 var t := r.value;
                 && st.issuer in env.auth
                 && 0 < quantity.amount <= st.maxSupply.amount - st.supply.amount
                 && t.stats == s.stats[key := st.(supply := st.supply.(amount := st.supply.amount + quantity.amount))]
                 && BalanceOf(t, to, ftid) == BalanceOf(s, to, ftid) + quantity.amount
                 && (to != st.issuer ==> BalanceOf(t, st.issuer, ftid) == BalanceOf(s, st.issuer, ftid))
                 && t.accounts - {(to, ftid), (st.issuer, ftid)} == s.accounts - {(to, ftid), (st.issuer, ftid)}
                 && t == s.(stats := t.stats, accounts := t.accounts)
  {
    var r := IssueF(s, env, to, author, quantity, memo);
    if r.Ok? {
      IssueFUnfold(s, env, to, author, quantity, memo);
      var key := (author, quantity.sym.code);
      var st := s.stats[key];
      var ftid := st.id;
      var supply := AddQ(st.supply, quantity).value;
      assert supply == st.supply.(amount := st.supply.amount + quantity.amount);
      var s1 := s.(stats := s.stats[key := st.(supply := supply)]);
      AddBalanceCredits(s1, st.issuer, author, quantity);
      var s2 := AddBalance(s1, st.issuer, author, quantity).value;
      if to != st.issuer {
        assert TokenId(s2, author, quantity.sym) == ftid;
        IssueToOther(s, s1, s2, r.value, env.(auth := {st.issuer}), st.issuer, to, author, quantity, memo, ftid);
      } else {
        DropSame(s2.accounts, (st.issuer, ftid));
        DropSame(s.accounts, (st.issuer, ftid));
      }
    }
  }

  /** A successful `burnf` lowers the supply and the holder's balance by the same positive amount. */
  lemma BurnFRetires(s: State, env: Env, from: Name, author: Name, quantity: Quantity, memo: string)
    ensures var r := BurnF(s, env, from, author, quantity, memo);
            r.Ok? ==>
              && (author, quantity.sym.code) in s.stats
              && var key := (author, quantity.sym.code);
                 var st := s.stats[key];
                 var t := r.value;
                 && quantity.amount > 0
                 && t.stats == s.stats[key := st.(supply := st.supply.(amount := st.supply.amount - quantity.amount))]
                 && BalanceOf(t, from, st.id) == BalanceOf(s, from, st.id) - quantity.amount
                 && BalanceOf(t, from, st.id) >= 0
                 && t.accounts - {(from, st.id)} == s.accounts - {(from, st.id)}
                 && t == s.(stats := t.stats, accounts := t.accounts)
  {
    var r := BurnF(s, env, from, author, quantity, memo);
    if r.Ok? {
      var key := (author, quantity.sym.code);
      var st := s.stats[key];
      var st' := st.(supply := st.supply.(amount := st.supply.amount - quantity.amount));
      assert SubQ(st.supply, quantity) == Ok(st'.supply);
      var s1 := s.(stats := s.stats[key := st']);
      assert r == SubBalance(s1, from, author, quantity);
      SubBalanceDebits(s1, from, author, quantity);
    }
  }

  // ---------------------------------------------------------------- offerf / cancelofferf / claimf

  /**
   * `offerf` refuses a second offer of the same owner, author, recipient
   * and symbol. A successful one records the escrow under the next deferred
   * id and debits the owner by the amount.
   */
  lemma OfferFEscrows(s: State, env: Env, owner: Name, newowner: Name, author: Name, quantity: Quantity, memo: string)
    ensures AnyTokenOffer(s, SameOffer(owner, author, newowner, quantity.sym)) ==>
              OfferF(s, env, owner, newowner, author, quantity, memo).Err?
    ensures var r := OfferF(s, env, owner, newowner, author, quantity, memo);
            r.Ok? ==>
              var id := s.defid + 1;
              && owner in env.auth && owner != newowner && newowner in env.accounts && quantity.amount > 0
              && (author, quantity.sym.code) in s.stats
              && var ftid := TokenId(s, author, quantity.sym);
                 && id !in s.offerfs
                 && r.value.offerfs == s.offerfs[id := TokenOffer(author, quantity, owner, newowner, env.now)]
                 && BalanceOf(r.value, owner, ftid) == BalanceOf(s, owner, ftid) - quantity.amount
                 && r.value.accounts - {(owner, ftid)} == s.accounts - {(owner, ftid)}
                 && r.value == s.(offerfs := r.value.offerfs, defid := id, accounts := r.value.accounts)
  {
    if OfferF(s, env, owner, newowner, author, quantity, memo).Ok? {
      OfferFUnfold(s, env, owner, newowner, author, quantity, memo);
      var id := s.defid + 1;
      var s1 := s.(offerfs := s.offerfs[id := TokenOffer(author, quantity, owner, newowner, env.now)], defid := id);
      SubBalanceDebits(s1, owner, author, quantity);
    }
  }

  /**
   * `offerf` fails as a duplicate exactly when every earlier check passes
   * and the owner already has an offer of the same author's token, with the
   * same symbol, to the same recipient; the offers of other owners never
   * make it fail.
   */
  lemma OfferFDuplicate(s: State, env: Env, owner: Name, newowner: Name, author: Name, quantity: Quantity, memo: string)
    ensures OfferF(s, env, owner, newowner, author, quantity, memo) == Err(OfferExists) <==>
              && owner in env.auth && newowner in env.accounts && owner != newowner
              && SymbolValid(quantity.sym) && |memo| <= MemoLimit && (author, quantity.sym.code) in s.stats
              && QuantityValid(quantity) && quantity.amount > 0
              && quantity.sym == s.stats[(author, quantity.sym.code)].supply.sym
              && exists id :: && id in s.offerfs && s.offerfs[id].owner == owner && s.offerfs[id].author == author
                              && s.offerfs[id].offeredto == newowner && s.offerfs[id].quantity.sym == quantity.sym
  {
    if exists id :: && id in s.offerfs && s.offerfs[id].owner == owner && s.offerfs[id].author == author
                    && s.offerfs[id].offeredto == newowner && s.offerfs[id].quantity.sym == quantity.sym {
      var id :| && id in s.offerfs && s.offerfs[id].owner == owner && s.offerfs[id].author == author
                && s.offerfs[id].offeredto == newowner && s.offerfs[id].quantity.sym == quantity.sym;
      assert SameOffer(owner, author, newowner, quantity.sym)(s.offerfs[id]);
    }
  }

  /** One id of `cancelofferf` credits the escrowed amount back to its owner and erases the offer. */
  lemma CancelOfferFStepCredits(s: State, owner: Name, id: Id)
    ensures CancelOfferFStep(s, owner, id).Ok? ==>
              && id in s.offerfs
              && var o := s.offerfs[id];
                 && o.owner == owner && (o.author, o.quantity.sym.code) in s.stats
                 && var t := CancelOfferFStep(s, owner, id).value;
                    var ftid := TokenId(s, o.author, o.quantity.sym);
                    && t.offerfs == s.offerfs - {id}
                    && BalanceOf(t, owner, ftid) == BalanceOf(s, owner, ftid) + o.quantity.amount
                    && t.accounts - {(owner, ftid)} == s.accounts - {(owner, ftid)}
                    && t == s.(offerfs := t.offerfs, accounts := t.accounts)
  {
    if CancelOfferFStep(s, owner, id).Ok? {
      var o := s.offerfs[id];
      AddBalanceCredits(s, owner, o.author, o.quantity);
    }
  }

  /** One id of `claimf` credits the escrowed amount to the recipient and erases the offer. */
  lemma ClaimFStepCredits(s: State, claimer: Name, id: Id)
    ensures ClaimFStep(s, claimer, id).Ok? ==>
              && id in s.offerfs
              && var o := s.offerfs[id];
                 && o.offeredto == claimer && (o.author, o.quantity.sym.code) in s.stats
                 && var t := ClaimFStep(s, claimer, id).value;
                    var ftid := TokenId(s, o.author, o.quantity.sym);
                    && t.offerfs == s.offerfs - {id}
                    && BalanceOf(t, claimer, ftid) == BalanceOf(s, claimer, ftid) + o.quantity.amount
                    && t.accounts - {(claimer, ftid)} == s.accounts - {(claimer, ftid)}
                    && t == s.(offerfs := t.offerfs, accounts := t.accounts)
  {
    if ClaimFStep(s, claimer, id).Ok? {
      var o := s.offerfs[id];
      AddBalanceCredits(s, claimer, o.author, o.quantity);
    }
  }

  /** On a valid ledger every balance lies within the asset range. */
  lemma BalanceBounded(s: State, owner: Name, ftid: Id)
    requires Ledger.TokensValid(s)
    ensures 0 <= BalanceOf(s, owner, ftid) <= MaxAmount
  {
  }

  /** Crediting back what was just debited restores the balance table exactly. */
  lemma SubThenAdd(s: State, owner: Name, author: Name, value: Quantity)
    requires (author, value.sym.code) in s.stats
    requires SubBalance(s, owner, author, value).Ok?
    requires 0 <= BalanceOf(s, owner, TokenId(s, author, value.sym)) <= MaxAmount
    ensures AddBalance(SubBalance(s, owner, author, value).value, owner, author, value) == Ok(s)
  {
    var ftid := TokenId(s, author, value.sym);
    var row := s.accounts[(owner, ftid)];
    var t := SubBalance(s, owner, author, value).value;
    var bt := t.accounts[(owner, ftid)].balance;
    assert bt == Quantity(row.balance.amount - value.amount, value.sym);
    assert AddQ(bt, value) == Ok(row.balance);
    assert t.accounts[(owner, ftid)].(balance := row.balance) == row;
    assert t.accounts[(owner, ftid) := row] == s.accounts;
  }

  /**
   * On a valid ledger, `offerf` followed by the owner's `cancelofferf` of
   * that offer restores every balance and the offer table; only the
   * deferred-id counter has moved.
   */
  lemma OfferFThenCancelOfferF(s: State, env: Env, owner: Name, newowner: Name, author: Name, quantity: Quantity,
                               memo: string, t: State, env2: Env)
    requires Ledger.Valid(s)
    requires OfferF(s, env, owner, newowner, author, quantity, memo) == Ok(t)
    requires owner in env2.auth
    ensures CancelOfferF(t, env2, owner, [s.defid + 1]) == Ok(s.(defid := s.defid + 1))
  {
    var id: Id := s.defid + 1;
    OfferFUnfold(s, env, owner, newowner, author, quantity, memo);
    var o := TokenOffer(author, quantity, owner, newowner, env.now);
    var s1 := s.(offerfs := s.offerfs[id := o], defid := id);
    BalanceBounded(s, owner, TokenId(s, author, quantity.sym));
    EscrowReturned(s, s1, t, owner, id, o);
    FoldSingle(t, id, CancelOfferFStepFn(owner));
  }

  /** Cancelling a fresh escrow that was debited from an in-range balance undoes both. */
  lemma EscrowReturned(s: State, s1: State, t: State, owner: Name, id: Id, o: TokenOffer)
    requires id !in s.offerfs && o.owner == owner
    requires (o.author, o.quantity.sym.code) in s.stats
    requires 0 <= BalanceOf(s, owner, TokenId(s, o.author, o.quantity.sym)) <= MaxAmount
    requires s1 == s.(offerfs := s.offerfs[id := o], defid := id)
    requires SubBalance(s1, owner, o.author, o.quantity) == Ok(t)
    ensures CancelOfferFStep(t, owner, id) == Ok(s.(defid := id))
  {
    var ftid := TokenId(s, o.author, o.quantity.sym);
    assert BalanceOf(s1, owner, ftid) == BalanceOf(s, owner, ftid);
    SubThenAdd(s1, owner, o.author, o.quantity);
    assert t.offerfs == s1.offerfs;
    EscrowCancelled(s, s1, t, owner, id, o);
  }

  /** The cancel step of an escrow whose credit restores the state before the debit. */
  lemma EscrowCancelled(s: State, s1: State, t: State, owner: Name, id: Id, o: TokenOffer)
    requires id !in s.offerfs && o.owner == owner
    requires s1 == s.(offerfs := s.offerfs[id := o], defid := id)
    requires t.offerfs == s1.offerfs
    requires AddBalance(t, owner, o.author, o.quantity) == Ok(s1)
    ensures CancelOfferFStep(t, owner, id) == Ok(s.(defid := id))
  {
    assert s1.offerfs - {id} == s.offerfs;
  }

  /** Two balance tables that agree outside one row agree on every other row. */
  lemma OtherRow(m1: map<(Name, Id), Account>, m2: map<(Name, Id), Account>, k: (Name, Id), key: (Name, Id))
    requires m1 - {k} == m2 - {k}
    requires key != k
    ensures key in m1 <==> key in m2
    ensures key in m1 ==> m1[key] == m2[key]
  {
    assert key in m1 <==> key in m1 - {k};
    assert key in m2 <==> key in m2 - {k};
    if key in m1 {
      assert m1[key] == (m1 - {k})[key];
      assert m2[key] == (m2 - {k})[key];
    }
  }

  /** The claim half of `OfferFThenClaimF`, on the state `offerf` left behind. */
  lemma ClaimOffered(s: State, t: State, env2: Env, owner: Name, claimer: Name, ftid: Id, id: Id, o: TokenOffer)
    requires claimer in env2.auth
    requires owner != claimer
    requires id in t.offerfs && t.offerfs[id] == o && o.offeredto == claimer
    requires (o.author, o.quantity.sym.code) in t.stats && TokenId(t, o.author, o.quantity.sym) == ftid
    requires t.accounts - {(owner, ftid)} == s.accounts - {(owner, ftid)}
    ensures var r := ClaimF(t, env2, claimer, [id]);
            && (r.Ok? <==> ((claimer, ftid) in s.accounts ==>
                              && s.accounts[(claimer, ftid)].balance.sym == o.quantity.sym
                              && BalanceOf(s, claimer, ftid) + o.quantity.amount <= MaxAmount
                              && -MaxAmount <= BalanceOf(s, claimer, ftid) + o.quantity.amount))
            && (r.Ok? ==>
                  && BalanceOf(r.value, owner, ftid) == BalanceOf(t, owner, ftid)
                  && BalanceOf(r.value, claimer, ftid) == BalanceOf(s, claimer, ftid) + o.quantity.amount
                  && r.value.offerfs == t.offerfs - {id})
  {
    OtherRow(t.accounts, s.accounts, (owner, ftid), (claimer, ftid));
    AddBalanceCredits(t, claimer, o.author, o.quantity);
    ClaimFStepCredits(t, claimer, id);
    if ClaimFStep(t, claimer, id).Ok? {
      var u := ClaimFStep(t, claimer, id).value;
      OtherRow(u.accounts, t.accounts, (claimer, ftid), (owner, ftid));
    }
    FoldSingle(t, id, ClaimFStepFn(claimer));
  }

  /**
   * `offerf` followed by the recipient's `claimf` of that offer moves the
   * amount from the owner's balance to the recipient's and leaves the offer
   * table as it was; the claim fails exactly when the recipient's existing
   * row holds another symbol or would leave the asset range.
   */
  lemma OfferFThenClaimF(s: State, env: Env, owner: Name, newowner: Name, author: Name, quantity: Quantity,
                         memo: string, t: State, env2: Env)
    requires OfferF(s, env, owner, newowner, author, quantity, memo) == Ok(t)
    requires newowner in env2.auth
    ensures (author, quantity.sym.code) in s.stats
    ensures var r := ClaimF(t, env2, newowner, [s.defid + 1]);
            var ftid := TokenId(s, author, quantity.sym);
            && (r.Ok? <==> ((newowner, ftid) in s.accounts ==>
                              && s.accounts[(newowner, ftid)].balance.sym == quantity.sym
                              && BalanceOf(s, newowner, ftid) + quantity.amount <= MaxAmount
                              && -MaxAmount <= BalanceOf(s, newowner, ftid) + quantity.amount))
            && (r.Ok? ==>
                  && BalanceOf(r.value, owner, ftid) == BalanceOf(s, owner, ftid) - quantity.amount
                  && BalanceOf(r.value, newowner, ftid) == BalanceOf(s, newowner, ftid) + quantity.amount
                  && r.value.offerfs == s.offerfs)
  {
    var id: Id := s.defid + 1;
    OfferFEscrows(s, env, owner, newowner, author, quantity, memo);
    var ftid := TokenId(s, author, quantity.sym);
    assert t.stats == s.stats;
    var o := TokenOffer(author, quantity, owner, newowner, env.now);
    assert t.offerfs[id] == o;
    ClaimOffered(s, t, env2, owner, newowner, ftid, id, o);
    assert t.offerfs - {id} == s.offerfs;
  }


  // ---------------------------------------------------------------- attachf / detachf

  /** Every entry of a `containerf` holds a positive amount. */
  predicate Positive(es: seq<Account>) {
    forall i :: 0 <= i < |es| ==> es[i].balance.amount > 0
  }

  /** How many entries of `es` belong to token `ftid`. */
  function Count(es: seq<Account>, ftid: Id): nat {
    if es == [] then 0
    else Count(es[..|es| - 1], ftid) + (if es[|es| - 1].id == ftid then 1 else 0)
  }

  /** The amount of token `ftid` that the entries `es` hold. */
  function HeldAmount(es: seq<Account>, ftid: Id): int {
    if es == [] then 0
    else HeldAmount(es[..|es| - 1], ftid) + (if es[|es| - 1].id == ftid then es[|es| - 1].balance.amount else 0)
  }

  /** An entry raised by `amount` when it belongs to `ftid`. */
  function RaiseEntry(e: Account, ftid: Id, amount: int): Account {
    if e.id == ftid then e.(balance := e.balance.(amount := e.balance.amount + amount)) else e
  }

  /** `es` with each entry of `ftid` raised by `amount`. */
  function Raise(es: seq<Account>, ftid: Id, amount: int): seq<Account> {
    if es == [] then []
    else Raise(es[..|es| - 1], ftid, amount) + [RaiseEntry(es[|es| - 1], ftid, amount)]
  }

  /** Whatever `attachdeatch` keeps in `containerf` holds a positive amount. */
  lemma {:induction false} MergeKeepsPositive(es: seq<Account>, ftid: Id, amount: int, attach: bool)
    ensures var m := Fold(Merging([], false), es, MergeEntryFn(ftid, amount, attach));
            m.Ok? ==> Positive(m.value.kept)
    decreases |es|
  {
    if es != [] {
      MergeKeepsPositive(es[..|es| - 1], ftid, amount, attach);
    }
  }

  /**
   * Over a container whose entries are all positive, the attach pass keeps
   * every entry, raises the token's entries by the amount, and reports
   * whether the token had an entry.
   */
  lemma {:induction false} AttachFold(es: seq<Account>, ftid: Id, amount: int)
    requires Positive(es) && amount > 0
    ensures Fold(Merging([], false), es, MergeEntryFn(ftid, amount, true))
              == Ok(Merging(Raise(es, ftid, amount), Count(es, ftid) > 0))
    decreases |es|
  {
    if es != [] {
      var n := |es| - 1;
      assert Positive(es[..n]) by {
        forall i | 0 <= i < n ensures es[..n][i].balance.amount > 0 {
          assert es[..n][i] == es[i];
        }
      }
      AttachFold(es[..n], ftid, amount);
      assert es[n].balance.amount > 0;
    }
  }

  /** Holding and entry count of a container with one more entry at the end. */
  lemma HeldSnoc(k: seq<Account>, e: Account, ftid: Id)
    ensures Count(k + [e], ftid) == Count(k, ftid) + (if e.id == ftid then 1 else 0)
    ensures HeldAmount(k + [e], ftid) == HeldAmount(k, ftid) + (if e.id == ftid then e.balance.amount else 0)
  {
    assert (k + [e])[..|k|] == k;
  }

  /** One entry of the detach pass, in terms of the holding it leaves. */
  lemma DetachEntryHeld(m: Merging, e: Account, ftid: Id, amount: int)
    ensures var r := MergeEntry(m, ftid, amount, false, e);
            && (r.Ok? <==> (e.id == ftid ==> e.balance.amount >= amount))
            && (r.Ok? ==> && r.value.found == (m.found || e.id == ftid)
                          && HeldAmount(r.value.kept, ftid)
                               == HeldAmount(m.kept, ftid) + (if e.id == ftid then e.balance.amount - amount else 0))
  {
    var e' := e.(balance := e.balance.(amount := e.balance.amount - amount));
    HeldSnoc(m.kept, e, ftid);
    HeldSnoc(m.kept, e', ftid);
  }

  /** Every entry of token `ftid` among `es` holds at least `amount`. */
  predicate Covers(es: seq<Account>, ftid: Id, amount: int) {
    forall i :: 0 <= i < |es| && es[i].id == ftid ==> es[i].balance.amount >= amount
  }

  /** Coverage of a container with one more entry at the end. */
  lemma CoversSnoc(p: seq<Account>, e: Account, ftid: Id, amount: int)
    ensures Covers(p + [e], ftid, amount) <==> Covers(p, ftid, amount) && (e.id == ftid ==> e.balance.amount >= amount)
  {
    assert forall i :: 0 <= i < |p| ==> (p + [e])[i] == p[i];
    assert (p + [e])[|p|] == e;
  }

  /**
   * The detach pass succeeds exactly when every entry of the token holds at
   * least the amount; it then lowers the token's holding by the amount once
   * per entry, and reports whether the token had an entry.
   */
  lemma {:induction false} DetachFold(es: seq<Account>, ftid: Id, amount: int)
    ensures var m := Fold(Merging([], false), es, MergeEntryFn(ftid, amount, false));
            && (m.Ok? <==> Covers(es, ftid, amount))
            && (m.Ok? ==> m.value.found == (Count(es, ftid) > 0)
                          && HeldAmount(m.value.kept, ftid) == HeldAmount(es, ftid) - amount * Count(es, ftid))
    decreases |es|
  {
    if es != [] {
      var n := |es| - 1;
      var p, e := es[..n], es[n];
      assert es == p + [e];
      DetachFold(p, ftid, amount);
      HeldSnoc(p, e, ftid);
      CoversSnoc(p, e, ftid, amount);
      var m := Fold(Merging([], false), p, MergeEntryFn(ftid, amount, false));
      assert Fold(Merging([], false), es, MergeEntryFn(ftid, amount, false))
               == if m.Err? then Err(m.msg) else MergeEntry(m.value, ftid, amount, false, e);
      if m.Ok? {
        DetachEntryHeld(m.value, e, ftid, amount);
        var c := Count(p, ftid);
        assert amount * (c + 1) == amount * c + amount;
      }
    }
  }

  /** Raising the token's entries raises its holding by the amount once per entry. */
  lemma {:induction false} RaiseHeld(es: seq<Account>, ftid: Id, amount: int)
    ensures Count(Raise(es, ftid, amount), ftid) == Count(es, ftid)
    ensures HeldAmount(Raise(es, ftid, amount), ftid) == HeldAmount(es, ftid) + amount * Count(es, ftid)
    decreases |es|
  {
    if es != [] {
      var n := |es| - 1;
      RaiseHeld(es[..n], ftid, amount);
      var r := Raise(es[..n], ftid, amount);
      assert (r + [RaiseEntry(es[n], ftid, amount)])[..|r|] == r;
    }
  }

  /** Lowering a raised positive entry gives the entry back. */
  lemma LowerRaised(k: seq<Account>, found: bool, e: Account, ftid: Id, amount: int)
    requires e.balance.amount > 0 && amount > 0
    ensures MergeEntry(Merging(k, found), ftid, amount, false, RaiseEntry(e, ftid, amount))
              == Ok(Merging(k + [e], found || e.id == ftid))
  {
    if e.id == ftid {
      var r := RaiseEntry(e, ftid, amount);
      assert r.(balance := r.balance.(amount := r.balance.amount - amount)) == e;
    }
  }

  /** The detach pass over a raised container lowers it back to what it was. */
  lemma {:induction false} DetachRaised(es: seq<Account>, ftid: Id, amount: int)
    requires Positive(es) && amount > 0
    ensures Fold(Merging([], false), Raise(es, ftid, amount), MergeEntryFn(ftid, amount, false))
              == Ok(Merging(es, Count(es, ftid) > 0))
    decreases |es|
  {
    if es != [] {
      var n := |es| - 1;
      var p := es[..n];
      assert es == p + [es[n]];
      assert Positive(p) by {
        forall i | 0 <= i < n ensures p[i].balance.amount > 0 {
          assert p[i] == es[i];
        }
      }
      DetachRaised(p, ftid, amount);
      HeldSnoc(p, es[n], ftid);
      var r := Raise(p, ftid, amount);
      var e := RaiseEntry(es[n], ftid, amount);
      var raised := Raise(es, ftid, amount);
      assert raised == r + [e];
      assert raised[..|raised| - 1] == r;
      assert raised[|raised| - 1] == e;
      var step := MergeEntryFn(ftid, amount, false);
      assert Fold(Merging([], false), r, step) == Ok(Merging(p, Count(p, ftid) > 0));
      assert Fold(Merging([], false), raised, step) == MergeEntry(Merging(p, Count(p, ftid) > 0), ftid, amount, false, e);
      LowerRaised(p, Count(p, ftid) > 0, es[n], ftid, amount);
    }
  }

  /** Attaching a token the container did not hold appends its entry, which detaching drops again. */
  lemma AttachNewEntry(es: seq<Account>, ftid: Id, author: Name, quantity: Quantity)
    requires Positive(es) && quantity.amount > 0 && Count(es, ftid) == 0
    ensures var kept := Raise(es, ftid, quantity.amount) + [Account(ftid, author, quantity)];
            && Positive(kept)
            && Count(kept, ftid) == 1 && HeldAmount(kept, ftid) == HeldAmount(es, ftid) + quantity.amount
            && Fold(Merging([], false), kept, MergeEntryFn(ftid, quantity.amount, false)) == Ok(Merging(es, true))
  {
    var amount := quantity.amount;
    AttachFold(es, ftid, amount);
    MergeKeepsPositive(es, ftid, amount, true);
    var r := Raise(es, ftid, amount);
    RaiseHeld(es, ftid, amount);
    DetachRaised(es, ftid, amount);
    var e := Account(ftid, author, quantity);
    HeldSnoc(r, e, ftid);
    assert Positive(r + [e]) by {
      forall i | 0 <= i < |r| + 1 ensures (r + [e])[i].balance.amount > 0 {
        if i < |r| { assert (r + [e])[i] == r[i]; }
      }
    }
    assert (r + [e])[..|r|] == r;
    assert MergeEntry(Merging(es, false), ftid, amount, false, e) == Ok(Merging(es, true));
  }

  /**
   * The `containerf` the attach pass writes: positive, holding the amount
   * more when the token had at most one entry, and lowered back to the old
   * container by the detach pass of the same amount.
   */
  lemma AttachKept(es: seq<Account>, ftid: Id, author: Name, quantity: Quantity)
    requires Positive(es) && quantity.amount > 0
    ensures var m := Fold(Merging([], false), es, MergeEntryFn(ftid, quantity.amount, true));
            && m.Ok?
            && var kept := if !m.value.found then m.value.kept + [Account(ftid, author, quantity)] else m.value.kept;
               && Positive(kept)
               && (Count(es, ftid) <= 1 ==> Count(kept, ftid) == 1 && HeldAmount(kept, ftid) == HeldAmount(es, ftid) + quantity.amount)
               && Fold(Merging([], false), kept, MergeEntryFn(ftid, quantity.amount, false)) == Ok(Merging(es, true))
  {
    var amount := quantity.amount;
    AttachFold(es, ftid, amount);
    assert Fold(Merging([], false), es, MergeEntryFn(ftid, amount, true))
             == Ok(Merging(Raise(es, ftid, amount), Count(es, ftid) > 0));
    if Count(es, ftid) == 0 {
      AttachNewEntry(es, ftid, author, quantity);
    } else {
      AttachRaisedEntry(es, ftid, amount);
    }
  }

  /** Attaching a token the container already held raises its entries, which detaching lowers again. */
  lemma AttachRaisedEntry(es: seq<Account>, ftid: Id, amount: int)
    requires Positive(es) && amount > 0 && Count(es, ftid) > 0
    ensures var kept := Raise(es, ftid, amount);
            && Positive(kept)
            && (Count(es, ftid) <= 1 ==> Count(kept, ftid) == 1 && HeldAmount(kept, ftid) == HeldAmount(es, ftid) + amount)
            && Fold(Merging([], false), kept, MergeEntryFn(ftid, amount, false)) == Ok(Merging(es, true))
  {
    var kept := Raise(es, ftid, amount);
    assert Positive(kept) by {
      AttachFold(es, ftid, amount);
      MergeKeepsPositive(es, ftid, amount, true);
    }
    RaiseHeld(es, ftid, amount);
    if Count(es, ftid) <= 1 {
      assert Count(es, ftid) == 1;
      assert HeldAmount(kept, ftid) == HeldAmount(es, ftid) + amount * 1;
    }
    DetachRaised(es, ftid, amount);
  }

  /** A successful `attachf` writes the attach pass's container and debits the owner. */
  lemma AttachFWrites(s: State, env: Env, owner: Name, author: Name, quantity: Quantity, assetidc: Id, t: State)
    requires AttachDetach(s, env, owner, author, quantity, assetidc, true) == Ok(t)
    ensures (author, quantity.sym.code) in s.stats && (owner, assetidc) in s.sassets
    ensures var ftid := TokenId(s, author, quantity.sym);
            var ac := s.sassets[(owner, assetidc)];
            var m := Fold(Merging([], false), ac.containerf, MergeEntryFn(ftid, quantity.amount, true));
            && author in env.auth && ac.author == author && quantity.amount > 0 && m.Ok?
            && var kept := if !m.value.found then m.value.kept + [Account(ftid, author, quantity)] else m.value.kept;
               && BalanceOf(t, owner, ftid) == BalanceOf(s, owner, ftid) - quantity.amount
               && t.accounts - {(owner, ftid)} == s.accounts - {(owner, ftid)}
               && t == s.(sassets := s.sassets[(owner, assetidc) := ac.(containerf := kept)], accounts := t.accounts)
               && SubBalance(s.(sassets := s.sassets[(owner, assetidc) := ac.(containerf := kept)]), owner, author, quantity)
                    == Ok(t)
  {
    AttachDetachUnfold(s, env, owner, author, quantity, assetidc, true);
    var st := s.stats[(author, quantity.sym.code)];
    var ac := s.sassets[(owner, assetidc)];
    var m := Fold(Merging([], false), ac.containerf, MergeEntryFn(st.id, quantity.amount, true)).value;
    var kept := if !m.found then m.kept + [Account(st.id, author, quantity)] else m.kept;
    var s1 := s.(sassets := s.sassets[(owner, assetidc) := ac.(containerf := kept)]);
    SubBalanceDebits(s1, owner, author, quantity);
  }

  /** A debit made beside a rewrite of the asset tables is the debit of the balance alone. */
  lemma DebitBesideAssets(s: State, assets: map<(Name, Id), Asset>, owner: Name, author: Name, quantity: Quantity, t: State)
    requires SubBalance(s.(sassets := assets), owner, author, quantity) == Ok(t)
    ensures SubBalance(s, owner, author, quantity) == Ok(s.(accounts := t.accounts))
  {
    var ftid := s.stats[(author, quantity.sym.code)].id;
    var row := s.accounts[(owner, ftid)];
    var balance := SubQ(row.balance, quantity).value;
    var accounts := s.accounts[(owner, ftid) := row.(balance := balance)];
    assert t == s.(sassets := assets, accounts := accounts);
    assert SubBalance(s, owner, author, quantity) == Ok(s.(accounts := accounts));
  }


  /**
   * A successful `attachf` moves the amount from the owner's balance into
   * the asset's `containerf`; the author authorised it, and nothing else
   * changes.
   */
  lemma AttachFMoves(s: State, env: Env, owner: Name, author: Name, quantity: Quantity, assetidc: Id, t: State)
    requires AttachDetach(s, env, owner, author, quantity, assetidc, true) == Ok(t)
    requires (owner, assetidc) in s.sassets && Positive(s.sassets[(owner, assetidc)].containerf)
    ensures (author, quantity.sym.code) in s.stats && (owner, assetidc) in t.sassets
    ensures var ftid := TokenId(s, author, quantity.sym);
            var ac := s.sassets[(owner, assetidc)];
            var after := t.sassets[(owner, assetidc)].containerf;
            && author in env.auth && ac.author == author && quantity.amount > 0
            && Positive(after)
            && (Count(ac.containerf, ftid) <= 1 ==>
                  Count(after, ftid) == 1 && HeldAmount(after, ftid) == HeldAmount(ac.containerf, ftid) + quantity.amount)
            && BalanceOf(t, owner, ftid) == BalanceOf(s, owner, ftid) - quantity.amount
            && t.accounts - {(owner, ftid)} == s.accounts - {(owner, ftid)}
            && t == s.(sassets := s.sassets[(owner, assetidc) := ac.(containerf := after)], accounts := t.accounts)
  {
    AttachFWrites(s, env, owner, author, quantity, assetidc, t);
    AttachKept(s.sassets[(owner, assetidc)].containerf, TokenId(s, author, quantity.sym), author, quantity);
  }

  /**
   * A successful `detachf` moves the amount out of the asset's `containerf`
   * into the owner's balance: the token had an entry, the owner authorised
   * it, and what stays in the container is positive.
   */
  lemma DetachFMoves(s: State, env: Env, owner: Name, author: Name, quantity: Quantity, assetidc: Id, t: State)
    requires AttachDetach(s, env, owner, author, quantity, assetidc, false) == Ok(t)
    ensures (author, quantity.sym.code) in s.stats && (owner, assetidc) in s.sassets && (owner, assetidc) in t.sassets
    ensures var ftid := TokenId(s, author, quantity.sym);
            var ac := s.sassets[(owner, assetidc)];
            var after := t.sassets[(owner, assetidc)].containerf;
            && owner in env.auth && ac.author == author && quantity.amount > 0
            && Count(ac.containerf, ftid) > 0
            && Positive(after)
            && HeldAmount(after, ftid) == HeldAmount(ac.containerf, ftid) - quantity.amount * Count(ac.containerf, ftid)
            && BalanceOf(t, owner, ftid) == BalanceOf(s, owner, ftid) + quantity.amount
            && t.accounts - {(owner, ftid)} == s.accounts - {(owner, ftid)}
            && t == s.(sassets := s.sassets[(owner, assetidc) := ac.(containerf := after)], accounts := t.accounts)
  {
    AttachDetachUnfold(s, env, owner, author, quantity, assetidc, false);
    var st := s.stats[(author, quantity.sym.code)];
    var ac := s.sassets[(owner, assetidc)];
    DetachFold(ac.containerf, st.id, quantity.amount);
    MergeKeepsPositive(ac.containerf, st.id, quantity.amount, false);
    var m := Fold(Merging([], false), ac.containerf, MergeEntryFn(st.id, quantity.amount, false)).value;
    var s1 := s.(sassets := s.sassets[(owner, assetidc) := ac.(containerf := m.kept)]);
    AddBalanceCredits(s1, owner, author, quantity);
  }

  /**
   * After a successful `attachf`, the owner's `detachf` of the same amount
   * passes the same checks; it is the detach pass and the owner's credit.
   */
  lemma DetachAfterAttach(s: State, env: Env, owner: Name, author: Name, quantity: Quantity, assetidc: Id,
                          t: State, env2: Env, es: seq<Account>)
    requires AttachDetach(s, env, owner, author, quantity, assetidc, true).Ok?
    requires t.stats == s.stats && t.delegates == s.delegates && t.offers == s.offers
    requires (owner, assetidc) in s.sassets && (owner, assetidc) in t.sassets
    requires t.sassets[(owner, assetidc)].author == s.sassets[(owner, assetidc)].author
    requires owner in env2.auth
    requires (author, quantity.sym.code) in s.stats
    requires Fold(Merging([], false), t.sassets[(owner, assetidc)].containerf,
                  MergeEntryFn(TokenId(s, author, quantity.sym), quantity.amount, false)) == Ok(Merging(es, true))
    ensures var ac := t.sassets[(owner, assetidc)];
            AttachDetach(t, env2, owner, author, quantity, assetidc, false)
              == AddBalance(t.(sassets := t.sassets[(owner, assetidc) := ac.(containerf := es)]), owner, author, quantity)
  {
  }

  /** Putting the old container back and crediting the debit back restores the state. */
  lemma RestoreAfterDebit(s: State, t: State, key: (Name, Id), kept: seq<Account>, owner: Name, author: Name,
                          quantity: Quantity)
    requires key in s.sassets && (author, quantity.sym.code) in s.stats
    requires 0 <= BalanceOf(s, owner, TokenId(s, author, quantity.sym)) <= MaxAmount
    requires SubBalance(s, owner, author, quantity) == Ok(s.(accounts := t.accounts))
    requires t == s.(sassets := s.sassets[key := s.sassets[key].(containerf := kept)], accounts := t.accounts)
    ensures AddBalance(t.(sassets := t.sassets[key := t.sassets[key].(containerf := s.sassets[key].containerf)]),
                       owner, author, quantity) == Ok(s)
  {
    SubThenAdd(s, owner, author, quantity);
    var ac := s.sassets[key];
    assert t.sassets[key].(containerf := ac.containerf) == ac;
    assert t.sassets[key := ac] == s.sassets;
  }

  /**
   * On a valid ledger, `attachf` followed by the owner's `detachf` of the
   * same amount from the same asset restores the whole state, provided the
   * container held only positive entries, as every container written by
   * `attachdeatch` does.
   */
  lemma AttachFThenDetachF(s: State, env: Env, owner: Name, author: Name, quantity: Quantity, assetidc: Id,
                           t: State, env2: Env)
    requires Ledger.TokensValid(s)
    requires AttachDetach(s, env, owner, author, quantity, assetidc, true) == Ok(t)
    requires (owner, assetidc) in s.sassets && Positive(s.sassets[(owner, assetidc)].containerf)
    requires owner in env2.auth
    ensures AttachDetach(t, env2, owner, author, quantity, assetidc, false) == Ok(s)
  {
    AttachFWrites(s, env, owner, author, quantity, assetidc, t);
    var ftid := TokenId(s, author, quantity.sym);
    var ac := s.sassets[(owner, assetidc)];
    AttachKept(ac.containerf, ftid, author, quantity);
    var m := Fold(Merging([], false), ac.containerf, MergeEntryFn(ftid, quantity.amount, true)).value;
    var kept := if !m.found then m.kept + [Account(ftid, author, quantity)] else m.kept;
    DebitBesideAssets(s, s.sassets[(owner, assetidc) := ac.(containerf := kept)], owner, author, quantity, t);
    BalanceBounded(s, owner, ftid);
    DetachAfterAttach(s, env, owner, author, quantity, assetidc, t, env2, ac.containerf);
    RestoreAfterDebit(s, t, (owner, assetidc), kept, owner, author, quantity);
  }

  // ---------------------------------------------------------------- openf / closef

  /**
   * `openf` succeeds exactly when the payer authorised it and the token
   * exists with that symbol; it gives the owner a row of the token, a fresh
   * one at zero or the existing one untouched, so no balance changes.
   */
  lemma OpenFOpens(s: State, env: Env, owner: Name, author: Name, sym: Symbol, ramPayer: Name)
    ensures var r := OpenF(s, env, owner, author, sym, ramPayer);
            r.Ok? <==> ramPayer in env.auth && (author, sym.code) in s.stats && s.stats[(author, sym.code)].supply.sym == sym
    ensures var r := OpenF(s, env, owner, author, sym, ramPayer);
            r.Ok? ==>
              var ftid := TokenId(s, author, sym);
              && (owner, ftid) in r.value.accounts
              && r.value.accounts[(owner, ftid)].balance.sym == ((if (owner, ftid) in s.accounts then s.accounts[(owner, ftid)].balance.sym else sym))
              && ((owner, ftid) in s.accounts ==> r.value == s)
              && r.value.accounts - {(owner, ftid)} == s.accounts - {(owner, ftid)}
              && r.value == s.(accounts := r.value.accounts)
              && forall o: Name, id: Id :: BalanceOf(r.value, o, id) == BalanceOf(s, o, id)
  {
    var r := OpenF(s, env, owner, author, sym, ramPayer);
    if r.Ok? {
      var ftid := TokenId(s, author, sym);
      forall o: Name, id: Id ensures BalanceOf(r.value, o, id) == BalanceOf(s, o, id) {
        if (o, id) != (owner, ftid) {
          OtherRow(r.value.accounts, s.accounts, (owner, ftid), (o, id));
        }
      }
    }
  }

  /** Opening the same row twice is opening it once. */
  lemma OpenFIdempotent(s: State, env: Env, owner: Name, author: Name, sym: Symbol, ramPayer: Name)
    requires OpenF(s, env, owner, author, sym, ramPayer).Ok?
    ensures OpenF(OpenF(s, env, owner, author, sym, ramPayer).value, env, owner, author, sym, ramPayer)
              == OpenF(s, env, owner, author, sym, ramPayer)
  {
    OpenFOpens(s, env, owner, author, sym, ramPayer);
  }

  /**
   * `closef` is refused for open offers exactly when every earlier check
   * passes and the owner has an offer of that author's token with that
   * symbol; the offers of other owners never block it.
   */
  lemma CloseFOpenOffers(s: State, env: Env, owner: Name, author: Name, sym: Symbol)
    ensures CloseF(s, env, owner, author, sym) == Err(OpenFtOffers) <==>
              && owner in env.auth && (author, sym.code) in s.stats
              && var ftid := TokenId(s, author, sym);
                 && (owner, ftid) in s.accounts && s.accounts[(owner, ftid)].balance.amount == 0
                 && exists id :: && id in s.offerfs && s.offerfs[id].owner == owner
                                 && s.offerfs[id].author == author && s.offerfs[id].quantity.sym == sym
  {
    if exists id :: && id in s.offerfs && s.offerfs[id].owner == owner
                    && s.offerfs[id].author == author && s.offerfs[id].quantity.sym == sym {
      var id :| && id in s.offerfs && s.offerfs[id].owner == owner
                && s.offerfs[id].author == author && s.offerfs[id].quantity.sym == sym;
      assert SameToken(owner, author, sym)(s.offerfs[id]);
    }
  }

  /**
   * `closef` succeeds exactly when the owner authorised it, the token
   * exists, the owner's row exists at zero and no open offer of the owner
   * is in that token; it removes that row alone, so no balance changes.
   */
  lemma CloseFCloses(s: State, env: Env, owner: Name, author: Name, sym: Symbol)
    ensures var r := CloseF(s, env, owner, author, sym);
            r.Ok? <==> && owner in env.auth && (author, sym.code) in s.stats
                       && var ftid := TokenId(s, author, sym);
                          && (owner, ftid) in s.accounts && s.accounts[(owner, ftid)].balance.amount == 0
                          && !AnyTokenOffer(s, SameToken(owner, author, sym))
    ensures var r := CloseF(s, env, owner, author, sym);
            r.Ok? ==>
              && (owner, TokenId(s, author, sym)) !in r.value.accounts
              && r.value == s.(accounts := s.accounts - {(owner, TokenId(s, author, sym))})
              && forall o: Name, id: Id :: BalanceOf(r.value, o, id) == BalanceOf(s, o, id)
  {
    var r := CloseF(s, env, owner, author, sym);
    if r.Ok? {
      var k := (owner, TokenId(s, author, sym));
      assert r.value == s.(accounts := s.accounts - {k});
      assert r.value.accounts - {k} == s.accounts - {k};
      forall o: Name, id: Id ensures BalanceOf(r.value, o, id) == BalanceOf(s, o, id) {
        if (o, id) != k {
          OtherRow(r.value.accounts, s.accounts, k, (o, id));
        }
      }
    }
  }

  /**
   * Opening a row the owner did not have and closing it again, while the
   * owner has no open offer in the token, gives the state back.
   */
  lemma OpenFThenCloseF(s: State, env: Env, owner: Name, author: Name, sym: Symbol, ramPayer: Name, env2: Env)
    requires OpenF(s, env, owner, author, sym, ramPayer).Ok?
    requires (author, sym.code) in s.stats && (owner, TokenId(s, author, sym)) !in s.accounts
    requires owner in env2.auth && !AnyTokenOffer(s, SameToken(owner, author, sym))
    ensures CloseF(OpenF(s, env, owner, author, sym, ramPayer).value, env2, owner, author, sym) == Ok(s)
  {
    var ftid := TokenId(s, author, sym);
    var k := (owner, ftid);
    var t := OpenF(s, env, owner, author, sym, ramPayer).value;
    assert t == s.(accounts := s.accounts[k := Account(ftid, author, Quantity(0, sym))]);
    DropAdded(s.accounts, k, Account(ftid, author, Quantity(0, sym)));
    assert GetFTIndex(t, author, sym) == Ok(ftid);
    assert AnyTokenOffer(t, SameToken(owner, author, sym)) == AnyTokenOffer(s, SameToken(owner, author, sym));
  }
}
