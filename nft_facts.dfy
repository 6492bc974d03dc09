/**
 * What the non-fungible actions of SimpleAssets guarantee, stated over the
 * action functions of `Nft`: the exact effect of `transfer`, the
 * notifications it schedules, and the round trips offer/canceloffer,
 * create/claim, delegate/undelegate and attach/detach.
 */
module NftFacts {
  import opened Types
  import opened Folds
  import opened Nft
  import opened MapFacts
  import Ledger

  /** No id occurs twice. */
  predicate Distinct(ids: seq<Id>) {
    forall i, j :: 0 <= i < j < |ids| ==> ids[i] != ids[j]
  }

  /** An id that is not among the first ones keeps a prefix without repeats free of repeats. */
  lemma DistinctSnoc(ids: seq<Id>)
    requires ids != [] && Distinct(ids[..|ids| - 1]) && ids[|ids| - 1] !in ids[..|ids| - 1]
    ensures Distinct(ids)
  {
    var n := |ids| - 1;
    forall i, j | 0 <= i < j < |ids|
      ensures ids[i] != ids[j]
    {
      assert ids[i] == ids[..n][i];
      if j < n {
        assert ids[j] == ids[..n][j];
      }
    }
  }

  /** The loans a transfer to `to` ends: those of `ids` whose lender is `to`. */
  function Returned(s: State, to: Name, ids: seq<Id>): set<Id> {
    set id | id in ids && id in s.delegates && s.delegates[id].owner == to
  }

  /** The authors of the records of `ids` in `from`'s scope. */
  function AuthorsOf(s: State, from: Name, ids: seq<Id>): set<Name> {
    set id | id in ids && (from, id) in s.sassets :: s.sassets[(from, id)].author
  }

  /** What `transfer` demands of one id in the state it starts from. */
  predicate Transferable(s: State, env: Env, from: Name, to: Name, id: Id) {
    && (from, id) in s.sassets
    && s.sassets[(from, id)].owner == from
    && id !in s.offers
    && DelegationCheck(s, env, from, to, id).Pass?
  }

  /**
   * `t` is the asset table `s` with the record of each of `ids` moved from
   * `from`'s scope to `to`'s under the same id, only its owner rewritten,
   * and every other record where it was.
   */
  ghost predicate Moved(s: map<(Name, Id), Asset>, t: map<(Name, Id), Asset>, from: Name, to: Name, ids: seq<Id>) {
    && (forall id :: id in ids ==>
          && (from, id) in s && (to, id) !in s && (from, id) !in t && (to, id) in t
          && t[(to, id)] == s[(from, id)].(owner := to))
    && (forall k: (Name, Id) :: k.1 !in ids || (k.0 != from && k.0 != to) ==>
          (k in t <==> k in s) && (k in t ==> t[k] == s[k]))
  }

  // ---------------------------------------------------------------- transfer

  /** Everything `transfer` has done to `s` once it has gone through `ids`, staged in `b`. */
  ghost predicate MovedSoFar(s: State, env: Env, from: Name, to: Name, ids: seq<Id>, b: Batch<seq<Id>>) {
    && Distinct(ids)
    && (forall id :: id in ids ==> Transferable(s, env, from, to, id))
    && Moved(s.sassets, b.state.sassets, from, to, ids)
    && b.state == s.(sassets := b.state.sassets, delegates := s.delegates - Returned(s, to, ids))
    && b.groups.Keys == AuthorsOf(s, from, ids)
  }

  /** Moving one more record, not moved before, from `from`'s scope to `to`'s. */
  lemma MovedSnoc(s: map<(Name, Id), Asset>, t: map<(Name, Id), Asset>, from: Name, to: Name, ids: seq<Id>, x: Id)
    requires from != to && Moved(s, t, from, to, ids) && x !in ids
    requires (from, x) in t && (to, x) !in t
    ensures (from, x) in s && (to, x) !in s && t[(from, x)] == s[(from, x)]
    ensures Moved(s, (t - {(from, x)})[(to, x) := t[(from, x)].(owner := to)], from, to, ids + [x])
  {
    var t' := (t - {(from, x)})[(to, x) := t[(from, x)].(owner := to)];
    forall id | id in ids + [x]
      ensures && (from, id) in s && (to, id) !in s && (from, id) !in t' && (to, id) in t'
              && t'[(to, id)] == s[(from, id)].(owner := to)
    {
      if id != x {
        assert id in ids;
      }
    }
  }

  /** A successful step of `transfer`: its checks and the state it stages. */
  lemma TransferStepUnfold(b: Batch<seq<Id>>, env: Env, from: Name, to: Name, x: Id)
    requires TransferStep(b, env, from, to, x).Ok?
    ensures Transferable(b.state, env, from, to, x)
    ensures (to, x) !in b.state.sassets - {(from, x)}
    ensures var t, b' := b.state, TransferStep(b, env, from, to, x).value;
            && b'.state.sassets == (t.sassets - {(from, x)})[(to, x) := t.sassets[(from, x)].(owner := to)]
            && b'.state.delegates == t.delegates - (if x in t.delegates && t.delegates[x].owner == to then {x} else {})
            && b'.state == t.(sassets := b'.state.sassets, delegates := b'.state.delegates)
            && b'.groups == Push(b.groups, t.sassets[(from, x)].author, x)
  {
    var t := b.state;
    assert t.delegates == t.delegates - {};
  }

  /** The loans left after one more id: the lender's loan on it ends if `to` is the lender. */
  lemma ReturnedSnoc(s: State, to: Name, ids: seq<Id>, x: Id, d: map<Id, Delegation>)
    requires x !in ids && d == s.delegates - Returned(s, to, ids)
    ensures x in d <==> x in s.delegates
    ensures x in d ==> d[x] == s.delegates[x]
    ensures d - (if x in d && d[x].owner == to then {x} else {}) == s.delegates - Returned(s, to, ids + [x])
  {
    var ret := if x in s.delegates && s.delegates[x].owner == to then {x} else {};
    assert Returned(s, to, ids + [x]) == Returned(s, to, ids) + ret;
  }

  /** The authors met after one more id. */
  lemma AuthorsSnoc(s: State, from: Name, ids: seq<Id>, x: Id, g: map<Name, seq<Id>>)
    requires (from, x) in s.sassets && g.Keys == AuthorsOf(s, from, ids)
    ensures Push(g, s.sassets[(from, x)].author, x).Keys == AuthorsOf(s, from, ids + [x])
  {
    assert AuthorsOf(s, from, ids + [x]) == AuthorsOf(s, from, ids) + {s.sassets[(from, x)].author};
  }

  /** One more id of the loop of `transfer`, given what its step checked and staged. */
  lemma TransferStepMoves(s: State, env: Env, from: Name, to: Name, ids: seq<Id>, b: Batch<seq<Id>>, x: Id,
                          b': Batch<seq<Id>>)
    requires from != to && MovedSoFar(s, env, from, to, ids, b)
    requires Transferable(b.state, env, from, to, x) && (to, x) !in b.state.sassets - {(from, x)}
    requires var t := b.state;
             && b'.state.sassets == (t.sassets - {(from, x)})[(to, x) := t.sassets[(from, x)].(owner := to)]
             && b'.state.delegates == t.delegates - (if x in t.delegates && t.delegates[x].owner == to then {x} else {})
             && b'.state == t.(sassets := b'.state.sassets, delegates := b'.state.delegates)
             && b'.groups == Push(b.groups, t.sassets[(from, x)].author, x)
    ensures MovedSoFar(s, env, from, to, ids + [x], b')
  {
    var t := b.state;
    assert x in ids ==> (from, x) !in t.sassets;
    MovedSnoc(s.sassets, t.sassets, from, to, ids, x);
    DistinctSnoc(ids + [x]);
    ReturnedSnoc(s, to, ids, x, t.delegates);
    assert DelegationCheck(t, env, from, to, x) == DelegationCheck(s, env, from, to, x);
    AuthorsSnoc(s, from, ids, x, b.groups);
  }

  /** The loop of `transfer`, by induction on the ids it has gone through. */
  lemma {:induction false} TransferFoldMoves(s: State, env: Env, from: Name, to: Name, ids: seq<Id>)
    requires from != to
    ensures var r := Fold(Batch(s, map[]), ids, TransferStepFn(env, from, to));
            r.Ok? ==> MovedSoFar(s, env, from, to, ids, r.value)
    decreases |ids|
  {
    if ids != [] {
      var n := |ids| - 1;
      var init := ids[..n];
      assert ids == init + [ids[n]];
      TransferFoldMoves(s, env, from, to, init);
      var r0 := Fold(Batch(s, map[]), init, TransferStepFn(env, from, to));
      if r0.Ok? && TransferStep(r0.value, env, from, to, ids[n]).Ok? {
        TransferStepUnfold(r0.value, env, from, to, ids[n]);
        TransferStepMoves(s, env, from, to, init, r0.value, ids[n], TransferStep(r0.value, env, from, to, ids[n]).value);
      }
    }
  }

  /**
   * A successful `transfer` checked every id and moved exactly those
   * records; it leaves offers alone, ends only the loans whose lender is
   * `to`, and draws one deferred id per distinct author.
   */
  lemma TransferMoves(s: State, env: Env, from: Name, to: Name, ids: seq<Id>, memo: string)
    ensures var r := Transfer(s, env, from, to, ids, memo);
            r.Ok? ==>
              && from != to && to in env.accounts && |memo| <= MemoLimit
              && Distinct(ids)
              && (forall id :: id in ids ==> Transferable(s, env, from, to, id))
              && Moved(s.sassets, r.value.sassets, from, to, ids)
              && r.value.offers == s.offers
              && r.value.delegates == s.delegates - Returned(s, to, ids)
              && r.value.defid == s.defid + |AuthorsOf(s, from, ids)|
              && r.value == s.(sassets := r.value.sassets, delegates := r.value.delegates,
                               defid := r.value.defid, outbox := r.value.outbox)
  {
    if from != to {
      TransferFoldMoves(s, env, from, to, ids);
    }
  }

  /**
   * The notifications of a successful `transfer`: one per distinct author
   * of the moved records, in strictly ascending order of author.
   */
  lemma TransferNotifies(s: State, env: Env, from: Name, to: Name, ids: seq<Id>, memo: string)
    ensures var r := Transfer(s, env, from, to, ids, memo);
            r.Ok? ==>
              && |r.value.outbox| == |s.outbox| + |AuthorsOf(s, from, ids)|
              && r.value.outbox[..|s.outbox|] == s.outbox
              && var sent := r.value.outbox[|s.outbox|..];
              && (forall i :: 0 <= i < |sent| ==> sent[i].author in AuthorsOf(s, from, ids))
              && (forall i, j :: 0 <= i < j < |sent| ==> sent[i].author < sent[j].author)
  {
    var r := Transfer(s, env, from, to, ids, memo);
    if r.Ok? {
      TransferFoldMoves(s, env, from, to, ids);
      var b := Fold(Batch(s, map[]), ids, TransferStepFn(env, from, to)).value;
      var note := TransferNote(from, to, memo);
      var evs := EventsOf(b.groups, note);
      assert r.value.outbox == s.outbox + evs;
      var sent := r.value.outbox[|s.outbox|..];
      assert sent == evs;
      forall i | 0 <= i < |sent|
        ensures sent[i].author in AuthorsOf(s, from, ids)
      {
        EventsOfAuthors(b.groups, note, i);
      }
      forall i, j | 0 <= i < j < |sent|
        ensures sent[i].author < sent[j].author
      {
        EventsOfOrdered(b.groups, note, i, j);
      }
    }
  }

  // ---------------------------------------------------------------- offer / canceloffer

  /** The ids of `ids`, as a set. */
  function IdSet(ids: seq<Id>): set<Id> {
    set id | id in ids
  }

  /** Without repeats, exactly when the first ones have none and the last one is new. */
  lemma DistinctSnocIff(ids: seq<Id>, x: Id)
    ensures Distinct(ids + [x]) <==> Distinct(ids) && x !in ids
  {
    var xs := ids + [x];
    assert xs[..|ids|] == ids;
    if Distinct(xs) {
      forall i, j | 0 <= i < j < |ids|
        ensures ids[i] != ids[j]
      {
        assert ids[i] == xs[i] && ids[j] == xs[j];
      }
      forall i | 0 <= i < |ids|
        ensures ids[i] != x
      {
        assert xs[i] == ids[i] && xs[|ids|] == x;
      }
    }
    if Distinct(ids) && x !in ids {
      DistinctSnoc(xs);
    }
  }

  /** What `offer` has staged after `ids`: an open offer to `newowner` on each, nothing else touched. */
  ghost predicate OfferedSoFar(s: State, env: Env, owner: Name, newowner: Name, ids: seq<Id>, t: State) {
    && Distinct(ids)
    && (forall id :: id in ids ==>
          && (owner, id) in s.sassets && id !in s.offers && id !in s.delegates
          && id in t.offers && t.offers[id] == AssetOffer(owner, newowner, env.now))
    && (forall id :: id !in ids ==> (id in t.offers <==> id in s.offers) && (id in t.offers ==> t.offers[id] == s.offers[id]))
    && t == s.(offers := t.offers)
  }

  /** The loop of `offer`, by induction on the ids it has gone through. */
  lemma {:induction false} OfferFoldOffers(s: State, env: Env, owner: Name, newowner: Name, ids: seq<Id>)
    ensures var r := Fold(s, ids, OfferStepFn(env, owner, newowner));
            r.Ok? ==> OfferedSoFar(s, env, owner, newowner, ids, r.value)
    decreases |ids|
  {
    if ids != [] {
      var n := |ids| - 1;
      var init, x := ids[..n], ids[n];
      assert ids == init + [x];
      OfferFoldOffers(s, env, owner, newowner, init);
      var r0 := Fold(s, init, OfferStepFn(env, owner, newowner));
      if r0.Ok? && OfferStep(r0.value, env, owner, newowner, x).Ok? {
        var t := r0.value;
        assert x in init ==> x in t.offers;
        DistinctSnocIff(init, x);
        assert forall id :: id in ids <==> id in init || id == x;
      }
    }
  }

  /** What `canceloffer` needs: each id once, each with an open offer by `owner`. */
  predicate Cancellable(s: State, owner: Name, ids: seq<Id>) {
    && Distinct(ids)
    && forall id :: id in ids ==> id in s.offers && s.offers[id].owner == owner
  }

  /** Cancellable ids with one more at the end. */
  lemma CancellableSnoc(s: State, owner: Name, ids: seq<Id>, x: Id)
    ensures Cancellable(s, owner, ids + [x]) <==>
              Cancellable(s, owner, ids) && x !in ids && x in s.offers && s.offers[x].owner == owner
    ensures IdSet(ids + [x]) == IdSet(ids) + {x}
  {
    DistinctSnocIff(ids, x);
    assert forall id :: id in ids + [x] <==> id in ids || id == x;
  }

  /** The loop of `canceloffer` succeeds exactly on cancellable ids, and then only erases their offers. */
  lemma {:induction false} CancelFoldErases(s: State, owner: Name, ids: seq<Id>)
    ensures Fold(s, ids, CancelOfferStepFn(owner)).Ok? <==> Cancellable(s, owner, ids)
    ensures Cancellable(s, owner, ids) ==>
              Fold(s, ids, CancelOfferStepFn(owner)) == Ok(s.(offers := s.offers - IdSet(ids)))
    decreases |ids|
  {
    if ids != [] {
      var n := |ids| - 1;
      var init, x := ids[..n], ids[n];
      assert ids == init + [x];
      CancelFoldErases(s, owner, init);
      CancellableSnoc(s, owner, init, x);
      var r := Fold(s, init, CancelOfferStepFn(owner));
      assert Fold(s, ids, CancelOfferStepFn(owner)) == if r.Err? then Err(r.msg) else CancelOfferStep(r.value, owner, x);
      if Cancellable(s, owner, init) {
        var t := s.(offers := s.offers - IdSet(init));
        assert r == Ok(t);
        assert x in t.offers <==> x in s.offers && x !in init;
        assert x in t.offers ==> t.offers[x] == s.offers[x];
        assert t.offers - {x} == s.offers - IdSet(ids);
      }
    } else {
      assert s.offers - IdSet(ids) == s.offers;
    }
  }

  /** `canceloffer` succeeds exactly when the owner signs for cancellable ids, and then only erases those offers. */
  lemma CancelOfferErases(s: State, env: Env, owner: Name, ids: seq<Id>)
    ensures CancelOffer(s, env, owner, ids).Ok? <==> owner in env.auth && Cancellable(s, owner, ids)
    ensures CancelOffer(s, env, owner, ids).Ok? ==>
              CancelOffer(s, env, owner, ids).value == s.(offers := s.offers - IdSet(ids))
  {
    CancelFoldErases(s, owner, ids);
  }

  /** `offer` followed by `canceloffer` of the same ids restores the state. */
  lemma OfferThenCancel(s: State, env: Env, owner: Name, newowner: Name, ids: seq<Id>, memo: string, env2: Env)
    requires Offer(s, env, owner, newowner, ids, memo).Ok?
    requires owner in env2.auth
    ensures CancelOffer(Offer(s, env, owner, newowner, ids, memo).value, env2, owner, ids) == Ok(s)
  {
    var t := Offer(s, env, owner, newowner, ids, memo).value;
    OfferFoldOffers(s, env, owner, newowner, ids);
    assert Cancellable(t, owner, ids);
    CancelFoldErases(t, owner, ids);
    assert t.offers - IdSet(ids) == s.offers;
  }

  // ---------------------------------------------------------------- create / claim

  /**
   * `create` mints the next id of `lnftid`: to `owner`, or with
   * `requireclaim` to `author` together with an offer to `owner`; it
   * schedules one notification. It refuses a claim the author would make to
   * itself, and on a valid ledger nothing else stops a signed creation for
   * an existing account.
   */
  lemma CreateMints(s: State, env: Env, author: Name, category: Name, owner: Name,
                    idata: string, mdata: string, requireclaim: bool)
    ensures author == owner && requireclaim ==> Create(s, env, author, category, owner, idata, mdata, requireclaim).Err?
    ensures var r := Create(s, env, author, category, owner, idata, mdata, requireclaim);
            r.Ok? ==>
              var id := s.lnftid + 1;
              var holder := if requireclaim then author else owner;
              && author in env.auth && owner in env.accounts
              && r.value.sassets == s.sassets[(holder, id) := Asset(id, holder, author, category, idata, mdata, [], [])]
              && r.value.offers == (if requireclaim then s.offers[id := AssetOffer(author, owner, env.now)] else s.offers)
              && r.value.outbox == s.outbox + [Created(author, owner, id)]
              && r.value == s.(sassets := r.value.sassets, offers := r.value.offers, lnftid := id,
                               defid := s.defid + 1, outbox := r.value.outbox)
  {
    var r := Create(s, env, author, category, owner, idata, mdata, requireclaim);
    if r.Ok? {
      var id := s.lnftid + 1;
      var holder := if requireclaim then author else owner;
      var offers := if requireclaim then s.offers[id := AssetOffer(author, owner, env.now)] else s.offers;
      var a := Asset(id, holder, author, category, idata, mdata, [], []);
      assert r.value == Emit(s.(sassets := s.sassets[(holder, id) := a], offers := offers, lnftid := id),
                             [Created(author, owner, id)]);
    }
  }

  /** On a valid ledger every `create` that passes its own checks also finds its new id free. */
  lemma CreateSucceeds(s: State, env: Env, author: Name, category: Name, owner: Name,
                       idata: string, mdata: string, requireclaim: bool)
    requires Ledger.Valid(s)
    ensures Create(s, env, author, category, owner, idata, mdata, requireclaim).Ok? <==>
              author in env.auth && owner in env.accounts && !(author == owner && requireclaim)
  {
    FreshId(s, author);
    FreshId(s, owner);
  }

  /** On a valid ledger the next id of `getid` is in no scope and has no offer. */
  lemma FreshId(s: State, o: Name)
    requires Ledger.Valid(s)
    ensures (o, s.lnftid + 1) !in s.sassets && s.lnftid + 1 !in s.offers
  {
  }

  /**
   * One id of `claim` succeeds exactly when the asset is offered to the
   * claimer and still held, in its offerer's scope, by that offerer; it
   * moves the record to the claimer, unchanged but for its owner, and
   * erases the offer.
   */
  lemma ClaimStepMoves(b: Batch<map<Id, Name>>, claimer: Name, id: Id)
    ensures var s := b.state;
            ClaimStep(b, claimer, id).Ok? <==>
              && id in s.offers && s.offers[id].offeredto == claimer
              && var from := s.offers[id].owner;
                 && (from, id) in s.sassets && s.sassets[(from, id)].owner == from
                 && (claimer, id) !in s.sassets
    ensures var s := b.state;
            ClaimStep(b, claimer, id).Ok? ==>
              var from := s.offers[id].owner;
              var t := ClaimStep(b, claimer, id).value.state;
              && (from, id) !in t.sassets && (claimer, id) in t.sassets
              && t.sassets[(claimer, id)] == s.sassets[(from, id)].(owner := claimer)
              && t.sassets - {(claimer, id)} == s.sassets - {(from, id)}
              && t.offers == s.offers - {id}
              && t == s.(sassets := t.sassets, offers := t.offers)
  {
    var s := b.state;
    if ClaimStep(b, claimer, id).Ok? {
      var from := s.offers[id].owner;
      var t := ClaimStep(b, claimer, id).value.state;
      assert from != claimer;
      assert t.sassets - {(claimer, id)} == s.sassets - {(from, id)};
    }
  }

  /** A claim of one id is that id's step, then the notifications. */
  lemma ClaimSingle(s: State, env: Env, claimer: Name, id: Id)
    requires claimer in env.auth && ClaimStep(Batch(s, map[]), claimer, id).Ok?
    ensures Claim(s, env, claimer, [id]).Ok?
    ensures Claim(s, env, claimer, [id]).value.sassets == ClaimStep(Batch(s, map[]), claimer, id).value.state.sassets
    ensures Claim(s, env, claimer, [id]).value.offers == ClaimStep(Batch(s, map[]), claimer, id).value.state.offers
  {
    FoldSingle(Batch(s, map[]), id, ClaimStepFn(claimer));
  }

  /**
   * A claim-required creation leaves the author holding record `a` with an
   * offer to `owner`; the claim of that id hands the record to `owner`.
   */
  lemma ClaimMinted(s: State, s1: State, author: Name, owner: Name, a: Asset, now: nat)
    requires author != owner && a.owner == author
    requires (owner, a.id) !in s.sassets && (author, a.id) !in s.sassets && a.id !in s.offers
    requires s1.sassets == s.sassets[(author, a.id) := a]
    requires s1.offers == s.offers[a.id := AssetOffer(author, owner, now)]
    ensures var b := ClaimStep(Batch(s1, map[]), owner, a.id);
            && b.Ok?
            && b.value.state.sassets == s.sassets[(owner, a.id) := a.(owner := owner)]
            && b.value.state.offers == s.offers
  {
    var id := a.id;
    var b := Batch(s1, map[]);
    assert s1.offers[id].owner == author;
    assert s1.sassets[(author, id)] == a;
    ClaimStepMoves(b, owner, id);
    var t := ClaimStep(b, owner, id).value.state;
    DropAdded(s.sassets, (author, id), a);
    DropAdded(s.sassets, (owner, id), a);
    Reinsert(t.sassets, s.sassets, (owner, id), a.(owner := owner));
    DropAdded(s.offers, id, AssetOffer(author, owner, now));
  }

  /**
   * On a valid ledger, a creation that requires a claim, followed by the
   * recipient's claim, leaves the asset and offer tables as a direct
   * creation to the recipient would.
   */
  lemma CreateThenClaim(s: State, env: Env, author: Name, category: Name, owner: Name,
                        idata: string, mdata: string, s1: State, env2: Env)
    requires Ledger.Valid(s)
    requires Create(s, env, author, category, owner, idata, mdata, true) == Ok(s1)
    requires owner in env2.auth
    ensures var r := Claim(s1, env2, owner, [s.lnftid + 1]);
            var direct := Create(s, env, author, category, owner, idata, mdata, false);
            && r.Ok?
            && direct.Ok?
            && r.value.sassets == direct.value.sassets
            && r.value.offers == s.offers
  {
    var id: Id := s.lnftid + 1;
    FreshId(s, author);
    FreshId(s, owner);
    CreateMints(s, env, author, category, owner, idata, mdata, true);
    ClaimMinted(s, s1, author, owner, Asset(id, author, author, category, idata, mdata, [], []), env.now);
    ClaimSingle(s1, env2, owner, id);
    CreateSucceeds(s, env, author, category, owner, idata, mdata, true);
    CreateSucceeds(s, env, author, category, owner, idata, mdata, false);
    CreateMints(s, env, author, category, owner, idata, mdata, false);
  }

  // ---------------------------------------------------------------- delegate / undelegate

  function Pow10(k: nat): nat {
    if k == 0 then 1 else 10 * Pow10(k - 1)
  }

  /** A number below 10^k is written with at most k digits. */
  lemma {:induction false} DecimalStringLength(n: nat, k: nat)
    requires 1 <= k && n < Pow10(k)
    ensures |DecimalString(n)| <= k
    decreases k
  {
    if n >= 10 {
      assert k != 1;
      DecimalStringLength(n / 10, k - 1);
    }
  }

  /** The memo `undelegate` builds for one 64-bit id fits the memo limit. */
  lemma UndelegateMemoFits(id: Id)
    requires id <= 0xFFFF_FFFF_FFFF_FFFF
    ensures |"undelegate assetid: " + DecimalString(id)| <= MemoLimit
  {
    assert Pow10(10) == 10_000_000_000;
    DecimalStringLength(id, 20);
  }

  /** `transfer` of one id: its outer checks and that id's step, whose effect it keeps. */
  lemma TransferSingle(s: State, env: Env, from: Name, to: Name, id: Id, memo: string)
    ensures Transfer(s, env, from, to, [id], memo).Ok? <==>
              from != to && to in env.accounts && |memo| <= MemoLimit && TransferStep(Batch(s, map[]), env, from, to, id).Ok?
    ensures Transfer(s, env, from, to, [id], memo).Ok? ==>
              var r := Transfer(s, env, from, to, [id], memo).value;
              var b := TransferStep(Batch(s, map[]), env, from, to, id).value;
              && r.sassets == b.state.sassets && r.delegates == b.state.delegates && r.offers == b.state.offers
  {
    FoldSingle(Batch(s, map[]), id, TransferStepFn(env, from, to));
  }

  /** A successful delegation of one asset: its checks, then the transfer to the borrower. */
  lemma DelegateUnfold(s: State, env: Env, owner: Name, to: Name, id: Id, period: nat, memo: string)
    requires Delegate(s, env, owner, to, [id], period, memo).Ok?
    ensures && owner != to && (owner, id) in s.sassets && id !in s.offers && id !in s.delegates
            && Delegate(s, env, owner, to, [id], period, memo)
                 == Transfer(s.(delegates := s.delegates[id := Delegation(owner, to, env.now, period)]),
                             env.(auth := {owner}), owner, to, [id], DelegateMemo(memo))
  {
    FoldSingle(s, id, DelegateStepFn(env, owner, to, period));
  }

  /** A successful delegation of one asset records the loan and moves the record to the borrower. */
  lemma DelegateSingle(s: State, env: Env, owner: Name, to: Name, id: Id, period: nat, memo: string)
    requires Delegate(s, env, owner, to, [id], period, memo).Ok?
    ensures var s1 := Delegate(s, env, owner, to, [id], period, memo).value;
            && owner != to
            && (owner, id) in s.sassets && s.sassets[(owner, id)].owner == owner
            && (to, id) !in s.sassets - {(owner, id)} && id !in s.offers && id !in s.delegates
            && s1.sassets == (s.sassets - {(owner, id)})[(to, id) := s.sassets[(owner, id)].(owner := to)]
            && s1.delegates == s.delegates[id := Delegation(owner, to, env.now, period)]
            && s1.offers == s.offers
  {
    DelegateUnfold(s, env, owner, to, id, period, memo);
    var sd := s.(delegates := s.delegates[id := Delegation(owner, to, env.now, period)]);
    var env' := env.(auth := {owner});
    TransferSingle(sd, env', owner, to, id, DelegateMemo(memo));
    TransferStepUnfold(Batch(sd, map[]), env', owner, to, id);
  }

  /**
   * `undelegate` of one asset held by the borrower `from` under a loan of
   * `owner`: refused while the period runs, and afterwards the record goes
   * back to the lender and the loan ends.
   */
  lemma UndelegateSingle(s: State, env: Env, owner: Name, from: Name, id: Id)
    requires owner in env.auth && from in env.accounts && owner in env.accounts && owner != from
    requires id <= 0xFFFF_FFFF_FFFF_FFFF
    requires (from, id) in s.sassets && s.sassets[(from, id)].owner == from && id !in s.offers
    requires id in s.delegates && s.delegates[id].owner == owner && s.delegates[id].delegatedto == from
    ensures !Expired(s.delegates[id], env.now) ==>
              Undelegate(s, env, owner, from, [id]) == Err(PeriodNotOver)
    ensures Expired(s.delegates[id], env.now) && (owner, id) !in s.sassets - {(from, id)} ==>
              var r := Undelegate(s, env, owner, from, [id]);
              && r.Ok?
              && r.value.sassets == (s.sassets - {(from, id)})[(owner, id) := s.sassets[(from, id)].(owner := owner)]
              && r.value.delegates == s.delegates - {id}
              && r.value.offers == s.offers
  {
    if !Expired(s.delegates[id], env.now) {
      UndelegateEarly(s, env, owner, from, id);
    } else if (owner, id) !in s.sassets - {(from, id)} {
      UndelegateMemoFits(id);
      UndelegateIsTransfer(s, env, owner, from, id);
      ReturnTransfer(s, env.(auth := {owner}), from, owner, id, "undelegate assetid: " + DecimalString(id));
    }
  }

  /** A lent asset whose period is over goes back to its lender on the lender's signature alone. */
  lemma ReturnTransfer(s: State, env: Env, from: Name, owner: Name, id: Id, memo: string)
    requires env.auth == {owner} && owner in env.accounts && owner != from && |memo| <= MemoLimit
    requires (from, id) in s.sassets && s.sassets[(from, id)].owner == from && id !in s.offers
    requires id in s.delegates && s.delegates[id].owner == owner && s.delegates[id].delegatedto == from
    requires Expired(s.delegates[id], env.now) && (owner, id) !in s.sassets - {(from, id)}
    ensures var r := Transfer(s, env, from, owner, [id], memo);
            && r.Ok?
            && r.value.sassets == (s.sassets - {(from, id)})[(owner, id) := s.sassets[(from, id)].(owner := owner)]
            && r.value.delegates == s.delegates - {id}
            && r.value.offers == s.offers
  {
    assert DelegationCheck(s, env, from, owner, id) == Pass;
    assert TransferStep(Batch(s, map[]), env, from, owner, id).Ok?;
    TransferSingle(s, env, from, owner, id, memo);
    TransferStepUnfold(Batch(s, map[]), env, from, owner, id);
  }

  /** Before its period is over, recalling one lent asset is refused. */
  lemma UndelegateEarly(s: State, env: Env, owner: Name, from: Name, id: Id)
    requires owner in env.auth && from in env.accounts
    requires (from, id) in s.sassets && s.sassets[(from, id)].owner == from
    requires id in s.delegates && s.delegates[id].owner == owner && s.delegates[id].delegatedto == from
    requires !Expired(s.delegates[id], env.now)
    ensures Undelegate(s, env, owner, from, [id]) == Err(PeriodNotOver)
  {
    FoldSingle("", id, UndelegateStepFn(s, env, owner, from));
  }

  /** Once its period is over, recalling one lent asset is a transfer back with an `undelegate` memo. */
  lemma UndelegateIsTransfer(s: State, env: Env, owner: Name, from: Name, id: Id)
    requires owner in env.auth && from in env.accounts
    requires (from, id) in s.sassets && s.sassets[(from, id)].owner == from
    requires id in s.delegates && s.delegates[id].owner == owner && s.delegates[id].delegatedto == from
    requires Expired(s.delegates[id], env.now)
    ensures Undelegate(s, env, owner, from, [id])
            == Transfer(s, env.(auth := {owner}), from, owner, [id], "undelegate assetid: " + DecimalString(id))
  {
    FoldSingle("", id, UndelegateStepFn(s, env, owner, from));
    assert "" + DecimalString(id) == DecimalString(id);
    assert UndelegateStep(s, env, owner, from, "", id) == Ok(DecimalString(id));
  }

  /**
   * A one-asset loan, then its recall: refused until the period is over,
   * and afterwards the asset, loan and offer tables are as before the loan.
   */
  lemma DelegateThenUndelegate(s: State, env: Env, owner: Name, to: Name, id: Id, period: nat, memo: string,
                                s1: State, env2: Env)
    requires Delegate(s, env, owner, to, [id], period, memo) == Ok(s1)
    requires owner in env2.auth && owner in env2.accounts && to in env2.accounts
    requires id <= 0xFFFF_FFFF_FFFF_FFFF
    ensures var r := Undelegate(s1, env2, owner, to, [id]);
            && (env2.now <= env.now + period ==> r == Err(PeriodNotOver))
            && (env.now + period < env2.now ==>
                  r.Ok? && r.value.sassets == s.sassets && r.value.delegates == s.delegates && r.value.offers == s.offers)
  {
    DelegateSingle(s, env, owner, to, id, period, memo);
    var a := s.sassets[(owner, id)];
    MoveBack(s.sassets, owner, to, id);
    assert (owner, id) !in s1.sassets - {(to, id)};
    UndelegateSingle(s1, env2, owner, to, id);
    assert s1.delegates - {id} == s.delegates;
  }

  /** Moving a record from one scope to another and back gives the table it started from. */
  lemma MoveBack(m: map<(Name, Id), Asset>, owner: Name, to: Name, id: Id)
    requires owner != to && (owner, id) in m && m[(owner, id)].owner == owner && (to, id) !in m - {(owner, id)}
    ensures var a := m[(owner, id)];
            var moved := (m - {(owner, id)})[(to, id) := a.(owner := to)];
            && moved[(to, id)] == a.(owner := to)
            && (owner, id) !in moved - {(to, id)}
            && (moved - {(to, id)})[(owner, id) := moved[(to, id)].(owner := owner)] == m
  {
    var a := m[(owner, id)];
    var moved := (m - {(owner, id)})[(to, id) := a.(owner := to)];
    assert a.(owner := to).(owner := owner) == a;
    assert moved - {(to, id)} == m - {(owner, id)};
  }

  // ---------------------------------------------------------------- attach / detach

  /** A successful `attach` of one asset: the record is appended to the container and leaves the scope. */
  lemma AttachSingle(s: State, env: Env, owner: Name, assetidc: Id, id: Id)
    requires Attach(s, env, owner, assetidc, [id]).Ok?
    ensures && (owner, assetidc) in s.sassets && (owner, id) in s.sassets && assetidc != id
            && var c := s.sassets[(owner, assetidc)];
               var c' := c.(container := c.container + [s.sassets[(owner, id)]]);
               Attach(s, env, owner, assetidc, [id]) == Ok(s.(sassets := s.sassets[(owner, assetidc) := c'] - {(owner, id)}))
  {
    FoldSingle(Nesting(s, s.sassets[(owner, assetidc)]), id, AttachStepFn(owner, assetidc));
  }

  /** The inner pass of `detach` keeps, in order, every entry that is not the one asked for. */
  lemma {:induction false} DetachKeepsOthers(m: map<(Name, Id), Asset>, es: seq<Asset>, owner: Name, id: Id)
    requires forall e :: e in es ==> e.id != id
    ensures Fold(Unpacking(m, []), es, DetachEntryFn(owner, id)) == Ok(Unpacking(m, es))
    decreases |es|
  {
    if es != [] {
      var n := |es| - 1;
      assert forall e :: e in es[..n] ==> e in es;
      DetachKeepsOthers(m, es[..n], owner, id);
      assert es[..n] + [es[n]] == es;
    }
  }

  /**
   * On a valid ledger, attaching one asset to a container and then detaching
   * it restores the state: the container cannot already embed a record of
   * that id, since every id is held once.
   */
  lemma AttachThenDetach(s: State, env: Env, owner: Name, assetidc: Id, id: Id, env2: Env)
    requires Ledger.Valid(s)
    requires Attach(s, env, owner, assetidc, [id]).Ok?
    requires owner in env2.auth
    ensures Detach(Attach(s, env, owner, assetidc, [id]).value, env2, owner, assetidc, [id]) == Ok(s)
  {
    AttachSingle(s, env, owner, assetidc, id);
    var c := s.sassets[(owner, assetidc)];
    var a := s.sassets[(owner, id)];
    assert a.id == id && a.owner == owner;
    forall e | e in c.container
      ensures e.id != id
    {
      Ledger.HeldEntry(c, e);
      assert id in Ledger.Held(a);
    }
    var c' := c.(container := c.container + [a]);
    var s1 := s.(sassets := s.sassets[(owner, assetidc) := c'] - {(owner, id)});
    FoldSingle(Nesting(s1, c'), id, DetachStepFn(owner, assetidc));
    var entry := DetachEntryFn(owner, id);
    DetachKeepsOthers(s1.sassets, c.container, owner, id);
    assert c'.container[..|c.container|] == c.container;
    assert Fold(Unpacking(s1.sassets, []), c'.container, entry)
             == DetachEntry(Unpacking(s1.sassets, c.container), owner, id, a);
    assert s1.sassets[(owner, id) := a][(owner, assetidc) := c] == s.sassets;
  }

  /** `detach` of an id the container does not embed succeeds and changes nothing. */
  lemma DetachMissing(s: State, env: Env, owner: Name, assetidc: Id, id: Id)
    requires owner in env.auth && (owner, assetidc) in s.sassets
    requires forall e :: e in s.sassets[(owner, assetidc)].container ==> e.id != id
    ensures Detach(s, env, owner, assetidc, [id]) == Ok(s)
  {
    var c := s.sassets[(owner, assetidc)];
    FoldSingle(Nesting(s, c), id, DetachStepFn(owner, assetidc));
    DetachKeepsOthers(s.sassets, c.container, owner, id);
    assert c.(container := c.container) == c;
    assert s.sassets[(owner, assetidc) := c] == s.sassets;
  }

  // ---------------------------------------------------------------- update

  /** `update` succeeds exactly for the author's signature on an existing record, and changes only its `mdata`. */
  lemma UpdateRewrites(s: State, env: Env, author: Name, owner: Name, assetid: Id, mdata: string)
    ensures Update(s, env, author, owner, assetid, mdata).Ok? <==>
              author in env.auth && (owner, assetid) in s.sassets && s.sassets[(owner, assetid)].author == author
    ensures Update(s, env, author, owner, assetid, mdata).Ok? ==>
              var t := Update(s, env, author, owner, assetid, mdata).value;
              && t == s.(sassets := t.sassets)
              && t.sassets.Keys == s.sassets.Keys
              && (forall k :: k in s.sassets && k != (owner, assetid) ==> t.sassets[k] == s.sassets[k])
              && t.sassets[(owner, assetid)].mdata == mdata
              && t.sassets[(owner, assetid)].(mdata := s.sassets[(owner, assetid)].mdata) == s.sassets[(owner, assetid)]
  {
  }

  // ---------------------------------------------------------------- burn

  /**
   * One id of `burn` succeeds exactly on a record the owner holds that is
   * neither offered nor delegated, and erases that record alone.
   */
  lemma BurnStepRemoves(b: Batch<seq<Id>>, owner: Name, id: Id)
    ensures var s := b.state;
            BurnStep(b, owner, id).Ok? <==>
              (owner, id) in s.sassets && s.sassets[(owner, id)].owner == owner && id !in s.offers && id !in s.delegates
    ensures BurnStep(b, owner, id).Ok? ==>
              var t := BurnStep(b, owner, id).value.state;
              && (owner, id) !in t.sassets
              && t.sassets == b.state.sassets - {(owner, id)}
              && t == b.state.(sassets := t.sassets)
              && var a := b.state.sassets[(owner, id)].author;
                 BurnStep(b, owner, id).value.groups == b.groups[a := (if a in b.groups then b.groups[a] else []) + [id]]
  {
  }
}
