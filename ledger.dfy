/**
 * The ledger invariant of SimpleAssets, and its preservation by every
 * action: each asset record sits in the scope of its owner, every id in
 * the asset tables has been handed out by `getid`, no asset is both
 * offered and delegated, no balance is negative, every escrowed offer
 * holds a positive amount and no supply exceeds its maximum.
 */
module Ledger {
  import opened Types
  import opened Folds
  import Nft
  import Fungible
  import Authors

  /** Every id in an asset and in the records embedded in it is at most `n`. */
  predicate Bounded(a: Asset, n: nat)
    decreases a
  {
    a.id <= n && forall e :: e in a.container ==> Bounded(e, n)
  }

  /** A bound that holds keeps holding when the counter grows. */
  lemma {:induction false} BoundedMono(a: Asset, n: nat, m: nat)
    requires Bounded(a, n) && n <= m
    ensures Bounded(a, m)
    decreases a
  {
    forall e | e in a.container
      ensures Bounded(e, m)
    {
      BoundedMono(e, n, m);
    }
  }

  // ---------------------------------------------------------------- one holder per id

  /** The ids a record holds: its own and, recursively, those of the records embedded in it. */
  ghost function Held(a: Asset): set<Id>
    decreases a, 1
  {
    {a.id} + HeldIn(a.container)
  }

  /** The ids held by a sequence of records. */
  ghost function HeldIn(es: seq<Asset>): set<Id>
    decreases es, 0
  {
    set e, x | e in es && x in Held(e) :: x
  }

  /** No two records of the sequence hold a common id. */
  ghost predicate Apart(es: seq<Asset>) {
    forall i, j :: 0 <= i < j < |es| ==> Held(es[i]) !! Held(es[j])
  }

  /** Inside one record every id is held once: not by the record and an entry, nor by two entries. */
  ghost predicate Tree(a: Asset)
    decreases a
  {
    && (forall e :: e in a.container ==> Tree(e))
    && a.id !in HeldIn(a.container)
    && Apart(a.container)
  }

  /** Across a table, no id is held by two records, and each record is a tree. */
  ghost predicate Unique(m: map<(Name, Id), Asset>) {
    && (forall k :: k in m ==> Tree(m[k]))
    && (forall k, k' :: k in m && k' in m && k != k' ==> Held(m[k]) !! Held(m[k']))
  }

  /** Holding depends only on the id and the embedded records. */
  lemma SameShape(a: Asset, b: Asset)
    requires a.id == b.id && a.container == b.container
    ensures Held(a) == Held(b) && (Tree(a) <==> Tree(b))
  {
  }

  /** An entry holds no more than its container. */
  lemma HeldEntry(a: Asset, e: Asset)
    requires e in a.container
    ensures Held(e) <= HeldIn(a.container) <= Held(a)
  {
  }

  /** The ids of a record bounded by `n` are all at most `n`. */
  lemma {:induction false} BoundedHeld(a: Asset, n: nat)
    requires Bounded(a, n)
    ensures forall x :: x in Held(a) ==> x <= n
    decreases a
  {
    forall e | e in a.container
      ensures forall x :: x in Held(e) ==> x <= n
    {
      BoundedHeld(e, n);
    }
    forall x | x in Held(a)
      ensures x <= n
    {
      if x != a.id {
        assert x in HeldIn(a.container);
        var e :| e in a.container && x in Held(e);
      }
    }
  }

  /** Appending a record adds exactly its ids. */
  lemma HeldInAppend(es: seq<Asset>, a: Asset)
    ensures HeldIn(es + [a]) == HeldIn(es) + Held(a)
  {
    forall x | x in HeldIn(es + [a])
      ensures x in HeldIn(es) + Held(a)
    {
      var e :| e in es + [a] && x in Held(e);
    }
    forall x | x in HeldIn(es)
      ensures x in HeldIn(es + [a])
    {
      var e :| e in es && x in Held(e);
      assert e in es + [a];
    }
    assert a in es + [a];
  }

  /** Each record of a sequence holds no more than the sequence. */
  lemma HeldInElement(es: seq<Asset>, i: nat)
    requires i < |es|
    ensures Held(es[i]) <= HeldIn(es)
  {
  }

  /** A record that shares no id with a sequence of records apart keeps them apart when appended. */
  lemma ApartAppend(es: seq<Asset>, a: Asset)
    requires Apart(es) && HeldIn(es) !! Held(a)
    ensures Apart(es + [a])
  {
    forall i, j | 0 <= i < j < |es + [a]|
      ensures Held((es + [a])[i]) !! Held((es + [a])[j])
    {
      if j == |es| {
        HeldInElement(es, i);
      }
    }
  }

  /** The last record of a sequence apart shares no id with those before it. */
  lemma ApartLast(es: seq<Asset>)
    requires Apart(es) && es != []
    ensures var n := |es| - 1; Apart(es[..n]) && HeldIn(es[..n]) !! Held(es[n])
  {
    var n := |es| - 1;
    forall x | x in HeldIn(es[..n])
      ensures x !in Held(es[n])
    {
      var e :| e in es[..n] && x in Held(e);
      var i :| 0 <= i < n && es[..n][i] == e;
    }
  }

  /** A record put at a key, holding no id of any other key, keeps the table unique. */
  lemma UniqueSet(m: map<(Name, Id), Asset>, k: (Name, Id), v: Asset)
    requires Unique(m) && Tree(v)
    requires forall k' :: k' in m && k' != k ==> Held(v) !! Held(m[k'])
    ensures Unique(m[k := v])
  {
    var m' := m[k := v];
    forall a, b | a in m' && b in m' && a != b
      ensures Held(m'[a]) !! Held(m'[b])
    {
      if a != k && b != k {
        assert m'[a] == m[a] && m'[b] == m[b];
      }
    }
  }

  /** Dropping a record keeps the table unique. */
  lemma UniqueRemove(m: map<(Name, Id), Asset>, k: (Name, Id))
    requires Unique(m)
    ensures Unique(m - {k})
  {
    var m' := m - {k};
    forall a, b | a in m' && b in m' && a != b
      ensures Held(m'[a]) !! Held(m'[b])
    {
      assert m'[a] == m[a] && m'[b] == m[b];
    }
  }

  /** A record rewritten without gaining ids keeps the table unique. */
  lemma UniqueReplace(m: map<(Name, Id), Asset>, k: (Name, Id), v: Asset)
    requires Unique(m) && k in m && Tree(v) && Held(v) <= Held(m[k])
    ensures Unique(m[k := v])
  {
    forall k' | k' in m && k' != k
      ensures Held(v) !! Held(m[k'])
    {
      assert Held(m[k]) !! Held(m[k']);
    }
    UniqueSet(m, k, v);
  }

  /** A record moved to a free key, without gaining ids, keeps the table unique. */
  lemma UniqueMove(m: map<(Name, Id), Asset>, k: (Name, Id), k2: (Name, Id), v: Asset)
    requires Unique(m) && k in m && Tree(v) && Held(v) <= Held(m[k]) && k2 !in m - {k}
    ensures Unique((m - {k})[k2 := v])
  {
    var m1 := m - {k};
    UniqueRemove(m, k);
    forall k' | k' in m1 && k' != k2
      ensures Held(v) !! Held(m1[k'])
    {
      assert m1[k'] == m[k'] && Held(m[k]) !! Held(m[k']);
    }
    UniqueSet(m1, k2, v);
  }

  /** A new record whose ids no record holds keeps the table unique. */
  lemma UniqueAdd(m: map<(Name, Id), Asset>, k: (Name, Id), v: Asset)
    requires Unique(m) && k !in m && Tree(v)
    requires forall k' :: k' in m ==> Held(v) !! Held(m[k'])
    ensures Unique(m[k := v])
  {
    UniqueSet(m, k, v);
  }

  /** Two records merged into the place of the first keep the table unique. */
  lemma UniqueMerge(m: map<(Name, Id), Asset>, kc: (Name, Id), ka: (Name, Id), v: Asset)
    requires Unique(m) && kc in m && ka in m && kc != ka && Tree(v) && Held(v) <= Held(m[kc]) + Held(m[ka])
    ensures Unique(m[kc := v] - {ka})
  {
    var m1 := m - {ka};
    UniqueRemove(m, ka);
    forall k' | k' in m1 && k' != kc
      ensures Held(v) !! Held(m1[k'])
    {
      assert m1[k'] == m[k'] && Held(m[kc]) !! Held(m[k']) && Held(m[ka]) !! Held(m[k']);
    }
    UniqueSet(m1, kc, v);
    assert m[kc := v] - {ka} == m1[kc := v];
  }

  /** A record split in two, one part staying and one at a free key, keeps the table unique. */
  lemma UniqueSplit(m: map<(Name, Id), Asset>, kc: (Name, Id), ke: (Name, Id), v: Asset, w: Asset)
    requires Unique(m) && kc in m && ke !in m && Tree(v) && Tree(w)
    requires Held(v) !! Held(w) && Held(v) + Held(w) <= Held(m[kc])
    ensures Unique(m[ke := w][kc := v])
  {
    var m1 := m[kc := v];
    UniqueReplace(m, kc, v);
    forall k' | k' in m1 && k' != ke
      ensures Held(w) !! Held(m1[k'])
    {
      if k' != kc {
        assert Held(m[kc]) !! Held(m[k']);
      }
    }
    UniqueSet(m1, ke, w);
    UpdatesCommute(m, kc, ke, v, w);
  }

  /** Updates at two different keys can be made in either order. */
  lemma UpdatesCommute(m: map<(Name, Id), Asset>, a: (Name, Id), b: (Name, Id), x: Asset, y: Asset)
    requires a != b
    ensures m[a := x][b := y] == m[b := y][a := x]
  {
  }

  /** Each record is in the scope of its owner, under its own issued id. */
  predicate ScopesValid(s: State) {
    forall k :: k in s.sassets ==>
      && k.1 <= s.lnftid && s.sassets[k].id == k.1 && s.sassets[k].owner == k.0
      && Bounded(s.sassets[k], s.lnftid)
  }

  /** Offers and loans are on issued ids, and no asset is both offered and delegated. */
  predicate ClaimsValid(s: State) {
    && (forall id :: id in s.offers ==> id <= s.lnftid && id !in s.delegates)
    && (forall id :: id in s.delegates ==> id <= s.lnftid)
  }

  /** Balances lie in 0 .. MaxAmount, each escrowed offer holds a positive amount in range, no supply exceeds its maximum. */
  predicate TokensValid(s: State) {
    && (forall k :: k in s.accounts ==> 0 <= s.accounts[k].balance.amount <= MaxAmount)
    && (forall id :: id in s.offerfs ==> 0 < s.offerfs[id].quantity.amount <= MaxAmount)
    && (forall k :: k in s.stats ==> s.stats[k].supply.amount <= s.stats[k].maxSupply.amount)
  }

  /** Every id is held once: by one record at the top of one scope, or embedded once in one container. */
  ghost predicate HoldersValid(s: State) {
    Unique(s.sassets)
  }

  ghost predicate Valid(s: State) {
    ScopesValid(s) && ClaimsValid(s) && TokensValid(s) && HoldersValid(s)
  }

  /** The freshly deployed contract is valid. */
  lemma InitialValid()
    ensures Valid(State(map[], map[], map[], map[], map[], map[], map[], 0, 0, []))
  {
  }

  /** Raising `lnftid` keeps the asset tables valid. */
  lemma RaiseKeepsValid(s: State, n: nat)
    requires Valid(s) && s.lnftid <= n
    ensures Valid(s.(lnftid := n))
  {
    forall k | k in s.sassets
      ensures Bounded(s.sassets[k], n)
    {
      BoundedMono(s.sassets[k], s.lnftid, n);
    }
  }

  /** Non-negative balances in place of the old ones keep the ledger valid. */
  lemma WithAccounts(s: State, accounts: map<(Name, Id), Account>)
    requires Valid(s)
    requires forall k :: k in accounts ==> 0 <= accounts[k].balance.amount <= MaxAmount
    ensures Valid(s.(accounts := accounts))
  {
  }

  // ---------------------------------------------------------------- non-fungible actions

  lemma CreateKeepsValid(s: State, env: Env, author: Name, category: Name, owner: Name,
                         idata: string, mdata: string, requireclaim: bool)
    requires Valid(s)
    ensures var r := Nft.Create(s, env, author, category, owner, idata, mdata, requireclaim);
            r.Ok? ==> Valid(r.value)
  {
    var r := Nft.Create(s, env, author, category, owner, idata, mdata, requireclaim);
    if r.Ok? {
      var id := s.lnftid + 1;
      var holder := if requireclaim then author else owner;
      var a := Asset(id, holder, author, category, idata, mdata, [], []);
      var offers := if requireclaim then s.offers[id := AssetOffer(author, owner, env.now)] else s.offers;
      var t := s.(sassets := s.sassets[(holder, id) := a], offers := offers, lnftid := id);
      assert r.value == Emit(t, [Created(author, owner, id)]);
      MintKeepsValid(s, a, offers);
    }
  }

  /** Issuing the next id as a fresh record with nothing embedded keeps the ledger valid. */
  lemma MintKeepsValid(s: State, a: Asset, offers: map<Id, AssetOffer>)
    requires Valid(s) && a.id == s.lnftid + 1 && a.container == [] && (a.owner, a.id) !in s.sassets
    requires forall id :: id in offers ==> id <= a.id && id !in s.delegates
    ensures Valid(s.(sassets := s.sassets[(a.owner, a.id) := a], offers := offers, lnftid := a.id))
  {
    RaiseKeepsValid(s, a.id);
    assert Bounded(a, a.id);
    MintKeepsUnique(s.sassets, s.lnftid, (a.owner, a.id), a);
  }

  /** A record with no embedded records, under an id above every id in the table, keeps the table unique. */
  lemma MintKeepsUnique(m: map<(Name, Id), Asset>, n: nat, k: (Name, Id), a: Asset)
    requires Unique(m) && k !in m && a.container == [] && n < a.id
    requires forall k' :: k' in m ==> Bounded(m[k'], n)
    ensures Unique(m[k := a])
  {
    assert Held(a) == {a.id};
    forall k' | k' in m
      ensures Held(a) !! Held(m[k'])
    {
      BoundedHeld(m[k'], n);
    }
    UniqueAdd(m, k, a);
  }

  lemma UpdateKeepsValid(s: State, env: Env, author: Name, owner: Name, assetid: Id, mdata: string)
    requires Valid(s)
    ensures var r := Nft.Update(s, env, author, owner, assetid, mdata); r.Ok? ==> Valid(r.value)
  {
    if Nft.Update(s, env, author, owner, assetid, mdata).Ok? {
      var a := s.sassets[(owner, assetid)];
      assert Bounded(a.(mdata := mdata), s.lnftid);
      SameShape(a, a.(mdata := mdata));
      UniqueReplace(s.sassets, (owner, assetid), a.(mdata := mdata));
    }
  }

  lemma TransferStepKeepsValid(b: Nft.Batch<seq<Id>>, env: Env, from: Name, to: Name, id: Id)
    requires Valid(b.state)
    ensures var r := Nft.TransferStep(b, env, from, to, id); r.Ok? ==> Valid(r.value.state)
  {
    if Nft.TransferStep(b, env, from, to, id).Ok? {
      var s := b.state;
      RehomeKeepsValid(s, (from, id), to);
    }
  }

  /** A record moved to another owner's scope, under the same id, keeps the ledger valid. */
  lemma RehomeKeepsValid(s: State, k: (Name, Id), to: Name)
    requires Valid(s) && k in s.sassets && (to, k.1) !in s.sassets - {k}
    ensures Valid(s.(sassets := (s.sassets - {k})[(to, k.1) := s.sassets[k].(owner := to)]))
  {
    var a := s.sassets[k];
    SameShape(a, a.(owner := to));
    assert Bounded(a.(owner := to), s.lnftid);
    UniqueMove(s.sassets, k, (to, k.1), a.(owner := to));
  }

  lemma TransferKeepsValid(s: State, env: Env, from: Name, to: Name, ids: seq<Id>, memo: string)
    requires Valid(s)
    ensures var r := Nft.Transfer(s, env, from, to, ids, memo); r.Ok? ==> Valid(r.value)
  {
    var inv := (b: Nft.Batch<seq<Id>>) => Valid(b.state);
    var step := Nft.TransferStepFn(env, from, to);
    forall q, x | x in ids && inv(q) && step(q, x).Ok?
      ensures inv(step(q, x).value)
    {
      TransferStepKeepsValid(q, env, from, to, x);
    }
    FoldPreserves(Nft.Batch(s, map[]), ids, step, inv);
  }

  lemma OfferKeepsValid(s: State, env: Env, owner: Name, newowner: Name, ids: seq<Id>, memo: string)
    requires Valid(s)
    ensures var r := Nft.Offer(s, env, owner, newowner, ids, memo); r.Ok? ==> Valid(r.value)
  {
    var step := Nft.OfferStepFn(env, owner, newowner);
    forall q, x | x in ids && Valid(q) && step(q, x).Ok?
      ensures Valid(step(q, x).value)
    {
    }
    FoldPreserves(s, ids, step, Valid);
  }

  lemma CancelOfferKeepsValid(s: State, env: Env, owner: Name, ids: seq<Id>)
    requires Valid(s)
    ensures var r := Nft.CancelOffer(s, env, owner, ids); r.Ok? ==> Valid(r.value)
  {
    var step := Nft.CancelOfferStepFn(owner);
    forall q, x | x in ids && Valid(q) && step(q, x).Ok?
      ensures Valid(step(q, x).value)
    {
      assert step(q, x).value == q.(offers := q.offers - {x});
      FewerOffers(q, q.offers - {x});
    }
    FoldPreserves(s, ids, step, Valid);
  }

  /** Dropping offers keeps the ledger valid. */
  lemma FewerOffers(s: State, offers: map<Id, AssetOffer>)
    requires Valid(s) && offers.Keys <= s.offers.Keys
    ensures Valid(s.(offers := offers))
  {
  }

  lemma ClaimStepKeepsValid(b: Nft.Batch<map<Id, Name>>, claimer: Name, id: Id)
    requires Valid(b.state)
    ensures var r := Nft.ClaimStep(b, claimer, id); r.Ok? ==> Valid(r.value.state)
  {
    if Nft.ClaimStep(b, claimer, id).Ok? {
      var s := b.state;
      var o := s.offers[id];
      var k := (o.owner, id);
      RehomeKeepsValid(s, k, claimer);
      assert s.sassets[(claimer, id) := s.sassets[k].(owner := claimer)] - {k}
          == (s.sassets - {k})[(claimer, id) := s.sassets[k].(owner := claimer)];
    }
  }

  lemma ClaimKeepsValid(s: State, env: Env, claimer: Name, ids: seq<Id>)
    requires Valid(s)
    ensures var r := Nft.Claim(s, env, claimer, ids); r.Ok? ==> Valid(r.value)
  {
    var inv := (b: Nft.Batch<map<Id, Name>>) => Valid(b.state);
    var step := Nft.ClaimStepFn(claimer);
    forall q, x | x in ids && inv(q) && step(q, x).Ok?
      ensures inv(step(q, x).value)
    {
      ClaimStepKeepsValid(q, claimer, x);
    }
    FoldPreserves(Nft.Batch(s, map[]), ids, step, inv);
  }

  lemma BurnStepKeepsValid(b: Nft.Batch<seq<Id>>, owner: Name, id: Id)
    requires Valid(b.state)
    ensures var r := Nft.BurnStep(b, owner, id); r.Ok? ==> Valid(r.value.state)
  {
    if Nft.BurnStep(b, owner, id).Ok? {
      assert Nft.BurnStep(b, owner, id).value.state == b.state.(sassets := b.state.sassets - {(owner, id)});
    }
  }

  lemma BurnKeepsValid(s: State, env: Env, owner: Name, ids: seq<Id>, memo: string)
    requires Valid(s)
    ensures var r := Nft.Burn(s, env, owner, ids, memo); r.Ok? ==> Valid(r.value)
  {
    var inv := (b: Nft.Batch<seq<Id>>) => Valid(b.state);
    var step := Nft.BurnStepFn(owner);
    forall q, x | x in ids && inv(q) && step(q, x).Ok?
      ensures inv(step(q, x).value)
    {
      BurnStepKeepsValid(q, owner, x);
    }
    FoldPreserves(Nft.Batch(s, map[]), ids, step, inv);
  }

  lemma DelegateKeepsValid(s: State, env: Env, owner: Name, to: Name, ids: seq<Id>, period: nat, memo: string)
    requires Valid(s)
    ensures var r := Nft.Delegate(s, env, owner, to, ids, period, memo); r.Ok? ==> Valid(r.value)
  {
    var step := Nft.DelegateStepFn(env, owner, to, period);
    forall q, x | x in ids && Valid(q) && step(q, x).Ok?
      ensures Valid(step(q, x).value)
    {
    }
    FoldPreserves(s, ids, step, Valid);
    var s1 := Fold(s, ids, step);
    if s1.Ok? {
      TransferKeepsValid(s1.value, env.(auth := {owner}), owner, to, ids, Nft.DelegateMemo(memo));
    }
  }

  lemma UndelegateKeepsValid(s: State, env: Env, owner: Name, from: Name, ids: seq<Id>)
    requires Valid(s)
    ensures var r := Nft.Undelegate(s, env, owner, from, ids); r.Ok? ==> Valid(r.value)
  {
    var idlist := Fold("", ids, Nft.UndelegateStepFn(s, env, owner, from));
    if idlist.Ok? {
      TransferKeepsValid(s, env.(auth := {owner}), from, owner, ids, "undelegate assetid: " + idlist.value);
    }
  }

  /** The staged state of `attach`/`detach` is valid and its container is the record in the table. */
  ghost predicate NestingValid(p: Nft.Nesting, owner: Name, assetidc: Id) {
    Valid(p.state) && (owner, assetidc) in p.state.sassets && p.state.sassets[(owner, assetidc)] == p.container
  }

  lemma AttachStepKeepsValid(p: Nft.Nesting, owner: Name, assetidc: Id, id: Id)
    requires NestingValid(p, owner, assetidc)
    ensures var r := Nft.AttachStep(p, owner, assetidc, id); r.Ok? ==> NestingValid(r.value, owner, assetidc)
  {
    if Nft.AttachStep(p, owner, assetidc, id).Ok? {
      var s := p.state;
      var a := s.sassets[(owner, id)];
      var c := p.container.(container := p.container.container + [a]);
      assert Bounded(c, s.lnftid);
      AppendKeepsUnique(s.sassets, (owner, assetidc), (owner, id));
      var t := Nft.AttachStep(p, owner, assetidc, id).value.state;
      assert t == s.(sassets := s.sassets[(owner, assetidc) := c] - {(owner, id)});
      assert HoldersValid(t);
    }
  }

  /** Appending one record of the table to another's container, and erasing it from the table, keeps the table unique. */
  lemma AppendKeepsUnique(m: map<(Name, Id), Asset>, kc: (Name, Id), ka: (Name, Id))
    requires Unique(m) && kc in m && ka in m && kc != ka
    ensures var c := m[kc];
            Unique(m[kc := c.(container := c.container + [m[ka]])] - {ka})
  {
    var c := m[kc];
    var a := m[ka];
    var c' := c.(container := c.container + [a]);
    assert Held(c) !! Held(a);
    HeldInAppend(c.container, a);
    assert HeldIn(c.container) <= Held(c);
    ApartAppend(c.container, a);
    assert Tree(c');
    assert Held(c') == Held(c) + Held(a);
    UniqueMerge(m, kc, ka, c');
  }

  lemma AttachKeepsValid(s: State, env: Env, owner: Name, assetidc: Id, ids: seq<Id>)
    requires Valid(s)
    ensures var r := Nft.Attach(s, env, owner, assetidc, ids); r.Ok? ==> Valid(r.value)
  {
    if (owner, assetidc) in s.sassets {
      var inv := (p: Nft.Nesting) => NestingValid(p, owner, assetidc);
      var step := Nft.AttachStepFn(owner, assetidc);
      forall q, x | x in ids && inv(q) && step(q, x).Ok?
        ensures inv(step(q, x).value)
      {
        AttachStepKeepsValid(q, owner, assetidc, x);
      }
      FoldPreserves(Nft.Nesting(s, s.sassets[(owner, assetidc)]), ids, step, inv);
    }
  }

  /** What the inner pass of `detach` keeps: a valid asset table and only entries of the container. */
  ghost predicate UnpackingValid(u: Nft.Unpacking, owner: Name, assetidc: Id, c: Asset, n: nat) {
    && (owner, assetidc) in u.sassets
    && (forall k :: k in u.sassets ==>
          k.1 <= n && u.sassets[k].id == k.1 && u.sassets[k].owner == k.0 && Bounded(u.sassets[k], n))
    && (forall e :: e in u.kept ==> e in c.container)
  }

  lemma DetachEntryKeepsValid(u: Nft.Unpacking, owner: Name, assetidc: Id, c: Asset, n: nat, id: Id, e: Asset)
    requires UnpackingValid(u, owner, assetidc, c, n) && Bounded(c, n) && e in c.container
    ensures var r := Nft.DetachEntry(u, owner, id, e); r.Ok? ==> UnpackingValid(r.value, owner, assetidc, c, n)
  {
    assert Bounded(e, n);
    assert Bounded(e.(owner := owner), n);
  }

  /**
   * What the inner pass of `detach` over `es` has left: the kept entries are
   * entries of `es` and stay apart; when an entry of `id` was `found`, it
   * alone left the container for the free key `(owner, id)` with all the ids
   * it holds, and otherwise the table is untouched.
   */
  ghost predicate Passed(m: map<(Name, Id), Asset>, es: seq<Asset>, owner: Name, id: Id,
                         u: Nft.Unpacking, found: bool, e: Asset) {
    && Apart(u.kept)
    && (forall x :: x in u.kept ==> x in es)
    && (!found ==> u.sassets == m && HeldIn(u.kept) == HeldIn(es))
    && (found ==> && e in es && e.id == id && (owner, id) !in m
                  && u.sassets == m[(owner, id) := e.(owner := owner)]
                  && Held(e) !! HeldIn(u.kept)
                  && HeldIn(u.kept) + Held(e) == HeldIn(es))
  }

  /** One more entry of the inner pass of `detach`. */
  lemma PassedNext(m: map<(Name, Id), Asset>, init: seq<Asset>, x: Asset, owner: Name, id: Id,
                   u: Nft.Unpacking, found0: bool, e0: Asset)
      returns (found: bool, e: Asset)
    requires Passed(m, init, owner, id, u, found0, e0)
    requires HeldIn(init) !! Held(x)
    ensures var r := Nft.DetachEntry(u, owner, id, x);
            r.Ok? ==> Passed(m, init + [x], owner, id, r.value, found, e)
  {
    found, e := found0, e0;
    HeldInAppend(init, x);
    if found0 {
      assert Held(e0) <= HeldIn(init);
    }
    if x.id != id {
      assert HeldIn(u.kept) <= HeldIn(init);
      ApartAppend(u.kept, x);
      HeldInAppend(u.kept, x);
    } else if !found0 && (owner, id) !in m {
      found, e := true, x;
    }
  }

  /** The inner pass of `detach` over entries apart ends as `Passed` says. */
  lemma {:induction false} DetachPass(m: map<(Name, Id), Asset>, es: seq<Asset>, owner: Name, id: Id)
      returns (found: bool, e: Asset)
    requires Apart(es)
    ensures var r := Fold(Nft.Unpacking(m, []), es, Nft.DetachEntryFn(owner, id));
            r.Ok? ==> Passed(m, es, owner, id, r.value, found, e)
    decreases |es|
  {
    var entry := Nft.DetachEntryFn(owner, id);
    found, e := false, Asset(0, owner, owner, owner, [], [], [], []);
    if es != [] {
      var n := |es| - 1;
      var init, x := es[..n], es[n];
      assert init + [x] == es;
      ApartLast(es);
      var found0, e0 := DetachPass(m, init, owner, id);
      var r0 := Fold(Nft.Unpacking(m, []), init, entry);
      if r0.Ok? {
        assert Fold(Nft.Unpacking(m, []), es, entry) == Nft.DetachEntry(r0.value, owner, id, x);
        found, e := PassedNext(m, init, x, owner, id, r0.value, found0, e0);
      }
    }
  }

  /** One id of `detach` keeps every id held once. */
  lemma DetachStepKeepsUnique(p: Nft.Nesting, owner: Name, assetidc: Id, id: Id)
    requires Unique(p.state.sassets) && (owner, assetidc) in p.state.sassets
    requires p.state.sassets[(owner, assetidc)] == p.container
    ensures var r := Nft.DetachStep(p, owner, assetidc, id); r.Ok? ==> Unique(r.value.state.sassets)
  {
    var m := p.state.sassets;
    var kc := (owner, assetidc);
    var c := p.container;
    var found, e := DetachPass(m, c.container, owner, id);
    var u := Fold(Nft.Unpacking(m, []), c.container, Nft.DetachEntryFn(owner, id));
    if u.Ok? {
      PassedKeepsUnique(m, kc, owner, id, u.value, found, e);
    }
  }

  /** The table left by a finished inner pass, with the container's new entries, is unique. */
  lemma PassedKeepsUnique(m: map<(Name, Id), Asset>, kc: (Name, Id), owner: Name, id: Id,
                          u: Nft.Unpacking, found: bool, e: Asset)
    requires Unique(m) && kc in m && Passed(m, m[kc].container, owner, id, u, found, e)
    ensures Unique(u.sassets[kc := m[kc].(container := u.kept)])
  {
    var c := m[kc];
    var c' := c.(container := u.kept);
    assert Tree(c);
    assert HeldIn(u.kept) <= HeldIn(c.container);
    assert Tree(c');
    if found {
      var e' := e.(owner := owner);
      SameShape(e, e');
      HeldEntry(c, e);
      assert Held(c') !! Held(e');
      UniqueSplit(m, kc, (owner, id), c', e');
    } else {
      UniqueReplace(m, kc, c');
    }
  }

  lemma DetachStepKeepsValid(p: Nft.Nesting, owner: Name, assetidc: Id, id: Id)
    requires NestingValid(p, owner, assetidc)
    ensures var r := Nft.DetachStep(p, owner, assetidc, id); r.Ok? ==> NestingValid(r.value, owner, assetidc)
  {
    var s := p.state;
    var c := p.container;
    var n := s.lnftid;
    var start := Nft.Unpacking(s.sassets, []);
    var entry := Nft.DetachEntryFn(owner, id);
    var inv := (u: Nft.Unpacking) => UnpackingValid(u, owner, assetidc, c, n);
    assert Bounded(c, n);
    forall q, x | x in c.container && inv(q) && entry(q, x).Ok?
      ensures inv(entry(q, x).value)
    {
      DetachEntryKeepsValid(q, owner, assetidc, c, n, id, x);
    }
    FoldPreserves(start, c.container, entry, inv);
    var u := Fold(start, c.container, entry);
    if u.Ok? {
      var c' := c.(container := u.value.kept);
      assert Bounded(c', n);
      DetachStepKeepsUnique(p, owner, assetidc, id);
    }
  }

  lemma DetachKeepsValid(s: State, env: Env, owner: Name, assetidc: Id, ids: seq<Id>)
    requires Valid(s)
    ensures var r := Nft.Detach(s, env, owner, assetidc, ids); r.Ok? ==> Valid(r.value)
  {
    if (owner, assetidc) in s.sassets {
      var inv := (p: Nft.Nesting) => NestingValid(p, owner, assetidc);
      var step := Nft.DetachStepFn(owner, assetidc);
      forall q, x | x in ids && inv(q) && step(q, x).Ok?
        ensures inv(step(q, x).value)
      {
        DetachStepKeepsValid(q, owner, assetidc, x);
      }
      FoldPreserves(Nft.Nesting(s, s.sassets[(owner, assetidc)]), ids, step, inv);
    }
  }

  // ---------------------------------------------------------------- authors

  lemma RegAuthorKeepsValid(s: State, env: Env, author: Name, data: string, stemplate: string)
    requires Valid(s)
    ensures var r := Authors.RegAuthor(s, env, author, data, stemplate); r.Ok? ==> Valid(r.value)
  {
  }

  lemma AuthorUpdateKeepsValid(s: State, env: Env, author: Name, data: string, stemplate: string)
    requires Valid(s)
    ensures var r := Authors.AuthorUpdate(s, env, author, data, stemplate); r.Ok? ==> Valid(r.value)
  {
    var r := Authors.AuthorUpdate(s, env, author, data, stemplate);
    if r.Ok? {
      assert r.value == s.(authors := r.value.authors);
      WithAuthors(s, r.value.authors);
    }
  }

  /** The author registry takes no part in validity. */
  lemma WithAuthors(s: State, authors: map<Name, Profile>)
    requires Valid(s)
    ensures Valid(s.(authors := authors))
  {
  }

  // ---------------------------------------------------------------- fungible actions

  lemma SubBalanceKeepsValid(s: State, owner: Name, author: Name, value: Quantity)
    requires Valid(s)
    ensures var r := Fungible.SubBalance(s, owner, author, value); r.Ok? ==> Valid(r.value)
  {
  }

  lemma AddBalanceKeepsValid(s: State, owner: Name, author: Name, value: Quantity)
    requires Valid(s) && 0 <= value.amount <= MaxAmount
    ensures var r := Fungible.AddBalance(s, owner, author, value); r.Ok? ==> Valid(r.value)
  {
    var r := Fungible.AddBalance(s, owner, author, value);
    if r.Ok? {
      var ftid := s.stats[(author, value.sym.code)].id;
      var key := (owner, ftid);
      var accounts;
      if key !in s.accounts {
        accounts := s.accounts[key := Account(ftid, author, value)];
      } else {
        var row := s.accounts[key];
        accounts := s.accounts[key := row.(balance := AddQ(row.balance, value).value)];
      }
      assert r.value == s.(accounts := accounts);
      WithAccounts(s, accounts);
    }
  }

  lemma CreateFKeepsValid(s: State, env: Env, author: Name, maximumSupply: Quantity, authorctrl: bool, data: string)
    requires Valid(s)
    ensures var r := Fungible.CreateF(s, env, author, maximumSupply, authorctrl, data); r.Ok? ==> Valid(r.value)
  {
    if Fungible.CreateF(s, env, author, maximumSupply, authorctrl, data).Ok? {
      RaiseKeepsValid(s, s.lnftid + 1);
    }
  }

  lemma UpdateFKeepsValid(s: State, env: Env, author: Name, sym: Symbol, data: string)
    requires Valid(s)
    ensures var r := Fungible.UpdateF(s, env, author, sym, data); r.Ok? ==> Valid(r.value)
  {
  }

  lemma TransferFKeepsValid(s: State, env: Env, from: Name, to: Name, author: Name, quantity: Quantity, memo: string)
    requires Valid(s)
    ensures var r := Fungible.TransferF(s, env, from, to, author, quantity, memo); r.Ok? ==> Valid(r.value)
  {
    SubBalanceKeepsValid(s, from, author, quantity);
    var s1 := Fungible.SubBalance(s, from, author, quantity);
    if s1.Ok? && 0 < quantity.amount <= MaxAmount {
      AddBalanceKeepsValid(s1.value, to, author, quantity);
    }
  }

  lemma IssueFKeepsValid(s: State, env: Env, to: Name, author: Name, quantity: Quantity, memo: string)
    requires Valid(s)
    ensures var r := Fungible.IssueF(s, env, to, author, quantity, memo); r.Ok? ==> Valid(r.value)
  {
    var r := Fungible.IssueF(s, env, to, author, quantity, memo);
    if r.Ok? {
      var st := s.stats[(author, quantity.sym.code)];
      var supply := AddQ(st.supply, quantity).value;
      var s1 := s.(stats := s.stats[(author, quantity.sym.code) := st.(supply := supply)]);
      assert Valid(s1);
      AddBalanceKeepsValid(s1, st.issuer, author, quantity);
      var s2 := Fungible.AddBalance(s1, st.issuer, author, quantity).value;
      TransferFKeepsValid(s2, env.(auth := {st.issuer}), st.issuer, to, author, quantity, memo);
    }
  }

  lemma BurnFKeepsValid(s: State, env: Env, from: Name, author: Name, quantity: Quantity, memo: string)
    requires Valid(s)
    ensures var r := Fungible.BurnF(s, env, from, author, quantity, memo); r.Ok? ==> Valid(r.value)
  {
    var r := Fungible.BurnF(s, env, from, author, quantity, memo);
    if r.Ok? {
      var st := s.stats[(author, quantity.sym.code)];
      var supply := SubQ(st.supply, quantity).value;
      var s1 := s.(stats := s.stats[(author, quantity.sym.code) := st.(supply := supply)]);
      assert Valid(s1);
      SubBalanceKeepsValid(s1, from, author, quantity);
    }
  }

  lemma OfferFKeepsValid(s: State, env: Env, owner: Name, newowner: Name, author: Name, quantity: Quantity, memo: string)
    requires Valid(s)
    ensures var r := Fungible.OfferF(s, env, owner, newowner, author, quantity, memo); r.Ok? ==> Valid(r.value)
  {
    var r := Fungible.OfferF(s, env, owner, newowner, author, quantity, memo);
    if r.Ok? {
      Fungible.OfferFUnfold(s, env, owner, newowner, author, quantity, memo);
      var id := s.defid + 1;
      var s1 := s.(offerfs := s.offerfs[id := TokenOffer(author, quantity, owner, newowner, env.now)], defid := id);
      assert TokensValid(s1);
      SubBalanceKeepsValid(s1, owner, author, quantity);
    }
  }

  lemma CancelOfferFKeepsValid(s: State, env: Env, owner: Name, ids: seq<Id>)
    requires Valid(s)
    ensures var r := Fungible.CancelOfferF(s, env, owner, ids); r.Ok? ==> Valid(r.value)
  {
    var step := Fungible.CancelOfferFStepFn(owner);
    forall q, x | x in ids && Valid(q) && step(q, x).Ok?
      ensures Valid(step(q, x).value)
    {
      var o := q.offerfs[x];
      AddBalanceKeepsValid(q, owner, o.author, o.quantity);
    }
    FoldPreserves(s, ids, step, Valid);
  }

  lemma ClaimFKeepsValid(s: State, env: Env, claimer: Name, ids: seq<Id>)
    requires Valid(s)
    ensures var r := Fungible.ClaimF(s, env, claimer, ids); r.Ok? ==> Valid(r.value)
  {
    var step := Fungible.ClaimFStepFn(claimer);
    forall q, x | x in ids && Valid(q) && step(q, x).Ok?
      ensures Valid(step(q, x).value)
    {
      var o := q.offerfs[x];
      AddBalanceKeepsValid(q, claimer, o.author, o.quantity);
    }
    FoldPreserves(s, ids, step, Valid);
  }

  lemma OpenFKeepsValid(s: State, env: Env, owner: Name, author: Name, sym: Symbol, ramPayer: Name)
    requires Valid(s)
    ensures var r := Fungible.OpenF(s, env, owner, author, sym, ramPayer); r.Ok? ==> Valid(r.value)
  {
  }

  lemma CloseFKeepsValid(s: State, env: Env, owner: Name, author: Name, sym: Symbol)
    requires Valid(s)
    ensures var r := Fungible.CloseF(s, env, owner, author, sym); r.Ok? ==> Valid(r.value)
  {
    var r := Fungible.CloseF(s, env, owner, author, sym);
    if r.Ok? {
      var ftid := s.stats[(author, sym.code)].id;
      assert r.value == s.(accounts := s.accounts - {(owner, ftid)});
      WithAccounts(s, s.accounts - {(owner, ftid)});
    }
  }

  /** Rewriting the token entries of one record touches no id, owner or scope. */
  lemma ContainerfKeepsValid(s: State, k: (Name, Id), kept: seq<Account>)
    requires Valid(s) && k in s.sassets
    ensures Valid(s.(sassets := s.sassets[k := s.sassets[k].(containerf := kept)]))
  {
    var a := s.sassets[k];
    var s1 := s.(sassets := s.sassets[k := a.(containerf := kept)]);
    assert Bounded(a.(containerf := kept), s.lnftid);
    SameShape(a, a.(containerf := kept));
    UniqueReplace(s.sassets, k, a.(containerf := kept));
    assert HoldersValid(s1);
    assert ScopesValid(s1);
  }

  lemma AttachDetachKeepsValid(s: State, env: Env, owner: Name, author: Name, quantity: Quantity, assetidc: Id, attach: bool)
    requires Valid(s)
    ensures var r := Fungible.AttachDetach(s, env, owner, author, quantity, assetidc, attach); r.Ok? ==> Valid(r.value)
  {
    var r := Fungible.AttachDetach(s, env, owner, author, quantity, assetidc, attach);
    if r.Ok? {
      Fungible.AttachDetachUnfold(s, env, owner, author, quantity, assetidc, attach);
      var st := s.stats[(author, quantity.sym.code)];
      var ac := s.sassets[(owner, assetidc)];
      var m := Fold(Fungible.Merging([], false), ac.containerf, Fungible.MergeEntryFn(st.id, quantity.amount, attach)).value;
      var kept := if !m.found && attach then m.kept + [Account(st.id, author, quantity)] else m.kept;
      var s1 := s.(sassets := s.sassets[(owner, assetidc) := ac.(containerf := kept)]);
      ContainerfKeepsValid(s, (owner, assetidc), kept);
      if attach {
        SubBalanceKeepsValid(s1, owner, author, quantity);
      } else {
        AddBalanceKeepsValid(s1, owner, author, quantity);
      }
    }
  }
}
