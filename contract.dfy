/**
 * The SimpleAssets contract as it runs: one object whose fields are the
 * tables, changed step by step by the actions. Every action is proved to
 * do exactly what its function in `Nft`, `Fungible` or `Authors` says:
 * on success the tables end as that function's result, on a failed check
 * the action reports the same message and every write is undone.
 */
module Contract {
  import opened Types
  import opened Folds
  import Nft
  import Fungible
  import Authors

  /** An action ended as `spec` says: committed its result, or failed with its message and wrote nothing. */
  ghost predicate Commits(spec: Result<State>, before: State, after: State, r: Check) {
    match spec
    case Ok(s) => r == Pass && after == s
    case Err(m) => r == Fail(m) && after == before
  }

  /** One loop iteration ended as `spec` says (on failure the action rolls back, so its writes do not matter). */
  ghost predicate Stepped<P>(spec: Result<P>, after: P, c: Check) {
    match spec
    case Ok(p) => c == Pass && after == p
    case Err(m) => c == Fail(m)
  }

  class SimpleAssets {
    var sassets: map<(Name, Id), Asset>
    var offers: map<Id, AssetOffer>
    var delegates: map<Id, Delegation>
    var authors: map<Name, Profile>
    var stats: map<(Name, string), Currency>
    var accounts: map<(Name, Id), Account>
    var offerfs: map<Id, TokenOffer>
    var lnftid: nat
    var defid: nat
    var outbox: seq<Event>

    /** The tables as one value. */
    function St(): State
      reads this
    {
      State(sassets, offers, delegates, authors, stats, accounts, offerfs, lnftid, defid, outbox)
    }

    /** A freshly deployed contract: empty tables, both counters at zero. */
    constructor ()
      ensures St() == State(map[], map[], map[], map[], map[], map[], map[], 0, 0, [])
    {
      sassets, offers, delegates, authors := map[], map[], map[], map[];
      stats, accounts, offerfs := map[], map[], map[];
      lnftid, defid, outbox := 0, 0, [];
    }

    /** The host discarding the writes of an action that failed a check. */
    method Rollback(saved: State)
      modifies this
      ensures St() == saved
    {
      sassets, offers, delegates, authors := saved.sassets, saved.offers, saved.delegates, saved.authors;
      stats, accounts, offerfs := saved.stats, saved.accounts, saved.offerfs;
      lnftid, defid, outbox := saved.lnftid, saved.defid, saved.outbox;
    }

    /** `getid`: advance one of the two counters and return its new value. */
    method GetId(defer: bool) returns (id: nat)
      modifies this
      ensures defer ==> id == old(defid) + 1 && St() == old(St()).(defid := id)
      ensures !defer ==> id == old(lnftid) + 1 && St() == old(St()).(lnftid := id)
    {
      if defer {
        defid := defid + 1;
        id := defid;
      } else {
        lnftid := lnftid + 1;
        id := lnftid;
      }
    }

    /** `sendEvent`: schedule one notification, under a fresh deferred id. */
    method Notify(e: Event)
      modifies this
      ensures St() == Emit(old(St()), [e])
    {
      var _ := GetId(true);
      outbox := outbox + [e];
    }

    /** The loop over a `std::map<name, ...>` of grouped ids: one notification per author, smallest name first. */
    method SendEvents<G>(groups: map<Name, G>, note: (Name, G) -> Event)
      modifies this
      ensures St() == Emit(old(St()), EventsOf(groups, note))
    {
      var rest := groups;
      while rest.Keys != {}
        invariant Emit(St(), EventsOf(rest, note)) == Emit(old(St()), EventsOf(groups, note))
        decreases |rest.Keys|
      {
        ghost var least := MinName(rest.Keys);
        var a :| a in rest && forall b | b in rest :: a <= b;
        assert a == least;
        var next := rest - {a};
        assert next.Keys == rest.Keys - {a};
        EventsOfFirst(rest, note);
        ghost var before := St();
        Notify(note(a, rest[a]));
        EmitTwice(before, [note(a, rest[a])], EventsOf(next, note));
        rest := next;
      }
    }

    // ---------------------------------------------------------------- create / update

    /** `create` */
    method Create(env: Env, author: Name, category: Name, owner: Name,
                  idata: string, mdata: string, requireclaim: bool) returns (r: Check)
      modifies this
      ensures Commits(Nft.Create(old(St()), env, author, category, owner, idata, mdata, requireclaim), old(St()), St(), r)
    {
      if author !in env.auth { return Fail(MissingAuthority); }
      if owner !in env.accounts { return Fail(OwnerAccountMissing); }
      var saved := St();
      var id := GetId(false);
      if author == owner && requireclaim {
        Rollback(saved);
        return Fail(ClaimBySelf);
      }
      var holder := owner;
      if requireclaim {
        holder := author;
        if id in offers {
          Rollback(saved);
          return Fail(DuplicateKey);
        }
        offers := offers[id := AssetOffer(author, owner, env.now)];
      }
      if (holder, id) in sassets {
        Rollback(saved);
        return Fail(DuplicateKey);
      }
      sassets := sassets[(holder, id) := Asset(id, holder, author, category, idata, mdata, [], [])];
      Notify(Created(author, owner, id));
      return Pass;
    }

    /** `update` */
    method Update(env: Env, author: Name, owner: Name, assetid: Id, mdata: string) returns (r: Check)
      modifies this
      ensures Commits(Nft.Update(old(St()), env, author, owner, assetid, mdata), old(St()), St(), r)
    {
      if author !in env.auth { return Fail(MissingAuthority); }
      if (owner, assetid) !in sassets { return Fail(UpdateAssetMissing); }
      var a := sassets[(owner, assetid)];
      if a.author != author { return Fail(OnlyAuthorUpdates); }
      sassets := sassets[(owner, assetid) := a.(mdata := mdata)];
      return Pass;
    }

    // ---------------------------------------------------------------- transfer

    /** One iteration of `transfer`'s loop. */
    method TransferItem(env: Env, from: Name, to: Name, id: Id, groups: map<Name, seq<Id>>)
      returns (c: Check, groups': map<Name, seq<Id>>)
      modifies this
      ensures Stepped(Nft.TransferStep(Nft.Batch(old(St()), groups), env, from, to, id), Nft.Batch(St(), groups'), c)
    {
      groups' := groups;
      ghost var spec := Nft.TransferStep(Nft.Batch(St(), groups), env, from, to, id);
      c := Nft.DelegationCheck(St(), env, from, to, id);
      if c.Pass? {
        if (from, id) !in sassets {
          c := Fail(TransferNotFound);
        } else if from != sassets[(from, id)].owner {
          c := Fail(TransferNotYours);
        } else if id in offers {
          c := Fail(TransferOffered);
        } else if (to, id) in sassets - {(from, id)} {
          c := Fail(DuplicateKey);
        }
      }
      if c.Fail? {
        assert spec == Err(c.msg);
        return;
      }
      var a := sassets[(from, id)];
      if id in delegates && delegates[id].owner == to {
        delegates := delegates - {id};
      }
      sassets := (sassets - {(from, id)})[(to, id) := a.(owner := to)];
      groups' := Nft.Push(groups, a.author, id);
    }

    /** `transfer` */
    method Transfer(env: Env, from: Name, to: Name, ids: seq<Id>, memo: string) returns (r: Check)
      modifies this
      ensures Commits(Nft.Transfer(old(St()), env, from, to, ids, memo), old(St()), St(), r)
    {
      if from == to { return Fail(TransferToSelf); }
      if to !in env.accounts { return Fail(TransferRecipientMissing); }
      if |memo| > MemoLimit { return Fail(MemoTooLong); }
      var saved := St();
      ghost var start := Nft.Batch(saved, map[]);
      ghost var step := Nft.TransferStepFn(env, from, to);
      var groups: map<Name, seq<Id>> := map[];
      var i := 0;
      while i < |ids|
        invariant i <= |ids|
        invariant Fold(start, ids[..i], step) == Ok(Nft.Batch(St(), groups))
      {
        FoldNext(start, ids, step, i);
        var c;
        c, groups := TransferItem(env, from, to, ids[i], groups);
        if c.Fail? {
          FoldErr(start, ids, step, i + 1);
          Rollback(saved);
          return c;
        }
        i := i + 1;
      }
      FoldAll(start, ids, step);
      SendEvents(groups, Nft.TransferNote(from, to, memo));
      return Pass;
    }

    // ---------------------------------------------------------------- offer / canceloffer / claim

    /** One iteration of `offer`'s loop. */
    method OfferItem(env: Env, owner: Name, newowner: Name, id: Id) returns (c: Check)
      modifies this
      ensures Stepped(Nft.OfferStep(old(St()), env, owner, newowner, id), St(), c)
    {
      if (owner, id) !in sassets { return Fail(SomeAssetMissing); }
      if id in offers { return Fail(AlreadyOffered); }
      if id in delegates { return Fail(OfferDelegated); }
      offers := offers[id := AssetOffer(owner, newowner, env.now)];
      return Pass;
    }

    /** `offer` */
    method Offer(env: Env, owner: Name, newowner: Name, ids: seq<Id>, memo: string) returns (r: Check)
      modifies this
      ensures Commits(Nft.Offer(old(St()), env, owner, newowner, ids, memo), old(St()), St(), r)
    {
      if owner == newowner { return Fail(OfferToSelf); }
      if owner !in env.auth { return Fail(MissingAuthority); }
      if newowner !in env.accounts { return Fail(NewOwnerMissing); }
      var saved := St();
      ghost var step := Nft.OfferStepFn(env, owner, newowner);
      var i := 0;
      while i < |ids|
        invariant i <= |ids|
        invariant Fold(saved, ids[..i], step) == Ok(St())
      {
        FoldNext(saved, ids, step, i);
        var c := OfferItem(env, owner, newowner, ids[i]);
        if c.Fail? {
          FoldErr(saved, ids, step, i + 1);
          Rollback(saved);
          return c;
        }
        i := i + 1;
      }
      FoldAll(saved, ids, step);
      return Pass;
    }

    /** One iteration of `canceloffer`'s loop. */
    method CancelOfferItem(owner: Name, id: Id) returns (c: Check)
      modifies this
      ensures Stepped(Nft.CancelOfferStep(old(St()), owner, id), St(), c)
    {
      if id !in offers { return Fail(OfferNotFound); }
      if owner != offers[id].owner {
        return Fail(NotOfferOwner);
      }
      offers := offers - {id};
      return Pass;
    }

    /** `canceloffer` */
    method CancelOffer(env: Env, owner: Name, ids: seq<Id>) returns (r: Check)
      modifies this
      ensures Commits(Nft.CancelOffer(old(St()), env, owner, ids), old(St()), St(), r)
    {
      if owner !in env.auth { return Fail(MissingAuthority); }
      var saved := St();
      ghost var step := Nft.CancelOfferStepFn(owner);
      var i := 0;
      while i < |ids|
        invariant i <= |ids|
        invariant Fold(saved, ids[..i], step) == Ok(St())
      {
        FoldNext(saved, ids, step, i);
        var c := CancelOfferItem(owner, ids[i]);
        if c.Fail? {
          FoldErr(saved, ids, step, i + 1);
          Rollback(saved);
          return c;
        }
        i := i + 1;
      }
      FoldAll(saved, ids, step);
      return Pass;
    }

    /** One iteration of `claim`'s loop. */
    method ClaimItem(claimer: Name, id: Id, groups: map<Name, map<Id, Name>>)
      returns (c: Check, groups': map<Name, map<Id, Name>>)
      modifies this
      ensures Stepped(Nft.ClaimStep(Nft.Batch(old(St()), groups), claimer, id), Nft.Batch(St(), groups'), c)
    {
      groups' := groups;
      ghost var s0 := St();
      ghost var spec := Nft.ClaimStep(Nft.Batch(s0, groups), claimer, id);
      c := Pass;
      if id !in offers {
        c := Fail(ClaimNotFound);
      } else if claimer != offers[id].offeredto {
        c := Fail(NotOfferedToYou);
      } else if (offers[id].owner, id) !in sassets {
        c := Fail(ClaimNotFound);
      } else if offers[id].owner != sassets[(offers[id].owner, id)].owner {
        c := Fail(OwnerChanged);
      } else if (claimer, id) in sassets {
        c := Fail(DuplicateKey);
      }
      if c.Fail? {
        assert spec == Err(c.msg);
        return;
      }
      var o := offers[id];
      var a := sassets[(o.owner, id)];
      sassets := sassets[(claimer, id) := a.(owner := claimer)];
      sassets := sassets - {(o.owner, id)};
      offers := offers - {id};
      var previous := if a.author in groups then groups[a.author] else map[];
      groups' := groups[a.author := previous[id := o.owner]];
    }

    /** `claim` */
    method Claim(env: Env, claimer: Name, ids: seq<Id>) returns (r: Check)
      modifies this
      ensures Commits(Nft.Claim(old(St()), env, claimer, ids), old(St()), St(), r)
    {
      if claimer !in env.auth { return Fail(MissingAuthority); }
      var saved := St();
      ghost var start := Nft.Batch(saved, map[]);
      ghost var step := Nft.ClaimStepFn(claimer);
      var groups: map<Name, map<Id, Name>> := map[];
      var i := 0;
      while i < |ids|
        invariant i <= |ids|
        invariant Fold(start, ids[..i], step) == Ok(Nft.Batch(St(), groups))
      {
        FoldNext(start, ids, step, i);
        var c;
        c, groups := ClaimItem(claimer, ids[i], groups);
        if c.Fail? {
          FoldErr(start, ids, step, i + 1);
          Rollback(saved);
          return c;
        }
        i := i + 1;
      }
      FoldAll(start, ids, step);
      SendEvents(groups, Nft.ClaimNote(claimer));
      return Pass;
    }

    // ---------------------------------------------------------------- burn

    /** One iteration of `burn`'s loop. */
    method BurnItem(owner: Name, id: Id, groups: map<Name, seq<Id>>)
      returns (c: Check, groups': map<Name, seq<Id>>)
      modifies this
      ensures Stepped(Nft.BurnStep(Nft.Batch(old(St()), groups), owner, id), Nft.Batch(St(), groups'), c)
    {
      groups' := groups;
      ghost var s0 := St();
      ghost var spec := Nft.BurnStep(Nft.Batch(s0, groups), owner, id);
      c := Pass;
      if (owner, id) !in sassets {
        c := Fail(SomeAssetMissing);
      } else if owner != sassets[(owner, id)].owner {
        c := Fail(BurnNotYours);
      } else if id in offers {
        c := Fail(BurnOffered);
      } else if id in delegates {
        c := Fail(BurnDelegated);
      }
      if c.Fail? {
        assert spec == Err(c.msg);
        return;
      }
      var a := sassets[(owner, id)];
      sassets := sassets - {(owner, id)};
      groups' := Nft.Push(groups, a.author, id);
    }

    /** `burn` */
    method Burn(env: Env, owner: Name, ids: seq<Id>, memo: string) returns (r: Check)
      modifies this
      ensures Commits(Nft.Burn(old(St()), env, owner, ids, memo), old(St()), St(), r)
    {
      if owner !in env.auth { return Fail(MissingAuthority); }
      var saved := St();
      ghost var start := Nft.Batch(saved, map[]);
      ghost var step := Nft.BurnStepFn(owner);
      var groups: map<Name, seq<Id>> := map[];
      var i := 0;
      while i < |ids|
        invariant i <= |ids|
        invariant Fold(start, ids[..i], step) == Ok(Nft.Batch(St(), groups))
      {
        FoldNext(start, ids, step, i);
        var c;
        c, groups := BurnItem(owner, ids[i], groups);
        if c.Fail? {
          FoldErr(start, ids, step, i + 1);
          Rollback(saved);
          return c;
        }
        i := i + 1;
      }
      FoldAll(start, ids, step);
      SendEvents(groups, Nft.BurnNote(owner, memo));
      return Pass;
    }

    // ---------------------------------------------------------------- delegate / undelegate

    /** One iteration of `delegate`'s loop. */
    method DelegateItem(env: Env, owner: Name, to: Name, period: nat, id: Id) returns (c: Check)
      modifies this
      ensures Stepped(Nft.DelegateStep(old(St()), env, owner, to, period, id), St(), c)
    {
      if (owner, id) !in sassets { return Fail(SomeAssetNotFound); }
      if id in delegates { return Fail(AlreadyDelegated); }
      if id in offers { return Fail(SomeAssetOffered); }
      delegates := delegates[id := Delegation(owner, to, env.now, period)];
      return Pass;
    }

    /** `delegate`, with its inline `transfer` signed by the lender. */
    method Delegate(env: Env, owner: Name, to: Name, ids: seq<Id>, period: nat, memo: string) returns (r: Check)
      modifies this
      ensures Commits(Nft.Delegate(old(St()), env, owner, to, ids, period, memo), old(St()), St(), r)
    {
      if owner == to { return Fail(DelegateToSelf); }
      if owner !in env.auth { return Fail(MissingAuthority); }
      if to !in env.accounts { return Fail(TransferRecipientMissing); }
      var saved := St();
      ghost var step := Nft.DelegateStepFn(env, owner, to, period);
      var i := 0;
      while i < |ids|
        invariant i <= |ids|
        invariant Fold(saved, ids[..i], step) == Ok(St())
      {
        FoldNext(saved, ids, step, i);
        var c := DelegateItem(env, owner, to, period, ids[i]);
        if c.Fail? {
          FoldErr(saved, ids, step, i + 1);
          Rollback(saved);
          return c;
        }
        i := i + 1;
      }
      FoldAll(saved, ids, step);
      r := Transfer(env.(auth := {owner}), owner, to, ids, Nft.DelegateMemo(memo));
      if r.Fail? {
        Rollback(saved);
      }
    }

    /** One iteration of `undelegate`'s loop: its checks, then the id appended to the memo. */
    method UndelegateItem(env: Env, owner: Name, from: Name, idlist: string, id: Id) returns (c: Check, idlist': string)
      ensures Stepped(Nft.UndelegateStep(St(), env, owner, from, idlist, id), idlist', c)
    {
      idlist' := idlist;
      ghost var spec := Nft.UndelegateStep(St(), env, owner, from, idlist, id);
      c := Pass;
      if (from, id) !in sassets {
        c := Fail(SomeAssetNotFound);
      } else if id !in delegates {
        c := Fail(NotDelegated);
      } else if owner != delegates[id].owner {
        c := Fail(NotLender);
      } else if from != delegates[id].delegatedto || sassets[(from, id)].owner != delegates[id].delegatedto {
        c := Fail(NotDelegatedTo);
      } else if !Nft.Expired(delegates[id], env.now) {
        c := Fail(PeriodNotOver);
      }
      if c.Fail? {
        assert spec == Err(c.msg);
        return;
      }
      if idlist != "" {
        idlist' := idlist' + ", ";
      }
      idlist' := idlist' + Nft.DecimalString(id);
    }

    /** `undelegate`: the checks and memo loop, then the inline `transfer` back to the lender. */
    method Undelegate(env: Env, owner: Name, from: Name, ids: seq<Id>) returns (r: Check)
      modifies this
      ensures Commits(Nft.Undelegate(old(St()), env, owner, from, ids), old(St()), St(), r)
    {
      if owner !in env.auth { return Fail(MissingAuthority); }
      if from !in env.accounts { return Fail(RecipientMissing); }
      ghost var s := St();
      ghost var step := Nft.UndelegateStepFn(s, env, owner, from);
      var idlist := "";
      var i := 0;
      while i < |ids|
        invariant i <= |ids|
        invariant Fold("", ids[..i], step) == Ok(idlist)
        invariant St() == s
      {
        FoldNext("", ids, step, i);
        var c;
        c, idlist := UndelegateItem(env, owner, from, idlist, ids[i]);
        if c.Fail? {
          FoldErr("", ids, step, i + 1);
          return c;
        }
        i := i + 1;
      }
      FoldAll("", ids, step);
      assert Nft.Undelegate(s, env, owner, from, ids)
          == Nft.Transfer(s, env.(auth := {owner}), from, owner, ids, "undelegate assetid: " + idlist);
      r := Transfer(env.(auth := {owner}), from, owner, ids, "undelegate assetid: " + idlist);
    }

    // ---------------------------------------------------------------- attach / detach

    /** One iteration of `attach`'s loop; `container` is the container record as last written. */
    method AttachItem(owner: Name, assetidc: Id, id: Id, container: Asset) returns (c: Check, container': Asset)
      modifies this
      ensures Stepped(Nft.AttachStep(Nft.Nesting(old(St()), container), owner, assetidc, id), Nft.Nesting(St(), container'), c)
    {
      container' := container;
      if (owner, id) !in sassets { return Fail(SomeAssetNotFound), container; }
      if assetidc == id { return Fail(AttachToSelf), container; }
      var a := sassets[(owner, id)];
      if a.author != container.author { return Fail(DifferentAuthors), container; }
      if id in delegates { return Fail(SomeAssetDelegated), container; }
      if id in offers { return Fail(SomeAssetOffered), container; }
      container' := container.(container := container.container + [a]);
      sassets := sassets[(owner, assetidc) := container'];
      sassets := sassets - {(owner, id)};
      c := Pass;
    }

    /** `attach` */
    method Attach(env: Env, owner: Name, assetidc: Id, ids: seq<Id>) returns (r: Check)
      modifies this
      ensures Commits(Nft.Attach(old(St()), env, owner, assetidc, ids), old(St()), St(), r)
    {
      if (owner, assetidc) !in sassets { return Fail(AssetNotFound); }
      var container := sassets[(owner, assetidc)];
      if container.author !in env.auth { return Fail(MissingAuthority); }
      var saved := St();
      ghost var start := Nft.Nesting(saved, container);
      ghost var step := Nft.AttachStepFn(owner, assetidc);
      var i := 0;
      while i < |ids|
        invariant i <= |ids|
        invariant Fold(start, ids[..i], step) == Ok(Nft.Nesting(St(), container))
      {
        FoldNext(start, ids, step, i);
        var c;
        c, container := AttachItem(owner, assetidc, ids[i], container);
        if c.Fail? {
          FoldErr(start, ids, step, i + 1);
          Rollback(saved);
          return c;
        }
        i := i + 1;
      }
      FoldAll(start, ids, step);
      return Pass;
    }

    /** One iteration of `detach`'s outer loop: the inner pass over the container, then the container rewritten. */
    method DetachItem(owner: Name, assetidc: Id, id: Id, container: Asset) returns (c: Check, container': Asset)
      modifies this
      ensures Stepped(Nft.DetachStep(Nft.Nesting(old(St()), container), owner, assetidc, id), Nft.Nesting(St(), container'), c)
    {
      container' := container;
      ghost var start := Nft.Unpacking(sassets, []);
      ghost var entry := Nft.DetachEntryFn(owner, id);
      var entries := container.container;
      var kept: seq<Asset> := [];
      var j := 0;
      while j < |entries|
        invariant j <= |entries|
        invariant Fold(start, entries[..j], entry) == Ok(Nft.Unpacking(sassets, kept))
        invariant St() == old(St()).(sassets := sassets)
      {
        FoldNext(start, entries, entry, j);
        var e := entries[j];
        if e.id == id {
          if (owner, e.id) in sassets {
            FoldErr(start, entries, entry, j + 1);
            return Fail(DuplicateKey), container;
          }
          sassets := sassets[(owner, e.id) := e.(owner := owner)];
        } else {
          kept := kept + [e];
        }
        j := j + 1;
      }
      FoldAll(start, entries, entry);
      container' := container.(container := kept);
      sassets := sassets[(owner, assetidc) := container'];
      c := Pass;
    }

    /** `detach` */
    method Detach(env: Env, owner: Name, assetidc: Id, ids: seq<Id>) returns (r: Check)
      modifies this
      ensures Commits(Nft.Detach(old(St()), env, owner, assetidc, ids), old(St()), St(), r)
    {
      if owner !in env.auth { return Fail(MissingAuthority); }
      if (owner, assetidc) !in sassets { return Fail(AssetNotFound); }
      var container := sassets[(owner, assetidc)];
      var saved := St();
      ghost var start := Nft.Nesting(saved, container);
      ghost var step := Nft.DetachStepFn(owner, assetidc);
      var i := 0;
      while i < |ids|
        invariant i <= |ids|
        invariant Fold(start, ids[..i], step) == Ok(Nft.Nesting(St(), container))
      {
        FoldNext(start, ids, step, i);
        var c;
        c, container := DetachItem(owner, assetidc, ids[i], container);
        if c.Fail? {
          FoldErr(start, ids, step, i + 1);
          Rollback(saved);
          return c;
        }
        i := i + 1;
      }
      FoldAll(start, ids, step);
      return Pass;
    }

    // ---------------------------------------------------------------- authors

    /** `regauthor` */
    method RegAuthor(env: Env, author: Name, data: string, stemplate: string) returns (r: Check)
      modifies this
      ensures Commits(Authors.RegAuthor(old(St()), env, author, data, stemplate), old(St()), St(), r)
    {
      if author !in env.auth { return Fail(MissingAuthority); }
      if |data| <= 3 { return Fail(DataTooShort); }
      if author in authors {
        return Fail(AlreadyRegistered);
      }
      authors := authors[author := Profile(data, stemplate)];
      return Pass;
    }

    /** `authorupdate` */
    method AuthorUpdate(env: Env, author: Name, data: string, stemplate: string) returns (r: Check)
      modifies this
      ensures Commits(Authors.AuthorUpdate(old(St()), env, author, data, stemplate), old(St()), St(), r)
    {
      if author !in env.auth { return Fail(MissingAuthority); }
      if author !in authors { return Fail(AuthorNotRegistered); }
      if data == "" && stemplate == "" {
        authors := authors - {author};
      } else {
        authors := authors[author := Profile(data, stemplate)];
      }
      return Pass;
    }

    // ---------------------------------------------------------------- balances

    /** `sub_balancef` */
    method SubBalance(owner: Name, author: Name, value: Quantity) returns (c: Check)
      modifies this
      ensures Commits(Fungible.SubBalance(old(St()), owner, author, value), old(St()), St(), c)
    {
      var ftid := Fungible.GetFTIndex(St(), author, value.sym);
      if ftid.Err? { return Fail(ftid.msg); }
      var key := (owner, ftid.value);
      if key !in accounts { return Fail(NoBalanceObject); }
      var row := accounts[key];
      if row.balance.amount < value.amount { return Fail(Overdrawn); }
      if value.sym.code != row.balance.sym.code { return Fail(WrongSymbol); }
      var balance := SubQ(row.balance, value);
      if balance.Err? { return Fail(balance.msg); }
      accounts := accounts[key := row.(balance := balance.value)];
      return Pass;
    }

    /** `add_balancef` */
    method AddBalance(owner: Name, author: Name, value: Quantity) returns (c: Check)
      modifies this
      ensures Commits(Fungible.AddBalance(old(St()), owner, author, value), old(St()), St(), c)
    {
      var ftid := Fungible.GetFTIndex(St(), author, value.sym);
      if ftid.Err? { return Fail(ftid.msg); }
      var key := (owner, ftid.value);
      if key !in accounts {
        accounts := accounts[key := Account(ftid.value, author, value)];
        return Pass;
      }
      var row := accounts[key];
      var balance := AddQ(row.balance, value);
      if balance.Err? { return Fail(balance.msg); }
      accounts := accounts[key := row.(balance := balance.value)];
      return Pass;
    }

    // ---------------------------------------------------------------- token definitions

    /** `createf` */
    method CreateF(env: Env, author: Name, maximumSupply: Quantity, authorctrl: bool, data: string) returns (r: Check)
      modifies this
      ensures Commits(Fungible.CreateF(old(St()), env, author, maximumSupply, authorctrl, data), old(St()), St(), r)
    {
      if author !in env.auth { return Fail(MissingAuthority); }
      var sym := maximumSupply.sym;
      if !SymbolValid(sym) { return Fail(InvalidSymbol); }
      if !QuantityValid(maximumSupply) { return Fail(InvalidSupply); }
      if maximumSupply.amount <= 0 { return Fail(MaxSupplyNotPositive); }
      if (author, sym.code) in stats { return Fail(TokenExists); }
      var id := GetId(false);
      stats := stats[(author, sym.code) := Currency(Quantity(0, sym), maximumSupply, author, id, authorctrl, data)];
      return Pass;
    }

    /** `updatef` */
    method UpdateF(env: Env, author: Name, sym: Symbol, data: string) returns (r: Check)
      modifies this
      ensures Commits(Fungible.UpdateF(old(St()), env, author, sym, data), old(St()), St(), r)
    {
      if author !in env.auth { return Fail(MissingAuthority); }
      if !SymbolValid(sym) { return Fail(InvalidSymbol); }
      if (author, sym.code) !in stats { return Fail(SymbolMissing); }
      stats := stats[(author, sym.code) := stats[(author, sym.code)].(data := data)];
      return Pass;
    }

    // ---------------------------------------------------------------- issue / transfer / burn

    /** `transferf` */
    method TransferF(env: Env, from: Name, to: Name, author: Name, quantity: Quantity, memo: string) returns (r: Check)
      modifies this
      ensures Commits(Fungible.TransferF(old(St()), env, from, to, author, quantity, memo), old(St()), St(), r)
    {
      if from == to { return Fail(FtTransferToSelf); }
      if to !in env.accounts { return Fail(RecipientMissing); }
      if (author, quantity.sym.code) !in stats { return Fail(KeyNotFound); }
      var st := stats[(author, quantity.sym.code)];
      if !QuantityValid(quantity) { return Fail(InvalidQuantity); }
      if quantity.amount <= 0 { return Fail(TransferNotPositive); }
      if quantity.sym != st.supply.sym { return Fail(PrecisionMismatch); }
      if |memo| > MemoLimit { return Fail(MemoTooLong); }
      var checkAuth := from;
      if st.authorctrl && st.issuer in env.auth {
        checkAuth := st.issuer;
      }
      if checkAuth !in env.auth { return Fail(MissingAuthority); }
      var saved := St();
      r := SubBalance(from, author, quantity);
      if r.Fail? { return; }
      r := AddBalance(to, author, quantity);
      if r.Fail? {
        Rollback(saved);
      }
    }

    /** `issuef`, with its inline `transferf` signed by the issuer. */
    method IssueF(env: Env, to: Name, author: Name, quantity: Quantity, memo: string) returns (r: Check)
      modifies this
      ensures Commits(Fungible.IssueF(old(St()), env, to, author, quantity, memo), old(St()), St(), r)
    {
      var sym := quantity.sym;
      if !SymbolValid(sym) { return Fail(InvalidSymbol); }
      if |memo| > MemoLimit { return Fail(MemoTooLong); }
      if (author, sym.code) !in stats { return Fail(IssueTokenMissing); }
      var st := stats[(author, sym.code)];
      if st.issuer !in env.auth { return Fail(MissingAuthority); }
      if !QuantityValid(quantity) { return Fail(InvalidQuantity); }
      if quantity.amount <= 0 { return Fail(IssueNotPositive); }
      if quantity.sym != st.supply.sym { return Fail(PrecisionMismatch); }
      if quantity.amount > st.maxSupply.amount - st.supply.amount { return Fail(ExceedsSupply); }
      var supply := AddQ(st.supply, quantity);
      if supply.Err? { return Fail(supply.msg); }
      var saved := St();
      stats := stats[(author, sym.code) := st.(supply := supply.value)];
      r := AddBalance(st.issuer, author, quantity);
      if r.Fail? {
        Rollback(saved);
        return;
      }
      if to != st.issuer {
        r := TransferF(env.(auth := {st.issuer}), st.issuer, to, author, quantity, memo);
        if r.Fail? {
          Rollback(saved);
        }
      }
    }

    /** `burnf` */
    method BurnF(env: Env, from: Name, author: Name, quantity: Quantity, memo: string) returns (r: Check)
      modifies this
      ensures Commits(Fungible.BurnF(old(St()), env, from, author, quantity, memo), old(St()), St(), r)
    {
      var sym := quantity.sym;
      if !SymbolValid(sym) { return Fail(InvalidSymbol); }
      if |memo| > MemoLimit { return Fail(MemoTooLong); }
      if (author, sym.code) !in stats { return Fail(TokenMissing); }
      var st := stats[(author, sym.code)];
      var signer := if st.authorctrl && st.issuer in env.auth then st.issuer else from;
      if signer !in env.auth { return Fail(MissingAuthority); }
      if !QuantityValid(quantity) { return Fail(InvalidQuantity); }
      if quantity.amount <= 0 { return Fail(RetireNotPositive); }
      if quantity.sym != st.supply.sym { return Fail(PrecisionMismatch); }
      var supply := SubQ(st.supply, quantity);
      if supply.Err? { return Fail(supply.msg); }
      var saved := St();
      stats := stats[(author, sym.code) := st.(supply := supply.value)];
      r := SubBalance(from, author, quantity);
      if r.Fail? {
        Rollback(saved);
      }
    }

    // ---------------------------------------------------------------- escrowed offers

    /** The scan of the open fungible offers for one that `matches`. */
    method ScanOffers(matches: TokenOffer -> bool) returns (found: bool)
      ensures found <==> Fungible.AnyTokenOffer(St(), matches)
    {
      var rest := offerfs.Keys;
      while rest != {}
        invariant rest <= offerfs.Keys
        invariant forall id :: id in offerfs && id !in rest ==> !matches(offerfs[id])
        decreases |rest|
      {
        var id :| id in rest;
        if matches(offerfs[id]) {
          return true;
        }
        rest := rest - {id};
      }
      return false;
    }

    /** `offerf` */
    method OfferF(env: Env, owner: Name, newowner: Name, author: Name, quantity: Quantity, memo: string) returns (r: Check)
      modifies this
      ensures Commits(Fungible.OfferF(old(St()), env, owner, newowner, author, quantity, memo), old(St()), St(), r)
    {
      if owner !in env.auth { return Fail(MissingAuthority); }
      if newowner !in env.accounts { return Fail(NewOwnerMissing); }
      if owner == newowner { return Fail(OfferToSelf); }
      var sym := quantity.sym;
      if !SymbolValid(sym) { return Fail(InvalidSymbol); }
      if |memo| > MemoLimit { return Fail(MemoTooLong); }
      if (author, sym.code) !in stats { return Fail(TokenMissing); }
      var st := stats[(author, sym.code)];
      if !QuantityValid(quantity) { return Fail(InvalidQuantity); }
      if quantity.amount <= 0 { return Fail(RetireNotPositive); }
      if quantity.sym != st.supply.sym { return Fail(PrecisionMismatch); }
      var open := ScanOffers(Fungible.SameOffer(owner, author, newowner, sym));
      if open { return Fail(OfferExists); }
      var saved := St();
      var id := GetId(true);
      if id in offerfs {
        Rollback(saved);
        return Fail(DuplicateKey);
      }
      offerfs := offerfs[id := TokenOffer(author, quantity, owner, newowner, env.now)];
      r := SubBalance(owner, author, quantity);
      if r.Fail? {
        Rollback(saved);
      }
    }

    /** One iteration of `cancelofferf`'s loop. */
    method CancelOfferFItem(owner: Name, id: Id) returns (c: Check)
      modifies this
      ensures Stepped(Fungible.CancelOfferFStep(old(St()), owner, id), St(), c)
    {
      if id !in offerfs { return Fail(FtOfferNotFound); }
      var o := offerfs[id];
      if owner != o.owner { return Fail(NotFtOfferOwner); }
      c := AddBalance(owner, o.author, o.quantity);
      if c.Fail? { return; }
      offerfs := offerfs - {id};
    }

    /** `cancelofferf` */
    method CancelOfferF(env: Env, owner: Name, ids: seq<Id>) returns (r: Check)
      modifies this
      ensures Commits(Fungible.CancelOfferF(old(St()), env, owner, ids), old(St()), St(), r)
    {
      if owner !in env.auth { return Fail(MissingAuthority); }
      var saved := St();
      ghost var step := Fungible.CancelOfferFStepFn(owner);
      var i := 0;
      while i < |ids|
        invariant i <= |ids|
        invariant Fold(saved, ids[..i], step) == Ok(St())
      {
        FoldNext(saved, ids, step, i);
        var c := CancelOfferFItem(owner, ids[i]);
        if c.Fail? {
          FoldErr(saved, ids, step, i + 1);
          Rollback(saved);
          return c;
        }
        i := i + 1;
      }
      FoldAll(saved, ids, step);
      return Pass;
    }

    /** One iteration of `claimf`'s loop. */
    method ClaimFItem(claimer: Name, id: Id) returns (c: Check)
      modifies this
      ensures Stepped(Fungible.ClaimFStep(old(St()), claimer, id), St(), c)
    {
      if id !in offerfs { return Fail(FtClaimNotFound); }
      var o := offerfs[id];
      if claimer != o.offeredto { return Fail(FtNotOfferedToYou); }
      c := AddBalance(claimer, o.author, o.quantity);
      if c.Fail? { return; }
      offerfs := offerfs - {id};
    }

    /** `claimf` */
    method ClaimF(env: Env, claimer: Name, ids: seq<Id>) returns (r: Check)
      modifies this
      ensures Commits(Fungible.ClaimF(old(St()), env, claimer, ids), old(St()), St(), r)
    {
      if claimer !in env.auth { return Fail(MissingAuthority); }
      var saved := St();
      ghost var step := Fungible.ClaimFStepFn(claimer);
      var i := 0;
      while i < |ids|
        invariant i <= |ids|
        invariant Fold(saved, ids[..i], step) == Ok(St())
      {
        FoldNext(saved, ids, step, i);
        var c := ClaimFItem(claimer, ids[i]);
        if c.Fail? {
          FoldErr(saved, ids, step, i + 1);
          Rollback(saved);
          return c;
        }
        i := i + 1;
      }
      FoldAll(saved, ids, step);
      return Pass;
    }

    // ---------------------------------------------------------------- balance rows

    /** `openf` */
    method OpenF(env: Env, owner: Name, author: Name, sym: Symbol, ramPayer: Name) returns (r: Check)
      modifies this
      ensures Commits(Fungible.OpenF(old(St()), env, owner, author, sym, ramPayer), old(St()), St(), r)
    {
      if ramPayer !in env.auth { return Fail(MissingAuthority); }
      if (author, sym.code) !in stats { return Fail(OpenSymbolMissing); }
      var st := stats[(author, sym.code)];
      if st.supply.sym != sym { return Fail(PrecisionMismatch); }
      if (owner, st.id) !in accounts {
        accounts := accounts[(owner, st.id) := Account(st.id, author, Quantity(0, sym))];
      }
      return Pass;
    }

    /** `closef` */
    method CloseF(env: Env, owner: Name, author: Name, sym: Symbol) returns (r: Check)
      modifies this
      ensures Commits(Fungible.CloseF(old(St()), env, owner, author, sym), old(St()), St(), r)
    {
      if owner !in env.auth { return Fail(MissingAuthority); }
      var ftid := Fungible.GetFTIndex(St(), author, sym);
      if ftid.Err? { return Fail(ftid.msg); }
      var key := (owner, ftid.value);
      if key !in accounts {
        return Fail(NoBalanceRow);
      }
      if accounts[key].balance.amount != 0 { return Fail(BalanceNotZero); }
      var open := ScanOffers(Fungible.SameToken(owner, author, sym));
      if open { return Fail(OpenFtOffers); }
      accounts := accounts - {key};
      return Pass;
    }

    // ---------------------------------------------------------------- attachf / detachf

    /** The loop of `attachdeatch` over `containerf`: adjust the token's entry, keep the positive ones. */
    method MergeContainerF(entries: seq<Account>, ftid: Id, amount: int, attach: bool) returns (c: Check, m: Fungible.Merging)
      ensures Stepped(Fold(Fungible.Merging([], false), entries, Fungible.MergeEntryFn(ftid, amount, attach)), m, c)
    {
      ghost var start := Fungible.Merging([], false);
      ghost var step := Fungible.MergeEntryFn(ftid, amount, attach);
      var kept: seq<Account> := [];
      var found := false;
      var j := 0;
      while j < |entries|
        invariant j <= |entries|
        invariant Fold(start, entries[..j], step) == Ok(Fungible.Merging(kept, found))
      {
        FoldNext(start, entries, step, j);
        var e := entries[j];
        if ftid == e.id {
          if attach {
            e := e.(balance := e.balance.(amount := e.balance.amount + amount));
          } else {
            if e.balance.amount < amount {
              FoldErr(start, entries, step, j + 1);
              return Fail(Overdrawn), Fungible.Merging(kept, found);
            }
            e := e.(balance := e.balance.(amount := e.balance.amount - amount));
          }
          found := true;
        }
        if e.balance.amount > 0 {
          kept := kept + [e];
        }
        j := j + 1;
      }
      FoldAll(start, entries, step);
      return Pass, Fungible.Merging(kept, found);
    }

    /** `attachdeatch`: move an amount between the owner's balance and an asset's `containerf`. */
    method AttachDetach(env: Env, owner: Name, author: Name, quantity: Quantity, assetidc: Id, attach: bool) returns (r: Check)
      modifies this
      ensures Commits(Fungible.AttachDetach(old(St()), env, owner, author, quantity, assetidc, attach), old(St()), St(), r)
    {
      if (author, quantity.sym.code) !in stats { return Fail(KeyNotFound); }
      var st := stats[(author, quantity.sym.code)];
      if !QuantityValid(quantity) { return Fail(InvalidQuantity); }
      if quantity.amount <= 0 { return Fail(TransferNotPositive); }
      if quantity.sym != st.supply.sym { return Fail(PrecisionMismatch); }
      if st.issuer != author { return Fail(DifferentAuthor); }
      var signer := if attach then author else owner;
      if signer !in env.auth { return Fail(MissingAuthority); }
      if (owner, assetidc) !in sassets { return Fail(ContainerNotFound); }
      var ac := sassets[(owner, assetidc)];
      if ac.author != author { return Fail(DifferentAuthors); }
      if assetidc in delegates { return Fail(AssetDelegated); }
      if assetidc in offers { return Fail(AssetOffered); }
      var c, m := MergeContainerF(ac.containerf, st.id, quantity.amount, attach);
      if c.Fail? { return c; }
      var kept := m.kept;
      if !m.found && attach {
        kept := kept + [Account(st.id, author, quantity)];
      }
      if !attach && !m.found { return Fail(NotAttached); }
      var saved := St();
      ghost var s1 := saved.(sassets := saved.sassets[(owner, assetidc) := ac.(containerf := kept)]);
      assert Fungible.AttachDetach(saved, env, owner, author, quantity, assetidc, attach)
          == if attach then Fungible.SubBalance(s1, owner, author, quantity) else Fungible.AddBalance(s1, owner, author, quantity);
      sassets := sassets[(owner, assetidc) := ac.(containerf := kept)];
      if attach {
        r := SubBalance(owner, author, quantity);
      } else {
        r := AddBalance(owner, author, quantity);
      }
      if r.Fail? {
        Rollback(saved);
      }
    }

    /** `attachf` */
    method AttachF(env: Env, owner: Name, author: Name, quantity: Quantity, assetidc: Id) returns (r: Check)
      modifies this
      ensures Commits(Fungible.AttachDetach(old(St()), env, owner, author, quantity, assetidc, true), old(St()), St(), r)
    {
      r := AttachDetach(env, owner, author, quantity, assetidc, true);
    }

    /** `detachf` */
    method DetachF(env: Env, owner: Name, author: Name, quantity: Quantity, assetidc: Id) returns (r: Check)
      modifies this
      ensures Commits(Fungible.AttachDetach(old(St()), env, owner, author, quantity, assetidc, false), old(St()), St(), r)
    {
      r := AttachDetach(env, owner, author, quantity, assetidc, false);
    }
  }
}
