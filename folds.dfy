/**
 * The two shapes every batched action shares: a loop over a vector that
 * aborts at the first failed check, and the sending of one notification per
 * distinct author, in the order of a `std::map<name, ...>`.
 */
module Folds {
  import opened Types

  /**
   * Runs `step` over `xs` from left to right, stopping at the first failure.
   * Defined on the last element, so that `Fold(p, xs[..i], step)` is what a
   * loop has done after `i` iterations.
   */
  function Fold<P, X>(p: P, xs: seq<X>, step: (P, X) -> Result<P>): Result<P>
    decreases |xs|
  {
    if xs == [] then Ok(p)
    else
      var q :- Fold(p, xs[..|xs| - 1], step);
      step(q, xs[|xs| - 1])
  }

  /** One more iteration of the loop. */
  lemma FoldNext<P, X>(p: P, xs: seq<X>, step: (P, X) -> Result<P>, k: nat)
    requires k < |xs|
    ensures Fold(p, xs[..k + 1], step) ==
              match Fold(p, xs[..k], step)
              case Ok(q) => step(q, xs[k])
              case Err(m) => Err(m)
  {
    assert xs[..k + 1][..k] == xs[..k];
  }

  /** Once an iteration has failed, the whole loop fails with the same message. */
  lemma {:induction false} FoldErr<P, X>(p: P, xs: seq<X>, step: (P, X) -> Result<P>, k: nat)
    requires k <= |xs| && Fold(p, xs[..k], step).Err?
    ensures Fold(p, xs, step) == Fold(p, xs[..k], step)
    decreases |xs|
  {
    if k < |xs| {
      var n := |xs| - 1;
      assert xs[..n][..k] == xs[..k];
      FoldErr(p, xs[..n], step, k);
      assert xs[..n] == xs[..|xs| - 1];
    } else {
      assert xs[..k] == xs;
    }
  }

  /** A whole loop, once every prefix has been run. */
  lemma FoldAll<P, X>(p: P, xs: seq<X>, step: (P, X) -> Result<P>)
    ensures Fold(p, xs[..|xs|], step) == Fold(p, xs, step)
  {
    assert xs[..|xs|] == xs;
  }

  /** A loop over one element is that element's step. */
  lemma FoldSingle<P, X>(p: P, x: X, step: (P, X) -> Result<P>)
    ensures Fold(p, [x], step) == step(p, x)
  {
    assert [x][..0] == [];
  }

  /** A property that every successful step on an element of `xs` keeps is kept by the whole loop. */
  lemma {:induction false} FoldPreserves<P, X>(p: P, xs: seq<X>, step: (P, X) -> Result<P>, inv: P -> bool)
    requires inv(p)
    requires forall q, x :: x in xs && inv(q) && step(q, x).Ok? ==> inv(step(q, x).value)
    ensures Fold(p, xs, step).Ok? ==> inv(Fold(p, xs, step).value)
    decreases |xs|
  {
    if xs != [] {
      var init := xs[..|xs| - 1];
      assert forall x :: x in init ==> x in xs;
      FoldPreserves(p, init, step, inv);
    }
  }

  // ---------------------------------------------------------------- ordered notifications

  /** The smallest of a non-empty set of names. */
  ghost function MinName(names: set<Name>): (m: Name)
    requires names != {}
    ensures m in names && forall n :: n in names ==> m <= n
    decreases |names|
  {
    var x :| x in names;
    if names == {x} then
      assert forall n :: n in names ==> n == x;
      x
    else
      var m := MinName(names - {x});
      assert forall n :: n in names ==> n == x || n in names - {x};
      if x <= m then x else m
  }

  /**
   * One event per key of `groups`, in ascending order of the keys: what the
   * loop over a `std::map<name, ...>` of grouped ids sends.
   */
  ghost function EventsOf<G>(groups: map<Name, G>, note: (Name, G) -> Event): (r: seq<Event>)
    ensures |r| == |groups.Keys|
    decreases |groups.Keys|
  {
    if groups.Keys == {} then []
    else
      var a := MinName(groups.Keys);
      var rest := groups - {a};
      assert rest.Keys == groups.Keys - {a};
      [note(a, groups[a])] + EventsOf(rest, note)
  }

  /** Unfolding `EventsOf` once: the least key's note, then the rest. */
  lemma EventsOfFirst<G>(groups: map<Name, G>, note: (Name, G) -> Event)
    requires groups.Keys != {}
    ensures var a := MinName(groups.Keys);
            EventsOf(groups, note) == [note(a, groups[a])] + EventsOf(groups - {a}, note)
  {
  }

  /** Every event is the note of one of the groups. */
  lemma {:induction false} EventsOfSound<G>(groups: map<Name, G>, note: (Name, G) -> Event, i: nat)
    requires i < |EventsOf(groups, note)|
    ensures exists a :: a in groups && EventsOf(groups, note)[i] == note(a, groups[a])
    decreases |groups.Keys|
  {
    var a := MinName(groups.Keys);
    var rest := groups - {a};
    assert rest.Keys == groups.Keys - {a};
    EventsOfFirst(groups, note);
    if i == 0 {
      assert EventsOf(groups, note)[0] == note(a, groups[a]);
    } else {
      EventsOfSound(rest, note, i - 1);
      var b :| b in rest && EventsOf(rest, note)[i - 1] == note(b, rest[b]);
      assert EventsOf(groups, note)[i] == EventsOf(rest, note)[i - 1];
      assert b in groups && rest[b] == groups[b];
    }
  }

  /** Every group gets its note. */
  lemma {:induction false} EventsOfComplete<G>(groups: map<Name, G>, note: (Name, G) -> Event, b: Name)
    requires b in groups
    ensures note(b, groups[b]) in EventsOf(groups, note)
    decreases |groups.Keys|
  {
    var a := MinName(groups.Keys);
    var rest := groups - {a};
    assert rest.Keys == groups.Keys - {a};
    EventsOfFirst(groups, note);
    if b != a {
      EventsOfComplete(rest, note, b);
      assert rest[b] == groups[b];
    }
  }

  /** When each note names its group's key as author, the authors are keys of `groups`. */
  lemma {:induction false} EventsOfAuthors<G>(groups: map<Name, G>, note: (Name, G) -> Event, k: nat)
    requires forall a, g :: note(a, g).author == a
    requires k < |groups.Keys|
    ensures EventsOf(groups, note)[k].author in groups
    decreases |groups.Keys|
  {
    var a := MinName(groups.Keys);
    var rest := groups - {a};
    assert rest.Keys == groups.Keys - {a};
    var evs := EventsOf(groups, note);
    assert evs == [note(a, groups[a])] + EventsOf(rest, note);
    if k > 0 {
      EventsOfAuthors(rest, note, k - 1);
      assert evs[k] == EventsOf(rest, note)[k - 1];
    }
  }

  /** The events go out in strictly ascending order of their keys. */
  lemma {:induction false} EventsOfOrdered<G>(groups: map<Name, G>, note: (Name, G) -> Event, i: nat, j: nat)
    requires forall a, g :: note(a, g).author == a
    requires i < j < |groups.Keys|
    ensures EventsOf(groups, note)[i].author < EventsOf(groups, note)[j].author
    decreases |groups.Keys|
  {
    var a := MinName(groups.Keys);
    var rest := groups - {a};
    assert rest.Keys == groups.Keys - {a};
    var evs := EventsOf(groups, note);
    assert evs == [note(a, groups[a])] + EventsOf(rest, note);
    assert evs[j] == EventsOf(rest, note)[j - 1];
    if i == 0 {
      EventsOfAuthors(rest, note, j - 1);
      assert evs[0].author == a;
    } else {
      EventsOfOrdered(rest, note, i - 1, j - 1);
      assert evs[i] == EventsOf(rest, note)[i - 1];
    }
  }
}
