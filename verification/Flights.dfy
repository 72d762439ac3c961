/** Go's singleflight group as a step machine: callers of one key share one running function, all get what it returns,
and the key is released when it returns. */
module Flights {
  import opened Strings

  /** A function that runs, at some program counter of its own, or that has returned. */
  datatype Flight<K, P, R> = Flying(key: K, pc: P) | Landed(key: K, result: R)

  datatype Group<!K(==), P, R> = Group(active: map<K, nat>, flights: map<nat, Flight<K, P, R>>)

  /** The active flights are exactly those that run, each under its key. */
  ghost predicate Fits<K, P, R>(g: Group<K, P, R>) {
    && (forall k :: k in g.active ==>
          g.active[k] in g.flights && g.flights[g.active[k]].Flying? && g.flights[g.active[k]].key == k)
    && (forall f :: f in g.flights && g.flights[f].Flying? ==>
          g.flights[f].key in g.active && g.active[g.flights[f].key] == f)
  }

  /** `Do`: joins the flight of the key, or starts the flight `fresh` at `pc`. */
  function Join<K, P, R>(g: Group<K, P, R>, key: K, newId: nat, pc: P): Option<(Group<K, P, R>, nat)> {
    if key in g.active then Some((g, g.active[key]))
    else if newId in g.flights then None
    else Some((Group(g.active[key := newId], g.flights[newId := Flying(key, pc)]), newId))
  }

  function Advance<K, P, R>(g: Group<K, P, R>, f: nat, pc: P): Group<K, P, R>
    requires f in g.flights
  {
    g.(flights := g.flights[f := Flying(g.flights[f].key, pc)])
  }

  function Land<K, P, R>(g: Group<K, P, R>, f: nat, result: R): Group<K, P, R>
    requires f in g.flights
  {
    Group(g.active - {g.flights[f].key}, g.flights[f := Landed(g.flights[f].key, result)])
  }

  lemma JoinFits<K, P, R>(g: Group<K, P, R>, key: K, newId: nat, pc: P)
    requires Fits(g) && Join(g, key, newId, pc).Some?
    ensures var (h, f) := Join(g, key, newId, pc).value;
      && Fits(h) && f in h.flights && h.flights[f].Flying? && h.flights[f].key == key && key in h.active
          && h.active[key] == f
      && (forall x :: x in g.flights ==> x in h.flights && h.flights[x] == g.flights[x])
      && (forall x :: x in h.flights && x !in g.flights ==> x == f && h.flights[x] == Flying(key, pc))
  {
  }

  lemma AdvanceFits<K, P, R>(g: Group<K, P, R>, f: nat, pc: P)
    requires Fits(g) && f in g.flights && g.flights[f].Flying?
    ensures Fits(Advance(g, f, pc))
  {
  }

  lemma LandFits<K, P, R>(g: Group<K, P, R>, f: nat, result: R)
    requires Fits(g) && f in g.flights && g.flights[f].Flying?
    ensures Fits(Land(g, f, result)) && g.flights[f].key !in Land(g, f, result).active
  {
  }

  /** No two functions run for one key. */
  lemma AtMostOnePerKey<K, P, R>(g: Group<K, P, R>, f: nat, h: nat)
    requires Fits(g) && f in g.flights && h in g.flights && g.flights[f].Flying? && g.flights[h].Flying?
    requires g.flights[f].key == g.flights[h].key
    ensures f == h
  {
  }
}
