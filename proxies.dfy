/**
 * The proxy pool (`ProxyManager`): the configured proxies, the ones found
 * alive at start-up, and the index of the proxy in use.
 *
 * As the program has it, the stored index is the position in `all` of the
 * last active proxy, and that position is then used to index `active`.
 */
module Proxies {
  import opened Wrappers
  import opened Settings

  /** `xs` is `ys` with some elements left out, the rest in their order. */
  predicate Subseq<T(==)>(xs: seq<T>, ys: seq<T>)
    decreases |ys|
  {
    if xs == [] then true
    else if ys == [] then false
    else (xs[0] == ys[0] && Subseq(xs[1..], ys[1..])) || Subseq(xs, ys[1..])
  }

  lemma {:induction false} SubseqMembers<T>(xs: seq<T>, ys: seq<T>, x: T)
    requires Subseq(xs, ys) && x in xs
    ensures x in ys
    decreases |ys|
  {
    if xs[0] == ys[0] && Subseq(xs[1..], ys[1..]) {
      if x != xs[0] {
        SubseqMembers(xs[1..], ys[1..], x);
      }
    } else {
      SubseqMembers(xs, ys[1..], x);
    }
  }

  function RemoveAt<T>(xs: seq<T>, i: nat): (r: seq<T>)
    requires i < |xs|
    ensures |r| == |xs| - 1
    ensures forall k :: 0 <= k < i ==> r[k] == xs[k]
    ensures forall k :: i <= k < |r| ==> r[k] == xs[k + 1]
  {
    xs[..i] + xs[i + 1..]
  }

  /** Removing one element keeps a subsequence a subsequence. */
  lemma {:induction false} SubseqRemoveAt<T>(xs: seq<T>, ys: seq<T>, i: nat)
    requires Subseq(xs, ys) && i < |xs|
    ensures Subseq(RemoveAt(xs, i), ys)
    decreases |ys|
  {
    var r := RemoveAt(xs, i);
    if xs[0] == ys[0] && Subseq(xs[1..], ys[1..]) {
      if i == 0 {
        assert r == xs[1..];
        SubseqSkip(xs[1..], ys);
      } else {
        SubseqRemoveAt(xs[1..], ys[1..], i - 1);
        assert r == [xs[0]] + RemoveAt(xs[1..], i - 1);
        assert r[1..] == RemoveAt(xs[1..], i - 1);
      }
    } else {
      SubseqRemoveAt(xs, ys[1..], i);
    }
  }

  lemma SubseqSkip<T>(xs: seq<T>, ys: seq<T>)
    requires ys != [] && Subseq(xs, ys[1..])
    ensures Subseq(xs, ys)
  {
  }

  /** The proxies of `ps` that pass the liveness probe, in their order. */
  function Filter(ps: seq<Proxy>, alive: Proxy -> bool): (r: seq<Proxy>)
    ensures Subseq(r, ps)
    ensures forall p :: p in r <==> p in ps && alive(p)
    ensures |r| <= |ps|
  {
    if ps == [] then []
    else if alive(ps[0]) then [ps[0]] + Filter(ps[1..], alive)
    else
      var rest := Filter(ps[1..], alive);
      SubseqSkip(rest, ps);
      rest
  }

  /** The filter keeps every copy of a live proxy and no copy of a dead one. */
  lemma {:induction false} FilterCounts(ps: seq<Proxy>, alive: Proxy -> bool, p: Proxy)
    ensures multiset(Filter(ps, alive))[p] == if alive(p) then multiset(ps)[p] else 0
  {
    if ps != [] {
      FilterCounts(ps[1..], alive, p);
      assert ps == [ps[0]] + ps[1..];
      if alive(ps[0]) {
        assert multiset(Filter(ps, alive)) == multiset([ps[0]]) + multiset(Filter(ps[1..], alive));
      }
    }
  }

  /** `r` holds every copy of each live proxy of `ps` and no copy of a dead one. */
  ghost predicate KeepsLiveCopies(r: seq<Proxy>, ps: seq<Proxy>, alive: Proxy -> bool) {
    forall p :: multiset(r)[p] == if alive(p) then multiset(ps)[p] else 0
  }

  lemma FilterKeepsLiveCopies(ps: seq<Proxy>, alive: Proxy -> bool)
    ensures KeepsLiveCopies(Filter(ps, alive), ps, alive)
  {
    forall p ensures multiset(Filter(ps, alive))[p] == if alive(p) then multiset(ps)[p] else 0 {
      FilterCounts(ps, alive, p);
    }
  }

  /** `iter().position(|x| *x == p)`: the first index holding `p`. */
  function Position(xs: seq<Proxy>, p: Proxy): (r: Option<nat>)
    ensures r.None? <==> p !in xs
    ensures r.Some? ==> r.value < |xs| && xs[r.value] == p
    ensures r.Some? ==> forall j :: 0 <= j < r.value ==> xs[j] != p
  {
    if xs == [] then None
    else if xs[0] == p then Some(0)
    else match Position(xs[1..], p)
      case None => None
      case Some(i) => Some(i + 1)
  }

  /**
   * The index `new` and `select_next_proxy` store: the position in `all` of
   * the last active proxy, or None when no proxy is active. The `unwrap` of
   * the position cannot fail because every active proxy is in `all`.
   */
  function StoredIndex(all: seq<Proxy>, active: seq<Proxy>): (r: Option<nat>)
    requires forall p :: p in active ==> p in all
    ensures r.None? <==> active == []
    ensures r.Some? ==> r.value < |all| && all[r.value] == active[|active| - 1]
    ensures r.Some? ==> forall j :: 0 <= j < r.value ==> all[j] != active[|active| - 1]
  {
    if active == [] then None else Some(Position(all, active[|active| - 1]).value)
  }

  predicate Distinct(xs: seq<Proxy>) {
    forall i, j :: 0 <= i < j < |xs| ==> xs[i] != xs[j]
  }

  /**
   * When `active` is a prefix of distinct proxies (every proxy was found
   * alive, say), the stored index is the last position of `active`.
   */
  lemma PrefixIndexIsLast(all: seq<Proxy>, active: seq<Proxy>)
    requires Distinct(all) && active <= all
    ensures forall p :: p in active ==> p in all
    ensures StoredIndex(all, active) == if active == [] then None else Some(|active| - 1)
  {
    assert forall p :: p in active ==> p in all by {
      forall p | p in active ensures p in all {
        var k :| 0 <= k < |active| && active[k] == p;
        assert all[k] == p;
      }
    }
    if active != [] {
      var i := StoredIndex(all, active).value;
      var n := |active| - 1;
      assert all[n] == active[n];
      assert !(n < i);
    }
  }

  predicate AllAlive(ps: seq<Proxy>, alive: Proxy -> bool) {
    forall p :: p in ps ==> alive(p)
  }

  /** Once every proxy is alive the active list is the whole list. */
  lemma {:induction false} AllAliveFilter(ps: seq<Proxy>, alive: Proxy -> bool)
    requires AllAlive(ps, alive)
    ensures Filter(ps, alive) == ps
  {
    if ps != [] {
      AllAliveFilter(ps[1..], alive);
      assert [ps[0]] + ps[1..] == ps;
    }
  }

  /** With every proxy alive and distinct, the index `new` stores is in bounds. */
  lemma AllAliveInBounds(ps: seq<Proxy>, alive: Proxy -> bool)
    ensures AllAlive(ps, alive) ==> Filter(ps, alive) == ps
    ensures AllAlive(ps, alive) && Distinct(ps) ==>
      var idx := StoredIndex(ps, Filter(ps, alive));
      idx.Some? ==> idx.value < |Filter(ps, alive)|
  {
    if AllAlive(ps, alive) {
      AllAliveFilter(ps, alive);
      if Distinct(ps) {
        PrefixIndexIsLast(ps, ps);
      }
    }
  }

  /** What `new` stores, and what holds of it. */
  lemma NewPoolFacts(ps: seq<Proxy>, alive: Proxy -> bool) returns (act: seq<Proxy>, cur: Option<nat>)
    ensures act == Filter(ps, alive)
    ensures forall p :: p in act ==> p in ps
    ensures Subseq(act, ps)
    ensures cur == StoredIndex(ps, act)
    ensures cur.None? <==> (forall p :: p in ps ==> !alive(p))
    ensures cur.Some? ==> ps[cur.value] == act[|act| - 1]
    ensures AllAlive(ps, alive) ==> act == ps
    ensures AllAlive(ps, alive) && Distinct(ps) ==> (cur.Some? ==> cur.value < |act|)
  {
    act := Filter(ps, alive);
    cur := StoredIndex(ps, act);
    if act != [] {
      assert act[|act| - 1] in act;
    }
    AllAliveInBounds(ps, alive);
  }

  /**
   * The as-written index is not an index into `active` once a proxy before the
   * last alive one is dead: [A, B] with only B alive stores 1 for a one-element list.
   */
  lemma StoredIndexOutOfBounds(a: Proxy, b: Proxy)
    requires a != b
    ensures var active := Filter([a, b], p => p == b);
      && active == [b]
      && StoredIndex([a, b], active) == Some(1)
      && StoredIndex([a, b], active).value >= |active|
  {
    assert [a, b][1..] == [b];
    assert Filter([b], p => p == b) == [b] + Filter([], p => p == b);
  }

  /**
   * With a repeated proxy the as-written index can be in bounds and still name
   * the wrong proxy: [D, L, M, L] with only D dead gives `active` [L, M, L], the
   * stored index 1 (the first L in `all`), and `active[1]` is M, not the last L.
   */
  lemma StoredIndexNamesWrongProxy(d: Proxy, l: Proxy, m: Proxy)
    requires d != l && d != m && l != m
    ensures var all := [d, l, m, l];
      var active := Filter(all, p => p != d);
      && active == [l, m, l]
      && StoredIndex(all, active) == Some(1)
      && 1 < |active|
      && active[1] == m && active[|active| - 1] == l && m != l
  {
    var all := [d, l, m, l];
    var alive := p => p != d;
    assert Filter(all, alive) == Filter([l, m, l], alive) by { assert all[1..] == [l, m, l]; }
    assert Filter([l, m, l], alive) == [l] + Filter([m, l], alive) by { assert [l, m, l][1..] == [m, l]; }
    assert Filter([m, l], alive) == [m] + Filter([l], alive) by { assert [m, l][1..] == [l]; }
    assert Filter([l], alive) == [l] by { assert [l][1..] == []; }
    assert Position(all, l) == Some(1) by {
      assert all[1..] == [l, m, l];
      assert Position([l, m, l], l) == Some(0);
    }
  }

  /** The index the pool evidently means: the last position of `active`. */
  function ActiveIndex(active: seq<Proxy>): (r: Option<nat>)
    ensures r.None? <==> active == []
    ensures r.Some? ==> r.value < |active|
  {
    if active == [] then None else Some(|active| - 1)
  }

  /**
   * Discard and reselect as the pool evidently means it: remove the proxy at
   * the corrected index and select the new last position of `active`.
   */
  function CorrectedDiscard(active: seq<Proxy>, current: Option<nat>): (r: (seq<Proxy>, Option<nat>))
    requires current == ActiveIndex(active)
    ensures current.None? ==> r == (active, current)
    ensures current.Some? ==> r.0 == RemoveAt(active, current.value)
    ensures r.1 == ActiveIndex(r.0)
  {
    match current
    case None => (active, None)
    case Some(i) => var rest := RemoveAt(active, i); (rest, ActiveIndex(rest))
  }

  /**
   * For every pool, repeated proxies included: the corrected index always
   * denotes the last active proxy, and a corrected discard removes exactly that
   * proxy, keeps `active` an order-preserving subsequence of `all` and leaves
   * an index that is again in bounds.
   */
  lemma CorrectedDiscardKeepsInBounds(all: seq<Proxy>, active: seq<Proxy>)
    requires Subseq(active, all)
    ensures ActiveIndex(active).Some? ==> active[ActiveIndex(active).value] == active[|active| - 1]
    ensures var (rest, next) := CorrectedDiscard(active, ActiveIndex(active));
      && Subseq(rest, all)
      && (active != [] ==> rest == active[..|active| - 1])
      && (next.None? <==> rest == [])
      && (next.Some? ==> next.value < |rest| && rest[next.value] == rest[|rest| - 1])
  {
    if active != [] {
      SubseqRemoveAt(active, all, |active| - 1);
    }
  }

  /** On a prefix of distinct proxies the corrected index is the one the program stores. */
  lemma ActiveIndexSelectsLast(all: seq<Proxy>, active: seq<Proxy>)
    requires Distinct(all) && active <= all
    ensures StoredIndex(all, active) == ActiveIndex(active)
  {
    PrefixIndexIsLast(all, active);
  }

  class ProxyManager {
    const all: seq<Proxy>
    var active: seq<Proxy>
    var current: Option<nat>

    /** The pool's invariant: `active` keeps the order of `all`, the index is the stored one. */
    ghost predicate Valid()
      reads this
    {
      && Subseq(active, all)
      && (forall p :: p in active ==> p in all)
      && current == StoredIndex(all, active)
    }

    /** Indexing `active` with the stored index does not panic. */
    predicate InBounds()
      reads this
    {
      current.Some? ==> current.value < |active|
    }

    /** `ProxyManager::new`: keep the proxies that answer the probe; select the last. */
    constructor (proxies: seq<Proxy>, alive: Proxy -> bool)
      ensures Valid()
      ensures all == proxies
      ensures active == Filter(proxies, alive)
      ensures current.None? <==> (forall p :: p in proxies ==> !alive(p))
      ensures current.Some? ==> all[current.value] == active[|active| - 1]
      // every proxy alive: `active` is all of `all`, and with distinct proxies the index is in bounds
      ensures AllAlive(proxies, alive) ==> active == all
      ensures AllAlive(proxies, alive) && Distinct(proxies) ==> InBounds()
    {
      ghost var act, cur := NewPoolFacts(proxies, alive);
      var alives := Filter(proxies, alive);
      all := proxies;
      active := alives;
      current := StoredIndex(proxies, alives);
    }

    /** `get_current_proxy`: a copy of the proxy at the stored index into `active`. */
    function GetCurrentProxy(): (p: Option<Proxy>)
      reads this
      requires Valid() && InBounds()
      ensures p.None? <==> current.None?
      ensures p.Some? ==> p.value == active[current.value] && p.value in all
      ensures p.None? <==> active == []
    {
      match current
      case None => None
      case Some(i) => assert active[i] in active; Some(active[i])
    }

    /** `discard_current_proxy`: remove the proxy at the stored index, then reselect. */
    method DiscardCurrentProxy()
      requires Valid() && InBounds()
      modifies this
      ensures Valid()
      ensures old(current).None? ==> active == old(active) && current == old(current)
      ensures old(current).Some? ==> active == RemoveAt(old(active), old(current).value)
      ensures |active| == |old(active)| - (if old(current).Some? then 1 else 0)
      ensures current == StoredIndex(all, active)
      ensures current.None? <==> active == []
      // a prefix of distinct proxies stays one, and its index stays in bounds
      ensures Distinct(all) && old(active) <= all ==> active <= all && InBounds()
    {
      var taken := current;
      current := None;
      if taken.Some? {
        var i := taken.value;
        SubseqRemoveAt(active, all, i);
        ghost var before := active;
        if Distinct(all) && before <= all {
          DiscardKeepsPrefix(all, before);
        }
        active := RemoveAt(active, i);
        SelectNextProxy();
        if Distinct(all) && before <= all {
          PrefixIndexIsLast(all, active);
        }
      } else if Distinct(all) && active <= all {
        PrefixIndexIsLast(all, active);
      }
    }

    /** `select_next_proxy`: store the position in `all` of the last active proxy. */
    method SelectNextProxy()
      requires Subseq(active, all)
      modifies this`current
      ensures Valid()
    {
      forall p | p in active ensures p in all {
        SubseqMembers(active, all, p);
      }
      current := StoredIndex(all, active);
    }
  }

  /** The two-proxy pool with only the second alive: built by `new`, its stored index is out of bounds. */
  method OnlyLastAlivePool(a: Proxy, b: Proxy) returns (pm: ProxyManager)
    requires a != b
    ensures pm.Valid() && pm.all == [a, b] && pm.active == [b]
    ensures pm.current == Some(1) && !pm.InBounds()
  {
    pm := new ProxyManager([a, b], p => p == b);
    StoredIndexOutOfBounds(a, b);
  }

  /**
   * While `active` is a prefix of distinct proxies the stored index is in bounds,
   * and discarding keeps `active` a prefix, so the pool never panics.
   */
  lemma DiscardKeepsPrefix(all: seq<Proxy>, active: seq<Proxy>)
    requires Distinct(all) && active <= all && active != []
    ensures forall p :: p in active ==> p in all
    ensures StoredIndex(all, active) == Some(|active| - 1)
    ensures RemoveAt(active, |active| - 1) <= all
  {
    PrefixIndexIsLast(all, active);
  }
}
