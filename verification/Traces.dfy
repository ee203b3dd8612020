/** Executions of a set of memory accesses in different orders.

    An access reads some locations and stores a function of what it read to one location.  Two accesses
    conflict when one stores what the other reads or stores.  Two orders of the same accesses that agree
    on every conflicting pair end in the same memory, whatever the stored functions are. */
module Traces {
  datatype Access<!L, !V> = Access(dst: L, srcs: seq<L>, f: seq<V> -> V)

  /** A memory gives every location a value. */
  ghost predicate Total<L(!new), V>(m: imap<L, V>) {
    forall l: L :: l in m
  }

  ghost function Values<L(!new), V>(m: imap<L, V>, srcs: seq<L>): (vs: seq<V>)
    requires Total(m)
    ensures |vs| == |srcs| && forall i :: 0 <= i < |srcs| ==> vs[i] == m[srcs[i]]
  {
    seq(|srcs|, i requires 0 <= i < |srcs| => m[srcs[i]])
  }

  ghost function Perform<L(!new), V>(m: imap<L, V>, a: Access<L, V>): (r: imap<L, V>)
    requires Total(m)
    ensures Total(r)
  {
    m[a.dst := a.f(Values(m, a.srcs))]
  }

  /** Perform the named accesses of a program in the given order. */
  ghost function Execute<N(!new), L(!new), V>(prog: N -> Access<L, V>, order: seq<N>, m: imap<L, V>): (r: imap<L, V>)
    requires Total(m)
    ensures Total(r)
    decreases |order|
  {
    if order == [] then m else Execute(prog, order[1..], Perform(m, prog(order[0])))
  }

  /** A location no access stores to keeps its value. */
  lemma {:induction false} Untouched<N(!new), L(!new), V>(prog: N -> Access<L, V>, order: seq<N>, m: imap<L, V>, l: L)
    requires Total(m) && forall a :: a in order ==> prog(a).dst != l
    ensures Execute(prog, order, m)[l] == m[l]
    decreases |order|
  {
    if order != [] {
      assert order[0] in order && forall a :: a in order[1..] ==> a in order;
      Untouched(prog, order[1..], Perform(m, prog(order[0])), l);
    }
  }

  ghost predicate StoresOnly<L, V(!new)>(a: Access<L, V>, l: L, v: V) {
    a.dst == l ==> forall vs :: a.f(vs) == v
  }

  /** A location that is stored to, and always the same value, ends up with it. */
  lemma {:induction false} Settled<N(!new), L(!new), V(!new)>(prog: N -> Access<L, V>, order: seq<N>, m: imap<L, V>,
                                                              l: L, v: V, a: N)
    requires Total(m) && a in order && prog(a).dst == l && forall b :: b in order ==> StoresOnly(prog(b), l, v)
    ensures Execute(prog, order, m)[l] == v
    decreases |order|
  {
    var b, rest := order[0], order[1..];
    assert b in order && forall c :: c in rest ==> c in order;
    if a in rest {
      Settled(prog, rest, Perform(m, prog(b)), l, v, a);
    } else if c :| c in rest && prog(c).dst == l {
      Settled(prog, rest, Perform(m, prog(b)), l, v, c);
    } else {
      Untouched(prog, rest, Perform(m, prog(b)), l);
    }
  }

  ghost predicate Conflict<L, V>(a: Access<L, V>, b: Access<L, V>) {
    a.dst == b.dst || a.dst in b.srcs || b.dst in a.srcs
  }

  ghost predicate Distinct<N(!new)>(order: seq<N>) {
    forall i, j :: 0 <= i < j < |order| ==> order[i] != order[j]
  }

  /** a comes before b in the order. */
  ghost predicate Before<N(!new)>(order: seq<N>, a: N, b: N) {
    exists i, j :: 0 <= i < j < |order| && order[i] == a && order[j] == b
  }

  lemma BeforeIsAsymmetric<N(!new)>(order: seq<N>, a: N, b: N)
    requires Distinct(order) && Before(order, a, b)
    ensures !Before(order, b, a)
  {
  }

  /** The same accesses, with every conflicting pair in the same order. */
  ghost predicate Equivalent<N(!new), L(!new), V>(prog: N -> Access<L, V>, xs: seq<N>, ys: seq<N>) {
    && Distinct(xs) && Distinct(ys)
    && (forall a: N :: a in xs <==> a in ys)
    && (forall a: N, b: N :: Before(xs, a, b) && Conflict(prog(a), prog(b)) ==> Before(ys, a, b))
  }

  lemma PerformCommutes<L(!new), V>(m: imap<L, V>, a: Access<L, V>, b: Access<L, V>)
    requires Total(m) && !Conflict(a, b)
    ensures Perform(Perform(m, a), b) == Perform(Perform(m, b), a)
  {
    assert Values(Perform(m, a), b.srcs) == Values(m, b.srcs);
    assert Values(Perform(m, b), a.srcs) == Values(m, a.srcs);
  }

  /** An access that conflicts with none of those before it can be moved to the front. */
  lemma {:induction false} MoveToFront<N(!new), L(!new), V>(prog: N -> Access<L, V>, before: seq<N>, a: N, rest: seq<N>,
                                                            m: imap<L, V>)
    requires Total(m) && forall b :: b in before ==> !Conflict(prog(a), prog(b))
    ensures Execute(prog, before + [a] + rest, m) == Execute(prog, [a] + before + rest, m)
    decreases |before|
  {
    if before == [] {
      assert before + [a] + rest == [a] + before + rest;
    } else {
      var b, more := before[0], before[1..];
      assert b in before && forall c :: c in more ==> c in before;
      MoveToFront(prog, more, a, rest, Perform(m, prog(b)));
      assert (before + [a] + rest)[1..] == more + [a] + rest;
      assert ([a] + more + rest)[1..] == more + rest;
      PerformCommutes(m, prog(a), prog(b));
      assert ([a] + before + rest)[1..] == [b] + more + rest;
      assert ([b] + more + rest)[1..] == more + rest;
    }
  }

  lemma EmptyTogether<N(!new)>(xs: seq<N>, ys: seq<N>)
    requires forall a: N :: a in ys ==> a in xs
    ensures xs == [] ==> ys == []
  {
    if ys != [] { assert ys[0] in ys; }
  }

  /** Equivalent orders end in the same memory. */
  lemma {:induction false} EquivalentOrdersAgree<N(!new), L(!new), V>(prog: N -> Access<L, V>, xs: seq<N>, ys: seq<N>,
                                                                      m: imap<L, V>)
    requires Total(m) && Equivalent(prog, xs, ys)
    ensures Execute(prog, xs, m) == Execute(prog, ys, m)
    decreases |xs|
  {
    if xs == [] {
      EmptyTogether(xs, ys);
      return;
    }
    var a := xs[0];
    assert a in xs && a in ys;
    var p :| 0 <= p < |ys| && ys[p] == a;
    var before, rest := ys[..p], ys[p + 1..];
    assert ys == before + [a] + rest;
    forall b | b in before ensures !Conflict(prog(a), prog(b)) {
      var q :| 0 <= q < p && ys[q] == b;
      assert b in ys && b in xs;
      var j :| 0 <= j < |xs| && xs[j] == b;
      assert Before(xs, a, b) by { assert xs[0] == a && xs[j] == b && 0 < j; }
    }
    MoveToFront(prog, before, a, rest, m);
    EquivalentTails(prog, xs, ys, p);
    EquivalentOrdersAgree(prog, xs[1..], before + rest, Perform(m, prog(a)));
    assert ([a] + before + rest)[1..] == before + rest;
  }

  /** Taking the first access of xs out of both orders keeps them equivalent. */
  lemma EquivalentTails<N(!new), L(!new), V>(prog: N -> Access<L, V>, xs: seq<N>, ys: seq<N>, p: nat)
    requires Equivalent(prog, xs, ys) && xs != [] && p < |ys| && ys[p] == xs[0]
    ensures Equivalent(prog, xs[1..], ys[..p] + ys[p + 1..])
  {
    var a, xs', ys' := xs[0], xs[1..], ys[..p] + ys[p + 1..];
    forall i, j | 0 <= i < j < |ys'| ensures ys'[i] != ys'[j] {
      assert ys'[i] == ys[if i < p then i else i + 1] && ys'[j] == ys[if j < p then j else j + 1];
    }
    forall b: N ensures b in xs' <==> b in ys' {
      if b in xs' {
        assert b in xs && b != a;
        var q :| 0 <= q < |ys| && ys[q] == b;
        assert ys'[if q < p then q else q - 1] == b;
      }
      if b in ys' {
        var q :| 0 <= q < |ys'| && ys'[q] == b;
        assert ys[if q < p then q else q + 1] == b;
        assert b in xs && b != a;
        var j :| 0 <= j < |xs| && xs[j] == b;
        assert xs'[j - 1] == b;
      }
    }
    forall b: N, c: N | Before(xs', b, c) && Conflict(prog(b), prog(c)) ensures Before(ys', b, c) {
      var i, j :| 0 <= i < j < |xs'| && xs'[i] == b && xs'[j] == c;
      assert xs[i + 1] == b && xs[j + 1] == c;
      assert Before(ys, b, c);
      var k, l :| 0 <= k < l < |ys| && ys[k] == b && ys[l] == c;
      assert ys'[if k < p then k else k - 1] == b && ys'[if l < p then l else l - 1] == c;
    }
  }

  // ---- orders exist ------------------------------------------------------------------------------

  ghost predicate SortedBy<N(!new)>(order: seq<N>, key: N -> int) {
    forall i, j :: 0 <= i < j < |order| ==> key(order[i]) <= key(order[j])
  }

  /** Any finite set of accesses can be put in the order of a key. */
  lemma {:induction false} Sorted<N(!new)>(all: set<N>, key: N -> int) returns (order: seq<N>)
    ensures Distinct(order) && SortedBy(order, key) && forall a: N :: a in order <==> a in all
    decreases |all|
  {
    if all == {} { return []; }
    var last := Largest(all, key);
    var front := Sorted(all - {last}, key);
    order := front + [last];
    assert forall a: N :: a in all <==> a in all - {last} || a == last;
    forall i | 0 <= i < |front| ensures key(front[i]) <= key(last) && front[i] != last { assert front[i] in front; }
  }

  lemma {:induction false} Largest<N(!new)>(all: set<N>, key: N -> int) returns (a: N)
    requires all != {}
    ensures a in all && forall b :: b in all ==> key(b) <= key(a)
    decreases |all|
  {
    a :| a in all;
    var rest := all - {a};
    if rest != {} {
      var b := Largest(rest, key);
      if key(b) > key(a) { a := b; }
    }
    assert forall b :: b in all ==> b in rest || key(b) <= key(a);
  }

  lemma {:induction false} DistinctFits<N(!new)>(order: seq<N>, all: set<N>)
    requires Distinct(order) && forall a :: a in order ==> a in all
    ensures |order| <= |all|
    decreases |order|
  {
    if order != [] {
      var last, front := order[|order| - 1], order[..|order| - 1];
      assert last in order;
      forall a | a in front ensures a in all - {last} { assert a in order; }
      DistinctFits(front, all - {last});
    }
  }

  lemma SortedIsBefore<N(!new)>(order: seq<N>, key: N -> int, a: N, b: N)
    requires SortedBy(order, key) && a in order && b in order && key(a) < key(b)
    ensures Before(order, a, b)
  {
    var i :| 0 <= i < |order| && order[i] == a;
    var j :| 0 <= j < |order| && order[j] == b;
    assert i < j;
  }
}
