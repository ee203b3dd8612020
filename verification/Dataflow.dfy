/** What a program of memory accesses computes when every access reads what its intended producers stored. */
module Dataflow {
  import opened Traces

  /** `sources` are the accesses whose results an access reads, `inputs` the input words it reads before
      them, and `stage` a number that grows along every such dependence. */
  datatype Flow<!N, !L> = Flow(dst: N -> L, inputs: N -> seq<L>, sources: N -> seq<N>, stage: N -> nat)

  ghost predicate StagedAt<N(!new), L(!new)>(flow: Flow<N, L>, a: N) {
    && (forall j: nat :: j < |flow.sources(a)| ==> flow.stage(flow.sources(a)[j]) < flow.stage(a))
    && (forall b: N :: flow.dst(a) !in flow.inputs(b))
  }

  ghost predicate WellStaged<N(!new), L(!new)>(flow: Flow<N, L>) {
    forall a: N :: StagedAt(flow, a)
  }

  function Map<N, L>(f: N -> L, q: seq<N>): (r: seq<L>)
    ensures |r| == |q| && forall i :: 0 <= i < |q| ==> r[i] == f(q[i])
  {
    if q == [] then [] else [f(q[0])] + Map(f, q[1..])
  }

  function Program<N, L, V>(flow: Flow<N, L>, sem: N -> (seq<V> -> V)): N -> Access<L, V> {
    (a: N) => Access(flow.dst(a), flow.inputs(a) + Map(flow.dst, flow.sources(a)), sem(a))
  }

  /** What the sources of an access mean. */
  ghost function Meanings<N(!new), L(!new), V>(flow: Flow<N, L>, sem: N -> (seq<V> -> V), m: imap<L, V>,
                                               a: N): (r: seq<V>)
    requires Total(m) && WellStaged(flow)
    ensures |r| == |flow.sources(a)|
    ensures forall j :: 0 <= j < |r| ==> r[j] == Meaning(flow, sem, m, flow.sources(a)[j])
    decreases flow.stage(a), 0
  {
    assert StagedAt(flow, a);
    seq(|flow.sources(a)|, j requires 0 <= j < |flow.sources(a)| => Meaning(flow, sem, m, flow.sources(a)[j]))
  }

  /** The value an access stores, as a function of the inputs alone. */
  ghost function Meaning<N(!new), L(!new), V>(flow: Flow<N, L>, sem: N -> (seq<V> -> V), m: imap<L, V>, a: N): V
    requires Total(m) && WellStaged(flow)
    decreases flow.stage(a), 1
  {
    sem(a)(Values(m, flow.inputs(a)) + Meanings(flow, sem, m, a))
  }

  /** Order[i] is the last access before order[n] that stores to its own location. */
  ghost predicate LastStore<N(!new), L(!new)>(flow: Flow<N, L>, order: seq<N>, i: nat, n: nat)
    requires n <= |order|
  {
    i < n && forall k :: i < k < n ==> flow.dst(order[k]) != flow.dst(order[i])
  }

  /** The n-th access finds the result of its j-th source where it was stored. */
  ghost predicate FindsSource<N(!new), L(!new)>(flow: Flow<N, L>, order: seq<N>, n: nat, j: nat)
    requires n < |order| && j < |flow.sources(order[n])|
  {
    exists i: nat :: LastStore(flow, order, i, n) && order[i] == flow.sources(order[n])[j]
  }

  ghost predicate ReadsItsSources<N(!new), L(!new)>(flow: Flow<N, L>, order: seq<N>) {
    forall n: nat, j: nat :: n < |order| && j < |flow.sources(order[n])| ==> FindsSource(flow, order, n, j)
  }

  ghost predicate Meant<N(!new), L(!new), V>(flow: Flow<N, L>, sem: N -> (seq<V> -> V), order: seq<N>, m0: imap<L, V>,
                                             m: imap<L, V>, n: nat)
    requires Total(m0) && Total(m) && WellStaged(flow) && n <= |order|
  {
    && (forall i: nat :: LastStore(flow, order, i, n) ==> m[flow.dst(order[i])] == Meaning(flow, sem, m0, order[i]))
    && (forall a: N, l: L :: l in flow.inputs(a) ==> m[l] == m0[l])
  }

  /** Where the j-th source of an access stored is what that source means. */
  ghost predicate SourceMeant<N(!new), L(!new), V>(flow: Flow<N, L>, sem: N -> (seq<V> -> V), m0: imap<L, V>,
                                                   m: imap<L, V>, a: N, j: nat)
    requires Total(m0) && Total(m) && WellStaged(flow) && j < |flow.sources(a)|
  {
    m[flow.dst(flow.sources(a)[j])] == Meaning(flow, sem, m0, flow.sources(a)[j])
  }

  lemma SourceIsMeant<N(!new), L(!new), V>(flow: Flow<N, L>, sem: N -> (seq<V> -> V), order: seq<N>, m0: imap<L, V>,
                                           m: imap<L, V>, n: nat, j: nat)
    requires Total(m0) && Total(m) && WellStaged(flow) && ReadsItsSources(flow, order) && n < |order|
    requires Meant(flow, sem, order, m0, m, n) && j < |flow.sources(order[n])|
    ensures SourceMeant(flow, sem, m0, m, order[n], j)
  {
    assert FindsSource(flow, order, n, j);
    var i: nat :| LastStore(flow, order, i, n) && order[i] == flow.sources(order[n])[j];
  }

  /** An access that finds what its sources mean, and unchanged inputs, stores what it means. */
  lemma StoresMeaning<N(!new), L(!new), V>(flow: Flow<N, L>, sem: N -> (seq<V> -> V), m0: imap<L, V>, m: imap<L, V>,
                                           a: N)
    requires Total(m0) && Total(m) && WellStaged(flow)
    requires forall j: nat :: j < |flow.sources(a)| ==> SourceMeant(flow, sem, m0, m, a, j)
    requires forall l: L :: l in flow.inputs(a) ==> m[l] == m0[l]
    ensures Perform(m, Program(flow, sem)(a)) == m[flow.dst(a) := Meaning(flow, sem, m0, a)]
  {
    var inputs, q := flow.inputs(a), flow.sources(a);
    var vs, ws := Values(m, inputs + Map(flow.dst, q)), Values(m0, inputs) + Meanings(flow, sem, m0, a);
    forall k | 0 <= k < |vs| ensures vs[k] == ws[k] {
      if k >= |inputs| { assert SourceMeant(flow, sem, m0, m, a, k - |inputs|); }
    }
    assert vs == ws;
  }

  lemma MeantStep<N(!new), L(!new), V>(flow: Flow<N, L>, sem: N -> (seq<V> -> V), order: seq<N>, m0: imap<L, V>,
                                       m: imap<L, V>, n: nat)
    requires Total(m0) && Total(m) && WellStaged(flow) && ReadsItsSources(flow, order) && n < |order|
    requires Meant(flow, sem, order, m0, m, n)
    ensures Meant(flow, sem, order, m0, Perform(m, Program(flow, sem)(order[n])), n + 1)
  {
    var a := order[n];
    forall j: nat | j < |flow.sources(a)| ensures SourceMeant(flow, sem, m0, m, a, j) {
      SourceIsMeant(flow, sem, order, m0, m, n, j);
    }
    StoresMeaning(flow, sem, m0, m, a);
    MeantUpdate(flow, sem, order, m0, m, n, Meaning(flow, sem, m0, a));
  }

  lemma MeantUpdate<N(!new), L(!new), V>(flow: Flow<N, L>, sem: N -> (seq<V> -> V), order: seq<N>, m0: imap<L, V>,
                                         m: imap<L, V>, n: nat, v: V)
    requires Total(m0) && Total(m) && WellStaged(flow) && n < |order| && Meant(flow, sem, order, m0, m, n)
    requires v == Meaning(flow, sem, m0, order[n])
    ensures Meant(flow, sem, order, m0, m[flow.dst(order[n]) := v], n + 1)
  {
    assert StagedAt(flow, order[n]);
    var m' := m[flow.dst(order[n]) := v];
    forall i: nat | LastStore(flow, order, i, n + 1)
      ensures m'[flow.dst(order[i])] == Meaning(flow, sem, m0, order[i])
    {
      if i < n { assert LastStore(flow, order, i, n); }
    }
  }

  lemma MeantNext<N(!new), L(!new), V>(flow: Flow<N, L>, sem: N -> (seq<V> -> V), order: seq<N>, m0: imap<L, V>,
                                       before: imap<L, V>, after: imap<L, V>, n: nat)
    requires Total(m0) && Total(before) && Total(after) && WellStaged(flow) && ReadsItsSources(flow, order)
             && n < |order|
    requires Meant(flow, sem, order, m0, before, n) && after == Perform(before, Program(flow, sem)(order[n]))
    ensures Meant(flow, sem, order, m0, after, n + 1)
  {
    MeantStep(flow, sem, order, m0, before, n);
  }

  lemma ExecuteOneMore<N(!new), L(!new), V>(prog: N -> Access<L, V>, order: seq<N>, m: imap<L, V>, n: nat)
    requires Total(m) && n < |order|
    ensures Execute(prog, order[..n + 1], m) == Perform(Execute(prog, order[..n], m), prog(order[n]))
    decreases n
  {
    if n > 0 {
      var rest := order[1..];
      ExecuteOneMore(prog, rest, Perform(m, prog(order[0])), n - 1);
      assert order[..n + 1][1..] == rest[..n] && order[..n][1..] == rest[..n - 1] && rest[n - 1] == order[n];
    }
  }

  lemma {:induction false} MeantPrefix<N(!new), L(!new), V>(flow: Flow<N, L>, sem: N -> (seq<V> -> V), order: seq<N>,
                                                            m: imap<L, V>, n: nat)
    requires Total(m) && WellStaged(flow) && ReadsItsSources(flow, order) && n <= |order|
    ensures Meant(flow, sem, order, m, Execute(Program(flow, sem), order[..n], m), n)
  {
    if n > 0 {
      MeantPrefix(flow, sem, order, m, n - 1);
      ExecuteOneMore(Program(flow, sem), order, m, n - 1);
      MeantNext(flow, sem, order, m, Execute(Program(flow, sem), order[..n - 1], m),
                Execute(Program(flow, sem), order[..n], m), n - 1);
    }
  }

  /** A location last stored by an access ends up holding what that access means. */
  lemma FinalValue<N(!new), L(!new), V>(flow: Flow<N, L>, sem: N -> (seq<V> -> V), order: seq<N>, m: imap<L, V>, i: nat)
    requires Total(m) && WellStaged(flow) && ReadsItsSources(flow, order) && LastStore(flow, order, i, |order|)
    ensures Execute(Program(flow, sem), order, m)[flow.dst(order[i])] == Meaning(flow, sem, m, order[i])
  {
    MeantPrefix(flow, sem, order, m, |order|);
    assert order[..|order|] == order;
  }

  lemma FinalValueAt<N(!new), L(!new), V>(flow: Flow<N, L>, sem: N -> (seq<V> -> V), order: seq<N>, m: imap<L, V>,
                                          i: nat, a: N, l: L)
    requires Total(m) && WellStaged(flow) && ReadsItsSources(flow, order) && LastStore(flow, order, i, |order|)
    requires order[i] == a && flow.dst(a) == l
    ensures Execute(Program(flow, sem), order, m)[l] == Meaning(flow, sem, m, a)
  {
    FinalValue(flow, sem, order, m, i);
  }

  /** An access of input words alone, and one of other accesses alone. */
  lemma {:induction false} MeaningOfSources<N(!new), L(!new), V>(flow: Flow<N, L>, sem: N -> (seq<V> -> V),
                                                                 m: imap<L, V>, a: N)
    requires Total(m) && WellStaged(flow) && flow.inputs(a) == []
    ensures Meaning(flow, sem, m, a) == sem(a)(Meanings(flow, sem, m, a))
  {
    assert Values(m, flow.inputs(a)) + Meanings(flow, sem, m, a) == Meanings(flow, sem, m, a);
  }

  lemma {:induction false} MeaningOfInput<N(!new), L(!new), V>(flow: Flow<N, L>, sem: N -> (seq<V> -> V), m: imap<L, V>,
                                                               a: N, l: L)
    requires Total(m) && WellStaged(flow) && flow.inputs(a) == [l] && flow.sources(a) == []
    ensures Meaning(flow, sem, m, a) == sem(a)([m[l]])
  {
    assert Values(m, flow.inputs(a)) + Meanings(flow, sem, m, a) == [m[l]];
  }

  /** An access of other accesses alone, given what they mean. */
  lemma {:induction false} MeaningOf<N(!new), L(!new), V>(flow: Flow<N, L>, sem: N -> (seq<V> -> V), m: imap<L, V>,
                                                          a: N, words: seq<V>)
    requires Total(m) && WellStaged(flow) && flow.inputs(a) == [] && |words| == |flow.sources(a)|
    requires forall j: nat :: j < |words| ==> Meaning(flow, sem, m, flow.sources(a)[j]) == words[j]
    ensures Meaning(flow, sem, m, a) == sem(a)(words)
  {
    MeaningOfSources(flow, sem, m, a);
    assert Meanings(flow, sem, m, a) == words;
  }

  lemma {:induction false} MeaningOfFour<N(!new), L(!new), V>(flow: Flow<N, L>, sem: N -> (seq<V> -> V), m: imap<L, V>,
                                                              a: N, q: seq<N>, w: seq<V>)
    requires Total(m) && WellStaged(flow) && flow.inputs(a) == [] && flow.sources(a) == q && |q| == |w| == 4
    requires Meaning(flow, sem, m, q[0]) == w[0] && Meaning(flow, sem, m, q[1]) == w[1]
    requires Meaning(flow, sem, m, q[2]) == w[2] && Meaning(flow, sem, m, q[3]) == w[3]
    ensures Meaning(flow, sem, m, a) == sem(a)(w)
  {
    MeaningOf(flow, sem, m, a, w);
  }

  /** The values of an access's sources, given those of all but the last. */
  lemma {:induction false} MeaningsSplit<N(!new), L(!new), V>(flow: Flow<N, L>, sem: N -> (seq<V> -> V), m: imap<L, V>,
                                                              a: N, ops: seq<N>, words: seq<V>)
    requires Total(m) && WellStaged(flow) && |words| == |ops| && |ops| <= |flow.sources(a)| <= |ops| + 1
    requires forall j: nat :: j < |ops| ==> flow.sources(a)[j] == ops[j] && Meaning(flow, sem, m, ops[j]) == words[j]
    ensures Meanings(flow, sem, m, a) == if |flow.sources(a)| == |ops| then words
            else words + [Meaning(flow, sem, m, flow.sources(a)[|ops|])]
  {
  }
}
