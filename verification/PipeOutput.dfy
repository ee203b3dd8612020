/** What the pipelined schedule computes, word by word and straight from global memory: scores, probabilities,
    codes, scales, the PV product and the finalized output of each tile, for any functions the mesh and the row
    work compute on these words. */
module PipeOutput {
  import opened Arith
  import opened Dataflow
  import opened Pipe
  import opened Traces

  /** A word of S from Q, K and their scales; a row's maximum, sum, correction and j-th probability word from its
      scores; a code word and a block scale from all probabilities; four scales in one word; a word of O from codes,
      V and their scales; and an output word from a word of O and the row's sum. */
  datatype Kernels<!V> = Kernels(
    qk: (nat, seq<V>, seq<V>, seq<V>, seq<V>) -> V,
    max: seq<V> -> V, sum: seq<V> -> V, corr: seq<V> -> V, prob: (nat, seq<V>) -> V,
    code: (nat, seq<V>) -> V, scale: (nat, seq<V>) -> V, pack: (V, V, V, V) -> V,
    pv: (nat, seq<V>, seq<V>, seq<V>, seq<V>) -> V,
    finalize: (V, V) -> V)

  // ---- the words, from global memory ------------------------------------------------------------

  /** The first n input words of one kind of tile t. */
  ghost function Words<V(!new)>(m: imap<Loc, V>, kind: Kind, t: nat, n: nat): (r: seq<V>)
    requires Total(m)
    ensures |r| == n && forall j :: 0 <= j < n ==> r[j] == m[Loc(Input(kind), t, j)]
  {
    seq(n, j requires 0 <= j < n => m[Loc(Input(kind), t, j)])
  }

  /** Word i of S. */
  ghost function Score<V(!new)>(s: Shape, f: Kernels<V>, m: imap<Loc, V>, t: nat, i: nat): V
    requires Total(m)
  {
    f.qk(i, Words(m, MvinQ, t, s.aWords), Words(m, MvinK, t, s.kWords),
         Words(m, ScaleQ, t, s.qScales), Words(m, ScaleK, t, s.kScales))
  }

  /** Row r of S. */
  ghost function ScoreRow<V(!new)>(s: Shape, f: Kernels<V>, m: imap<Loc, V>, t: nat, r: nat): (q: seq<V>)
    requires Total(m)
    ensures |q| == s.sWords && forall j :: 0 <= j < s.sWords ==> q[j] == Score(s, f, m, t, r * s.sWords + j)
  {
    seq(s.sWords, j requires 0 <= j < s.sWords => Score(s, f, m, t, r * s.sWords + j))
  }

  /** Word i of P: word i % sWords of row i / sWords. */
  ghost function Probability<V(!new)>(s: Shape, f: Kernels<V>, m: imap<Loc, V>, t: nat, i: nat): V
    requires Total(m) && s.sWords > 0
  {
    f.prob(Mod(i, s.sWords), ScoreRow(s, f, m, t, Div(i, s.sWords)))
  }

  ghost function Probabilities<V(!new)>(s: Shape, f: Kernels<V>, m: imap<Loc, V>, t: nat): (q: seq<V>)
    requires Total(m)
    ensures |q| == s.rows * s.sWords
    ensures forall i: nat :: i < |q| ==> s.sWords > 0 && q[i] == Probability(s, f, m, t, i)
  {
    if s.sWords == 0 then []
    else seq(s.rows * s.sWords, i requires 0 <= i < s.rows * s.sWords => Probability(s, f, m, t, i))
  }

  ghost function Codes<V(!new)>(s: Shape, f: Kernels<V>, m: imap<Loc, V>, t: nat): (q: seq<V>)
    requires Total(m)
    ensures |q| == s.pWords && forall i: nat :: i < |q| ==> q[i] == f.code(i, Probabilities(s, f, m, t))
  {
    seq(s.pWords, i requires 0 <= i < s.pWords => f.code(i, Probabilities(s, f, m, t)))
  }

  ghost function BlockScale<V(!new)>(s: Shape, f: Kernels<V>, m: imap<Loc, V>, t: nat, i: nat): V
    requires Total(m)
  {
    f.scale(i, Probabilities(s, f, m, t))
  }

  /** Scales 4i to 4i + 3 in one word. */
  ghost function PackedScales<V(!new)>(s: Shape, f: Kernels<V>, m: imap<Loc, V>, t: nat): (q: seq<V>)
    requires Total(m)
    ensures |q| == s.pScales
    ensures forall i: nat :: i < |q| ==>
              q[i] == f.pack(BlockScale(s, f, m, t, 4 * i), BlockScale(s, f, m, t, 4 * i + 1),
                             BlockScale(s, f, m, t, 4 * i + 2), BlockScale(s, f, m, t, 4 * i + 3))
  {
    seq(s.pScales, i requires 0 <= i < s.pScales =>
      f.pack(BlockScale(s, f, m, t, 4 * i), BlockScale(s, f, m, t, 4 * i + 1),
             BlockScale(s, f, m, t, 4 * i + 2), BlockScale(s, f, m, t, 4 * i + 3)))
  }

  /** Word i of O before it is normalized. */
  ghost function Product<V(!new)>(s: Shape, f: Kernels<V>, m: imap<Loc, V>, t: nat, i: nat): V
    requires Total(m)
  {
    f.pv(i, Codes(s, f, m, t), Words(m, MvinV, t, s.vWords),
         PackedScales(s, f, m, t), Words(m, ScaleV, t, s.vScales))
  }

  /** Word i of the output: the PV product's over the sum of row i / oWords. */
  ghost function Attention<V(!new)>(s: Shape, f: Kernels<V>, m: imap<Loc, V>, t: nat, i: nat): V
    requires Total(m) && s.oWords > 0
  {
    f.finalize(Product(s, f, m, t, i), f.sum(ScoreRow(s, f, m, t, Div(i, s.oWords))))
  }

  // ---- accesses that compute these functions ------------------------------------------------------

  ghost predicate Copies<V>(sem: Op -> (seq<V> -> V), a: Op, v: V) {
    (IsInput(a.kind) || a.kind == CopyScales) ==> sem(a)([v]) == v
  }

  ghost predicate MultipliesQk<V>(s: Shape, f: Kernels<V>, sem: Op -> (seq<V> -> V), t: nat, i: nat,
                                  q: seq<V>, k: seq<V>, qs: seq<V>, ks: seq<V>) {
    |q| == s.aWords && |k| == s.kWords && |qs| == s.qScales && |ks| == s.kScales ==>
      sem(Op(MatQk, t, i))(q + k + qs + ks) == f.qk(i, q, k, qs, ks)
  }

  ghost predicate MultipliesPv<V>(s: Shape, f: Kernels<V>, sem: Op -> (seq<V> -> V), t: nat, i: nat,
                                  p: seq<V>, v: seq<V>, ps: seq<V>, vs: seq<V>) {
    |p| == s.pWords && |v| == s.vWords && |ps| == s.pScales && |vs| == s.vScales ==>
      sem(Op(MatPv, t, i))(p + v + ps + vs) == f.pv(i, p, v, ps, vs)
  }

  ghost predicate RowWorks<V>(f: Kernels<V>, sem: Op -> (seq<V> -> V), t: nat, r: nat, row: seq<V>) {
    && sem(Op(RowMax, t, r))(row) == f.max(row) && sem(Op(RowSum, t, r))(row) == f.sum(row)
    && sem(Op(RowCorr, t, r))(row) == f.corr(row)
  }

  ghost predicate WordWorks<V>(s: Shape, f: Kernels<V>, sem: Op -> (seq<V> -> V), t: nat, i: nat, words: seq<V>) {
    && (s.sWords > 0 ==> sem(Op(RowProb, t, i))(words) == f.prob(Mod(i, s.sWords), words))
    && sem(Op(Requant, t, i))(words) == f.code(i, words) && sem(Op(RequantScale, t, i))(words) == f.scale(i, words)
  }

  ghost predicate Packs<V>(f: Kernels<V>, sem: Op -> (seq<V> -> V), t: nat, i: nat, v0: V, v1: V, v2: V, v3: V) {
    sem(Op(Prepack, t, i))([v0, v1, v2, v3]) == f.pack(v0, v1, v2, v3)
  }

  ghost predicate Normalizes<V>(f: Kernels<V>, sem: Op -> (seq<V> -> V), t: nat, i: nat, o: V, l: V) {
    sem(Op(Final, t, i))([o, l]) == f.finalize(o, l)
  }

  ghost predicate Semantics<V(!new)>(s: Shape, f: Kernels<V>, sem: Op -> (seq<V> -> V)) {
    && (forall a, v :: Copies(sem, a, v))
    && (forall t, i, q, k, qs, ks :: MultipliesQk(s, f, sem, t, i, q, k, qs, ks))
    && (forall t, i, p, v, ps, vs :: MultipliesPv(s, f, sem, t, i, p, v, ps, vs))
    && (forall t, r, row :: RowWorks(f, sem, t, r, row))
    && (forall t, i, words :: WordWorks(s, f, sem, t, i, words))
    && (forall t, i, v0, v1, v2, v3 :: Packs(f, sem, t, i, v0, v1, v2, v3))
    && (forall t, i, o, l :: Normalizes(f, sem, t, i, o, l))
  }

  /** For any such functions there are accesses that compute them. */
  function Computes<V>(s: Shape, f: Kernels<V>, unset: V): Op -> (seq<V> -> V) {
    (a: Op) => (vs: seq<V>) =>
      match a.kind
      case MatQk => if |vs| == s.aWords + s.kWords + s.qScales + s.kScales
                    then f.qk(a.i, vs[..s.aWords], vs[s.aWords..][..s.kWords], vs[s.aWords + s.kWords..][..s.qScales],
                              vs[s.aWords + s.kWords + s.qScales..])
                    else unset
      case MatPv => if |vs| == s.pWords + s.vWords + s.pScales + s.vScales
                    then f.pv(a.i, vs[..s.pWords], vs[s.pWords..][..s.vWords], vs[s.pWords + s.vWords..][..s.pScales],
                              vs[s.pWords + s.vWords + s.pScales..])
                    else unset
      case RowMax => f.max(vs) case RowSum => f.sum(vs) case RowCorr => f.corr(vs)
      case RowProb => if s.sWords > 0 then f.prob(Mod(a.i, s.sWords), vs) else unset
      case Requant => f.code(a.i, vs) case RequantScale => f.scale(a.i, vs)
      case Prepack => if |vs| == 4 then f.pack(vs[0], vs[1], vs[2], vs[3]) else unset
      case Final => if |vs| == 2 then f.finalize(vs[0], vs[1]) else unset
      case _ => if vs == [] then unset else vs[0]
  }

  lemma Parts<V>(a: seq<V>, b: seq<V>, c: seq<V>, d: seq<V>)
    ensures var x := a + b + c + d;
            && x[..|a|] == a && x[|a|..][..|b|] == b && x[|a| + |b|..][..|c|] == c && x[|a| + |b| + |c|..] == d
  {
  }

  lemma ComputesQk<V>(s: Shape, f: Kernels<V>, unset: V, t: nat, i: nat, q: seq<V>, k: seq<V>, qs: seq<V>, ks: seq<V>)
    ensures MultipliesQk(s, f, Computes(s, f, unset), t, i, q, k, qs, ks)
  {
    Parts(q, k, qs, ks);
  }

  lemma ComputesPv<V>(s: Shape, f: Kernels<V>, unset: V, t: nat, i: nat, p: seq<V>, v: seq<V>, ps: seq<V>, vs: seq<V>)
    ensures MultipliesPv(s, f, Computes(s, f, unset), t, i, p, v, ps, vs)
  {
    Parts(p, v, ps, vs);
  }

  lemma ComputesSemantics<V(!new)>(s: Shape, f: Kernels<V>, unset: V)
    ensures Semantics(s, f, Computes(s, f, unset))
  {
    var sem := Computes(s, f, unset);
    forall t, i, q, k, qs, ks ensures MultipliesQk(s, f, sem, t, i, q, k, qs, ks) {
      ComputesQk(s, f, unset, t, i, q, k, qs, ks);
    }
    forall t, i, p, v, ps, vs ensures MultipliesPv(s, f, sem, t, i, p, v, ps, vs) {
      ComputesPv(s, f, unset, t, i, p, v, ps, vs);
    }
  }

  // ---- what each access means -----------------------------------------------------------------------

  lemma {:induction false} InputMeans<V(!new)>(s: Shape, f: Kernels<V>, sem: Op -> (seq<V> -> V), m: imap<Loc, V>,
                                               a: Op)
    requires Total(m) && WellStaged(Tiles(s)) && Semantics(s, f, sem) && IsInput(a.kind)
    ensures Meaning(Tiles(s), sem, m, a) == m[Loc(Input(a.kind), a.t, a.i)]
  {
    MeaningOfInput(Tiles(s), sem, m, a, Loc(Input(a.kind), a.t, a.i));
    assert Copies(sem, a, m[Loc(Input(a.kind), a.t, a.i)]);
  }

  /** All accesses of one kind of a tile mean the given words. */
  ghost predicate AllMean<V(!new)>(s: Shape, sem: Op -> (seq<V> -> V), m: imap<Loc, V>, kind: Kind, t: nat,
                                   words: seq<V>)
    requires Total(m) && WellStaged(Tiles(s))
  {
    |words| == Count(s, kind) && forall i: nat :: i < |words| ==> Meaning(Tiles(s), sem, m, Op(kind, t, i)) == words[i]
  }

  lemma InputsMean<V(!new)>(s: Shape, f: Kernels<V>, sem: Op -> (seq<V> -> V), m: imap<Loc, V>, kind: Kind, t: nat)
    requires Total(m) && WellStaged(Tiles(s)) && Semantics(s, f, sem) && IsInput(kind)
    ensures AllMean(s, sem, m, kind, t, Words(m, kind, t, Count(s, kind)))
  {
    forall i: nat | i < Count(s, kind)
      ensures Meaning(Tiles(s), sem, m, Op(kind, t, i)) == Words(m, kind, t, Count(s, kind))[i]
    {
      InputMeans(s, f, sem, m, Op(kind, t, i));
    }
  }

  /** Which of four parts index j falls in, and where in it. */
  function Part(j: nat, a: nat, b: nat, c: nat): (nat, nat) {
    if j < a then (0, j) else if j < a + b then (1, j - a) else if j < a + b + c then (2, j - a - b)
    else (3, j - a - b - c)
  }

  lemma JoinedAt<T>(a: seq<T>, b: seq<T>, c: seq<T>, d: seq<T>, j: nat, i: (nat, nat))
    requires j < |a| + |b| + |c| + |d| && i == Part(j, |a|, |b|, |c|)
    ensures i.0 == 0 ==> i.1 < |a| && (a + b + c + d)[j] == a[i.1]
    ensures i.0 == 1 ==> i.1 < |b| && (a + b + c + d)[j] == b[i.1]
    ensures i.0 == 2 ==> i.1 < |c| && (a + b + c + d)[j] == c[i.1]
    ensures i.0 == 3 ==> i.1 < |d| && (a + b + c + d)[j] == d[i.1]
    ensures i.0 < 4
  {
  }

  /** The j-th of all accesses of four kinds means the j-th of all their words. */
  lemma FourKindsAt<V(!new)>(s: Shape, sem: Op -> (seq<V> -> V), m: imap<Loc, V>, t: nat, k0: Kind, k1: Kind, k2: Kind,
                             k3: Kind, w0: seq<V>, w1: seq<V>, w2: seq<V>, w3: seq<V>, sources: seq<Op>, words: seq<V>,
                             j: nat)
    requires Total(m) && WellStaged(Tiles(s))
    requires AllMean(s, sem, m, k0, t, w0) && AllMean(s, sem, m, k1, t, w1)
    requires AllMean(s, sem, m, k2, t, w2) && AllMean(s, sem, m, k3, t, w3)
    requires sources == All(s, k0, t) + All(s, k1, t) + All(s, k2, t) + All(s, k3, t)
    requires words == w0 + w1 + w2 + w3 && j < |words|
    ensures |sources| == |words| && Meaning(Tiles(s), sem, m, sources[j]) == words[j]
  {
    var i := Part(j, |w0|, |w1|, |w2|);
    JoinedAt(w0, w1, w2, w3, j, i);
    JoinedAt(All(s, k0, t), All(s, k1, t), All(s, k2, t), All(s, k3, t), j, i);
  }

  /** An access whose sources are all accesses of four kinds. */
  lemma FourKinds<V(!new)>(s: Shape, sem: Op -> (seq<V> -> V), m: imap<Loc, V>, a: Op, k0: Kind, k1: Kind, k2: Kind,
                           k3: Kind, w0: seq<V>, w1: seq<V>, w2: seq<V>, w3: seq<V>, sources: seq<Op>, words: seq<V>)
    requires Total(m) && WellStaged(Tiles(s)) && !IsInput(a.kind) && sources == Sources(s, a)
             && words == w0 + w1 + w2 + w3
    requires sources == All(s, k0, a.t) + All(s, k1, a.t) + All(s, k2, a.t) + All(s, k3, a.t)
    requires AllMean(s, sem, m, k0, a.t, w0) && AllMean(s, sem, m, k1, a.t, w1)
    requires AllMean(s, sem, m, k2, a.t, w2) && AllMean(s, sem, m, k3, a.t, w3)
    ensures Meaning(Tiles(s), sem, m, a) == sem(a)(words)
  {
    assert |sources| == |words|;
    forall j: nat | j < |words| ensures Meaning(Tiles(s), sem, m, sources[j]) == words[j] {
      FourKindsAt(s, sem, m, a.t, k0, k1, k2, k3, w0, w1, w2, w3, sources, words, j);
    }
    MeaningOf(Tiles(s), sem, m, a, words);
  }

  lemma QkMeans<V(!new)>(s: Shape, f: Kernels<V>, sem: Op -> (seq<V> -> V), m: imap<Loc, V>, t: nat, i: nat)
    requires Total(m) && WellStaged(Tiles(s)) && Semantics(s, f, sem)
    ensures Meaning(Tiles(s), sem, m, Op(MatQk, t, i)) == Score(s, f, m, t, i)
  {
    InputsMean(s, f, sem, m, MvinQ, t);
    InputsMean(s, f, sem, m, MvinK, t);
    InputsMean(s, f, sem, m, ScaleQ, t);
    InputsMean(s, f, sem, m, ScaleK, t);
    var q, k := Words(m, MvinQ, t, s.aWords), Words(m, MvinK, t, s.kWords);
    var qs, ks := Words(m, ScaleQ, t, s.qScales), Words(m, ScaleK, t, s.kScales);
    FourKinds(s, sem, m, Op(MatQk, t, i), MvinQ, MvinK, ScaleQ, ScaleK, q, k, qs, ks,
              Sources(s, Op(MatQk, t, i)), q + k + qs + ks);
    assert MultipliesQk(s, f, sem, t, i, q, k, qs, ks);
  }

  lemma RowWordMeans<V(!new)>(s: Shape, f: Kernels<V>, sem: Op -> (seq<V> -> V), m: imap<Loc, V>, t: nat, r: nat,
                              row: seq<Op>, words: seq<V>, j: nat)
    requires Total(m) && WellStaged(Tiles(s)) && Semantics(s, f, sem) && j < s.sWords
    requires row == SRow(s, t, r) && words == ScoreRow(s, f, m, t, r)
    ensures Meaning(Tiles(s), sem, m, row[j]) == words[j]
  {
    QkMeans(s, f, sem, m, t, r * s.sWords + j);
  }

  /** Row work reads its own row of S. */
  lemma RowMeans<V(!new)>(s: Shape, f: Kernels<V>, sem: Op -> (seq<V> -> V), m: imap<Loc, V>, a: Op, r: nat)
    requires Total(m) && WellStaged(Tiles(s)) && Semantics(s, f, sem) && !IsInput(a.kind)
             && Sources(s, a) == SRow(s, a.t, r)
    ensures Meaning(Tiles(s), sem, m, a) == sem(a)(ScoreRow(s, f, m, a.t, r))
  {
    var row, words := SRow(s, a.t, r), ScoreRow(s, f, m, a.t, r);
    forall j: nat | j < |words| ensures Meaning(Tiles(s), sem, m, row[j]) == words[j] {
      RowWordMeans(s, f, sem, m, a.t, r, row, words, j);
    }
    MeaningOf(Tiles(s), sem, m, a, words);
  }

  lemma SumMeans<V(!new)>(s: Shape, f: Kernels<V>, sem: Op -> (seq<V> -> V), m: imap<Loc, V>, t: nat, r: nat)
    requires Total(m) && WellStaged(Tiles(s)) && Semantics(s, f, sem)
    ensures Meaning(Tiles(s), sem, m, Op(RowSum, t, r)) == f.sum(ScoreRow(s, f, m, t, r))
  {
    RowMeans(s, f, sem, m, Op(RowSum, t, r), r);
    assert RowWorks(f, sem, t, r, ScoreRow(s, f, m, t, r));
  }

  lemma StateMeans<V(!new)>(s: Shape, f: Kernels<V>, sem: Op -> (seq<V> -> V), m: imap<Loc, V>, t: nat, r: nat)
    requires Total(m) && WellStaged(Tiles(s)) && Semantics(s, f, sem)
    ensures Meaning(Tiles(s), sem, m, Op(RowMax, t, r)) == f.max(ScoreRow(s, f, m, t, r))
    ensures Meaning(Tiles(s), sem, m, Op(RowCorr, t, r)) == f.corr(ScoreRow(s, f, m, t, r))
  {
    RowMeans(s, f, sem, m, Op(RowMax, t, r), r);
    RowMeans(s, f, sem, m, Op(RowCorr, t, r), r);
    assert RowWorks(f, sem, t, r, ScoreRow(s, f, m, t, r));
  }

  lemma ProbabilityMeans<V(!new)>(s: Shape, f: Kernels<V>, sem: Op -> (seq<V> -> V), m: imap<Loc, V>, t: nat, i: nat)
    requires Total(m) && WellStaged(Tiles(s)) && Semantics(s, f, sem) && s.sWords > 0
    ensures Meaning(Tiles(s), sem, m, Op(RowProb, t, i)) == Probability(s, f, m, t, i)
  {
    RowMeans(s, f, sem, m, Op(RowProb, t, i), Div(i, s.sWords));
    assert WordWorks(s, f, sem, t, i, ScoreRow(s, f, m, t, Div(i, s.sWords)));
  }

  lemma ProbabilitiesMean<V(!new)>(s: Shape, f: Kernels<V>, sem: Op -> (seq<V> -> V), m: imap<Loc, V>, t: nat)
    requires Total(m) && WellStaged(Tiles(s)) && Semantics(s, f, sem)
    ensures AllMean(s, sem, m, RowProb, t, Probabilities(s, f, m, t))
  {
    forall i: nat | i < s.rows * s.sWords
      ensures Meaning(Tiles(s), sem, m, Op(RowProb, t, i)) == Probabilities(s, f, m, t)[i]
    {
      ProbabilityMeans(s, f, sem, m, t, i);
    }
  }

  /** Codes and scales are computed from all probabilities of the tile. */
  lemma WordMeans<V(!new)>(s: Shape, f: Kernels<V>, sem: Op -> (seq<V> -> V), m: imap<Loc, V>, a: Op)
    requires Total(m) && WellStaged(Tiles(s)) && Semantics(s, f, sem) && (a.kind == Requant || a.kind == RequantScale)
    ensures Meaning(Tiles(s), sem, m, a)
            == if a.kind == Requant then f.code(a.i, Probabilities(s, f, m, a.t)) else BlockScale(s, f, m, a.t, a.i)
  {
    ProbabilitiesMean(s, f, sem, m, a.t);
    MeaningOf(Tiles(s), sem, m, a, Probabilities(s, f, m, a.t));
    assert WordWorks(s, f, sem, a.t, a.i, Probabilities(s, f, m, a.t));
  }

  lemma ScaleMeans<V(!new)>(s: Shape, f: Kernels<V>, sem: Op -> (seq<V> -> V), m: imap<Loc, V>, a: Op, v: V)
    requires Total(m) && WellStaged(Tiles(s)) && Semantics(s, f, sem) && a.kind == RequantScale
    requires v == BlockScale(s, f, m, a.t, a.i)
    ensures Meaning(Tiles(s), sem, m, a) == v
  {
    WordMeans(s, f, sem, m, a);
  }

  lemma CodesMean<V(!new)>(s: Shape, f: Kernels<V>, sem: Op -> (seq<V> -> V), m: imap<Loc, V>, t: nat)
    requires Total(m) && WellStaged(Tiles(s)) && Semantics(s, f, sem)
    ensures AllMean(s, sem, m, Requant, t, Codes(s, f, m, t))
  {
    forall i: nat | i < s.pWords ensures Meaning(Tiles(s), sem, m, Op(Requant, t, i)) == Codes(s, f, m, t)[i] {
      WordMeans(s, f, sem, m, Op(Requant, t, i));
    }
  }

  lemma PrepackSources(s: Shape, t: nat, i: nat, q0: Op, q1: Op, q2: Op, q3: Op)
    requires q0 == Op(RequantScale, t, 4 * i) && q1 == Op(RequantScale, t, 4 * i + 1)
    requires q2 == Op(RequantScale, t, 4 * i + 2) && q3 == Op(RequantScale, t, 4 * i + 3)
    ensures Tiles(s).inputs(Op(Prepack, t, i)) == [] && Tiles(s).sources(Op(Prepack, t, i)) == [q0, q1, q2, q3]
  {
  }

  lemma PrepackMeans<V(!new)>(s: Shape, f: Kernels<V>, sem: Op -> (seq<V> -> V), m: imap<Loc, V>, t: nat, i: nat,
                              v0: V, v1: V, v2: V, v3: V)
    requires Total(m) && WellStaged(Tiles(s)) && Semantics(s, f, sem)
    requires v0 == BlockScale(s, f, m, t, 4 * i) && v1 == BlockScale(s, f, m, t, 4 * i + 1)
    requires v2 == BlockScale(s, f, m, t, 4 * i + 2) && v3 == BlockScale(s, f, m, t, 4 * i + 3)
    ensures Meaning(Tiles(s), sem, m, Op(Prepack, t, i)) == f.pack(v0, v1, v2, v3)
  {
    var q0, q1 := Op(RequantScale, t, 4 * i), Op(RequantScale, t, 4 * i + 1);
    var q2, q3 := Op(RequantScale, t, 4 * i + 2), Op(RequantScale, t, 4 * i + 3);
    ScaleMeans(s, f, sem, m, q0, v0);
    ScaleMeans(s, f, sem, m, q1, v1);
    ScaleMeans(s, f, sem, m, q2, v2);
    ScaleMeans(s, f, sem, m, q3, v3);
    assert Packs(f, sem, t, i, v0, v1, v2, v3);
    PrepackSources(s, t, i, q0, q1, q2, q3);
    MeaningOfFour(Tiles(s), sem, m, Op(Prepack, t, i), [q0, q1, q2, q3], [v0, v1, v2, v3]);
  }

  /** A packed word's copy in the scale memory. */
  lemma CopyMeans<V(!new)>(s: Shape, f: Kernels<V>, sem: Op -> (seq<V> -> V), m: imap<Loc, V>, t: nat, i: nat,
                           packed: V)
    requires Total(m) && WellStaged(Tiles(s)) && Semantics(s, f, sem)
    requires Meaning(Tiles(s), sem, m, Op(Prepack, t, i)) == packed
    ensures Meaning(Tiles(s), sem, m, Op(CopyScales, t, i)) == packed
  {
    MeaningOf(Tiles(s), sem, m, Op(CopyScales, t, i), [packed]);
    assert Copies(sem, Op(CopyScales, t, i), packed);
  }

  lemma PackedMeans<V(!new)>(s: Shape, f: Kernels<V>, sem: Op -> (seq<V> -> V), m: imap<Loc, V>, t: nat, i: nat)
    requires Total(m) && WellStaged(Tiles(s)) && Semantics(s, f, sem) && i < s.pScales
    ensures Meaning(Tiles(s), sem, m, Op(CopyScales, t, i)) == PackedScales(s, f, m, t)[i]
  {
    PrepackMeans(s, f, sem, m, t, i, BlockScale(s, f, m, t, 4 * i), BlockScale(s, f, m, t, 4 * i + 1),
                 BlockScale(s, f, m, t, 4 * i + 2), BlockScale(s, f, m, t, 4 * i + 3));
    CopyMeans(s, f, sem, m, t, i, PackedScales(s, f, m, t)[i]);
  }

  lemma ScalesMean<V(!new)>(s: Shape, f: Kernels<V>, sem: Op -> (seq<V> -> V), m: imap<Loc, V>, t: nat)
    requires Total(m) && WellStaged(Tiles(s)) && Semantics(s, f, sem)
    ensures AllMean(s, sem, m, CopyScales, t, PackedScales(s, f, m, t))
  {
    forall i: nat | i < s.pScales
      ensures Meaning(Tiles(s), sem, m, Op(CopyScales, t, i)) == PackedScales(s, f, m, t)[i]
    {
      PackedMeans(s, f, sem, m, t, i);
    }
  }

  lemma PvMeans<V(!new)>(s: Shape, f: Kernels<V>, sem: Op -> (seq<V> -> V), m: imap<Loc, V>, t: nat, i: nat)
    requires Total(m) && WellStaged(Tiles(s)) && Semantics(s, f, sem)
    ensures Meaning(Tiles(s), sem, m, Op(MatPv, t, i)) == Product(s, f, m, t, i)
  {
    CodesMean(s, f, sem, m, t);
    InputsMean(s, f, sem, m, MvinV, t);
    ScalesMean(s, f, sem, m, t);
    InputsMean(s, f, sem, m, ScaleV, t);
    var p, v := Codes(s, f, m, t), Words(m, MvinV, t, s.vWords);
    var ps, vs := PackedScales(s, f, m, t), Words(m, ScaleV, t, s.vScales);
    FourKinds(s, sem, m, Op(MatPv, t, i), Requant, MvinV, CopyScales, ScaleV, p, v, ps, vs,
              Sources(s, Op(MatPv, t, i)), p + v + ps + vs);
    assert MultipliesPv(s, f, sem, t, i, p, v, ps, vs);
  }

  /** What an output word means is the attention of its own tile's inputs. */
  lemma FinalMeans<V(!new)>(s: Shape, f: Kernels<V>, sem: Op -> (seq<V> -> V), m: imap<Loc, V>, t: nat, i: nat)
    requires Total(m) && WellStaged(Tiles(s)) && Semantics(s, f, sem) && s.oWords > 0
    ensures Meaning(Tiles(s), sem, m, Op(Final, t, i)) == Attention(s, f, m, t, i)
  {
    PvMeans(s, f, sem, m, t, i);
    SumMeans(s, f, sem, m, t, Div(i, s.oWords));
    var o, l := Product(s, f, m, t, i), f.sum(ScoreRow(s, f, m, t, Div(i, s.oWords)));
    MeaningOf(Tiles(s), sem, m, Op(Final, t, i), [o, l]);
    assert Normalizes(f, sem, t, i, o, l);
  }

  /** MAIN RESULT 1.  Under every interleaving the schedule allows, word i of tile t's output is the PV product's
      word i over the sum of row i / oWords, all computed from the tile's own inputs, although the next tile's Q and
      K scales are stored under its softmax and every on-chip buffer is reused. */
  lemma PipelinedOutput<V(!new)>(s: Shape, f: Kernels<V>, sem: Op -> (seq<V> -> V), piped: seq<Op>, m: imap<Loc, V>,
                                 t: nat, i: nat)
    requires Total(m) && Pipelined(s, piped) && Semantics(s, f, sem) && t < s.tiles && i < s.rows * s.oWords
    ensures s.oWords > 0
    ensures Execute(Program(Tiles(s), sem), piped, m)[Loc(Output, t, i)] == Attention(s, f, m, t, i)
  {
    RowBound(i, s.rows, s.oWords);
    FinalIsMeant(s, sem, piped, m, t, i);
    FinalMeans(s, f, sem, m, t, i);
  }

  /** MAIN RESULT 2.  The row state left at the end is that of the last tile's scores. */
  lemma PipelinedState<V(!new)>(s: Shape, f: Kernels<V>, sem: Op -> (seq<V> -> V), piped: seq<Op>, m: imap<Loc, V>,
                                t: nat, r: nat)
    requires Total(m) && Pipelined(s, piped) && Semantics(s, f, sem) && t + 1 == s.tiles && r < s.rows
    ensures var after, row := Execute(Program(Tiles(s), sem), piped, m), ScoreRow(s, f, m, t, r);
            && after[Loc(MaxRow, 0, r)] == f.max(row) && after[Loc(SumRow, 0, r)] == f.sum(row)
            && after[Loc(CorrRow, 0, r)] == f.corr(row)
  {
    StateIsMeant(s, sem, piped, m, Op(RowMax, t, r));
    StateIsMeant(s, sem, piped, m, Op(RowSum, t, r));
    StateIsMeant(s, sem, piped, m, Op(RowCorr, t, r));
    StateMeans(s, f, sem, m, t, r);
    SumMeans(s, f, sem, m, t, r);
  }
}
