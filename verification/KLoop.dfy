/** The double-buffered K-loop of one output tile.  Between two drains a move-in DMA, the mesh and the
    scale stores are all in flight, in any order; a plain loop with one buffer is the reference. */
module KLoop {
  import opened Traces
  import opened Dataflow

  /** dim_k / TILE_K tiles; scratchpad words of one A and one B tile; scale words loaded per tile for
      each operand (the A count serves both) and read by the mesh; elements of C and where it is moved. */
  datatype Shape = Shape(n: nat, a: nat, b: nat, scales: nat, aScales: nat, bScales: nat, c: nat, dest: nat,
                         quarter: nat, scaleHalf: nat, plain: bool)

  /** Each operand tile fits a scratchpad quarter, each tile's scales fit half a scale memory, and the
      scales loaded cover those the mesh reads. */
  predicate Fits(s: Shape) {
    s.a <= s.quarter && s.b <= s.quarter && s.scales <= s.scaleHalf && s.aScales <= s.scales && s.bScales <= s.scales
  }

  datatype Kind = MoveA | MoveB | LoadScaleA | LoadScaleB | Multiply | MoveOut

  /** The i-th store of one kind for K-tile k. */
  datatype Op = Op(kind: Kind, k: nat, i: nat)

  datatype Loc = Spad(addr: int) | ScaleA(addr: int) | ScaleB(addr: int) | Acc(i: nat)
               | Gmem(kind: Kind, k: nat, i: nat)

  function Count(s: Shape, kind: Kind): nat {
    match kind
    case MoveA => s.a case MoveB => s.b case LoadScaleA => s.scales case LoadScaleB => s.scales
    case Multiply => s.c case MoveOut => s.c
  }

  predicate IsLoad(kind: Kind) {
    kind == LoadScaleA || kind == LoadScaleB
  }

  predicate IsMove(kind: Kind) {
    kind == MoveA || kind == MoveB
  }

  /** The pipelined loop moves in tile 0 before its first test and also loads the scales of one tile past
      the last; only the last tile moves C out. */
  predicate Valid(s: Shape, o: Op) {
    && o.i < Count(s, o.kind)
    && (o.k < s.n || (!s.plain && ((IsLoad(o.kind) && o.k == s.n) || (IsMove(o.kind) && o.k == 0))))
    && (o.kind == MoveOut ==> o.k == s.n - 1)
  }

  /** Which of the two buffers a K-tile uses. */
  function Half(s: Shape, k: nat): nat {
    if s.plain then 0 else k % 2
  }

  /** First scratchpad row of an A tile; it grows upward. */
  function SpadA(s: Shape, k: nat): int {
    if Half(s, k) == 1 then s.quarter else 0
  }

  /** One past the last scratchpad row of a B tile; it grows downward from the top. */
  function SpadEndB(s: Shape, k: nat): int {
    if Half(s, k) == 1 then 4 * s.quarter - s.quarter else 4 * s.quarter
  }

  function Dst(s: Shape, o: Op): Loc {
    match o.kind
    case MoveA => Spad(SpadA(s, o.k) + o.i)
    case MoveB => Spad(SpadEndB(s, o.k) - s.b + o.i)
    case LoadScaleA => ScaleA(Half(s, o.k) * s.scaleHalf + o.i)
    case LoadScaleB => ScaleB(Half(s, o.k) * s.scaleHalf + o.i)
    case Multiply => Acc(o.i)
    case MoveOut => Spad(s.dest + o.i)
  }

  function Inputs(o: Op): seq<Loc> {
    if IsLoad(o.kind) || IsMove(o.kind) then [Gmem(o.kind, o.k, o.i)] else []
  }

  function First(kind: Kind, k: nat, n: nat): (r: seq<Op>)
    ensures |r| == n && forall i :: 0 <= i < n ==> r[i] == Op(kind, k, i)
  {
    seq(n, i requires 0 <= i < n => Op(kind, k, i))
  }

  function Operands(s: Shape, k: nat): seq<Op> {
    First(MoveA, k, s.a) + First(MoveB, k, s.b) + First(LoadScaleA, k, s.aScales) + First(LoadScaleB, k, s.bScales)
  }

  /** The first K-tile overwrites the accumulator, later ones add to it. */
  function Sources(s: Shape, o: Op): seq<Op> {
    match o.kind
    case Multiply => Operands(s, o.k) + (if o.k == 0 then [] else [Op(Multiply, o.k - 1, o.i)])
    case MoveOut => [Op(Multiply, o.k, o.i)]
    case _ => []
  }

  function Stage(o: Op): nat {
    3 * o.k + (match o.kind case Multiply => 1 case MoveOut => 2 case _ => 0)
  }

  function Loop(s: Shape): Flow<Op, Loc> {
    Flow((o: Op) => Dst(s, o), Inputs, (o: Op) => Sources(s, o), Stage)
  }

  // ---- when a store may happen -------------------------------------------------------------------

  /** Two ticks per drained section.  In the pipelined loop section k+1 runs the matmul of tile k beside
      the loads of tile k+1; in the plain loop tile k's loads, matmul and move-out follow each other.
      The mesh moves C out after its last accumulation. */
  function Start(s: Shape, o: Op): int {
    if s.plain then 4 * o.k + (match o.kind case Multiply => 2 case MoveOut => 3 case _ => 0)
    else 2 * o.k + (match o.kind case Multiply => 2 case MoveOut => 3 case _ => 0)
  }

  function End(s: Shape, o: Op): int {
    Start(s, o) + (if IsLoad(o.kind) || IsMove(o.kind) then 1 else 0)
  }

  ghost predicate Fenced(s: Shape, order: seq<Op>) {
    && Distinct(order) && (forall o: Op :: o in order <==> Valid(s, o))
    && forall o, p :: Valid(s, o) && Valid(s, p) && End(s, o) < Start(s, p) ==> Before(order, o, p)
  }

  // ---- every matmul reads its own tile ----------------------------------------------------------

  lemma SourcesAreEarlier(s: Shape, o: Op, j: nat)
    requires Fits(s) && Valid(s, o) && j < |Sources(s, o)|
    ensures var q := Sources(s, o)[j]; Valid(s, q) && Stage(q) < Stage(o) && End(s, q) < Start(s, o)
  {
  }

  /** The buffers of the two parities, and of the two operands, share no word. */
  lemma BuffersAreDisjoint(s: Shape, o: Op, p: Op)
    requires Fits(s) && Valid(s, o) && Valid(s, p) && Dst(s, o) == Dst(s, p) && o.kind != MoveOut && p.kind != MoveOut
    ensures o.kind == p.kind && o.i == p.i && (o.kind != Multiply ==> Half(s, o.k) == Half(s, p.k))
  {
  }

  lemma NoInterveningStore(s: Shape, o: Op, j: nat, c: Op)
    requires Fits(s) && Valid(s, o) && Valid(s, c) && j < |Sources(s, o)|
    requires var q := Sources(s, o)[j]; Dst(s, c) == Dst(s, q) && c != q
    ensures End(s, c) < Start(s, Sources(s, o)[j]) || End(s, o) < Start(s, c) || c == o
  {
    SourcesAreEarlier(s, o, j);
    SourceFeeds(s, o, j);
    FeedIsUndisturbed(s, Sources(s, o)[j], o, c);
  }

  /** A source is an operand of the same K-tile, or the previous sum. */
  predicate Feeds(q: Op, o: Op) {
    || (o.kind == Multiply && q.k == o.k && (IsLoad(q.kind) || IsMove(q.kind)))
    || (o.kind == Multiply && o.k > 0 && q == Op(Multiply, o.k - 1, o.i))
    || (o.kind == MoveOut && q == Op(Multiply, o.k, o.i))
  }

  lemma SourceFeeds(s: Shape, o: Op, j: nat)
    requires j < |Sources(s, o)|
    ensures Feeds(Sources(s, o)[j], o)
  {
  }

  lemma FeedIsUndisturbed(s: Shape, q: Op, o: Op, c: Op)
    requires Fits(s) && Valid(s, q) && Valid(s, o) && Valid(s, c) && Feeds(q, o) && Dst(s, c) == Dst(s, q) && c != q
    ensures End(s, c) < Start(s, q) || End(s, o) < Start(s, c) || c == o
  {
    if c.kind != MoveOut { BuffersAreDisjoint(s, c, q); }
  }

  lemma LoopFindsSource(s: Shape, order: seq<Op>, n: nat, j: nat)
    requires Fits(s) && Fenced(s, order) && n < |order| && j < |Loop(s).sources(order[n])|
    ensures FindsSource(Loop(s), order, n, j)
  {
    var a, q := order[n], Sources(s, order[n])[j];
    assert a in order;
    SourcesAreEarlier(s, a, j);
    assert Before(order, q, a);
    var i, n' :| 0 <= i < n' < |order| && order[i] == q && order[n'] == a;
    assert n' == n;
    forall k | i < k < n ensures Dst(s, order[k]) != Dst(s, q) {
      var c := order[k];
      assert c in order && c != q;
      if Dst(s, c) == Dst(s, q) {
        NoInterveningStore(s, a, j, c);
        if End(s, c) < Start(s, q) {
          BeforeIsAsymmetric(order, c, q);
        } else {
          BeforeIsAsymmetric(order, a, c);
        }
      }
    }
    assert LastStore(Loop(s), order, i, n);
  }

  lemma LoopIsStaged(s: Shape)
    ensures WellStaged(Loop(s))
  {
  }

  lemma LoopReadsItsSources(s: Shape, order: seq<Op>)
    requires Fits(s) && Fenced(s, order)
    ensures ReadsItsSources(Loop(s), order)
  {
    forall n: nat, j: nat | n < |order| && j < |Loop(s).sources(order[n])| ensures FindsSource(Loop(s), order, n, j) {
      LoopFindsSource(s, order, n, j);
    }
  }

  // ---- the product both loops compute ------------------------------------------------------------

  /** What the mesh does to one element of C: overwrite it with the product of the operands of one K-tile,
      add that product to it, and convert it on the way out.  `unset` is the result of copying nothing. */
  datatype Mesh<!V> = Mesh(first: (nat, seq<V>) -> V, add: (nat, seq<V>, V) -> V, out: V -> V, unset: V)

  function Computes<V>(mesh: Mesh<V>): Op -> (seq<V> -> V) {
    (o: Op) => (vs: seq<V>) =>
      match o.kind
      case Multiply => if o.k == 0 || vs == [] then mesh.first(o.i, vs) else mesh.add(o.i, vs[..|vs| - 1], vs[|vs| - 1])
      case MoveOut => mesh.out(if vs == [] then mesh.unset else vs[0])
      case _ => if vs == [] then mesh.unset else vs[0]
  }

  ghost predicate Semantics<V(!new)>(mesh: Mesh<V>, sem: Op -> (seq<V> -> V)) {
    && (forall o: Op, v: V :: IsLoad(o.kind) || IsMove(o.kind) ==> sem(o)([v]) == v)
    && (forall i: nat, vs: seq<V> :: sem(Op(Multiply, 0, i))(vs) == mesh.first(i, vs))
    && (forall k: nat, i: nat, vs: seq<V>, v: V :: k > 0 ==> sem(Op(Multiply, k, i))(vs + [v]) == mesh.add(i, vs, v))
    && (forall k: nat, i: nat, v: V :: sem(Op(MoveOut, k, i))([v]) == mesh.out(v))
  }

  lemma ComputesSemantics<V(!new)>(mesh: Mesh<V>)
    ensures Semantics(mesh, Computes(mesh))
  {
    forall k: nat, i: nat, vs: seq<V>, v: V | k > 0
      ensures Computes(mesh)(Op(Multiply, k, i))(vs + [v]) == mesh.add(i, vs, v)
    {
      assert (vs + [v])[..|vs + [v]| - 1] == vs;
    }
  }

  /** The first n words of one operand of K-tile k in global memory. */
  ghost function Words<V(!new)>(m: imap<Loc, V>, kind: Kind, k: nat, n: nat): (r: seq<V>)
    requires Total(m)
    ensures |r| == n && forall j :: 0 <= j < n ==> r[j] == m[Gmem(kind, k, j)]
  {
    seq(n, j requires 0 <= j < n => m[Gmem(kind, k, j)])
  }

  /** All words of A, then of B, then the scales of A and of B that the mesh reads, of K-tile k. */
  ghost function OperandWords<V(!new)>(s: Shape, m: imap<Loc, V>, k: nat): (r: seq<V>)
    requires Total(m)
  {
    Words(m, MoveA, k, s.a) + Words(m, MoveB, k, s.b)
    + Words(m, LoadScaleA, k, s.aScales) + Words(m, LoadScaleB, k, s.bScales)
  }

  /** They are the words that the operands' stores bring in. */
  lemma OperandWordsAt<V(!new)>(s: Shape, m: imap<Loc, V>, k: nat, j: nat)
    requires Total(m) && j < |Operands(s, k)|
    ensures |Operands(s, k)| == |OperandWords(s, m, k)|
    ensures var q := Operands(s, k)[j]; OperandWords(s, m, k)[j] == m[Gmem(q.kind, q.k, q.i)]
  {
  }

  /** Element i of C after K-tiles 0..k, straight from global memory. */
  ghost function Product<V(!new)>(s: Shape, mesh: Mesh<V>, m: imap<Loc, V>, k: nat, i: nat): V
    requires Total(m)
  {
    if k == 0 then mesh.first(i, OperandWords(s, m, 0))
    else mesh.add(i, OperandWords(s, m, k), Product(s, mesh, m, k - 1, i))
  }

  lemma {:induction false} CopiesMean<V(!new)>(s: Shape, mesh: Mesh<V>, sem: Op -> (seq<V> -> V), m: imap<Loc, V>,
                                               o: Op)
    requires Total(m) && WellStaged(Loop(s)) && Semantics(mesh, sem) && (IsLoad(o.kind) || IsMove(o.kind))
    ensures Meaning(Loop(s), sem, m, o) == m[Gmem(o.kind, o.k, o.i)]
  {
    MeaningOfInput(Loop(s), sem, m, o, Gmem(o.kind, o.k, o.i));
  }

  lemma MultiplySources(s: Shape, k: nat, i: nat)
    ensures Sources(s, Op(Multiply, k, i)) == Operands(s, k) + (if k == 0 then [] else [Op(Multiply, k - 1, i)])
    ensures Inputs(Op(Multiply, k, i)) == []
  {
  }

  /** A matmul reads the words of its own K-tile, whatever came before. */
  lemma {:induction false} OperandsMean<V(!new)>(s: Shape, mesh: Mesh<V>, sem: Op -> (seq<V> -> V), m: imap<Loc, V>,
                                                 k: nat, j: nat)
    requires Total(m) && WellStaged(Loop(s)) && Semantics(mesh, sem) && j < |Operands(s, k)|
    ensures |Operands(s, k)| == |OperandWords(s, m, k)|
    ensures Meaning(Loop(s), sem, m, Operands(s, k)[j]) == OperandWords(s, m, k)[j]
  {
    OperandWordsAt(s, m, k, j);
    CopiesMean(s, mesh, sem, m, Operands(s, k)[j]);
  }

  lemma {:induction false} MultiplyReads<V(!new)>(s: Shape, mesh: Mesh<V>, sem: Op -> (seq<V> -> V), m: imap<Loc, V>,
                                                  k: nat, i: nat)
    requires Total(m) && WellStaged(Loop(s)) && Semantics(mesh, sem)
    ensures Meanings(Loop(s), sem, m, Op(Multiply, k, i))
            == OperandWords(s, m, k) + (if k == 0 then [] else [Meaning(Loop(s), sem, m, Op(Multiply, k - 1, i))])
  {
    MultiplySources(s, k, i);
    forall j: nat | j < |Operands(s, k)|
      ensures Meaning(Loop(s), sem, m, Operands(s, k)[j]) == OperandWords(s, m, k)[j]
    {
      OperandsMean(s, mesh, sem, m, k, j);
    }
    MeaningsSplit(Loop(s), sem, m, Op(Multiply, k, i), Operands(s, k), OperandWords(s, m, k));
  }

  lemma {:induction false} MultiplyMeans<V(!new)>(s: Shape, mesh: Mesh<V>, sem: Op -> (seq<V> -> V), m: imap<Loc, V>,
                                                  k: nat, i: nat)
    requires Total(m) && WellStaged(Loop(s)) && Semantics(mesh, sem)
    ensures Meaning(Loop(s), sem, m, Op(Multiply, k, i)) == Product(s, mesh, m, k, i)
  {
    MultiplyReads(s, mesh, sem, m, k, i);
    MeaningOfSources(Loop(s), sem, m, Op(Multiply, k, i));
    if k == 0 {
      assert OperandWords(s, m, 0) + [] == OperandWords(s, m, 0);
    } else {
      MultiplyMeans(s, mesh, sem, m, k - 1, i);
    }
  }

  lemma {:induction false} MoveOutMeans<V(!new)>(s: Shape, mesh: Mesh<V>, sem: Op -> (seq<V> -> V), m: imap<Loc, V>,
                                                 k: nat, i: nat)
    requires Total(m) && WellStaged(Loop(s)) && Semantics(mesh, sem)
    ensures Meaning(Loop(s), sem, m, Op(MoveOut, k, i)) == mesh.out(Product(s, mesh, m, k, i))
  {
    var o := Op(MoveOut, k, i);
    MultiplyMeans(s, mesh, sem, m, k, i);
    MeaningOfSources(Loop(s), sem, m, o);
    MeaningsSplit(Loop(s), sem, m, o, [], []);
    assert Meanings(Loop(s), sem, m, o) == [Product(s, mesh, m, k, i)];
  }

  /** Nothing is stored over the tile once it has been moved out. */
  lemma MoveOutIsLast(s: Shape, order: seq<Op>, i: nat) returns (n: nat)
    requires Fits(s) && Fenced(s, order) && i < s.c && s.n > 0
    ensures n < |order| && order[n] == Op(MoveOut, s.n - 1, i) && LastStore(Loop(s), order, n, |order|)
  {
    var out := Op(MoveOut, s.n - 1, i);
    assert Valid(s, out) && out in order;
    n :| 0 <= n < |order| && order[n] == out;
    forall k | n < k < |order| ensures Dst(s, order[k]) != Dst(s, out) {
      assert order[k] in order && order[k] != out;
      if Dst(s, order[k]) == Dst(s, out) {
        assert End(s, order[k]) < Start(s, out);
        BeforeIsAsymmetric(order, order[k], out);
      }
    }
  }

  /** Element i of the tile that a completion order leaves in the scratchpad. */
  ghost function MovedOut<V(!new)>(s: Shape, sem: Op -> (seq<V> -> V), order: seq<Op>, m: imap<Loc, V>, i: nat): V
    requires Total(m)
  {
    Execute(Program(Loop(s), sem), order, m)[Spad(s.dest + i)]
  }

  lemma {:induction false} MovedOutIsMeant<V(!new)>(s: Shape, sem: Op -> (seq<V> -> V), order: seq<Op>, m: imap<Loc, V>,
                                                    i: nat)
    requires Total(m) && WellStaged(Loop(s)) && Fits(s) && Fenced(s, order) && i < s.c && s.n > 0
    ensures MovedOut(s, sem, order, m, i) == Meaning(Loop(s), sem, m, Op(MoveOut, s.n - 1, i))
  {
    LoopReadsItsSources(s, order);
    var n := MoveOutIsLast(s, order, i);
    FinalValueAt(Loop(s), sem, order, m, n, Op(MoveOut, s.n - 1, i), Spad(s.dest + i));
  }

  /** MAIN RESULT 1.  For any number of K-tiles and any completion order of DMA, mesh and scale stores
      between drains, the tile of C moved out is the sum over all K-tiles of the products of their own
      operands with their own scales. */
  lemma {:induction false} LoopComputesProduct<V(!new)>(s: Shape, mesh: Mesh<V>, sem: Op -> (seq<V> -> V),
                                                        order: seq<Op>, m: imap<Loc, V>, i: nat)
    requires Total(m) && Fits(s) && Fenced(s, order) && Semantics(mesh, sem) && i < s.c && s.n > 0
    ensures MovedOut(s, sem, order, m, i) == mesh.out(Product(s, mesh, m, s.n - 1, i))
  {
    LoopIsStaged(s);
    MovedOutIsMeant(s, sem, order, m, i);
    MoveOutMeans(s, mesh, sem, m, s.n - 1, i);
  }

  lemma LoopLeaves<V(!new)>(s: Shape, mesh: Mesh<V>, sem: Op -> (seq<V> -> V), order: seq<Op>, m: imap<Loc, V>, k: nat,
                            i: nat, x: V)
    requires Total(m) && Fits(s) && Fenced(s, order) && Semantics(mesh, sem) && i < s.c && s.n == k + 1
    requires x == Product(s, mesh, m, k, i)
    ensures MovedOut(s, sem, order, m, i) == mesh.out(x)
  {
    LoopComputesProduct(s, mesh, sem, order, m, i);
  }

  /** The plain loop leaves the double-buffered one's product. */
  lemma PlainLeaves<V(!new)>(s: Shape, p: Shape, mesh: Mesh<V>, sem: Op -> (seq<V> -> V), plain: seq<Op>,
                             m: imap<Loc, V>, k: nat, i: nat, x: V)
    requires Total(m) && p == s.(plain := true) && Fits(p) && Fenced(p, plain) && Semantics(mesh, sem) && i < p.c
             && p.n == k + 1
    requires x == Product(s, mesh, m, k, i)
    ensures MovedOut(p, sem, plain, m, i) == mesh.out(x)
  {
    SameProduct(s, p, mesh, m, k, i);
    LoopLeaves(p, mesh, sem, plain, m, k, i, x);
  }

  /** MAIN RESULT 2.  The double-buffered loop leaves the same C as the plain loop with one buffer. */
  lemma {:induction false} DoubleBufferingIsInvisible<V(!new)>(s: Shape, p: Shape, mesh: Mesh<V>,
                                                               sem: Op -> (seq<V> -> V), piped: seq<Op>, plain: seq<Op>,
                                                               m: imap<Loc, V>, i: nat)
    requires Total(m) && Fits(s) && Semantics(mesh, sem) && !s.plain && i < s.c && s.n > 0 && p == s.(plain := true)
    requires Fenced(s, piped) && Fenced(p, plain)
    ensures MovedOut(s, sem, piped, m, i) == MovedOut(p, sem, plain, m, i)
  {
    var x := Product(s, mesh, m, s.n - 1, i);
    LoopLeaves(s, mesh, sem, piped, m, s.n - 1, i, x);
    PlainLeaves(s, p, mesh, sem, plain, m, s.n - 1, i, x);
  }

  lemma {:induction false} SameProduct<V(!new)>(s: Shape, s': Shape, mesh: Mesh<V>, m: imap<Loc, V>, k: nat, i: nat)
    requires Total(m) && s' == s.(plain := true)
    ensures Product(s, mesh, m, k, i) == Product(s', mesh, m, k, i)
  {
    assert OperandWords(s, m, k) == OperandWords(s', m, k);
    if k > 0 { SameProduct(s, s', mesh, m, k - 1, i); }
  }
}
