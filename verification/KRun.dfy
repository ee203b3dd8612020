/** The K-loop as running text: statements in order, with moves, matmuls and scale stores left pending and
    taking effect at any moment until the fence or the drain that waits for them.  Every finished run performs
    the accesses in an order that the sections of module KLoop allow. */
module KRun {
  import opened Traces
  import opened Dataflow
  import opened KLoop

  datatype Stmt =
    | Issue(moves: set<Kind>, mk: nat)     // moves or a matmul of one K-tile, left in flight
    | Store(stores: set<Kind>, sk: nat)    // scale stores of one K-tile
    | Fence                                // waits for stores
    | Drain                                // waits for moves and matmuls
    | Exit

  /** Statement j of a pass: pass 0 is the start-up, pass k + 1 the body of the loop for K-tile k. */
  datatype Pos = Pos(pass: nat, j: nat)

  function StmtAt(s: Shape, p: Pos): Stmt {
    if p.pass > s.n then Exit
    else
      match p.j
      case 0 => Issue(if p.pass == 0 || p.pass < s.n then {MoveA, MoveB} else {}, p.pass)
      case 1 => if p.pass == 0 then Issue({}, 0)
                else Issue(if p.pass == s.n then {Multiply, MoveOut} else {Multiply}, p.pass - 1)
      case 2 => Store({LoadScaleA, LoadScaleB}, p.pass)
      case 3 => Fence
      case _ => Drain
  }

  function Next(p: Pos): Pos {
    if p.j >= 4 then Pos(p.pass + 1, 0) else Pos(p.pass, p.j + 1)
  }

  function Ops(s: Shape, kinds: set<Kind>, k: nat): (r: set<Op>)
    ensures forall o: Op :: o in r <==> o.i < Count(s, o.kind) && o.kind in kinds && o.k == k
  {
    set kind: Kind, i: nat | kind in kinds && i < Count(s, kind) :: Op(kind, k, i)
  }

  datatype State = State(at: Pos, flight: set<Op>, stores: set<Op>, done: seq<Op>)

  function Initial(): State {
    State(Pos(0, 0), {}, {}, [])
  }

  datatype Move = Moves | TakesEffect(o: Op)

  /** The mesh moves C out when it has accumulated all of it. */
  predicate Enabled(s: Shape, x: State, move: Move) {
    match move
    case Moves => (match StmtAt(s, x.at)
                   case Issue(_, _) => true
                   case Store(_, _) => true
                   case Fence => x.stores == {}
                   case Drain => x.flight == {}
                   case Exit => false)
    case TakesEffect(o) =>
      o in x.stores || (o in x.flight && (o.kind == MoveOut ==> forall p :: p in x.flight ==> p.kind != Multiply))
  }

  function Apply(s: Shape, x: State, move: Move): State
    requires Enabled(s, x, move)
  {
    match move
    case Moves => (match StmtAt(s, x.at)
                   case Issue(kinds, k) => x.(at := Next(x.at), flight := x.flight + Ops(s, kinds, k))
                   case Store(kinds, k) => x.(at := Next(x.at), stores := x.stores + Ops(s, kinds, k))
                   case _ => x.(at := Next(x.at)))
    case TakesEffect(o) => x.(flight := x.flight - {o}, stores := x.stores - {o}, done := x.done + [o])
  }

  predicate Finished(s: Shape, x: State) {
    StmtAt(s, x.at) == Exit && x.flight == {} && x.stores == {}
  }

  predicate Legal(s: Shape, x: State, schedule: seq<Move>)
    decreases |schedule|
  {
    schedule == [] || (Enabled(s, x, schedule[0]) && Legal(s, Apply(s, x, schedule[0]), schedule[1..]))
  }

  function After(s: Shape, x: State, schedule: seq<Move>): State
    requires Legal(s, x, schedule)
    decreases |schedule|
  {
    if schedule == [] then x else After(s, Apply(s, x, schedule[0]), schedule[1..])
  }

  // ---- the invariant -------------------------------------------------------------------------------

  /** The statement that admits an access. */
  function Home(o: Op): Pos {
    match o.kind
    case MoveA => Pos(o.k, 0) case MoveB => Pos(o.k, 0)
    case Multiply => Pos(o.k + 1, 1) case MoveOut => Pos(o.k + 1, 1)
    case LoadScaleA => Pos(o.k, 2) case LoadScaleB => Pos(o.k, 2)
  }

  predicate Passed(p: Pos, home: Pos) {
    home.pass < p.pass || (home.pass == p.pass && home.j < p.j)
  }

  predicate At(s: Shape, p: Pos) {
    p.pass <= s.n + 1 && p.j <= 4 && (p.pass == s.n + 1 ==> p.j == 0)
  }

  predicate Pending(x: State, o: Op) {
    o in x.flight || o in x.stores
  }

  /** Whatever is pending was admitted in this pass of the loop body. */
  predicate PendingHere(x: State, o: Op) {
    && Home(o).pass == x.at.pass
    && (o in x.flight ==> !IsLoad(o.kind)) && (o in x.stores ==> IsLoad(o.kind) && x.at.j <= 3)
  }

  predicate CountedOnce(s: Shape, x: State, o: Op) {
    && (o in x.done || Pending(x, o) <==> Valid(s, o) && Passed(x.at, Home(o)))
    && (o in x.done ==> !Pending(x, o))
    && (o in x.done && o.kind == MoveOut ==> forall p :: p in x.flight ==> p.kind != Multiply)
  }

  /** o may come before p. */
  predicate MayPrecede(o: Op, p: Op) {
    Home(o).pass < Home(p).pass || (Home(o).pass == Home(p).pass && (o.kind == MoveOut ==> p.kind != Multiply))
  }

  ghost predicate Inv(s: Shape, x: State) {
    && At(s, x.at) && Distinct(x.done)
    && (forall o :: Pending(x, o) ==> PendingHere(x, o))
    && (forall o: Op :: CountedOnce(s, x, o))
    && (forall i, j :: 0 <= i < j < |x.done| ==> MayPrecede(x.done[i], x.done[j]))
  }

  lemma InitialInv(s: Shape)
    ensures Inv(s, Initial())
  {
    forall o: Op ensures CountedOnce(s, Initial(), o) {
    }
  }

  lemma Admits(s: Shape, p: Pos, o: Op)
    requires At(s, p) && p.pass <= s.n && !s.plain
    ensures Passed(Next(p), Home(o)) <==> Passed(p, Home(o)) || Home(o) == p
    ensures Valid(s, o) && Home(o) == p
            <==> o.i < Count(s, o.kind) && (match StmtAt(s, p)
                                            case Issue(kinds, k) => o.kind in kinds && o.k == k && !IsLoad(o.kind)
                                            case Store(kinds, k) => o.kind in kinds && o.k == k && IsLoad(o.kind)
                                            case _ => false)
  {
  }

  lemma MovesCounted(s: Shape, x: State, o: Op)
    requires At(s, x.at) && !s.plain && CountedOnce(s, x, o) && Enabled(s, x, Moves)
    ensures CountedOnce(s, Apply(s, x, Moves), o)
  {
    Admits(s, x.at, o);
  }

  lemma MovesPending(s: Shape, x: State)
    requires Inv(s, x) && !s.plain && Enabled(s, x, Moves)
    ensures forall o :: Pending(Apply(s, x, Moves), o) ==> PendingHere(Apply(s, x, Moves), o)
  {
    var y := Apply(s, x, Moves);
    forall o | Pending(y, o) ensures PendingHere(y, o) {
      Admits(s, x.at, o);
      if Pending(x, o) { assert PendingHere(x, o); }
    }
  }

  lemma EffectKeeps(s: Shape, x: State, o: Op)
    requires Inv(s, x) && !s.plain && Enabled(s, x, TakesEffect(o))
    ensures Inv(s, Apply(s, x, TakesEffect(o)))
  {
    var y := Apply(s, x, TakesEffect(o));
    assert CountedOnce(s, x, o) && PendingHere(x, o);
    forall p ensures CountedOnce(s, y, p) { assert CountedOnce(s, x, p); }
    forall p | Pending(y, p) ensures PendingHere(y, p) { assert PendingHere(x, p); }
    forall i | 0 <= i < |x.done| ensures MayPrecede(x.done[i], o) {
      assert x.done[i] in x.done && CountedOnce(s, x, x.done[i]);
    }
  }

  /** Every statement and effect keeps the invariant. */
  lemma StepKeeps(s: Shape, x: State, move: Move)
    requires Inv(s, x) && !s.plain && Enabled(s, x, move)
    ensures Inv(s, Apply(s, x, move))
  {
    match move
    case TakesEffect(o) => EffectKeeps(s, x, o);
    case Moves =>
      MovesPending(s, x);
      forall o ensures CountedOnce(s, Apply(s, x, move), o) { MovesCounted(s, x, o); }
  }

  lemma {:induction false} InvAfter(s: Shape, x: State, schedule: seq<Move>)
    requires Inv(s, x) && !s.plain && Legal(s, x, schedule)
    ensures Inv(s, After(s, x, schedule))
    decreases |schedule|
  {
    if schedule != [] {
      StepKeeps(s, x, schedule[0]);
      InvAfter(s, Apply(s, x, schedule[0]), schedule[1..]);
    }
  }

  // ---- finished runs -------------------------------------------------------------------------------

  lemma FinishedIsFenced(s: Shape, x: State)
    requires Inv(s, x) && !s.plain && Finished(s, x)
    ensures Fenced(s, x.done)
  {
    forall o: Op ensures o in x.done <==> Valid(s, o) { assert CountedOnce(s, x, o); }
    forall o, p | Valid(s, o) && Valid(s, p) && End(s, o) < Start(s, p) ensures Before(x.done, o, p) {
      assert o in x.done && p in x.done;
      var i :| 0 <= i < |x.done| && x.done[i] == o;
      var j :| 0 <= j < |x.done| && x.done[j] == p;
    }
  }

  /** MAIN RESULT 1.  However statements and pending accesses interleave, a finished run leaves in the scratchpad
      the sum over all K-tiles of the products of their own operands with their own scales. */
  lemma RunComputesProduct<V(!new)>(s: Shape, mesh: Mesh<V>, schedule: seq<Move>, m: imap<Loc, V>, i: nat)
    requires Total(m) && KLoop.Fits(s) && !s.plain && Legal(s, Initial(), schedule)
             && Finished(s, After(s, Initial(), schedule))
    requires i < s.c && s.n > 0
    ensures MovedOut(s, Computes(mesh), After(s, Initial(), schedule).done, m, i)
            == mesh.out(Product(s, mesh, m, s.n - 1, i))
  {
    InitialInv(s);
    InvAfter(s, Initial(), schedule);
    FinishedIsFenced(s, After(s, Initial(), schedule));
    ComputesSemantics(mesh);
    LoopComputesProduct(s, mesh, Computes(mesh), After(s, Initial(), schedule).done, m, i);
  }

  /** And the same tile as the plain loop with one buffer. */
  lemma RunRefinesPlainLoop<V(!new)>(s: Shape, mesh: Mesh<V>, schedule: seq<Move>, plain: seq<Op>, m: imap<Loc, V>,
                                     i: nat)
    requires Total(m) && KLoop.Fits(s) && !s.plain && Legal(s, Initial(), schedule)
             && Finished(s, After(s, Initial(), schedule))
    requires Fenced(s.(plain := true), plain) && i < s.c && s.n > 0
    ensures MovedOut(s, Computes(mesh), After(s, Initial(), schedule).done, m, i)
            == MovedOut(s.(plain := true), Computes(mesh), plain, m, i)
  {
    InitialInv(s);
    InvAfter(s, Initial(), schedule);
    FinishedIsFenced(s, After(s, Initial(), schedule));
    ComputesSemantics(mesh);
    DoubleBufferingIsInvisible(s, s.(plain := true), mesh, Computes(mesh), After(s, Initial(), schedule).done, plain, m,
                               i);
  }

  /** The plain loop has such an order. */
  lemma PlainOrderExists(s: Shape) returns (plain: seq<Op>)
    ensures Fenced(s.(plain := true), plain)
  {
    var p := s.(plain := true);
    var all := set o | o in AllOps(p) && Valid(p, o);
    var key := (o: Op) => Start(p, o);
    plain := Sorted(all, key);
    forall o: Op ensures o in all <==> Valid(p, o) {
    }
    forall o, q | Valid(p, o) && Valid(p, q) && End(p, o) < Start(p, q) ensures Before(plain, o, q) {
      SortedIsBefore(plain, key, o, q);
    }
  }

  // ---- every run finishes ----------------------------------------------------------------------------

  /** MAIN RESULT 2.  Unless it is finished, some statement or effect is possible. */
  lemma NeverStuck(s: Shape, x: State) returns (move: Move)
    requires Inv(s, x) && !Finished(s, x)
    ensures Enabled(s, x, move)
  {
    if o: Op :| o in x.stores {
      move := TakesEffect(o);
    } else if o: Op :| o in x.flight && o.kind == Multiply {
      move := TakesEffect(o);
    } else if o: Op :| o in x.flight {
      move := TakesEffect(o);
    } else {
      move := Moves;
    }
  }

  ghost function AllOps(s: Shape): (r: set<Op>)
    ensures forall o: Op :: o in r <==> o.k <= s.n && o.i < Count(s, o.kind)
  {
    set kind: Kind, k: nat, i: nat | k <= s.n && i < Count(s, kind) :: Op(kind, k, i)
  }

  ghost function Left(s: Shape, x: State): int {
    5 * (s.n + 1 - x.at.pass) - x.at.j + |AllOps(s)| - |x.done|
  }

  lemma LeftDrops(s: Shape, x: State, move: Move)
    requires Inv(s, x) && !s.plain && Enabled(s, x, move)
    ensures 0 <= Left(s, Apply(s, x, move)) < Left(s, x)
  {
    var y := Apply(s, x, move);
    StepKeeps(s, x, move);
    forall o | o in y.done ensures o in AllOps(s) { assert CountedOnce(s, y, o); }
    DistinctFits(y.done, AllOps(s));
  }

  /** MAIN RESULT 3.  Under every schedule a run has a bounded number of steps. */
  lemma {:induction false} RunsAreBounded(s: Shape, x: State, schedule: seq<Move>)
    requires Inv(s, x) && !s.plain && Legal(s, x, schedule)
    ensures |schedule| == 0 || |schedule| <= Left(s, x)
    decreases |schedule|
  {
    if schedule != [] {
      LeftDrops(s, x, schedule[0]);
      StepKeeps(s, x, schedule[0]);
      RunsAreBounded(s, Apply(s, x, schedule[0]), schedule[1..]);
    }
  }

  /** And from every reachable state some schedule finishes. */
  lemma {:induction false} Completes(s: Shape, x: State) returns (schedule: seq<Move>)
    requires Inv(s, x) && !s.plain
    ensures Legal(s, x, schedule) && Finished(s, After(s, x, schedule))
    decreases Left(s, x)
  {
    if Finished(s, x) { return []; }
    var move := NeverStuck(s, x);
    StepKeeps(s, x, move);
    LeftDrops(s, x, move);
    var rest := Completes(s, Apply(s, x, move));
    schedule := [move] + rest;
    assert schedule[1..] == rest;
  }
}
