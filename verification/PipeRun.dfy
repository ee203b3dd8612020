/** The pipelined kernel as running text: the agent (warp 0) and the other warps each execute their statements
    in order, meet at barriers, and leave stores, moves and matmuls pending.  A pending access takes effect at
    any moment; a drain waits for the agent's own, a barrier for all stores but not for moves and matmuls.
    Every finished run performs the accesses in an order that the stages of module Pipe allow. */
module PipeRun {
  import opened Traces
  import opened Dataflow
  import opened Pipe
  import opened PipeOutput

  datatype Stmt =
    | Issue(moves: set<Kind>, mt: int)     // moves and matmuls of one tile, left in flight
    | Store(stores: set<Kind>, st: int)    // stores of one tile
    | Drain
    | Barrier(id: nat)
    | Exit

  /** Statement j of tile t; tile -1 stands for the prologue. */
  datatype Pos = Pos(t: int, j: nat)

  function AgentStmt(s: Shape, p: Pos): Stmt {
    if p.t >= s.tiles then Exit
    else if p.t < 0 then (if p.j == 8 then Store({ScaleQ, ScaleK}, p.t + 1) else Barrier(2))
    else
      match p.j
      case 0 => Issue({MvinQ, MvinK}, p.t)
      case 1 => Barrier(3)
      case 2 => Drain
      case 3 => Issue({MatQk}, p.t)
      case 4 => Store({ScaleV}, p.t)
      case 5 => Drain
      case 6 => Barrier(4)
      case 7 => Issue({MvinV}, p.t)
      case 8 => Store({ScaleQ, ScaleK}, p.t + 1)
      case 9 => Barrier(5)
      case 10 => Barrier(6)
      case 11 => Barrier(7)
      case 12 => Store({CopyScales}, p.t)
      case 13 => Drain
      case 14 => Issue({MatPv}, p.t)
      case 15 => Drain
      case _ => Barrier(8)
  }

  /** The other warps; what all six warps share is put here, as everybody waits for it at the next barrier. */
  function SimtStmt(s: Shape, p: Pos): Stmt {
    if p.t >= s.tiles then (if p.j == 0 then Store({Final}, p.t - 1) else Exit)
    else if p.t < 0 then Barrier(2)
    else
      match p.j
      case 0 => Store({Final}, p.t - 1)
      case 1 => Barrier(3)
      case 2 => Barrier(4)
      case 3 => Store({RowMax, RowSum, RowCorr, RowProb}, p.t)
      case 4 => Barrier(5)
      case 5 => Store({Requant, RequantScale}, p.t)
      case 6 => Barrier(6)
      case 7 => Store({Prepack}, p.t)
      case 8 => Barrier(7)
      case _ => Barrier(8)
  }

  function AgentNext(p: Pos): Pos {
    if p.j >= 16 || (p.t < 0 && p.j >= 9) then Pos(p.t + 1, 0) else Pos(p.t, p.j + 1)
  }

  function SimtNext(p: Pos): Pos {
    if p.j >= 9 || p.t < 0 then Pos(p.t + 1, 0) else Pos(p.t, p.j + 1)
  }

  function Ops(s: Shape, kinds: set<Kind>, t: int): (r: set<Op>)
    ensures forall a: Op :: a in r <==> Valid(s, a) && a.kind in kinds && a.t == t
  {
    if t < 0 then {}
    else set kind: Kind, i: nat | kind in kinds && t < s.tiles && i < Count(s, kind) :: Op(kind, t, i)
  }

  /** flight: moves and matmuls issued; stores: the agent's; work: the other warps'; done: what took effect. */
  datatype State = State(agent: Pos, simt: Pos, flight: set<Op>, stores: set<Op>, work: set<Op>, done: seq<Op>)

  function Initial(): State {
    State(Pos(-1, 8), Pos(-1, 4), {}, {}, {}, [])
  }

  datatype Move = AgentMoves | SimtMoves | Meet | TakesEffect(a: Op)

  predicate Enabled(s: Shape, x: State, move: Move) {
    match move
    case AgentMoves => (match AgentStmt(s, x.agent)
                        case Issue(_, _) => true
                        case Store(_, _) => true
                        case Drain => x.flight == {} && x.stores == {}
                        case _ => false)
    case SimtMoves => SimtStmt(s, x.simt).Store?
    case Meet => AgentStmt(s, x.agent).Barrier? && SimtStmt(s, x.simt) == AgentStmt(s, x.agent) && x.stores == {}
                 && x.work == {}
    case TakesEffect(a) => a in x.flight || a in x.stores || a in x.work
  }

  function Apply(s: Shape, x: State, move: Move): State
    requires Enabled(s, x, move)
  {
    match move
    case AgentMoves => (match AgentStmt(s, x.agent)
                        case Issue(kinds, t) => x.(agent := AgentNext(x.agent), flight := x.flight + Ops(s, kinds, t))
                        case Store(kinds, t) => x.(agent := AgentNext(x.agent), stores := x.stores + Ops(s, kinds, t))
                        case _ => x.(agent := AgentNext(x.agent)))
    case SimtMoves =>
      x.(simt := SimtNext(x.simt), work := x.work + Ops(s, SimtStmt(s, x.simt).stores, SimtStmt(s, x.simt).st))
    case Meet => x.(agent := AgentNext(x.agent), simt := SimtNext(x.simt))
    case TakesEffect(a) => x.(flight := x.flight - {a}, stores := x.stores - {a}, work := x.work - {a},
                              done := x.done + [a])
  }

  predicate Finished(s: Shape, x: State) {
    AgentStmt(s, x.agent) == Exit && SimtStmt(s, x.simt) == Exit && x.flight == {} && x.stores == {} && x.work == {}
  }

  predicate Legal(s: Shape, x: State, schedule: seq<Move>)
    decreases |schedule|
  {
    schedule == [] || (Enabled(s, x, schedule[0]) && Legal(s, Apply(s, x, schedule[0]), schedule[1..]))
  }

  function After(s: Shape, x: State, schedule: seq<Move>): State
    requires Legal(s, x, schedule)
    decreases |schedule|
  {
    if schedule == [] then x else After(s, Apply(s, x, schedule[0]), schedule[1..])
  }

  // ---- stages of program positions -----------------------------------------------------------------

  /** The stage the agent is in, in the units of Pipe.Start. */
  function Stage(p: Pos): int {
    8 * p.t + (if p.j <= 1 then 0 else if p.j <= 2 then 1 else if p.j <= 6 then 2 else if p.j <= 9 then 3
               else if p.j <= 10 then 4 else if p.j <= 11 then 5 else if p.j <= 13 then 6 else 7)
  }

  /** The first and the last stage of the agent while the other warps are at p. */
  function Low(p: Pos): int {
    8 * p.t + (if p.j <= 1 then 0 else if p.j <= 2 then 1 else if p.j <= 4 then 3 else if p.j <= 6 then 4
               else if p.j <= 8 then 5 else 6)
  }

  function High(p: Pos): int {
    if p.j == 2 || p.j == 9 then Low(p) + 1 else Low(p)
  }

  predicate AgentAt(s: Shape, p: Pos) {
    -1 <= p.t <= s.tiles && p.j <= 16 && (p.t == -1 ==> 8 <= p.j <= 9) && (p.t == s.tiles ==> p.j == 0)
  }

  predicate SimtAt(s: Shape, p: Pos) {
    -1 <= p.t <= s.tiles && p.j <= 9 && (p.t == -1 ==> p.j == 4) && (p.t == s.tiles ==> p.j <= 1)
  }

  predicate InFlight(kind: Kind) {
    kind == MvinQ || kind == MvinK || kind == MvinV || kind == MatQk || kind == MatPv
  }

  predicate ByAgent(kind: Kind) {
    kind == ScaleQ || kind == ScaleK || kind == ScaleV || kind == CopyScales
  }

  /** The statement that admits an access. */
  function Home(a: Op): Pos {
    match a.kind
    case MvinQ => Pos(a.t, 0) case MvinK => Pos(a.t, 0) case MatQk => Pos(a.t, 3) case ScaleV => Pos(a.t, 4)
    case MvinV => Pos(a.t, 7) case ScaleQ => Pos(a.t - 1, 8) case ScaleK => Pos(a.t - 1, 8)
    case CopyScales => Pos(a.t, 12) case MatPv => Pos(a.t, 14)
    case Final => Pos(a.t + 1, 0)
    case RowMax => Pos(a.t, 3) case RowSum => Pos(a.t, 3) case RowCorr => Pos(a.t, 3) case RowProb => Pos(a.t, 3)
    case Requant => Pos(a.t, 5) case RequantScale => Pos(a.t, 5) case Prepack => Pos(a.t, 7)
  }

  predicate Passed(p: Pos, home: Pos) {
    home.t < p.t || (home.t == p.t && home.j < p.j)
  }

  predicate Admitted(x: State, a: Op) {
    Passed(if InFlight(a.kind) || ByAgent(a.kind) then x.agent else x.simt, Home(a))
  }

  predicate Pending(x: State, a: Op) {
    a in x.flight || a in x.stores || a in x.work
  }

  // ---- the invariant -------------------------------------------------------------------------------

  predicate Places(s: Shape, x: State) {
    AgentAt(s, x.agent) && SimtAt(s, x.simt) && Low(x.simt) <= Stage(x.agent) <= High(x.simt)
  }

  /** Just after a drain nothing is in flight. */
  predicate Drained(j: nat) {
    j == 3 || j == 6 || j == 7 || j == 14 || j == 16
  }

  predicate FlightOk(stage: int, a: Op) {
    InFlight(a.kind) && Start(a) <= stage <= End(a)
  }

  predicate StoreOk(stage: int, a: Op) {
    ByAgent(a.kind) && Start(a) == stage
  }

  predicate WorkOk(simt: Pos, a: Op) {
    !InFlight(a.kind) && !ByAgent(a.kind) && Start(a) == Low(simt) == High(simt)
  }

  ghost predicate PendingOk(x: State) {
    && (forall a :: a in x.flight ==> FlightOk(Stage(x.agent), a))
    && (forall a :: a in x.stores ==> StoreOk(Stage(x.agent), a))
    && (forall a :: a in x.work ==> WorkOk(x.simt, a))
    && (Drained(x.agent.j) ==> x.flight == {})
  }

  predicate CountedOnce(s: Shape, x: State, a: Op) {
    && (a in x.done || Pending(x, a) <==> Valid(s, a) && Admitted(x, a))
    && (a in x.done ==> !Pending(x, a))
  }

  /** Exactly the admitted accesses are pending or done, once. */
  ghost predicate Counted(s: Shape, x: State) {
    && Distinct(x.done)
    && (forall a: Op :: CountedOnce(s, x, a))
  }

  /** Nothing took effect before an access of an earlier stage. */
  ghost predicate InOrder(x: State) {
    && (forall i :: 0 <= i < |x.done| ==> Start(x.done[i]) <= Stage(x.agent))
    && (forall i, j :: 0 <= i < j < |x.done| ==> Start(x.done[i]) <= End(x.done[j]))
  }

  ghost predicate Inv(s: Shape, x: State) {
    Places(s, x) && PendingOk(x) && Counted(s, x) && InOrder(x)
  }

  lemma InitialInv(s: Shape)
    ensures Inv(s, Initial())
  {
    forall a: Op ensures CountedOnce(s, Initial(), a) {
    }
  }

  lemma AgentPlaces(s: Shape, x: State)
    requires Places(s, x) && Enabled(s, x, AgentMoves)
    ensures Places(s, Apply(s, x, AgentMoves)) && Stage(x.agent) <= Stage(AgentNext(x.agent))
    ensures Stage(x.agent) < Stage(AgentNext(x.agent)) ==> AgentStmt(s, x.agent) == Drain && Low(x.simt) < High(x.simt)
  {
  }

  lemma SimtPlaces(s: Shape, x: State)
    requires Places(s, x) && Enabled(s, x, SimtMoves)
    ensures Places(s, Apply(s, x, SimtMoves))
  {
  }

  lemma MeetPlaces(s: Shape, x: State)
    requires Places(s, x) && Enabled(s, x, Meet)
    ensures Places(s, Apply(s, x, Meet)) && Stage(x.agent) <= Stage(AgentNext(x.agent))
  {
  }

  /** What a statement admits is what has it as its home. */
  lemma AgentAdmits(s: Shape, p: Pos, a: Op)
    requires AgentAt(s, p) && p.t < s.tiles && Valid(s, a) && (InFlight(a.kind) || ByAgent(a.kind))
    ensures Passed(AgentNext(p), Home(a)) <==> Passed(p, Home(a)) || Home(a) == p
    ensures Home(a) == p <==> (match AgentStmt(s, p)
                               case Issue(kinds, t) => a.kind in kinds && a.t == t
                               case Store(kinds, t) => a.kind in kinds && a.t == t
                               case _ => false)
    ensures Home(a) == p ==>
              Start(a) == Stage(p) == Stage(AgentNext(p)) && (InFlight(a.kind) <==> AgentStmt(s, p).Issue?)
  {
  }

  lemma SimtAdmits(s: Shape, p: Pos, a: Op)
    requires SimtAt(s, p) && Valid(s, a) && !InFlight(a.kind) && !ByAgent(a.kind) && SimtStmt(s, p) != Exit
    ensures Passed(SimtNext(p), Home(a)) <==> Passed(p, Home(a)) || Home(a) == p
    ensures Home(a) == p <==> SimtStmt(s, p).Store? && a.kind in SimtStmt(s, p).stores && a.t == SimtStmt(s, p).st
    ensures Home(a) == p ==> Start(a) == Low(p) == High(p) == Low(SimtNext(p)) == High(SimtNext(p))
  {
  }

  // ---- every step keeps the invariant ----------------------------------------------------------------

  lemma StageMoves(x: State, y: State)
    requires InOrder(x) && y.done == x.done && Stage(x.agent) <= Stage(y.agent)
    ensures InOrder(y)
  {
  }

  lemma AgentPending(s: Shape, x: State)
    requires Places(s, x) && PendingOk(x) && Enabled(s, x, AgentMoves)
    ensures PendingOk(Apply(s, x, AgentMoves))
  {
    AgentPlaces(s, x);
    var y := Apply(s, x, AgentMoves);
    if Stage(x.agent) < Stage(y.agent) {
      assert y.flight == {} && y.stores == {} && y.work == x.work;
    } else {
      forall a | a in y.flight && a !in x.flight ensures FlightOk(Stage(y.agent), a) { AgentAdmits(s, x.agent, a); }
      forall a | a in y.stores && a !in x.stores ensures StoreOk(Stage(y.agent), a) { AgentAdmits(s, x.agent, a); }
    }
  }

  lemma AgentCounted(s: Shape, x: State, a: Op)
    requires Places(s, x) && CountedOnce(s, x, a) && Enabled(s, x, AgentMoves)
    ensures CountedOnce(s, Apply(s, x, AgentMoves), a)
  {
    if Valid(s, a) && (InFlight(a.kind) || ByAgent(a.kind)) { AgentAdmits(s, x.agent, a); }
  }

  lemma SimtPending(s: Shape, x: State)
    requires Places(s, x) && PendingOk(x) && Enabled(s, x, SimtMoves)
    ensures PendingOk(Apply(s, x, SimtMoves))
  {
    var y := Apply(s, x, SimtMoves);
    forall a | a in y.work ensures WorkOk(y.simt, a) { SimtWork(s, x, a); }
  }

  lemma SimtWork(s: Shape, x: State, a: Op)
    requires Places(s, x) && Enabled(s, x, SimtMoves) && a in Apply(s, x, SimtMoves).work
             && (a in x.work ==> WorkOk(x.simt, a))
    ensures WorkOk(SimtNext(x.simt), a)
  {
    if a !in x.work { assert Valid(s, a); SimtStores(s, x.simt, a); }
  }

  /** What a statement of the other warps stores is theirs, and of the stage they are in. */
  lemma SimtStores(s: Shape, p: Pos, a: Op)
    requires SimtAt(s, p) && SimtStmt(s, p).Store? && a.kind in SimtStmt(s, p).stores && a.t == SimtStmt(s, p).st
    ensures WorkOk(SimtNext(p), a)
  {
  }

  lemma SimtCounted(s: Shape, x: State, a: Op)
    requires Places(s, x) && CountedOnce(s, x, a) && Enabled(s, x, SimtMoves)
    ensures CountedOnce(s, Apply(s, x, SimtMoves), a)
  {
    if Valid(s, a) && !InFlight(a.kind) && !ByAgent(a.kind) { SimtAdmits(s, x.simt, a); }
  }

  lemma MeetPending(s: Shape, x: State)
    requires Places(s, x) && PendingOk(x) && Enabled(s, x, Meet)
    ensures PendingOk(Apply(s, x, Meet))
  {
    var y := Apply(s, x, Meet);
    forall a | a in y.flight ensures FlightOk(Stage(y.agent), a) {
      FlightPasses(s, x.agent, a);
    }
  }

  /** What is in flight at a barrier is waited for by a later drain. */
  lemma FlightPasses(s: Shape, p: Pos, a: Op)
    requires AgentAt(s, p) && AgentStmt(s, p).Barrier? && !Drained(p.j) && FlightOk(Stage(p), a)
    ensures FlightOk(Stage(AgentNext(p)), a)
  {
  }

  lemma MeetCounted(s: Shape, x: State, a: Op)
    requires Places(s, x) && CountedOnce(s, x, a) && Enabled(s, x, Meet)
    ensures CountedOnce(s, Apply(s, x, Meet), a)
  {
    if Valid(s, a) {
      if InFlight(a.kind) || ByAgent(a.kind) { AgentAdmits(s, x.agent, a); } else { SimtAdmits(s, x.simt, a); }
    }
  }

  lemma EffectKeeps(s: Shape, x: State, a: Op)
    requires Inv(s, x) && Pending(x, a)
    ensures Inv(s, Apply(s, x, TakesEffect(a)))
  {
    var y := Apply(s, x, TakesEffect(a));
    assert CountedOnce(s, x, a) && Start(a) <= Stage(x.agent) <= End(a);
    forall b ensures CountedOnce(s, y, b) { assert CountedOnce(s, x, b); }
  }

  /** Every statement, barrier and effect keeps the invariant. */
  lemma StepKeeps(s: Shape, x: State, move: Move)
    requires Inv(s, x) && Enabled(s, x, move)
    ensures Inv(s, Apply(s, x, move))
  {
    var y := Apply(s, x, move);
    match move
    case TakesEffect(a) => EffectKeeps(s, x, a);
    case AgentMoves =>
      AgentPlaces(s, x);
      AgentPending(s, x);
      StageMoves(x, y);
      forall a ensures CountedOnce(s, y, a) { AgentCounted(s, x, a); }
    case SimtMoves =>
      SimtPlaces(s, x);
      SimtPending(s, x);
      StageMoves(x, y);
      forall a ensures CountedOnce(s, y, a) { SimtCounted(s, x, a); }
    case Meet =>
      MeetPlaces(s, x);
      MeetPending(s, x);
      StageMoves(x, y);
      forall a ensures CountedOnce(s, y, a) { MeetCounted(s, x, a); }
  }

  lemma {:induction false} InvAfter(s: Shape, x: State, schedule: seq<Move>)
    requires Inv(s, x) && Legal(s, x, schedule)
    ensures Inv(s, After(s, x, schedule))
    decreases |schedule|
  {
    if schedule != [] {
      StepKeeps(s, x, schedule[0]);
      InvAfter(s, Apply(s, x, schedule[0]), schedule[1..]);
    }
  }

  // ---- finished runs -------------------------------------------------------------------------------

  lemma FinishedIsPipelined(s: Shape, x: State)
    requires Inv(s, x) && Finished(s, x)
    ensures Pipelined(s, x.done)
  {
    forall a: Op ensures a in x.done <==> Valid(s, a) {
      assert CountedOnce(s, x, a);
      if Valid(s, a) { HomesArePassed(s, x, a); }
    }
    forall a, b | Valid(s, a) && Valid(s, b) && End(a) < Start(b) ensures Before(x.done, a, b) {
      assert a in x.done && b in x.done;
      var i :| 0 <= i < |x.done| && x.done[i] == a;
      var j :| 0 <= j < |x.done| && x.done[j] == b;
    }
  }

  lemma HomesArePassed(s: Shape, x: State, a: Op)
    requires Places(s, x) && Finished(s, x) && Valid(s, a)
    ensures Admitted(x, a)
  {
  }

  /** MAIN RESULT 1.  However agent, other warps and pending accesses interleave, a finished run leaves the memory
      of the tile-by-tile program. */
  lemma RunRefinesTileByTile<V(!new)>(s: Shape, sem: Op -> (seq<V> -> V), schedule: seq<Move>, sequential: seq<Op>,
                                      m: imap<Loc, V>)
    requires Total(m) && Legal(s, Initial(), schedule) && Finished(s, After(s, Initial(), schedule))
             && TileByTile(s, sequential)
    ensures Execute(Program(Tiles(s), sem), After(s, Initial(), schedule).done, m)
            == Execute(Program(Tiles(s), sem), sequential, m)
  {
    InitialInv(s);
    InvAfter(s, Initial(), schedule);
    FinishedIsPipelined(s, After(s, Initial(), schedule));
    PipelineRefinesTileByTile(s, sem, After(s, Initial(), schedule).done, sequential, m);
  }

  /** MAIN RESULT 2.  And word i of each tile's output is the PV product's word i over the sum of row i / oWords, of
      that tile's own inputs. */
  lemma RunOutput<V(!new)>(s: Shape, f: Kernels<V>, sem: Op -> (seq<V> -> V), schedule: seq<Move>, m: imap<Loc, V>,
                           t: nat, i: nat)
    requires Total(m) && Legal(s, Initial(), schedule) && Finished(s, After(s, Initial(), schedule))
    requires Semantics(s, f, sem) && t < s.tiles && i < s.rows * s.oWords
    ensures s.oWords > 0
    ensures Execute(Program(Tiles(s), sem), After(s, Initial(), schedule).done, m)[Loc(Output, t, i)]
            == Attention(s, f, m, t, i)
  {
    InitialInv(s);
    InvAfter(s, Initial(), schedule);
    FinishedIsPipelined(s, After(s, Initial(), schedule));
    PipelinedOutput(s, f, sem, After(s, Initial(), schedule).done, m, t, i);
  }

  /** And the rows' maxima, sums and corrections left at the end are those of the last tile's scores. */
  lemma RunState<V(!new)>(s: Shape, f: Kernels<V>, sem: Op -> (seq<V> -> V), schedule: seq<Move>, m: imap<Loc, V>,
                          t: nat, r: nat)
    requires Total(m) && Legal(s, Initial(), schedule) && Finished(s, After(s, Initial(), schedule))
    requires Semantics(s, f, sem) && t + 1 == s.tiles && r < s.rows
    ensures var after := Execute(Program(Tiles(s), sem), After(s, Initial(), schedule).done, m);
            var row := ScoreRow(s, f, m, t, r);
            && after[Loc(MaxRow, 0, r)] == f.max(row) && after[Loc(SumRow, 0, r)] == f.sum(row)
            && after[Loc(CorrRow, 0, r)] == f.corr(row)
  {
    InitialInv(s);
    InvAfter(s, Initial(), schedule);
    FinishedIsPipelined(s, After(s, Initial(), schedule));
    PipelinedState(s, f, sem, After(s, Initial(), schedule).done, m, t, r);
  }

  // ---- every run finishes ----------------------------------------------------------------------------

  /** MAIN RESULT 3.  Unless it is finished, some statement, barrier or effect is possible. */
  lemma NeverStuck(s: Shape, x: State) returns (move: Move)
    requires Inv(s, x) && !Finished(s, x)
    ensures Enabled(s, x, move)
  {
    if a: Op :| a in x.flight {
      move := TakesEffect(a);
    } else if a: Op :| a in x.stores {
      move := TakesEffect(a);
    } else if a: Op :| a in x.work {
      move := TakesEffect(a);
    } else if Enabled(s, x, AgentMoves) {
      move := AgentMoves;
    } else if Enabled(s, x, SimtMoves) {
      move := SimtMoves;
    } else {
      SameBarrier(s, x);
      move := Meet;
    }
  }

  lemma SameBarrier(s: Shape, x: State)
    requires Places(s, x) && !SimtStmt(s, x.simt).Store?
             && (AgentStmt(s, x.agent).Barrier? || AgentStmt(s, x.agent) == Exit)
    ensures AgentStmt(s, x.agent) == SimtStmt(s, x.simt)
  {
  }

  /** Statements left to both and accesses yet to take effect. */
  ghost function Left(s: Shape, x: State): int {
    17 * (s.tiles - x.agent.t) - x.agent.j + 10 * (s.tiles - x.simt.t) + 2 - x.simt.j + |AllOps(s)| - |x.done|
  }

  lemma LeftDrops(s: Shape, x: State, move: Move)
    requires Inv(s, x) && Enabled(s, x, move)
    ensures 0 <= Left(s, Apply(s, x, move)) < Left(s, x)
  {
    var y := Apply(s, x, move);
    StepKeeps(s, x, move);
    forall a | a in y.done ensures a in AllOps(s) { assert CountedOnce(s, y, a); }
    DistinctFits(y.done, AllOps(s));
  }

  /** MAIN RESULT 4.  Under every schedule a run has a bounded number of steps. */
  lemma {:induction false} RunsAreBounded(s: Shape, x: State, schedule: seq<Move>)
    requires Inv(s, x) && Legal(s, x, schedule)
    ensures |schedule| == 0 || |schedule| <= Left(s, x)
    decreases |schedule|
  {
    if schedule != [] {
      StepKeeps(s, x, schedule[0]);
      LeftDrops(s, x, schedule[0]);
      RunsAreBounded(s, Apply(s, x, schedule[0]), schedule[1..]);
    }
  }

  /** And from every reachable state some schedule finishes. */
  lemma {:induction false} Completes(s: Shape, x: State) returns (schedule: seq<Move>)
    requires Inv(s, x)
    ensures Legal(s, x, schedule) && Finished(s, After(s, x, schedule))
    decreases Left(s, x)
  {
    if Finished(s, x) { return []; }
    var move := NeverStuck(s, x);
    StepKeeps(s, x, move);
    LeftDrops(s, x, move);
    var rest := Completes(s, Apply(s, x, move));
    schedule := [move] + rest;
    assert schedule[1..] == rest;
  }
}
