/** The softmax and requantization of a whole tile: rows are dealt out in strides, to threads in the chained form
    and to warps in the others, and every form leaves the same words and scales. */
module SoftmaxTile {
  import opened E4m3
  import opened Fused
  import opened GridStride
  import opened RowStore
  import opened RowSums
  import opened Swar
  import opened TwoPass
  import Tiles

  /** One thread a row; sixteen lanes of c columns, 2^q lanes to a block; or softmax and requantization apart. */
  datatype Form = Chained | Lanes(q: nat, c: nat) | Separate

  /** A tile of scores, whether it is the first of its rows, and the rows' maxima and denominators so far. */
  datatype Task<!V> = Task(ops: Ops<V>, code: V -> bf16, t: Tiles.Shape, scores: seq<seq<V>>, first: bool,
                           m: seq<V>, l: seq<V>)

  ghost predicate RowGiven<V>(k: Task<V>, row: nat)
    requires row < |k.scores| == |k.m|
  {
    IsScores(k.ops, k.scores[row], k.t.n) && (k.first || k.ops.finite(k.m[row]))
  }

  ghost predicate IsTask<V(!new)>(k: Task<V>) {
    && MonotoneExp(k.ops, k.code) && |k.scores| == |k.m| == |k.l| == Tiles.Rows(k.t)
    && forall row: nat :: row < Tiles.Rows(k.t) ==> RowGiven(k, row)
  }

  predicate FormFits(form: Form, t: Tiles.Shape) {
    form.Lanes? ==>
      && form.q <= SIXTEEN && t.n == Bits.Pow2(SIXTEEN - form.q) && form.c * Bits.Pow2(form.q) == 32
      && form.c > 0 && form.c % 4 == 0 && 16 * form.c == 32 * t.n
  }

  /** What row `row` becomes. */
  ghost function Result<V(!new)>(k: Task<V>, row: nat): (r: Row<V>)
    requires IsTask(k) && row < Tiles.Rows(k.t)
    ensures |r.scales| == k.t.n && RowFits(k.t, r.codes, row)
    ensures forall b: nat :: b < k.t.n ==> 0 <= r.scales[b] < 0x100
  {
    assert RowGiven(k, row);
    var r := RowOf(k.ops, k.code, k.scores[row], k.t.n, k.first, k.m[row]);
    CodesAreBytes(k.code, Weights(k.ops, k.scores[row], k.first, k.m[row]), r.scales, k.t.n);
    r
  }

  /** The row's weights, and their sum as the form groups it. */
  ghost function WeightsOf<V(!new)>(k: Task<V>, row: nat): (e: seq<V>)
    requires IsTask(k) && row < Tiles.Rows(k.t)
    ensures |e| == 32 * k.t.n
  {
    assert RowGiven(k, row);
    Weights(k.ops, k.scores[row], k.first, k.m[row])
  }

  ghost function SumOf<V(!new)>(k: Task<V>, form: Form, row: nat): V
    requires IsTask(k) && FormFits(form, k.t) && row < Tiles.Rows(k.t)
  {
    match form
    case Chained => ChainSum(k.ops, WeightsOf(k, row))
    case Lanes(q, c) => LaneTreeSum(k.ops, WeightsOf(k, row), c)
    case Separate => StridedTreeSum(k.ops, WeightsOf(k, row), k.t.n)
  }

  /** The row's denominator after the tile. */
  ghost function NewSum<V(!new)>(k: Task<V>, form: Form, row: nat): V
    requires IsTask(k) && FormFits(form, k.t) && row < Tiles.Rows(k.t)
  {
    Denominator(k.ops, Result(k, row).corr, k.first, k.l[row], SumOf(k, form, row))
  }

  // ---- one row ------------------------------------------------------------------------------------------

  method OneRow<V(!new)>(k: Task<V>, form: Form, row: nat, m: V, l: V, spad: array<word>, scratch: array<int>)
    returns (r: Row<V>, l': V)
    requires IsTask(k) && FormFits(form, k.t) && row < Tiles.Rows(k.t) && m == k.m[row] && l == k.l[row]
    requires spad.Length == Tiles.SpadWords(k.t) && scratch.Length == Tiles.Items(k.t)
    modifies spad, scratch
    ensures r == Result(k, row) && l' == NewSum(k, form, row)
    ensures Left(k.t, row, r.codes, r.scales, old(spad[..]), spad[..], old(scratch[..]), scratch[..])
  {
    assert RowGiven(k, row);
    var s := k.scores[row];
    match form
    case Chained => r, l' := ThreadPerRow(k.ops, k.code, s, k.t, row, k.first, m, l, spad, scratch);
    case Lanes(q, c) => r, l' := FusedRow(k.ops, k.code, s, q, c, k.t, row, k.first, m, l, spad, scratch);
    case Separate => r, l' := SeparateRow(k.ops, k.code, s, k.t, row, k.first, m, l, spad, scratch);
  }

  // ---- the rows of one stride --------------------------------------------------------------------------

  /** The rows' maxima, denominators and corrections in shared memory. */
  class RowState<V> {
    var m: seq<V>
    var l: seq<V>
    var corr: seq<V>

    constructor (m: seq<V>, l: seq<V>, corr: seq<V>)
      ensures this.m == m && this.l == l && this.corr == corr
    {
      this.m, this.l, this.corr := m, l, corr;
    }

    method Put(row: nat, m: V, l: V, corr: V)
      requires row < |this.m| == |this.l| == |this.corr|
      modifies this
      ensures this.m == old(this.m)[row := m] && this.l == old(this.l)[row := l]
      ensures this.corr == old(this.corr)[row := corr]
    {
      this.m, this.l, this.corr := this.m[row := m], this.l[row := l], this.corr[row := corr];
    }
  }

  /** All that a form changes: the scratchpad, the scales, and the rows' state. */
  datatype Memory<V> = Memory(spad: seq<word>, scratch: seq<int>, m: seq<V>, l: seq<V>, corr: seq<V>)

  function Now<V>(state: RowState<V>, spad: array<word>, scratch: array<int>): Memory<V>
    reads state, spad, scratch
  {
    Memory(spad[..], scratch[..], state.m, state.l, state.corr)
  }

  predicate IsMemory<V>(t: Tiles.Shape, x: Memory<V>) {
    && |x.spad| == Tiles.SpadWords(t) && |x.scratch| == Tiles.Items(t)
    && |x.m| == |x.l| == |x.corr| == Tiles.Rows(t)
  }

  /** What the rows of a tile are to become. */
  datatype Goal<!V> = Goal(t: Tiles.Shape, rows: seq<Row<V>>, sums: seq<V>)

  ghost predicate RowIsGoal<V>(g: Goal<V>, row: nat)
    requires row < |g.rows|
  {
    |g.rows[row].scales| == g.t.n && RowFits(g.t, g.rows[row].codes, row)
  }

  ghost predicate IsGoal<V>(g: Goal<V>) {
    && |g.rows| == |g.sums| == Tiles.Rows(g.t)
    && forall row: nat :: row < Tiles.Rows(g.t) ==> RowIsGoal(g, row)
  }

  ghost function GoalOf<V(!new)>(k: Task<V>, form: Form): (g: Goal<V>)
    requires IsTask(k) && FormFits(form, k.t)
    ensures IsGoal(g) && g.t == k.t
    ensures forall row: nat :: row < Tiles.Rows(k.t) ==>
              g.rows[row] == Result(k, row) && g.sums[row] == NewSum(k, form, row)
  {
    var n := Tiles.Rows(k.t);
    var rows := seq(n, row requires 0 <= row < n => Result(k, row));
    Goal(k.t, rows, seq(n, row requires 0 <= row < n => NewSum(k, form, row)))
  }

  /** Word v of a row: its four codes when the row is done, else as before. */
  ghost predicate WordDone<V>(g: Goal<V>, before: seq<word>, after: seq<word>, done: bool, row: nat, v: nat)
    requires IsGoal(g) && |before| == |after| == Tiles.SpadWords(g.t) && row < Tiles.Rows(g.t) && v < 8 * g.t.n
  {
    assert RowIsGoal(g, row);
    PlaceIsFast(g.t, row, v);
    after[Place(g.t, row, v)] == if done then RowWord(g.rows[row].codes, v) else before[Place(g.t, row, v)]
  }

  ghost predicate SlotDone<V>(g: Goal<V>, before: seq<int>, after: seq<int>, done: bool, row: nat, b: nat)
    requires IsGoal(g) && |before| == |after| == Tiles.Items(g.t) && row < Tiles.Rows(g.t) && b < g.t.n
  {
    assert RowIsGoal(g, row);
    SlotInScratch(g.t, row, b);
    var slot := b * (16 * g.t.r) + row;
    after[slot] == if done then g.rows[row].scales[b] else before[slot]
  }

  ghost predicate StateDone<V>(g: Goal<V>, before: Memory<V>, after: Memory<V>, done: bool, row: nat)
    requires IsGoal(g) && IsMemory(g.t, before) && IsMemory(g.t, after) && row < Tiles.Rows(g.t)
  {
    && after.m[row] == (if done then g.rows[row].m else before.m[row])
    && after.l[row] == (if done then g.sums[row] else before.l[row])
    && after.corr[row] == (if done then g.rows[row].corr else before.corr[row])
  }

  ghost predicate WordsDone<V>(g: Goal<V>, before: seq<word>, after: seq<word>, tid: nat, stride: nat, limit: nat)
    requires IsGoal(g) && |before| == |after| == Tiles.SpadWords(g.t) && stride > 0
  {
    forall row: nat, v: nat :: row < Tiles.Rows(g.t) && v < 8 * g.t.n ==>
      WordDone(g, before, after, Mine(row, tid, stride, limit), row, v)
  }

  ghost predicate SlotsDone<V>(g: Goal<V>, before: seq<int>, after: seq<int>, tid: nat, stride: nat, limit: nat)
    requires IsGoal(g) && |before| == |after| == Tiles.Items(g.t) && stride > 0
  {
    forall row: nat, b: nat :: row < Tiles.Rows(g.t) && b < g.t.n ==>
      SlotDone(g, before, after, Mine(row, tid, stride, limit), row, b)
  }

  ghost predicate StatesDone<V>(g: Goal<V>, before: Memory<V>, after: Memory<V>, tid: nat, stride: nat, limit: nat)
    requires IsGoal(g) && IsMemory(g.t, before) && IsMemory(g.t, after) && stride > 0
  {
    forall row: nat :: row < Tiles.Rows(g.t) ==> StateDone(g, before, after, Mine(row, tid, stride, limit), row)
  }

  /** The stride's rows below the limit have their words, scales and state, and everything else is as before. */
  ghost predicate RowsDone<V>(g: Goal<V>, before: Memory<V>, after: Memory<V>, tid: nat, stride: nat, limit: nat)
    requires IsGoal(g) && stride > 0
  {
    && IsMemory(g.t, before) && IsMemory(g.t, after)
    && WordsDone(g, before.spad, after.spad, tid, stride, limit)
    && SlotsDone(g, before.scratch, after.scratch, tid, stride, limit)
    && StatesDone(g, before, after, tid, stride, limit)
  }

  lemma WordsStep<V>(g: Goal<V>, before: seq<word>, now: seq<word>, after: seq<word>, tid: nat, stride: nat, row: nat)
    requires IsGoal(g) && |before| == |now| == |after| == Tiles.SpadWords(g.t) && row < Tiles.Rows(g.t)
             && RowIsGoal(g, row)
    requires stride > 0 && Lane(row, stride) == tid && WordsDone(g, before, now, tid, stride, row)
    requires RowStored(g.t, now, after, g.rows[row].codes, row)
    ensures WordsDone(g, before, after, tid, stride, row + stride)
  {
    var limit := row + stride;
    forall r: nat, v: nat | r < Tiles.Rows(g.t) && v < 8 * g.t.n
      ensures WordDone(g, before, after, Mine(r, tid, stride, limit), r, v)
    {
      MineStep(r, tid, stride, row);
      assert WordDone(g, before, now, Mine(r, tid, stride, row), r, v);
      assert PlaceStored(g.t, now, after, g.rows[row].codes, row, r, v);
    }
  }

  lemma SlotsStep<V>(g: Goal<V>, before: seq<int>, now: seq<int>, after: seq<int>, tid: nat, stride: nat, row: nat)
    requires IsGoal(g) && |before| == |now| == |after| == Tiles.Items(g.t) && row < Tiles.Rows(g.t) && RowIsGoal(g, row)
    requires stride > 0 && Lane(row, stride) == tid && SlotsDone(g, before, now, tid, stride, row)
    requires ScalesStored(g.t, now, after, g.rows[row].scales, row, g.t.n)
    ensures SlotsDone(g, before, after, tid, stride, row + stride)
  {
    var limit := row + stride;
    forall r: nat, b: nat | r < Tiles.Rows(g.t) && b < g.t.n
      ensures SlotDone(g, before, after, Mine(r, tid, stride, limit), r, b)
    {
      MineStep(r, tid, stride, row);
      assert SlotDone(g, before, now, Mine(r, tid, stride, row), r, b);
      assert SlotStored(g.t, now, after, g.rows[row].scales, row, g.t.n, r, b);
    }
  }

  /** One row's state is replaced. */
  ghost predicate StatePut<V>(g: Goal<V>, now: Memory<V>, after: Memory<V>, row: nat)
    requires IsGoal(g) && IsMemory(g.t, now) && row < Tiles.Rows(g.t)
  {
    && after.m == now.m[row := g.rows[row].m] && after.l == now.l[row := g.sums[row]]
    && after.corr == now.corr[row := g.rows[row].corr]
  }

  lemma StatesStep<V>(g: Goal<V>, before: Memory<V>, now: Memory<V>, after: Memory<V>, tid: nat, stride: nat, row: nat)
    requires IsGoal(g) && IsMemory(g.t, before) && IsMemory(g.t, now) && IsMemory(g.t, after) && row < Tiles.Rows(g.t)
    requires stride > 0 && Lane(row, stride) == tid && StatesDone(g, before, now, tid, stride, row)
    requires StatePut(g, now, after, row)
    ensures StatesDone(g, before, after, tid, stride, row + stride)
  {
    var limit := row + stride;
    forall i: nat | i < Tiles.Rows(g.t) ensures StateDone(g, before, after, Mine(i, tid, stride, limit), i) {
      MineStep(i, tid, stride, row);
      assert StateDone(g, before, now, Mine(i, tid, stride, row), i);
    }
  }

  /** The row, and nothing else, is stored. */
  ghost predicate RowPut<V>(g: Goal<V>, now: Memory<V>, after: Memory<V>, row: nat)
    requires IsGoal(g) && row < Tiles.Rows(g.t)
  {
    && IsMemory(g.t, now) && IsMemory(g.t, after) && StatePut(g, now, after, row)
    && Left(g.t, row, g.rows[row].codes, g.rows[row].scales, now.spad, after.spad, now.scratch, after.scratch)
  }

  lemma RowsStep<V>(g: Goal<V>, before: Memory<V>, now: Memory<V>, after: Memory<V>, tid: nat, stride: nat, row: nat,
                    next: nat)
    requires IsGoal(g) && stride > 0 && Lane(row, stride) == tid && row < Tiles.Rows(g.t) && next == row + stride
    requires RowsDone(g, before, now, tid, stride, row) && RowPut(g, now, after, row)
    ensures Lane(next, stride) == tid && RowsDone(g, before, after, tid, stride, next)
  {
    MineStep(row, tid, stride, row);
    assert RowIsGoal(g, row);
    WordsStep(g, before.spad, now.spad, after.spad, tid, stride, row);
    SlotsStep(g, before.scratch, now.scratch, after.scratch, tid, stride, row);
    StatesStep(g, before, now, after, tid, stride, row);
  }

  lemma RowsStart<V>(g: Goal<V>, before: Memory<V>, tid: nat, stride: nat)
    requires IsGoal(g) && tid < stride && IsMemory(g.t, before)
    ensures RowsDone(g, before, before, tid, stride, tid)
  {
  }

  /** Past the last row the limit no longer matters. */
  lemma RowsEnd<V>(g: Goal<V>, before: Memory<V>, after: Memory<V>, tid: nat, stride: nat, limit: nat)
    requires IsGoal(g) && stride > 0 && limit >= Tiles.Rows(g.t) && RowsDone(g, before, after, tid, stride, limit)
    ensures RowsDone(g, before, after, tid, stride, Tiles.Rows(g.t))
  {
    var rows := Tiles.Rows(g.t);
    forall row: nat, v: nat | row < rows && v < 8 * g.t.n
      ensures WordDone(g, before.spad, after.spad, Mine(row, tid, stride, rows), row, v)
    {
      assert WordDone(g, before.spad, after.spad, Mine(row, tid, stride, limit), row, v);
    }
    forall row: nat, b: nat | row < rows && b < g.t.n
      ensures SlotDone(g, before.scratch, after.scratch, Mine(row, tid, stride, rows), row, b)
    {
      assert SlotDone(g, before.scratch, after.scratch, Mine(row, tid, stride, limit), row, b);
    }
    forall row: nat | row < rows ensures StateDone(g, before, after, Mine(row, tid, stride, rows), row) {
      assert StateDone(g, before, after, Mine(row, tid, stride, limit), row);
    }
  }

  /** A row that is not yet done has the state it started with. */
  lemma StateBefore<V>(g: Goal<V>, before: Memory<V>, now: Memory<V>, tid: nat, stride: nat, row: nat)
    requires IsGoal(g) && stride > 0 && RowsDone(g, before, now, tid, stride, row) && row < Tiles.Rows(g.t)
    ensures now.m[row] == before.m[row] && now.l[row] == before.l[row]
  {
    assert StateDone(g, before, now, Mine(row, tid, stride, row), row);
  }

  /** One row from its state in memory, which it replaces. */
  method RowWithState<V(!new)>(k: Task<V>, form: Form, row: nat, state: RowState<V>, spad: array<word>,
                               scratch: array<int>)
    requires IsTask(k) && FormFits(form, k.t) && row < Tiles.Rows(k.t)
    requires IsMemory(k.t, Now(state, spad, scratch)) && state.m[row] == k.m[row] && state.l[row] == k.l[row]
    modifies state, spad, scratch
    ensures RowPut(GoalOf(k, form), old(Now(state, spad, scratch)), Now(state, spad, scratch), row)
  {
    ghost var g := GoalOf(k, form);
    var r, l := OneRow(k, form, row, state.m[row], state.l[row], spad, scratch);
    ghost var spad1, scratch1 := spad[..], scratch[..];
    state.Put(row, r.m, l, r.corr);
    assert spad[..] == spad1 && scratch[..] == scratch1;
  }

  /** One pass of the loop. */
  method NextRow<V(!new)>(k: Task<V>, form: Form, tid: nat, stride: nat, row: nat, state: RowState<V>,
                          spad: array<word>, scratch: array<int>, ghost g: Goal<V>, ghost before: Memory<V>)
    returns (next: nat)
    requires IsTask(k) && FormFits(form, k.t) && g == GoalOf(k, form) && stride > 0
    requires before.m == k.m && before.l == k.l && row < Tiles.Rows(k.t) && Lane(row, stride) == tid
    requires RowsDone(g, before, Now(state, spad, scratch), tid, stride, row)
    modifies state, spad, scratch
    ensures next == row + stride && Lane(next, stride) == tid
    ensures RowsDone(g, before, Now(state, spad, scratch), tid, stride, next)
  {
    ghost var now := Now(state, spad, scratch);
    StateBefore(g, before, now, tid, stride, row);
    RowWithState(k, form, row, state, spad, scratch);
    next := row + stride;
    RowsStep(g, before, now, Now(state, spad, scratch), tid, stride, row, next);
  }

  /** MAIN RESULT 1.  A thread, or a warp, of any number does the rows of its stride, all of them, in any form, and
      touches nothing else. */
  method StrideRows<V(!new)>(k: Task<V>, form: Form, tid: nat, stride: nat, state: RowState<V>, spad: array<word>,
                             scratch: array<int>)
    requires IsTask(k) && FormFits(form, k.t) && tid < stride
    requires IsMemory(k.t, Now(state, spad, scratch)) && state.m == k.m && state.l == k.l
    modifies state, spad, scratch
    ensures RowsDone(GoalOf(k, form), old(Now(state, spad, scratch)), Now(state, spad, scratch), tid, stride,
                     Tiles.Rows(k.t))
  {
    ghost var g, before := GoalOf(k, form), Now(state, spad, scratch);
    RowsStart(g, before, tid, stride);
    var row := tid;
    MineStep(row, row, stride, row);
    while row < Tiles.Rows(k.t)
      invariant Lane(row, stride) == tid && RowsDone(g, before, Now(state, spad, scratch), tid, stride, row)
      decreases Tiles.Rows(k.t) - row
    {
      row := NextRow(k, form, tid, stride, row, state, spad, scratch, g, before);
    }
    RowsEnd(g, before, Now(state, spad, scratch), tid, stride, row);
  }
}
