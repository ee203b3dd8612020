/** Grid-stride loops as running threads: thread t takes items t, t + threads, t + 2 * threads, ...; each item has
    a number of stores, done one at a time and in order, and the stores of different threads interleave freely. */
module StrideRun {
  import opened GridStride
  import opened Traces

  datatype Loop = Loop(items: nat, count: nat -> nat)

  /** The index-th store of an item. */
  datatype Store = Store(item: nat, index: nat)

  /** The item a thread is at and its next store. */
  datatype Thread = Thread(item: nat, next: nat)

  datatype State = State(threads: seq<Thread>, order: seq<Store>)

  predicate IsStore(w: Loop, a: Store) {
    a.item < w.items && a.index < w.count(a.item)
  }

  /** No item is without a store. */
  ghost predicate Busy(w: Loop) {
    forall item: nat :: item < w.items ==> w.count(item) > 0
  }

  function NextStore(t: Thread): Store { Store(t.item, t.next) }

  function Advance(w: Loop, t: Thread, stride: nat): Thread {
    if t.next + 1 < w.count(t.item) then Thread(t.item, t.next + 1) else Thread(t.item + stride, 0)
  }

  predicate Enabled(w: Loop, x: State, tid: nat) {
    tid < |x.threads| && x.threads[tid].item < w.items
  }

  function Step(w: Loop, x: State, tid: nat): State
    requires Enabled(w, x, tid)
  {
    var t := x.threads[tid];
    State(x.threads[tid := Advance(w, t, |x.threads|)], x.order + [NextStore(t)])
  }

  function Start(threads: nat): State {
    State(seq(threads, tid requires 0 <= tid < threads => Thread(tid, 0)), [])
  }

  ghost predicate Finished(w: Loop, x: State) {
    forall tid: nat :: !Enabled(w, x, tid)
  }

  predicate Legal(w: Loop, x: State, schedule: seq<nat>)
    decreases |schedule|
  {
    schedule == [] || (Enabled(w, x, schedule[0]) && Legal(w, Step(w, x, schedule[0]), schedule[1..]))
  }

  function Run(w: Loop, x: State, schedule: seq<nat>): State
    requires Legal(w, x, schedule)
    decreases |schedule|
  {
    if schedule == [] then x else Run(w, Step(w, x, schedule[0]), schedule[1..])
  }

  // ---- what has been stored ------------------------------------------------------------------------

  /** A thread has performed its stores before the one it is at. */
  predicate Reached(t: Thread, a: Store) {
    a.item < t.item || (a.item == t.item && a.index < t.next)
  }

  predicate Performed(x: State, a: Store)
    requires |x.threads| > 0
  {
    Reached(x.threads[Lane(a.item, |x.threads|)], a)
  }

  predicate OnStride(w: Loop, x: State, tid: nat)
    requires tid < |x.threads|
  {
    var t := x.threads[tid];
    Lane(t.item, |x.threads|) == tid && (t.item < w.items ==> t.next < w.count(t.item))
  }

  predicate StoredOnce(w: Loop, x: State, a: Store)
    requires |x.threads| > 0
  {
    a in x.order <==> IsStore(w, a) && Performed(x, a)
  }

  ghost predicate Inv(w: Loop, x: State) {
    && Busy(w) && |x.threads| > 0
    && (forall tid: nat :: tid < |x.threads| ==> OnStride(w, x, tid))
    && Distinct(x.order)
    && (forall a: Store :: StoredOnce(w, x, a))
  }

  lemma StartInv(w: Loop, threads: nat)
    requires threads > 0 && Busy(w)
    ensures Inv(w, Start(threads))
  {
    var x := Start(threads);
    forall a: Store ensures StoredOnce(w, x, a) {
    }
  }

  lemma AdvanceReaches(w: Loop, t: Thread, a: Store, stride: nat)
    requires IsStore(w, a) && t.item < w.items && t.next < w.count(t.item)
    requires stride > 0 && Lane(a.item, stride) == Lane(t.item, stride)
    ensures Reached(Advance(w, t, stride), a) <==> Reached(t, a) || a == NextStore(t)
  {
    if a.item < t.item + stride { LaneGap(a.item, t.item, stride); }
  }

  lemma StepStores(w: Loop, x: State, tid: nat, a: Store)
    requires Inv(w, x) && Enabled(w, x, tid)
    ensures StoredOnce(w, Step(w, x, tid), a)
    ensures a == NextStore(x.threads[tid]) ==> a !in x.order
  {
    assert StoredOnce(w, x, a) && OnStride(w, x, tid);
    if IsStore(w, a) && Lane(a.item, |x.threads|) == tid { AdvanceReaches(w, x.threads[tid], a, |x.threads|); }
  }

  lemma StepStrides(w: Loop, x: State, tid: nat)
    requires Inv(w, x) && Enabled(w, x, tid)
    ensures forall t: nat :: t < |x.threads| ==> OnStride(w, Step(w, x, tid), t)
  {
    var y := Step(w, x, tid);
    forall t: nat | t < |x.threads| ensures OnStride(w, y, t) {
      assert OnStride(w, x, t);
      if t == tid && x.threads[t].item + |x.threads| < w.items { assert w.count(x.threads[t].item + |x.threads|) > 0; }
    }
  }

  /** MAIN RESULT 1.  Every store of every thread keeps the invariant: what has been stored is what each thread
      has passed on its stride, once. */
  lemma StepKeeps(w: Loop, x: State, tid: nat)
    requires Inv(w, x) && Enabled(w, x, tid)
    ensures Inv(w, Step(w, x, tid)) && |Step(w, x, tid).order| == |x.order| + 1
  {
    StepStrides(w, x, tid);
    forall a: Store ensures StoredOnce(w, Step(w, x, tid), a) { StepStores(w, x, tid, a); }
    StepStores(w, x, tid, NextStore(x.threads[tid]));
  }

  lemma {:induction false} RunKeeps(w: Loop, x: State, schedule: seq<nat>)
    requires Inv(w, x) && Legal(w, x, schedule)
    ensures Inv(w, Run(w, x, schedule)) && |Run(w, x, schedule).order| == |x.order| + |schedule|
    decreases |schedule|
  {
    if schedule != [] {
      StepKeeps(w, x, schedule[0]);
      RunKeeps(w, Step(w, x, schedule[0]), schedule[1..]);
    }
  }

  // ---- runs are bounded and finish -------------------------------------------------------------------

  /** The stores of the first n items. */
  function Total(w: Loop, n: nat): nat {
    if n == 0 then 0 else Total(w, n - 1) + w.count(n - 1)
  }

  lemma {:induction false} TotalGrows(w: Loop, n: nat, n': nat)
    requires n <= n'
    ensures Total(w, n) <= Total(w, n')
    decreases n' - n
  {
    if n < n' { TotalGrows(w, n, n' - 1); }
  }

  function Number(w: Loop, a: Store): int { Total(w, a.item) + a.index }

  function Below(n: nat): (r: set<int>)
    ensures |r| == n && forall k :: k in r <==> 0 <= k < n
  {
    if n == 0 then {} else Below(n - 1) + {n - 1}
  }

  /** The stores are numbered one after another. */
  lemma NumbersDiffer(w: Loop, a: Store, c: Store)
    requires IsStore(w, a) && IsStore(w, c)
    ensures 0 <= Number(w, a) < Total(w, w.items) && (Number(w, a) == Number(w, c) ==> a == c)
  {
    TotalGrows(w, a.item + 1, w.items);
    if a.item < c.item { TotalGrows(w, a.item + 1, c.item); }
    if c.item < a.item { TotalGrows(w, c.item + 1, a.item); }
  }

  lemma OrderFits(w: Loop, x: State)
    requires Inv(w, x)
    ensures |x.order| <= Total(w, w.items)
  {
    var numbers := seq(|x.order|, i requires 0 <= i < |x.order| => Number(w, x.order[i]));
    forall i | 0 <= i < |x.order| ensures IsStore(w, x.order[i]) { assert StoredOnce(w, x, x.order[i]); }
    forall i, j | 0 <= i < j < |numbers| ensures numbers[i] != numbers[j] { NumbersDiffer(w, x.order[i], x.order[j]); }
    forall k | k in numbers ensures k in Below(Total(w, w.items)) {
      var i :| 0 <= i < |numbers| && numbers[i] == k;
      NumbersDiffer(w, x.order[i], x.order[i]);
    }
    DistinctFits(numbers, Below(Total(w, w.items)));
  }

  /** MAIN RESULT 2.  Under every schedule there are at most as many steps as the items have stores. */
  lemma RunsAreBounded(w: Loop, threads: nat, schedule: seq<nat>)
    requires threads > 0 && Busy(w) && Legal(w, Start(threads), schedule)
    ensures |schedule| <= Total(w, w.items)
  {
    StartInv(w, threads);
    RunKeeps(w, Start(threads), schedule);
    OrderFits(w, Run(w, Start(threads), schedule));
  }

  /** And from every reachable state some schedule finishes. */
  lemma {:induction false} Completes(w: Loop, x: State) returns (schedule: seq<nat>)
    requires Inv(w, x)
    ensures Legal(w, x, schedule) && Finished(w, Run(w, x, schedule))
    decreases Total(w, w.items) - |x.order|
  {
    if Finished(w, x) { return []; }
    var tid: nat :| Enabled(w, x, tid);
    StepKeeps(w, x, tid);
    OrderFits(w, Step(w, x, tid));
    var rest := Completes(w, Step(w, x, tid));
    schedule := [tid] + rest;
    assert schedule[1..] == rest;
  }

  // ---- finished runs -------------------------------------------------------------------------------

  /** A schedule that runs every thread to its end. */
  ghost predicate Finishing(w: Loop, threads: nat, schedule: seq<nat>) {
    threads > 0 && Legal(w, Start(threads), schedule) && Finished(w, Run(w, Start(threads), schedule))
  }

  /** The stores of a schedule's run, in its order. */
  function Order(w: Loop, threads: nat, schedule: seq<nat>): seq<Store>
    requires Legal(w, Start(threads), schedule)
  {
    Run(w, Start(threads), schedule).order
  }

  /** MAIN RESULT 3.  Every finished run of any number of threads performs each store of each item exactly once. */
  lemma FinishedStoresOnce(w: Loop, threads: nat, schedule: seq<nat>)
    requires Busy(w) && Finishing(w, threads, schedule)
    ensures Distinct(Order(w, threads, schedule))
    ensures forall a: Store :: a in Order(w, threads, schedule) <==> IsStore(w, a)
  {
    StartInv(w, threads);
    RunKeeps(w, Start(threads), schedule);
    var x := Run(w, Start(threads), schedule);
    forall a: Store ensures a in x.order <==> IsStore(w, a) {
      assert StoredOnce(w, x, a);
      if IsStore(w, a) {
        var tid := Lane(a.item, |x.threads|);
        assert OnStride(w, x, tid) && !Enabled(w, x, tid);
      }
    }
  }
}
