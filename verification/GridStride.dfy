/** Grid-stride loops: thread t takes t, t + stride, t + 2 * stride, ... */
module GridStride {

  /** The thread whose stride meets v. */
  function Lane(v: nat, stride: nat): (t: nat)
    requires stride > 0
    ensures t < stride && t <= v
    decreases v
  {
    if v < stride then v else Lane(v - stride, stride)
  }

  /** What a thread takes is one stride apart. */
  lemma {:induction false} LaneGap(u: nat, v: nat, stride: nat)
    requires stride > 0 && Lane(u, stride) == Lane(v, stride) && u < v + stride
    ensures u <= v
    decreases v
  {
    if u >= stride && v >= stride { LaneGap(u - stride, v - stride, stride); }
  }

  /** What thread t takes below the limit. */
  predicate Mine(v: nat, t: nat, stride: nat, limit: nat)
    requires stride > 0
  {
    v < limit && Lane(v, stride) == t
  }

  lemma MineStep(v: nat, t: nat, stride: nat, limit: nat)
    requires stride > 0 && Lane(limit, stride) == t
    ensures Mine(v, t, stride, limit + stride) <==> Mine(v, t, stride, limit) || v == limit
    ensures Lane(limit + stride, stride) == t
  {
    if Mine(v, t, stride, limit + stride) { LaneGap(v, limit, stride); }
  }
}
