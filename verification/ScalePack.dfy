/** Packing the block scales of a tile, one to a scratch word, four to a word of the mesh's scale memory: by one thread,
    or by striding threads into a staging buffer and a copy.  Byte b * 16r + row of the scale memory is then the
    scale of block b of the row. */
module ScalePack {
  import opened GridStride
  import opened RowStore
  import opened Swar
  import opened Tiles
  import E4m3
  import Requant
  import RequantRun
  import SoftmaxRun
  import SoftmaxTile
  import StrideRun
  import Traces

  /** Byte k of word w is the low byte of scratch word 4w + k. */
  ghost predicate WordPacked(scratch: seq<nat>, packed: seq<word>, w: nat) {
    && w < |packed| && 4 * w + 4 <= |scratch|
    && forall k: nat :: k < 4 ==> ByteIs(scratch, packed[w], 4 * w, k)
  }

  predicate ByteIs(scratch: seq<nat>, p: word, from: nat, k: nat)
    requires from + 4 <= |scratch| && k < 4
  {
    Requant.ByteOf(p, k) == scratch[from + k] % 0x100
  }

  method PackWord(scratch: seq<nat>, w: nat) returns (p: word)
    requires 4 * w + 4 <= |scratch|
    ensures forall k: nat :: k < 4 ==> ByteIs(scratch, p, 4 * w, k)
  {
    var c0, c1 := scratch[w * 4] % 0x100, scratch[w * 4 + 1] % 0x100;
    var c2, c3 := scratch[w * 4 + 2] % 0x100, scratch[w * 4 + 3] % 0x100;
    p := Pack(c0, c1, c2, c3);
    forall k: nat | k < 4 ensures ByteIs(scratch, p, 4 * w, k) { Requant.BytesOf(c0, c1, c2, c3, k); }
  }

  /** One thread, word after word. */
  method PackScales(scratch: seq<nat>, sfmem: array<word>)
    requires |scratch| % 4 == 0 && 4 * sfmem.Length >= |scratch|
    modifies sfmem
    ensures forall w: nat :: 4 * w < |scratch| ==> WordPacked(scratch, sfmem[..], w)
    ensures forall w: nat :: |scratch| <= 4 * w < 4 * sfmem.Length ==> sfmem[w] == old(sfmem[w])
  {
    for w := 0 to |scratch| / 4
      invariant forall v: nat :: v < w ==> WordPacked(scratch, sfmem[..], v)
      invariant forall v: nat :: w <= v < sfmem.Length ==> sfmem[v] == old(sfmem[v])
    {
      var p := PackWord(scratch, w);
      ghost var before := sfmem[..];
      sfmem[w] := p;
      forall v: nat | v < w + 1 ensures WordPacked(scratch, sfmem[..], v) {
        if v < w { assert WordPacked(scratch, before, v) && before[v] == sfmem[..][v]; }
      }
    }
  }

  /** The staging words that thread tid packs, below the limit; every other word is as before. */
  ghost predicate Staged(scratch: seq<nat>, before: seq<word>, after: seq<word>, tid: nat, threads: nat, limit: nat,
                         w: nat)
    requires threads > 0 && |before| == |after| && w < |after|
  {
    if Mine(w, tid, threads, limit) then WordPacked(scratch, after, w) else after[w] == before[w]
  }

  /** One of any number of threads packs the words of its stride. */
  method Prepack(scratch: seq<nat>, packed: array<word>, tid: nat, threads: nat)
    requires 4 * packed.Length == |scratch| && tid < threads
    modifies packed
    ensures forall w: nat :: w < packed.Length ==>
              Staged(scratch, old(packed[..]), packed[..], tid, threads, packed.Length, w)
  {
    ghost var before := packed[..];
    var w := tid;
    MineStep(w, w, threads, w);
    while w < packed.Length
      invariant Lane(w, threads) == tid
      invariant forall v: nat :: v < packed.Length ==> Staged(scratch, before, packed[..], tid, threads, w, v)
      decreases packed.Length - w
    {
      var p := PackWord(scratch, w);
      ghost var now, next := packed[..], w + threads;
      packed[w] := p;
      MineStep(w, tid, threads, w);
      forall v: nat | v < packed.Length ensures Staged(scratch, before, packed[..], tid, threads, next, v) {
        assert Staged(scratch, before, now, tid, threads, w, v);
        MineStep(v, tid, threads, w);
      }
      w := w + threads;
    }
    forall v: nat | v < packed.Length ensures Staged(scratch, before, packed[..], tid, threads, packed.Length, v) {
      assert Staged(scratch, before, packed[..], tid, threads, w, v);
    }
  }

  /** The copy into the scale memory, in ascending order. */
  method CopyScales(packed: seq<word>, sfmem: array<word>)
    requires sfmem.Length >= |packed|
    modifies sfmem
    ensures sfmem[..|packed|] == packed && sfmem[|packed|..] == old(sfmem[|packed|..])
  {
    for w := 0 to |packed|
      invariant sfmem[..w] == packed[..w] && sfmem[w..] == old(sfmem[w..])
    {
      assert sfmem[w + 1..] == old(sfmem[w + 1..]) by { assert sfmem[w + 1..] == sfmem[w..][1..]; }
      sfmem[w] := packed[w];
    }
  }

  // ---- what the mesh reads --------------------------------------------------------------------------------

  /** All words are packed. */
  ghost predicate AllPacked(scratch: seq<nat>, sfmem: seq<word>) {
    forall w: nat :: 4 * w < |scratch| ==> WordPacked(scratch, sfmem, w)
  }

  /** Byte i of the scale memory is scratch word i. */
  lemma ByteIsScratch(scratch: seq<nat>, sfmem: seq<word>, i: nat)
    requires AllPacked(scratch, sfmem) && i < |scratch|
    ensures i / 4 < |sfmem| && Requant.ByteOf(sfmem[i / 4], i % 4) == scratch[i] % 0x100
  {
    assert WordPacked(scratch, sfmem, i / 4) && ByteIs(scratch, sfmem[i / 4], 4 * (i / 4), i % 4);
  }

  /** The scale slots of a memory, as the packer reads them. */
  ghost function Slots(s: Shape, m: imap<Requant.Loc, nat>): (r: seq<nat>)
    requires Traces.Total(m)
    ensures |r| == Items(s) && forall x: nat :: x < Items(s) ==> r[x] == m[Requant.Slot(x)]
  {
    seq(Items(s), x requires 0 <= x < Items(s) => m[Requant.Slot(x)])
  }

  lemma SlotByte(s: Shape, m: imap<Requant.Loc, nat>, sfmem: seq<word>, row: nat, b: nat, i: nat)
    requires Traces.Total(m) && row < Rows(s) && b < s.n && i == b * (16 * s.r) + row && AllPacked(Slots(s, m), sfmem)
    ensures i < Items(s) && i / 4 < |sfmem| && Requant.ByteOf(sfmem[i / 4], i % 4) == m[Requant.Slot(i)] % 0x100
  {
    SlotInScratch(s, row, b);
    ByteIsScratch(Slots(s, m), sfmem, i);
  }

  lemma RunScale(s: Shape, legacy: bool, threads: nat, schedule: seq<nat>, m: imap<Requant.Loc, nat>, row: nat,
                 b: nat, i: nat, words: seq<word>, scale: int)
    requires StrideRun.Finishing(RequantRun.Blocks(s), threads, schedule) && Traces.Total(m)
    requires row < Rows(s) && b < s.n && i == b * (16 * s.r) + row
    requires Requant.BlockAt(s, m, row, b, words) && Requant.Probabilities(words)
    requires scale == if legacy then E4m3.LegacyScale(Requant.BlockExponent(words))
                      else E4m3.FastScale(Requant.BlockExponent(words))
    ensures 0 <= scale < 0x100
    ensures Requant.After(s, legacy, RequantRun.Performed(s, threads, schedule), m)[Requant.Slot(i)] == scale
  {
    SlotInScratch(s, row, b);
    RequantRun.RunContents(s, legacy, threads, schedule, m, row, b, 0, words);
    Requant.ScalesAreBytes(words);
  }

  /** MAIN RESULT 1.  After any finished requantizing run and the packer, byte b * 16r + row of the scale memory is the
      scale of block b of the row. */
  lemma RequantScaleByte(s: Shape, legacy: bool, threads: nat, schedule: seq<nat>, m: imap<Requant.Loc, nat>,
                         sfmem: seq<word>, row: nat, b: nat, i: nat, words: seq<word>)
    requires StrideRun.Finishing(RequantRun.Blocks(s), threads, schedule) && Traces.Total(m)
    requires row < Rows(s) && b < s.n && i == b * (16 * s.r) + row
    requires Requant.BlockAt(s, m, row, b, words) && Requant.Probabilities(words)
    requires AllPacked(Slots(s, Requant.After(s, legacy, RequantRun.Performed(s, threads, schedule), m)), sfmem)
    ensures i / 4 < |sfmem|
    ensures Requant.ByteOf(sfmem[i / 4], i % 4)
            == if legacy then E4m3.LegacyScale(Requant.BlockExponent(words))
               else E4m3.FastScale(Requant.BlockExponent(words))
  {
    var scale := if legacy then E4m3.LegacyScale(Requant.BlockExponent(words))
                 else E4m3.FastScale(Requant.BlockExponent(words));
    SlotByte(s, Requant.After(s, legacy, RequantRun.Performed(s, threads, schedule), m), sfmem, row, b, i);
    RunScale(s, legacy, threads, schedule, m, row, b, i, words, scale);
  }

  /** MAIN RESULT 2.  The same after a whole tile in any form of the softmax. */
  lemma TileScaleByte<V(!new)>(k: SoftmaxTile.Task<V>, form: SoftmaxTile.Form, r: SoftmaxRun.Runs,
                               m: imap<Requant.Loc, nat>, sfmem: seq<word>, row: nat, b: nat, i: nat)
    requires SoftmaxTile.IsTask(k) && SoftmaxTile.FormFits(form, k.t) && SoftmaxRun.RunsFinish(k.t, form, r)
    requires Traces.Total(m) && row < Rows(k.t) && b < k.t.n && i == b * (16 * k.t.r) + row
    requires form.Separate? && !r.legacy ==> SoftmaxTile.Result(k, row).scales[b] >= 7
    requires AllPacked(Slots(k.t, SoftmaxRun.Done(k, form, r, m)), sfmem)
    ensures i / 4 < |sfmem| && Requant.ByteOf(sfmem[i / 4], i % 4) == SoftmaxTile.Result(k, row).scales[b]
  {
    SlotByte(k.t, SoftmaxRun.Done(k, form, r, m), sfmem, row, b, i);
    SlotInScratch(k.t, row, b);
    SoftmaxRun.ScaleLeft(k, form, r, m, row, b, i);
  }
}
