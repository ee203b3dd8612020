/** The requantizing kernel as running threads: each stores the scale and the eight words of an item, one store
    at a time, then strides on to its next item; the stores of different threads interleave freely.  The softmax
    words a store is computed from are written by nobody. */
module RequantRun {
  import opened Traces
  import opened E4m3
  import opened Swar
  import opened Tiles
  import opened Requant
  import StrideRun

  /** An item is a block: its scale and its eight words. */
  function Blocks(s: Shape): StrideRun.Loop {
    StrideRun.Loop(Items(s), (item: nat) => 9)
  }

  lemma BlocksAreBusy(s: Shape)
    ensures StrideRun.Busy(Blocks(s))
  {
  }

  /** Store 0 of an item is its scale, store u + 1 its word u. */
  function StoreOf(s: Shape, a: StrideRun.Store): Store
    requires StrideRun.IsStore(Blocks(s), a)
  {
    var row, b := RowOf(s, a.item), BlockOf(s, a.item);
    if a.index == 0 then ScaleStore(row, b) else WordStore(row, b, a.index - 1)
  }

  function NumberOf(s: Shape, a: Store): StrideRun.Store {
    StrideRun.Store(ItemOf(s, a.row, a.b), if a.ScaleStore? then 0 else a.u + 1)
  }

  lemma StoresAreNumbered(s: Shape, a: StrideRun.Store)
    requires StrideRun.IsStore(Blocks(s), a)
    ensures IsStore(s, StoreOf(s, a)) && NumberOf(s, StoreOf(s, a)) == a
  {
    PairsAreItems(s, a.item);
  }

  lemma NumbersAreStores(s: Shape, a: Store)
    requires IsStore(s, a)
    ensures StrideRun.IsStore(Blocks(s), NumberOf(s, a)) && StoreOf(s, NumberOf(s, a)) == a
  {
    ItemsArePairs(s, a.row, a.b);
  }

  ghost predicate AllStores(s: Shape, order: seq<StrideRun.Store>) {
    forall i :: 0 <= i < |order| ==> StrideRun.IsStore(Blocks(s), order[i])
  }

  function StoresOf(s: Shape, order: seq<StrideRun.Store>): (r: seq<Store>)
    requires AllStores(s, order)
    ensures |r| == |order| && forall i :: 0 <= i < |r| ==> r[i] == StoreOf(s, order[i])
  {
    seq(|order|, i requires 0 <= i < |order| => StoreOf(s, order[i]))
  }

  /** The stores of a finished run, in the order in which they were done. */
  function Performed(s: Shape, threads: nat, schedule: seq<nat>): seq<Store>
    requires StrideRun.Finishing(Blocks(s), threads, schedule)
  {
    RunStores(s, threads, schedule);
    StoresOf(s, StrideRun.Order(Blocks(s), threads, schedule))
  }

  lemma RunStores(s: Shape, threads: nat, schedule: seq<nat>)
    requires StrideRun.Finishing(Blocks(s), threads, schedule)
    ensures AllStores(s, StrideRun.Order(Blocks(s), threads, schedule))
  {
    BlocksAreBusy(s);
    StrideRun.FinishedStoresOnce(Blocks(s), threads, schedule);
  }

  lemma {:induction false} NineEach(s: Shape, n: nat)
    ensures StrideRun.Total(Blocks(s), n) == 9 * n
  {
    if n > 0 { NineEach(s, n - 1); }
  }

  /** MAIN RESULT 1.  Under every schedule there are at most nine stores for each item. */
  lemma RunsAreBounded(s: Shape, threads: nat, schedule: seq<nat>)
    requires threads > 0 && StrideRun.Legal(Blocks(s), StrideRun.Start(threads), schedule)
    ensures |schedule| <= 9 * Items(s)
  {
    BlocksAreBusy(s);
    StrideRun.RunsAreBounded(Blocks(s), threads, schedule);
    NineEach(s, Items(s));
  }

  /** MAIN RESULT 2.  Every finished run of any number of threads performs each store exactly once. */
  lemma FinishedStoresOnce(s: Shape, threads: nat, schedule: seq<nat>)
    requires StrideRun.Finishing(Blocks(s), threads, schedule)
    ensures EveryStoreOnce(s, Performed(s, threads, schedule))
  {
    BlocksAreBusy(s);
    StrideRun.FinishedStoresOnce(Blocks(s), threads, schedule);
    RunStores(s, threads, schedule);
    var order, stores := StrideRun.Order(Blocks(s), threads, schedule), Performed(s, threads, schedule);
    forall i, j | 0 <= i < j < |stores| ensures stores[i] != stores[j] {
      StoresAreNumbered(s, order[i]);
      StoresAreNumbered(s, order[j]);
    }
    forall a: Store ensures a in stores <==> IsStore(s, a) {
      if IsStore(s, a) {
        NumbersAreStores(s, a);
        var i :| 0 <= i < |order| && order[i] == NumberOf(s, a);
        assert stores[i] == a;
      }
      if a in stores {
        var i :| 0 <= i < |stores| && stores[i] == a;
        StoresAreNumbered(s, order[i]);
      }
    }
  }

  /** MAIN RESULT 3.  Whatever the number of threads and however their stores interleave, on either path: when
      all threads are done the byte of every element at its tiled place is its code, and slot b * 16r + row holds the
      scale of block b of the row. */
  lemma TileContents(s: Shape, legacy: bool, threads: nat, schedule: seq<nat>, m: imap<Loc, nat>, row: nat, b: nat,
                     i: nat, words: seq<word>, place: nat, slot: nat)
    requires StrideRun.Finishing(Blocks(s), threads, schedule)
    requires Total(m) && row < Rows(s) && b < s.n && i < 32 && BlockAt(s, m, row, b, words) && Probabilities(words)
    requires place == (row / 16 * (2 * s.n) + (2 * b + i / 16)) * 256 + row % 16 * 16 + i % 16
    requires slot == b * (16 * s.r) + row
    ensures var after := After(s, legacy, Performed(s, threads, schedule), m);
            && ByteOf(after[Spad(place / 4)], place % 4) == PathCode(legacy, words, i)
            && after[Slot(slot)]
               == if legacy then LegacyScale(BlockExponent(words)) else FastScale(BlockExponent(words))
  {
    SlotBound(s, row, b);
    ElementPlace(s, row, b, i);
    RunContents(s, legacy, threads, schedule, m, row, b, i, words);
  }

  lemma RunContents(s: Shape, legacy: bool, threads: nat, schedule: seq<nat>, m: imap<Loc, nat>, row: nat, b: nat,
                    i: nat, words: seq<word>)
    requires StrideRun.Finishing(Blocks(s), threads, schedule)
    requires Total(m) && row < Rows(s) && b < s.n && i < 32 && BlockAt(s, m, row, b, words) && Probabilities(words)
    ensures var place, after := TiledByte(s, row, b * 32 + i), After(s, legacy, Performed(s, threads, schedule), m);
            && ByteOf(after[Spad(place / 4)], place % 4) == PathCode(legacy, words, i)
            && after[Slot(ScaleSlot(s, row, b))]
               == if legacy then LegacyScale(BlockExponent(words)) else FastScale(BlockExponent(words))
  {
    FinishedStoresOnce(s, threads, schedule);
    OrderContents(s, legacy, Performed(s, threads, schedule), m, row, b, i, words);
  }
}
