/** Recording the command stream of one matmul on the GPU, capturing it on the host through aligned 8-byte
    loads, and replaying it into the command ports of both clusters. */
module Replay {
  import Arith

  type u32 = x: nat | x < 0x1_0000_0000
  type u64 = x: nat | x < 0x1_0000_0000_0000_0000

  /** What a command port does: fire a command on its operands, or wait until it has drained. */
  datatype Event = Command(rs1: u64, rs2: u64, inst: u32) | Drain

  function Lo(x: u64): u32 { x % 0x1_0000_0000 }
  function Hi(x: u64): u32 { x / 0x1_0000_0000 }
  function Join(hi: u32, lo: u32): u64 { hi * 0x1_0000_0000 + lo }

  lemma JoinOfHalves(x: u64)
    ensures Join(Hi(x), Lo(x)) == x
  {
  }

  lemma HalvesOfJoin(hi: u32, lo: u32)
    ensures Hi(Join(hi, lo)) == hi && Lo(Join(hi, lo)) == lo
  {
  }

  /** The instruction word: the custom-3 opcode, two source registers, and the function code on top. */
  function Instruction(funct: nat): u32 {
    0x7B + 3 * 0x1000 + 0x8000 + 2 * 0x10_0000 + (funct % 0x80) * 0x200_0000
  }

  /** An instruction is never 0, and it gives back its function code. */
  lemma InstructionIsNotZero(funct: nat)
    ensures Instruction(funct) != 0 && Instruction(funct) / 0x200_0000 == funct % 0x80
            && Instruction(funct) % 0x80 == 0x7B
  {
  }

  /** The fields from bit 12 up, given the word above the opcode and the empty destination. */
  lemma UpperFields(upper: nat, f: nat)
    requires f < 0x80 && upper == 3 + 8 * (1 + 0x20 * (2 + 0x20 * f))
    ensures upper % 8 == 3 && upper / 8 % 0x20 == 1 && upper / 0x100 % 0x20 == 2 && upper / 0x2000 == f
  {
    Arith.Remainder(upper, 8, 1 + 0x20 * (2 + 0x20 * f), 3);
    Arith.Remainder(upper / 8, 0x20, 2 + 0x20 * f, 1);
    Arith.Remainder(upper, 0x100, 2 + 0x20 * f, 0x0B);
    Arith.Remainder(2 + 0x20 * f, 0x20, f, 2);
    Arith.Remainder(upper, 0x2000, f, 0x20B);
  }

  /** An instruction's fields: opcode, no destination, function-3 code 3, source registers 1 and 2, function code. */
  lemma InstructionFields(funct: nat)
    ensures var i := Instruction(funct);
            && i % 0x80 == 0x7B && i / 0x80 % 0x20 == 0
            && i / 0x1000 % 8 == 3 && i / 0x1000 / 8 % 0x20 == 1 && i / 0x1000 / 0x100 % 0x20 == 2
            && i / 0x1000 / 0x2000 == funct % 0x80
  {
    var i, f := Instruction(funct), funct % 0x80;
    var upper := 3 + 8 * (1 + 0x20 * (2 + 0x20 * f));
    Arith.Remainder(i, 0x80, 0x20 * upper, 0x7B);
    Arith.Remainder(0x20 * upper, 0x20, upper, 0);
    Arith.Remainder(i, 0x1000, upper, 0x7B);
    UpperFields(upper, f);
  }

  /** The streams the recorder sees: drains, and commands with the macro's instruction words. */
  ghost predicate FromMacro(e: Event) {
    e.Command? ==> exists funct: nat :: e.inst == Instruction(funct)
  }

  /** Five words per entry; a drain is recorded as five zeros. */
  function Encode(e: Event): (w: seq<u32>)
    ensures |w| == 5
  {
    match e
    case Command(rs1, rs2, inst) => [Lo(rs1), Hi(rs1), Lo(rs2), Hi(rs2), inst]
    case Drain => [0, 0, 0, 0, 0]
  }

  function Decode(w: seq<u32>): Event
    requires |w| == 5
  {
    if w[4] == 0 then Drain else Command(Join(w[1], w[0]), Join(w[3], w[2]), w[4])
  }

  lemma DecodeEncode(e: Event)
    requires FromMacro(e)
    ensures Decode(Encode(e)) == e
  {
    match e
    case Drain =>
    case Command(rs1, rs2, inst) =>
      var funct: nat :| inst == Instruction(funct);
      InstructionIsNotZero(funct);
      JoinOfHalves(rs1);
      JoinOfHalves(rs2);
  }

  /** The recorded entries, one after another from `start`. */
  ghost predicate Holds(words: seq<u32>, start: nat, entries: seq<Event>) {
    && start + 5 * |entries| <= |words|
    && forall c, w :: 0 <= c < |entries| && 0 <= w < 5 ==> words[start + 5 * c + w] == Encode(entries[c])[w]
  }

  // ---- recording on the GPU -----------------------------------------------------------------------

  /** Lane 0 of a cluster: its shared memory, the recording pointer, and what its command port has done. */
  class Gpu {
    const smem: array<u32>
    var recording: bool
    var at: nat
    var count: nat
    var port: seq<Event>

    constructor (words: nat)
      ensures fresh(smem) && smem.Length == words && !recording && port == []
    {
      smem := new u32[words](_ => 0);
      recording, at, count, port := false, 0, 0, [];
    }

    /** The recording that started at word `rec` has these entries so far. */
    ghost predicate Recorded(rec: nat, entries: seq<Event>)
      reads this, smem
    {
      recording && at == rec + 1 + 5 * |entries| && count == |entries| && Holds(smem[..], rec + 1, entries)
    }

    method StartRecording(rec: nat)
      requires rec + 1 <= smem.Length
      modifies this`recording, this`at, this`count
      ensures Recorded(rec, [])
    {
      recording, at, count := true, rec + 1, 0;
    }

    method Put(e: Event, ghost rec: nat, ghost entries: seq<Event>)
      requires Recorded(rec, entries) && at + 5 <= smem.Length
      modifies smem, this`at, this`count
      ensures Recorded(rec, entries + [e])
      ensures forall i :: 0 <= i < smem.Length && !(old(at) <= i < old(at) + 5) ==> smem[i] == old(smem[i])
    {
      var w := Encode(e);
      smem[at], smem[at + 1], smem[at + 2], smem[at + 3], smem[at + 4] := w[0], w[1], w[2], w[3], w[4];
      at, count := at + 5, count + 1;
    }

    /** Issue a command, recording it when a recording is on. */
    method Issue(rs1: u64, rs2: u64, funct: nat, ghost rec: nat, ghost entries: seq<Event>)
      requires recording ==> Recorded(rec, entries) && at + 5 <= smem.Length
      modifies smem, this`at, this`count, this`port
      ensures port == old(port) + [Command(rs1, rs2, Instruction(funct))]
      ensures recording ==> Recorded(rec, entries + [Command(rs1, rs2, Instruction(funct))])
      ensures !recording ==> smem[..] == old(smem[..])
    {
      var inst := Instruction(funct);
      if recording { Put(Command(rs1, rs2, inst), rec, entries); }
      port := port + [Command(rs1, rs2, inst)];
    }

    /** Drain the port, recording the drain as a pseudo-command. */
    method Fence(ghost rec: nat, ghost entries: seq<Event>)
      requires recording ==> Recorded(rec, entries) && at + 5 <= smem.Length
      modifies smem, this`at, this`count, this`port
      ensures port == old(port) + [Drain]
      ensures recording ==> Recorded(rec, entries + [Drain])
      ensures !recording ==> smem[..] == old(smem[..])
    {
      port := port + [Drain];
      if recording { Put(Drain, rec, entries); }
    }

    method FinishRecording(rec: nat, ghost entries: seq<Event>)
      requires Recorded(rec, entries) && rec < smem.Length && |entries| < 0x1_0000_0000
      modifies smem, this`recording
      ensures !recording && smem[rec] == |entries| && Holds(smem[..], rec + 1, entries)
    {
      recording := false;
      smem[rec] := count;
    }
  }

  // ---- capture and replay on the host --------------------------------------------------------------

  const CFG_MAX_CMDS: nat := 16
  const NUM_CLUSTERS: nat := 2

  /** The aligned 8-byte load at byte offset 8j. */
  function Load64(words: seq<u32>, j: nat): u64
    requires 2 * j + 1 < |words|
  {
    Join(words[2 * j + 1], words[2 * j])
  }

  function LoadHalf(words: seq<u32>, j: nat, upper: bool): u32
    requires 2 * j + 1 < |words|
  {
    var v := Load64(words, j);
    if upper then Hi(v) else Lo(v)
  }

  /** A 4-byte word read through the aligned 8-byte load that covers it. */
  function Word(words: seq<u32>, offset: nat): u32
    requires 2 * (offset / 8) + 1 < |words|
  {
    LoadHalf(words, offset / 8, offset % 8 >= 4)
  }

  lemma WordOffset(i: nat)
    ensures 4 * i / 8 == i / 2 && (4 * i % 8 >= 4 <==> i % 2 == 1)
  {
  }

  lemma HalfIsWord(words: seq<u32>, j: nat, upper: bool)
    requires 2 * j + 1 < |words|
    ensures LoadHalf(words, j, upper) == words[if upper then 2 * j + 1 else 2 * j]
  {
    HalvesOfJoin(words[2 * j + 1], words[2 * j]);
  }

  /** The word read is the word meant, whichever half of the 8 bytes it is. */
  lemma WordIsWord(words: seq<u32>, i: nat)
    requires 2 * (i / 2) + 1 < |words|
    ensures 2 * (4 * i / 8) + 1 < |words| && Word(words, 4 * i) == words[i]
  {
    WordOffset(i);
    HalfIsWord(words, i / 2, i % 2 == 1);
  }

  /** A cluster's command port, as the host drives it. */
  class Port {
    var rs1: u64
    var rs2: u64
    var log: seq<Event>

    constructor ()
      ensures log == []
    {
      rs1, rs2, log := 0, 0, [];
    }

    method WriteRs1(x: u64)
      modifies this`rs1
      ensures rs1 == x
    {
      rs1 := x;
    }

    method WriteRs2(x: u64)
      modifies this`rs2
      ensures rs2 == x
    {
      rs2 := x;
    }

    /** Writing the instruction word fires the command on the operands written before. */
    method WriteInst(inst: u32)
      modifies this`log
      ensures log == old(log) + [Command(rs1, rs2, inst)]
    {
      log := log + [Command(rs1, rs2, inst)];
    }

    /** Polling the busy word until it is clear. */
    method AwaitIdle()
      modifies this`log
      ensures log == old(log) + [Drain]
    {
      log := log + [Drain];
    }
  }

  /** The host's cache of one recording: at most 16 entries. */
  class Host {
    const rec: array2<u32>
    var n: nat

    constructor ()
      ensures fresh(rec) && rec.Length0 == CFG_MAX_CMDS && rec.Length1 == 5 && n == 0
    {
      rec := new u32[CFG_MAX_CMDS, 5]((_, _) => 0);
      n := 0;
    }

    ghost predicate Cached(entries: seq<Event>)
      reads this, rec
    {
      && rec.Length0 == CFG_MAX_CMDS && rec.Length1 == 5 && n == |entries| <= CFG_MAX_CMDS
      && forall c, w :: 0 <= c < n && 0 <= w < 5 ==> rec[c, w] == Encode(entries[c])[w]
    }

    /** The cache's first c entries are the given ones. */
    ghost predicate Rows(entries: seq<Event>, c: nat)
      reads rec
    {
      && rec.Length0 == CFG_MAX_CMDS && rec.Length1 == 5 && c <= |entries| && c <= CFG_MAX_CMDS
      && forall c', w :: 0 <= c' < c && 0 <= w < 5 ==> rec[c', w] == Encode(entries[c'])[w]
    }

    /** The five words of one entry. */
    method CaptureEntry(words: seq<u32>, at: nat, c: nat, ghost entries: seq<Event>)
      requires Rows(entries, c) && c < |entries| && c < CFG_MAX_CMDS && at + 6 <= |words|
      requires forall w :: 0 <= w < 5 ==> words[at + w] == Encode(entries[c])[w]
      modifies rec
      ensures Rows(entries, c + 1)
    {
      for w := 0 to 5
        invariant Rows(entries, c)
        invariant forall w' :: 0 <= w' < w ==> rec[c, w'] == Encode(entries[c])[w']
      {
        WordIsWord(words, at + w);
        rec[c, w] := Word(words, 4 * (at + w));
      }
    }

    /** Whatever was recorded, the first 16 entries are cached. */
    method CfgCapture(words: seq<u32>, base: nat, ghost entries: seq<Event>)
      requires rec.Length0 == CFG_MAX_CMDS && rec.Length1 == 5
      requires base % 2 == 0 && base + 2 + 5 * CFG_MAX_CMDS <= |words|
      requires Holds(words, base + 1, entries) && words[base] == |entries|
      modifies this`n, rec
      ensures Cached(FirstEntries(entries))
    {
      WordIsWord(words, base);
      var count := Word(words, 4 * base);
      if count > CFG_MAX_CMDS { count := CFG_MAX_CMDS; }
      n := count;
      for c := 0 to count
        invariant n == count && Rows(entries, c)
      {
        CaptureEntry(words, base + 1 + 5 * c, c, entries);
      }
      assert forall c :: 0 <= c < count ==> FirstEntries(entries)[c] == entries[c];
    }

    /** Replay into one port. */
    method ReplayTo(port: Port, ghost entries: seq<Event>)
      requires Cached(entries)
      modifies port
      ensures port.log == old(port.log) + Decoded(entries)
    {
      for c := 0 to n
        invariant port.log == old(port.log) + Decoded(entries[..c])
      {
        assert Decoded(entries[..c + 1]) == Decoded(entries[..c]) + [Decode(Encode(entries[c]))];
        if rec[c, 4] == 0 {
          port.AwaitIdle();
        } else {
          port.WriteRs1(Join(rec[c, 1], rec[c, 0]));
          port.WriteRs2(Join(rec[c, 3], rec[c, 2]));
          port.WriteInst(rec[c, 4]);
        }
      }
      assert entries[..n] == entries;
    }

    /** Replay into every cluster's port in turn. */
    method CfgReplay(ports: seq<Port>, ghost entries: seq<Event>)
      requires Cached(entries) && |ports| == NUM_CLUSTERS && ports[0] != ports[1]
      modifies ports
      ensures forall cl :: 0 <= cl < |ports| ==> ports[cl].log == old(ports[cl].log) + Decoded(entries)
    {
      for cl := 0 to NUM_CLUSTERS
        invariant forall k :: 0 <= k < cl ==> ports[k].log == old(ports[k].log) + Decoded(entries)
        invariant forall k :: cl <= k < |ports| ==> ports[k].log == old(ports[k].log)
      {
        ReplayTo(ports[cl], entries);
      }
    }
  }

  /** What fits the host's cache: the first sixteen entries, or all when there are fewer. */
  function FirstEntries(entries: seq<Event>): (r: seq<Event>)
    ensures |r| <= CFG_MAX_CMDS && r <= entries && |r| == if |entries| < 16 then |entries| else 16
  {
    if |entries| <= CFG_MAX_CMDS then entries else entries[..CFG_MAX_CMDS]
  }

  function Decoded(entries: seq<Event>): (r: seq<Event>)
    ensures |r| == |entries| && forall c :: 0 <= c < |r| ==> r[c] == Decode(Encode(entries[c]))
  {
    seq(|entries|, c requires 0 <= c < |entries| => Decode(Encode(entries[c])))
  }

  lemma DecodedIsSame(entries: seq<Event>)
    requires forall c :: 0 <= c < |entries| ==> FromMacro(entries[c])
    ensures Decoded(entries) == entries
  {
    forall c | 0 <= c < |entries| ensures Decoded(entries)[c] == entries[c] { DecodeEncode(entries[c]); }
  }

  // ---- the round trip -------------------------------------------------------------------------------

  /** A use of the command macro, or of the fence. */
  datatype Call = Issue(rs1: u64, rs2: u64, funct: nat) | Fence

  function EventOf(call: Call): (e: Event)
    ensures FromMacro(e)
  {
    match call
    case Issue(rs1, rs2, funct) => Command(rs1, rs2, Instruction(funct))
    case Fence => Drain
  }

  function Events(calls: seq<Call>): (r: seq<Event>)
    ensures |r| == |calls| && forall c :: 0 <= c < |r| ==> r[c] == EventOf(calls[c])
  {
    seq(|calls|, c requires 0 <= c < |calls| => EventOf(calls[c]))
  }

  /** Tile 0: the GPU issues the stream itself and records it in its shared memory from word `rec`. */
  method Record(gpu: Gpu, calls: seq<Call>, rec: nat)
    requires rec + 1 + 5 * |calls| <= gpu.smem.Length && |calls| < 0x1_0000_0000
    modifies gpu, gpu.smem
    ensures gpu.port == old(gpu.port) + Events(calls)
    ensures gpu.smem[rec] == |calls| && Holds(gpu.smem[..], rec + 1, Events(calls))
  {
    gpu.StartRecording(rec);
    for c := 0 to |calls|
      invariant gpu.port == old(gpu.port) + Events(calls[..c]) && gpu.Recorded(rec, Events(calls[..c]))
    {
      assert Events(calls[..c + 1]) == Events(calls[..c]) + [EventOf(calls[c])];
      match calls[c]
      case Issue(rs1, rs2, funct) => gpu.Issue(rs1, rs2, funct, rec, Events(calls[..c]));
      case Fence => gpu.Fence(rec, Events(calls[..c]));
    }
    assert calls[..|calls|] == calls;
    gpu.FinishRecording(rec, Events(calls));
  }

  /** MAIN RESULT.  The host replays to every cluster exactly what the GPU issued on tile 0, drains where the
      fence was, as long as the stream has at most 16 entries; of a longer one, its first 16. */
  method RecordCaptureReplay(gpu: Gpu, host: Host, ports: seq<Port>, calls: seq<Call>, rec: nat)
    requires host.rec.Length0 == CFG_MAX_CMDS && host.rec.Length1 == 5 && |ports| == NUM_CLUSTERS
             && ports[0] != ports[1]
    requires rec % 2 == 0 && rec + 2 + 5 * CFG_MAX_CMDS <= gpu.smem.Length
    requires rec + 1 + 5 * |calls| <= gpu.smem.Length && |calls| < 0x1_0000_0000
    modifies gpu, gpu.smem, host, host.rec, ports
    ensures gpu.port == old(gpu.port) + Events(calls)
    ensures forall cl :: 0 <= cl < |ports| ==> ports[cl].log == old(ports[cl].log) + FirstEntries(Events(calls))
  {
    Record(gpu, calls, rec);
    host.CfgCapture(gpu.smem[..], rec, Events(calls));
    host.CfgReplay(ports, FirstEntries(Events(calls)));
    DecodedIsSame(FirstEntries(Events(calls)));
  }
}
