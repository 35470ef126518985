/** The drivers of the emulator, as methods over a fresh EccMemory: the sweeps
    and demonstration cases of ecctest.c and the four cases of quiz_6_test.c.
    Each returns the statuses its reads produce. The sweeps and the single
    round hold for every byte; DemoCases and QuizCases replay the tests' bytes. */
module EccScenarios {
  import opened BitLayout
  import opened EccLib
  import opened EccProperties

  /** A memory whose storage held `initial` (data and codewords alike), enabled. */
  method EnabledMemory(initial: seq<bv8>) returns (mem: EccMemory)
    requires |initial| == MemSize
    ensures mem.Valid() && fresh(mem.data) && fresh(mem.code)
    ensures mem.data[..] == initial
    ensures forall i :: 0 <= i < MemSize ==> mem.code[i] == 0
  {
    mem := new EccMemory(initial, initial);
    var base := mem.EnableEccMemory();
  }

  /** The double-bit step at offset 0: write b, flip i and j, read. */
  method WriteFlipFlipRead(mem: EccMemory, b: bv8, i: nat, j: nat) returns (status: Status)
    requires mem.Valid()
    modifies mem.data, mem.code
    ensures mem.Valid()
    ensures status == ReadStatus(FlipCell(FlipCell(WriteCell(b), i), j))
  {
    var written := mem.WriteByte(0, b);
    mem.FlipBit(0, i);
    mem.FlipBit(0, j);
    status := mem.ReadByte(0);
  }

  /** The step every test repeats at offset 0: write b, flip position p, read. */
  method WriteFlipRead(mem: EccMemory, b: bv8, p: nat) returns (status: Status)
    requires mem.Valid()
    modifies mem.data, mem.code
    ensures mem.Valid()
    ensures status == ReadStatus(FlipCell(WriteCell(b), p))
    ensures mem.CellAt(0) == ReadRepair(FlipCell(WriteCell(b), p))
  {
    var written := mem.WriteByte(0, b);
    mem.FlipBit(0, p);
    status := mem.ReadByte(0);
  }

  /** One round of ecctest's single-bit sweep at offset 0: write b, flip p,
      read, flip p back, read again. */
  method SingleBitRound(mem: EccMemory, b: bv8, p: nat) returns (first: Status, second: Status)
    requires mem.Valid() && p <= 12
    modifies mem.data, mem.code
    ensures mem.Valid()
    ensures first == (if p == 0 then PwError else Sbe(p as bv8))
    ensures second == (if p == 0 && GetCodeword(b) & PwBit != 0 then PwError else NoError)
  {
    first := WriteFlipRead(mem, b, p);
    mem.FlipBit(0, p);
    second := mem.ReadByte(0);
    if p == 0 {
      ReadAfterPwFlip(b);
    } else {
      ReadAfterSingleFlip(b, p);
    }
    SingleBitRoundTrip(b, p);
  }

  /** ecctest's single-bit sweep: one round for each position p in 0..12. The
      second read is clean everywhere except at position 0 for a byte whose
      pW is 1 (0xAB, the byte the test uses, has pW 0). */
  method SingleBitSweep(initial: seq<bv8>, b: bv8) returns (firsts: seq<Status>, seconds: seq<Status>)
    requires |initial| == MemSize
    ensures |firsts| == 13 && |seconds| == 13
    ensures firsts[0] == PwError
    ensures forall p :: 1 <= p < 13 ==> firsts[p] == Sbe(p as bv8)
    ensures forall p :: 1 <= p < 13 ==> seconds[p] == NoError
    ensures seconds[0] == (if GetCodeword(b) & PwBit != 0 then PwError else NoError)
    ensures b == 0xAB ==> seconds[0] == NoError
  {
    var mem := EnabledMemory(initial);
    firsts, seconds := [], [];
    for p := 0 to 13
      invariant mem.Valid() && fresh(mem.data) && fresh(mem.code)
      invariant |firsts| == p && |seconds| == p
      invariant 0 < p ==> firsts[0] == PwError
      invariant forall q :: 1 <= q < p ==> firsts[q] == Sbe(q as bv8)
      invariant forall q :: 1 <= q < p ==> seconds[q] == NoError
      invariant 0 < p ==> seconds[0] == (if GetCodeword(b) & PwBit != 0 then PwError else NoError)
    {
      var first, second := SingleBitRound(mem, b, p);
      firsts, seconds := firsts + [first], seconds + [second];
    }
  }

  /** The inner loop of ecctest's double-bit sweep, with position i already
      flipped at offset 0: for each j above i, flip j, read, flip j back. */
  method FlipPairsAbove(mem: EccMemory, b: bv8, i: nat) returns (statuses: seq<Status>)
    requires mem.Valid() && i <= 12
    requires mem.CellAt(0) == FlipCell(WriteCell(b), i)
    modifies mem.data, mem.code
    ensures mem.Valid()
    ensures |statuses| == 12 - i
    ensures forall k :: 0 <= k < |statuses| ==> statuses[k] == DoubleBitError
  {
    statuses := [];
    for j := i + 1 to 13
      invariant mem.Valid()
      invariant mem.CellAt(0) == FlipCell(WriteCell(b), i)
      invariant |statuses| == j - i - 1
      invariant forall k :: 0 <= k < |statuses| ==> statuses[k] == DoubleBitError
    {
      mem.FlipBit(0, j);
      var status := mem.ReadByte(0);
      ReadAfterDoubleFlip(b, i, j);
      mem.FlipBit(0, j);
      FlipTwiceRestores(FlipCell(WriteCell(b), i), j);
      statuses := statuses + [status];
    }
  }

  /** ecctest's double-bit sweep: for each position i, write b at offset 0,
      flip i and run the inner loop. All 78 reads report a double-bit error. */
  method DoubleBitSweep(initial: seq<bv8>, b: bv8) returns (statuses: seq<Status>)
    requires |initial| == MemSize
    ensures |statuses| == 78
    ensures forall k :: 0 <= k < |statuses| ==> statuses[k] == DoubleBitError
  {
    var mem := EnabledMemory(initial);
    statuses := [];
    for i := 0 to 13
      invariant mem.Valid() && fresh(mem.data) && fresh(mem.code)
      invariant 2 * |statuses| == i * (25 - i)
      invariant forall k :: 0 <= k < |statuses| ==> statuses[k] == DoubleBitError
    {
      var written := mem.WriteByte(0, b);
      mem.FlipBit(0, i);
      var pairs := FlipPairsAbove(mem, b, i);
      statuses := statuses + pairs;
    }
  }

  /** ecctest's read-after-write case: write each offset's own value at every
      offset, then read every location back: no read reports an error. */
  method ReadAfterWriteAll(initial: seq<bv8>) returns (statuses: seq<Status>)
    requires |initial| == MemSize
    ensures |statuses| == MemSize
    ensures forall k :: 0 <= k < MemSize ==> statuses[k] == NoError
  {
    var mem := EnabledMemory(initial);
    for offset := 0 to MemSize
      invariant mem.Valid() && fresh(mem.data) && fresh(mem.code)
      invariant forall k :: 0 <= k < offset ==> mem.CellAt(k) == WriteCell(mem.data[k])
    {
      var written := mem.WriteByte(offset, offset as bv8);
    }
    statuses := [];
    for offset := 0 to MemSize
      invariant mem.Valid() && fresh(mem.data) && fresh(mem.code)
      invariant forall k :: 0 <= k < MemSize ==> mem.CellAt(k) == WriteCell(mem.data[k])
      invariant |statuses| == offset
      invariant forall k :: 0 <= k < offset ==> statuses[k] == NoError
    {
      ReadAfterWrite(mem.data[offset]);
      var status := mem.ReadByte(offset);
      statuses := statuses + [status];
    }
  }

  /** ecctest's demonstration cases 1-4, one after another at offset 0: d1 of
      0xAB and d5 of 0x5A are located and their flips undone cleanly, pW of 0xCC
      is reported as a pW error, and p1 of 0xAB is located. */
  method DemoCases(initial: seq<bv8>) returns (case1: Status, case1Back: Status, case2: Status,
                                               case2Back: Status, case3: Status, case4: Status)
    requires |initial| == MemSize
    ensures case1 == Sbe(3) && case1Back == NoError
    ensures case2 == Sbe(10) && case2Back == NoError
    ensures case3 == PwError
    ensures case4 == Sbe(1)
  {
    var mem := EnabledMemory(initial);
    case1, case1Back := SingleBitRound(mem, 0xAB, 3);
    case2, case2Back := SingleBitRound(mem, 0x5A, 10);

    ReadAfterPwFlip(0xCC);
    case3 := WriteFlipRead(mem, 0xCC, 0);

    ReadAfterSingleFlip(0xAB, 1);
    case4 := WriteFlipRead(mem, 0xAB, 1);
  }

  /** The four cases of quiz_6_test.c, one after another at offset 0. */
  method QuizCases(initial: seq<bv8>) returns (clean: Status, pw: Status, single: Status, double: Status)
    requires |initial| == MemSize
    ensures clean == NoError
    ensures pw == PwError
    ensures single == Sbe(10)
    ensures double == DoubleBitError
  {
    var mem := EnabledMemory(initial);
    var written := mem.WriteByte(0, 0xA1);
    ReadAfterWrite(0xA1);
    clean := mem.ReadByte(0);

    ReadAfterPwFlip(0xA2);
    pw := WriteFlipRead(mem, 0xA2, 0);

    ReadAfterSingleFlip(0xA3, 10);
    single := WriteFlipRead(mem, 0xA3, 10);

    ReadAfterDoubleFlip(0xA4, 6, 7);
    double := WriteFlipFlipRead(mem, 0xA4, 6, 7);
  }
}
