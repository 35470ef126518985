/** What the emulator promises, proved against the textbook extended Hamming
    code of module Hamming over the 13-position encoded word. */
module EccProperties {
  import opened BitLayout
  import Hamming
  import opened EccLib

  /** Textbook SECDED decoding of an encoded word. */
  function ReferenceStatus(w: seq<bool>): Status
    requires |w| <= 16
  {
    if Hamming.Syndrome(w) == 0 then (if Hamming.OddParity(w) then PwError else NoError)
    else if Hamming.OddParity(w) then Sbe(Hamming.Syndrome(w))
    else DoubleBitError
  }

  lemma PositionXorUpper(w: seq<bool>)
    requires |w| == 13
    ensures Hamming.PositionXor(w, 7)
         == (if w[7] then 7 as bv8 else 0) ^ (if w[8] then 8 else 0) ^ (if w[9] then 9 else 0) ^
            (if w[10] then 10 else 0) ^ (if w[11] then 11 else 0) ^ (if w[12] then 12 else 0)
  {
    assert Hamming.PositionXor(w, 12) == (if w[12] then 12 else 0) ^ Hamming.PositionXor(w, 13);
    assert Hamming.PositionXor(w, 11) == (if w[11] then 11 else 0) ^ Hamming.PositionXor(w, 12);
    assert Hamming.PositionXor(w, 10) == (if w[10] then 10 else 0) ^ Hamming.PositionXor(w, 11);
    assert Hamming.PositionXor(w, 9) == (if w[9] then 9 else 0) ^ Hamming.PositionXor(w, 10);
    assert Hamming.PositionXor(w, 8) == (if w[8] then 8 else 0) ^ Hamming.PositionXor(w, 9);
    assert Hamming.PositionXor(w, 7) == (if w[7] then 7 else 0) ^ Hamming.PositionXor(w, 8);
  }

  /** The Hamming syndrome of a 13-position word, written out. */
  lemma PositionXor13(w: seq<bool>)
    requires |w| == 13
    ensures Hamming.Syndrome(w)
         == (if w[1] then 1 as bv8 else 0) ^ (if w[2] then 2 else 0) ^ (if w[3] then 3 else 0) ^
            (if w[4] then 4 else 0) ^ (if w[5] then 5 else 0) ^ (if w[6] then 6 else 0) ^
            (if w[7] then 7 else 0) ^ (if w[8] then 8 else 0) ^ (if w[9] then 9 else 0) ^
            (if w[10] then 10 else 0) ^ (if w[11] then 11 else 0) ^ (if w[12] then 12 else 0)
  {
    PositionXorUpper(w);
    var upper := Hamming.PositionXor(w, 7);
    assert Hamming.PositionXor(w, 6) == (if w[6] then 6 else 0) ^ upper;
    assert Hamming.PositionXor(w, 5) == (if w[5] then 5 else 0) ^ Hamming.PositionXor(w, 6);
    assert Hamming.PositionXor(w, 4) == (if w[4] then 4 else 0) ^ Hamming.PositionXor(w, 5);
    assert Hamming.PositionXor(w, 3) == (if w[3] then 3 else 0) ^ Hamming.PositionXor(w, 4);
    assert Hamming.PositionXor(w, 2) == (if w[2] then 2 else 0) ^ Hamming.PositionXor(w, 3);
    assert Hamming.PositionXor(w, 1) == (if w[1] then 1 else 0) ^ Hamming.PositionXor(w, 2);
  }

  lemma Parity13(w: seq<bool>)
    requires |w| == 13
    ensures Hamming.OddParity(w)
         == (w[0] != (w[1] != (w[2] != (w[3] != (w[4] != (w[5] != (w[6] != (w[7] !=
            (w[8] != (w[9] != (w[10] != (w[11] != w[12]))))))))))))
  {
    assert Hamming.ParityFrom(w, 12) == (w[12] != Hamming.ParityFrom(w, 13));
    assert Hamming.ParityFrom(w, 11) == (w[11] != Hamming.ParityFrom(w, 12));
    assert Hamming.ParityFrom(w, 10) == (w[10] != Hamming.ParityFrom(w, 11));
    assert Hamming.ParityFrom(w, 9) == (w[9] != Hamming.ParityFrom(w, 10));
    assert Hamming.ParityFrom(w, 8) == (w[8] != Hamming.ParityFrom(w, 9));
    assert Hamming.ParityFrom(w, 7) == (w[7] != Hamming.ParityFrom(w, 8));
    assert Hamming.ParityFrom(w, 6) == (w[6] != Hamming.ParityFrom(w, 7));
    assert Hamming.ParityFrom(w, 5) == (w[5] != Hamming.ParityFrom(w, 6));
    assert Hamming.ParityFrom(w, 4) == (w[4] != Hamming.ParityFrom(w, 5));
    assert Hamming.ParityFrom(w, 3) == (w[3] != Hamming.ParityFrom(w, 4));
    assert Hamming.ParityFrom(w, 2) == (w[2] != Hamming.ParityFrom(w, 3));
    assert Hamming.ParityFrom(w, 1) == (w[1] != Hamming.ParityFrom(w, 2));
    assert Hamming.ParityFrom(w, 0) == (w[0] != Hamming.ParityFrom(w, 1));
  }

  /** The syndrome read_byte computes is the Hamming syndrome of the encoded word. */
  lemma SyndromeIsReference(cell: Cell)
    ensures EccLib.Syndrome(cell) == Hamming.Syndrome(EncodedWord(cell.data, cell.code))
  {
    PositionXor13(EncodedWord(cell.data, cell.code));
  }

  /** read_byte's pW test (stored pW against pW2) is the overall parity check. */
  lemma PwMismatchIsOddParity(cell: Cell)
    ensures (Pw(cell) != Pw2(cell)) == Hamming.OddParity(EncodedWord(cell.data, cell.code))
  {
    Parity13(EncodedWord(cell.data, cell.code));
  }

  /** read_byte classifies a location exactly as textbook SECDED decoding does. */
  lemma ReadStatusIsReference(cell: Cell)
    ensures ReadStatus(cell) == ReferenceStatus(EncodedWord(cell.data, cell.code))
  {
    SyndromeIsReference(cell);
    PwMismatchIsOddParity(cell);
  }

  /** get_codeword makes the encoded word of the byte a codeword. */
  lemma CodewordIsValid(b: bv8)
    ensures Hamming.IsCodeword(EncodedWord(b, GetCodeword(b)))
  {
    SyndromeIsReference(WriteCell(b));
    PwMismatchIsOddParity(WriteCell(b));
  }

  /** Each check bit get_codeword stores is the parity of the positions it
      covers: p1 of 3,5,7,9,11 (d1 d2 d4 d5 d7), p2 of 3,6,7,10,11, p3 of
      5,6,7,12 and p4 of 9,10,11,12. */
  lemma CodewordParityGroups(d: bv8)
    ensures var c := GetCodeword(d);
            && EncodedBit(d, c, 1) == (EncodedBit(d, c, 3) != (EncodedBit(d, c, 5) != (EncodedBit(d, c, 7) != (EncodedBit(d, c, 9) != EncodedBit(d, c, 11)))))
            && EncodedBit(d, c, 2) == (EncodedBit(d, c, 3) != (EncodedBit(d, c, 6) != (EncodedBit(d, c, 7) != (EncodedBit(d, c, 10) != EncodedBit(d, c, 11)))))
            && EncodedBit(d, c, 4) == (EncodedBit(d, c, 5) != (EncodedBit(d, c, 6) != (EncodedBit(d, c, 7) != EncodedBit(d, c, 12))))
            && EncodedBit(d, c, 8) == (EncodedBit(d, c, 9) != (EncodedBit(d, c, 10) != (EncodedBit(d, c, 11) != EncodedBit(d, c, 12))))
  {
  }

  /** The overall parity bit pW get_codeword stores is the parity of all twelve
      other positions. */
  lemma CodewordOverallParity(d: bv8)
    ensures var w := EncodedWord(d, GetCodeword(d));
            w[0] == (w[1] != (w[2] != (w[3] != (w[4] != (w[5] != (w[6] != (w[7] !=
                    (w[8] != (w[9] != (w[10] != (w[11] != w[12])))))))))))
  {
    PwMismatchIsOddParity(WriteCell(d));
    Parity13(EncodedWord(d, GetCodeword(d)));
  }

  /** ... and it is the only codeword byte that does (up to the marker bits). */
  lemma CodewordIsUnique(d: bv8, c: bv8)
    requires Hamming.IsCodeword(EncodedWord(d, c))
    ensures c & (SynBits | PwBit) == GetCodeword(d) & (SynBits | PwBit)
  {
    SyndromeIsReference(Cell(d, c));
    PwMismatchIsOddParity(Cell(d, c));
  }

  /** Flipping position p toggles bit i of the encoded word exactly when i is p. */
  predicate FlipToggles(cell: Cell, p: nat, i: int)
  {
    EncodedBit(FlipCell(cell, p).data, FlipCell(cell, p).code, i)
      == (EncodedBit(cell.data, cell.code, i) != (i == p))
  }

  /** EncodedBit as one implication per position, so that callers need no case split. */
  lemma EncodedBitTable(data: bv8, code: bv8, i: int)
    ensures i == 0 ==> EncodedBit(data, code, i) == (code & 0x10 != 0)
    ensures i == 1 ==> EncodedBit(data, code, i) == (code & 0x01 != 0)
    ensures i == 2 ==> EncodedBit(data, code, i) == (code & 0x02 != 0)
    ensures i == 3 ==> EncodedBit(data, code, i) == (data & 0x01 != 0)
    ensures i == 4 ==> EncodedBit(data, code, i) == (code & 0x04 != 0)
    ensures i == 5 ==> EncodedBit(data, code, i) == (data & 0x02 != 0)
    ensures i == 6 ==> EncodedBit(data, code, i) == (data & 0x04 != 0)
    ensures i == 7 ==> EncodedBit(data, code, i) == (data & 0x08 != 0)
    ensures i == 8 ==> EncodedBit(data, code, i) == (code & 0x08 != 0)
    ensures i == 9 ==> EncodedBit(data, code, i) == (data & 0x10 != 0)
    ensures i == 10 ==> EncodedBit(data, code, i) == (data & 0x20 != 0)
    ensures i == 11 ==> EncodedBit(data, code, i) == (data & 0x40 != 0)
    ensures i == 12 ==> EncodedBit(data, code, i) == (data & 0x80 != 0)
    ensures !(0 <= i <= 12) ==> !EncodedBit(data, code, i)
  {
    if i == 0 {} else if i == 1 {} else if i == 2 {} else if i == 3 {} else if i == 4 {}
    else if i == 5 {} else if i == 6 {} else if i == 7 {} else if i == 8 {} else if i == 9 {}
    else if i == 10 {} else if i == 11 {} else if i == 12 {}
  }

  // One lemma per position: with the position a literal, flip_bit's switch
  // folds to a single mask and each case is a small bit-vector fact.
  lemma FlipTogglesAt0(cell: Cell, i: int) ensures FlipToggles(cell, 0, i)
  {
    EncodedBitTable(cell.data, cell.code, i);
    EncodedBitTable(FlipCell(cell, 0).data, FlipCell(cell, 0).code, i);
  }
  lemma FlipTogglesAt1(cell: Cell, i: int) ensures FlipToggles(cell, 1, i)
  {
    EncodedBitTable(cell.data, cell.code, i);
    EncodedBitTable(FlipCell(cell, 1).data, FlipCell(cell, 1).code, i);
  }
  lemma FlipTogglesAt2(cell: Cell, i: int) ensures FlipToggles(cell, 2, i)
  {
    EncodedBitTable(cell.data, cell.code, i);
    EncodedBitTable(FlipCell(cell, 2).data, FlipCell(cell, 2).code, i);
  }
  lemma FlipTogglesAt3(cell: Cell, i: int) ensures FlipToggles(cell, 3, i)
  {
    EncodedBitTable(cell.data, cell.code, i);
    EncodedBitTable(FlipCell(cell, 3).data, FlipCell(cell, 3).code, i);
  }
  lemma FlipTogglesAt4(cell: Cell, i: int) ensures FlipToggles(cell, 4, i)
  {
    EncodedBitTable(cell.data, cell.code, i);
    EncodedBitTable(FlipCell(cell, 4).data, FlipCell(cell, 4).code, i);
  }
  lemma FlipTogglesAt5(cell: Cell, i: int) ensures FlipToggles(cell, 5, i)
  {
    EncodedBitTable(cell.data, cell.code, i);
    EncodedBitTable(FlipCell(cell, 5).data, FlipCell(cell, 5).code, i);
  }
  lemma FlipTogglesAt6(cell: Cell, i: int) ensures FlipToggles(cell, 6, i)
  {
    EncodedBitTable(cell.data, cell.code, i);
    EncodedBitTable(FlipCell(cell, 6).data, FlipCell(cell, 6).code, i);
  }
  lemma FlipTogglesAt7(cell: Cell, i: int) ensures FlipToggles(cell, 7, i)
  {
    EncodedBitTable(cell.data, cell.code, i);
    EncodedBitTable(FlipCell(cell, 7).data, FlipCell(cell, 7).code, i);
  }
  lemma FlipTogglesAt8(cell: Cell, i: int) ensures FlipToggles(cell, 8, i)
  {
    EncodedBitTable(cell.data, cell.code, i);
    EncodedBitTable(FlipCell(cell, 8).data, FlipCell(cell, 8).code, i);
  }
  lemma FlipTogglesAt9(cell: Cell, i: int) ensures FlipToggles(cell, 9, i)
  {
    EncodedBitTable(cell.data, cell.code, i);
    EncodedBitTable(FlipCell(cell, 9).data, FlipCell(cell, 9).code, i);
  }
  lemma FlipTogglesAt10(cell: Cell, i: int) ensures FlipToggles(cell, 10, i)
  {
    EncodedBitTable(cell.data, cell.code, i);
    EncodedBitTable(FlipCell(cell, 10).data, FlipCell(cell, 10).code, i);
  }
  lemma FlipTogglesAt11(cell: Cell, i: int) ensures FlipToggles(cell, 11, i)
  {
    EncodedBitTable(cell.data, cell.code, i);
    EncodedBitTable(FlipCell(cell, 11).data, FlipCell(cell, 11).code, i);
  }
  lemma FlipTogglesAt12(cell: Cell, i: int) ensures FlipToggles(cell, 12, i)
  {
    EncodedBitTable(cell.data, cell.code, i);
    EncodedBitTable(FlipCell(cell, 12).data, FlipCell(cell, 12).code, i);
  }

  lemma FlipTogglesBit(cell: Cell, p: nat, i: int)
    requires p <= 12
    ensures FlipToggles(cell, p, i)
  {
    if p == 0 { FlipTogglesAt0(cell, i); }
    else if p == 1 { FlipTogglesAt1(cell, i); }
    else if p == 2 { FlipTogglesAt2(cell, i); }
    else if p == 3 { FlipTogglesAt3(cell, i); }
    else if p == 4 { FlipTogglesAt4(cell, i); }
    else if p == 5 { FlipTogglesAt5(cell, i); }
    else if p == 6 { FlipTogglesAt6(cell, i); }
    else if p == 7 { FlipTogglesAt7(cell, i); }
    else if p == 8 { FlipTogglesAt8(cell, i); }
    else if p == 9 { FlipTogglesAt9(cell, i); }
    else if p == 10 { FlipTogglesAt10(cell, i); }
    else if p == 11 { FlipTogglesAt11(cell, i); }
    else { FlipTogglesAt12(cell, i); }
  }

  /** flip_bit toggles exactly position p of the encoded word. */
  lemma FlipCellIsReferenceFlip(cell: Cell, p: nat)
    requires p <= 12
    ensures EncodedWord(FlipCell(cell, p).data, FlipCell(cell, p).code)
            == Hamming.Flip(EncodedWord(cell.data, cell.code), p)
  {
    var flipped := FlipCell(cell, p);
    var after := EncodedWord(flipped.data, flipped.code);
    var expected := Hamming.Flip(EncodedWord(cell.data, cell.code), p);
    forall i | 0 <= i < 13
      ensures after[i] == expected[i]
    {
      FlipTogglesBit(cell, p, i);
    }
    assert after == expected;
  }

  /** flip_bit leaves the marker bits of the codeword byte alone, and does
      nothing for a position above 12. */
  lemma FlipCellKeepsMarker(cell: Cell, p: nat)
    ensures FlipCell(cell, p).code & !(SynBits | PwBit) == cell.code & !(SynBits | PwBit)
    ensures p > 12 ==> FlipCell(cell, p) == cell
  {
    match FlipTargetOf(p)
    case DataTarget(k) =>
    case ParityTarget(k) =>
      assert (cell.code ^ (1 << k)) & !(SynBits | PwBit) == cell.code & !(SynBits | PwBit);
    case OutOfRange =>
  }

  /** Flipping the same position twice restores the location. */
  lemma FlipTwiceRestores(cell: Cell, p: nat)
    ensures FlipCell(FlipCell(cell, p), p) == cell
  {
    match FlipTargetOf(p)
    case DataTarget(k) =>
      assert cell.data ^ (1 << k) ^ (1 << k) == cell.data;
    case ParityTarget(k) =>
      assert cell.code ^ (1 << k) ^ (1 << k) == cell.code;
    case OutOfRange =>
  }

  /** A location just written reads back with no error and is left unchanged. */
  lemma ReadAfterWrite(b: bv8)
    ensures ReadStatus(WriteCell(b)) == NoError
    ensures ReadRepair(WriteCell(b)) == WriteCell(b)
  {
    CodewordIsValid(b);
    ReadStatusIsReference(WriteCell(b));
  }

  /** One flipped position p in 1..12 after a write is reported as Sbe(p). */
  lemma ReadAfterSingleFlip(b: bv8, p: nat)
    requires 1 <= p <= 12
    ensures ReadStatus(FlipCell(WriteCell(b), p)) == Sbe(p as bv8)
    ensures ReadRepair(FlipCell(WriteCell(b), p)) == FlipCell(WriteCell(b), p)
  {
    var cell := FlipCell(WriteCell(b), p);
    CodewordIsValid(b);
    FlipCellIsReferenceFlip(WriteCell(b), p);
    Hamming.SingleErrorLocated(EncodedWord(b, GetCodeword(b)), p);
    ReadStatusIsReference(cell);
  }

  /** A flipped pW after a write is reported as a pW error, and the OR repair
      leaves pW set whatever it was written as. */
  lemma ReadAfterPwFlip(b: bv8)
    ensures ReadStatus(FlipCell(WriteCell(b), 0)) == PwError
    ensures ReadRepair(FlipCell(WriteCell(b), 0)) == Cell(b, GetCodeword(b) | PwBit)
  {
    var cell := FlipCell(WriteCell(b), 0);
    CodewordIsValid(b);
    FlipCellIsReferenceFlip(WriteCell(b), 0);
    Hamming.SingleErrorLocated(EncodedWord(b, GetCodeword(b)), 0);
    ReadStatusIsReference(cell);
  }

  /** Two distinct flipped positions after a write are reported as a double-bit error. */
  lemma ReadAfterDoubleFlip(b: bv8, i: nat, j: nat)
    requires i <= 12 && j <= 12 && i != j
    ensures ReadStatus(FlipCell(FlipCell(WriteCell(b), i), j)) == DoubleBitError
  {
    var w := EncodedWord(b, GetCodeword(b));
    var once := FlipCell(WriteCell(b), i);
    CodewordIsValid(b);
    FlipCellIsReferenceFlip(WriteCell(b), i);
    FlipCellIsReferenceFlip(once, j);
    Hamming.DoubleErrorDetected(w, i, j);
    ReadStatusIsReference(FlipCell(once, j));
  }

  /** read_byte never reaches UNKNOWN_ERROR and only reports nonzero syndromes. */
  lemma ReadNeverUnknown(cell: Cell)
    ensures ReadStatus(cell) != UnknownError
    ensures ReadStatus(cell).Sbe? ==> 1 <= ReadStatus(cell).syndrome <= 15
  {
  }

  /** Computing pW2 by a fresh encode would report a flipped p1 as a double-bit
      error; read_byte's use of the stored p1..p4 reports it as Sbe(1). */
  lemma FreshPw2MisreadsParityFlip(b: bv8)
    ensures var cell := FlipCell(WriteCell(b), 1);
            Classify(EccLib.Syndrome(cell), Pw(cell), GetCodeword(cell.data) & PwBit) == DoubleBitError
  {
  }

  /** As written, the OR repair cannot clear pW: when the byte's pW is 0, the
      flipped pW stays set and the next read reports a pW error again. */
  lemma PwRepairLeavesPwSet(b: bv8)
    requires GetCodeword(b) & PwBit == 0
    ensures ReadRepair(FlipCell(WriteCell(b), 0)) == FlipCell(WriteCell(b), 0)
    ensures ReadStatus(ReadRepair(FlipCell(WriteCell(b), 0))) == PwError
  {
    ReadAfterPwFlip(b);
    assert GetCodeword(b) | PwBit == GetCodeword(b) ^ 0x10;
  }

  /** 0xCC, written and then hit at position 0, is such a byte. */
  lemma PwRepairCounterexample()
    ensures GetCodeword(0xCC) & PwBit == 0
    ensures ReadStatus(ReadRepair(FlipCell(WriteCell(0xCC), 0))) == PwError
  {
    PwRepairLeavesPwSet(0xCC);
  }

  /** The whole as-written behaviour on a pW hit after a write: the OR repair
      heals exactly the bytes whose pW is 1. */
  lemma HealsIffPwSet(b: bv8)
    ensures ReadStatus(ReadRepair(FlipCell(WriteCell(b), 0))) == NoError <==> GetCodeword(b) & PwBit != 0
  {
    ReadAfterPwFlip(b);
    if GetCodeword(b) & PwBit != 0 {
      assert GetCodeword(b) | PwBit == GetCodeword(b);
      ReadAfterWrite(b);
    } else {
      PwRepairLeavesPwSet(b);
    }
  }

  /** The corrected repair heals a pW error: the next read is clean, and a
      flipped pW after a write is restored to what was written. */
  lemma FixedRepairHeals(cell: Cell)
    ensures ReadStatus(cell) == PwError ==> ReadStatus(ReadRepairFixed(cell)) == NoError
    ensures ReadStatus(cell) != PwError ==> ReadRepairFixed(cell) == cell
  {
    if ReadStatus(cell) == PwError {
      var r := ReadRepairFixed(cell);
      assert cell.code & SynBits == r.code & SynBits;
      ChecksSeeOnlyParityBits(cell, r);
    }
  }

  /** The four checks and pW2 look at the data byte and p1..p4 only: the
      stored pW and the marker bits play no part. */
  lemma ChecksSeeOnlyParityBits(c1: Cell, c2: Cell)
    requires c1.data == c2.data && c1.code & SynBits == c2.code & SynBits
    ensures Syndrome(c1) == Syndrome(c2) && Pw2(c1) == Pw2(c2)
  {
    ChecksSeeLowBits(c1);
    ChecksSeeLowBits(c2);
  }

  lemma ChecksSeeLowBits(c: Cell)
    ensures Syndrome(c) == Syndrome(Cell(c.data, c.code & SynBits))
    ensures Pw2(c) == Pw2(Cell(c.data, c.code & SynBits))
  {
    SyndromeSeesLowBits(c);
    assert c.code & SynBits & SynBits == c.code & SynBits;
  }

  lemma SyndromeSeesLowBits(c: Cell)
    ensures Syndrome(c) == Syndrome(Cell(c.data, c.code & SynBits))
  {
    var g := GetCodeword(c.data);
    assert Syndrome(c) == (g & SynBits) ^ (c.code & SynBits);
    assert Syndrome(Cell(c.data, c.code & SynBits)) == (g & SynBits) ^ (c.code & SynBits & SynBits);
    assert c.code & SynBits & SynBits == c.code & SynBits;
  }

  /** The corrected repair does not suit ecctest's single-bit round for 0xAB:
      after write, flip 0, read (healing pW), the flip back re-corrupts pW. */
  lemma FixedRepairBreaksEcctestRound()
    ensures ReadStatus(FlipCell(ReadRepairFixed(FlipCell(WriteCell(0xAB), 0)), 0)) == PwError
  {
  }

  lemma FixedRepairRestoresWrite(b: bv8)
    ensures ReadRepairFixed(FlipCell(WriteCell(b), 0)) == WriteCell(b)
  {
    ReadAfterPwFlip(b);
    var flipped := FlipCell(WriteCell(b), 0);
    assert flipped.code == GetCodeword(b) ^ 0x10;
    CodewordIsValid(b);
  }

  /** One round of ecctest's single-bit loop: write b, flip p, read, flip p back,
      read again. The second read is clean except at position 0 for a byte whose
      pW is 1: the repair has set pW, and flipping it back clears it again. */
  lemma SingleBitRoundTrip(b: bv8, p: nat)
    requires p <= 12
    ensures ReadStatus(FlipCell(ReadRepair(FlipCell(WriteCell(b), p)), p))
            == (if p == 0 && GetCodeword(b) & PwBit != 0 then PwError else NoError)
  {
    if p == 0 {
      ReadAfterPwFlip(b);
      var again := FlipCell(Cell(b, GetCodeword(b) | PwBit), 0);
      assert again.code == (GetCodeword(b) | PwBit) ^ 0x10;
      if GetCodeword(b) & PwBit != 0 {
        assert again == FlipCell(WriteCell(b), 0);
      } else {
        assert again == WriteCell(b);
        ReadAfterWrite(b);
      }
    } else {
      ReadAfterSingleFlip(b, p);
      FlipTwiceRestores(WriteCell(b), p);
      ReadAfterWrite(b);
    }
  }
}
