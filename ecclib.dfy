/** The SECDED memory emulator: every data byte has a codeword byte holding
    four Hamming parity bits p1..p4 (bits 0..3), the overall parity bit pW
    (bit 4) and an "encoded" marker. */
module EccLib {
  import opened BitLayout

  /** Number of bytes of emulated memory. */
  const MemSize: nat := 256

  /** The four Hamming parity bits p1..p4. */
  const SynBits: bv8 := 0x0F
  /** Marks a codeword byte as written; above every parity bit. */
  const EncodedMarker: bv8 := 0x80

  /** Outcome of a read. A single-bit error carries the raw syndrome. */
  datatype Status = NoError | PwError | DoubleBitError | UnknownError | Sbe(syndrome: bv8)

  /** One memory location: its data byte and its codeword byte. */
  datatype Cell = Cell(data: bv8, code: bv8)

  /** XOR of the eight data bits, in bit 0. */
  function DataParity(d: bv8): (x: bv8)
    ensures x <= 1
  {
    (d & DataBit1) ^ ((d & DataBit2) >> 1) ^ ((d & DataBit3) >> 2) ^ ((d & DataBit4) >> 3) ^
    ((d & DataBit5) >> 4) ^ ((d & DataBit6) >> 5) ^ ((d & DataBit7) >> 6) ^ ((d & DataBit8) >> 7)
  }

  /** XOR of the parity bits p1..p4 of a codeword byte, in bit 0. */
  function CheckParity(c: bv8): (x: bv8)
    ensures x <= 1
  {
    (c & P01Bit) ^ ((c & P02Bit) >> 1) ^ ((c & P03Bit) >> 2) ^ ((c & P04Bit) >> 3)
  }

  /** get_codeword: the parity bits of data byte d, with the encoded marker. */
  function GetCodeword(d: bv8): (c: bv8)
    ensures c & EncodedMarker == EncodedMarker
    ensures c & !(SynBits | PwBit | EncodedMarker) == 0
  {
    var p1 := P01Bit & ((d & DataBit1) ^ ((d & DataBit2) >> 1) ^ ((d & DataBit4) >> 3) ^
                        ((d & DataBit5) >> 4) ^ ((d & DataBit7) >> 6));
    var p2 := P02Bit & (((d & DataBit1) ^ ((d & DataBit3) >> 2) ^ ((d & DataBit4) >> 3) ^
                         ((d & DataBit6) >> 5) ^ ((d & DataBit7) >> 6)) << 1);
    var p3 := P03Bit & ((((d & DataBit2) >> 1) ^ ((d & DataBit3) >> 2) ^ ((d & DataBit4) >> 3) ^
                         ((d & DataBit8) >> 7)) << 2);
    var p4 := P04Bit & ((((d & DataBit5) >> 4) ^ ((d & DataBit6) >> 5) ^ ((d & DataBit7) >> 6) ^
                         ((d & DataBit8) >> 7)) << 3);
    var hamming := p1 | p2 | p3 | p4;
    var pw := PwBit & ((DataParity(d) ^ CheckParity(hamming)) << 4);
    hamming | pw | EncodedMarker
  }

  /** write_byte on one location: the byte and its freshly computed codeword,
      which carries the encoded marker. */
  function WriteCell(b: bv8): (cell: Cell)
    ensures cell.data == b
    ensures cell.code & EncodedMarker == EncodedMarker
  {
    Cell(b, GetCodeword(b))
  }

  /** Which bit flip_bit toggles for a position of the encoded word. */
  datatype FlipTarget = DataTarget(bit: bv8) | ParityTarget(bit: bv8) | OutOfRange

  /** The switch of flip_bit: positions 3,5,6,7,9,10,11,12 are data bits 0..7,
      positions 1,2,4,8 are codeword bits 0..3 and position 0 is codeword bit 4. */
  function FlipTargetOf(position: nat): (t: FlipTarget)
    ensures t.DataTarget? ==> t.bit < 8
    ensures t.ParityTarget? ==> t.bit <= 4
  {
    match position
    case 0 => ParityTarget(4)
    case 1 => ParityTarget(0)
    case 2 => ParityTarget(1)
    case 4 => ParityTarget(2)
    case 8 => ParityTarget(3)
    case 3 => DataTarget(0)
    case 5 => DataTarget(1)
    case 6 => DataTarget(2)
    case 7 => DataTarget(3)
    case 9 => DataTarget(4)
    case 10 => DataTarget(5)
    case 11 => DataTarget(6)
    case 12 => DataTarget(7)
    case _ => OutOfRange
  }

  /** flip_bit on one location: a position 0..12 changes exactly one of the
      two bytes, and never the marker bits 5..7; any other position is a no-op. */
  function FlipCell(cell: Cell, position: nat): (r: Cell)
    ensures r.data == cell.data || r.code == cell.code
    ensures r.code & 0xE0 == cell.code & 0xE0
    ensures r == cell <==> position > 12
  {
    match FlipTargetOf(position)
    case DataTarget(k) => Cell(cell.data ^ (1 << k), cell.code)
    case ParityTarget(k) => Cell(cell.data, cell.code ^ (1 << k))
    case OutOfRange => cell
  }

  /** The four parity checks of read_byte: recomputed p1..p4 against stored p1..p4. */
  function Syndrome(cell: Cell): (s: bv8)
    ensures s & !SynBits == 0
    ensures s == 0 <==> cell.code & SynBits == GetCodeword(cell.data) & SynBits
  {
    (GetCodeword(cell.data) & SynBits) ^ (cell.code & SynBits)
  }

  /** The stored overall parity bit. */
  function Pw(cell: Cell): bv8
  {
    cell.code & PwBit
  }

  /** The overall parity read_byte expects: from the current data bits and the
      STORED p1..p4, not from a fresh encode. */
  function Pw2(cell: Cell): (e: bv8)
    ensures e == 0 || e == PwBit
    ensures e == PwBit <==> DataParity(cell.data) != CheckParity(cell.code)
  {
    PwBit & ((DataParity(cell.data) ^ CheckParity(cell.code)) << 4)
  }

  /** The classification of read_byte, in the order it tests the cases. */
  function Classify(syndrome: bv8, pw: bv8, pw2: bv8): (s: Status)
    ensures s != UnknownError
    ensures s.Sbe? ==> s.syndrome == syndrome != 0
  {
    if syndrome == 0 && pw == pw2 then NoError
    else if syndrome == 0 && pw != pw2 then PwError
    else if syndrome != 0 && pw == pw2 then DoubleBitError
    else if syndrome != 0 && pw != pw2 then Sbe(syndrome)
    else UnknownError
  }

  /** The status read_byte returns for a location: each status corresponds to
      exactly one combination of a zero or nonzero syndrome and a matching or
      mismatching pW. */
  function ReadStatus(cell: Cell): (s: Status)
    ensures s != UnknownError
    ensures s == NoError <==> Syndrome(cell) == 0 && Pw(cell) == Pw2(cell)
    ensures s == PwError <==> Syndrome(cell) == 0 && Pw(cell) != Pw2(cell)
    ensures s == DoubleBitError <==> Syndrome(cell) != 0 && Pw(cell) == Pw2(cell)
    ensures s.Sbe? <==> Syndrome(cell) != 0 && Pw(cell) != Pw2(cell)
    ensures s.Sbe? ==> s.syndrome == Syndrome(cell)
  {
    Classify(Syndrome(cell), Pw(cell), Pw2(cell))
  }

  /** The location after read_byte: on a pW error, pW2 is OR-ed into the
      codeword. Only pW can change, and only from 0 to 1: a set pW is never
      cleared, whatever pW2 says. */
  function ReadRepair(cell: Cell): (r: Cell)
    ensures r.data == cell.data
    ensures r.code & !PwBit == cell.code & !PwBit
    ensures ReadStatus(cell) != PwError ==> r == cell
    ensures ReadStatus(cell) == PwError ==> Pw(r) == PwBit
    ensures Pw(cell) == PwBit ==> r == cell
  {
    if Syndrome(cell) == 0 && Pw(cell) != Pw2(cell) then Cell(cell.data, cell.code | (Pw2(cell) & PwBit))
    else cell
  }

  /** The repair read_byte's comment describes: on a pW error, pW is set to pW2
      (cleared or set as the parity demands), every other bit is kept. */
  function ReadRepairFixed(cell: Cell): (r: Cell)
    ensures r.data == cell.data
    ensures r.code & !PwBit == cell.code & !PwBit
    ensures Syndrome(cell) == 0 && Pw(cell) != Pw2(cell) ==> Pw(r) == Pw2(cell)
    ensures !(Syndrome(cell) == 0 && Pw(cell) != Pw2(cell)) ==> r == cell
  {
    if Syndrome(cell) == 0 && Pw(cell) != Pw2(cell) then Cell(cell.data, (cell.code & !PwBit) | Pw2(cell))
    else cell
  }

  /** The emulated memory: a data array and a codeword array of MemSize bytes. */
  class EccMemory {
    var data: array<bv8>
    var code: array<bv8>

    ghost predicate Valid()
      reads this
    {
      data.Length == MemSize && code.Length == MemSize && data != code
    }

    /** The location at offset. */
    function CellAt(offset: nat): Cell
      reads this, data, code
      requires Valid() && offset < MemSize
    {
      Cell(data[offset], code[offset])
    }

    /** The memory with whatever its storage held before it is enabled. */
    constructor (initialData: seq<bv8>, initialCode: seq<bv8>)
      requires |initialData| == MemSize && |initialCode| == MemSize
      ensures Valid() && fresh(data) && fresh(code)
      ensures data[..] == initialData && code[..] == initialCode
    {
      data := new bv8[MemSize](i requires 0 <= i < MemSize => initialData[i]);
      code := new bv8[MemSize](i requires 0 <= i < MemSize => initialCode[i]);
    }

    /** enable_ecc_memory: clears every codeword byte and returns the data memory. */
    method EnableEccMemory() returns (base: array<bv8>)
      requires Valid()
      modifies code
      ensures Valid() && base == data
      ensures forall i :: 0 <= i < MemSize ==> code[i] == 0
      ensures data[..] == old(data[..])
    {
      for idx := 0 to MemSize
        invariant forall i :: 0 <= i < idx ==> code[i] == 0
      {
        code[idx] := 0;
      }
      base := data;
    }

    /** write_byte: stores b and its codeword at offset; always succeeds. */
    method WriteByte(offset: nat, b: bv8) returns (status: Status)
      requires Valid() && offset < MemSize
      modifies data, code
      ensures Valid() && status == NoError
      ensures CellAt(offset) == WriteCell(b)
      ensures forall i :: 0 <= i < MemSize && i != offset ==> data[i] == old(data[i]) && code[i] == old(code[i])
    {
      data[offset] := b;
      var codeword := GetCodeword(data[offset]);
      code[offset] := codeword;
      status := NoError;
    }

    /** read_byte: classifies the location at offset; on a pW error it repairs
        the codeword in place. The byte itself is not returned. */
    method ReadByte(offset: nat) returns (status: Status)
      requires Valid() && offset < MemSize
      modifies code
      ensures Valid()
      ensures status == ReadStatus(old(CellAt(offset)))
      ensures CellAt(offset) == ReadRepair(old(CellAt(offset)))
      ensures data[..] == old(data[..])
      ensures forall i :: 0 <= i < MemSize && i != offset ==> code[i] == old(code[i])
    {
      var cell := Cell(data[offset], code[offset]);
      var syndrome := Syndrome(cell);
      var pW := Pw(cell);
      var pW2 := Pw2(cell);
      if syndrome == 0 && pW == pW2 {
        return NoError;
      }
      if syndrome == 0 && pW != pW2 {
        code[offset] := code[offset] | (pW2 & PwBit);
        return PwError;
      }
      if syndrome != 0 && pW == pW2 {
        return DoubleBitError;
      }
      if syndrome != 0 && pW != pW2 {
        return Sbe(syndrome);
      }
      return UnknownError;
    }

    /** flip_bit: toggles one bit of the encoded word at offset; a position
        above 12 changes nothing. */
    method FlipBit(offset: nat, bitToFlip: nat)
      requires Valid() && offset < MemSize
      modifies data, code
      ensures Valid()
      ensures CellAt(offset) == FlipCell(old(CellAt(offset)), bitToFlip)
      ensures forall i :: 0 <= i < MemSize && i != offset ==> data[i] == old(data[i]) && code[i] == old(code[i])
    {
      match FlipTargetOf(bitToFlip)
      case OutOfRange =>
        return;
      case DataTarget(k) =>
        var byte := data[offset];
        byte := byte ^ (1 << k);
        data[offset] := byte;
      case ParityTarget(k) =>
        var byte := code[offset];
        byte := byte ^ (1 << k);
        code[offset] := byte;
    }
  }
}
