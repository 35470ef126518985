/** Bit assignment of one ECC-protected location: the data byte, the codeword
    byte and the 13-position "encoded word" view of the two together. */
module BitLayout {

  /** Hamming parity bits p1..p4 and the overall parity bit pW of a codeword byte. */
  const P01Bit: bv8 := 0x01
  const P02Bit: bv8 := 0x02
  const P03Bit: bv8 := 0x04
  const P04Bit: bv8 := 0x08
  const PwBit: bv8 := 0x10

  /** Data bits d1..d8 of a data byte, least significant first. */
  const DataBit1: bv8 := 0x01
  const DataBit2: bv8 := 0x02
  const DataBit3: bv8 := 0x04
  const DataBit4: bv8 := 0x08
  const DataBit5: bv8 := 0x10
  const DataBit6: bv8 := 0x20
  const DataBit7: bv8 := 0x40
  const DataBit8: bv8 := 0x80

  /** Bit i of the encoded word  pW p1 p2 d1 p3 d2 d3 d4 p4 d5 d6 d7 d8,
      whose positions are 0..12; every other position is 0. */
  predicate EncodedBit(data: bv8, code: bv8, i: int)
  {
    match i
    case 0 => code & PwBit != 0
    case 1 => code & P01Bit != 0
    case 2 => code & P02Bit != 0
    case 3 => data & DataBit1 != 0
    case 4 => code & P03Bit != 0
    case 5 => data & DataBit2 != 0
    case 6 => data & DataBit3 != 0
    case 7 => data & DataBit4 != 0
    case 8 => code & P04Bit != 0
    case 9 => data & DataBit5 != 0
    case 10 => data & DataBit6 != 0
    case 11 => data & DataBit7 != 0
    case 12 => data & DataBit8 != 0
    case _ => false
  }

  /** The 13-position encoded word of a data byte and a codeword byte. */
  function EncodedWord(data: bv8, code: bv8): (w: seq<bool>)
    ensures |w| == 13
  {
    seq(13, i => EncodedBit(data, code, i))
  }
}
