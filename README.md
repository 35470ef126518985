# SECDED memory emulator and integer YUV to RGB conversion, in Dafny

This project models two pieces of a real-time embedded systems course repository.

The first is the emulator in `hamming-emulator/ecclib.c`. It protects each byte of an emulated memory with an extended Hamming code that corrects single errors and detects double errors (SECDED):

- Every data byte `d1..d8` has a codeword byte. The codeword holds four Hamming parity bits `p1..p4` in bits 0..3, the overall parity bit `pW` in bit 4, and an "encoded" marker.
- Together they form the 13-position encoded word `pW p1 p2 d1 p3 d2 d3 d4 p4 d5 d6 d7 d8`, positions 0..12.
- `write_byte` stores a byte with its freshly computed codeword.
- `flip_bit` injects a fault at one position of the encoded word.
- `read_byte` recomputes the four checks, compares the stored `pW` with the parity it expects (`pW2`), and classifies the location. The outcome is no error, a `pW`-only error (which it repairs in place), a single-bit error at the position named by the syndrome, or a double-bit error.
- `enable_ecc_memory` clears the codeword memory.

The second is `yuv2rgb` in `assignment-4/lib/utilities.c`. It is the fixed-point YUV to RGB conversion of the camera capture code, with coefficients scaled by 256, rounding, an arithmetic shift and clamping into a byte.

## Files and modules

- `bit_layout.dfy`, module `BitLayout`: the bit masks, and the map from the 13 positions of the encoded word to bits of the data and codeword bytes (`EncodedBit`, `EncodedWord`).
- `hamming.dfy`, module `Hamming`: the textbook extended Hamming code over a word of booleans. It is independent of any byte layout:
  - the syndrome is the XOR of the positions that hold a 1;
  - the overall parity is the XOR of all bits;
  - one flipped bit of a codeword is located by the syndrome;
  - two flipped bits give a nonzero syndrome with even parity.
- `ecclib.dfy`, module `EccLib`:
  - the emulator's pure parts as functions on `bv8`: `GetCodeword`, `Syndrome`, `Pw2`, `Classify`, `FlipCell`, and the in-place repair `ReadRepair`;
  - the memory itself as a class `EccMemory`, with two arrays, one for data and one for codewords, whose methods mirror the C functions statement for statement.
- `ecclib_properties.dfy`, module `EccProperties`: proofs that the bit arithmetic is exactly the textbook code.
  - `get_codeword` produces a codeword.
  - The syndrome `read_byte` computes is the Hamming syndrome.
  - Its `pW` test is the overall parity check.
  - `flip_bit` flips exactly the named position.
  - The resulting read outcome for every byte and every single or double fault.
  - The lemmas behind the finding below.
- `ecc_scenarios.dfy`, module `EccScenarios`: the loops and demonstration cases of `ecctest.c` and the cases of `quiz_6_test.c`, as methods over a freshly allocated `EccMemory`. The contracts of the sweeps and of one single-bit round hold for every byte. `DemoCases` and `QuizCases` replay the fixed bytes of the tests, and the lemmas they rest on (`ReadAfterSingleFlip`, `SingleBitRoundTrip`, `ReadAfterPwFlip`, `ReadAfterDoubleFlip`) hold for every byte.
- `utilities.dfy`, module `Utilities`: `yuv2rgb` as a function returning the three channels. Each channel is specified by what it means, not by its formula: the scaled sum divided by 256, rounded to the nearest integer and saturated into 0..255 (`RoundsTo`).

## Model

| member | source | states |
|---|---|---|
| EccLib.GetCodeword | hamming-emulator/ecclib.c:111-177 | the codeword byte always has the encoded marker set and has no bits outside p1..p4, pW and the marker |
| EccProperties.CodewordIsValid | hamming-emulator/ecclib.c:111-177 | for every data byte, the encoded word of the byte and its codeword is a codeword of the extended Hamming code: zero syndrome and even overall parity |
| EccProperties.CodewordIsUnique | hamming-emulator/ecclib.c:111-177 | any codeword byte that makes the encoded word a codeword agrees with get_codeword on p1..p4 and pW |
| EccProperties.CodewordParityGroups | hamming-emulator/ecclib.c:118-153 | p1 is the parity of d1 d2 d4 d5 d7, p2 of d1 d3 d4 d6 d7, p3 of d2 d3 d4 d8, p4 of d5 d6 d7 d8, each the parity of the positions it covers in the encoded word |
| EccProperties.CodewordOverallParity | hamming-emulator/ecclib.c:155-170 | pW is the parity of the other twelve positions of the encoded word |
| EccLib.WriteCell | hamming-emulator/ecclib.c:19-21 | a written location holds the byte itself and a codeword that carries the encoded marker |
| EccLib.EccMemory.EnableEccMemory | hamming-emulator/ecclib.c:105-109 | every codeword byte becomes 0, the data memory is unchanged, and the data memory is returned |
| EccLib.EccMemory.WriteByte | hamming-emulator/ecclib.c:15-31 | the location holds the byte and its get_codeword value, no other location changes, and the status is NO_ERROR |
| EccLib.EccMemory.ReadByte | hamming-emulator/ecclib.c:34-102 | the status is the classification of the location as it was; afterwards the location is the OR-repaired one; data and all other codewords are unchanged |
| EccLib.EccMemory.FlipBit | hamming-emulator/ecclib.c:269-357 | the location becomes FlipCell of what it was, and no other location changes |
| EccLib.Classify | hamming-emulator/ecclib.c:70-101 | the four tests are exhaustive, so UNKNOWN_ERROR is never returned, and a single-bit status carries the syndrome, which is nonzero |
| EccLib.FlipCell | hamming-emulator/ecclib.c:276-356 | a flip at a position 0..12 changes exactly one of the data byte and the codeword byte and never the marker bits 5..7; the location is unchanged exactly when the position is above 12 |
| EccLib.Syndrome | hamming-emulator/ecclib.c:38-40 | the syndrome lies in 0..15 and is zero exactly when the stored p1..p4 equal those get_codeword recomputes from the data |
| EccLib.Pw2 | hamming-emulator/ecclib.c:42-58 | pW2 is 0 or PW_BIT, and it is set exactly when the data bits and the STORED p1..p4 together have odd parity |
| EccLib.ReadStatus | hamming-emulator/ecclib.c:69-101 | never UNKNOWN_ERROR; NO_ERROR, PW_ERROR, DOUBLE_BIT_ERROR and a single-bit error each hold exactly for one combination of a zero or nonzero syndrome and a matching or mismatching pW, and a single-bit error carries the syndrome |
| EccLib.ReadRepair | hamming-emulator/ecclib.c:76-83 | the repair keeps the data and every codeword bit except pW; a location that is not a PW_ERROR is unchanged; after the repair of a PW_ERROR, pW is set, and a set pW is never cleared |
| EccLib.FlipTargetOf | hamming-emulator/ecclib.c:276-331 | the switch selects a data bit 0..7 or a codeword bit 0..4 |
| EccProperties.SyndromeIsReference | hamming-emulator/ecclib.c:38-40 | the syndrome read_byte computes equals the Hamming syndrome (XOR of the positions holding a 1) of the encoded word |
| EccProperties.PwMismatchIsOddParity | hamming-emulator/ecclib.c:42-58 | the stored pW differs from pW2 exactly when the overall parity of the encoded word is odd |
| EccProperties.ReadStatusIsReference | hamming-emulator/ecclib.c:70-101 | read_byte classifies every location exactly as textbook SECDED decoding of its encoded word does |
| EccProperties.ChecksSeeOnlyParityBits | hamming-emulator/ecclib.c:38-58 | the syndrome and pW2 depend only on the data byte and the stored p1..p4, not on pW or the marker |
| EccProperties.FlipCellIsReferenceFlip | hamming-emulator/ecclib.c:269-357 | for a position 0..12, flip_bit toggles exactly that position of the encoded word and no other |
| EccProperties.FlipCellKeepsMarker | hamming-emulator/ecclib.c:328-331 | flip_bit never touches the marker bits, and a position above 12 changes nothing |
| EccProperties.FlipTwiceRestores | hamming-emulator/ecclib.c:269-357 | flipping the same position twice restores the location |
| EccProperties.ReadAfterWrite | hamming-emulator/ecclib.c:70-74 | a location just written reads as NO_ERROR and the read leaves it unchanged |
| EccProperties.ReadAfterSingleFlip | hamming-emulator/ecclib.c:92-97 | after a write and one flip at position p in 1..12, the read reports a single-bit error at exactly p and changes nothing |
| EccProperties.ReadAfterPwFlip | hamming-emulator/ecclib.c:76-83 | after a write and a flip at position 0, the read reports PW_ERROR and leaves the codeword with pW set |
| EccProperties.ReadAfterDoubleFlip | hamming-emulator/ecclib.c:85-90 | after a write and flips at two distinct positions in 0..12, the read reports DOUBLE_BIT_ERROR |
| EccProperties.ReadNeverUnknown | hamming-emulator/ecclib.c:98-101 | no location reads as UNKNOWN_ERROR, and a single-bit status names a position 1..15 |
| EccProperties.FreshPw2MisreadsParityFlip | hamming-emulator/ecclib.c:43 | had pW2 been taken from a fresh get_codeword (the line marked BUG), a flipped p1 would be reported as a double-bit error |
| EccProperties.PwRepairLeavesPwSet | hamming-emulator/ecclib.c:79-81 | for a byte whose pW is 0, a flipped pW survives the OR repair and the next read again reports PW_ERROR |
| EccProperties.HealsIffPwSet | hamming-emulator/ecclib.c:76-83 | after a write and a pW hit, the read after the OR repair is clean exactly when the byte's pW is 1 |
| EccProperties.PwRepairCounterexample | hamming-emulator/ecclib.c:79-81 | 0xCC has pW 0, so written, hit at position 0 and read, it still reads as PW_ERROR |
| EccLib.ReadRepairFixed | hamming-emulator/ecclib.c:79-81 | the corrected repair keeps the data and every codeword bit except pW, sets pW to pW2 on a pW error, and changes nothing otherwise |
| EccProperties.FixedRepairHeals | hamming-emulator/ecclib.c:79-81 | after the corrected repair of a PW_ERROR location, the next read reports NO_ERROR |
| EccProperties.FixedRepairBreaksEcctestRound | hamming-emulator/ecctest.c:20-25 | with the corrected repair, the round at position 0 for 0xAB would end in PW_ERROR: flipping back re-corrupts the healed pW |
| EccProperties.FixedRepairRestoresWrite | hamming-emulator/ecclib.c:79-81 | the corrected repair of a written byte hit at position 0 restores exactly what was written |
| EccProperties.SingleBitRoundTrip | hamming-emulator/ecctest.c:20-25 | write, flip p, read, flip p back: the second read is NO_ERROR except at position 0 for a byte whose pW is 1, where it is PW_ERROR |
| EccScenarios.SingleBitRound | hamming-emulator/ecctest.c:20-25 | the two reads of one round of the single-bit loop, for any byte and position 0..12 |
| EccScenarios.SingleBitSweep | hamming-emulator/ecctest.c:16-26 | the single-bit loop: position 0 reads PW_ERROR, and position p in 1..12 reads a single-bit error at p; each second read is NO_ERROR, except at position 0 for a byte whose pW is 1; for the test's byte 0xAB every second read is NO_ERROR, as the assert at line 25 demands |
| EccScenarios.FlipPairsAbove | hamming-emulator/ecctest.c:36-43 | with position i flipped, each further flip j > i reads DOUBLE_BIT_ERROR, 12 - i reads in all |
| EccScenarios.DoubleBitSweep | hamming-emulator/ecctest.c:29-44 | the double-bit loop makes 78 reads, and every one reports DOUBLE_BIT_ERROR |
| EccScenarios.ReadAfterWriteAll | hamming-emulator/ecctest.c:92-100 | after writing every offset, reading all MEM_SIZE locations gives NO_ERROR each time |
| EccScenarios.DemoCases | hamming-emulator/ecctest.c:50-86 | ecctest's cases 1-4 in sequence: a flip of position 3 of 0xAB reads a single-bit error at 3 and is clean after flipping back; likewise position 10 of 0x5A; a pW hit on 0xCC reads PW_ERROR; a flip of p1 of 0xAB reads a single-bit error at 1 |
| EccScenarios.QuizCases | hamming-emulator/quiz_6_test.c:10-36 | the four quiz cases give NO_ERROR, PW_ERROR, a single-bit error at 10 and DOUBLE_BIT_ERROR |
| Utilities.ShiftRight8 | assignment-4/lib/utilities.c:105-107 | `>> 8` on an int is division by 256 rounded down, negative values included |
| Utilities.ClampByte | assignment-4/lib/utilities.c:110-116 | the clipped value is in 0..255: unchanged inside that range, 255 above it, 0 below it |
| Utilities.ChannelRounds | assignment-4/lib/utilities.c:105-116 | a channel is its scaled sum divided by 256, rounded to nearest with halves upwards, saturated into 0..255 |
| Utilities.Yuv2Rgb | assignment-4/lib/utilities.c:97-121 | each of r, g and b is in 0..255 and is the rounded, saturated value of 298(y-16)+409(v-128), 298(y-16)-100(u-128)-208(v-128) and 298(y-16)+516(u-128) over 256 |
| Utilities.RoundsToUnique | assignment-4/lib/utilities.c:105-116 | that rounding specification determines each channel uniquely |
| Utilities.ChannelMonotone | assignment-4/lib/utilities.c:105-116 | a larger scaled sum never gives a smaller channel |
| Utilities.ChannelIndependence | assignment-4/lib/utilities.c:105-107 | r does not depend on u, and b does not depend on v |
| Utilities.MonotoneInY | assignment-4/lib/utilities.c:102-116 | with u and v fixed, each channel is non-decreasing in y |
| Utilities.NeutralChromaIsGrey | assignment-4/lib/utilities.c:102-107 | at u = v = 128 the three channels are equal |
| Utilities.LumaRangeIsFullRange | assignment-4/lib/utilities.c:102-116 | at neutral chroma, y = 16 gives black and y = 235 gives white, and 234 is not yet white |

## Modelling notes

- `read_byte` computes `pW2` from the data bits and the STORED `p1..p4` (ecclib.c:44-58). The fresh-encode variant survives only as the line commented as a bug at ecclib.c:43. `FreshPw2MisreadsParityFlip` shows that it would call a flipped `p1` a double-bit error, while the code as written reports it as a single-bit error at position 1.
- Syndromes 13..15 are reported, as the code does, as a single-bit error carrying the syndrome; `UNKNOWN_ERROR` is unreachable (ecclib.c:92-101). No single or double fault after a write is reported as a single-bit error at 13..15 (`ReadAfterSingleFlip`, `ReadAfterDoubleFlip`); a double fault can give such a syndrome, but it is then classified as a double-bit error.
- `ecclib.h` is not part of this model. Its constants are fixed as follows:
  - `P01_BIT..P04_BIT` = bits 0..3, `PW_BIT` = bit 4, `SYNBITS` = 0x0F;
  - `DATA_BIT_k` = bit k-1;
  - the encoded marker = 0x80 (any bit from 5 to 7 behaves the same);
  - `MEM_SIZE` = 256.
  - The numeric values of the status codes are replaced by the `Status` datatype. `Sbe(s)` stands for the syndrome value `s` that `read_byte` returns.
- An address is an offset into the two arrays. The C code computes it by pointer arithmetic and has no range check, so the methods require `offset < MemSize`.
- The memory before `enable_ecc_memory` is unspecified, so the scenario methods take its initial contents as a parameter.

## Left out

- Tracing and printing (`traceOn`, `traceOff`, `printTrace`, the `print_*` helpers, the `printf` calls in `read_byte` and `flip_bit`) are output only and change no state.
- `read_byte`'s `byteRead` out-parameter is never written by the C code, so the model's read returns only the status.
- `yuv2rgb_float`, `dump_ppm`, `dump_pgm` and the timing helpers of `utilities.c` are floating-point or file I/O. The capture programs and the thread, timer and scheduling demonstrations of the repository are not part of this model.
- Utilities.Yuv2Rgb: 32-bit `int` overflow is not modelled, because the sums are unbounded integers here. The C sums first overflow for inputs of about 2.6 million in magnitude (the blue sum `298*(y-16) + 516*(u-128) + 128` with y = u), far outside the byte-valued samples the capture code passes (capture.c:124-127).
- Utilities.ShiftRight8: right shift of a negative `int` is implementation-defined in C. It is modelled as the arithmetic shift that common compilers perform.
- ecctest.c runs all its loops and cases one after another on one memory, while each scenario method starts from a fresh one. This makes no difference, because every loop iteration and every case begins by writing the location it reads.

## Findings

| source | as written | input that shows it | evidently intended | confidence | as-written member | corrected member |
|---|---|---|---|---|---|---|
| hamming-emulator/ecclib.c:81 | on a pW error the codeword is repaired with `code \|= pW2 & PW_BIT`, which can set pW but never clear it | write 0xCC (pW 0), flip position 0, read: PW_ERROR; read again: still PW_ERROR, because pW stays 1 | "restore pW to PW2": pW becomes pW2 whichever way it points, so the next read is clean | high (proved; not executed) | EccProperties.PwRepairCounterexample | EccProperties.FixedRepairHeals |

With the code as written, the single-bit loop of `ecctest.c` passes at position 0 only because its test byte 0xAB has `pW` = 0.
- The OR repair then does nothing, and flipping back restores the written word.
- For a byte whose `pW` is 1, the second read of that round reports PW_ERROR (`SingleBitSweep`).
- With the corrected repair, the flip back after a healed `pW` would itself inject a fault, so that round would fail for 0xAB (`FixedRepairBreaksEcctestRound`).
