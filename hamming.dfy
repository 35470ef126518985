/** The textbook definition of an extended Hamming code over a word of bits,
    independent of any bit arithmetic: the syndrome is the XOR of the positions
    holding a 1, and the overall parity is the XOR of all bits. A word is a
    codeword when both are zero. With four check bits the positions are 0..15,
    position 0 being the overall parity bit, which the syndrome does not see. */
module Hamming {

  /** XOR of the positions i, from <= i < |w|, at which w holds a 1. */
  function PositionXor(w: seq<bool>, from: nat): bv8
    requires from <= |w| <= 16
    decreases |w| - from
  {
    if from == |w| then 0
    else (if w[from] then from as bv8 else 0) ^ PositionXor(w, from + 1)
  }

  /** XOR of the bits w[i], from <= i < |w|. */
  function ParityFrom(w: seq<bool>, from: nat): bool
    requires from <= |w|
    decreases |w| - from
  {
    if from == |w| then false
    else w[from] != ParityFrom(w, from + 1)
  }

  function Syndrome(w: seq<bool>): bv8
    requires |w| <= 16
  {
    PositionXor(w, 0)
  }

  predicate OddParity(w: seq<bool>)
  {
    ParityFrom(w, 0)
  }

  predicate IsCodeword(w: seq<bool>)
  {
    |w| <= 16 && Syndrome(w) == 0 && !OddParity(w)
  }

  function Flip(w: seq<bool>, p: nat): (r: seq<bool>)
    requires p < |w|
  {
    w[p := !w[p]]
  }

  /** Toggling the bit at position p toggles p into the syndrome (when p is counted). */
  lemma {:induction false} PositionXorFlip(w: seq<bool>, p: nat, from: nat)
    requires p < |w| && from <= |w| <= 16
    ensures PositionXor(Flip(w, p), from)
            == if from <= p then PositionXor(w, from) ^ (p as bv8) else PositionXor(w, from)
    decreases |w| - from
  {
    if from < |w| {
      PositionXorFlip(w, p, from + 1);
    }
  }

  /** Toggling one counted bit toggles the parity. */
  lemma {:induction false} ParityFlip(w: seq<bool>, p: nat, from: nat)
    requires p < |w| && from <= |w|
    ensures ParityFrom(Flip(w, p), from)
            == if from <= p then !ParityFrom(w, from) else ParityFrom(w, from)
    decreases |w| - from
  {
    if from < |w| {
      ParityFlip(w, p, from + 1);
    }
  }

  /** One flipped bit of a codeword: the syndrome names its position and the
      overall parity is odd. */
  lemma SingleErrorLocated(w: seq<bool>, p: nat)
    requires IsCodeword(w) && p < |w|
    ensures Syndrome(Flip(w, p)) == p as bv8
    ensures OddParity(Flip(w, p))
  {
    PositionXorFlip(w, p, 0);
    ParityFlip(w, p, 0);
  }

  /** Two distinct flipped bits of a codeword: the syndrome is the XOR of the
      two positions, which is not zero, and the overall parity is even. */
  lemma DoubleErrorDetected(w: seq<bool>, i: nat, j: nat)
    requires IsCodeword(w) && i < |w| && j < |w| && i != j
    ensures Syndrome(Flip(Flip(w, i), j)) == (i as bv8) ^ (j as bv8) != 0
    ensures !OddParity(Flip(Flip(w, i), j))
  {
    var w1 := Flip(w, i);
    PositionXorFlip(w, i, 0);
    ParityFlip(w, i, 0);
    PositionXorFlip(w1, j, 0);
    ParityFlip(w1, j, 0);
  }
}
