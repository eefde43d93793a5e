/** The genetic combination used when two kitties are bred: each bit of the
    child's 16-byte DNA is taken from the first parent where the selector bit
    is 1 and from the second parent where it is 0. */
module Genetics {

  const DNA_LENGTH: nat := 16

  /** A kitty's DNA, `[u8; 16]`. */
  type Dna = s: seq<bv8> | |s| == DNA_LENGTH witness seq(16, _ => 0 as bv8)

  /** Bit `k` (0 is the least significant) of a byte. */
  predicate Bit(x: bv8, k: bv8)
    requires k < 8
  {
    (x >> k) & 1 == 1
  }

  /** The per-byte formula of the breeding loop. */
  function MixByte(a: bv8, b: bv8, selector: bv8): bv8 {
    (a & selector) | (b & !selector)
  }

  /** Each bit of a mixed byte is the selected parent's bit. */
  lemma MixByteBit(a: bv8, b: bv8, selector: bv8, k: bv8)
    requires k < 8
    ensures Bit(MixByte(a, b, selector), k) == if Bit(selector, k) then Bit(a, k) else Bit(b, k)
  {
  }

  /** The child's DNA as a value: the byte formula applied position by position. */
  function Mix(dna1: Dna, dna2: Dna, selector: Dna): (child: Dna)
    ensures forall i: int, k: bv8 :: 0 <= i < DNA_LENGTH && k < 8 ==>
      Bit(child[i], k) == if Bit(selector[i], k) then Bit(dna1[i], k) else Bit(dna2[i], k)
  {
    var child: Dna := seq(DNA_LENGTH, i requires 0 <= i < DNA_LENGTH => MixByte(dna1[i], dna2[i], selector[i]));
    forall i: int, k: bv8 | 0 <= i < DNA_LENGTH && k < 8
      ensures Bit(child[i], k) == if Bit(selector[i], k) then Bit(dna1[i], k) else Bit(dna2[i], k)
    {
      MixByteBit(dna1[i], dna2[i], selector[i], k);
    }
    child
  }

  /** The breeding loop: fills a fresh 16-byte buffer, position by position,
      with the mixed bytes of the two parents. */
  method MixDna(dna1: Dna, dna2: Dna, selector: Dna) returns (newDna: Dna)
    ensures newDna == Mix(dna1, dna2, selector)
  {
    var buffer := new bv8[DNA_LENGTH];
    for i := 0 to DNA_LENGTH
      invariant forall j :: 0 <= j < i ==> buffer[j] == MixByte(dna1[j], dna2[j], selector[j])
    {
      buffer[i] := MixByte(dna1[i], dna2[i], selector[i]);
    }
    newDna := buffer[..];
  }

  /** The selector that takes every bit from the first parent. */
  const ALL_ONES: Dna := seq(DNA_LENGTH, _ => 0xFF as bv8)

  /** The selector that takes every bit from the second parent. */
  const ALL_ZEROS: Dna := seq(DNA_LENGTH, _ => 0 as bv8)

  /** The bitwise complement of a selector. */
  function Complement(selector: Dna): (r: Dna)
    ensures forall i :: 0 <= i < DNA_LENGTH ==> r[i] & selector[i] == 0 && r[i] | selector[i] == 0xFF
  {
    seq(DNA_LENGTH, i requires 0 <= i < DNA_LENGTH => !selector[i])
  }

  /** Two parents with the same DNA have a child with that DNA, whatever the selector. */
  lemma MixSameParents(dna: Dna, selector: Dna)
    ensures Mix(dna, dna, selector) == dna
  {
  }

  /** An all-ones selector reproduces the first parent. */
  lemma MixAllOnes(dna1: Dna, dna2: Dna)
    ensures Mix(dna1, dna2, ALL_ONES) == dna1
  {
  }

  /** An all-zeros selector reproduces the second parent. */
  lemma MixAllZeros(dna1: Dna, dna2: Dna)
    ensures Mix(dna1, dna2, ALL_ZEROS) == dna2
  {
  }

  /** Swapping the parents has the same effect as complementing the selector. */
  lemma MixSwapParents(dna1: Dna, dna2: Dna, selector: Dna)
    ensures Mix(dna2, dna1, selector) == Mix(dna1, dna2, Complement(selector))
  {
  }

  /** Breeding is not commutative: swapping the parents leaves the child
      unchanged exactly when the parents have the same DNA. */
  lemma MixCommutesIffSameParents(dna1: Dna, dna2: Dna, selector: Dna)
    ensures Mix(dna1, dna2, selector) == Mix(dna2, dna1, selector) <==> dna1 == dna2
  {
    var child, swapped := Mix(dna1, dna2, selector), Mix(dna2, dna1, selector);
    if child == swapped {
      forall i | 0 <= i < DNA_LENGTH ensures dna1[i] == dna2[i] {
        assert child[i] == swapped[i];
        MixByteCommutes(dna1[i], dna2[i], selector[i]);
      }
    }
  }

  lemma MixByteCommutes(a: bv8, b: bv8, selector: bv8)
    ensures MixByte(a, b, selector) == MixByte(b, a, selector) <==> a == b
  {
  }
}
