/**
 The 16-bit progress mask (src/daemon/mask.rs). The word is written out bit by bit, bit `i` at
 position `i`, so that `1 << idx` is the word with only position `idx` set; a shift by 16 or more,
 which overflows in the source, is ruled out.
 */
module Mask {

  const WIDTH: nat := 16
  const INDEX_BIT: nat := 15

  type Word = w: seq<bool> | |w| == WIDTH witness seq(WIDTH, i => false)

  /** `Mask::full`, all ones. */
  function Full(): Word { seq(WIDTH, i => true) }

  /** `1 << idx` */
  function SliceBit(idx: nat): Word
    requires idx < WIDTH
  {
    seq(WIDTH, i => i == idx)
  }

  function And(a: Word, b: Word): Word { seq(WIDTH, i requires 0 <= i < WIDTH => a[i] && b[i]) }

  function Or(a: Word, b: Word): Word { seq(WIDTH, i requires 0 <= i < WIDTH => a[i] || b[i]) }

  function Not(a: Word): Word { seq(WIDTH, i requires 0 <= i < WIDTH => !a[i]) }

  function SliceUnfetched(mask: Word, idx: nat): Word
    requires idx < WIDTH
  {
    And(mask, Not(SliceBit(idx)))
  }

  function SetFetched(mask: Word, idx: nat): Word
    requires idx < WIDTH
  {
    Or(mask, SliceBit(idx))
  }

  predicate IsSupersetOf(mask: Word, other: Word) {
    And(mask, other) == other
  }

  /** The positions that are set. */
  function Bits(mask: Word): set<nat> {
    set i: nat | i < WIDTH && mask[i]
  }

  lemma BitsOfUnfetched(mask: Word, idx: nat)
    requires idx < WIDTH
    ensures Bits(SliceUnfetched(mask, idx)) == Bits(mask) - {idx}
  {
  }

  lemma BitsOfFetched(mask: Word, idx: nat)
    requires idx < WIDTH
    ensures Bits(SetFetched(mask, idx)) == Bits(mask) + {idx}
  {
  }

  /** A mask is full exactly when every position is set. */
  lemma FullIsEverything(mask: Word)
    ensures mask == Full() <==> forall i: nat :: i < WIDTH ==> i in Bits(mask)
  {
    if forall i: nat :: i < WIDTH ==> i in Bits(mask) {
      forall i: nat | i < WIDTH ensures mask[i] == Full()[i] {
        assert i in Bits(mask);
      }
    }
  }

  /** The superset test on words is inclusion of the sets they stand for. */
  lemma SupersetIsInclusion(mask: Word, other: Word)
    ensures IsSupersetOf(mask, other) <==> Bits(other) <= Bits(mask)
  {
    if IsSupersetOf(mask, other) {
      forall i | i in Bits(other) ensures i in Bits(mask) {
        assert And(mask, other)[i];
      }
    }
    if Bits(other) <= Bits(mask) {
      forall i: nat | i < WIDTH ensures And(mask, other)[i] == other[i] {
        assert other[i] ==> i in Bits(other);
      }
    }
  }
}
