/**
 * Flag arrays (src/defines.h): a flag set is an array of 32-bit words,
 * and flag number i lives in bit Pos(i) of word i / 32.
 */
module FlagArray {

  /** The single-bit mask `1 << b` of a 32-bit word. */
  function Bit(b: bv5): (m: bv32)
  {
    (1 as bv32) << (b as bv32)
  }

  /** Bit b of word w is set. */
  predicate WordHas(w: bv32, b: bv5)
  {
    w & Bit(b) != 0
  }

  /** Word w with bit b or-ed in. */
  function SetBit(w: bv32, b: bv5): bv32
  {
    w | Bit(b)
  }

  /** Word w with bit b masked off. */
  function ClearBit(w: bv32, b: bv5): bv32
  {
    w & !Bit(b)
  }

  /** The bit position of flag i within its word. */
  function Pos(i: nat): bv5
  {
    (i % 32) as bv5
  }

  /** have_flag(A, i): bit Pos(i) of word i / 32 is set. */
  predicate HaveFlag(flags: seq<bv32>, i: nat)
    requires i / 32 < |flags|
  {
    WordHas(flags[i / 32], Pos(i))
  }

  /** The set of flag numbers present: an independent view of the words. */
  function Flags(flags: seq<bv32>): set<nat>
  {
    set i: nat | i < 32 * |flags| && HaveFlag(flags, i)
  }

  /** The words after add_flag(A, i). */
  function WithFlag(flags: seq<bv32>, i: nat): (r: seq<bv32>)
    requires i / 32 < |flags|
    ensures |r| == |flags|
  {
    flags[i / 32 := SetBit(flags[i / 32], Pos(i))]
  }

  /** The words after remove_flag(A, i). */
  function WithoutFlag(flags: seq<bv32>, i: nat): (r: seq<bv32>)
    requires i / 32 < |flags|
    ensures |r| == |flags|
  {
    flags[i / 32 := ClearBit(flags[i / 32], Pos(i))]
  }

  /** add_flag: or the bit into its word in place. */
  method AddFlag(a: array<bv32>, i: nat)
    requires i / 32 < a.Length
    modifies a
    ensures a[..] == WithFlag(old(a[..]), i)
  {
    a[i / 32] := a[i / 32] | Bit(Pos(i));
  }

  /** remove_flag: clear the bit in its word in place. */
  method RemoveFlag(a: array<bv32>, i: nat)
    requires i / 32 < a.Length
    modifies a
    ensures a[..] == WithoutFlag(old(a[..]), i)
  {
    a[i / 32] := a[i / 32] & !Bit(Pos(i));
  }

  // ---------------------------------------------------------------
  // Single-word facts

  /** Distinct positions give disjoint masks. */
  lemma BitDistinct(b: bv5, c: bv5)
    requires b != c
    ensures Bit(b) & Bit(c) == 0
  {
  }

  /** Setting bit b sets it and leaves every other bit as it was. */
  lemma SetBitHas(w: bv32, b: bv5, c: bv5)
    ensures WordHas(SetBit(w, b), c) <==> WordHas(w, c) || b == c
  {
    if b == c {
      SetSame(w, b);
      assert WordHas(SetBit(w, b), c);
    } else {
      SetOther(w, b, c);
      assert WordHas(SetBit(w, b), c) == WordHas(w, c);
    }
  }

  lemma SetSame(w: bv32, b: bv5)
    ensures SetBit(w, b) & Bit(b) == Bit(b)
  {
  }

  lemma SetOther(w: bv32, b: bv5, c: bv5)
    requires b != c
    ensures SetBit(w, b) & Bit(c) == w & Bit(c)
  {
    BitDistinct(b, c);
  }

  /** Clearing bit b clears it and leaves every other bit as it was. */
  lemma ClearBitHas(w: bv32, b: bv5, c: bv5)
    ensures WordHas(ClearBit(w, b), c) <==> WordHas(w, c) && b != c
  {
    if b == c {
      ClearSame(w, b);
      assert !WordHas(ClearBit(w, b), c);
    } else {
      ClearOther(w, b, c);
      assert WordHas(ClearBit(w, b), c) == WordHas(w, c);
    }
  }

  lemma ClearSame(w: bv32, b: bv5)
    ensures ClearBit(w, b) & Bit(b) == 0
  {
  }

  lemma ClearOther(w: bv32, b: bv5, c: bv5)
    requires b != c
    ensures ClearBit(w, b) & Bit(c) == w & Bit(c)
  {
    BitDistinct(b, c);
  }

  /** Two flag numbers in the same word sit at different bits. */
  lemma SlotDistinct(i: nat, j: nat)
    requires i / 32 == j / 32 && i != j
    ensures Pos(i) != Pos(j)
  {
    assert i % 32 != j % 32;
    CastInjective(i % 32, j % 32);
  }

  lemma CastInjective(a: int, b: int)
    requires 0 <= a < 32 && 0 <= b < 32 && a != b
    ensures a as bv5 != b as bv5
  {
  }

  // ---------------------------------------------------------------
  // Properties of the macros

  /** After add_flag(A, i), have_flag(A, j) holds exactly for i and the flags already there. */
  lemma HaveAfterAdd(flags: seq<bv32>, i: nat, j: nat)
    requires i / 32 < |flags| && j / 32 < |flags|
    ensures HaveFlag(WithFlag(flags, i), j) <==> HaveFlag(flags, j) || j == i
  {
    var r := WithFlag(flags, i);
    if j / 32 == i / 32 {
      if j != i {
        SlotDistinct(i, j);
      }
      SetBitHas(flags[i / 32], Pos(i), Pos(j));
    } else {
      assert r[j / 32] == flags[j / 32];
    }
  }

  /** After remove_flag(A, i), have_flag(A, j) holds exactly for the other flags already there. */
  lemma HaveAfterRemove(flags: seq<bv32>, i: nat, j: nat)
    requires i / 32 < |flags| && j / 32 < |flags|
    ensures HaveFlag(WithoutFlag(flags, i), j) <==> HaveFlag(flags, j) && j != i
  {
    var r := WithoutFlag(flags, i);
    if j / 32 == i / 32 {
      if j != i {
        SlotDistinct(i, j);
      }
      ClearBitHas(flags[i / 32], Pos(i), Pos(j));
    } else {
      assert r[j / 32] == flags[j / 32];
    }
  }

  /** add_flag adds exactly i to the flag set. */
  lemma AddFlagSet(flags: seq<bv32>, i: nat)
    requires i / 32 < |flags|
    ensures Flags(WithFlag(flags, i)) == Flags(flags) + {i}
  {
    forall j: nat | j < 32 * |flags|
      ensures HaveFlag(WithFlag(flags, i), j) <==> HaveFlag(flags, j) || j == i
    {
      HaveAfterAdd(flags, i, j);
    }
  }

  /** remove_flag removes exactly i from the flag set. */
  lemma RemoveFlagSet(flags: seq<bv32>, i: nat)
    requires i / 32 < |flags|
    ensures Flags(WithoutFlag(flags, i)) == Flags(flags) - {i}
  {
    forall j: nat | j < 32 * |flags|
      ensures HaveFlag(WithoutFlag(flags, i), j) <==> HaveFlag(flags, j) && j != i
    {
      HaveAfterRemove(flags, i, j);
    }
  }

  /** Adding a flag twice has the effect of adding it once. */
  lemma AddIdempotent(flags: seq<bv32>, i: nat)
    requires i / 32 < |flags|
    ensures WithFlag(WithFlag(flags, i), i) == WithFlag(flags, i)
  {
  }

  /** Removing a flag that was just added gives the words without the flag. */
  lemma RemoveUndoesAdd(flags: seq<bv32>, i: nat)
    requires i / 32 < |flags|
    ensures WithoutFlag(WithFlag(flags, i), i) == WithoutFlag(flags, i)
  {
  }

  /** Adding a flag that is already present changes nothing. */
  lemma AddPresent(flags: seq<bv32>, i: nat)
    requires i / 32 < |flags| && HaveFlag(flags, i)
    ensures WithFlag(flags, i) == flags
  {
  }

  // ---------------------------------------------------------------
  // Flags with a numeric parameter

  // The object flag numbers of the two pval ranges (TR_STR..TR_MAGIC_MASTERY
  // and TR_STEALTH..TR_BLOWS), which sit in word 0.
  const TR_STR: nat := 0
  const TR_MAGIC_MASTERY: nat := 6
  const TR_STEALTH: nat := 8
  const TR_BLOWS: nat := 13

  /** The mask have_pval_flags tests word 0 against. */
  const PVAL_MASK: bv32 := 0x3f7f

  /** is_pval_flag(i): i lies in one of the two inclusive ranges. */
  predicate IsPvalFlag(i: int)
  {
    (TR_STR <= i <= TR_MAGIC_MASTERY) || (TR_STEALTH <= i <= TR_BLOWS)
  }

  /** have_pval_flags(A): word 0 meets the pval mask. */
  predicate HavePvalFlags(flags: seq<bv32>)
    requires 1 <= |flags|
  {
    flags[0] & PVAL_MASK != 0
  }

  /** The mask holds exactly the bits of the pval ranges. */
  lemma PvalMaskBits(b: bv5)
    ensures Bit(b) & PVAL_MASK == (if IsPvalFlag(b as int) then Bit(b) else 0)
  {
  }

  /** The pval mask is the union of the bits 0..6 and 8..13. */
  lemma MaskSplit(w: bv32)
    ensures w & PVAL_MASK == 0 <==>
      w & 0x1 == 0 && w & 0x2 == 0 && w & 0x4 == 0 && w & 0x8 == 0 && w & 0x10 == 0 &&
      w & 0x20 == 0 && w & 0x40 == 0 && w & 0x100 == 0 && w & 0x200 == 0 &&
      w & 0x400 == 0 && w & 0x800 == 0 && w & 0x1000 == 0 && w & 0x2000 == 0
  {
  }

  /** Some pval flag is present when word 0 meets the mask. */
  lemma PvalPresent(flags: seq<bv32>) returns (i: nat)
    requires 1 <= |flags| && HavePvalFlags(flags)
    ensures i < 32 && IsPvalFlag(i) && HaveFlag(flags, i)
  {
    var b := PvalBit(flags[0]);
    i := b as int;
    SmallIndex(i);
    assert Pos(i) == b;
  }

  /** A word meeting the pval mask has one of the mask's bits set. */
  lemma PvalBit(w: bv32) returns (b: bv5)
    requires w & PVAL_MASK != 0
    ensures IsPvalFlag(b as int) && WordHas(w, b)
  {
    MaskSplit(w);
    if w & 0x1 != 0 { b := 0; }
    else if w & 0x2 != 0 { b := 1; }
    else if w & 0x4 != 0 { b := 2; }
    else if w & 0x8 != 0 { b := 3; }
    else if w & 0x10 != 0 { b := 4; }
    else if w & 0x20 != 0 { b := 5; }
    else if w & 0x40 != 0 { b := 6; }
    else if w & 0x100 != 0 { b := 8; }
    else if w & 0x200 != 0 { b := 9; }
    else if w & 0x400 != 0 { b := 10; }
    else if w & 0x800 != 0 { b := 11; }
    else if w & 0x1000 != 0 { b := 12; }
    else { b := 13; }
  }

  /** No pval flag is present when word 0 misses the mask. */
  lemma PvalAbsent(flags: seq<bv32>, i: nat)
    requires 1 <= |flags| && !HavePvalFlags(flags) && i < 32 && IsPvalFlag(i)
    ensures !HaveFlag(flags, i)
  {
    SmallIndex(i);
    PvalMaskBits(Pos(i));
    MaskInside(flags[0], Bit(Pos(i)));
  }

  /** Flags 0..31 live in word 0. */
  lemma SmallIndex(i: nat)
    requires i < 32
    ensures i / 32 == 0 && Pos(i) as int == i
  {
  }

  lemma MaskInside(w: bv32, m: bv32)
    requires w & PVAL_MASK == 0 && m & PVAL_MASK == m
    ensures w & m == 0
  {
  }

  /** have_pval_flags holds iff some pval flag is present. */
  lemma HavePvalFlagsMeaning(flags: seq<bv32>)
    requires 1 <= |flags|
    ensures HavePvalFlags(flags) <==> exists i: nat :: i < 32 && IsPvalFlag(i) && HaveFlag(flags, i)
  {
    if HavePvalFlags(flags) {
      var b := PvalPresent(flags);
    } else {
      forall i: nat | i < 32 && IsPvalFlag(i)
        ensures !HaveFlag(flags, i)
      {
        PvalAbsent(flags, i);
      }
    }
  }
}
