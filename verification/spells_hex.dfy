/**
 * Hex-spell bookkeeping (src/spell-realm/spells-hex.cpp). The spells being
 * chanted are the set bits of the player's word magic_num1[0], their count
 * is the byte magic_num2[0], a spell set to restart waits in magic_num1[1]
 * and the revenge accumulator is magic_num1[2].
 */
module SpellsHex {
  import opened FlagArray
  import opened CArith

  /** The most hex spells that can be chanted at once. */
  const MAX_KEEP: nat := 4

  /** The spell numbers a hex word can hold. */
  const MAX_REALM_SPELLS: nat := 32

  /** The player's current action, as far as hex chanting is concerned. */
  datatype Action = ActionNone | ActionSpell | ActionOther(code: int)

  // ---------------------------------------------------------------
  // Value-level view of the casting word

  /** is_spelling_specific: the first realm is hex and bit h of the casting word is set. */
  predicate Spelling(isHex: bool, flags: bv32, h: bv5)
  {
    isHex && WordHas(flags, h)
  }

  /** is_spelling_any: the first realm is hex and the casting word is not zero. */
  predicate SpellingAny(isHex: bool, flags: bv32)
  {
    isHex && flags != 0
  }

  /** Spell number h (below 32) is being chanted. */
  predicate Chanting(isHex: bool, flags: bv32, h: nat)
    requires h < MAX_REALM_SPELLS
  {
    Spelling(isHex, flags, h as bv5)
  }

  /** The spells being chanted from number s upward, in ascending order. */
  function SpellsFrom(isHex: bool, flags: bv32, s: nat): (r: seq<nat>)
    requires s <= MAX_REALM_SPELLS
    ensures forall k :: 0 <= k < |r| ==> s <= r[k] < MAX_REALM_SPELLS
    decreases MAX_REALM_SPELLS - s
  {
    if s == MAX_REALM_SPELLS then []
    else (if Chanting(isHex, flags, s) then [s] else []) + SpellsFrom(isHex, flags, s + 1)
  }

  /** The list the SpellHex constructor builds: every spell number being chanted. */
  function CastingSpells(isHex: bool, flags: bv32): seq<nat>
  {
    SpellsFrom(isHex, flags, 0)
  }

  /** The list is strictly ascending. */
  lemma {:induction false} SpellsAscending(isHex: bool, flags: bv32, s: nat)
    requires s <= MAX_REALM_SPELLS
    ensures forall i, j :: 0 <= i < j < |SpellsFrom(isHex, flags, s)| ==>
      SpellsFrom(isHex, flags, s)[i] < SpellsFrom(isHex, flags, s)[j]
    decreases MAX_REALM_SPELLS - s
  {
    if s < MAX_REALM_SPELLS {
      SpellsAscending(isHex, flags, s + 1);
    }
  }

  /** A spell number from s upward is listed exactly when it is being chanted. */
  lemma {:induction false} SpellsMembership(isHex: bool, flags: bv32, s: nat, h: nat)
    requires s <= MAX_REALM_SPELLS
    ensures h in SpellsFrom(isHex, flags, s) <==> s <= h < MAX_REALM_SPELLS && Chanting(isHex, flags, h)
    decreases MAX_REALM_SPELLS - s
  {
    if s < MAX_REALM_SPELLS {
      SpellsMembership(isHex, flags, s + 1, h);
    }
  }

  /** Outside the hex realm nothing is being chanted. */
  lemma {:induction false} NoSpellsOutsideHex(flags: bv32, s: nat)
    requires s <= MAX_REALM_SPELLS
    ensures SpellsFrom(false, flags, s) == []
    decreases MAX_REALM_SPELLS - s
  {
    if s < MAX_REALM_SPELLS {
      NoSpellsOutsideHex(flags, s + 1);
    }
  }

  /** A word that is not zero has a set bit. */
  lemma SomeBitSet(w: bv32) returns (b: bv5)
    requires w != 0
    ensures WordHas(w, b)
  {
    WordSplit(w);
    if w & 0x1 != 0 { b := 0; }
    else if w & 0x2 != 0 { b := 1; }
    else if w & 0x4 != 0 { b := 2; }
    else if w & 0x8 != 0 { b := 3; }
    else if w & 0x10 != 0 { b := 4; }
    else if w & 0x20 != 0 { b := 5; }
    else if w & 0x40 != 0 { b := 6; }
    else if w & 0x80 != 0 { b := 7; }
    else if w & 0x100 != 0 { b := 8; }
    else if w & 0x200 != 0 { b := 9; }
    else if w & 0x400 != 0 { b := 10; }
    else if w & 0x800 != 0 { b := 11; }
    else if w & 0x1000 != 0 { b := 12; }
    else if w & 0x2000 != 0 { b := 13; }
    else if w & 0x4000 != 0 { b := 14; }
    else if w & 0x8000 != 0 { b := 15; }
    else if w & 0x1_0000 != 0 { b := 16; }
    else if w & 0x2_0000 != 0 { b := 17; }
    else if w & 0x4_0000 != 0 { b := 18; }
    else if w & 0x8_0000 != 0 { b := 19; }
    else if w & 0x10_0000 != 0 { b := 20; }
    else if w & 0x20_0000 != 0 { b := 21; }
    else if w & 0x40_0000 != 0 { b := 22; }
    else if w & 0x80_0000 != 0 { b := 23; }
    else if w & 0x100_0000 != 0 { b := 24; }
    else if w & 0x200_0000 != 0 { b := 25; }
    else if w & 0x400_0000 != 0 { b := 26; }
    else if w & 0x800_0000 != 0 { b := 27; }
    else if w & 0x1000_0000 != 0 { b := 28; }
    else if w & 0x2000_0000 != 0 { b := 29; }
    else if w & 0x4000_0000 != 0 { b := 30; }
    else { b := 31; }
  }

  /** A word is zero exactly when each of its 32 single-bit masks misses it. */
  lemma WordSplit(w: bv32)
    ensures w == 0 <==>
      w & 0x1 == 0 && w & 0x2 == 0 && w & 0x4 == 0 && w & 0x8 == 0 &&
      w & 0x10 == 0 && w & 0x20 == 0 && w & 0x40 == 0 && w & 0x80 == 0 &&
      w & 0x100 == 0 && w & 0x200 == 0 && w & 0x400 == 0 && w & 0x800 == 0 &&
      w & 0x1000 == 0 && w & 0x2000 == 0 && w & 0x4000 == 0 && w & 0x8000 == 0 &&
      w & 0x1_0000 == 0 && w & 0x2_0000 == 0 && w & 0x4_0000 == 0 && w & 0x8_0000 == 0 &&
      w & 0x10_0000 == 0 && w & 0x20_0000 == 0 && w & 0x40_0000 == 0 && w & 0x80_0000 == 0 &&
      w & 0x100_0000 == 0 && w & 0x200_0000 == 0 && w & 0x400_0000 == 0 && w & 0x800_0000 == 0 &&
      w & 0x1000_0000 == 0 && w & 0x2000_0000 == 0 && w & 0x4000_0000 == 0 && w & 0x8000_0000 == 0
  {
  }

  /** is_spelling_any holds exactly when some single spell is being chanted. */
  lemma SpellingAnyMeaning(isHex: bool, flags: bv32)
    ensures SpellingAny(isHex, flags) <==> exists h: bv5 :: Spelling(isHex, flags, h)
  {
    if SpellingAny(isHex, flags) {
      var b := SomeBitSet(flags);
      assert Spelling(isHex, flags, b);
    } else if isHex {
      assert flags == 0;
      forall h: bv5
        ensures !Spelling(isHex, flags, h)
      {
        ZeroHasNone(h);
      }
    }
  }

  lemma ZeroHasNone(h: bv5)
    ensures !WordHas(0, h)
  {
  }

  /** After set_casting_flag(t), spell h is being chanted iff it was already or h is t (in the hex realm). */
  lemma SpellingAfterSet(isHex: bool, flags: bv32, t: bv5, h: bv5)
    ensures Spelling(isHex, SetBit(flags, t), h) <==> Spelling(isHex, flags, h) || (isHex && h == t)
  {
    SetBitHas(flags, t, h);
  }

  /** After reset_casting_flag(t), spell h is being chanted iff it was already and h is not t. */
  lemma SpellingAfterReset(isHex: bool, flags: bv32, t: bv5, h: bv5)
    ensures Spelling(isHex, ClearBit(flags, t), h) <==> Spelling(isHex, flags, h) && h != t
  {
    ClearBitHas(flags, t, h);
  }

  // ---------------------------------------------------------------
  // Pure rules on the counters

  /** The number of spells a caster of level lev may chant at once: lev / 15 + 1, at most MAX_KEEP. */
  function KeepLimit(lev: int): (k: int)
    ensures k <= MAX_KEEP
  {
    var kMax := CDiv(lev, 15) + 1;
    if kMax < MAX_KEEP then kMax else MAX_KEEP
  }

  /** The limit grows one step per 15 levels: 1 below level 15, 4 from level 45 on. */
  lemma KeepLimitSteps(lev: int)
    requires lev >= 0
    ensures lev < 15 ==> KeepLimit(lev) == 1
    ensures 15 <= lev < 30 ==> KeepLimit(lev) == 2
    ensures 30 <= lev < 45 ==> KeepLimit(lev) == 3
    ensures 45 <= lev ==> KeepLimit(lev) == MAX_KEEP
  {
  }

  /** A higher level never lowers the limit. */
  lemma KeepLimitMonotone(lev1: int, lev2: int)
    requires 0 <= lev1 <= lev2
    ensures KeepLimit(lev1) <= KeepLimit(lev2)
  {
  }

  /** magic_num2[0] after add_casting_num: the byte goes up or down by one, wrapping modulo 256. */
  function NextCastingNum(n: int, isIncremental: bool): (r: int)
    requires 0 <= n < 256
    ensures 0 <= r < 256
    ensures isIncremental && n < 255 ==> r == n + 1
    ensures !isIncremental && n > 0 ==> r == n - 1
    ensures isIncremental && n == 255 ==> r == 0
    ensures !isIncremental && n == 0 ==> r == 255
  {
    if isIncremental then (n + 1) % 256 else (n + 255) % 256
  }

  /** Counting a spell up and then down again restores the count, wrap included. */
  lemma CastingNumUndo(n: int)
    requires 0 <= n < 256
    ensures NextCastingNum(NextCastingNum(n, true), false) == n
    ensures NextCastingNum(NextCastingNum(n, false), true) == n
  {
  }

  /** The sum of the per-spell costs of a list of spells. */
  function SumCost(spells: seq<nat>, cost: nat -> int): int
  {
    if spells == [] then 0 else SumCost(spells[..|spells| - 1], cost) + cost(spells[|spells| - 1])
  }

  /** With no negative cost the sum is at least each single cost and never negative. */
  lemma {:induction false} SumCostBounds(spells: seq<nat>, cost: nat -> int)
    requires forall s :: s in spells ==> cost(s) >= 0
    ensures SumCost(spells, cost) >= 0
    ensures forall s :: s in spells ==> cost(s) <= SumCost(spells, cost)
  {
    if spells != [] {
      var init := spells[..|spells| - 1];
      assert forall s :: s in init ==> s in spells;
      SumCostBounds(init, cost);
    }
  }

  /** The mana process_mana_cost charges: a third of the spells' cost, plus one per spell beyond the first. */
  function ManaNeed(needMana: int, castingNum: int): int
  {
    CDiv(needMana, 3) + castingNum - 1
  }

  /** Each extra spell chanted at once costs one more mana point per turn. */
  lemma ManaNeedPerSpell(needMana: int, castingNum: int)
    ensures ManaNeed(needMana, castingNum + 1) == ManaNeed(needMana, castingNum) + 1
    ensures needMana >= 0 ==> ManaNeed(needMana, castingNum) == needMana / 3 + castingNum - 1
  {
  }

  /** The constructor's scan: push every spell number 0..31 being chanted, in turn. */
  method CollectSpells(isHex: bool, flags: bv32) returns (spells: seq<nat>)
    ensures spells == CastingSpells(isHex, flags)
  {
    spells := [];
    var spell := 0;
    while spell < MAX_REALM_SPELLS
      invariant 0 <= spell <= MAX_REALM_SPELLS
      invariant spells + SpellsFrom(isHex, flags, spell) == CastingSpells(isHex, flags)
    {
      var step := if Chanting(isHex, flags, spell) then [spell] else [];
      assert SpellsFrom(isHex, flags, spell) == step + SpellsFrom(isHex, flags, spell + 1);
      ConcatAssoc(spells, step, SpellsFrom(isHex, flags, spell + 1));
      spells := spells + step;
      spell := spell + 1;
    }
    assert spells + [] == spells;
  }

  lemma ConcatAssoc(a: seq<nat>, b: seq<nat>, c: seq<nat>)
    ensures a + (b + c) == (a + b) + c
  {
  }

  // ---------------------------------------------------------------
  // The player record fields the hex code reads and writes

  class Player {
    var isHex: bool         // realm1 == REALM_HEX
    var flags: bv32         // magic_num1[0]: the spells being chanted
    var restart: bv32       // magic_num1[1]: the spells to resume
    var revengePower: int   // magic_num1[2]
    var castingNum: int     // magic_num2[0], a byte
    var revengeTurn: int    // magic_num2[2], a byte
    var action: Action
    var csp: int
    var lev: int

    predicate Valid()
      reads this
    {
      0 <= castingNum < 256 && 0 <= revengeTurn < 256
    }

    constructor (isHex: bool, flags: bv32, castingNum: int, lev: int, csp: int)
      requires 0 <= castingNum < 256
      ensures Valid()
      ensures this.isHex == isHex && this.flags == flags && this.castingNum == castingNum
      ensures this.lev == lev && this.csp == csp
      ensures restart == 0 && revengePower == 0 && revengeTurn == 0 && action == ActionNone
    {
      this.isHex := isHex;
      this.flags := flags;
      this.restart := 0;
      this.revengePower := 0;
      this.castingNum := castingNum;
      this.revengeTurn := 0;
      this.action := ActionNone;
      this.csp := csp;
      this.lev := lev;
    }
  }

  class SpellHex {
    const player: Player
    var castingSpells: seq<nat>

    constructor Init(p: Player, spells: seq<nat>)
      ensures player == p && castingSpells == spells
    {
      player := p;
      castingSpells := spells;
    }

    /**
     * The SpellHex(player_ptr) constructor: list the spell numbers 0..31
     * being chanted, in ascending order; null stands for the exception
     * thrown when more than MAX_KEEP are found.
     */
    static method Create(p: Player) returns (h: SpellHex?)
      ensures h == null <==> |CastingSpells(p.isHex, p.flags)| > MAX_KEEP
      ensures h != null ==> fresh(h) && h.player == p && h.castingSpells == CastingSpells(p.isHex, p.flags)
    {
      var spells := CollectSpells(p.isHex, p.flags);
      if |spells| > MAX_KEEP {
        return null;
      }
      h := new SpellHex.Init(p, spells);
    }

    /** is_spelling_specific. */
    predicate IsSpellingSpecific(hex: bv5)
      reads this, player
    {
      Spelling(player.isHex, player.flags, hex)
    }

    /** is_spelling_any. */
    predicate IsSpellingAny()
      reads this, player
    {
      SpellingAny(player.isHex, player.flags)
    }

    /** is_casting_full_capacity: as many spells as the level allows are already chanted. */
    predicate IsCastingFullCapacity()
      reads this, player
    {
      player.castingNum >= KeepLimit(player.lev)
    }

    /** set_casting_flag: set exactly bit t of the casting word. */
    method SetCastingFlag(t: bv5)
      modifies player`flags
      ensures player.flags == SetBit(old(player.flags), t)
    {
      player.flags := player.flags | Bit(t);
    }

    /** reset_casting_flag: clear exactly bit t of the casting word. */
    method ResetCastingFlag(t: bv5)
      modifies player`flags
      ensures player.flags == ClearBit(old(player.flags), t)
    {
      player.flags := player.flags & !Bit(t);
    }

    /** add_casting_num: count one spell more or less. */
    method AddCastingNum(isIncremental: bool)
      requires player.Valid()
      modifies player`castingNum
      ensures player.Valid()
      ensures player.castingNum == NextCastingNum(old(player.castingNum), isIncremental)
    {
      if isIncremental {
        player.castingNum := (player.castingNum + 1) % 256;
      } else {
        player.castingNum := (player.castingNum + 255) % 256;
      }
    }

    /** set_revenge_power: replace the accumulator, or add to it. */
    method SetRevengePower(power: int, substitution: bool)
      modifies player`revengePower
      ensures player.revengePower == if substitution then power else old(player.revengePower) + power
    {
      if substitution {
        player.revengePower := power;
      } else {
        player.revengePower := player.revengePower + power;
      }
    }

    /** store_vengeful_damage: add dam to the accumulator while a hex revenge is running. */
    method StoreVengefulDamage(dam: int)
      modifies player`revengePower
      ensures player.revengePower ==
        if player.isHex && player.revengeTurn != 0 then old(player.revengePower) + dam else old(player.revengePower)
    {
      if !player.isHex || player.revengeTurn == 0 {
        return;
      }
      SetRevengePower(dam, false);
    }

    /** check_restart: move the spells waiting to resume into the casting word. */
    method CheckRestart() returns (restarted: bool)
      modifies player`flags, player`restart
      ensures restarted <==> old(player.restart) != 0
      ensures restarted ==> player.flags == old(player.restart) && player.restart == 0
      ensures !restarted ==> player.flags == old(player.flags) && player.restart == old(player.restart)
    {
      if player.restart == 0 {
        return false;
      }
      player.flags := player.restart;
      player.restart := 0;
      return true;
    }

    /** stop_all_spells: nothing is chanted any more, and a chanting action ends. */
    method StopAllSpells() returns (r: bool)
      requires player.Valid()
      modifies player`flags, player`castingNum, player`action
      ensures r && player.Valid()
      ensures player.flags == 0 && player.castingNum == 0
      ensures player.action == if old(player.action) == ActionSpell then ActionNone else old(player.action)
    {
      player.flags := 0;
      player.castingNum := 0;
      if player.action == ActionSpell {
        player.action := ActionNone;
      }
      return true;
    }

    /** calc_need_mana: the summed cost of the spells in the list, cost being mod_need_mana per spell. */
    method CalcNeedMana(cost: nat -> int) returns (needMana: int)
      ensures needMana == SumCost(castingSpells, cost)
    {
      needMana := 0;
      var i := 0;
      while i < |castingSpells|
        invariant 0 <= i <= |castingSpells|
        invariant needMana == SumCost(castingSpells[..i], cost)
      {
        assert castingSpells[..i + 1][..i] == castingSpells[..i];
        needMana := needMana + cost(castingSpells[i]);
        i := i + 1;
      }
      assert castingSpells[..i] == castingSpells;
    }

    /**
     * process_mana_cost: pay ManaNeed from the current mana, resuming the
     * chant when asked; with too little mana stop every spell and pay nothing.
     */
    method ProcessManaCost(needRestart: bool, cost: nat -> int) returns (enough: bool)
      requires player.Valid()
      modifies player`flags, player`castingNum, player`action, player`csp
      ensures player.Valid()
      ensures var need := ManaNeed(SumCost(castingSpells, cost), old(player.castingNum));
        (enough <==> old(player.csp) >= need) &&
        (enough ==> player.csp == old(player.csp) - need && player.flags == old(player.flags) &&
                    player.castingNum == old(player.castingNum) &&
                    player.action == if needRestart then ActionSpell else old(player.action)) &&
        (!enough ==> player.csp == old(player.csp) && player.flags == 0 && player.castingNum == 0 &&
                     player.action == if old(player.action) == ActionSpell then ActionNone else old(player.action))
    {
      var needMana := CalcNeedMana(cost);
      var need := CDiv(needMana, 3) + player.castingNum - 1;
      if player.csp < need {
        var _ := StopAllSpells();
        return false;
      }
      player.csp := player.csp - need;
      if needRestart {
        player.action := ActionSpell;
      }
      return true;
    }
  }
}
