/**
 * Monster-table helpers (src/monster/monster2.c): the target fields, the
 * free-slot allocator m_pop, the count of adjacent monsters, learning of the
 * player's resistances by smart monsters, the pain message tier and the cap
 * on a new monster's speed.
 */
module Monster2 {

  import opened CArith

  // ---------------------------------------------------------------
  // The monster record fields this core touches

  /** The resistance kinds monsters can learn about. */
  datatype Kind =
    | Acid | Elec | Fire | Cold | Pois
    | Neth | Lite | Dark | Fear | Conf | Chaos | Disen | Blind | Nexus | Sound | Shard

  /** The SM_* bits of a monster's `smart` field. */
  datatype SmartFlag =
    | SmRes(kind: Kind)   // SM_RES_*
    | SmOpp(kind: Kind)   // SM_OPP_*
    | SmImm(kind: Kind)   // SM_IMM_* for the four base elements
    | SmImmFree
    | SmImmMana
    | SmImmReflect

  /** A monster's target square and learned flags. */
  class Monster {
    var targetY: int
    var targetX: int
    var smart: set<SmartFlag>

    constructor (smart0: set<SmartFlag>)
      ensures targetY == 0 && targetX == 0 && smart == smart0
    {
      targetY := 0;
      targetX := 0;
      smart := smart0;
    }

    /** set_target: aim at (y, x). */
    method SetTarget(y: int, x: int)
      modifies this
      ensures targetY == y && targetX == x
      ensures smart == old(smart)
    {
      targetY := y;
      targetX := x;
    }

    /** reset_target: the target becomes (0, 0). */
    method ResetTarget()
      modifies this
      ensures targetY == 0 && targetX == 0
      ensures smart == old(smart)
    {
      SetTarget(0, 0);
    }
  }

  // ---------------------------------------------------------------
  // m_pop

  /** The first index in [lo, hi) whose race index is 0, or hi if there is none. */
  function FirstFree(rIdx: seq<int>, lo: nat, hi: nat): (r: nat)
    requires lo <= hi <= |rIdx|
    ensures lo <= r <= hi
    decreases hi - lo
  {
    if lo == hi then hi
    else if rIdx[lo] == 0 then lo
    else FirstFree(rIdx, lo + 1, hi)
  }

  /** FirstFree finds the least free slot, and hi only when every slot in range is in use. */
  lemma {:induction false} FirstFreeLeast(rIdx: seq<int>, lo: nat, hi: nat)
    requires lo <= hi <= |rIdx|
    ensures FirstFree(rIdx, lo, hi) < hi ==> rIdx[FirstFree(rIdx, lo, hi)] == 0
    ensures forall j :: lo <= j < FirstFree(rIdx, lo, hi) ==> rIdx[j] != 0
    decreases hi - lo
  {
    if lo < hi && rIdx[lo] != 0 {
      FirstFreeLeast(rIdx, lo + 1, hi);
    }
  }

  /** The slot m_pop hands out, given m_max and max_m_idx; 0 when the table is full. */
  function PopSlot(rIdx: seq<int>, mMax: nat, maxMIdx: int): nat
    requires mMax <= |rIdx|
  {
    if mMax < maxMIdx then mMax
    else if 1 <= mMax && FirstFree(rIdx, 1, mMax) < mMax then FirstFree(rIdx, 1, mMax)
    else 0
  }

  /** The slot m_pop returns is never in use, and 0 is returned only when no slot is free. */
  lemma PopSlotFree(rIdx: seq<int>, mMax: nat, maxMIdx: int)
    requires mMax <= |rIdx|
    ensures mMax >= maxMIdx && PopSlot(rIdx, mMax, maxMIdx) != 0 ==>
      1 <= PopSlot(rIdx, mMax, maxMIdx) < mMax && rIdx[PopSlot(rIdx, mMax, maxMIdx)] == 0
    ensures mMax >= maxMIdx && PopSlot(rIdx, mMax, maxMIdx) == 0 ==>
      forall j :: 1 <= j < mMax ==> rIdx[j] != 0
    ensures mMax >= maxMIdx ==>
      forall j :: 1 <= j < PopSlot(rIdx, mMax, maxMIdx) ==> rIdx[j] != 0
  {
    if 1 <= mMax {
      FirstFreeLeast(rIdx, 1, mMax);
    }
  }

  /** The monster table of a floor: the race index of each slot, m_max and m_cnt. */
  class Floor {
    const rIdx: array<int>
    var mMax: nat
    var mCnt: int

    predicate Valid()
      reads this
    {
      mMax <= rIdx.Length
    }

    constructor (slots: nat)
      ensures Valid() && fresh(rIdx) && rIdx.Length == slots
      ensures mMax == 1 <= slots || (mMax == 0 && slots == 0)
      ensures mCnt == 0
    {
      rIdx := new int[slots](_ => 0);
      mMax := if slots >= 1 then 1 else 0;
      mCnt := 0;
    }

    /**
     * m_pop: take a fresh slot while m_max is below max_m_idx, else
     * recycle the first dead slot in [1, m_max), else fail with 0.
     */
    method MPop(maxMIdx: int) returns (i: nat)
      requires Valid() && maxMIdx <= rIdx.Length
      modifies this
      ensures Valid()
      ensures i == PopSlot(rIdx[..], old(mMax), maxMIdx)
      ensures old(mMax) < maxMIdx ==> mMax == old(mMax) + 1 && mCnt == old(mCnt) + 1
      ensures old(mMax) >= maxMIdx && i != 0 ==> mMax == old(mMax) && mCnt == old(mCnt) + 1
      ensures old(mMax) >= maxMIdx && i == 0 ==> mMax == old(mMax) && mCnt == old(mCnt)
    {
      if mMax < maxMIdx {
        i := mMax;
        mMax := mMax + 1;
        mCnt := mCnt + 1;
        return;
      }
      var k := 1;
      while k < mMax
        invariant 1 <= k && (mMax >= 1 ==> k <= mMax)
        invariant mMax >= 1 ==> FirstFree(rIdx[..], 1, mMax) == FirstFree(rIdx[..], k, mMax)
        invariant mMax == old(mMax) && mCnt == old(mCnt)
      {
        if rIdx[k] == 0 {
          mCnt := mCnt + 1;
          i := k;
          return;
        }
        k := k + 1;
      }
      i := 0;
    }
  }

  // ---------------------------------------------------------------
  // get_monster_crowd_number

  /**
   * How many of the first n offsets around (my, mx) land on an in-bounds
   * square holding a monster.
   */
  function CrowdCount(my: int, mx: int, ddy: seq<int>, ddx: seq<int>,
                      inBounds: (int, int) -> bool, occupied: (int, int) -> bool, n: nat): int
    requires n <= |ddy| && n <= |ddx|
  {
    if n == 0 then 0
    else
      var y := my + ddy[n - 1];
      var x := mx + ddx[n - 1];
      CrowdCount(my, mx, ddy, ddx, inBounds, occupied, n - 1) +
        (if inBounds(y, x) && occupied(y, x) then 1 else 0)
  }

  /** The crowd over n offsets lies between 0 and n, and is 0 when no in-bounds square is occupied. */
  lemma {:induction false} CrowdCountBounds(my: int, mx: int, ddy: seq<int>, ddx: seq<int>,
                                            inBounds: (int, int) -> bool, occupied: (int, int) -> bool, n: nat)
    requires n <= |ddy| && n <= |ddx|
    ensures 0 <= CrowdCount(my, mx, ddy, ddx, inBounds, occupied, n) <= n
    ensures (forall i :: 0 <= i < n ==> !(inBounds(my + ddy[i], mx + ddx[i]) && occupied(my + ddy[i], mx + ddx[i]))) ==>
      CrowdCount(my, mx, ddy, ddx, inBounds, occupied, n) == 0
    ensures (forall i :: 0 <= i < n ==> inBounds(my + ddy[i], mx + ddx[i]) && occupied(my + ddy[i], mx + ddx[i])) ==>
      CrowdCount(my, mx, ddy, ddx, inBounds, occupied, n) == n
  {
    if n > 0 {
      CrowdCountBounds(my, mx, ddy, ddx, inBounds, occupied, n - 1);
    }
  }

  /**
   * get_monster_crowd_number: count the occupied in-bounds squares at the
   * first seven offsets of ddy_ddd / ddx_ddd around the monster at (my, mx).
   */
  method GetMonsterCrowdNumber(my: int, mx: int, ddy: seq<int>, ddx: seq<int>,
                               inBounds: (int, int) -> bool, occupied: (int, int) -> bool)
    returns (count: int)
    requires |ddy| >= 7 && |ddx| >= 7
    ensures count == CrowdCount(my, mx, ddy, ddx, inBounds, occupied, 7)
    ensures 0 <= count <= 7
  {
    count := 0;
    var i := 0;
    while i < 7
      invariant 0 <= i <= 7
      invariant count == CrowdCount(my, mx, ddy, ddx, inBounds, occupied, i)
    {
      var ay := my + ddy[i];
      var ax := mx + ddx[i];
      if inBounds(ay, ax) && occupied(ay, ax) {
        count := count + 1;
      }
      i := i + 1;
    }
    CrowdCountBounds(my, mx, ddy, ddx, inBounds, occupied, 7);
  }

  // ---------------------------------------------------------------
  // update_smart_learn

  /** The DRS_* kinds of observed resistance. */
  datatype Drs = DrsKind(kind: Kind) | DrsFree | DrsMana | DrsReflect | DrsOther

  /** The player's defences as update_smart_learn reads them. */
  datatype Defences = Defences(resist: set<Kind>, oppose: set<Kind>, immune: set<Kind>,
                               freeAct: bool, msp: int, reflect: bool)

  predicate BaseElement(k: Kind)
  {
    k == Acid || k == Elec || k == Fire || k == Cold
  }

  /** The kinds with a temporary (oppose) resistance: the base elements and poison. */
  predicate Opposable(k: Kind)
  {
    BaseElement(k) || k == Pois
  }

  /** SM flag f is about the observed kind what. */
  predicate Concerns(f: SmartFlag, what: Drs)
  {
    match f
    case SmRes(k) => what == DrsKind(k)
    case SmOpp(k) => what == DrsKind(k) && Opposable(k)
    case SmImm(k) => what == DrsKind(k) && BaseElement(k)
    case SmImmFree => what == DrsFree
    case SmImmMana => what == DrsMana
    case SmImmReflect => what == DrsReflect
  }

  /** The player really has the defence flag f stands for. */
  predicate Holds(p: Defences, f: SmartFlag)
  {
    match f
    case SmRes(k) => k in p.resist
    case SmOpp(k) => k in p.oppose
    case SmImm(k) => k in p.immune
    case SmImmFree => p.freeAct
    case SmImmMana => p.msp == 0
    case SmImmReflect => p.reflect
  }

  /** The flags one observation of what teaches, case by case as the switch does. */
  function Learned(what: Drs, p: Defences): set<SmartFlag>
  {
    match what
    case DrsKind(k) =>
      (if k in p.resist then {SmRes(k)} else {}) +
      (if Opposable(k) && k in p.oppose then {SmOpp(k)} else {}) +
      (if BaseElement(k) && k in p.immune then {SmImm(k)} else {})
    case DrsFree => if p.freeAct then {SmImmFree} else {}
    case DrsMana => if p.msp == 0 then {SmImmMana} else {}
    case DrsReflect => if p.reflect then {SmImmReflect} else {}
    case DrsOther => {}
  }

  /** A flag is learned exactly when it is about the observation and the player has that defence. */
  lemma LearnedExactly(what: Drs, p: Defences, f: SmartFlag)
    ensures f in Learned(what, p) <==> Concerns(f, what) && Holds(p, f)
  {
  }

  /** Whether learning happens at all: the option, the race's wits and, for a non-smart race, a coin. */
  predicate LearnsNow(smartLearn: bool, stupid: bool, smartRace: bool, roll: nat)
  {
    smartLearn && !stupid && !(!smartRace && roll < 50)
  }

  /**
   * update_smart_learn: when learning happens, or in the flags of the
   * observed kind that the player has; roll is randint0(100).
   */
  method UpdateSmartLearn(m: Monster, what: Drs, p: Defences,
                          smartLearn: bool, stupid: bool, smartRace: bool, roll: nat)
    requires roll < 100
    modifies m
    ensures m.smart == if LearnsNow(smartLearn, stupid, smartRace, roll)
                       then old(m.smart) + Learned(what, p) else old(m.smart)
    ensures m.targetY == old(m.targetY) && m.targetX == old(m.targetX)
  {
    if !smartLearn {
      return;
    }
    if stupid {
      return;
    }
    if !smartRace && roll < 50 {
      return;
    }
    match what {
      case DrsKind(k) =>
        if k in p.resist {
          m.smart := m.smart + {SmRes(k)};
        }
        if Opposable(k) && k in p.oppose {
          m.smart := m.smart + {SmOpp(k)};
        }
        if BaseElement(k) && k in p.immune {
          m.smart := m.smart + {SmImm(k)};
        }
      case DrsFree =>
        if p.freeAct {
          m.smart := m.smart + {SmImmFree};
        }
      case DrsMana =>
        if p.msp == 0 {
          m.smart := m.smart + {SmImmMana};
        }
      case DrsReflect =>
        if p.reflect {
          m.smart := m.smart + {SmImmReflect};
        }
      case DrsOther =>
    }
  }

  /** Learning never forgets: the flags after an update include those before. */
  lemma LearningMonotone(before: set<SmartFlag>, what: Drs, p: Defences, learns: bool)
    ensures before <= (if learns then before + Learned(what, p) else before)
  {
  }

  /** Only true facts are learned: every flag added is a defence the player has. */
  lemma LearningSound(before: set<SmartFlag>, what: Drs, p: Defences, learns: bool)
    ensures forall f :: f in (if learns then before + Learned(what, p) else before) && f !in before ==> Holds(p, f)
  {
    forall f | f in Learned(what, p)
      ensures Holds(p, f)
    {
      LearnedExactly(what, p, f);
    }
  }

  // ---------------------------------------------------------------
  // message_pain

  /** The display characters of the monster groups with their own pain wording, in the order tested. */
  const PAIN_GROUP_CHARS: seq<string> :=
    [",ejmvwQ", "l", "g#+<>", "JMR", "f", "acFIKS", "B", "duDLUW", "s", "z", "G", "CZ", "Xbilqrt"]

  /** The group used when no listed group matches. */
  const DEFAULT_PAIN_GROUP: nat := 13

  predicate IsAlpha(c: char)
  {
    'a' <= c <= 'z' || 'A' <= c <= 'Z'
  }

  /** Group g's test: its characters, and for group 3 also every non-letter. */
  predicate GroupMatches(d: char, g: nat)
    requires g < |PAIN_GROUP_CHARS|
  {
    d in PAIN_GROUP_CHARS[g] || (g == 3 && !IsAlpha(d))
  }

  /** The wording group of a monster with display character d, tested in source order. */
  function PainGroup(d: char): nat
  {
    if d in ",ejmvwQ" then 0
    else if d in "l" then 1
    else if d in "g#+<>" then 2
    else if d in "JMR" || !IsAlpha(d) then 3
    else if d in "f" then 4
    else if d in "acFIKS" then 5
    else if d in "B" then 6
    else if d in "duDLUW" then 7
    else if d in "s" then 8
    else if d in "z" then 9
    else if d in "G" then 10
    else if d in "CZ" then 11
    else if d in "Xbilqrt" then 12
    else DEFAULT_PAIN_GROUP
  }

  /** The group chosen is the first whose test matches, or the default when none does. */
  lemma PainGroupFirstMatch(d: char)
    ensures PainGroup(d) <= DEFAULT_PAIN_GROUP
    ensures PainGroup(d) < DEFAULT_PAIN_GROUP ==> GroupMatches(d, PainGroup(d))
    ensures forall g :: 0 <= g < PainGroup(d) && g < |PAIN_GROUP_CHARS| ==> !GroupMatches(d, g)
  {
  }

  /** 'l' is listed in the last group too, but the earlier "l" group always wins. */
  lemma TreeGroupShadows()
    ensures GroupMatches('l', 12) && PainGroup('l') == 1
  {
  }

  /** The tier thresholds, strongest reaction last: above 95, 75, 50, 35, 20, 10. */
  const PAIN_THRESHOLDS: seq<int> := [95, 75, 50, 35, 20, 10]

  /** The message tier of a remaining-health percentage: 0 barely hurt, 6 nearly dead. */
  function PainTier(percentage: int): nat
  {
    if percentage > 95 then 0
    else if percentage > 75 then 1
    else if percentage > 50 then 2
    else if percentage > 35 then 3
    else if percentage > 20 then 4
    else if percentage > 10 then 5
    else 6
  }

  /** Tier t covers exactly the percentages above threshold t and not above threshold t - 1. */
  lemma PainTierInterval(percentage: int, t: nat)
    requires t <= 6
    ensures PainTier(percentage) == t <==>
      (t == 0 || percentage <= PAIN_THRESHOLDS[t - 1]) && (t == 6 || percentage > PAIN_THRESHOLDS[t])
  {
  }

  /** More health left never gives a more severe tier. */
  lemma PainTierMonotone(p: int, q: int)
    requires p <= q
    ensures PainTier(q) <= PainTier(p)
  {
  }

  /** The outcome of message_pain: unharmed, or a group's wording at a tier. */
  datatype PainMessage = Unharmed | Pain(group: nat, tier: nat)

  /** message_pain: no damage is "unharmed"; else the percentage of health left picks the tier. */
  function MessagePain(hp: int, dam: int, d: char): (r: PainMessage)
    requires dam == 0 || hp + dam != 0
    ensures r == Unharmed <==> dam == 0
  {
    if dam == 0 then Unharmed
    else
      var percentage := CDiv(hp * 100, hp + dam);
      Pain(PainGroup(d), PainTier(percentage))
  }

  /** A hit that leaves more than 96% of the health is tier 0; one that leaves under 11% is tier 6. */
  lemma MessagePainEnds(hp: int, dam: int, d: char)
    requires dam > 0 && hp >= 0
    ensures MessagePain(hp, dam, d).tier == PainTier(hp * 100 / (hp + dam))
    ensures hp * 100 > 96 * (hp + dam) ==> MessagePain(hp, dam, d).tier == 0
    ensures hp * 100 < 11 * (hp + dam) ==> MessagePain(hp, dam, d).tier == 6
  {
    var n := hp * 100;
    var den := hp + dam;
    var q := n / den;
    if n > 96 * den {
      QuotientAbove(n, den, 95);
    }
    if n < 11 * den {
      QuotientBelow(n, den, 11);
    }
  }

  /** n > (k + 1) * den forces n / den > k. */
  lemma QuotientAbove(n: int, den: int, k: int)
    requires den > 0 && n >= 0 && k >= 0 && n > (k + 1) * den
    ensures n / den > k
  {
    var q := n / den;
    if q <= k {
      MulMono(q + 1, k + 1, den);
    }
  }

  /** n < k * den forces n / den < k. */
  lemma QuotientBelow(n: int, den: int, k: int)
    requires den > 0 && n >= 0 && k >= 0 && n < k * den
    ensures n / den < k
  {
    var q := n / den;
    if q >= k {
      MulMono(k, q, den);
    }
  }

  lemma MulMono(x: int, y: int, c: int)
    requires x <= y && c >= 0
    ensures x * c <= y * c
  {
    assert y * c - x * c == (y - x) * c;
  }

  // ---------------------------------------------------------------
  // get_mspeed

  /** The highest speed a new monster can get. */
  const MAX_MSPEED: int := 199

  /**
   * get_mspeed: a race that is not unique, outside the arena, varies by
   * spread, a draw of rand_spread(0, i) with i the race's energy divided by
   * 3 (one time in four) or 10; the result is capped at 199.
   */
  function MSpeed(speed: int, unique: bool, insideArena: bool, energy: int, oneIn4: bool, spread: int): (r: int)
    ensures r <= MAX_MSPEED
    ensures unique || insideArena || CDiv(energy, if oneIn4 then 3 else 10) == 0 ==>
      r == if speed > MAX_MSPEED then MAX_MSPEED else speed
  {
    var i := if !unique && !insideArena then CDiv(energy, if oneIn4 then 3 else 10) else 0;
    var mspeed := if i != 0 then speed + spread else speed;
    if mspeed > MAX_MSPEED then MAX_MSPEED else mspeed
  }

  /** With a spread inside [-i, i] the new speed stays within i of the race speed, before the cap. */
  lemma MSpeedWithinSpread(speed: int, energy: int, oneIn4: bool, spread: int)
    requires energy >= 0
    requires var i := CDiv(energy, if oneIn4 then 3 else 10); -i <= spread <= i
    ensures var i := CDiv(energy, if oneIn4 then 3 else 10);
      speed - i <= MSpeed(speed, false, false, energy, oneIn4, spread) || MSpeed(speed, false, false, energy, oneIn4, spread) == MAX_MSPEED
    ensures var i := CDiv(energy, if oneIn4 then 3 else 10);
      MSpeed(speed, false, false, energy, oneIn4, spread) <= speed + i
  {
  }
}
