/**
 * The class-selection menu of character birth
 * (src/birth/birth-select-class.cpp): the letter each class is listed
 * under, where its entry is drawn, its colour and label, the cursor moves
 * of the number keys and what one key press does to the selection.
 *
 * `maxClass` stands for MAX_CLASS, the number of classes; the cursor value
 * `maxClass` itself is the extra "Random" slot after the last class.
 */
module BirthSelectClass {

  import opened Wrappers

  /** The terminal colours the menu uses. */
  datatype TermColor = White | LightDark | Slate | Yellow | LightBlue

  /** A string put on the screen at a row and column in a colour. */
  datatype Placed = Placed(color: TermColor, text: string, row: int, col: int)

  /** What one key press does to the selection loop of select_class. */
  datatype Outcome =
    | Quit            // 'Q': birth_quit leaves the game
    | Back            // 'S': select_class returns false
    | Chosen(k: nat)  // the loop ends with class k chosen
    | Stay(cs: int)   // the loop goes on with the cursor at cs

  // ---------------------------------------------------------------
  // Symbols and key decoding

  /** I2A: the lower-case letter for 0..25. */
  function I2A(n: nat): char
    requires n < 26
  {
    ('a' as int + n) as char
  }

  /** A2I: the offset of a character from 'a'. */
  function A2I(c: char): int
  {
    c as int - 'a' as int
  }

  predicate IsLower(c: char)
  {
    'a' <= c <= 'z'
  }

  predicate IsUpper(c: char)
  {
    'A' <= c <= 'Z'
  }

  /**
   * The letter class n is listed under: a..z for the first 26 classes,
   * then A..Z. The letter scheme covers 52 classes.
   */
  function ClassSymbol(n: nat): (c: char)
    requires n < 52
    ensures IsLower(c) <==> n < 26
    ensures IsUpper(c) <==> 26 <= n
  {
    if n < 26 then I2A(n) else ('A' as int + n - 26) as char
  }

  /**
   * The class a letter key selects: a lower-case letter its A2I offset,
   * an upper-case letter 26 plus its offset from 'A', and only indices
   * below maxClass.
   */
  function DecodeClassKey(c: char, maxClass: nat): (r: Option<nat>)
    ensures r.Some? ==> r.value < maxClass
  {
    if IsLower(c) && A2I(c) < maxClass then
      Some(A2I(c))
    else if IsUpper(c) && 26 + (c as int - 'A' as int) < maxClass then
      Some(26 + (c as int - 'A' as int))
    else
      None
  }

  /** Decoding the listed letter of a class gives back that class exactly when the class exists. */
  lemma SymbolRoundTrip(n: nat, maxClass: nat)
    requires n < 52
    ensures DecodeClassKey(ClassSymbol(n), maxClass) == (if n < maxClass then Some(n) else None)
  {
  }

  /** Every key that selects a class is that class's listed letter. */
  lemma DecodeIsSymbol(c: char, maxClass: nat)
    requires DecodeClassKey(c, maxClass).Some?
    ensures DecodeClassKey(c, maxClass).value < 52
    ensures ClassSymbol(DecodeClassKey(c, maxClass).value) == c
  {
  }

  /** Distinct classes are listed under distinct letters. */
  lemma SymbolInjective(n: nat, m: nat)
    requires n < 52 && m < 52 && ClassSymbol(n) == ClassSymbol(m)
    ensures n == m
  {
    SymbolRoundTrip(n, 52);
    SymbolRoundTrip(m, 52);
  }

  // ---------------------------------------------------------------
  // Menu layout

  /** The screen row of entry n: four entries per row from row 13. */
  function MenuRow(n: nat): int
  {
    13 + n / 4
  }

  /** The screen column of entry n: columns 19 apart from column 2. */
  function MenuCol(n: nat): int
  {
    2 + 19 * (n % 4)
  }

  /** No two entries are drawn at the same place. */
  lemma MenuPositionInjective(n: nat, m: nat)
    requires MenuRow(n) == MenuRow(m) && MenuCol(n) == MenuCol(m)
    ensures n == m
  {
  }

  /** Entry n + 4 is drawn directly below entry n. */
  lemma MenuBelow(n: nat)
    ensures MenuRow(n + 4) == MenuRow(n) + 1 && MenuCol(n + 4) == MenuCol(n)
  {
  }

  /** Entry n + 1 is drawn to the right of entry n unless n ends a row. */
  lemma MenuRight(n: nat)
    ensures n % 4 != 3 ==> MenuRow(n + 1) == MenuRow(n) && MenuCol(n + 1) == MenuCol(n) + 19
    ensures n % 4 == 3 ==> MenuRow(n + 1) == MenuRow(n) + 1 && MenuCol(n + 1) == 2
  {
  }

  /**
   * birth_class_color: a retired class is dark grey, a class with a win
   * on record slate, and anything else, the Random slot included, white.
   */
  function ClassColor(cs: int, maxClass: nat, retired: seq<bool>, winner: seq<bool>): (r: TermColor)
    requires |retired| >= maxClass && |winner| >= maxClass
    ensures r == LightDark <==> 0 <= cs < maxClass && retired[cs]
    ensures r == Slate <==> 0 <= cs < maxClass && !retired[cs] && winner[cs]
    ensures r == White <==> !(0 <= cs < maxClass && (retired[cs] || winner[cs]))
  {
    if 0 <= cs < maxClass && retired[cs] then LightDark
    else if 0 <= cs < maxClass && winner[cs] then Slate
    else White
  }

  /** 2 to the power n: the value of `1UL << n` in the suitability test. */
  function Pow2(n: nat): (p: nat)
    ensures p >= 1
  {
    if n == 0 then 1 else 2 * Pow2(n - 1)
  }

  /** The race's `choice` mask has bit n set (`choice & (1UL << n)`). */
  predicate Suitable(choice: nat, n: nat)
  {
    (choice / Pow2(n)) % 2 == 1
  }

  /** The entry text: the letter, ')', and the title, in parentheses when unsuitable. */
  function Label(sym: char, title: string, suitable: bool): (r: string)
    ensures |r| == |title| + (if suitable then 2 else 4)
    ensures r[0] == sym && r[1] == ')'
    ensures suitable ==> r[2..] == title
    ensures !suitable ==> r[2] == '(' && r[3..|r| - 1] == title && r[|r| - 1] == ')'
  {
    if suitable then [sym, ')'] + title else [sym, ')', '('] + title + [')']
  }

  /** The entry of class n as enumerate_class_list draws it. */
  function Entry(n: nat, maxClass: nat, choice: nat, titles: seq<string>,
                 retired: seq<bool>, winner: seq<bool>): Placed
    requires n < maxClass <= 52
    requires |titles| >= maxClass && |retired| >= maxClass && |winner| >= maxClass
  {
    Placed(ClassColor(n, maxClass, retired, winner),
           Label(ClassSymbol(n), titles[n], Suitable(choice, n)),
           MenuRow(n), MenuCol(n))
  }

  /**
   * enumerate_class_list: fill sym with each class's letter and draw the
   * entries in order.
   */
  method EnumerateClassList(maxClass: nat, choice: nat, titles: seq<string>,
                            retired: seq<bool>, winner: seq<bool>, sym: array<char>)
    returns (drawn: seq<Placed>)
    requires maxClass <= 52 && maxClass <= sym.Length
    requires |titles| >= maxClass && |retired| >= maxClass && |winner| >= maxClass
    modifies sym
    ensures |drawn| == maxClass
    ensures forall n :: 0 <= n < maxClass ==> sym[n] == ClassSymbol(n)
    ensures forall n :: maxClass <= n < sym.Length ==> sym[n] == old(sym[n])
    ensures forall n :: 0 <= n < maxClass ==>
      drawn[n] == Entry(n, maxClass, choice, titles, retired, winner)
  {
    drawn := [];
    var n := 0;
    while n < maxClass
      invariant 0 <= n <= maxClass
      invariant |drawn| == n
      invariant forall m :: 0 <= m < n ==> sym[m] == ClassSymbol(m)
      invariant forall m :: maxClass <= m < sym.Length ==> sym[m] == old(sym[m])
      invariant forall m :: 0 <= m < n ==>
        drawn[m] == Entry(m, maxClass, choice, titles, retired, winner)
    {
      var entry := ListClass(n, maxClass, choice, titles, retired, winner, sym);
      drawn := drawn + [entry];
      n := n + 1;
    }
  }

  /** One pass of the enumerate_class_list loop: store the letter of class n and build its entry. */
  method ListClass(n: nat, maxClass: nat, choice: nat, titles: seq<string>,
                   retired: seq<bool>, winner: seq<bool>, sym: array<char>)
    returns (entry: Placed)
    requires n < maxClass <= 52 && maxClass <= sym.Length
    requires |titles| >= maxClass && |retired| >= maxClass && |winner| >= maxClass
    modifies sym
    ensures sym[n] == ClassSymbol(n)
    ensures forall m :: 0 <= m < sym.Length && m != n ==> sym[m] == old(sym[m])
    ensures entry == Entry(n, maxClass, choice, titles, retired, winner)
  {
    if n < 26 {
      sym[n] := I2A(n);
    } else {
      sym[n] := ('A' as int + n - 26) as char;
    }
    var buf := Label(sym[n], titles[n], Suitable(choice, n));
    entry := Placed(ClassColor(n, maxClass, retired, winner), buf, 13 + n / 4, 2 + 19 * (n % 4));
  }

  // ---------------------------------------------------------------
  // Cursor movement

  /** Where each number key moves the cursor cs. */
  function KeyMove(c: char, cs: int, maxClass: nat): int
  {
    match c
    case '8' => if cs >= 4 then cs - 4 else cs
    case '4' => if cs > 0 then cs - 1 else cs
    case '6' => if cs < maxClass then cs + 1 else cs
    case '2' => if cs + 4 <= maxClass then cs + 4 else cs
    case _ => cs
  }

  /** interpret_class_select_key_move: the four key tests in turn on the cursor. */
  method InterpretClassSelectKeyMove(c: char, cs: int, maxClass: nat) returns (r: int)
    ensures r == KeyMove(c, cs, maxClass)
  {
    r := cs;
    if c == '8' {
      if r >= 4 {
        r := r - 4;
      }
    }
    if c == '4' {
      if r > 0 {
        r := r - 1;
      }
    }
    if c == '6' {
      if r < maxClass {
        r := r + 1;
      }
    }
    if c == '2' {
      if r + 4 <= maxClass {
        r := r + 4;
      }
    }
  }

  /** Every key keeps the cursor on a class or on the Random slot, and only 8, 4, 6 and 2 move it. */
  lemma KeyMoveInRange(c: char, cs: int, maxClass: nat)
    requires 0 <= cs <= maxClass
    ensures 0 <= KeyMove(c, cs, maxClass) <= maxClass
    ensures c !in {'8', '4', '6', '2'} ==> KeyMove(c, cs, maxClass) == cs
  {
  }

  /** A move by 2 is undone by 8, and a move by 8 is undone by 2. */
  lemma VerticalMovesUndo(cs: int, maxClass: nat)
    requires 0 <= cs <= maxClass
    ensures KeyMove('2', cs, maxClass) != cs ==> KeyMove('8', KeyMove('2', cs, maxClass), maxClass) == cs
    ensures KeyMove('8', cs, maxClass) != cs ==> KeyMove('2', KeyMove('8', cs, maxClass), maxClass) == cs
  {
  }

  /** A move by 6 is undone by 4, and a move by 4 is undone by 6. */
  lemma HorizontalMovesUndo(cs: int, maxClass: nat)
    requires 0 <= cs <= maxClass
    ensures KeyMove('6', cs, maxClass) != cs ==> KeyMove('4', KeyMove('6', cs, maxClass), maxClass) == cs
    ensures KeyMove('4', cs, maxClass) != cs ==> KeyMove('6', KeyMove('4', cs, maxClass), maxClass) == cs
  {
  }

  /** Keys 2 and 8 move the cursor one menu row down or up, in the same column. */
  lemma VerticalMovesOnScreen(cs: nat, maxClass: nat)
    ensures KeyMove('2', cs, maxClass) != cs ==>
      MenuRow(KeyMove('2', cs, maxClass) as nat) == MenuRow(cs) + 1 &&
      MenuCol(KeyMove('2', cs, maxClass) as nat) == MenuCol(cs)
    ensures KeyMove('8', cs, maxClass) != cs ==>
      MenuRow(KeyMove('8', cs, maxClass) as nat) == MenuRow(cs) - 1 &&
      MenuCol(KeyMove('8', cs, maxClass) as nat) == MenuCol(cs)
  {
    MenuBelow(cs);
    if cs >= 4 {
      MenuBelow(cs - 4);
    }
  }

  // ---------------------------------------------------------------
  // One key press of select_class

  /**
   * The effect of key c on the selection loop with the cursor at cs;
   * rnd is the value randint0(MAX_CLASS) would return.
   */
  function ClassKeyOutcome(cs: int, c: char, maxClass: nat, rnd: nat): Outcome
    requires 0 <= cs <= maxClass && rnd < maxClass
  {
    if c == 'Q' then Quit
    else if c == 'S' then Back
    else if c == ' ' || c == '\r' || c == '\n' then
      (if cs == maxClass then Chosen(rnd) else Chosen(cs))
    else
      var moved := KeyMove(c, cs, maxClass);
      if c == '*' then Chosen(rnd)
      else match DecodeClassKey(c, maxClass)
        case Some(k) => Chosen(k)
        case None => Stay(moved)
  }

  /** A key press either ends the loop with an existing class or leaves the cursor in range. */
  lemma OutcomeInRange(cs: int, c: char, maxClass: nat, rnd: nat)
    requires 0 <= cs <= maxClass && rnd < maxClass
    ensures ClassKeyOutcome(cs, c, maxClass, rnd).Chosen? ==> ClassKeyOutcome(cs, c, maxClass, rnd).k < maxClass
    ensures ClassKeyOutcome(cs, c, maxClass, rnd).Stay? ==> 0 <= ClassKeyOutcome(cs, c, maxClass, rnd).cs <= maxClass
  {
    KeyMoveInRange(c, cs, maxClass);
  }

  /** Pressing the letter a class is listed under chooses that class, Q and S aside. */
  lemma SymbolKeyChooses(cs: int, n: nat, maxClass: nat, rnd: nat)
    requires 0 <= cs <= maxClass && rnd < maxClass && n < maxClass && n < 52
    requires ClassSymbol(n) != 'Q' && ClassSymbol(n) != 'S'
    ensures ClassKeyOutcome(cs, ClassSymbol(n), maxClass, rnd) == Chosen(n)
  {
    SymbolRoundTrip(n, maxClass);
  }

  /** Enter on a class chooses it; enter on the Random slot chooses the random class. */
  lemma EnterChooses(cs: int, maxClass: nat, rnd: nat)
    requires 0 <= cs <= maxClass && rnd < maxClass
    ensures ClassKeyOutcome(cs, '\r', maxClass, rnd) == (if cs == maxClass then Chosen(rnd) else Chosen(cs))
  {
  }
}
