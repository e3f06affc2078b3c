/**
 * The part of C's sscanf that the tile-set list parser
 * (src/system/grafmode.cpp) relies on: `%u` conversions, literal
 * characters and `%n`, the count of characters consumed so far.
 */
module GrafScan {
  import opened Wrappers

  /** The values an unsigned int can hold. */
  const UINT_RANGE: nat := 0x1_0000_0000

  /** isspace in the C locale. */
  predicate IsSpace(c: char)
  {
    c == ' ' || c == '\t' || c == '\n' || c == '\U{B}' || c == '\U{C}' || c == '\r'
  }

  predicate IsDigit(c: char)
  {
    '0' <= c <= '9'
  }

  /** The index of the first character at or after pos that is not white space. */
  function SkipSpace(s: string, pos: nat): (r: nat)
    requires pos <= |s|
    ensures pos <= r <= |s|
    ensures forall k :: pos <= k < r ==> IsSpace(s[k])
    ensures r == |s| || !IsSpace(s[r])
    decreases |s| - pos
  {
    if pos == |s| || !IsSpace(s[pos]) then pos else SkipSpace(s, pos + 1)
  }

  /** The index just past the run of digits starting at pos. */
  function DigitsEnd(s: string, pos: nat): (r: nat)
    requires pos <= |s|
    ensures pos <= r <= |s|
    ensures forall k :: pos <= k < r ==> IsDigit(s[k])
    ensures r == |s| || !IsDigit(s[r])
    decreases |s| - pos
  {
    if pos == |s| || !IsDigit(s[pos]) then pos else DigitsEnd(s, pos + 1)
  }

  /** The decimal value of a string of digits. */
  function Value(ds: string): nat
  {
    if ds == [] then 0
    else 10 * Value(ds[..|ds| - 1]) + (if IsDigit(ds[|ds| - 1]) then ds[|ds| - 1] as int - '0' as int else 0)
  }

  /**
   * A `%u` conversion at pos: white space, an optional sign and at least
   * one digit; the value (negated modulo 2^32 after a minus sign) and the
   * index after the digits.
   */
  function ScanUnsigned(s: string, pos: nat): (r: Option<(nat, nat)>)
    requires pos <= |s|
    ensures r.Some? ==> r.value.0 < UINT_RANGE && pos < r.value.1 <= |s| && IsDigit(s[r.value.1 - 1])
    ensures r.Some? ==> r.value.1 == |s| || !IsDigit(s[r.value.1])
  {
    var p := SkipSpace(s, pos);
    var neg := p < |s| && s[p] == '-';
    var d := if p < |s| && (s[p] == '-' || s[p] == '+') then p + 1 else p;
    var e := DigitsEnd(s, d);
    if e == d then None
    else
      var v := Value(s[d..e]) % UINT_RANGE;
      Some((if neg then (UINT_RANGE - v) % UINT_RANGE else v, e))
  }

  /** The decimal digits of n, as printf writes them. */
  function Decimal(n: nat): (ds: string)
    ensures |ds| >= 1
    ensures forall k :: 0 <= k < |ds| ==> IsDigit(ds[k])
  {
    if n < 10 then [('0' as int + n) as char] else Decimal(n / 10) + [('0' as int + n % 10) as char]
  }

  /** Reading the digits back gives the number. */
  lemma {:induction false} ValueOfDecimal(n: nat)
    ensures Value(Decimal(n)) == n
  {
    var ds := Decimal(n);
    if n >= 10 {
      assert ds[..|ds| - 1] == Decimal(n / 10);
      ValueOfDecimal(n / 10);
    } else {
      assert ds[..0] == [];
    }
  }

  /** `%u` reads back any unsigned int printed in decimal, stopping where the digits end. */
  lemma ScanDecimal(n: nat, rest: string)
    requires n < UINT_RANGE
    requires rest == [] || !IsDigit(rest[0])
    ensures ScanUnsigned(Decimal(n) + rest, 0) == Some((n, |Decimal(n)|))
  {
    var s := Decimal(n) + rest;
    assert s[0..|Decimal(n)|] == Decimal(n);
    ScanDecimalAt(s, 0, n);
  }

  /** The same at any position pos where the digits of n start, followed by a non-digit or the end. */
  lemma ScanDecimalAt(s: string, pos: nat, n: nat)
    requires n < UINT_RANGE
    requires pos + |Decimal(n)| <= |s| && s[pos..pos + |Decimal(n)|] == Decimal(n)
    requires pos + |Decimal(n)| == |s| || !IsDigit(s[pos + |Decimal(n)|])
    ensures ScanUnsigned(s, pos) == Some((n, pos + |Decimal(n)|))
  {
    var ds := Decimal(n);
    var e := pos + |ds|;
    assert s[pos] == ds[0];
    assert SkipSpace(s, pos) == pos;
    forall k | pos <= k < e
      ensures IsDigit(s[k])
    {
      assert s[k] == ds[k - pos];
    }
    DigitsRun(s, pos, e);
    ValueOfDecimal(n);
    assert Value(s[pos..e]) == n;
  }

  lemma DigitsRun(s: string, pos: nat, e: nat)
    requires pos <= e <= |s|
    requires forall k :: pos <= k < e ==> IsDigit(s[k])
    requires e == |s| || !IsDigit(s[e])
    ensures DigitsEnd(s, pos) == e
    decreases e - pos
  {
    if pos < e {
      DigitsRun(s, pos + 1, e);
    }
  }

  /** One directive of a scanf format. */
  datatype Item = Unsigned | Lit(c: char) | Count

  /** What sscanf reports: the number of conversions, their values and where %n stored, if it ran. */
  datatype Scanned = Scanned(count: nat, values: seq<nat>, nscan: Option<nat>)

  /** The number of %u directives in a format. */
  function Conversions(fmt: seq<Item>): nat
  {
    if fmt == [] then 0 else (if fmt[0] == Unsigned then 1 else 0) + Conversions(fmt[1..])
  }

  /** Run the format from input position pos; scanning stops at the first directive that fails. */
  function ScanFrom(s: string, pos: nat, fmt: seq<Item>): (r: Scanned)
    requires pos <= |s|
    ensures |r.values| == r.count <= Conversions(fmt)
    ensures forall v :: v in r.values ==> v < UINT_RANGE
    ensures r.nscan.Some? ==> pos <= r.nscan.value <= |s|
    decreases fmt
  {
    if fmt == [] then Scanned(0, [], None)
    else
      match fmt[0]
      case Unsigned =>
        (match ScanUnsigned(s, pos)
         case None => Scanned(0, [], None)
         case Some(vp) =>
           var r := ScanFrom(s, vp.1, fmt[1..]);
           Scanned(r.count + 1, [vp.0] + r.values, r.nscan))
      case Lit(c) =>
        if pos < |s| && s[pos] == c then ScanFrom(s, pos + 1, fmt[1..]) else Scanned(0, [], None)
      case Count =>
        var r := ScanFrom(s, pos, fmt[1..]);
        Scanned(r.count, r.values, Some(pos))
  }

  /** sscanf(s, fmt, ...) for the directives modelled here. */
  function Sscanf(s: string, fmt: seq<Item>): Scanned
  {
    ScanFrom(s, 0, fmt)
  }

  /** The formats of the name:, size: and extra: lines. */
  const NAME_FORMAT: seq<Item> := [Unsigned, Lit(':'), Count]
  const SIZE_FORMAT: seq<Item> := [Unsigned, Lit(':'), Unsigned, Lit(':'), Count]
  const EXTRA_FORMAT: seq<Item> := [Unsigned, Lit(':'), Unsigned, Lit(':'), Unsigned, Count]

  /** "%u:%n" stores a count exactly when a number and a colon were read; the count is just past the colon. */
  lemma NameFormatCount(s: string)
    ensures Sscanf(s, NAME_FORMAT).nscan.Some? <==>
      ScanUnsigned(s, 0).Some? && ScanUnsigned(s, 0).value.1 < |s| && s[ScanUnsigned(s, 0).value.1] == ':'
    ensures Sscanf(s, NAME_FORMAT).nscan.Some? ==>
      Sscanf(s, NAME_FORMAT).nscan.value == ScanUnsigned(s, 0).value.1 + 1 && Sscanf(s, NAME_FORMAT).count == 1
  {
    assert NAME_FORMAT[1..] == [Lit(':'), Count];
    assert NAME_FORMAT[1..][1..] == [Count];
  }

  /** "%u:%u:%u%n" always stores its count once all three numbers are read. */
  lemma ExtraFormatCount(s: string)
    ensures Sscanf(s, EXTRA_FORMAT).count == 3 ==> Sscanf(s, EXTRA_FORMAT).nscan.Some?
  {
    var f1 := EXTRA_FORMAT[1..];
    var f2 := f1[1..];
    var f3 := f2[1..];
    var f4 := f3[1..];
    var f5 := f4[1..];
    assert f1 == [Lit(':'), Unsigned, Lit(':'), Unsigned, Count];
    assert f2 == [Unsigned, Lit(':'), Unsigned, Count];
    assert f3 == [Lit(':'), Unsigned, Count];
    assert f4 == [Unsigned, Count];
    assert f5 == [Count];
  }

  // ---------------------------------------------------------------
  // The guards of the name: and size: lines

  /**
   * The guard of the name: case as written: it proceeds whenever sscanf
   * converted one number, and then reads the %n count whether or not the
   * colon matched.
   */
  function NameFieldAsWritten(rest: string): Option<(nat, Option<nat>)>
  {
    var sc := Sscanf(rest, NAME_FORMAT);
    if sc.count == 1 then Some((sc.values[0], sc.nscan)) else None
  }

  /** A name line without the colon, "name:5", passes the guard with the count never stored. */
  lemma NameWithoutColon()
    ensures NameFieldAsWritten("5") == Some((5, None))
  {
    assert ScanUnsigned("5", 0) == Some((5, 1)) by {
      ScanDecimal(5, []);
      assert Decimal(5) == "5";
    }
    assert NAME_FORMAT[1..] == [Lit(':'), Count];
  }

  /** The guard of the name: case as intended: the id and the offset of the name, only when both were read. */
  function NameField(rest: string): (r: Option<(nat, nat)>)
    ensures r.Some? ==> r.value.0 < UINT_RANGE && 2 <= r.value.1 <= |rest| && rest[r.value.1 - 1] == ':'
  {
    var sc := Sscanf(rest, NAME_FORMAT);
    NameFormatCount(rest);
    if sc.count == 1 && sc.nscan.Some? then Some((sc.values[0], sc.nscan.value)) else None
  }

  /** The intended guard accepts a printed id followed by a colon and gives the offset just past the colon. */
  lemma NameFieldReads(n: nat, name: string)
    requires n < UINT_RANGE
    ensures NameField(Decimal(n) + (":" + name)) == Some((n, |Decimal(n)| + 1))
  {
    var rest := ":" + name;
    ScanDecimal(n, rest);
    NameFieldAfter(Decimal(n) + rest, n, |Decimal(n)|);
  }

  /** What follows the colon of a + ":" + b is b. */
  lemma AfterColon(a: string, b: string)
    ensures (a + (":" + b))[|a| + 1..] == b
  {
  }

  /** A number ending at e and a colon at e give that number and the offset e + 1. */
  lemma NameFieldAfter(s: string, n: nat, e: nat)
    requires ScanUnsigned(s, 0) == Some((n, e)) && e < |s| && s[e] == ':'
    ensures NameField(s) == Some((n, e + 1))
  {
    NameFormatCount(s);
    FirstValue(s, NAME_FORMAT);
  }

  /** A format that opens with %u stores the number read at the start as its first value. */
  lemma FirstValue(s: string, fmt: seq<Item>)
    requires fmt != [] && fmt[0] == Unsigned && ScanUnsigned(s, 0).Some?
    ensures Sscanf(s, fmt).count >= 1 && Sscanf(s, fmt).values[0] == ScanUnsigned(s, 0).value.0
  {
  }

  /**
   * The guard of the size: case as written: it proceeds whenever two
   * numbers were converted, and reads the count even when the second
   * colon is missing.
   */
  function SizeFieldAsWritten(rest: string): Option<(nat, nat, Option<nat>)>
  {
    var sc := Sscanf(rest, SIZE_FORMAT);
    if sc.count == 2 then Some((sc.values[0], sc.values[1], sc.nscan)) else None
  }

  /** "size:8:8", without the trailing colon and file name, passes the guard with the count never stored. */
  lemma SizeWithoutColon()
    ensures SizeFieldAsWritten("8:8") == Some((8, 8, None))
  {
    var s := "8:8";
    assert Decimal(8) == "8";
    assert s[0..1] == "8" && s[2..3] == "8";
    ScanDecimalAt(s, 0, 8);
    ScanDecimalAt(s, 2, 8);
    SizeAsWrittenAfter(s, 8, 1, 8);
  }

  /** Two numbers separated by a colon that end the input pass the guard as written with no count. */
  lemma SizeAsWrittenAfter(s: string, w: nat, e: nat, h: nat)
    requires ScanUnsigned(s, 0) == Some((w, e)) && e < |s| && s[e] == ':'
    requires ScanUnsigned(s, e + 1) == Some((h, |s|))
    ensures SizeFieldAsWritten(s) == Some((w, h, None))
  {
    assert SIZE_FORMAT[1..] == [Lit(':')] + NAME_FORMAT;
    ColonStep(s, e, NAME_FORMAT);
    assert NAME_FORMAT[1..] == [Lit(':')] + [Count];
    ColonStep(s, |s|, [Count]);
    assert ScanFrom(s, e + 1, NAME_FORMAT) == Scanned(1, [h], None);
  }

  /** "%u:%n" from pos on a number ending at f and a colon at f reads that number and stores f + 1. */
  lemma NameFormatAt(s: string, pos: nat, h: nat, f: nat)
    requires pos <= |s|
    requires ScanUnsigned(s, pos) == Some((h, f)) && f < |s| && s[f] == ':'
    ensures ScanFrom(s, pos, NAME_FORMAT) == Scanned(1, [h], Some(f + 1))
  {
    assert NAME_FORMAT[1..] == [Lit(':')] + [Count];
    ColonStep(s, f, [Count]);
  }

  /** The size format is the first number, a colon, and then the name format. */
  lemma SizeScanSplit(s: string, w: nat, e: nat, h: nat, n: nat)
    requires ScanUnsigned(s, 0) == Some((w, e)) && e < |s| && s[e] == ':'
    requires ScanFrom(s, e + 1, NAME_FORMAT) == Scanned(1, [h], Some(n))
    ensures Sscanf(s, SIZE_FORMAT) == Scanned(2, [w, h], Some(n))
  {
    assert SIZE_FORMAT[1..] == [Lit(':')] + NAME_FORMAT;
    ColonStep(s, e, NAME_FORMAT);
    assert [w] + [h] == [w, h];
  }

  /** Two numbers, each followed by a colon, give both numbers and the offset just past the second colon. */
  lemma SizeFieldAfter(s: string, w: nat, e: nat, h: nat, f: nat)
    requires ScanUnsigned(s, 0) == Some((w, e)) && e < |s| && s[e] == ':'
    requires ScanUnsigned(s, e + 1) == Some((h, f)) && f < |s| && s[f] == ':'
    ensures SizeField(s) == Some((w, h, f + 1))
  {
    var n := f + 1;
    assert Sscanf(s, SIZE_FORMAT) == Scanned(2, [w, h], Some(n)) by {
      SizeScanAfter(s, w, e, h, f);
    }
    SizeFieldOfScan(s, w, h, n);
  }

  /** The same for the raw sscanf result: two conversions and the count stored past the second colon. */
  lemma SizeScanAfter(s: string, w: nat, e: nat, h: nat, f: nat)
    requires ScanUnsigned(s, 0) == Some((w, e)) && e < |s| && s[e] == ':'
    requires ScanUnsigned(s, e + 1) == Some((h, f)) && f < |s| && s[f] == ':'
    ensures Sscanf(s, SIZE_FORMAT) == Scanned(2, [w, h], Some(f + 1))
  {
    var n := f + 1;
    assert ScanFrom(s, e + 1, NAME_FORMAT) == Scanned(1, [h], Some(n)) by {
      NameFormatAt(s, e + 1, h, f);
    }
    SizeScanSplit(s, w, e, h, n);
  }

  /** The intended guard on "8:16:x" reads 8 and 16 and points at the file name x. */
  lemma SizeFieldExample()
    ensures SizeField("8:16:x") == Some((8, 16, 5))
  {
    var s := "8:16:x";
    assert Decimal(8) == "8" && Decimal(16) == "16";
    assert s[0..1] == "8" && s[2..4] == "16";
    ScanDecimalAt(s, 0, 8);
    ScanDecimalAt(s, 2, 16);
    SizeFieldAfter(s, 8, 1, 16, 4);
  }

  /** Two conversions with the count stored are what the intended guard accepts. */
  lemma SizeFieldOfScan(s: string, w: nat, h: nat, n: nat)
    requires Sscanf(s, SIZE_FORMAT) == Scanned(2, [w, h], Some(n))
    ensures SizeField(s) == Some((w, h, n))
  {
  }

  /** The guard of the size: case as intended: width, height and the offset of the file name. */
  function SizeField(rest: string): (r: Option<(nat, nat, nat)>)
    ensures r.Some? ==> r.value.0 < UINT_RANGE && r.value.1 < UINT_RANGE && 4 <= r.value.2
    ensures r.Some? ==> ColonBefore(rest, r.value.2)
  {
    var sc := Sscanf(rest, SIZE_FORMAT);
    SizeFormatCount(rest);
    if sc.count == 2 && sc.nscan.Some? then Some((sc.values[0], sc.values[1], sc.nscan.value)) else None
  }

  /** The character just before offset n is a colon. */
  predicate ColonBefore(s: string, n: nat)
  {
    1 <= n <= |s| && s[n - 1] == ':'
  }

  lemma SizeFormatCount(rest: string)
    ensures Sscanf(rest, SIZE_FORMAT).nscan.Some? ==>
      Sscanf(rest, SIZE_FORMAT).count == 2 && 4 <= Sscanf(rest, SIZE_FORMAT).nscan.value &&
      ColonBefore(rest, Sscanf(rest, SIZE_FORMAT).nscan.value)
  {
    var tail := SIZE_FORMAT[1..];
    assert tail == [Lit(':')] + NAME_FORMAT;
    var first := ScanUnsigned(rest, 0);
    if first.Some? {
      var e := first.value.1;
      var r := ScanFrom(rest, e, tail);
      assert Sscanf(rest, SIZE_FORMAT) == Scanned(r.count + 1, [first.value.0] + r.values, r.nscan);
      ColonStep(rest, e, NAME_FORMAT);
      if e < |rest| && rest[e] == ':' {
        NameFormatFrom(rest, e + 1);
        assert r == ScanFrom(rest, e + 1, NAME_FORMAT);
      } else {
        assert r.nscan == None;
      }
    } else {
      assert Sscanf(rest, SIZE_FORMAT) == Scanned(0, [], None);
    }
  }

  /** A literal colon either matches at pos and the rest of the format runs after it, or scanning stops there. */
  lemma ColonStep(s: string, pos: nat, fmt: seq<Item>)
    requires pos <= |s|
    ensures pos < |s| && s[pos] == ':' ==> ScanFrom(s, pos, [Lit(':')] + fmt) == ScanFrom(s, pos + 1, fmt)
    ensures !(pos < |s| && s[pos] == ':') ==> ScanFrom(s, pos, [Lit(':')] + fmt) == Scanned(0, [], None)
  {
    assert ([Lit(':')] + fmt)[1..] == fmt;
  }

  /** "%u:%n" run from pos: when the count is stored it lies past a number and a colon. */
  lemma NameFormatFrom(s: string, pos: nat)
    requires pos <= |s|
    ensures ScanFrom(s, pos, NAME_FORMAT).nscan.Some? ==>
      ScanFrom(s, pos, NAME_FORMAT).count == 1 && pos + 2 <= ScanFrom(s, pos, NAME_FORMAT).nscan.value &&
      ColonBefore(s, ScanFrom(s, pos, NAME_FORMAT).nscan.value)
  {
    assert NAME_FORMAT[1..] == [Lit(':'), Count];
    assert NAME_FORMAT[1..][1..] == [Count];
  }

  /** The extra: line: three numbers, then the index after the last digit. */
  function ExtraField(rest: string): (r: Option<(nat, nat, nat, nat)>)
    ensures r.Some? ==> r.value.3 <= |rest|
  {
    var sc := Sscanf(rest, EXTRA_FORMAT);
    ExtraFormatCount(rest);
    if sc.count == 3 then Some((sc.values[0], sc.values[1], sc.values[2], sc.nscan.value)) else None
  }

  /** The last "%u%n" of the extra format on a number ending at g converts it and stores g. */
  lemma ExtraTailAt(s: string, pos: nat, c: nat, g: nat)
    requires pos <= |s| && ScanUnsigned(s, pos) == Some((c, g))
    ensures ScanFrom(s, pos, [Unsigned, Count]) == Scanned(1, [c], Some(g))
  {
    assert [Unsigned, Count][1..] == [Count];
    assert [Count][1..] == [];
  }

  /** "%u:%u%n" from pos: a number, a colon and the tail. */
  lemma ExtraMidAt(s: string, pos: nat, b: nat, f: nat, c: nat, g: nat)
    requires pos <= |s| && ScanUnsigned(s, pos) == Some((b, f)) && f < |s| && s[f] == ':'
    requires ScanFrom(s, f + 1, [Unsigned, Count]) == Scanned(1, [c], Some(g))
    ensures ScanFrom(s, pos, [Unsigned, Lit(':'), Unsigned, Count]) == Scanned(2, [b, c], Some(g))
  {
    UnsignedColonStep(s, pos, b, f, [Unsigned, Count]);
    assert [Unsigned, Lit(':')] + [Unsigned, Count] == [Unsigned, Lit(':'), Unsigned, Count];
    assert [b] + [c] == [b, c];
  }

  /** "%u:%u%n" from pos on two numbers separated by a colon. */
  lemma ExtraRestAt(s: string, pos: nat, b: nat, f: nat, c: nat, g: nat)
    requires pos <= |s| && ScanUnsigned(s, pos) == Some((b, f)) && f < |s| && s[f] == ':'
    requires ScanUnsigned(s, f + 1) == Some((c, g))
    ensures ScanFrom(s, pos, [Unsigned, Lit(':'), Unsigned, Count]) == Scanned(2, [b, c], Some(g))
  {
    ExtraTailAt(s, f + 1, c, g);
    ExtraMidAt(s, pos, b, f, c, g);
  }

  /** The extra format: the first number, a colon, then the rest of the format. */
  lemma ExtraScanSplit(s: string, a: nat, e: nat, b: nat, c: nat, g: nat)
    requires ScanUnsigned(s, 0) == Some((a, e)) && e < |s| && s[e] == ':'
    requires ScanFrom(s, e + 1, [Unsigned, Lit(':'), Unsigned, Count]) == Scanned(2, [b, c], Some(g))
    ensures Sscanf(s, EXTRA_FORMAT) == Scanned(3, [a, b, c], Some(g))
  {
    var rest := [Unsigned, Lit(':'), Unsigned, Count];
    assert ScanFrom(s, 0, [Unsigned, Lit(':')] + rest) == Scanned(3, [a] + [b, c], Some(g)) by {
      UnsignedColonStep(s, 0, a, e, rest);
    }
    assert [Unsigned, Lit(':')] + rest == EXTRA_FORMAT;
    assert [a] + [b, c] == [a, b, c];
  }

  /**
   * A "%u:" that reads v up to a colon at q puts v in front of whatever the
   * rest of the format scans from just past the colon.
   */
  lemma UnsignedColonStep(s: string, pos: nat, v: nat, q: nat, fmt: seq<Item>)
    requires pos <= |s| && ScanUnsigned(s, pos) == Some((v, q)) && q < |s| && s[q] == ':'
    ensures var r := ScanFrom(s, q + 1, fmt);
      ScanFrom(s, pos, [Unsigned, Lit(':')] + fmt) == Scanned(r.count + 1, [v] + r.values, r.nscan)
  {
    assert ([Unsigned, Lit(':')] + fmt)[1..] == [Lit(':')] + fmt;
    ColonStep(s, q, fmt);
  }

  /** Three conversions are what the extra: guard accepts, with the count where the last number ends. */
  lemma ExtraFieldOfScan(s: string, a: nat, b: nat, c: nat, g: nat)
    requires Sscanf(s, EXTRA_FORMAT) == Scanned(3, [a, b, c], Some(g))
    ensures ExtraField(s) == Some((a, b, c, g))
  {
  }

  /**
   * Three numbers separated by colons give the three values and the offset
   * just past the last digit of the third.
   */
  lemma ExtraFieldAfter(s: string, a: nat, e: nat, b: nat, f: nat, c: nat, g: nat)
    requires ScanUnsigned(s, 0) == Some((a, e)) && e < |s| && s[e] == ':'
    requires ScanUnsigned(s, e + 1) == Some((b, f)) && f < |s| && s[f] == ':'
    requires ScanUnsigned(s, f + 1) == Some((c, g))
    ensures ExtraField(s) == Some((a, b, c, g))
  {
    assert ScanFrom(s, e + 1, [Unsigned, Lit(':'), Unsigned, Count]) == Scanned(2, [b, c], Some(g)) by {
      ExtraRestAt(s, e + 1, b, f, c, g);
    }
    assert Sscanf(s, EXTRA_FORMAT) == Scanned(3, [a, b, c], Some(g)) by {
      ExtraScanSplit(s, a, e, b, c, g);
    }
    ExtraFieldOfScan(s, a, b, c, g);
  }

  /** The extra: guard on "1:0:2" reads alpha 1, overdraw row 0 and max 2, ending at offset 5. */
  lemma ExtraFieldExample()
    ensures ExtraField("1:0:2") == Some((1, 0, 2, 5))
  {
    var s := "1:0:2";
    assert Decimal(1) == "1" && Decimal(0) == "0" && Decimal(2) == "2";
    assert s[0..1] == "1" && s[2..3] == "0" && s[4..5] == "2";
    ScanDecimalAt(s, 0, 1);
    ScanDecimalAt(s, 2, 0);
    ScanDecimalAt(s, 4, 2);
    ExtraFieldAfter(s, 1, 1, 0, 3, 2, 5);
  }
}
