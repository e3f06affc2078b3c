/**
 * The tile-set list parser (src/system/grafmode.cpp). Each line of
 * lib/xtra/graf/list.txt is either blank, a comment, or a directive
 * `name:`, `directory:`, `size:`, `pref:`, `extra:` or `graf:` that fills
 * in the tile set most recently named. The parser keeps the tile sets as a
 * list with the newest first, the set of directives seen for the current
 * one (the GFPARSE_HAVE_* bits of `stage`) and an error flag `result`.
 * On success the list is copied, in file order, into the global array of
 * graphics modes, followed by the built-in "Classic ASCII" mode.
 */
module GrafMode {
  import opened Wrappers
  import opened GrafScan

  /** The GFPARSE_HAVE_* bits; a set of them stands for the `stage` bit mask. */
  datatype Stage = HaveName | HaveDir | HaveSize | HavePref | HaveExtra | HaveGraf

  /** One graphics_mode record, without its list link. */
  datatype Mode = Mode(
    grafID: nat, alphablend: bool, overdrawRow: nat, overdrawMax: nat,
    cellWidth: nat, cellHeight: nat,
    path: string, pref: string, file: string, menuname: string, graf: string)

  /** A freshly allocated mode: every number 0 and every string empty. */
  const BLANK_MODE: Mode := Mode(0, false, 0, 0, 0, 0, "", "", "", "", "")

  /**
   * What the parser takes from grafmode.h and the file system: the id
   * GRAPHICS_NONE, the sizes of the string buffers of a mode, the length of
   * the graf directory name and of PATH_SEP, and path_build joining that
   * directory with a name from the file.
   */
  datatype Config = Config(
    graphicsNone: nat, menunameSize: nat, pathSize: nat, prefSize: nat, fileSize: nat, grafSize: nat,
    dirLen: nat, sepLen: nat, pathBuild: string -> string)

  /** The buffers are large enough for the strings of the "Classic ASCII" entry. */
  predicate ConfigOk(cfg: Config)
  {
    cfg.graphicsNone <= 255 && cfg.prefSize > |"none"| && cfg.menunameSize > |"Classic ASCII"| &&
    cfg.grafSize > |"ascii"| && cfg.pathSize > 0 && cfg.fileSize > 0
  }

  /** The white space parse_line skips: space, tab, vertical tab and form feed. */
  predicate Blank(c: char)
  {
    c == ' ' || c == '\t' || c == '\U{B}' || c == '\U{C}'
  }

  /** The index of the first non-blank character at or after pos. */
  function SkipBlanks(line: string, pos: nat): (r: nat)
    requires pos <= |line|
    ensures pos <= r <= |line|
    ensures forall k :: pos <= k < r ==> Blank(line[k])
    ensures r == |line| || !Blank(line[r])
    decreases |line| - pos
  {
    if pos == |line| || !Blank(line[pos]) then pos else SkipBlanks(line, pos + 1)
  }

  /** strncmp(line + off, kw, |kw|) == 0. */
  predicate HasPrefix(line: string, off: nat, kw: string)
  {
    off + |kw| <= |line| && line[off..off + |kw|] == kw
  }

  /** The directive starting at off and the offset just after its keyword. */
  function MatchDirective(line: string, off: nat): (r: Option<(Stage, nat)>)
    ensures r.Some? ==> off < r.value.1 <= |line|
  {
    if HasPrefix(line, off, "name:") then Some((HaveName, off + 5))
    else if HasPrefix(line, off, "directory:") then Some((HaveDir, off + 10))
    else if HasPrefix(line, off, "size:") then Some((HaveSize, off + 5))
    else if HasPrefix(line, off, "pref:") then Some((HavePref, off + 5))
    else if HasPrefix(line, off, "extra:") then Some((HaveExtra, off + 6))
    else if HasPrefix(line, off, "graf:") then Some((HaveGraf, off + 5))
    else None
  }

  /** check_last_mode succeeds: directory, size, pref and graf were all given; extra is optional. */
  predicate ModeComplete(stage: set<Stage>)
  {
    HaveDir in stage && HaveSize in stage && HavePref in stage && HaveGraf in stage
  }

  /** A string fits a buffer of the given size, terminator included, and is not empty. */
  predicate Fits(s: string, size: nat)
  {
    0 < |s| < size
  }

  /** Some mode in the list already has the id. */
  predicate IdIn(id: nat, modes: seq<Mode>)
  {
    exists k :: 0 <= k < |modes| && modes[k].grafID == id
  }

  // ---------------------------------------------------------------
  // One directive applied to the current mode: the new mode and whether no error was found

  /**
   * name: `<id>:<menu name>`. The id must be at most 255, not
   * GRAPHICS_NONE and not used by an earlier mode; it is stored even when
   * it repeats an earlier id. The name must fit and not be empty.
   */
  function ApplyName(mode: Mode, rest: string, earlier: seq<Mode>, cfg: Config): (r: (Mode, bool))
    ensures NameField(rest).None? ==> r == (mode, false)
    ensures NameField(rest).Some? ==> var (id, n) := NameField(rest).value;
      (r.1 <==> id <= 255 && id != cfg.graphicsNone && !IdIn(id, earlier) && Fits(rest[n..], cfg.menunameSize))
    ensures r.1 ==> var (id, n) := NameField(rest).value; r.0 == mode.(grafID := id, menuname := rest[n..])
    ensures NameField(rest).Some? ==> var (id, n) := NameField(rest).value;
      r.0.grafID == (if id <= 255 && id != cfg.graphicsNone then id else mode.grafID) &&
      r.0.menuname == (if Fits(rest[n..], cfg.menunameSize) then rest[n..] else mode.menuname)
    ensures r.0.(grafID := mode.grafID, menuname := mode.menuname) == mode
  {
    match NameField(rest)
    case None => (mode, false)
    case Some((id, n)) =>
      var idOk := id <= 255 && id != cfg.graphicsNone && !IdIn(id, earlier);
      var m1 := if id <= 255 && id != cfg.graphicsNone then mode.(grafID := id) else mode;
      var name := rest[n..];
      var nameOk := Fits(name, cfg.menunameSize);
      (if nameOk then m1.(menuname := name) else m1, idOk && nameOk)
  }

  /** A name: line "ID:name" with a fresh valid ID and a name that fits is accepted and stores both. */
  lemma NameLineAccepted(mode: Mode, id: nat, name: string, earlier: seq<Mode>, cfg: Config)
    requires id <= 255 && id != cfg.graphicsNone && !IdIn(id, earlier) && Fits(name, cfg.menunameSize)
    ensures ApplyName(mode, Decimal(id) + (":" + name), earlier, cfg) == (mode.(grafID := id, menuname := name), true)
  {
    NameFieldReads(id, name);
    DigitsColonAccepted(mode, Decimal(id), id, name, earlier, cfg);
  }

  /** The same for any digit string d the name field reads as id. */
  lemma DigitsColonAccepted(mode: Mode, d: string, id: nat, name: string, earlier: seq<Mode>, cfg: Config)
    requires NameField(d + (":" + name)) == Some((id, |d| + 1))
    requires id <= 255 && id != cfg.graphicsNone && !IdIn(id, earlier) && Fits(name, cfg.menunameSize)
    ensures ApplyName(mode, d + (":" + name), earlier, cfg) == (mode.(grafID := id, menuname := name), true)
  {
    AfterColon(d, name);
    NameAccepted(mode, d + (":" + name), id, |d| + 1, earlier, cfg);
  }

  /** A well-formed name field with a fresh valid ID and a name that fits is accepted and stored. */
  lemma NameAccepted(mode: Mode, rest: string, id: nat, n: nat, earlier: seq<Mode>, cfg: Config)
    requires NameField(rest) == Some((id, n))
    requires id <= 255 && id != cfg.graphicsNone && !IdIn(id, earlier) && Fits(rest[n..], cfg.menunameSize)
    ensures ApplyName(mode, rest, earlier, cfg) == (mode.(grafID := id, menuname := rest[n..]), true)
  {
  }

  /** directory: the name, joined to the graf directory, must fit the path buffer. */
  function ApplyDir(mode: Mode, rest: string, cfg: Config): (r: (Mode, bool))
    ensures r.1 <==> 0 < |rest| && |rest| + cfg.dirLen + cfg.sepLen < cfg.pathSize
    ensures r.1 ==> r.0 == mode.(path := cfg.pathBuild(rest))
    ensures !r.1 ==> r.0 == mode
  {
    var len := |rest|;
    if len >= cfg.pathSize || len + cfg.dirLen + cfg.sepLen >= cfg.pathSize then (mode, false)
    else if len == 0 then (mode, false)
    else (mode.(path := cfg.pathBuild(rest)), true)
  }

  /** size: `<width>:<height>:<file>`; each positive size is stored, then the file name if it fits. */
  function ApplySize(mode: Mode, rest: string, cfg: Config): (r: (Mode, bool))
    ensures SizeField(rest).None? ==> r == (mode, false)
    ensures SizeField(rest).Some? ==> var (w, h, n) := SizeField(rest).value;
      (r.1 <==> w > 0 && h > 0 && Fits(rest[n..], cfg.fileSize))
    ensures r.1 ==> var (w, h, n) := SizeField(rest).value;
      r.0 == mode.(cellWidth := w, cellHeight := h, file := rest[n..])
    ensures SizeField(rest).Some? ==> var (w, h, n) := SizeField(rest).value;
      r.0.cellWidth == (if w > 0 then w else mode.cellWidth) &&
      r.0.cellHeight == (if h > 0 then h else mode.cellHeight) &&
      r.0.file == (if Fits(rest[n..], cfg.fileSize) then rest[n..] else mode.file)
    ensures r.0.(cellWidth := mode.cellWidth, cellHeight := mode.cellHeight, file := mode.file) == mode
  {
    match SizeField(rest)
    case None => (mode, false)
    case Some((w, h, n)) =>
      var m1 := if w > 0 then mode.(cellWidth := w) else mode;
      var m2 := if h > 0 then m1.(cellHeight := h) else m1;
      var file := rest[n..];
      (if Fits(file, cfg.fileSize) then m2.(file := file) else m2, w > 0 && h > 0 && Fits(file, cfg.fileSize))
  }

  /** pref: the preference file name must fit and not be empty. */
  function ApplyPref(mode: Mode, rest: string, cfg: Config): (r: (Mode, bool))
    ensures r.1 <==> Fits(rest, cfg.prefSize)
    ensures r.0 == if r.1 then mode.(pref := rest) else mode
  {
    if Fits(rest, cfg.prefSize) then (mode.(pref := rest), true) else (mode, false)
  }

  /** graf: the graf string must fit and not be empty. */
  function ApplyGraf(mode: Mode, rest: string, cfg: Config): (r: (Mode, bool))
    ensures r.1 <==> Fits(rest, cfg.grafSize)
    ensures r.0 == if r.1 then mode.(graf := rest) else mode
  {
    if Fits(rest, cfg.grafSize) then (mode.(graf := rest), true) else (mode, false)
  }

  /** The numbers of an extra: line may be followed only by the end of the line, white space or a comment. */
  predicate ExtraEnds(rest: string, n: nat)
  {
    n >= |rest| || Blank(rest[n]) || rest[n] == '#'
  }

  /**
   * extra: `<alpha>:<first overdraw row>:<last overdraw row>`; both rows at
   * most 255 and in order.
   */
  function ApplyExtra(mode: Mode, rest: string): (r: (Mode, bool))
    ensures r.1 <==> ExtraField(rest).Some? && ExtraEnds(rest, ExtraField(rest).value.3) &&
                     ExtraField(rest).value.1 <= ExtraField(rest).value.2 <= 255
    ensures r.1 ==> var (alpha, startDbl, endDbl, _) := ExtraField(rest).value;
      r.0 == mode.(alphablend := alpha != 0, overdrawRow := startDbl, overdrawMax := endDbl)
    ensures !r.1 ==> r.0 == mode
  {
    match ExtraField(rest)
    case None => (mode, false)
    case Some((alpha, startDbl, endDbl, n)) =>
      if !ExtraEnds(rest, n) then (mode, false)
      else if startDbl > 255 || endDbl > 255 then (mode, false)
      else if endDbl < startDbl then (mode, false)
      else (mode.(alphablend := alpha != 0, overdrawRow := startDbl, overdrawMax := endDbl), true)
  }

  /** The switch of parse_line: the directive's handler applied to the current mode. */
  function ApplyDirective(stage: Stage, mode: Mode, rest: string, earlier: seq<Mode>, cfg: Config): (Mode, bool)
  {
    match stage
    case HaveName => ApplyName(mode, rest, earlier, cfg)
    case HaveDir => ApplyDir(mode, rest, cfg)
    case HaveSize => ApplySize(mode, rest, cfg)
    case HavePref => ApplyPref(mode, rest, cfg)
    case HaveExtra => ApplyExtra(mode, rest)
    case HaveGraf => ApplyGraf(mode, rest, cfg)
  }

  // ---------------------------------------------------------------
  // parse_line

  /** The parser state: the modes newest first, the stage bits of the newest, and the error flag. */
  datatype ParseState = ParseState(list: seq<Mode>, stage: set<Stage>, result: int)

  const START: ParseState := ParseState([], {}, 0)

  /** A stage is only recorded once a mode exists, and result is 0 or 1. */
  predicate Wf(st: ParseState)
  {
    (st.stage != {} ==> |st.list| >= 1) && (st.result == 0 || st.result == 1)
  }

  /** The state after parse_line reads one line. */
  function ParseLine(st: ParseState, line: string, cfg: Config): (r: ParseState)
    requires Wf(st)
    ensures Wf(r)
  {
    var off := SkipBlanks(line, 0);
    if off == |line| || line[off] == '#' then st
    else
      match MatchDirective(line, off)
      case None => st.(result := 1)
      case Some((stage, next)) =>
        if stage == HaveName then NameLine(st, line[next..], cfg)
        else if st.stage == {} then st.(result := 1)
        else OtherLine(st, stage, line[next..], cfg)
  }

  /**
   * A name: line: an incomplete previous mode is an error; a blank mode is
   * put at the head of the list and the stage starts afresh.
   */
  function NameLine(st: ParseState, rest: string, cfg: Config): (r: ParseState)
    requires Wf(st)
    ensures Wf(r) && |r.list| == |st.list| + 1 && r.list[1..] == st.list
  {
    var r0 := if st.stage != {} && !ModeComplete(st.stage) then 1 else st.result;
    var (m, ok) := ApplyName(BLANK_MODE, rest, st.list, cfg);
    ParseState([m] + st.list, {HaveName}, if ok then r0 else 1)
  }

  /** Any other directive, once a mode exists: update the head mode; record the stage if no error. */
  function OtherLine(st: ParseState, stage: Stage, rest: string, cfg: Config): (r: ParseState)
    requires Wf(st) && st.stage != {}
    ensures Wf(r) && |r.list| == |st.list| && r.list[1..] == st.list[1..]
  {
    var (m, ok) := ApplyDirective(stage, st.list[0], rest, st.list[1..], cfg);
    var res := if ok then st.result else 1;
    ParseState(st.list[0 := m], if res == 0 then st.stage + {stage} else st.stage, res)
  }

  /** Blank lines and comment lines change nothing. */
  lemma CommentLineNoop(st: ParseState, line: string, cfg: Config)
    requires Wf(st)
    requires var off := SkipBlanks(line, 0); off == |line| || line[off] == '#'
    ensures ParseLine(st, line, cfg) == st
  {
  }

  /** A line that is not blank, not a comment and not a directive is an error, and changes nothing else. */
  lemma UnknownDirective(st: ParseState, line: string, cfg: Config)
    requires Wf(st)
    requires var off := SkipBlanks(line, 0); off < |line| && line[off] != '#' && MatchDirective(line, off).None?
    ensures ParseLine(st, line, cfg) == st.(result := 1)
  {
  }

  /** Any directive but name: before the first name: is an error, and changes nothing else. */
  lemma DirectiveBeforeName(st: ParseState, line: string, cfg: Config)
    requires Wf(st) && st.stage == {}
    requires var off := SkipBlanks(line, 0);
      (off < |line| && line[off] != '#' && MatchDirective(line, off).Some? &&
       MatchDirective(line, off).value.0 != HaveName)
    ensures ParseLine(st, line, cfg) == st.(result := 1)
  {
  }

  /**
   * An error is never cleared; a line read without error records its
   * directive, a name: line starting a fresh stage set; any other line that
   * raises or keeps an error leaves the stage bits as they were.
   */
  lemma StageAndResult(st: ParseState, line: string, cfg: Config)
    requires Wf(st)
    ensures ParseLine(st, line, cfg).result >= st.result
    ensures var r := ParseLine(st, line, cfg); var off := SkipBlanks(line, 0);
      r.result == 0 && off < |line| && line[off] != '#' ==>
        MatchDirective(line, off).Some? &&
        r.stage == (if MatchDirective(line, off).value.0 == HaveName then {HaveName}
                    else st.stage + {MatchDirective(line, off).value.0})
    ensures var r := ParseLine(st, line, cfg); var off := SkipBlanks(line, 0);
      r.result != 0 &&
      !(off < |line| && line[off] != '#' && MatchDirective(line, off).Some? &&
        MatchDirective(line, off).value.0 == HaveName) ==>
        r.stage == st.stage
  {
  }

  /** A new name: while the previous mode lacks directory, size, pref or graf is an error. */
  lemma IncompleteModeRejected(st: ParseState, line: string, cfg: Config)
    requires Wf(st) && st.stage != {} && !ModeComplete(st.stage)
    requires var off := SkipBlanks(line, 0);
      (off < |line| && MatchDirective(line, off).Some? && MatchDirective(line, off).value.0 == HaveName)
    ensures ParseLine(st, line, cfg).result == 1
    ensures |ParseLine(st, line, cfg).list| == |st.list| + 1
  {
  }

  /** Every mode has an id at most 255 other than GRAPHICS_NONE, and no two modes share one. */
  predicate IdsValid(list: seq<Mode>, cfg: Config)
  {
    (forall k :: 0 <= k < |list| ==> list[k].grafID <= 255 && list[k].grafID != cfg.graphicsNone) &&
    (forall i, j :: 0 <= i < j < |list| ==> list[i].grafID != list[j].grafID)
  }

  /** While no error occurs the ids stay valid and distinct. */
  lemma ParseLineKeepsIds(st: ParseState, line: string, cfg: Config)
    requires Wf(st) && IdsValid(st.list, cfg)
    ensures ParseLine(st, line, cfg).result == 0 ==> IdsValid(ParseLine(st, line, cfg).list, cfg)
  {
    var off := SkipBlanks(line, 0);
    if off < |line| && line[off] != '#' {
      match MatchDirective(line, off)
      case None =>
      case Some((stage, next)) =>
        if stage == HaveName {
          NameLineKeepsIds(st, line[next..], cfg);
        } else if st.stage != {} {
          OtherLineKeepsIds(st, stage, line[next..], cfg);
        }
    }
  }

  /** A name: line read without error puts a mode with a fresh, valid id in front. */
  lemma NameLineKeepsIds(st: ParseState, rest: string, cfg: Config)
    requires Wf(st) && IdsValid(st.list, cfg)
    ensures NameLine(st, rest, cfg).result == 0 ==> IdsValid(NameLine(st, rest, cfg).list, cfg)
  {
    var r := NameLine(st, rest, cfg);
    var (m, ok) := ApplyName(BLANK_MODE, rest, st.list, cfg);
    if r.result == 0 {
      assert r.list == [m] + st.list;
      forall j | 1 <= j < |r.list|
        ensures r.list[0].grafID != r.list[j].grafID
      {
        assert r.list[j] == st.list[j - 1];
      }
    }
  }

  /** Any directive other than name: keeps the id of the mode it updates. */
  lemma OtherLineKeepsIds(st: ParseState, stage: Stage, rest: string, cfg: Config)
    requires Wf(st) && st.stage != {} && stage != HaveName && IdsValid(st.list, cfg)
    ensures IdsValid(OtherLine(st, stage, rest, cfg).list, cfg)
  {
    var (m, ok) := ApplyDirective(stage, st.list[0], rest, st.list[1..], cfg);
    assert m.grafID == st.list[0].grafID;
    assert OtherLine(st, stage, rest, cfg).list == st.list[0 := m];
  }

  /** The state after reading the lines of the file, stopping at the first line with an error. */
  function ParseLines(st: ParseState, lines: seq<string>, cfg: Config): (r: ParseState)
    requires Wf(st)
    ensures Wf(r)
    decreases |lines|
  {
    if lines == [] then st
    else
      var s1 := ParseLine(st, lines[0], cfg);
      if s1.result != 0 then s1 else ParseLines(s1, lines[1..], cfg)
  }

  /** A file read without error yields valid, distinct ids. */
  lemma {:induction false} ParseLinesKeepsIds(st: ParseState, lines: seq<string>, cfg: Config)
    requires Wf(st) && IdsValid(st.list, cfg)
    ensures ParseLines(st, lines, cfg).result == 0 ==> IdsValid(ParseLines(st, lines, cfg).list, cfg)
    decreases |lines|
  {
    if lines != [] {
      ParseLineKeepsIds(st, lines[0], cfg);
      var s1 := ParseLine(st, lines[0], cfg);
      if s1.result == 0 {
        ParseLinesKeepsIds(s1, lines[1..], cfg);
      }
    }
  }

  // ---------------------------------------------------------------
  // The parser as the source keeps it: a record updated line by line

  class GrafModeParser {
    var list: seq<Mode>
    var stage: set<Stage>
    var result: int
    const cfg: Config

    function State(): ParseState
      reads this
    {
      ParseState(list, stage, result)
    }

    predicate Valid()
      reads this
    {
      Wf(State())
    }

    constructor (cfg: Config)
      ensures Valid() && State() == START && this.cfg == cfg
    {
      list := [];
      stage := {};
      result := 0;
      this.cfg := cfg;
    }

    /** parse_line. */
    method ParseLineInPlace(line: string)
      requires Valid()
      modifies this
      ensures Valid()
      ensures State() == ParseLine(old(State()), line, cfg)
    {
      var offset := 0;
      while offset < |line| && Blank(line[offset])
        invariant offset <= |line|
        invariant SkipBlanks(line, offset) == SkipBlanks(line, 0)
      {
        offset := offset + 1;
      }
      if offset == |line| || line[offset] == '#' {
        return;
      }
      var directive := MatchDirective(line, offset);
      if directive.None? {
        result := 1;
        return;
      }
      var (newStage, next) := directive.value;
      if newStage == HaveName {
        StartMode(line[next..]);
      } else if stage == {} {
        result := 1;
      } else {
        ApplyToCurrent(newStage, line[next..]);
      }
    }

    /** The name: branch of parse_line. */
    method StartMode(rest: string)
      requires Valid()
      modifies this
      ensures Valid() && State() == NameLine(old(State()), rest, cfg)
    {
      if stage != {} && !ModeComplete(stage) {
        result := 1;
      }
      stage := {HaveName};
      list := [BLANK_MODE] + list;
      var (m, ok) := ApplyName(list[0], rest, list[1..], cfg);
      list := list[0 := m];
      if !ok {
        result := 1;
      }
      if result == 0 {
        stage := stage + {HaveName};
      }
    }

    /** The branches of parse_line for the other directives. */
    method ApplyToCurrent(newStage: Stage, rest: string)
      requires Valid() && stage != {}
      modifies this
      ensures Valid() && State() == OtherLine(old(State()), newStage, rest, cfg)
    {
      var (m, ok) := ApplyDirective(newStage, list[0], rest, list[1..], cfg);
      list := list[0 := m];
      if !ok {
        result := 1;
      }
      if result == 0 {
        stage := stage + {newStage};
      }
    }

    /** finish_parse_grafmode: publish the modes if transfer still holds, then drop the list. */
    method FinishParse(g: GraphicsModes, transfer: bool)
      requires Valid() && ConfigOk(cfg)
      modifies this, g
      ensures list == [] && stage == old(stage)
      ensures result == FinishResult(old(State()), transfer)
      ensures Transfers(old(State()), transfer) ==>
        g.modes != null && fresh(g.modes) &&
        g.modes[..] == FileOrder(old(list)) + [Sentinel(cfg)] &&
        g.highId == HighId(old(list), cfg.graphicsNone) &&
        g.current == Some(|old(list)|)
      ensures !Transfers(old(State()), transfer) ==>
        g.modes == old(g.modes) && g.highId == old(g.highId) && g.current == old(g.current)
    {
      var moveOn := transfer;
      if moveOn {
        if list == [] || stage == {} {
          // only a message: no graphics modes in the file
        } else if !ModeComplete(stage) {
          moveOn := false;
          result := 1;
        }
      }
      if moveOn {
        var max := cfg.graphicsNone;
        var count := 0;
        while count < |list|
          modifies {}
          invariant 0 <= count <= |list|
          invariant HighId(list[count..], max) == HighId(list, cfg.graphicsNone)
        {
          if list[count].grafID > max {
            max := list[count].grafID;
          }
          count := count + 1;
        }
        assert list[count..] == [];
        var newList := new Mode[count + 1](_ => BLANK_MODE);
        var i := count - 1;
        while i >= 0
          invariant -1 <= i < count && count == |list| && newList.Length == count + 1
          invariant forall k :: i < k < count ==> newList[k] == list[count - 1 - k]
          modifies newList
        {
          newList[i] := list[count - 1 - i];
          i := i - 1;
        }
        newList[count] := Sentinel(cfg);
        assert newList[..] == FileOrder(list) + [Sentinel(cfg)];
        g.modes := newList;
        g.highId := max;
        g.current := Some(count);
      }
      list := [];
    }
  }

  // ---------------------------------------------------------------
  // finish_parse_grafmode and the published modes

  /**
   * The built-in "no graphics" entry that ends the array.  Under ConfigOk its
   * strings fit their buffers, so the C code's strncpy copies them whole.
   */
  function Sentinel(cfg: Config): (r: Mode)
    ensures r.grafID == cfg.graphicsNone && r.path == "" && r.file == ""
    ensures ConfigOk(cfg) ==>
      Fits(r.pref, cfg.prefSize) && Fits(r.menuname, cfg.menunameSize) && Fits(r.graf, cfg.grafSize)
  {
    Mode(cfg.graphicsNone, false, 0, 0, 0, 0, "", "none", "", "Classic ASCII", "ascii")
  }

  /** The modes in file order: the list reversed. */
  function FileOrder(list: seq<Mode>): (r: seq<Mode>)
    ensures |r| == |list|
    ensures forall k :: 0 <= k < |r| ==> r[k] == list[|list| - 1 - k]
  {
    seq(|list|, k requires 0 <= k < |list| => list[|list| - 1 - k])
  }

  /** The largest id in the list, starting from m. */
  function HighId(list: seq<Mode>, m: nat): nat
    decreases |list|
  {
    if list == [] then m
    else HighId(list[1..], if list[0].grafID > m then list[0].grafID else m)
  }

  /** graphics_mode_high_id is at least GRAPHICS_NONE and every id, and is one of them. */
  lemma {:induction false} HighIdIsMax(list: seq<Mode>, m: nat)
    ensures HighId(list, m) >= m
    ensures forall k :: 0 <= k < |list| ==> list[k].grafID <= HighId(list, m)
    ensures HighId(list, m) == m || IdIn(HighId(list, m), list)
    decreases |list|
  {
    if list != [] {
      var m1 := if list[0].grafID > m then list[0].grafID else m;
      HighIdIsMax(list[1..], m1);
      forall k | 1 <= k < |list|
        ensures list[k].grafID <= HighId(list, m)
      {
        assert list[k] == list[1..][k - 1];
      }
      if HighId(list, m) != m1 {
        var k :| 0 <= k < |list[1..]| && list[1..][k].grafID == HighId(list, m);
        assert list[k + 1].grafID == HighId(list, m);
      }
    }
  }

  /** The modes are published unless the file named a mode it left incomplete. */
  predicate Transfers(st: ParseState, transfer: bool)
  {
    transfer && (st.list == [] || st.stage == {} || ModeComplete(st.stage))
  }

  /** The error flag after finish_parse_grafmode. */
  function FinishResult(st: ParseState, transfer: bool): int
  {
    if transfer && !Transfers(st, transfer) then 1 else st.result
  }

  /** The published array when the source finishes on state st. */
  function Published(st: ParseState, cfg: Config): seq<Mode>
  {
    FileOrder(st.list) + [Sentinel(cfg)]
  }

  /** The global graphics_modes array, graphics_mode_high_id and current_graphics_mode. */
  class GraphicsModes {
    var modes: array?<Mode>
    var highId: int
    var current: Option<nat>

    constructor ()
      ensures modes == null && current == None
    {
      modes := null;
      highId := 0;
      current := None;
    }

    /** get_graphics_mode: the first entry with the id (a byte), walking the array in order. */
    method GetGraphicsMode(id: nat) returns (r: Option<nat>)
      requires id <= 255
      ensures modes == null ==> r == None
      ensures modes != null ==> r == FirstWithId(modes[..], id)
    {
      if modes == null {
        return None;
      }
      var i := 0;
      while i < modes.Length
        invariant 0 <= i <= modes.Length
        invariant FirstWithIdFrom(modes[..], id, i) == FirstWithIdFrom(modes[..], id, 0)
      {
        if modes[i].grafID == id {
          return Some(i);
        }
        i := i + 1;
      }
      return None;
    }
  }

  /** The first index from i on whose mode has the id. */
  function FirstWithIdFrom(modes: seq<Mode>, id: nat, i: nat): (r: Option<nat>)
    requires i <= |modes|
    ensures r.Some? ==> i <= r.value < |modes| && modes[r.value].grafID == id
    ensures r.Some? ==> forall k :: i <= k < r.value ==> modes[k].grafID != id
    ensures r.None? ==> forall k :: i <= k < |modes| ==> modes[k].grafID != id
    decreases |modes| - i
  {
    if i == |modes| then None
    else if modes[i].grafID == id then Some(i)
    else FirstWithIdFrom(modes, id, i + 1)
  }

  function FirstWithId(modes: seq<Mode>, id: nat): Option<nat>
  {
    FirstWithIdFrom(modes, id, 0)
  }

  /** In an array with distinct ids, looking up the id of entry k finds entry k. */
  lemma LookupDistinct(modes: seq<Mode>, k: nat)
    requires k < |modes|
    requires forall i, j :: 0 <= i < j < |modes| ==> modes[i].grafID != modes[j].grafID
    ensures FirstWithId(modes, modes[k].grafID) == Some(k)
  {
    var r := FirstWithId(modes, modes[k].grafID);
  }

  /**
   * After a file read without error, every published mode is found by its
   * own id, GRAPHICS_NONE finds the "Classic ASCII" entry at the end, and
   * any other id finds nothing.
   */
  lemma PublishedLookup(st: ParseState, cfg: Config, id: nat)
    requires IdsValid(st.list, cfg)
    ensures var a := Published(st, cfg);
      forall k :: 0 <= k < |a| ==> FirstWithId(a, a[k].grafID) == Some(k)
    ensures FirstWithId(Published(st, cfg), cfg.graphicsNone) == Some(|st.list|)
    ensures !IdIn(id, st.list) && id != cfg.graphicsNone ==> FirstWithId(Published(st, cfg), id) == None
  {
    var a := Published(st, cfg);
    var n := |st.list|;
    forall i, j | 0 <= i < j < |a|
      ensures a[i].grafID != a[j].grafID
    {
      if j < n {
        assert a[i] == st.list[n - 1 - i] && a[j] == st.list[n - 1 - j];
      } else {
        assert a[j] == Sentinel(cfg);
        assert a[i] == st.list[n - 1 - i];
      }
    }
    forall k | 0 <= k < |a|
      ensures FirstWithId(a, a[k].grafID) == Some(k)
    {
      LookupDistinct(a, k);
    }
    assert a[n] == Sentinel(cfg);
    LookupDistinct(a, n);
    if !IdIn(id, st.list) && id != cfg.graphicsNone {
      forall k | 0 <= k < |a|
        ensures a[k].grafID != id
      {
        if k < n {
          assert a[k] == st.list[n - 1 - k];
        }
      }
    }
  }

  // ---------------------------------------------------------------
  // init_graphics_modes

  /** Whether init_graphics_modes succeeds on the file (None when it cannot be opened). */
  function InitResult(file: Option<seq<string>>, cfg: Config): bool
  {
    match file
    case None => false
    case Some(lines) =>
      var st := ParseLines(START, lines, cfg);
      FinishResult(st, st.result == 0) == 0
  }

  /**
   * init_graphics_modes: read the lines until one sets the error flag,
   * finish, and report whether no error occurred.
   */
  method InitGraphicsModes(file: Option<seq<string>>, cfg: Config, g: GraphicsModes) returns (ok: bool)
    requires ConfigOk(cfg)
    modifies g
    ensures ok == InitResult(file, cfg)
    ensures ok ==>
      (g.modes != null && g.modes[..] == Published(ParseLines(START, file.value, cfg), cfg) &&
       g.highId == HighId(ParseLines(START, file.value, cfg).list, cfg.graphicsNone) &&
       g.current == Some(|ParseLines(START, file.value, cfg).list|))
    ensures !ok ==> g.modes == old(g.modes) && g.highId == old(g.highId) && g.current == old(g.current)
  {
    if file.None? {
      return false;
    }
    var lines := file.value;
    var p := new GrafModeParser(cfg);
    var lineNo := 0;
    while lineNo < |lines|
      invariant 0 <= lineNo <= |lines|
      invariant p.Valid() && p.cfg == cfg && fresh(p)
      invariant p.result == 0
      invariant ParseLines(p.State(), lines[lineNo..], cfg) == ParseLines(START, lines, cfg)
      invariant g.modes == old(g.modes) && g.highId == old(g.highId) && g.current == old(g.current)
    {
      p.ParseLineInPlace(lines[lineNo]);
      lineNo := lineNo + 1;
      if p.result != 0 {
        break;
      }
    }
    var st := p.State();
    assert st == ParseLines(START, lines, cfg) by {
      if lineNo == |lines| && p.result == 0 {
        assert lines[lineNo..] == [];
      }
    }
    p.FinishParse(g, p.result == 0);
    ok := p.result == 0;
  }

  /** A successful init publishes modes with valid, distinct ids, each found by get_graphics_mode. */
  lemma InitPublishesFindable(lines: seq<string>, cfg: Config)
    requires InitResult(Some(lines), cfg)
    ensures var st := ParseLines(START, lines, cfg);
      IdsValid(st.list, cfg) &&
      forall k :: 0 <= k < |Published(st, cfg)| ==>
        FirstWithId(Published(st, cfg), Published(st, cfg)[k].grafID) == Some(k)
  {
    ParseLinesKeepsIds(START, lines, cfg);
    var st := ParseLines(START, lines, cfg);
    PublishedLookup(st, cfg, cfg.graphicsNone);
  }
}
