/** Reading a pasted roster: cells out of lines, people out of cells, and nothing lost on the way. */
module RosterParse {
  import opened Models

  const MAX_NAME := 120
  const MAX_ADDRESS := 500
  const MAX_SEATS := 8
  const QUOTE: char := '\"'

  datatype Delimiter = Tab | Comma

  // ---- Cells ---------------------------------------------------------------------------------------------

  predicate IsSpace(c: char) {
    || c in {' ', '\t', '\n', '\r'} || c in {'\U{000B}', '\U{000C}', '\U{00A0}', '\U{1680}', '\U{2028}', '\U{2029}'}
    || c in {'\U{202F}', '\U{205F}', '\U{3000}', '\U{FEFF}'} || '\U{2000}' <= c <= '\U{200A}'
  }

  function TrimStart(s: string): (r: string)
    ensures |r| <= |s|
    ensures r != [] ==> !IsSpace(r[0])
  {
    if s != [] && IsSpace(s[0]) then TrimStart(s[1..]) else s
  }

  function TrimEnd(s: string): (r: string)
    ensures |r| <= |s|
  {
    if s != [] && IsSpace(s[|s| - 1]) then TrimEnd(s[..|s| - 1]) else s
  }

  function Trim(s: string): string {
    TrimEnd(TrimStart(s))
  }

  /** What is left of a comma-separated line, given the cells read and the one being read. */
  function Scan(line: string, cells: seq<string>, cell: string, quoted: bool): seq<string>
    decreases |line|
  {
    if line == [] then cells + [Trim(cell)]
    else if quoted then
      if line[0] == QUOTE then
        if |line| > 1 && line[1] == QUOTE then Scan(line[2..], cells, cell + [QUOTE], true)
        else Scan(line[1..], cells, cell, false)
      else Scan(line[1..], cells, cell + [line[0]], true)
    else if line[0] == QUOTE then Scan(line[1..], cells, cell, true)
    else if line[0] == ',' then Scan(line[1..], cells + [Trim(cell)], [], false)
    else Scan(line[1..], cells, cell + [line[0]], false)
  }

  function ScanTabs(line: string, cells: seq<string>, cell: string): seq<string>
    decreases |line|
  {
    if line == [] then cells + [Trim(cell)]
    else if line[0] == '\t' then ScanTabs(line[1..], cells + [Trim(cell)], [])
    else ScanTabs(line[1..], cells, cell + [line[0]])
  }

  function Cells(line: string, delimiter: Delimiter): seq<string> {
    if delimiter.Tab? then ScanTabs(line, [], []) else Scan(line, [], [], false)
  }

  /** The character loop of `splitLine`. */
  method SplitCommas(line: string) returns (cells: seq<string>)
    ensures cells == Scan(line, [], [], false)
  {
    cells := [];
    var cell := [];
    var quoted := false;
    var i := 0;
    while i < |line|
      invariant 0 <= i <= |line|
      invariant Scan(line[i..], cells, cell, quoted) == Scan(line, [], [], false)
    {
      var ch := line[i];
      assert line[i..][0] == ch && line[i..][1..] == line[i + 1..];
      if quoted {
        if ch == QUOTE {
          if i + 1 < |line| && line[i + 1] == QUOTE {
            assert line[i..][1] == line[i + 1] && line[i..][2..] == line[i + 2..];
            cell := cell + [QUOTE];
            i := i + 1;
          } else {
            quoted := false;
          }
        } else {
          cell := cell + [ch];
        }
      } else if ch == QUOTE {
        quoted := true;
      } else if ch == ',' {
        cells := cells + [Trim(cell)];
        cell := [];
      } else {
        cell := cell + [ch];
      }
      i := i + 1;
    }
    assert line[i..] == [];
    cells := cells + [Trim(cell)];
  }

  method SplitTabs(line: string) returns (cells: seq<string>)
    ensures cells == ScanTabs(line, [], [])
  {
    cells := [];
    var cell := [];
    for i := 0 to |line|
      invariant ScanTabs(line[i..], cells, cell) == ScanTabs(line, [], [])
    {
      assert line[i..][0] == line[i] && line[i..][1..] == line[i + 1..];
      if line[i] == '\t' {
        cells := cells + [Trim(cell)];
        cell := [];
      } else {
        cell := cell + [line[i]];
      }
    }
    assert line[|line|..] == [];
    cells := cells + [Trim(cell)];
  }

  /** `splitLine` */
  method SplitLine(line: string, delimiter: Delimiter) returns (cells: seq<string>)
    ensures cells == Cells(line, delimiter)
  {
    if delimiter.Tab? {
      cells := SplitTabs(line);
    } else {
      cells := SplitCommas(line);
    }
  }

  // ---- Quoting, as section 2 of RFC 4180 has it, and undoing it --------------------------------------------

  /** Inner quotes doubled. */
  function Doubled(cell: string): string {
    if cell == [] then []
    else (if cell[0] == QUOTE then [QUOTE, QUOTE] else [cell[0]]) + Doubled(cell[1..])
  }

  function Quoted(cell: string): string {
    [QUOTE] + Doubled(cell) + [QUOTE]
  }

  /** A cell as it may be written: quoted, or bare when it holds no quote and no comma. */
  ghost predicate Writes(text: string, cell: string) {
    text == Quoted(cell) || (text == cell && QUOTE !in cell && ',' !in cell)
  }

  ghost predicate WritesAll(texts: seq<string>, cells: seq<string>) {
    |texts| == |cells| && forall i :: 0 <= i < |texts| ==> Writes(texts[i], cells[i])
  }

  function Joined(texts: seq<string>): string
    requires |texts| > 0
  {
    if |texts| == 1 then texts[0] else texts[0] + [','] + Joined(texts[1..])
  }

  function Trims(cells: seq<string>): seq<string> {
    if cells == [] then [] else [Trim(cells[0])] + Trims(cells[1..])
  }

  /** The rest of a quoted cell, its closing quote, and what follows. */
  function Closing(cell: string, rest: string): string {
    Doubled(cell) + [QUOTE] + rest
  }

  lemma {:induction false} InsideQuotes(cell: string, rest: string, cells: seq<string>, read: string)
    requires rest == [] || rest[0] != QUOTE
    ensures Scan(Closing(cell, rest), cells, read, true) == Scan(rest, cells, read + cell, false)
  {
    hide Scan, Closing;
    if cell == [] {
      assert read + cell == read;
      CloseQuote(rest, cells, read);
    } else {
      ScanFirst(cell, rest, cells, read);
      InsideQuotes(cell[1..], rest, cells, read + [cell[0]]);
      assert read + [cell[0]] + cell[1..] == read + cell;
    }
  }

  lemma CloseQuote(rest: string, cells: seq<string>, read: string)
    requires rest == [] || rest[0] != QUOTE
    ensures Scan(Closing([], rest), cells, read, true) == Scan(rest, cells, read, false)
  {
    var line := Closing([], rest);
    assert line == [QUOTE] + rest;
    assert line[1..] == rest;
  }

  lemma ScanFirst(cell: string, rest: string, cells: seq<string>, read: string)
    requires cell != []
    ensures Scan(Closing(cell, rest), cells, read, true)
         == Scan(Closing(cell[1..], rest), cells, read + [cell[0]], true)
  {
    var first := if cell[0] == QUOTE then [QUOTE, QUOTE] else [cell[0]];
    var line := Closing(cell, rest);
    assert line == first + Closing(cell[1..], rest);
    assert line[|first|..] == Closing(cell[1..], rest);
  }

  lemma {:induction false} OutsideQuotes(cell: string, rest: string, cells: seq<string>, read: string)
    requires QUOTE !in cell && ',' !in cell
    ensures Scan(cell + rest, cells, read, false) == Scan(rest, cells, read + cell, false)
  {
    if cell == [] {
      assert cell + rest == rest && read + cell == read;
    } else {
      assert cell[0] != QUOTE && cell[0] != ',';
      assert (cell + rest)[1..] == cell[1..] + rest;
      OutsideQuotes(cell[1..], rest, cells, read + [cell[0]]);
      assert read + [cell[0]] + cell[1..] == read + cell;
    }
  }

  lemma ScanCell(text: string, cell: string, rest: string, cells: seq<string>)
    requires Writes(text, cell) && (rest == [] || rest[0] == ',')
    ensures Scan(text + rest, cells, [], false) == Scan(rest, cells, cell, false)
  {
    if text == Quoted(cell) {
      assert (text + rest)[1..] == Closing(cell, rest);
      InsideQuotes(cell, rest, cells, []);
      assert [] + cell == cell;
    } else {
      OutsideQuotes(cell, rest, cells, []);
      assert [] + cell == cell;
    }
  }

  /** Reading a written line gives the cells back, trimmed. */
  lemma {:induction false} ScanUndoesWriting(texts: seq<string>, cells: seq<string>, done: seq<string>)
    requires |texts| > 0 && WritesAll(texts, cells)
    ensures Scan(Joined(texts), done, [], false) == done + Trims(cells)
  {
    if |texts| == 1 {
      assert texts[0] + [] == texts[0];
      ScanCell(texts[0], cells[0], [], done);
      assert Trims(cells) == [Trim(cells[0])];
    } else {
      var rest := [','] + Joined(texts[1..]);
      assert Joined(texts) == texts[0] + rest;
      ScanCell(texts[0], cells[0], rest, done);
      assert rest[1..] == Joined(texts[1..]);
      ScanUndoesWriting(texts[1..], cells[1..], done + [Trim(cells[0])]);
      assert done + [Trim(cells[0])] + Trims(cells[1..]) == done + Trims(cells);
    }
  }

  ghost predicate Trimmed(s: string) {
    Trim(s) == s
  }

  lemma {:induction false} TrimsSame(cells: seq<string>)
    requires forall i :: 0 <= i < |cells| ==> Trimmed(cells[i])
    ensures Trims(cells) == cells
  {
    if cells != [] {
      TrimsSame(cells[1..]);
    }
  }

  /** `splitLine` undoes quoting: any trimmed cells, quoted or bare, joined by commas, come back exactly. */
  lemma SplitUndoesQuoting(texts: seq<string>, cells: seq<string>)
    requires |texts| > 0 && WritesAll(texts, cells)
    requires forall i :: 0 <= i < |cells| ==> Trimmed(cells[i])
    ensures Cells(Joined(texts), Comma) == cells
  {
    ScanUndoesWriting(texts, cells, []);
    TrimsSame(cells);
    assert [] + cells == cells;
  }

  function Tabbed(cells: seq<string>): string
    requires |cells| > 0
  {
    if |cells| == 1 then cells[0] else cells[0] + ['\t'] + Tabbed(cells[1..])
  }

  lemma {:induction false} ScanToTab(cell: string, rest: string, cells: seq<string>, read: string)
    requires '\t' !in cell
    ensures ScanTabs(cell + rest, cells, read) == ScanTabs(rest, cells, read + cell)
  {
    if cell == [] {
      assert cell + rest == rest && read + cell == read;
    } else {
      assert cell[0] != '\t';
      assert (cell + rest)[1..] == cell[1..] + rest;
      ScanToTab(cell[1..], rest, cells, read + [cell[0]]);
      assert read + [cell[0]] + cell[1..] == read + cell;
    }
  }

  /** A spreadsheet's cells, none holding a tab, come back trimmed. */
  lemma {:induction false} TabsComeApart(cells: seq<string>, done: seq<string>)
    requires |cells| > 0 && forall i :: 0 <= i < |cells| ==> '\t' !in cells[i]
    ensures ScanTabs(Tabbed(cells), done, []) == done + Trims(cells)
  {
    if |cells| == 1 {
      assert cells[0] + [] == cells[0] && [] + cells[0] == cells[0];
      ScanToTab(cells[0], [], done, []);
      assert Trims(cells) == [Trim(cells[0])];
    } else {
      var rest := ['\t'] + Tabbed(cells[1..]);
      assert Tabbed(cells) == cells[0] + rest && rest[1..] == Tabbed(cells[1..]);
      ScanToTab(cells[0], rest, done, []);
      assert [] + cells[0] == cells[0];
      TabsComeApart(cells[1..], done + [Trim(cells[0])]);
      assert done + [Trim(cells[0])] + Trims(cells[1..]) == done + Trims(cells);
    }
  }

  // ---- Fields ---------------------------------------------------------------------------------------------------

  datatype Field = DisplayName | Address | RoleCell | SeatsCell | Phone | Email

  datatype ParsedRole = Drives | Rides

  datatype Person = Person(name: string, address: string, role: ParsedRole, seats: int, phone: Option<string>,
                           email: Option<string>, line: nat)

  datatype Reason = NoNameOrAddress | NoName | NoAddress(name: string) | NegativeSeats(name: string)
                  | TooManySeats(name: string, seats: int)

  datatype Skipped = Skipped(line: nat, text: string, reason: Reason)

  type Mapping = map<Field, nat>

  function LowerChar(c: char): char {
    if 'A' <= c <= 'Z' then c - 'A' + 'a' else c
  }

  function Lower(s: string): string {
    seq(|s|, i requires 0 <= i < |s| => LowerChar(s[i]))
  }

  function Spaced(s: string): string {
    seq(|s|, i requires 0 <= i < |s| => if s[i] == '_' then ' ' else s[i])
  }

  /** The field a heading names. */
  function MatchHeader(cell: string): Option<Field> {
    var norm := Spaced(Lower(Trim(cell)));
    if norm in {"name", "display name", "player", "person", "who", "participant", "full name"} then Some(DisplayName)
    else if norm in {"address", "home", "home address", "pickup", "pickup address", "location", "street"}
    then Some(Address)
    else if norm in {"role", "driver", "driving", "type"} then Some(RoleCell)
    else if norm in {"seats", "seats available", "capacity", "spots", "car seats", "free seats"} then Some(SeatsCell)
    else if norm in {"phone", "mobile", "cell", "number", "phone number"} then Some(Phone)
    else if norm in {"email", "e-mail", "email address"} then Some(Email)
    else None
  }

  /** Where each field is first named. */
  function Headings(cells: seq<string>): Mapping {
    var n := |cells|;
    if n == 0 then map[]
    else
      var m := Headings(cells[..n - 1]);
      var f := MatchHeader(cells[n - 1]);
      if f.Some? && f.value !in m then m[f.value := n - 1] else m
  }

  /** Exactly the fields some cell names, each at the first cell that names it. */
  ghost predicate FirstNamed(cells: seq<string>, m: Mapping) {
    && (forall f :: f in m ==>
          && m[f] < |cells| && MatchHeader(cells[m[f]]) == Some(f)
          && forall j :: 0 <= j < m[f] ==> MatchHeader(cells[j]) != Some(f))
    && forall i :: 0 <= i < |cells| && MatchHeader(cells[i]).Some? ==> MatchHeader(cells[i]).value in m
  }

  lemma {:induction false} HeadingsAreFirst(cells: seq<string>)
    ensures FirstNamed(cells, Headings(cells))
  {
    if cells != [] {
      HeadingsAreFirst(cells[..|cells| - 1]);
      OneMoreHeading(cells, Headings(cells[..|cells| - 1]));
    }
  }

  lemma OneMoreHeading(cells: seq<string>, m: Mapping)
    requires cells != [] && FirstNamed(cells[..|cells| - 1], m)
    ensures var f := MatchHeader(cells[|cells| - 1]);
      FirstNamed(cells, if f.Some? && f.value !in m then m[f.value := |cells| - 1] else m)
  {
    hide MatchHeader;
    var n, front := |cells| - 1, cells[..|cells| - 1];
    assert forall i :: 0 <= i < n ==> front[i] == cells[i];
  }

  /** `readHeader`: a header names at least two fields. */
  method ReadHeader(cells: seq<string>) returns (header: Option<Mapping>)
    ensures header == HeaderOf(cells)
    ensures exists m :: FirstNamed(cells, m) && header == if |m| >= 2 then Some(m) else None
  {
    hide MatchHeader, FirstNamed;
    HeadingsAreFirst(cells);
    var m: Mapping := map[];
    var hits := 0;
    for i := 0 to |cells|
      invariant m == Headings(cells[..i]) && hits == |m|
    {
      assert cells[..i + 1][..i] == cells[..i];
      var f := MatchHeader(cells[i]);
      if f.Some? && f.value !in m {
        m := m[f.value := i];
        hits := hits + 1;
      }
    }
    assert cells[..|cells|] == cells;
    header := if hits >= 2 then Some(m) else None;
  }

  function HeaderOf(cells: seq<string>): Option<Mapping> {
    var m := Headings(cells);
    if |m| >= 2 then Some(m) else None
  }

  /** What the columns mean when there is no header. */
  function ByPosition(columns: nat): Mapping {
    var all: Mapping := map[DisplayName := 0, Address := 1];
    var three := if columns > 2 then all[SeatsCell := 2] else all;
    var four := if columns > 3 then three[Phone := 3] else three;
    if columns > 4 then four[Email := 4] else four
  }

  function At(m: Mapping, cells: seq<string>, f: Field): Option<string> {
    if f in m && m[f] < |cells| then Some(cells[m[f]]) else None
  }

  function OrEmpty(s: Option<string>): string {
    if s.Some? then Trim(s.value) else []
  }

  function OrNone(s: Option<string>): Option<string> {
    if OrEmpty(s) == [] then None else Some(OrEmpty(s))
  }

  function ReadRole(raw: Option<string>): Option<ParsedRole> {
    if raw.None? then None
    else
      var v := Lower(Trim(raw.value));
      if v in {"driver", "d", "drive", "driving", "yes", "y", "true", "1"} then Some(Drives)
      else if v in {"passenger", "p", "rider", "ride", "no", "n", "false", "0"} then Some(Rides)
      else None
  }

  predicate IsDigit(c: char) {
    '0' <= c <= '9'
  }

  function Digits(s: string, read: nat): nat {
    if s != [] && IsDigit(s[0]) then Digits(s[1..], 10 * read + (s[0] - '0') as nat) else read
  }

  /** The first number in the text, with its sign. */
  function FirstNumber(s: string): Option<int> {
    if s == [] then None
    else if IsDigit(s[0]) then Some(Digits(s, 0) as int)
    else if s[0] == '-' && |s| > 1 && IsDigit(s[1]) then Some(-(Digits(s[1..], 0) as int))
    else FirstNumber(s[1..])
  }

  function ReadSeats(raw: Option<string>): Option<int> {
    if raw.None? then None else FirstNumber(Trim(raw.value))
  }

  function Clipped(s: string, n: nat): string {
    if |s| <= n then s else s[..n]
  }

  datatype Reading = Read(person: Person) | Refused(reason: Reason)

  /** Seats decide the role where nothing else does, and the role settles the seats. */
  function ReadPerson(m: Mapping, cells: seq<string>, line: nat): Reading {
    var name, address := OrEmpty(At(m, cells, DisplayName)), OrEmpty(At(m, cells, Address));
    if name == [] && address == [] then Refused(NoNameOrAddress)
    else if name == [] then Refused(NoName)
    else if address == [] then Refused(NoAddress(name))
    else
      var seats := ReadSeats(At(m, cells, SeatsCell));
      var said := ReadRole(At(m, cells, RoleCell));
      var role := if said.Some? then said.value else if seats.Some? && seats.value > 0 then Drives else Rides;
      var n := if seats.Some? then seats.value else 0;
      if n < 0 then Refused(NegativeSeats(name))
      else if n > MAX_SEATS then Refused(TooManySeats(name, n))
      else
        var settled := if role.Rides? then 0 else if n == 0 then 1 else n;
        Read(Person(Clipped(name, MAX_NAME), Clipped(address, MAX_ADDRESS), role, settled,
                    OrNone(At(m, cells, Phone)), OrNone(At(m, cells, Email)), line))
  }

  /** What the API accepts of a role and its seats, and of the texts beside them. */
  ghost predicate Acceptable(p: Person) {
    && 0 < |p.name| <= 120 && 0 < |p.address| <= 500
    && (p.role.Rides? ==> p.seats == 0)
    && (p.role.Drives? ==> 1 <= p.seats <= 8)
    && p.phone != Some([]) && p.email != Some([])
  }

  lemma ReadIsAcceptable(m: Mapping, cells: seq<string>, line: nat)
    requires ReadPerson(m, cells, line).Read?
    ensures Acceptable(ReadPerson(m, cells, line).person) && ReadPerson(m, cells, line).person.line == line
  {
    hide Trim, ReadSeats, ReadRole;
  }

  // ---- Lines -------------------------------------------------------------------------------------------------------

  predicate Blank(line: string) {
    Trim(line) == []
  }

  /** Any tab on a line that is not blank means the paste is tab-separated. */
  function DelimiterOf(lines: seq<string>): Delimiter {
    if exists i :: 0 <= i < |lines| && !Blank(lines[i]) && '\t' in lines[i] then Tab else Comma
  }

  datatype Progress = Progress(rows: seq<Person>, skipped: seq<Skipped>, mapping: Option<Mapping>, usedHeader: bool)

  function Classified(st: Progress, m: Mapping, cells: seq<string>, line: nat, text: string): Progress {
    match ReadPerson(m, cells, line)
    case Read(person) => st.(rows := st.rows + [person], mapping := Some(m))
    case Refused(reason) => st.(skipped := st.skipped + [Skipped(line, text, reason)], mapping := Some(m))
  }

  /** One line, the first that is not blank perhaps being a header. */
  function OneLine(st: Progress, text: string, line: nat, delimiter: Delimiter): Progress {
    if Blank(text) then st
    else
      var cells := Cells(text, delimiter);
      if st.mapping.Some? then Classified(st, st.mapping.value, cells, line, text)
      else
        var header := HeaderOf(cells);
        if header.Some? then st.(mapping := header, usedHeader := true)
        else Classified(st, ByPosition(|cells|), cells, line, text)
  }

  function AllLines(lines: seq<string>, delimiter: Delimiter): Progress {
    var n := |lines|;
    if n == 0 then Progress([], [], None, false)
    else OneLine(AllLines(lines[..n - 1], delimiter), lines[n - 1], n, delimiter)
  }

  method Detect(lines: seq<string>) returns (delimiter: Delimiter)
    ensures delimiter == DelimiterOf(lines)
  {
    hide Blank;
    for i := 0 to |lines|
      invariant forall k :: 0 <= k < i ==> Blank(lines[k]) || '\t' !in lines[k]
    {
      if !Blank(lines[i]) && '\t' in lines[i] {
        return Tab;
      }
    }
    delimiter := Comma;
  }

  /** `parseRoster`, on the lines of the text. */
  method ParseLines(lines: seq<string>) returns (rows: seq<Person>, skipped: seq<Skipped>, mapping: Mapping,
                                                 usedHeader: bool, delimiter: Delimiter)
    ensures delimiter == DelimiterOf(lines)
    ensures var st := AllLines(lines, delimiter);
      && rows == st.rows && skipped == st.skipped && usedHeader == st.usedHeader
      && mapping == if st.mapping.Some? then st.mapping.value else map[]
  {
    hide Blank, Cells, HeaderOf, ReadPerson, DelimiterOf;
    delimiter := Detect(lines);
    rows, skipped, usedHeader := [], [], false;
    var known: Option<Mapping> := None;
    for index := 0 to |lines|
      invariant Progress(rows, skipped, known, usedHeader) == AllLines(lines[..index], delimiter)
    {
      assert lines[..index + 1][..index] == lines[..index];
      var line := lines[index];
      if Blank(line) {
        continue;
      }
      var cells := SplitLine(line, delimiter);
      if known.None? {
        var header := ReadHeader(cells);
        if header.Some? {
          known, usedHeader := header, true;
          continue;
        }
        known := Some(ByPosition(|cells|));
      }
      var reading := ReadPerson(known.value, cells, index + 1);
      match reading
      case Read(person) => rows := rows + [person];
      case Refused(reason) => skipped := skipped + [Skipped(index + 1, line, reason)];
    }
    assert lines[..|lines|] == lines;
    mapping := if known.Some? then known.value else map[];
  }

  // ---- Nothing is lost ----------------------------------------------------------------------------------------------

  ghost function RowLines(rows: seq<Person>): set<nat> {
    set i | 0 <= i < |rows| :: rows[i].line
  }

  ghost function SkippedLines(skipped: seq<Skipped>): set<nat> {
    set i | 0 <= i < |skipped| :: skipped[i].line
  }

  /** The lines that say something, counted from one. */
  ghost function Lines(lines: seq<string>): set<nat> {
    set i | 0 <= i < |lines| && !Blank(lines[i]) :: i + 1
  }

  ghost predicate IsFirst(lines: seq<string>, n: nat) {
    n in Lines(lines) && forall k :: k in Lines(lines) ==> n <= k
  }

  /** The three sets share out the whole, the first two counted in full. */
  ghost predicate Shares(rows: set<nat>, nRows: nat, skipped: set<nat>, nSkipped: nat, header: set<nat>,
                         all: set<nat>) {
    && |rows| == nRows && |skipped| == nSkipped
    && (forall n :: n in all <==> n in rows || n in skipped || n in header)
    && (forall n :: n in rows ==> n !in skipped && n !in header)
    && (forall n :: n in skipped ==> n !in header)
  }

  lemma RowShares(rows: set<nat>, nRows: nat, skipped: set<nat>, nSkipped: nat, header: set<nat>, all: set<nat>, n: nat)
    requires Shares(rows, nRows, skipped, nSkipped, header, all) && n !in all
    ensures Shares(rows + {n}, nRows + 1, skipped, nSkipped, header, all + {n})
  {
    assert n !in rows && n !in skipped && n !in header;
  }

  lemma SkipShares(rows: set<nat>, nRows: nat, skipped: set<nat>, nSkipped: nat, header: set<nat>, all: set<nat>,
                   n: nat)
    requires Shares(rows, nRows, skipped, nSkipped, header, all) && n !in all
    ensures Shares(rows, nRows, skipped + {n}, nSkipped + 1, header, all + {n})
  {
    assert n !in rows && n !in skipped && n !in header;
  }

  /** Every line that says something is the header, one row or one complaint, and never two of them. */
  ghost predicate Accounted(lines: seq<string>, st: Progress, header: set<nat>) {
    && Shares(RowLines(st.rows), |st.rows|, SkippedLines(st.skipped), |st.skipped|, header, Lines(lines))
    && (st.mapping.None? <==> Lines(lines) == {})
    && HeaderIs(lines, st.usedHeader, header) && Faithful(lines, st)
  }

  /** The header, when one was read, is the first line that says something. */
  ghost predicate HeaderIs(lines: seq<string>, usedHeader: bool, header: set<nat>) {
    if usedHeader then exists n :: header == {n} && IsFirst(lines, n) else header == {}
  }

  ghost predicate Faithful(lines: seq<string>, st: Progress) {
    && (forall i :: 0 <= i < |st.rows| ==> Acceptable(st.rows[i]))
    && (forall i :: 0 <= i < |st.skipped| ==>
          0 < st.skipped[i].line <= |lines| && st.skipped[i].text == lines[st.skipped[i].line - 1])
  }

  lemma HeaderStays(lines: seq<string>, front: seq<string>, usedHeader: bool, header: set<nat>)
    requires |lines| > 0 && front == lines[..|lines| - 1] && HeaderIs(front, usedHeader, header)
    ensures HeaderIs(lines, usedHeader, header)
  {
    hide IsFirst, Lines;
    LinesMore(lines, front);
  }

  lemma LinesMore(lines: seq<string>, front: seq<string>)
    requires |lines| > 0 && front == lines[..|lines| - 1]
    ensures Lines(lines) == if Blank(lines[|lines| - 1]) then Lines(front) else Lines(front) + {|lines|}
    ensures forall n :: n in Lines(front) ==> 0 < n < |lines|
    ensures forall n :: IsFirst(front, n) ==> IsFirst(lines, n)
    ensures Lines(front) == {} && !Blank(lines[|lines| - 1]) ==> IsFirst(lines, |lines|)
  {
    hide Blank;
    var n := |lines|;
    forall k ensures k in Lines(lines) <==> k in Lines(front) || (k == n && !Blank(lines[n - 1])) {
      if k in Lines(front) {
        var i :| 0 <= i < |front| && !Blank(front[i]) && k == i + 1;
        assert lines[i] == front[i];
      }
      if k in Lines(lines) && k != n {
        var i :| 0 <= i < |lines| && !Blank(lines[i]) && k == i + 1;
        assert lines[i] == front[i];
      }
    }
  }

  lemma RowLinesMore(rows: seq<Person>, p: Person)
    ensures RowLines(rows + [p]) == RowLines(rows) + {p.line}
  {
    forall n ensures n in RowLines(rows + [p]) <==> n in RowLines(rows) + {p.line} {
      if n in RowLines(rows) {
        var i :| 0 <= i < |rows| && rows[i].line == n;
        assert (rows + [p])[i].line == n;
      }
      assert (rows + [p])[|rows|].line == p.line;
    }
  }

  lemma SkippedLinesMore(skipped: seq<Skipped>, k: Skipped)
    ensures SkippedLines(skipped + [k]) == SkippedLines(skipped) + {k.line}
  {
    forall n ensures n in SkippedLines(skipped + [k]) <==> n in SkippedLines(skipped) + {k.line} {
      if n in SkippedLines(skipped) {
        var i :| 0 <= i < |skipped| && skipped[i].line == n;
        assert (skipped + [k])[i].line == n;
      }
      assert (skipped + [k])[|skipped|].line == k.line;
    }
  }

  lemma RowAccounts(lines: seq<string>, front: seq<string>, st: Progress, header: set<nat>, m: Mapping, person: Person)
    requires |lines| > 0 && front == lines[..|lines| - 1] && !Blank(lines[|lines| - 1])
    requires Accounted(front, st, header) && Acceptable(person) && person.line == |lines|
    ensures Accounted(lines, st.(rows := st.rows + [person], mapping := Some(m)), header)
  {
    hide Blank, Acceptable, IsFirst, Lines, RowLines, SkippedLines, HeaderIs, Shares;
    LinesMore(lines, front);
    HeaderStays(lines, front, st.usedHeader, header);
    RowLinesMore(st.rows, person);
    RowShares(RowLines(st.rows), |st.rows|, SkippedLines(st.skipped), |st.skipped|, header, Lines(front), |lines|);
    assert |lines| in Lines(lines);
  }

  lemma SkipAccounts(lines: seq<string>, front: seq<string>, st: Progress, header: set<nat>, m: Mapping, k: Skipped)
    requires |lines| > 0 && front == lines[..|lines| - 1] && !Blank(lines[|lines| - 1])
    requires Accounted(front, st, header) && k.line == |lines| && k.text == lines[|lines| - 1]
    ensures Accounted(lines, st.(skipped := st.skipped + [k], mapping := Some(m)), header)
  {
    hide Blank, Acceptable, IsFirst, Lines, RowLines, SkippedLines, HeaderIs, Shares;
    LinesMore(lines, front);
    HeaderStays(lines, front, st.usedHeader, header);
    SkippedLinesMore(st.skipped, k);
    SkipShares(RowLines(st.rows), |st.rows|, SkippedLines(st.skipped), |st.skipped|, header, Lines(front), |lines|);
    assert |lines| in Lines(lines);
  }

  lemma ClassifiedAccounts(lines: seq<string>, front: seq<string>, st: Progress, header: set<nat>, m: Mapping,
                           cells: seq<string>)
    requires |lines| > 0 && front == lines[..|lines| - 1] && !Blank(lines[|lines| - 1])
    requires Accounted(front, st, header)
    ensures Accounted(lines, Classified(st, m, cells, |lines|, lines[|lines| - 1]), header)
  {
    hide Blank, ReadPerson, Acceptable, Accounted;
    var n, text := |lines|, lines[|lines| - 1];
    match ReadPerson(m, cells, n)
    case Read(person) =>
      ReadIsAcceptable(m, cells, n);
      RowAccounts(lines, front, st, header, m, person);
    case Refused(reason) =>
      SkipAccounts(lines, front, st, header, m, Skipped(n, text, reason));
  }

  lemma HeaderAccounts(lines: seq<string>, front: seq<string>, st: Progress, header: set<nat>, m: Mapping)
    requires |lines| > 0 && front == lines[..|lines| - 1] && !Blank(lines[|lines| - 1])
    requires st.mapping.None? && Accounted(front, st, header)
    ensures Accounted(lines, st.(mapping := Some(m), usedHeader := true), {|lines|})
  {
    hide Blank, Acceptable, IsFirst, Lines, RowLines, SkippedLines;
    LinesMore(lines, front);
    assert |lines| in Lines(lines);
    assert HeaderIs(lines, true, {|lines|});
  }

  lemma BlankAccounts(lines: seq<string>, front: seq<string>, st: Progress, header: set<nat>)
    requires |lines| > 0 && front == lines[..|lines| - 1] && Blank(lines[|lines| - 1])
    requires Accounted(front, st, header)
    ensures Accounted(lines, st, header)
  {
    hide Blank, Acceptable, IsFirst, Lines, RowLines, SkippedLines, HeaderIs, Shares;
    LinesMore(lines, front);
    HeaderStays(lines, front, st.usedHeader, header);
  }

  lemma NothingAccounted()
    ensures Accounted([], Progress([], [], None, false), {})
  {
    assert RowLines([]) == {} && SkippedLines([]) == {} && Lines([]) == {};
  }

  /** Every line that is not blank is classified exactly once, and every row is one the API accepts. */
  lemma {:induction false} EveryLineAccounted(lines: seq<string>, delimiter: Delimiter) returns (header: set<nat>)
    ensures Accounted(lines, AllLines(lines, delimiter), header)
  {
    hide Blank, Accounted, Classified, HeaderOf, Cells;
    if lines == [] {
      NothingAccounted();
      header := {};
    } else {
      var n := |lines|;
      var front, text := lines[..n - 1], lines[n - 1];
      var st := AllLines(front, delimiter);
      header := EveryLineAccounted(front, delimiter);
      if Blank(text) {
        BlankAccounts(lines, front, st, header);
      } else if st.mapping.Some? {
        ClassifiedAccounts(lines, front, st, header, st.mapping.value, Cells(text, delimiter));
      } else if HeaderOf(Cells(text, delimiter)).Some? {
        HeaderAccounts(lines, front, st, header, HeaderOf(Cells(text, delimiter)).value);
        header := {n};
      } else {
        ClassifiedAccounts(lines, front, st, header, ByPosition(|Cells(text, delimiter)|), Cells(text, delimiter));
      }
    }
  }

  // ---- The whole text --------------------------------------------------------------------------------------------

  /** Lines end at a carriage return, a line feed, or one followed by the other. */
  function LinesOf(text: string, line: string): seq<string>
    decreases |text|
  {
    if text == [] then [line]
    else if text[0] == '\r' then
      if |text| > 1 && text[1] == '\n' then [line] + LinesOf(text[2..], []) else [line] + LinesOf(text[1..], [])
    else if text[0] == '\n' then [line] + LinesOf(text[1..], [])
    else LinesOf(text[1..], line + [text[0]])
  }

  /** `parseRoster` */
  method ParseRoster(text: string) returns (rows: seq<Person>, skipped: seq<Skipped>, usedHeader: bool)
    ensures var lines := LinesOf(text, []);
      var st := AllLines(lines, DelimiterOf(lines));
      rows == st.rows && skipped == st.skipped && usedHeader == st.usedHeader
      && exists header :: Accounted(lines, st, header)
  {
    hide AllLines, Accounted, DelimiterOf;
    var lines := LinesOf(text, []);
    var mapping, delimiter;
    rows, skipped, mapping, usedHeader, delimiter := ParseLines(lines);
    ghost var header := EveryLineAccounted(lines, delimiter);
  }

  predicate OneLineOnly(s: string) {
    '\r' !in s && '\n' !in s
  }

  predicate IsBreak(b: string) {
    b == ['\n'] || b == ['\r'] || b == ['\r', '\n']
  }

  function Stacked(lines: seq<string>, b: string): string
    requires |lines| > 0
  {
    if |lines| == 1 then lines[0] else lines[0] + b + Stacked(lines[1..], b)
  }

  lemma {:induction false} ReadToEnd(line: string, read: string, rest: string)
    requires OneLineOnly(line)
    ensures LinesOf(line + rest, read) == LinesOf(rest, read + line)
  {
    if line == [] {
      assert line + rest == rest && read + line == read;
    } else {
      assert line[0] != '\r' && line[0] != '\n';
      assert (line + rest)[1..] == line[1..] + rest;
      ReadToEnd(line[1..], read + [line[0]], rest);
      assert read + [line[0]] + line[1..] == read + line;
    }
  }

  /** Lines stacked with any of the three breaks come apart again. */
  lemma {:induction false} LinesComeApart(lines: seq<string>, b: string)
    requires |lines| > 0 && IsBreak(b) && forall i :: 0 <= i < |lines| ==> OneLineOnly(lines[i])
    ensures LinesOf(Stacked(lines, b), []) == lines
  {
    if |lines| == 1 {
      assert lines[0] + [] == lines[0] && [] + lines[0] == lines[0];
      ReadToEnd(lines[0], [], []);
    } else {
      var rest := Stacked(lines[1..], b);
      assert Stacked(lines, b) == lines[0] + (b + rest);
      ReadToEnd(lines[0], [], b + rest);
      assert [] + lines[0] == lines[0];
      LinesComeApart(lines[1..], b);
    }
  }
}
