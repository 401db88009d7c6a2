/** Writing a roster the way spreadsheets do, and reading it back whole. */
module RosterWriting {
  import opened Models
  import opened RosterParse

  // ---- Texts -------------------------------------------------------------------------------------------------

  lemma {:induction false} TrimEndKeeps(s: string)
    requires s != [] && !IsSpace(s[0])
    ensures TrimEnd(s) != []
  {
    if IsSpace(s[|s| - 1]) {
      assert s[..|s| - 1][0] == s[0];
      TrimEndKeeps(s[..|s| - 1]);
    }
  }

  lemma {:induction false} StartKept(s: string, c: char)
    requires c in s && !IsSpace(c)
    ensures TrimStart(s) != []
  {
    if IsSpace(s[0]) {
      assert c in s[1..];
      StartKept(s[1..], c);
    }
  }

  /** A line with anything on it but spaces is not blank. */
  lemma NotBlank(s: string, c: char)
    requires c in s && !IsSpace(c)
    ensures !Blank(s)
  {
    StartKept(s, c);
    TrimEndKeeps(TrimStart(s));
  }

  lemma TrimmedStart(s: string)
    requires Trimmed(s) && s != []
    ensures !IsSpace(s[0])
  {
    assert |Trim(s)| <= |TrimStart(s)|;
  }

  /** What is trimmed: ASCII white space, and every space separator, line separator and mark of Unicode. */
  ghost predicate WhiteChar(c: char) {
    var n := c as int;
    9 <= n <= 13 || n in {0x20, 0xA0, 0x1680, 0x2028, 0x2029, 0x202F, 0x205F, 0x3000, 0xFEFF} || 0x2000 <= n <= 0x200A
  }

  ghost predicate White(s: string) {
    forall i :: 0 <= i < |s| ==> WhiteChar(s[i])
  }

  lemma WhiteIsSpace(c: char)
    ensures WhiteChar(c) <==> IsSpace(c)
  {
  }

  lemma {:induction false} StartTrimmed(before: string, rest: string)
    requires White(before) && (rest == [] || !WhiteChar(rest[0]))
    ensures TrimStart(before + rest) == rest
  {
    hide WhiteChar, IsSpace;
    if before == [] {
      assert before + rest == rest;
      if rest != [] {
        WhiteIsSpace(rest[0]);
      }
    } else {
      WhiteIsSpace(before[0]);
      WhiteTail(before);
      assert (before + rest)[1..] == before[1..] + rest;
      StartTrimmed(before[1..], rest);
    }
  }

  lemma WhiteTail(s: string)
    requires White(s) && s != []
    ensures White(s[1..]) && White(s[..|s| - 1])
  {
    hide WhiteChar;
  }

  lemma {:induction false} EndTrimmed(front: string, after: string)
    requires White(after) && (front == [] || !WhiteChar(front[|front| - 1]))
    ensures TrimEnd(front + after) == front
    decreases |after|
  {
    hide WhiteChar, IsSpace, TrimEnd;
    if after == [] {
      assert front + after == front;
      NoneTrimmed(front);
    } else {
      var n, all := |after| - 1, front + after;
      WhiteIsSpace(after[n]);
      WhiteTail(after);
      EndTrimmed(front, after[..n]);
      OneTrimmed(all);
      assert all[|all| - 1] == after[n] && all[..|all| - 1] == front + after[..n];
    }
  }

  lemma NoneTrimmed(s: string)
    requires s == [] || !WhiteChar(s[|s| - 1])
    ensures TrimEnd(s) == s
  {
    hide WhiteChar, IsSpace;
    if s != [] {
      WhiteIsSpace(s[|s| - 1]);
    }
  }

  lemma OneTrimmed(s: string)
    requires s != [] && IsSpace(s[|s| - 1])
    ensures TrimEnd(s) == TrimEnd(s[..|s| - 1])
  {
  }

  /** Trimming takes the white space off both ends and nothing else. */
  lemma TrimExactly(before: string, core: string, after: string)
    requires White(before) && White(after)
    requires core != [] ==> !WhiteChar(core[0]) && !WhiteChar(core[|core| - 1])
    ensures Trim(before + core + after) == core
  {
    hide WhiteChar, TrimStart, TrimEnd;
    if core == [] {
      WhiteBoth(before, after);
      StartTrimmed(before + after, core);
      EndTrimmed(core, core);
      assert before + core + after == before + after + core;
      assert core + core == core;
    } else {
      assert before + core + after == before + (core + after);
      StartTrimmed(before, core + after);
      EndTrimmed(core, after);
    }
  }

  lemma WhiteBoth(a: string, b: string)
    requires White(a) && White(b)
    ensures White(a + b) && White([])
  {
  }

  predicate Without(s: string, c: char) {
    c !in s
  }

  ghost predicate NoneHas(cells: seq<string>, c: char) {
    forall i :: 0 <= i < |cells| ==> Without(cells[i], c)
  }

  /** Cells that fit a line: nothing in them ends a line or a column, and no spaces around. */
  ghost predicate Fits(cells: seq<string>) {
    && |cells| > 0 && NoneHas(cells, '\t') && NoneHas(cells, '\r') && NoneHas(cells, '\n')
    && forall i :: 0 <= i < |cells| ==> Trimmed(cells[i])
  }

  // ---- Lines -------------------------------------------------------------------------------------------------

  function AllQuoted(cells: seq<string>): (r: seq<string>)
    ensures |r| == |cells| && forall i :: 0 <= i < |r| ==> r[i] == Quoted(cells[i])
  {
    seq(|cells|, i requires 0 <= i < |cells| => Quoted(cells[i]))
  }

  /** As a spreadsheet copies cells, or as it saves them. */
  function Written(cells: seq<string>, delimiter: Delimiter): string
    requires |cells| > 0
  {
    if delimiter.Tab? then Tabbed(cells) else Joined(AllQuoted(cells))
  }

  lemma WrittenReads(cells: seq<string>, delimiter: Delimiter)
    requires Fits(cells)
    ensures Cells(Written(cells, delimiter), delimiter) == cells
  {
    hide Trim, Scan, Doubled, ScanTabs, Joined, Tabbed;
    if delimiter.Tab? {
      forall i | 0 <= i < |cells| ensures '\t' !in cells[i] {
        assert Without(cells[i], '\t');
      }
      TabsComeApart(cells, []);
      TrimsSame(cells);
    } else {
      SplitUndoesQuoting(AllQuoted(cells), cells);
    }
  }

  lemma {:induction false} DoubledHas(cell: string, c: char)
    requires Without(cell, c) && c != QUOTE
    ensures Without(Doubled(cell), c)
  {
    if cell != [] {
      assert cell[0] in cell;
      assert forall x :: x in cell[1..] ==> x in cell;
      DoubledHas(cell[1..], c);
    }
  }

  lemma {:induction false} JoinedHas(texts: seq<string>, c: char)
    requires |texts| > 0 && NoneHas(texts, c) && c != ','
    ensures Without(Joined(texts), c)
  {
    assert Without(texts[0], c);
    if |texts| > 1 {
      JoinedHas(texts[1..], c);
    }
  }

  lemma {:induction false} TabbedHas(cells: seq<string>, c: char)
    requires |cells| > 0 && NoneHas(cells, c) && c != '\t'
    ensures Without(Tabbed(cells), c)
  {
    assert Without(cells[0], c);
    if |cells| > 1 {
      TabbedHas(cells[1..], c);
    }
  }

  lemma WrittenHas(cells: seq<string>, delimiter: Delimiter, c: char)
    requires |cells| > 0 && NoneHas(cells, c) && c != QUOTE && c != ',' && (delimiter.Tab? ==> c != '\t')
    ensures Without(Written(cells, delimiter), c)
  {
    hide Doubled, Joined, Tabbed;
    if delimiter.Tab? {
      TabbedHas(cells, c);
    } else {
      forall i | 0 <= i < |cells| ensures Without(AllQuoted(cells)[i], c) {
        assert Without(cells[i], c);
        DoubledHas(cells[i], c);
      }
      JoinedHas(AllQuoted(cells), c);
    }
  }

  lemma WrittenIsOneLine(cells: seq<string>, delimiter: Delimiter)
    requires Fits(cells)
    ensures OneLineOnly(Written(cells, delimiter))
    ensures delimiter.Comma? ==> '\t' !in Written(cells, delimiter)
    ensures delimiter.Tab? && |cells| > 1 ==> '\t' in Written(cells, delimiter)
  {
    hide NoneHas;
    WrittenHas(cells, delimiter, '\r');
    WrittenHas(cells, delimiter, '\n');
    if delimiter.Comma? {
      WrittenHas(cells, delimiter, '\t');
    }
  }

  lemma {:induction false} InTabbed(cells: seq<string>, i: nat, c: char)
    requires i < |cells| && c in cells[i]
    ensures c in Tabbed(cells)
  {
    if i > 0 {
      InTabbed(cells[1..], i - 1, c);
    }
  }

  lemma WrittenIsNotBlank(cells: seq<string>, delimiter: Delimiter, i: nat)
    requires Fits(cells) && i < |cells| && cells[i] != []
    ensures !Blank(Written(cells, delimiter))
  {
    hide Blank, Doubled, NoneHas, Trimmed;
    var line := Written(cells, delimiter);
    if delimiter.Tab? {
      TrimmedStart(cells[i]);
      InTabbed(cells, i, cells[i][0]);
      NotBlank(line, cells[i][0]);
    } else {
      assert AllQuoted(cells)[0] == Quoted(cells[0]);
      assert line[0] == QUOTE;
      NotBlank(line, QUOTE);
    }
  }

  // ---- Numbers and roles in a cell -----------------------------------------------------------------------------

  function Decimal(n: nat): (s: string)
    ensures s != [] && forall i :: 0 <= i < |s| ==> IsDigit(s[i])
  {
    (if n < 10 then [] else Decimal(n / 10)) + ['0' + (n % 10) as char]
  }

  predicate NoDigitFirst(s: string) {
    s == [] || !IsDigit(s[0])
  }

  lemma {:induction false} DigitsThen(s: string, t: string, read: nat)
    requires forall i :: 0 <= i < |s| ==> IsDigit(s[i])
    ensures Digits(s + t, read) == Digits(t, Digits(s, read))
  {
    if s == [] {
      assert s + t == t;
    } else {
      assert (s + t)[1..] == s[1..] + t;
      DigitsThen(s[1..], t, 10 * read + (s[0] - '0') as nat);
    }
  }

  lemma {:induction false} DecimalReads(n: nat, rest: string)
    requires NoDigitFirst(rest)
    ensures Digits(Decimal(n) + rest, 0) == n
  {
    var last: string := ['0' + (n % 10) as char];
    var front: string := if n < 10 then [] else Decimal(n / 10);
    assert Decimal(n) + rest == front + (last + rest);
    DigitsThen(front, last + rest, 0);
    if n >= 10 {
      DecimalReads(n / 10, []);
      assert front + [] == front;
    }
    assert (last + rest)[1..] == rest;
    assert Digits(last + rest, n / 10) == Digits(rest, n);
  }

  /** The first number of the text, whatever stands before it. */
  ghost predicate Leads(before: string) {
    (forall i :: 0 <= i < |before| ==> !IsDigit(before[i])) && (before != [] ==> before[|before| - 1] != '-')
  }

  lemma {:induction false} SkipsTo(before: string, rest: string)
    requires Leads(before) && rest != []
    ensures FirstNumber(before + rest) == FirstNumber(rest)
  {
    if before == [] {
      assert before + rest == rest;
    } else {
      var s := before + rest;
      assert s[1..] == before[1..] + rest;
      assert s[0] == '-' ==> |before| > 1 && s[1] == before[1];
      SkipsTo(before[1..], rest);
    }
  }

  /** A number of any length is read, with its sign, from among other text. */
  lemma NumberReads(before: string, n: nat, after: string)
    requires Leads(before) && NoDigitFirst(after)
    ensures FirstNumber(before + (Decimal(n) + after)) == Some(n)
    ensures FirstNumber(before + (['-'] + (Decimal(n) + after))) == Some(-(n as int))
  {
    hide Digits;
    var number := Decimal(n) + after;
    assert IsDigit(number[0]) && number[0] == Decimal(n)[0];
    DecimalReads(n, after);
    SkipsTo(before, number);
    var signed := ['-'] + number;
    assert signed[1..] == number && signed[1] == number[0];
    SkipsTo(before, signed);
  }

  /** The cell's first number is `n`. */
  ghost predicate SaysNumber(cell: string, n: int) {
    exists before, after :: SaysBetween(cell, before, n, after)
  }

  ghost predicate SaysBetween(cell: string, before: string, n: int, after: string) {
    && Leads(before) && NoDigitFirst(after)
    && cell == before + if n >= 0 then Decimal(n) + after else ['-'] + (Decimal(-n) + after)
  }

  lemma NumberIsRead(cell: string, n: int)
    requires SaysNumber(cell, n)
    ensures FirstNumber(cell) == Some(n)
  {
    hide FirstNumber, Leads, NoDigitFirst, Decimal;
    var before, after :| SaysBetween(cell, before, n, after);
    NumberReads(before, if n >= 0 then n else -n, after);
  }

  /** The word letter by letter, capitals standing for small letters and, in a heading, underscores for spaces. */
  ghost predicate Spells(cell: string, word: string, heading: bool) {
    |cell| == |word| && forall i :: 0 <= i < |cell| ==>
      || (word[i] == cell[i] && !('A' <= cell[i] <= 'Z') && (heading ==> cell[i] != '_'))
      || ('A' <= cell[i] <= 'Z' && word[i] as int == cell[i] as int + 32)
      || (heading && cell[i] == '_' && word[i] == ' ')
  }

  ghost predicate SpellsOne(cell: string, words: set<string>, heading: bool) {
    exists word :: word in words && Spells(cell, word, heading)
  }

  lemma SpelledLow(cell: string, word: string)
    ensures Spells(cell, word, false) <==> Lower(cell) == word
  {
    if Lower(cell) == word {
      forall i | 0 <= i < |cell| ensures word[i] == LowerChar(cell[i]) {
      }
    }
    if Spells(cell, word, false) {
      forall i | 0 <= i < |cell| ensures word[i] == Lower(cell)[i] {
      }
    }
  }

  lemma SpelledHeading(cell: string, word: string)
    ensures Spells(cell, word, true) <==> Spaced(Lower(cell)) == word
  {
    if Spaced(Lower(cell)) == word {
      forall i | 0 <= i < |cell| ensures word[i] == if LowerChar(cell[i]) == '_' then ' ' else LowerChar(cell[i]) {
      }
    }
    if Spells(cell, word, true) {
      forall i | 0 <= i < |cell| ensures word[i] == Spaced(Lower(cell))[i] {
      }
    }
  }

  /** The words for a role. */
  ghost predicate SaysRole(cell: string, role: ParsedRole) {
    if role.Drives? then SpellsOne(cell, {"driver", "d", "drive", "driving", "yes", "y", "true", "1"}, false)
    else SpellsOne(cell, {"passenger", "p", "rider", "ride", "no", "n", "false", "0"}, false)
  }

  lemma RoleIsRead(cell: string, role: ParsedRole)
    requires SaysRole(cell, role) && Trimmed(cell)
    ensures ReadRole(Some(cell)) == Some(role)
  {
    hide Trim, Spells;
    SpelledLow(cell, Lower(cell));
    forall word | Spells(cell, word, false) ensures word == Lower(cell) {
      SpelledLow(cell, word);
    }
  }

  /** The headings of a field. */
  ghost function Words(f: Field): set<string> {
    match f
    case DisplayName => {"name", "display name", "player", "person", "who", "participant", "full name"}
    case Address => {"address", "home", "home address", "pickup", "pickup address", "location", "street"}
    case RoleCell => {"role", "driver", "driving", "type"}
    case SeatsCell => {"seats", "seats available", "capacity", "spots", "car seats", "free seats"}
    case Phone => {"phone", "mobile", "cell", "number", "phone number"}
    case Email => {"email", "e-mail", "email address"}
  }

  ghost predicate Heads(cell: string, f: Field) {
    SpellsOne(cell, Words(f), true)
  }

  lemma WordsApart(word: string, f: Field, g: Field)
    requires word in Words(f) && word in Words(g)
    ensures f == g
  {
    hide Words;
    match f
    case DisplayName => OnlyDisplayName(word, g);
    case Address => OnlyAddress(word, g);
    case RoleCell => OnlyRoleCell(word, g);
    case SeatsCell => OnlySeatsCell(word, g);
    case Phone => OnlyPhone(word, g);
    case Email =>
      match g
      case DisplayName => OnlyDisplayName(word, f);
      case Address => OnlyAddress(word, f);
      case RoleCell => OnlyRoleCell(word, f);
      case SeatsCell => OnlySeatsCell(word, f);
      case Phone => OnlyPhone(word, f);
      case Email =>
  }

  lemma OnlyDisplayName(word: string, f: Field)
    requires word in Words(DisplayName) && word in Words(f)
    ensures f == DisplayName
  {
  }

  lemma OnlyAddress(word: string, f: Field)
    requires word in Words(Address) && word in Words(f)
    ensures f == Address
  {
  }

  lemma OnlyRoleCell(word: string, f: Field)
    requires word in Words(RoleCell) && word in Words(f)
    ensures f == RoleCell
  {
  }

  lemma OnlySeatsCell(word: string, f: Field)
    requires word in Words(SeatsCell) && word in Words(f)
    ensures f == SeatsCell
  {
  }

  lemma OnlyPhone(word: string, f: Field)
    requires word in Words(Phone) && word in Words(f)
    ensures f == Phone
  {
  }

  lemma HeadingMatches(cell: string)
    requires Trimmed(cell)
    ensures var norm := Spaced(Lower(cell));
      match MatchHeader(cell)
      case Some(f) => norm in Words(f)
      case None => forall f :: norm !in Words(f)
  {
    hide Trim;
    forall f | MatchHeader(cell).None? ensures Spaced(Lower(cell)) !in Words(f) {
      match f
      case DisplayName =>
      case Address =>
      case RoleCell =>
      case SeatsCell =>
      case Phone =>
      case Email =>
    }
  }

  /** A cell names a field exactly when it spells one of the field's headings. */
  lemma HeadingExactly(cell: string, f: Field)
    requires Trimmed(cell)
    ensures MatchHeader(cell) == Some(f) <==> Heads(cell, f)
  {
    hide MatchHeader, Words, Trim, Spells;
    var norm := Spaced(Lower(cell));
    HeadingMatches(cell);
    SpelledHeading(cell, norm);
    forall word | Spells(cell, word, true) ensures word == norm {
      SpelledHeading(cell, word);
    }
    if norm in Words(f) && MatchHeader(cell).Some? {
      WordsApart(norm, f, MatchHeader(cell).value);
    }
  }

  // ---- Rows --------------------------------------------------------------------------------------------------

  ghost predicate SaysSeats(cell: string, p: Person, toldRole: bool, n: int) {
    && SaysNumber(cell, n) && 0 <= n <= 8
    && p.seats == (if p.role.Rides? then 0 else if n == 0 then 1 else n)
    && (toldRole || (p.role.Drives? <==> n > 0))
  }

  /** The row says this of the person, under the columns it has; a driver without a seats column brings one seat. */
  ghost predicate Says(m: Mapping, cells: seq<string>, p: Person) {
    && (forall f :: f in m ==> m[f] < |cells|)
    && DisplayName in m && cells[m[DisplayName]] == p.name
    && Address in m && cells[m[Address]] == p.address
    && (RoleCell in m ==> SaysRole(cells[m[RoleCell]], p.role))
    && (if SeatsCell in m then exists n :: SaysSeats(cells[m[SeatsCell]], p, RoleCell in m, n)
        else p.seats == (if RoleCell in m && p.role.Drives? then 1 else 0))
    && (if Phone in m then cells[m[Phone]] == OrBlank(p.phone) else p.phone.None?)
    && (if Email in m then cells[m[Email]] == OrBlank(p.email) else p.email.None?)
  }

  function OrBlank(s: Option<string>): string {
    if s.Some? then s.value else []
  }

  lemma SeatsAreRead(m: Mapping, cells: seq<string>, p: Person)
    requires Says(m, cells, p) && Fits(cells)
    ensures var read := ReadSeats(At(m, cells, SeatsCell));
      if SeatsCell in m then read.Some? && SaysSeats(cells[m[SeatsCell]], p, RoleCell in m, read.value)
      else read.None?
  {
    hide FirstNumber, SaysNumber, NoneHas;
    if SeatsCell in m {
      var n :| SaysSeats(cells[m[SeatsCell]], p, RoleCell in m, n);
      NumberIsRead(cells[m[SeatsCell]], n);
      assert Trimmed(cells[m[SeatsCell]]);
    }
  }

  lemma RolesAreRead(m: Mapping, cells: seq<string>, p: Person)
    requires Says(m, cells, p) && Fits(cells)
    ensures ReadRole(At(m, cells, RoleCell)) == if RoleCell in m then Some(p.role) else None
  {
    hide ReadRole, SaysRole, NoneHas, SaysSeats;
    if RoleCell in m {
      assert Trimmed(cells[m[RoleCell]]);
      RoleIsRead(cells[m[RoleCell]], p.role);
    } else {
      NoRoleToldMeansNone();
    }
  }

  lemma NoRoleToldMeansNone()
    ensures ReadRole(None) == None
  {
  }

  lemma TextIsRead(m: Mapping, cells: seq<string>, f: Field)
    requires f in m && m[f] < |cells| && Fits(cells)
    ensures OrEmpty(At(m, cells, f)) == cells[m[f]]
    ensures OrNone(At(m, cells, f)) == if cells[m[f]] == [] then None else Some(cells[m[f]])
  {
    hide NoneHas, Trim;
    assert Trimmed(cells[m[f]]);
  }

  /** A row that says so reads back as that person. */
  lemma RowReads(m: Mapping, cells: seq<string>, p: Person, line: nat)
    requires Acceptable(p) && Says(m, cells, p) && Fits(cells)
    ensures ReadPerson(m, cells, line) == Read(p.(line := line))
  {
    SeatsAreRead(m, cells, p);
    RolesAreRead(m, cells, p);
    TextIsRead(m, cells, DisplayName);
    TextIsRead(m, cells, Address);
    if Phone in m {
      TextIsRead(m, cells, Phone);
    }
    if Email in m {
      TextIsRead(m, cells, Email);
    }
    hide ReadRole, ReadSeats, Fits, SaysNumber, SaysRole, Trim;
  }

  /** More than eight seats, of however many digits, or fewer than none, are refused by name. */
  lemma SeatsRefused(m: Mapping, cells: seq<string>, line: nat, n: int)
    requires Fits(cells) && DisplayName in m && Address in m && SeatsCell in m
    requires forall f :: f in m ==> m[f] < |cells|
    requires cells[m[DisplayName]] != [] && cells[m[Address]] != []
    requires SaysNumber(cells[m[SeatsCell]], n) && !(0 <= n <= 8)
    ensures ReadPerson(m, cells, line)
         == Refused(if n < 0 then NegativeSeats(cells[m[DisplayName]]) else TooManySeats(cells[m[DisplayName]], n))
  {
    TextIsRead(m, cells, DisplayName);
    TextIsRead(m, cells, Address);
    NumberIsRead(cells[m[SeatsCell]], n);
    assert Trimmed(cells[m[SeatsCell]]);
    hide ReadRole, Fits, SaysNumber, Trim, FirstNumber;
  }

  // ---- Whole rosters -------------------------------------------------------------------------------------------

  ghost predicate SayAll(m: Mapping, rows: seq<seq<string>>, people: seq<Person>) {
    && |rows| == |people|
    && forall i :: 0 <= i < |rows| ==> Fits(rows[i]) && Acceptable(people[i]) && Says(m, rows[i], people[i])
  }

  function WrittenRows(rows: seq<seq<string>>, delimiter: Delimiter): (r: seq<string>)
    requires forall i :: 0 <= i < |rows| ==> |rows[i]| > 0
    ensures |r| == |rows| && forall i :: 0 <= i < |r| ==> r[i] == Written(rows[i], delimiter)
  {
    seq(|rows|, i requires 0 <= i < |rows| => Written(rows[i], delimiter))
  }

  /** Everyone, each with the number of the line they are on, the first on line `from`. */
  ghost function Numbered(people: seq<Person>, from: nat): (r: seq<Person>)
    ensures |r| == |people| && forall i :: 0 <= i < |r| ==> r[i] == people[i].(line := from + i)
  {
    seq(|people|, i requires 0 <= i < |people| => people[i].(line := from + i))
  }

  lemma RowsFit(m: Mapping, rows: seq<seq<string>>, people: seq<Person>)
    requires SayAll(m, rows, people)
    ensures forall i :: 0 <= i < |rows| ==> |rows[i]| > 0
  {
    hide Acceptable, Says;
  }

  lemma OneMoreRow(head: seq<string>, st: Progress, m: Mapping, cells: seq<string>, p: Person, delimiter: Delimiter)
    requires AllLines(head, delimiter) == st && st.mapping == Some(m)
    requires Fits(cells) && Acceptable(p) && Says(m, cells, p)
    ensures AllLines(head + [Written(cells, delimiter)], delimiter)
         == st.(rows := st.rows + [p.(line := |head| + 1)])
  {
    hide Blank, Cells, ReadPerson, Acceptable;
    var line := Written(cells, delimiter);
    assert (head + [line])[..|head|] == head;
    assert p.name != [] by {
      NamedIs(p);
    }
    WrittenIsNotBlank(cells, delimiter, m[DisplayName]);
    WrittenReads(cells, delimiter);
    RowReads(m, cells, p, |head| + 1);
  }

  lemma NamedIs(p: Person)
    requires Acceptable(p)
    ensures p.name != []
  {
  }

  /** Below lines that settle the columns, every row reads back. */
  lemma {:induction false} RowsReadBack(head: seq<string>, done: seq<Person>, m: Mapping, used: bool,
                                        rows: seq<seq<string>>, people: seq<Person>, delimiter: Delimiter)
    requires AllLines(head, delimiter) == Progress(done, [], Some(m), used) && SayAll(m, rows, people)
    ensures forall i :: 0 <= i < |rows| ==> |rows[i]| > 0
    ensures AllLines(head + WrittenRows(rows, delimiter), delimiter)
         == Progress(done + Numbered(people, |head| + 1), [], Some(m), used)
  {
    hide AllLines, Fits, Acceptable, Says;
    RowsFit(m, rows, people);
    if rows == [] {
      assert head + WrittenRows(rows, delimiter) == head && done + Numbered(people, |head| + 1) == done;
    } else {
      var n := |rows| - 1;
      RowsReadBack(head, done, m, used, rows[..n], people[..n], delimiter);
      var front := head + WrittenRows(rows[..n], delimiter);
      OneMoreRow(front, AllLines(front, delimiter), m, rows[n], people[n], delimiter);
      assert front + [Written(rows[n], delimiter)] == head + WrittenRows(rows, delimiter);
      assert Numbered(people, |head| + 1)
          == Numbered(people[..n], |head| + 1) + [people[n].(line := |front| + 1)];
    }
  }

  // ---- Under a header ------------------------------------------------------------------------------------------

  lemma HeadingsAreOne(cells: seq<string>, a: Mapping, b: Mapping)
    requires FirstNamed(cells, a) && FirstNamed(cells, b)
    ensures a == b
  {
    hide MatchHeader;
    forall f ensures f in a <==> f in b {
    }
    forall f | f in a ensures a[f] == b[f] {
    }
  }

  lemma HeadingSaysSomething(cell: string)
    requires MatchHeader(cell).Some?
    ensures cell != []
  {
  }

  /** A line of headings settles the columns, and is nobody. */
  lemma HeaderIsRead(headings: seq<string>, m: Mapping, delimiter: Delimiter)
    requires Fits(headings) && FirstNamed(headings, m) && |m| >= 2 && DisplayName in m
    ensures AllLines([Written(headings, delimiter)], delimiter) == Progress([], [], Some(m), true)
    ensures !Blank(Written(headings, delimiter))
  {
    hide Blank, Cells, ReadPerson, Fits, MatchHeader;
    var line := Written(headings, delimiter);
    HeadingsAreFirst(headings);
    HeadingsAreOne(headings, m, Headings(headings));
    HeadingSaysSomething(headings[m[DisplayName]]);
    WrittenIsNotBlank(headings, delimiter, m[DisplayName]);
    WrittenReads(headings, delimiter);
    assert [line][..0] == [];
    assert AllLines([], delimiter) == Progress([], [], None, false);
  }

  /** Exactly the fields some cell heads, each at the first cell that does. */
  ghost predicate FirstHeaded(cells: seq<string>, m: Mapping) {
    && (forall f :: f in m ==>
          && m[f] < |cells| && Heads(cells[m[f]], f)
          && forall j :: 0 <= j < m[f] ==> !Heads(cells[j], f))
    && forall i, f :: 0 <= i < |cells| && Heads(cells[i], f) ==> f in m
  }

  lemma HeadedIsNamed(cells: seq<string>, m: Mapping)
    requires Fits(cells) && FirstHeaded(cells, m)
    ensures FirstNamed(cells, m)
  {
    hide MatchHeader, Heads, NoneHas, Trimmed;
    forall i, f | 0 <= i < |cells| ensures MatchHeader(cells[i]) == Some(f) <==> Heads(cells[i], f) {
      HeadingExactly(cells[i], f);
    }
    forall i | 0 <= i < |cells| && MatchHeader(cells[i]).Some? ensures MatchHeader(cells[i]).value in m {
      assert Heads(cells[i], MatchHeader(cells[i]).value);
    }
  }

  lemma TwoHeadings(headings: seq<string>, m: Mapping)
    requires FirstNamed(headings, m) && DisplayName in m && Address in m
    ensures |headings| > 1
  {
    hide MatchHeader;
    assert MatchHeader(headings[m[DisplayName]]) != MatchHeader(headings[m[Address]]);
  }

  lemma OfOneKind(lines: seq<string>, delimiter: Delimiter)
    requires |lines| > 0 && !Blank(lines[0]) && (delimiter.Tab? ==> '\t' in lines[0])
    requires delimiter.Comma? ==> forall i :: 0 <= i < |lines| ==> '\t' !in lines[i]
    ensures DelimiterOf(lines) == delimiter
  {
    hide Blank;
  }

  lemma RowsAreLines(rows: seq<seq<string>>, delimiter: Delimiter)
    requires forall i :: 0 <= i < |rows| ==> Fits(rows[i])
    ensures forall i :: 0 <= i < |rows| ==> |rows[i]| > 0
    ensures forall i :: 0 <= i < |rows| ==> OneLineOnly(WrittenRows(rows, delimiter)[i])
    ensures delimiter.Comma? ==> forall i :: 0 <= i < |rows| ==> '\t' !in WrittenRows(rows, delimiter)[i]
  {
    hide OneLineOnly;
    assert forall i :: 0 <= i < |rows| ==> Fits(rows[i]) && |rows[i]| > 0;
    forall i | 0 <= i < |rows|
      ensures OneLineOnly(WrittenRows(rows, delimiter)[i])
      ensures delimiter.Comma? ==> '\t' !in WrittenRows(rows, delimiter)[i]
    {
      WrittenIsOneLine(rows[i], delimiter);
    }
  }

  /**
    * A roster under a header reads back whole: columns in any order under any of the known headings, seats and roles
    * said in any of the ways they may be, copied with tabs or saved with commas, under any line break.
    */
  lemma HeadedRoundTrip(headings: seq<string>, m: Mapping, rows: seq<seq<string>>, people: seq<Person>,
                        delimiter: Delimiter, b: string)
    requires Fits(headings) && FirstHeaded(headings, m) && DisplayName in m && Address in m
    requires SayAll(m, rows, people) && IsBreak(b)
    ensures forall i :: 0 <= i < |rows| ==> |rows[i]| > 0
    ensures var lines := LinesOf(Stacked([Written(headings, delimiter)] + WrittenRows(rows, delimiter), b), []);
      && DelimiterOf(lines) == delimiter
      && AllLines(lines, delimiter) == Progress(Numbered(people, 2), [], Some(m), true)
  {
    hide AllLines, Acceptable, Says, Blank, FirstNamed, FirstHeaded, Written, OneLineOnly, LinesOf, Stacked, NoneHas,
         Trimmed, IsBreak, DelimiterOf;
    RowsFit(m, rows, people);
    RowsAreLines(rows, delimiter);
    HeadedIsNamed(headings, m);
    TwoHeadings(headings, m);
    AtLeastTwo(m);
    HeaderIsRead(headings, m, delimiter);
    WrittenIsOneLine(headings, delimiter);
    var head := [Written(headings, delimiter)];
    var lines := head + WrittenRows(rows, delimiter);
    LinesComeApart(lines, b);
    OfOneKind(lines, delimiter);
    RowsReadBack(head, [], m, true, rows, people, delimiter);
    assert [] + Numbered(people, 2) == Numbered(people, 2);
  }

  lemma AtLeastTwo(m: Mapping)
    requires DisplayName in m && Address in m
    ensures |m| >= 2
  {
    assert {DisplayName, Address} <= m.Keys;
    assert m.Keys == {DisplayName, Address} + (m.Keys - {DisplayName, Address});
    assert |m.Keys| == |m|;
  }

  // ---- Without a header ----------------------------------------------------------------------------------------

  /** Someone who can be written in one line of five columns. */
  ghost predicate Writable(p: Person) {
    Acceptable(p) && Fits(Columns(p))
  }

  function Columns(p: Person): (r: seq<string>)
    ensures |r| == 5
  {
    [p.name, p.address, if p.seats >= 0 then Decimal(p.seats) else [], OrBlank(p.phone), OrBlank(p.email)]
  }

  function AllColumns(people: seq<Person>): (r: seq<seq<string>>)
    ensures |r| == |people| && forall i :: 0 <= i < |r| ==> r[i] == Columns(people[i]) && |r[i]| == 5
  {
    seq(|people|, i requires 0 <= i < |people| => Columns(people[i]))
  }

  lemma ColumnsSay(p: Person)
    requires Writable(p)
    ensures Says(ByPosition(5), Columns(p), p)
  {
    hide Fits, Decimal;
    var cells, m := Columns(p), ByPosition(5);
    var s := cells[2];
    assert s == [] + (Decimal(p.seats) + []);
    assert Leads([]) && NoDigitFirst([]);
    assert SaysBetween(s, [], p.seats, []);
    assert SaysSeats(cells[m[SeatsCell]], p, false, p.seats);
  }

  lemma ColumnsSayAll(people: seq<Person>)
    requires forall i :: 0 <= i < |people| ==> Writable(people[i])
    ensures SayAll(ByPosition(5), AllColumns(people), people)
  {
    hide Says, Columns;
    forall i | 0 <= i < |people| ensures Says(ByPosition(5), AllColumns(people)[i], people[i]) {
      ColumnsSay(people[i]);
    }
  }

  lemma FirstIsRead(p: Person, delimiter: Delimiter)
    requires Writable(p) && HeaderOf(Columns(p)).None?
    ensures AllLines([Written(Columns(p), delimiter)], delimiter)
         == Progress([p.(line := 1)], [], Some(ByPosition(5)), false)
  {
    hide Blank, Cells, ReadPerson, HeaderOf, Written, Fits, Acceptable, Says;
    var line := Written(Columns(p), delimiter);
    NamedIs(p);
    WrittenIsNotBlank(Columns(p), delimiter, 0);
    WrittenReads(Columns(p), delimiter);
    ColumnsSay(p);
    RowReads(ByPosition(5), Columns(p), p, 1);
    assert [line][..0] == [];
    assert AllLines([], delimiter) == Progress([], [], None, false);
  }

  lemma RosterReadsBack(people: seq<Person>, delimiter: Delimiter)
    requires |people| > 0 && forall i :: 0 <= i < |people| ==> Writable(people[i])
    requires HeaderOf(Columns(people[0])).None?
    ensures AllLines(WrittenRows(AllColumns(people), delimiter), delimiter)
         == Progress(Numbered(people, 1), [], Some(ByPosition(5)), false)
  {
    hide AllLines, Columns, Writable, HeaderOf, Written;
    var head := [Written(Columns(people[0]), delimiter)];
    FirstIsRead(people[0], delimiter);
    ColumnsSayAll(people[1..]);
    FirstApart(people, delimiter);
    hide WrittenRows, AllColumns, Numbered, SayAll, ByPosition;
    RowsReadBack(head, [people[0].(line := 1)], ByPosition(5), false, AllColumns(people[1..]), people[1..], delimiter);
  }

  lemma FirstApart(people: seq<Person>, delimiter: Delimiter)
    requires |people| > 0
    ensures WrittenRows(AllColumns(people), delimiter)
         == [Written(Columns(people[0]), delimiter)] + WrittenRows(AllColumns(people[1..]), delimiter)
    ensures Numbered(people, 1) == [people[0].(line := 1)] + Numbered(people[1..], 2)
  {
    hide Columns, Written;
  }

  /** Once the first line is taken for a header, it stays one. */
  lemma {:induction false} HeaderIsTaken(lines: seq<string>, delimiter: Delimiter)
    requires |lines| > 0 && !Blank(lines[0]) && HeaderOf(Cells(lines[0], delimiter)).Some?
    ensures AllLines(lines, delimiter).usedHeader && AllLines(lines, delimiter).mapping.Some?
  {
    hide ReadPerson, HeaderOf, Blank, Cells;
    var n := |lines| - 1;
    if n == 0 {
      assert lines[..0] == [];
      assert AllLines([], delimiter) == Progress([], [], None, false);
    } else {
      HeaderIsTaken(lines[..n], delimiter);
    }
  }

  lemma TakenIsLost(lines: seq<string>, delimiter: Delimiter, people: seq<Person>)
    requires |lines| > 0 && !Blank(lines[0]) && HeaderOf(Cells(lines[0], delimiter)).Some?
    requires |people| > 0
    ensures AllLines(lines, delimiter).rows != Numbered(people, 1)
  {
    hide HeaderOf, Cells, Blank, AllLines, Faithful, Shares;
    HeaderIsTaken(lines, delimiter);
    var st := AllLines(lines, delimiter);
    var header := EveryLineAccounted(lines, delimiter);
    FirstIsHeader(lines, header, st);
    assert Numbered(people, 1)[0].line == 1;
  }

  lemma FirstIsHeader(lines: seq<string>, header: set<nat>, st: Progress)
    requires |lines| > 0 && !Blank(lines[0]) && st.usedHeader && Accounted(lines, st, header)
    ensures forall i :: 0 <= i < |st.rows| ==> st.rows[i].line != 1
  {
    hide Blank, Faithful;
    var n :| header == {n} && IsFirst(lines, n);
    assert 1 in Lines(lines);
    assert n == 1;
    forall i | 0 <= i < |st.rows| ensures st.rows[i].line != 1 {
      assert st.rows[i].line in RowLines(st.rows);
    }
  }

  /**
    * A roster of five columns without a header reads back whole, copied with tabs or saved with commas, under any line
    * break, exactly when its first person is not taken for a header.
    */
  lemma RosterRoundTripExactly(people: seq<Person>, delimiter: Delimiter, b: string)
    requires |people| > 0 && IsBreak(b) && forall i :: 0 <= i < |people| ==> Writable(people[i])
    ensures var lines := LinesOf(Stacked(WrittenRows(AllColumns(people), delimiter), b), []);
      && DelimiterOf(lines) == delimiter
      && (AllLines(lines, delimiter).rows == Numbered(people, 1) <==> HeaderOf(Columns(people[0])).None?)
  {
    hide Acceptable, Columns, HeaderOf, Blank, AllLines, Fits, LinesOf, Stacked, Written, OneLineOnly, IsBreak,
         DelimiterOf;
    var rows := AllColumns(people);
    var lines := WrittenRows(rows, delimiter);
    forall i | 0 <= i < |rows| ensures Fits(rows[i]) {
      assert Writable(people[i]);
    }
    RowsAreLines(rows, delimiter);
    LinesComeApart(lines, b);
    FirstLine(people[0], delimiter);
    OfOneKind(lines, delimiter);
    if HeaderOf(Columns(people[0])).None? {
      RosterReadsBack(people, delimiter);
    } else {
      TakenIsLost(lines, delimiter, people);
    }
  }

  lemma FirstLine(p: Person, delimiter: Delimiter)
    requires Writable(p)
    ensures !Blank(Written(Columns(p), delimiter)) && Cells(Written(Columns(p), delimiter), delimiter) == Columns(p)
    ensures delimiter.Tab? ==> '\t' in Written(Columns(p), delimiter)
  {
    hide Blank, Cells, Written, Fits, Acceptable;
    NamedIs(p);
    WrittenIsNotBlank(Columns(p), delimiter, 0);
    WrittenReads(Columns(p), delimiter);
    WrittenIsOneLine(Columns(p), delimiter);
  }
}
