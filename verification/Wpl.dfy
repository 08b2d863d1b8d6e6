/** QGC WPL 110 mission text (src/data/missionfile/wpl.ts). */
module Wpl {
  import opened Text
  import opened Numbers
  import opened Coords

  /** A row. The numbers a file can hold are real, only x and y are made integers. */
  datatype Item = Item(
    seqNo: Float, current: Float, frame: Float, command: Float,
    p1: Float, p2: Float, p3: Float, p4: Float,
    x: int, y: int, z: Float, autocontinue: Float)

  /** String(n), with 0 for -0, and Number(s). */
  datatype NumberText = NumberText(format: Float -> string, read: string -> Float)

  const WPL_HEADER := "QGC WPL 110"
  const WPL_COLUMNS := 12

  // --------------------------------------------------------------------- reading

  /** split(/\r\n|\r|\n/). */
  function Lines(s: string): (r: seq<string>)
    ensures |r| > 0
    decreases |s|
  {
    if s == "" then [""]
    else if s[0] == '\r' && |s| > 1 && s[1] == '\n' then [""] + Lines(s[2..])
    else if s[0] == '\r' || s[0] == '\n' then [""] + Lines(s[1..])
    else
      var rest := Lines(s[1..]);
      [[s[0]] + rest[0]] + rest[1..]
  }

  /** split(/\s+/). */
  function Words(s: string): (r: seq<string>)
    ensures |r| > 0
    decreases |s|
  {
    if s == "" then [""]
    else if IsSpace(s[0]) then [""] + Words(TrimStart(s[1..]))
    else
      var rest := Words(s[1..]);
      [[s[0]] + rest[0]] + rest[1..]
  }

  function Lower(c: char): char { if 'A' <= c <= 'Z' then (c as int + 32) as char else c }

  function LowerAll(s: string): string { seq(|s|, i requires 0 <= i < |s| => Lower(s[i])) }

  /** The header's words in any case, with any white space between them. */
  predicate IsHeader(line: string) {
    var words := Words(line);
    |words| == 3 && LowerAll(words[0]) == "qgc" && LowerAll(words[1]) == "wpl" && words[2] == "110"
  }

  function NumAt(tokens: seq<string>, i: nat, t: NumberText): Result<Float> {
    if i >= |tokens| then Err
    else if IsFinite(t.read(tokens[i])) then Ok(t.read(tokens[i]))
    else Err
  }

  predicate AllNumbers(tokens: seq<string>, t: NumberText) {
    forall i :: 0 <= i < WPL_COLUMNS ==> NumAt(tokens, i, t).Ok?
  }

  function RowToItem(tokens: seq<string>, t: NumberText): Result<Item> {
    if !AllNumbers(tokens, t) then Err
    else
      Ok(Item(NumAt(tokens, 0, t).value, NumAt(tokens, 1, t).value, NumAt(tokens, 2, t).value,
              NumAt(tokens, 3, t).value, NumAt(tokens, 4, t).value, NumAt(tokens, 5, t).value,
              NumAt(tokens, 6, t).value, NumAt(tokens, 7, t).value,
              DegToE7(NumAt(tokens, 8, t).value.r), DegToE7(NumAt(tokens, 9, t).value.r),
              NumAt(tokens, 10, t).value, NumAt(tokens, 11, t).value))
  }

  datatype Progress = Progress(started: bool, items: seq<Item>)

  function ParseLine(p: Progress, raw: string, t: NumberText): Result<Progress> {
    var line := Trim(raw);
    if line == "" then Ok(p)
    else if !p.started then if IsHeader(line) then Ok(p.(started := true)) else Err
    else
      var tokens := Words(line);
      if |tokens| < WPL_COLUMNS then Err
      else
        var item := RowToItem(tokens, t);
        if item.Err? then Err else Ok(p.(items := p.items + [item.value]))
  }

  function ParseLines(lines: seq<string>, t: NumberText): Result<Progress> {
    if lines == [] then Ok(Progress(false, []))
    else
      var before := ParseLines(lines[..|lines| - 1], t);
      if before.Err? then Err else ParseLine(before.value, lines[|lines| - 1], t)
  }

  function Parse(text: string, t: NumberText): Result<seq<Item>> {
    var p := ParseLines(Lines(text), t);
    if p.Ok? && p.value.started then Ok(p.value.items) else Err
  }

  lemma {:induction false} FailureStays(lines: seq<string>, n: nat, t: NumberText)
    requires n <= |lines| && ParseLines(lines[..n], t).Err?
    ensures ParseLines(lines, t).Err?
  {
    if n < |lines| {
      var front := lines[..|lines| - 1];
      assert front[..n] == lines[..n];
      FailureStays(front, n, t);
    } else {
      assert lines[..n] == lines;
    }
  }

  method ParseWpl(text: string, t: NumberText) returns (r: Result<seq<Item>>)
    ensures r == Parse(text, t)
  {
    hide IsHeader, RowToItem, Words, Trim, Lines;
    var lines := Lines(text);
    var items, started := [], false;
    for i := 0 to |lines|
      invariant ParseLines(lines[..i], t) == Ok(Progress(started, items))
    {
      assert lines[..i + 1][..i] == lines[..i];
      var line := Trim(lines[i]);
      if line != "" {
        if !started {
          if !IsHeader(line) {
            FailureStays(lines, i + 1, t);
            return Err;
          }
          started := true;
        } else {
          var tokens := Words(line);
          if |tokens| < WPL_COLUMNS {
            FailureStays(lines, i + 1, t);
            return Err;
          }
          var item := RowToItem(tokens, t);
          if item.Err? {
            FailureStays(lines, i + 1, t);
            return Err;
          }
          items := items + [item.value];
        }
      }
    }
    assert lines[..|lines|] == lines;
    if !started { return Err; }
    r := Ok(items);
  }

  // --------------------------------------------------------------------- writing

  function Columns(item: Item, t: NumberText): (r: seq<string>)
    ensures |r| == WPL_COLUMNS
  {
    [t.format(item.seqNo), t.format(item.current), t.format(item.frame), t.format(item.command),
     t.format(item.p1), t.format(item.p2), t.format(item.p3), t.format(item.p4),
     E7ToDegString(item.x), E7ToDegString(item.y), t.format(item.z), t.format(item.autocontinue)]
  }

  function ItemToRow(item: Item, t: NumberText): string { Join(Columns(item, t), '\t') }

  function Rows(items: seq<Item>, t: NumberText): (r: seq<string>)
    ensures |r| == |items| && forall i :: 0 <= i < |items| ==> r[i] == ItemToRow(items[i], t)
  {
    seq(|items|, i requires 0 <= i < |items| => ItemToRow(items[i], t))
  }

  function Serialize(items: seq<Item>, t: NumberText): string {
    Join([WPL_HEADER] + Rows(items, t), '\n') + "\n"
  }

  // ------------------------------------------------------------------- round trip

  /** A word holds no white space and at least one character. */
  predicate IsWord(s: string) { s != "" && forall i :: 0 <= i < |s| ==> !IsSpace(s[i]) }

  /** The text of f is a word that reads back as f. */
  predicate Writes(t: NumberText, f: Float) { IsWord(t.format(f)) && t.read(t.format(f)) == f }

  predicate WritesItem(t: NumberText, item: Item) {
    && Writes(t, item.seqNo) && Writes(t, item.current) && Writes(t, item.frame) && Writes(t, item.command)
    && Writes(t, item.p1) && Writes(t, item.p2) && Writes(t, item.p3) && Writes(t, item.p4)
    && ReadsDegrees(t, item.x) && ReadsDegrees(t, item.y)
    && Writes(t, item.z) && Writes(t, item.autocontinue)
  }

  const HALF_UNIT := 0.00000005

  /** The decimal written for e7 is read as a number less than half a unit of the wire
      away from the decimal's value. */
  predicate ReadsDegrees(t: NumberText, e7: int) {
    var d := E7Decimal(e7);
    var f := t.read(DecimalText(d));
    f.Fin? && -HALF_UNIT < f.r - DecimalValue(d) < HALF_UNIT
  }

  predicate FiniteItem(item: Item) {
    && item.seqNo.Fin? && item.current.Fin? && item.frame.Fin? && item.command.Fin?
    && item.p1.Fin? && item.p2.Fin? && item.p3.Fin? && item.p4.Fin? && item.z.Fin? && item.autocontinue.Fin?
  }

  lemma {:induction false} LinesAreSplit(s: string)
    requires '\r' !in s
    ensures Lines(s) == Split(s, '\n')
  {
    if s != "" {
      assert s[0] in s;
      assert forall c :: c in s[1..] ==> c in s;
      LinesAreSplit(s[1..]);
    }
  }

  lemma {:induction false} WordFirst(w: string, rest: string)
    requires forall i :: 0 <= i < |w| ==> !IsSpace(w[i])
    ensures Words(w + rest) == [w + Words(rest)[0]] + Words(rest)[1..]
  {
    if w == "" {
      assert w + rest == rest && w + Words(rest)[0] == Words(rest)[0];
    } else {
      assert (w + rest)[1..] == w[1..] + rest;
      WordFirst(w[1..], rest);
      assert [w[0]] + (w[1..] + Words(rest)[0]) == w + Words(rest)[0];
    }
  }

  /** Splitting at white space undoes joining words by a space or a tab. */
  lemma {:induction false} WordsOfJoin(words: seq<string>, sep: char)
    requires IsSpace(sep) && words != [] && forall i :: 0 <= i < |words| ==> IsWord(words[i])
    ensures Words(Join(words, sep)) == words
  {
    hide IsSpace, TrimStart;
    if |words| == 1 {
      WordFirst(words[0], "");
      assert words[0] + "" == words[0];
    } else {
      var tail := Join(words[1..], sep);
      var rest := [sep] + tail;
      WordsOfJoin(words[1..], sep);
      WordStarts(words[1..], sep);
      assert rest[1..] == tail && Words(rest) == [""] + words[1..];
      WordFirst(words[0], rest);
      assert Join(words, sep) == words[0] + rest;
      assert words[0] + "" == words[0] && words == [words[0]] + words[1..];
    }
  }

  predicate SameLetter(a: char, b: char) { a == b || ('A' <= a <= 'Z' && b as int == a as int + 32) }

  /** The word spells this one of capital letters, in any case. */
  predicate Spells(word: string, capitals: string) {
    |word| == |capitals| && forall i :: 0 <= i < |word| ==> word[i] == capitals[i] || SameLetter(capitals[i], word[i])
  }

  /** Words make a header when they are three: QGC and WPL in any case, and 110. */
  lemma HeaderSpelling(words: seq<string>, sep: char)
    requires IsSpace(sep) && words != [] && forall i :: 0 <= i < |words| ==> IsWord(words[i])
    ensures IsHeader(Join(words, sep))
            <==> |words| == 3 && Spells(words[0], "QGC") && Spells(words[1], "WPL") && words[2] == "110"
  {
    hide IsSpace, IsWord, Join, Words;
    WordsOfJoin(words, sep);
    if |words| == 3 {
      LowerSpells(words[0], "qgc", "QGC");
      LowerSpells(words[1], "wpl", "WPL");
    }
  }

  lemma LowerSpells(word: string, lower: string, capitals: string)
    requires |lower| == |capitals| && forall i :: 0 <= i < |lower| ==>
               'A' <= capitals[i] <= 'Z' && lower[i] as int == capitals[i] as int + 32
    ensures LowerAll(word) == lower <==> Spells(word, capitals)
  {
    if LowerAll(word) == lower {
      forall i | 0 <= i < |word| ensures word[i] == capitals[i] || SameLetter(capitals[i], word[i]) {
        assert LowerAll(word)[i] == Lower(word[i]) == lower[i];
      }
    }
    if Spells(word, capitals) {
      forall i | 0 <= i < |word| ensures LowerAll(word)[i] == lower[i] {
        assert word[i] == capitals[i] || SameLetter(capitals[i], word[i]);
      }
    }
  }

  lemma WordStarts(words: seq<string>, sep: char)
    requires words != [] && forall i :: 0 <= i < |words| ==> IsWord(words[i])
    ensures TrimStart(Join(words, sep)) == Join(words, sep) && Trimmed(Join(words, sep)) && Join(words, sep) != ""
  {
    JoinTrimmed(words, sep);
  }

  lemma DegreesAreWords(e7: int)
    ensures IsWord(E7ToDegString(e7))
  {
    hide IsSpace;
    DegreesAreExact(e7);
    DecimalIsWord(E7Decimal(e7));
  }

  lemma DecimalIsWord(d: Decimal)
    requires IsDecimal(d)
    ensures IsWord(DecimalText(d))
  {
    var s := DecimalText(d);
    forall i | 0 <= i < |s| ensures !IsSpace(s[i]) {
      assert s[i] == '-' || s[i] == '.' || IsDigit(s[i]);
    }
  }

  lemma ColumnsAreWords(item: Item, t: NumberText)
    requires WritesItem(t, item)
    ensures forall i :: 0 <= i < WPL_COLUMNS ==> IsWord(Columns(item, t)[i])
  {
    hide IsWord, ReadsDegrees, E7ToDegString;
    DegreesAreWords(item.x);
    DegreesAreWords(item.y);
    TwelveWords(Columns(item, t));
  }

  lemma TwelveWords(c: seq<string>)
    requires |c| == WPL_COLUMNS
    requires IsWord(c[0]) && IsWord(c[1]) && IsWord(c[2]) && IsWord(c[3]) && IsWord(c[4]) && IsWord(c[5])
    requires IsWord(c[6]) && IsWord(c[7]) && IsWord(c[8]) && IsWord(c[9]) && IsWord(c[10]) && IsWord(c[11])
    ensures forall i :: 0 <= i < WPL_COLUMNS ==> IsWord(c[i])
  {
    hide IsWord;
  }

  lemma DegreesRead(e7: int, t: NumberText)
    requires ReadsDegrees(t, e7)
    ensures t.read(E7ToDegString(e7)).Fin? && DegToE7(t.read(E7ToDegString(e7)).r) == e7
  {
    hide E7ToDegString, DecimalValue, E7Decimal, DecimalText;
    DegreesAreExact(e7);
    var deg := t.read(E7ToDegString(e7)).r;
    assert -0.5 < deg * E7 as real - e7 as real < 0.5;
  }

  /** A written row reads back as its item, unless a number in it is not finite. */
  lemma RowRoundTrip(item: Item, t: NumberText)
    requires WritesItem(t, item)
    ensures RowToItem(Columns(item, t), t) == if FiniteItem(item) then Ok(item) else Err
  {
    hide IsWord, DegToE7, E7ToDegString, ReadsDegrees;
    DegreesRead(item.x, t);
    DegreesRead(item.y, t);
    TwelveNumbers(Columns(item, t), t);
  }

  lemma TwelveNumbers(c: seq<string>, t: NumberText)
    ensures AllNumbers(c, t) == (
              && NumAt(c, 0, t).Ok? && NumAt(c, 1, t).Ok? && NumAt(c, 2, t).Ok? && NumAt(c, 3, t).Ok?
              && NumAt(c, 4, t).Ok? && NumAt(c, 5, t).Ok? && NumAt(c, 6, t).Ok? && NumAt(c, 7, t).Ok?
              && NumAt(c, 8, t).Ok? && NumAt(c, 9, t).Ok? && NumAt(c, 10, t).Ok? && NumAt(c, 11, t).Ok?)
  {
  }

  lemma RowIsLine(item: Item, t: NumberText)
    requires WritesItem(t, item)
    ensures var row := ItemToRow(item, t);
            && Trim(row) == row != "" && Words(row) == Columns(item, t)
            && '\n' !in row && '\r' !in row
  {
    hide Words, Columns, E7ToDegString;
    ColumnsAreWords(item, t);
    var c := Columns(item, t);
    WordsOfJoin(c, '\t');
    WordStarts(c, '\t');
    TrimTrimmed(Join(c, '\t'));
    if '\n' in Join(c, '\t') { JoinChars(c, '\t', '\n'); }
    if '\r' in Join(c, '\t') { JoinChars(c, '\t', '\r'); }
  }

  lemma HeaderIsLine()
    ensures Trim(WPL_HEADER) == WPL_HEADER != "" && IsHeader(WPL_HEADER) && '\n' !in WPL_HEADER && '\r' !in WPL_HEADER
  {
    hide Words, IsSpace, Lower, LowerAll, IsWord;
    var words := ["QGC", "WPL", "110"];
    HeaderWords();
    WordsOfJoin(words, ' ');
    WordStarts(words, ' ');
    HeaderIsJoin();
    TrimTrimmed(WPL_HEADER);
    HeaderCase();
  }

  lemma HeaderWords()
    ensures IsSpace(' ') && IsWord("QGC") && IsWord("WPL") && IsWord("110")
  {
  }

  lemma HeaderCase()
    ensures LowerAll("QGC") == "qgc" && LowerAll("WPL") == "wpl"
  {
  }

  lemma HeaderIsJoin()
    ensures Join(["QGC", "WPL", "110"], ' ') == WPL_HEADER
  {
    assert ["QGC", "WPL", "110"][1..] == ["WPL", "110"] && ["WPL", "110"][1..] == ["110"];
    assert Join(["WPL", "110"], ' ') == "WPL 110";
  }

  /** The lines of written text: the header, the rows and nothing after the last. */
  lemma LinesWritten(items: seq<Item>, t: NumberText)
    requires forall i :: 0 <= i < |items| ==> WritesItem(t, items[i])
    ensures Lines(Serialize(items, t)) == [WPL_HEADER] + Rows(items, t) + [""]
  {
    hide ItemToRow, IsHeader, Lines, WritesItem;
    HeaderIsLine();
    var lines := [WPL_HEADER] + Rows(items, t);
    forall i | 0 <= i < |lines| ensures '\n' !in lines[i] && '\r' !in lines[i] {
      if i > 0 { RowIsLine(items[i - 1], t); }
    }
    JoinLast(lines, '\n');
    var all := lines + [""];
    SplitJoin(all, '\n');
    if '\r' in Join(all, '\n') { JoinChars(all, '\n', '\r'); }
    LinesAreSplit(Join(all, '\n'));
  }

  lemma {:induction false} JoinLast(parts: seq<string>, sep: char)
    requires parts != []
    ensures Join(parts + [""], sep) == Join(parts, sep) + [sep]
  {
    if |parts| == 1 {
      assert (parts + [""])[1..] == [""];
    } else {
      assert (parts + [""])[1..] == parts[1..] + [""];
      JoinLast(parts[1..], sep);
    }
  }

  lemma {:induction false} RowsRead(items: seq<Item>, t: NumberText, n: nat)
    requires n <= |items| && forall i :: 0 <= i < |items| ==> WritesItem(t, items[i])
    ensures ParseLines(([WPL_HEADER] + Rows(items, t) + [""])[..n + 1], t)
            == if forall i :: 0 <= i < n ==> FiniteItem(items[i]) then Ok(Progress(true, items[..n])) else Err
  {
    hide WritesItem, FiniteItem, IsHeader, ItemToRow, Columns, RowToItem, Words, Trim;
    var lines := [WPL_HEADER] + Rows(items, t) + [""];
    assert lines[..n + 1][..n] == lines[..n];
    HeaderIsLine();
    if n == 0 {
      assert ParseLines(lines[..0], t) == Ok(Progress(false, []));
    } else {
      RowsRead(items, t, n - 1);
      var item := items[n - 1];
      assert lines[n] == ItemToRow(item, t);
      RowIsLine(item, t);
      RowRoundTrip(item, t);
      assert items[..n] == items[..n - 1] + [item];
    }
  }

  /** Reading written text gives the same items back, exactly when every number in
      them is finite; else it is refused. The number text need only be a word that
      reads back as the number, for the numbers written, and degrees may be read up to
      half a unit away. */
  lemma WplRoundTrip(items: seq<Item>, t: NumberText)
    requires forall i :: 0 <= i < |items| ==> WritesItem(t, items[i])
    ensures Parse(Serialize(items, t), t)
            == if forall i :: 0 <= i < |items| ==> FiniteItem(items[i]) then Ok(items) else Err
  {
    hide WritesItem, FiniteItem, ItemToRow, ParseLine, Lines;
    LinesWritten(items, t);
    RowsRead(items, t, |items|);
    var lines := [WPL_HEADER] + Rows(items, t) + [""];
    assert items[..|items|] == items;
    assert lines[..|lines| - 1] == lines[..|items| + 1];
    BlankLine(t);
  }

  lemma BlankLine(t: NumberText)
    ensures forall p :: ParseLine(p, "", t) == Ok(p)
  {
  }
}
