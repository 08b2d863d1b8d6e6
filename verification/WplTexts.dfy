/** What makes any text a mission file (src/data/missionfile/wpl.ts). */
module WplTexts {
  import opened Text
  import opened Numbers
  import opened Wpl

  /** The lines that are not blank, without the white space at their ends. */
  function Content(lines: seq<string>): seq<string> {
    if lines == [] then []
    else
      var last := Trim(lines[|lines| - 1]);
      Content(lines[..|lines| - 1]) + (if last == "" then [] else [last])
  }

  /** At least twelve words, of which the first twelve are finite numbers. */
  predicate GoodRow(row: string, t: NumberText) {
    |Words(row)| >= 12 && forall i :: 0 <= i < 12 ==> t.read(Words(row)[i]).Fin?
  }

  ghost predicate GoodFile(rows: seq<string>, t: NumberText) {
    rows != [] ==> IsHeader(rows[0]) && forall k :: 1 <= k < |rows| ==> GoodRow(rows[k], t)
  }

  /** The item holds the twelve numbers in their order, the position as integers. */
  predicate ReadFrom(item: Item, w: seq<string>, t: NumberText) {
    && |w| >= 12
    && item.seqNo == t.read(w[0]) && item.current == t.read(w[1]) && item.frame == t.read(w[2])
    && item.command == t.read(w[3]) && item.p1 == t.read(w[4]) && item.p2 == t.read(w[5])
    && item.p3 == t.read(w[6]) && item.p4 == t.read(w[7])
    && t.read(w[8]).Fin? && item.x == Round(t.read(w[8]).r * 10000000.0)
    && t.read(w[9]).Fin? && item.y == Round(t.read(w[9]).r * 10000000.0)
    && item.z == t.read(w[10]) && item.autocontinue == t.read(w[11])
  }

  ghost predicate AllRead(items: seq<Item>, rows: seq<string>, t: NumberText) {
    |items| == |rows| - 1 && forall k :: 0 <= k < |items| ==> ReadFrom(items[k], Words(rows[k + 1]), t)
  }

  lemma RowReads(row: string, t: NumberText)
    ensures GoodRow(row, t) <==> |Words(row)| >= WPL_COLUMNS && RowToItem(Words(row), t).Ok?
    ensures GoodRow(row, t) ==> ReadFrom(RowToItem(Words(row), t).value, Words(row), t)
  {
    hide Words, Round;
    var w := Words(row);
    if |w| >= WPL_COLUMNS {
      assert forall i :: 0 <= i < WPL_COLUMNS ==> (NumAt(w, i, t).Ok? <==> t.read(w[i]).Fin?);
      if GoodRow(row, t) {
        assert forall i :: 0 <= i < WPL_COLUMNS ==> NumAt(w, i, t) == Ok(t.read(w[i]));
      }
    }
  }

  lemma OneLine(p: Progress, raw: string, t: NumberText, rows: seq<string>)
    requires GoodFile(rows, t) && p.started == (rows != []) && (rows == [] ==> p.items == [])
    requires rows != [] ==> AllRead(p.items, rows, t)
    ensures var more, r := rows + (if Trim(raw) == "" then [] else [Trim(raw)]), ParseLine(p, raw, t);
            && (r.Ok? <==> GoodFile(more, t))
            && (r.Ok? ==> r.value.started == (more != []) && (more == [] ==> r.value.items == []))
            && (r.Ok? && more != [] ==> AllRead(r.value.items, more, t))
  {
    hide IsHeader, Words, RowToItem, ReadFrom, GoodRow;
    var line := Trim(raw);
    var more := rows + (if line == "" then [] else [line]);
    RowReads(line, t);
    if line == "" {
      assert more == rows;
    } else {
      assert more[|rows|] == line && forall k :: 0 <= k < |rows| ==> more[k] == rows[k];
    }
  }

  lemma {:induction false} LinesParse(lines: seq<string>, t: NumberText)
    ensures var rows, p := Content(lines), ParseLines(lines, t);
            && (p.Ok? <==> GoodFile(rows, t))
            && (p.Ok? ==> p.value.started == (rows != []) && (rows == [] ==> p.value.items == []))
            && (p.Ok? && rows != [] ==> AllRead(p.value.items, rows, t))
  {
    hide ParseLine, Trim, AllRead;
    if lines != [] {
      var front, raw := lines[..|lines| - 1], lines[|lines| - 1];
      LinesParse(front, t);
      if ParseLines(front, t).Ok? {
        hide GoodFile;
        OneLine(ParseLines(front, t).value, raw, t, Content(front));
      } else {
        StaysBad(Content(front), Content(lines), t);
      }
    }
  }

  lemma StaysBad(rows: seq<string>, more: seq<string>, t: NumberText)
    requires rows <= more && !GoodFile(rows, t)
    ensures !GoodFile(more, t)
  {
    hide GoodRow, IsHeader;
  }

  /** A text is a mission file exactly when its first line that is not blank is the
      header and each other one holds twelve finite numbers; its items are those. */
  lemma ParseAccepts(text: string, t: NumberText)
    ensures var rows := Content(Lines(text));
            && (Parse(text, t).Ok? <==> rows != [] && GoodFile(rows, t))
            && (Parse(text, t).Ok? ==> AllRead(Parse(text, t).value, rows, t))
  {
    hide Lines, ParseLines, Content, GoodFile, AllRead;
    LinesParse(Lines(text), t);
  }

  // ------------------------------------------------------------------------ words

  lemma {:induction false} RunTrimmed(run: string, rest: string)
    requires Spaces(run) && (rest == "" || !IsSpace(rest[0]))
    ensures TrimStart(run + rest) == rest
  {
    hide IsSpace;
    if run == "" {
      assert run + rest == rest;
    } else {
      assert (run + rest)[1..] == run[1..] + rest;
      RunTrimmed(run[1..], rest);
    }
  }

  /** A word ends where white space begins, however much of it there is; the next word
      begins where that ends. */
  lemma WordThenRun(w: string, run: string, rest: string)
    requires (forall i :: 0 <= i < |w| ==> !IsSpace(w[i])) && run != "" && Spaces(run)
    requires rest == "" || !IsSpace(rest[0])
    ensures Words(w + (run + rest)) == [w] + Words(rest)
  {
    hide IsSpace, TrimStart;
    var tail := run + rest;
    assert tail[1..] == run[1..] + rest && tail[0] == run[0];
    RunTrimmed(run[1..], rest);
    assert Words(tail) == [""] + Words(rest);
    WordFirst(w, tail);
    assert w + "" == w;
  }

  // ----------------------------------------------------------------- line endings

  /** s with other line ends. */
  function WithEnds(s: string, end: string): string {
    if s == "" then "" else (if s[0] == '\n' then end else [s[0]]) + WithEnds(s[1..], end)
  }

  lemma {:induction false} EndsChosen(s: string, end: string)
    requires '\r' !in s && '\n' !in end
    ensures '\n' !in WithEnds(s, end)
  {
    if s != "" { EndsChosen(s[1..], end); }
  }

  /** Line feeds, carriage returns and both together end lines alike. */
  lemma {:induction false} LineEndsAlike(s: string)
    requires '\r' !in s
    ensures Lines(WithEnds(s, "\r\n")) == Lines(s) && Lines(WithEnds(s, "\r")) == Lines(s)
  {
    if s != "" {
      assert s[0] in s;
      LineEndsAlike(s[1..]);
      EndsChosen(s[1..], "\r");
      var crlf, cr := WithEnds(s[1..], "\r\n"), WithEnds(s[1..], "\r");
      if s[0] == '\n' {
        assert ("\r\n" + crlf)[2..] == crlf && ("\r" + cr)[1..] == cr;
        assert cr != "" ==> cr[0] in cr;
      } else {
        assert ([s[0]] + crlf)[1..] == crlf && ([s[0]] + cr)[1..] == cr;
      }
    }
  }
}
