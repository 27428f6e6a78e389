/**
 * The `;`-delimited text of the intermediate file: how the CSV writer turns
 * a record into a line (with its quoting rule for fields that need it), and
 * how the reader, configured with the same delimiter, splits the text back
 * into records. The reader is modelled for text without quote marks and
 * CRs, where it splits lines at LF and fields at `;` and skips empty lines;
 * what it reads from other text is given from outside.
 */
module Delimited {

  /** The writer's and the reader's field delimiter. */
  const Comma: char := ';'
  const Newline: char := '\n'
  const QuoteMark: char := '"'

  /** The white-space test the writer applies to a field's first character:
      the Latin-1 spaces and the other Unicode White_Space characters. */
  predicate IsSpace(c: char)
  {
    c == '\t' || c == '\n' || c == '\U{000B}' || c == '\U{000C}' || c == '\r' || c == ' '
    || c == '\U{0085}' || c == '\U{00A0}' || c == '\U{1680}'
    || ('\U{2000}' <= c <= '\U{200A}')
    || c == '\U{2028}' || c == '\U{2029}' || c == '\U{202F}' || c == '\U{205F}' || c == '\U{3000}'
  }

  /** The characters whose presence makes the writer quote a field: the
      delimiter, the quote mark, CR and LF. */
  predicate Special(c: char)
  {
    c == Comma || c == QuoteMark || c == '\r' || c == Newline
  }

  /** Whether the writer wraps `field` in quotes: never when it is empty;
      always for the text `\.`; whenever it holds a Special character; and
      when it starts with white space. */
  predicate NeedsQuotes(field: string)
  {
    field != []
    && (field == "\\." || (exists k :: 0 <= k < |field| && Special(field[k])) || IsSpace(field[0]))
  }

  /** A field the writer emits as it is. */
  predicate Plain(field: string)
  {
    !NeedsQuotes(field)
  }

  /** A record all of whose fields are plain. */
  predicate PlainRecord(record: seq<string>)
  {
    forall k :: 0 <= k < |record| ==> Plain(record[k])
  }

  /** The body of a quoted field: every quote mark doubled. */
  function Escape(field: string): (r: string)
    ensures |r| == |field| + multiset(field)[QuoteMark]
    ensures QuoteMark !in field ==> r == field
  {
    assert field != [] ==> field == [field[0]] + field[1..];
    if field == [] then []
    else if field[0] == QuoteMark then [QuoteMark, QuoteMark] + Escape(field[1..])
    else [field[0]] + Escape(field[1..])
  }

  /** Reads the body of a quoted field back: a doubled quote mark is one. */
  function Unescape(body: string): string
  {
    if body == [] then []
    else if |body| >= 2 && body[0] == QuoteMark && body[1] == QuoteMark then [QuoteMark] + Unescape(body[2..])
    else [body[0]] + Unescape(body[1..])
  }

  /** Doubling the quote marks loses nothing. */
  lemma {:induction false} UnescapeEscape(field: string)
    ensures Unescape(Escape(field)) == field
  {
    if field != [] {
      UnescapeEscape(field[1..]);
      if field[0] == QuoteMark {
        assert ([QuoteMark, QuoteMark] + Escape(field[1..]))[2..] == Escape(field[1..]);
      } else {
        assert ([field[0]] + Escape(field[1..]))[1..] == Escape(field[1..]);
      }
    }
  }

  /** The text the writer emits for one field. */
  function FieldText(field: string): (t: string)
    ensures Plain(field) ==> t == field
    ensures NeedsQuotes(field) ==> |t| >= 2 && t[0] == QuoteMark && t[|t| - 1] == QuoteMark
                                   && Unescape(t[1..|t| - 1]) == field
  {
    if NeedsQuotes(field) then
      var body := Escape(field);
      UnescapeEscape(field);
      assert ([QuoteMark] + body + [QuoteMark])[1..|body| + 1] == body;
      [QuoteMark] + body + [QuoteMark]
    else field
  }

  /** The texts of all fields of a record. */
  function Encode(record: seq<string>): (fields: seq<string>)
    ensures |fields| == |record|
    ensures PlainRecord(record) ==> fields == record
  {
    seq(|record|, k requires 0 <= k < |record| => FieldText(record[k]))
  }

  function Join(parts: seq<string>, sep: char): string
  {
    if parts == [] then []
    else if |parts| == 1 then parts[0]
    else parts[0] + [sep] + Join(parts[1..], sep)
  }

  /** The pieces of `s` between occurrences of `sep`; there is always at least one. */
  function Split(s: string, sep: char): (parts: seq<string>)
    ensures |parts| >= 1
  {
    if s == [] then [[]]
    else
      var rest := Split(s[1..], sep);
      if s[0] == sep then [[]] + rest
      else [[s[0]] + rest[0]] + rest[1..]
  }

  /** Splitting and re-joining gives back the text, and no piece holds `sep`. */
  lemma {:induction false} JoinSplit(s: string, sep: char)
    ensures Join(Split(s, sep), sep) == s
    ensures forall k :: 0 <= k < |Split(s, sep)| ==> sep !in Split(s, sep)[k]
  {
    if s != [] {
      JoinSplit(s[1..], sep);
      var rest := Split(s[1..], sep);
      if s[0] == sep {
        assert ([[]] + rest)[1..] == rest;
        assert s == [sep] + s[1..];
      } else if |rest| == 1 {
        assert s == [s[0]] + s[1..];
      } else {
        var parts := [[s[0]] + rest[0]] + rest[1..];
        assert parts[1..] == rest[1..];
        assert Join(rest, sep) == rest[0] + [sep] + Join(rest[1..], sep);
        assert s == [s[0]] + s[1..];
      }
    }
  }

  /** Text without `sep` is one piece. */
  lemma {:induction false} SplitNoSep(a: string, sep: char)
    requires sep !in a
    ensures Split(a, sep) == [a]
  {
    if a != [] {
      SplitNoSep(a[1..], sep);
      assert [a[0]] + a[1..] == a;
    }
  }

  /** Splitting at the first `sep`. */
  lemma {:induction false} SplitAtFirst(a: string, b: string, sep: char)
    requires sep !in a
    ensures Split(a + [sep] + b, sep) == [a] + Split(b, sep)
  {
    var s := a + [sep] + b;
    if a == [] {
      assert s[1..] == b;
    } else {
      assert s[1..] == a[1..] + [sep] + b;
      SplitAtFirst(a[1..], b, sep);
      assert [a[0]] + a[1..] == a;
    }
  }

  /** Splitting undoes joining, for pieces free of `sep`. */
  lemma {:induction false} SplitJoin(parts: seq<string>, sep: char)
    requires |parts| >= 1
    requires forall k :: 0 <= k < |parts| ==> sep !in parts[k]
    ensures Split(Join(parts, sep), sep) == parts
  {
    if |parts| == 1 {
      SplitNoSep(parts[0], sep);
    } else {
      SplitJoin(parts[1..], sep);
      SplitAtFirst(parts[0], Join(parts[1..], sep), sep);
      assert [parts[0]] + parts[1..] == parts;
    }
  }

  /** A character that no piece holds and that is not the separator does not
      occur in the joined text. */
  lemma {:induction false} JoinAvoids(parts: seq<string>, sep: char, c: char)
    requires c != sep
    requires forall k :: 0 <= k < |parts| ==> c !in parts[k]
    ensures c !in Join(parts, sep)
  {
    if |parts| > 1 {
      JoinAvoids(parts[1..], sep, c);
    }
  }

  /** The line the writer emits for one record, terminated by LF. */
  function Line(record: seq<string>): string
  {
    Join(Encode(record), Comma) + [Newline]
  }

  /** The whole text of a sequence of records: the lines one after the
      other, as successive writes produce them. */
  function Render(rows: seq<seq<string>>): string
  {
    if rows == [] then [] else Render(rows[..|rows| - 1]) + Line(rows[|rows| - 1])
  }

  /** The text starts with the line of the first record. */
  lemma {:induction false} RenderCons(rows: seq<seq<string>>)
    requires rows != []
    ensures Render(rows) == Line(rows[0]) + Render(rows[1..])
  {
    if |rows| > 1 {
      var init := rows[..|rows| - 1];
      RenderCons(init);
      assert init[0] == rows[0];
      assert init[1..] == rows[1..][..|rows[1..]| - 1];
      assert Render(rows[1..]) == Render(init[1..]) + Line(rows[|rows| - 1]);
    } else {
      assert rows[1..] == [];
    }
  }

  /** The text of two records is their two lines. */
  lemma RenderTwo(a: seq<string>, b: seq<string>)
    ensures Render([a, b]) == Line(a) + Line(b)
  {
    assert [a, b][..1] == [a];
    assert [a][..0] == [];
    assert Render([a]) == Line(a);
  }

  /** The records of a sequence of lines: every non-empty line split at `;`.
      Only empty lines are dropped. */
  function Records(lines: seq<string>): (records: seq<seq<string>>)
    ensures |records| <= |lines|
    ensures (forall k :: 0 <= k < |lines| ==> lines[k] != []) ==> |records| == |lines|
    ensures (forall k :: 0 <= k < |lines| ==> lines[k] == []) ==> records == []
  {
    if lines == [] then []
    else (if lines[0] == [] then [] else [Split(lines[0], Comma)]) + Records(lines[1..])
  }

  /** What reading the whole text back yields. */
  function Parse(text: string): seq<seq<string>>
  {
    Records(Split(text, Newline))
  }

  /** Text in which the reader meets no quoted field, no bare quote mark and
      no CR to normalise: there it is exactly the splitter Parse. */
  predicate PlainText(text: string)
  {
    forall k :: 0 <= k < |text| ==> text[k] != QuoteMark && text[k] != '\r'
  }

  /** The lines that are not empty, in order. */
  function NonEmptyLines(lines: seq<string>): (kept: seq<string>)
    ensures |kept| <= |lines|
    ensures forall i :: 0 <= i < |kept| ==> kept[i] != []
  {
    if lines == [] then []
    else (if lines[0] == [] then [] else [lines[0]]) + NonEmptyLines(lines[1..])
  }

  /** A character that `s` does not hold is in none of its pieces. */
  lemma {:induction false} SplitAvoids(s: string, sep: char, c: char)
    requires c !in s
    ensures forall k :: 0 <= k < |Split(s, sep)| ==> c !in Split(s, sep)[k]
  {
    if s != [] {
      assert c !in s[1..] by {
        assert forall j :: 0 <= j < |s[1..]| ==> s[1..][j] == s[j + 1];
      }
      SplitAvoids(s[1..], sep, c);
    }
  }

  /** The records of some lines: one per non-empty line, which it gives
      back when joined at `;`; no field holds `;`, and none holds a
      character that no line holds. */
  lemma {:induction false} RecordsOfLines(lines: seq<string>, c: char)
    requires forall k :: 0 <= k < |lines| ==> c !in lines[k]
    ensures |Records(lines)| == |NonEmptyLines(lines)|
    ensures forall i :: 0 <= i < |Records(lines)| ==>
      Join(Records(lines)[i], Comma) == NonEmptyLines(lines)[i]
    ensures forall i, j :: 0 <= i < |Records(lines)| && 0 <= j < |Records(lines)[i]| ==>
      Comma !in Records(lines)[i][j] && c !in Records(lines)[i][j]
  {
    if lines != [] {
      RecordsOfLines(lines[1..], c);
      JoinSplit(lines[0], Comma);
      SplitAvoids(lines[0], Comma, c);
    }
  }

  /** What the reader yields for the whole text. On text without quote
      marks and CRs it splits lines at LF and fields at `;`: each record,
      joined at `;`, is the matching non-empty line, in order, and no field
      holds `;` or LF. How it un-quotes other text is not modelled and is
      given as `quoted`. */
  function ReadAll(text: string, quoted: string -> seq<seq<string>>): (records: seq<seq<string>>)
    ensures PlainText(text) ==>
      var lines := NonEmptyLines(Split(text, Newline));
      |records| == |lines| && forall i :: 0 <= i < |records| ==> Join(records[i], Comma) == lines[i]
    ensures PlainText(text) ==>
      forall i, j :: 0 <= i < |records| && 0 <= j < |records[i]| ==>
        Comma !in records[i][j] && Newline !in records[i][j]
  {
    if PlainText(text) then
      JoinSplit(text, Newline);
      RecordsOfLines(Split(text, Newline), Newline);
      Parse(text)
    else quoted(text)
  }

  /** The line of a plain record is plain text. */
  lemma PlainLine(record: seq<string>)
    requires PlainRecord(record)
    ensures PlainText(Line(record))
  {
    forall k | 0 <= k < |record|
      ensures QuoteMark !in record[k] && '\r' !in record[k]
    {
      assert forall j :: 0 <= j < |record[k]| ==> !Special(record[k][j]);
    }
    JoinAvoids(record, Comma, QuoteMark);
    JoinAvoids(record, Comma, '\r');
    var line := Line(record);
    var joined := Join(record, Comma);
    assert line == joined + [Newline];
    forall k | 0 <= k < |line|
      ensures line[k] != QuoteMark && line[k] != '\r'
    {
      if k < |joined| {
        assert line[k] == joined[k];
      }
    }
  }

  /** The text of plain records is plain text. */
  lemma {:induction false} PlainRender(rows: seq<seq<string>>)
    requires forall i :: 0 <= i < |rows| ==> PlainRecord(rows[i])
    ensures PlainText(Render(rows))
  {
    if rows != [] {
      var init := rows[..|rows| - 1];
      var last := rows[|rows| - 1];
      PlainRender(init);
      PlainLine(last);
      var a, b := Render(init), Line(last);
      assert Render(rows) == a + b;
      forall k | 0 <= k < |a + b|
        ensures (a + b)[k] != QuoteMark && (a + b)[k] != '\r'
      {
        if k < |a| {
          assert (a + b)[k] == a[k];
        } else {
          assert (a + b)[k] == b[k - |a|];
        }
      }
    }
  }

  /** Reading an empty file yields no records at all. */
  lemma ParseEmpty(quoted: string -> seq<seq<string>>)
    ensures ReadAll([], quoted) == []
  {
  }

  /** A record written and read back: a record of two or more plain fields
      yields exactly its fields, and its line is never skipped as empty. */
  lemma LineRoundTrip(record: seq<string>)
    requires |record| >= 2 && PlainRecord(record)
    ensures Newline !in Join(record, Comma)
    ensures Join(record, Comma) != []
    ensures Split(Join(record, Comma), Comma) == record
  {
    JoinAvoids(record, Comma, Newline);
    SplitJoin(record, Comma);
    assert Join(record, Comma) == record[0] + [Comma] + Join(record[1..], Comma);
  }

  /** Round trip through the splitter: the text of records of two or more
      plain fields splits back into exactly those records, in order. */
  lemma {:induction false} ParseRender(rows: seq<seq<string>>)
    requires forall i :: 0 <= i < |rows| ==> |rows[i]| >= 2 && PlainRecord(rows[i])
    ensures Parse(Render(rows)) == rows
  {
    if rows != [] {
      var first := Join(rows[0], Comma);
      RenderCons(rows);
      LineRoundTrip(rows[0]);
      assert Line(rows[0]) == first + [Newline];
      SplitAtFirst(first, Render(rows[1..]), Newline);
      var lines := Split(Render(rows), Newline);
      assert lines == [first] + Split(Render(rows[1..]), Newline);
      assert lines[1..] == Split(Render(rows[1..]), Newline);
      ParseRender(rows[1..]);
      assert [rows[0]] + rows[1..] == rows;
    }
  }

  /** Joining pieces of at most `width` characters each takes at most
      `width` + 1 characters per piece. */
  lemma {:induction false} JoinLength(parts: seq<string>, sep: char, width: nat)
    requires forall k :: 0 <= k < |parts| ==> |parts[k]| <= width
    ensures |Join(parts, sep)| <= |parts| * (width + 1)
  {
    if |parts| > 1 {
      JoinLength(parts[1..], sep, width);
      assert |Join(parts, sep)| == |parts[0]| + 1 + |Join(parts[1..], sep)|;
      assert (|parts| - 1) * (width + 1) + (width + 1) == |parts| * (width + 1);
    }
  }

  /** The line of a plain record of fields of at most `width` characters. */
  lemma LineLength(record: seq<string>, width: nat)
    requires PlainRecord(record)
    requires forall k :: 0 <= k < |record| ==> |record[k]| <= width
    ensures |Line(record)| <= |record| * (width + 1) + 1
  {
    JoinLength(record, Comma, width);
  }
}
