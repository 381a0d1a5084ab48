/** `escapeCsvField` (apps/worker/src/worker.js:858-869) and the export that uses it
    (apps/worker/src/routes/rooms-list-export-http.js:223-240), against a parser for the
    grammar of section 2 of RFC 4180. */
module Csv {
  import opened Common

  const QUOTE := '\"'
  const CRLF := "\r\n"

  predicate IsSpecial(c: char) {
    c == QUOTE || c == ',' || c == '\n' || c == '\r'
  }

  /** The character set of unquoted text.  RFC 4180 lists printable ASCII without comma and
      double quote; every reading in use is `text` for some predicate. */
  type Text = char -> bool

  predicate NeedsQuotes(s: string) {
    QUOTE in s || ',' in s || '\n' in s || '\r' in s
  }

  /** `str.replace(/"/g, '""')`. */
  function DoubleQuotes(s: string): (r: string) {
    if s == "" then "" else (if s[0] == QUOTE then [QUOTE, QUOTE] else [s[0]]) + DoubleQuotes(s[1..])
  }

  function EscapeCsvField(s: string): (r: string) {
    if NeedsQuotes(s) then [QUOTE] + DoubleQuotes(s) + [QUOTE] else s
  }

  /** A record has at least one field. */
  type Record = r: seq<string> | r != [] witness [""]

  /** `cells.map(escapeCsvField).join(",")`. */
  function PrintRecord(fields: Record): (r: string) {
    if |fields| == 1 then EscapeCsvField(fields[0])
    else EscapeCsvField(fields[0]) + "," + PrintRecord(fields[1..])
  }

  /** `csvLines.join("\r\n")`. */
  function PrintFile(records: seq<Record>): (r: string)
    requires records != []
  {
    if |records| == 1 then PrintRecord(records[0])
    else PrintRecord(records[0]) + CRLF + PrintFile(records[1..])
  }

  // ---- the grammar of RFC 4180, read from left to right ----

  /** A field and what follows it. */
  datatype Parsed<+T> = Parsed(value: T, rest: string)

  /** non-escaped = *TEXTDATA */
  function ParseBare(text: Text, s: string): (p: Parsed<string>)
    ensures |p.rest| <= |s|
  {
    if s == "" || IsSpecial(s[0]) || !text(s[0]) then Parsed("", s)
    else
      var p := ParseBare(text, s[1..]);
      Parsed([s[0]] + p.value, p.rest)
  }

  /** *(TEXTDATA / COMMA / CR / LF / 2DQUOTE) DQUOTE, after the opening quote */
  function ParseQuoted(text: Text, s: string): (p: Option<Parsed<string>>)
    ensures p.Some? ==> |p.value.rest| < |s|
  {
    if s == "" then None
    else if s[0] == QUOTE then
      if |s| >= 2 && s[1] == QUOTE then
        var p := ParseQuoted(text, s[2..]);
        if p.None? then None else Some(Parsed([QUOTE] + p.value.value, p.value.rest))
      else Some(Parsed("", s[1..]))
    else if IsSpecial(s[0]) || text(s[0]) then
      var p := ParseQuoted(text, s[1..]);
      if p.None? then None else Some(Parsed([s[0]] + p.value.value, p.value.rest))
    else None
  }

  /** field = (escaped / non-escaped) */
  function ParseField(text: Text, s: string): (p: Option<Parsed<string>>)
    ensures p.Some? ==> |p.value.rest| <= |s|
  {
    if s != "" && s[0] == QUOTE then ParseQuoted(text, s[1..]) else Some(ParseBare(text, s))
  }

  /** record = field *(COMMA field) */
  function ParseRecord(text: Text, s: string): (p: Option<Parsed<seq<string>>>)
    ensures p.Some? ==> |p.value.rest| <= |s|
    decreases |s|
  {
    var f := ParseField(text, s);
    if f.None? then None
    else if f.value.rest != "" && f.value.rest[0] == ',' then
      var more := ParseRecord(text, f.value.rest[1..]);
      if more.None? then None else Some(Parsed([f.value.value] + more.value.value, more.value.rest))
    else Some(Parsed([f.value.value], f.value.rest))
  }

  /** file = record *(CRLF record) [CRLF] */
  function ParseFile(text: Text, s: string): (r: Option<seq<seq<string>>>)
    decreases |s|
  {
    var p := ParseRecord(text, s);
    if p.None? then None
    else if p.value.rest == "" || p.value.rest == CRLF then Some([p.value.value])
    else if CRLF <= p.value.rest then
      var more := ParseFile(text, p.value.rest[2..]);
      if more.None? then None else Some([p.value.value] + more.value)
    else None
  }

  // ---- printing, then parsing ----

  /** Every character is one the grammar has a place for. */
  ghost predicate Representable(text: Text, s: string) {
    forall c :: c in s ==> IsSpecial(c) || text(c)
  }

  /** What may follow a printed field. */
  predicate EndsField(rest: string) {
    rest == "" || rest[0] == ',' || rest[0] == '\r'
  }

  lemma {:induction false} ParseBareReads(text: Text, s: string, rest: string)
    requires !NeedsQuotes(s) && Representable(text, s) && EndsField(rest)
    ensures ParseBare(text, s + rest) == Parsed(s, rest)
  {
    if s == "" {
      assert s + rest == rest;
    } else {
      assert s == [s[0]] + s[1..];
      ParseBareReads(text, s[1..], rest);
      assert (s + rest)[1..] == s[1..] + rest;
    }
  }

  lemma {:induction false} ParseQuotedReads(text: Text, s: string, rest: string)
    requires Representable(text, s) && EndsField(rest)
    ensures ParseQuoted(text, DoubleQuotes(s) + [QUOTE] + rest) == Some(Parsed(s, rest))
  {
    var whole := DoubleQuotes(s) + [QUOTE] + rest;
    if s == "" {
      assert whole == [QUOTE] + rest && whole[1..] == rest;
    } else {
      assert s == [s[0]] + s[1..];
      ParseQuotedReads(text, s[1..], rest);
      var tail := DoubleQuotes(s[1..]) + [QUOTE] + rest;
      if s[0] == QUOTE {
        assert whole == [QUOTE, QUOTE] + tail;
        assert whole[2..] == tail;
      } else {
        assert whole == [s[0]] + tail;
        assert whole[1..] == tail;
      }
    }
  }

  lemma ParseFieldReads(text: Text, s: string, rest: string)
    requires Representable(text, s) && EndsField(rest)
    ensures ParseField(text, EscapeCsvField(s) + rest) == Some(Parsed(s, rest))
  {
    hide ParseBare, ParseQuoted, DoubleQuotes, Representable;
    if NeedsQuotes(s) {
      ParseQuotedReads(text, s, rest);
      assert EscapeCsvField(s) + rest == [QUOTE] + (DoubleQuotes(s) + [QUOTE] + rest);
    } else {
      ParseBareReads(text, s, rest);
      if s == "" { assert EscapeCsvField(s) + rest == rest; }
    }
  }

  ghost predicate RecordOk(text: Text, fields: Record) {
    forall f :: f in fields ==> Representable(text, f)
  }

  lemma {:induction false} ParseRecordReads(text: Text, fields: Record, rest: string)
    requires RecordOk(text, fields)
    requires rest == "" || CRLF <= rest
    ensures ParseRecord(text, PrintRecord(fields) + rest) == Some(Parsed(fields, rest))
    decreases |fields|
  {
    hide ParseField, EscapeCsvField, Representable;
    assert fields == [fields[0]] + fields[1..];
    if |fields| == 1 {
      ParseFieldReads(text, fields[0], rest);
      assert fields == [fields[0]];
    } else {
      ParseRecordReads(text, fields[1..], rest);
      var tail := PrintRecord(fields[1..]) + rest;
      ParseFieldReads(text, fields[0], "," + tail);
      assert PrintRecord(fields) + rest == EscapeCsvField(fields[0]) + ("," + tail);
      assert ("," + tail)[1..] == tail;
    }
  }

  ghost predicate FileOk(text: Text, records: seq<Record>) {
    forall r :: r in records ==> RecordOk(text, r)
  }

  /** The file ends with a record that prints as nothing: the grammar's optional final CRLF
      cannot be told from a separator in front of that record. */
  predicate EndsEmpty(records: seq<Record>) {
    |records| >= 2 && records[|records| - 1] == [""]
  }

  lemma {:induction false} RecordPrintsNothing(fields: Record)
    ensures PrintRecord(fields) == "" <==> fields == [""]
  {
    if |fields| == 1 { assert fields == [fields[0]]; }
  }

  lemma {:induction false} FilePrintsNothing(records: seq<Record>)
    requires records != []
    ensures PrintFile(records) == "" <==> records == [[""]]
  {
    assert records[0] in records;
    if |records| == 1 {
      RecordPrintsNothing(records[0]);
      assert records == [records[0]];
    }
  }

  lemma {:induction false} ParseFileReads(text: Text, records: seq<Record>)
    requires records != [] && FileOk(text, records)
    ensures
      ParseFile(text, PrintFile(records)) ==
      Some(if EndsEmpty(records) then records[..|records| - 1] else records)
    decreases |records|
  {
    hide ParseRecord, PrintRecord, RecordOk;
    var s := PrintFile(records);
    assert records == [records[0]] + records[1..];
    if |records| == 1 {
      ParseRecordReads(text, records[0], "");
      assert s + "" == s && records == [records[0]];
    } else {
      var more := records[1..];
      var tail := PrintFile(more);
      ParseFileReads(text, more);
      FilePrintsNothing(more);
      ParseRecordReads(text, records[0], CRLF + tail);
      assert s == PrintRecord(records[0]) + (CRLF + tail);
      assert (CRLF + tail)[2..] == tail;
      if EndsEmpty(records) {
        if |records| == 2 {
          assert tail == "" && CRLF + tail == CRLF;
          assert records[..1] == [records[0]];
        } else {
          assert [records[0]] + more[..|more| - 1] == records[..|records| - 1];
        }
      }
    }
  }

  // ---- what the parser accepts at all ----

  lemma ParseBareGoesOn(text: Text, s: string)
    requires s != "" && !IsSpecial(s[0]) && text(s[0])
    ensures ParseBare(text, s) == Parsed([s[0]] + ParseBare(text, s[1..]).value, ParseBare(text, s[1..]).rest)
  {
  }

  lemma ParseBareStops(text: Text, s: string)
    requires s == "" || IsSpecial(s[0]) || !text(s[0])
    ensures ParseBare(text, s) == Parsed("", s)
  {
  }

  lemma {:induction false} ParseBareCovers(text: Text, s: string)
    ensures
      var p := ParseBare(text, s);
      s == p.value + p.rest && Representable(text, p.value)
  {
    hide ParseBare, IsSpecial;
    if s != "" && !IsSpecial(s[0]) && text(s[0]) {
      ParseBareGoesOn(text, s);
      ParseBareCovers(text, s[1..]);
      var p := ParseBare(text, s[1..]);
      assert s == [s[0]] + s[1..];
      assert [s[0]] + (p.value + p.rest) == ([s[0]] + p.value) + p.rest;
    } else {
      ParseBareStops(text, s);
    }
  }

  /** Whatever is accepted is made of representable characters. */
  lemma {:induction false} ParseQuotedCovers(text: Text, s: string)
    ensures
      var p := ParseQuoted(text, s);
      p.Some? && Representable(text, p.value.rest) ==> Representable(text, s)
  {
    if s != "" {
      if s[0] == QUOTE {
        if |s| >= 2 && s[1] == QUOTE {
          ParseQuotedCovers(text, s[2..]);
          assert s == [s[0], s[1]] + s[2..];
        } else {
          assert s == [s[0]] + s[1..];
        }
      } else {
        ParseQuotedCovers(text, s[1..]);
        assert s == [s[0]] + s[1..];
      }
    }
  }

  lemma ParseFieldCovers(text: Text, s: string)
    ensures
      var p := ParseField(text, s);
      p.Some? && Representable(text, p.value.rest) ==> Representable(text, s)
  {
    if s != "" && s[0] == QUOTE {
      ParseQuotedCovers(text, s[1..]);
      assert s == [s[0]] + s[1..];
    } else {
      ParseBareCovers(text, s);
    }
  }

  lemma {:induction false} ParseRecordCovers(text: Text, s: string)
    ensures
      var p := ParseRecord(text, s);
      p.Some? && Representable(text, p.value.rest) ==> Representable(text, s)
    decreases |s|
  {
    ParseFieldCovers(text, s);
    var f := ParseField(text, s);
    if f.Some? && f.value.rest != "" && f.value.rest[0] == ',' {
      ParseRecordCovers(text, f.value.rest[1..]);
      assert f.value.rest == [','] + f.value.rest[1..];
    }
  }

  lemma {:induction false} ParseFileCovers(text: Text, s: string)
    ensures ParseFile(text, s).Some? ==> Representable(text, s)
    decreases |s|
  {
    ParseRecordCovers(text, s);
    var p := ParseRecord(text, s);
    if p.Some? && CRLF <= p.value.rest {
      if p.value.rest != CRLF { ParseFileCovers(text, p.value.rest[2..]); }
      assert p.value.rest == CRLF + p.value.rest[2..];
    }
  }

  /** Every character of a field appears in the printed file. */
  lemma {:induction false} QuotingKeepsCharacters(s: string, c: char)
    requires c in s
    ensures c in DoubleQuotes(s)
  {
    if c != s[0] {
      assert s == [s[0]] + s[1..];
      QuotingKeepsCharacters(s[1..], c);
    }
  }

  lemma {:induction false} RecordKeepsCharacters(fields: Record, i: nat, c: char)
    requires i < |fields| && c in fields[i]
    ensures c in PrintRecord(fields)
    decreases |fields|
  {
    if i == 0 {
      QuotingKeepsCharacters(fields[0], c);
      assert c in EscapeCsvField(fields[0]);
    } else {
      RecordKeepsCharacters(fields[1..], i - 1, c);
    }
  }

  lemma {:induction false} FileKeepsCharacters(records: seq<Record>, j: nat, i: nat, c: char)
    requires j < |records|
    requires i < |records[j]| && c in records[j][i]
    ensures c in PrintFile(records)
    decreases |records|
  {
    if j == 0 {
      RecordKeepsCharacters(records[0], i, c);
    } else {
      FileKeepsCharacters(records[1..], j - 1, i, c);
    }
  }

  /** A printed file is parsed back to the same records exactly when every character has a
      place in the grammar and the file does not end, after a first record, with a record
      whose only field is empty. */
  lemma RoundTripIff(text: Text, records: seq<Record>)
    requires records != []
    ensures ParseFile(text, PrintFile(records)) == Some(records) <==> FileOk(text, records) && !EndsEmpty(records)
  {
    if FileOk(text, records) {
      ParseFileReads(text, records);
    } else {
      var r :| r in records && !RecordOk(text, r);
      var f :| f in r && !Representable(text, f);
      var c :| c in f && !IsSpecial(c) && !text(c);
      var j :| 0 <= j < |records| && records[j] == r;
      var i :| 0 <= i < |r| && r[i] == f;
      FileKeepsCharacters(records, j, i, c);
      ParseFileCovers(text, PrintFile(records));
    }
  }

  /** The message export has seven columns in every row, so it reads back whenever all its
      characters are representable. */
  lemma ExportReadsBack(text: Text, rows: seq<Record>)
    requires rows != [] && (forall r :: r in rows ==> |r| == 7) && FileOk(text, rows)
    ensures ParseFile(text, PrintFile(rows)) == Some(rows)
  {
    assert rows[|rows| - 1] in rows;
    RoundTripIff(text, rows);
  }

  /** A field is printed as it is exactly when it has no comma, quote or line break; any other
      is put in quotes. */
  lemma QuotesOnlyWhenNeeded(s: string)
    ensures EscapeCsvField(s) == s <==>
      forall i :: 0 <= i < |s| ==> s[i] != ',' && s[i] != '\"' && s[i] != '\n' && s[i] != '\r'
    ensures EscapeCsvField(s) != s ==>
      |EscapeCsvField(s)| >= |s| + 2 && EscapeCsvField(s)[0] == '\"' && EscapeCsvField(s)[|EscapeCsvField(s)| - 1] == '\"'
  {
    DoublingLengthens(s);
  }

  lemma {:induction false} DoublingLengthens(s: string)
    ensures |DoubleQuotes(s)| >= |s|
  {
    if s != "" { DoublingLengthens(s[1..]); }
  }
}
