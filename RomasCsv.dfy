/**
 * RomasCsv: a comma-separated row parser whose fields may hold `{...}` and
 * `[...]` groups with commas inside, and whose quoted values use the
 * doubled-quote escape of RFC 4180 section 2.
 */
module RomasCsv {
  import opened Wrappers
  import opened Text

  const OpenChars: set<char> := {'{', '['}
  const CloseChars: set<char> := {']', '}'}
  const Delims: set<char> := {','}

  /** The column names: none for a null or empty header, else the comma-separated pieces, each trimmed. */
  function ColumnNames(header: Option<string>): (cols: seq<string>)
    ensures header.None? || header.value == "" ==> cols == []
    ensures header.Some? && header.value != "" ==>
              |cols| == |Split(header.value, ',')|
              && forall i :: 0 <= i < |cols| ==> cols[i] == GuavaTrim(Split(header.value, ',')[i])
  {
    if header.None? || header.value == "" then []
    else
      var pieces := Split(header.value, ',');
      seq(|pieces|, i requires 0 <= i < |pieces| => GuavaTrim(pieces[i]))
  }

  /** CharMatcher.indexIn(s, from): the first index at or after `from` holding a character of `cs`, or -1. */
  function Find(s: string, from: nat, cs: set<char>): (i: int)
    requires from <= |s|
    ensures i == -1 || (from <= i < |s| && s[i] in cs)
    decreases |s| - from
  {
    if from == |s| then -1 else if s[from] in cs then from else Find(s, from + 1, cs)
  }

  /** Find skips a stretch holding none of the characters looked for. */
  lemma {:induction false} FindSkips(s: string, from: nat, to: nat, cs: set<char>)
    requires from <= to <= |s|
    requires forall j :: from <= j < to ==> s[j] !in cs
    ensures Find(s, from, cs) == Find(s, to, cs)
    decreases |s| - from
  {
    if from < to {
      FindSkips(s, from + 1, to, cs);
    }
  }

  /** Find reports -1 only when no character at or after `from` is looked for. */
  lemma {:induction false} FindNone(s: string, from: nat, cs: set<char>)
    requires from <= |s| && Find(s, from, cs) == -1
    ensures forall j :: from <= j < |s| ==> s[j] !in cs
    decreases |s| - from
  {
    if from < |s| {
      FindNone(s, from + 1, cs);
    }
  }

  /**
   * lookupOpen: the index of the comma ending the field that starts at
   * `from`, skipping commas inside bracket groups, or the line length when
   * no comma remains. `openedCount` counts the groups still open.
   */
  function LookupOpen(line: string, from: nat, openedCount: nat): (r: nat)
    requires from <= |line|
    ensures from <= r <= |line|
    ensures r < |line| ==> line[r] == ','
    decreases |line| - from, 1
  {
    LookupAt(line, from, openedCount, Find(line, from, OpenChars), Find(line, from, CloseChars), Find(line, from, Delims))
  }

  /** One step of lookupOpen, given the next opening bracket, closing bracket and comma at or after `from`. */
  function LookupAt(line: string, from: nat, openedCount: nat, openIndex: int, closeIndex: int, delimIndex: int): (r: nat)
    requires from <= |line|
    requires openIndex == -1 || from <= openIndex < |line|
    requires closeIndex == -1 || from <= closeIndex < |line|
    requires delimIndex == -1 || (from <= delimIndex < |line| && line[delimIndex] == ',')
    ensures from <= r <= |line|
    ensures r < |line| ==> line[r] == ','
    decreases |line| - from, 0
  {
    if delimIndex == -1 then |line|
    else if openedCount > 0 && closeIndex >= 0 then
      if openIndex >= 0 && openIndex < closeIndex then LookupOpen(line, openIndex + 1, openedCount + 1)
      else LookupOpen(line, closeIndex + 1, openedCount - 1)
    else if openIndex == -1 || delimIndex < openIndex then delimIndex
    else LookupOpen(line, openIndex + 1, openedCount + 1)
  }

  /** With no comma at or after `from` the field runs to the end of the line. */
  lemma NoCommaGivesLength(line: string, from: nat, openedCount: nat)
    requires from <= |line|
    requires forall j :: from <= j < |line| ==> line[j] != ','
    ensures LookupOpen(line, from, openedCount) == |line|
  {
    FindSkips(line, from, |line|, Delims);
  }

  /** Outside any group, a comma before every bracket ends the field. */
  lemma FirstCommaBeforeBrackets(line: string, from: nat, c: nat)
    requires from <= c < |line| && line[c] == ','
    requires forall j :: from <= j < c ==> line[j] !in Delims + OpenChars
    ensures LookupOpen(line, from, 0) == c
  {
    FindSkips(line, from, c, Delims);
    FindSkips(line, from, c, OpenChars);
  }

  /** A balanced group `{g}` or `[g]` with no brackets inside is skipped whole, commas and all. */
  lemma SkipsBalancedGroup(line: string, from: nat, g: string)
    requires from + |g| + 2 <= |line|
    requires line[from] in OpenChars && line[from + |g| + 1] in CloseChars
    requires line[from + 1..from + |g| + 1] == g
    requires forall j :: 0 <= j < |g| ==> g[j] !in OpenChars + CloseChars
    ensures LookupOpen(line, from, 0) == LookupOpen(line, from + |g| + 2, 0)
  {
    var close := from + |g| + 1;
    assert forall j :: from + 1 <= j < close ==> line[j] == g[j - from - 1];
    FindSkips(line, from + 1, close, CloseChars);
    FindSkips(line, from + 1, close + 1, OpenChars);
    var d := Find(line, from, Delims);
    if d == -1 {
      FindNone(line, from, Delims);
      NoCommaGivesLength(line, close + 1, 0);
      assert LookupOpen(line, from, 0) == |line|;
    } else {
      assert Find(line, from, OpenChars) == from;
      assert LookupOpen(line, from, 0) == LookupOpen(line, from + 1, 1);
      assert Find(line, from + 1, Delims) == d;
      assert LookupOpen(line, from + 1, 1) == LookupOpen(line, close + 1, 0);
    }
  }

  /** A comma that is the last character of the line, and the only one, ends the first field from any state. */
  lemma {:induction false} OnlyFinalComma(line: string, from: nat, openedCount: nat)
    requires 0 < |line| && line[|line| - 1] == ',' && from < |line|
    requires forall j :: 0 <= j < |line| - 1 ==> line[j] != ','
    ensures LookupOpen(line, from, openedCount) == |line| - 1
    decreases |line| - from
  {
    var last := |line| - 1;
    FindSkips(line, from, last, Delims);
    var o := Find(line, from, OpenChars);
    var c := Find(line, from, CloseChars);
    assert LookupOpen(line, from, openedCount) == LookupAt(line, from, openedCount, o, c, last);
    if openedCount > 0 && c >= 0 {
      if o >= 0 && o < c {
        OnlyFinalComma(line, o + 1, openedCount + 1);
      } else {
        OnlyFinalComma(line, c + 1, openedCount - 1);
      }
    } else if o >= 0 {
      OnlyFinalComma(line, o + 1, openedCount + 1);
    }
  }

  /**
   * The fields of a row, as parse's loop finds them: the first runs to the
   * first top-level comma; after each comma the remainder is trimmed; a
   * remainder that trims to nothing yields one final empty field.
   */
  function SplitFields(line: string): (fields: seq<string>)
    ensures |fields| == 0 <==> |line| == 0
    decreases |line|, 1
  {
    if |line| == 0 then [] else FieldsAt(line, LookupOpen(line, 0, 0))
  }

  /** The fields of a non-empty row whose first top-level comma is at `d` (or which has none when `d` is its length). */
  function FieldsAt(line: string, d: nat): (fields: seq<string>)
    requires 0 < |line| && d <= |line|
    ensures |fields| > 0
    decreases |line|, 0
  {
    if d == |line| then [line]
    else
      var rest := Trim(line[d + 1..]);
      NewFields(line, d, rest) + SplitFields(rest)
  }

  /** The fields one turn of parse's loop adds: the field before the comma, and an empty one if nothing but blanks follows. */
  function NewFields(line: string, d: nat, rest: string): seq<string>
    requires d <= |line|
  {
    if |rest| == 0 then [line[..d], ""] else [line[..d]]
  }

  /**
   * One turn of the field loop: with no top-level comma the line is one
   * field; otherwise its fields are those the turn adds followed by the
   * fields of the trimmed, shorter remainder.
   */
  lemma SplitFieldsStep(line: string, d: nat, rest: string)
    requires |line| > 0 && d == LookupOpen(line, 0, 0)
    requires rest == if d == |line| then "" else Trim(line[d + 1..])
    ensures d == |line| ==> SplitFields(line) == [line]
    ensures d < |line| ==> SplitFields(line) == NewFields(line, d, rest) + SplitFields(rest) && |rest| < |line|
  {
    assert SplitFields(line) == FieldsAt(line, d);
  }

  /** Moving a field from the remaining fields to those found keeps their concatenation. */
  lemma Regroup(values: seq<string>, field: seq<string>, fields: seq<string>, restFields: seq<string>)
    requires fields == field + restFields
    ensures values + fields == (values + field) + restFields
  {
  }

  /** A trailing comma yields a final empty field. */
  lemma TrailingComma(x: string)
    requires forall j :: 0 <= j < |x| ==> x[j] != ','
    ensures SplitFields(x + ",") == [x, ""]
  {
    var line := x + ",";
    assert forall j :: 0 <= j < |x| ==> line[j] == x[j];
    OnlyFinalComma(line, 0, 0);
    assert line[|x| + 1..] == "";
    assert Trim("") == "";
    assert line[..|x|] == x;
    SplitFieldsStep(line, |x|, "");
  }

  /** A field with no comma and no bracket followed by a comma and more text: the rest is trimmed before it is split. */
  lemma FieldThenTrimmedRest(x: string, rest: string)
    requires forall j :: 0 <= j < |x| ==> x[j] !in Delims + OpenChars
    requires |Trim(rest)| > 0
    ensures SplitFields(x + "," + rest) == [x] + SplitFields(Trim(rest))
  {
    var line := x + "," + rest;
    assert line[..|x|] == x;
    FirstCommaBeforeBrackets(line, 0, |x|);
    assert line[|x| + 1..] == rest;
  }

  /** Java's String.replace("\"\"", "\""): each doubled quote, scanning left to right, becomes one. */
  function CollapseQuotes(s: string): (r: string)
    ensures |r| <= |s|
    decreases |s|
  {
    if |s| >= 2 && s[0] == '"' && s[1] == '"' then "\"" + CollapseQuotes(s[2..])
    else if |s| == 0 then ""
    else [s[0]] + CollapseQuotes(s[1..])
  }

  /** The doubled-quote escape of RFC 4180 section 2: every quote written twice. */
  function EscapeQuotes(s: string): (r: string)
    ensures |r| >= |s|
    ensures '"' !in s ==> r == s
  {
    if |s| == 0 then ""
    else (if s[0] == '"' then "\"\"" else [s[0]]) + EscapeQuotes(s[1..])
  }

  /** Collapsing undoes escaping. */
  lemma {:induction false} CollapseEscape(s: string)
    ensures CollapseQuotes(EscapeQuotes(s)) == s
  {
    if |s| > 0 {
      CollapseEscape(s[1..]);
      var e := EscapeQuotes(s);
      if s[0] == '"' {
        assert e == "\"\"" + EscapeQuotes(s[1..]);
        assert e[2..] == EscapeQuotes(s[1..]);
      } else {
        assert e == [s[0]] + EscapeQuotes(s[1..]);
        assert e[1..] == EscapeQuotes(s[1..]);
      }
    }
  }

  /** parse's value clean-up as written: collapse doubled quotes first, then drop one leading and one trailing quote. */
  function UnquoteAsWritten(v: string): (r: Result<string>)
    ensures '"' !in v ==> r == Ok(v)
  {
    if '"' !in v then Ok(v)
    else
      var w := CollapseQuotes(v);
      var b := if StartsWith(w, "\"") then 1 else 0;
      var e := |w| - (if EndsWith(w, "\"") then 1 else 0);
      if b > e then Err(IndexOutOfBounds) else Ok(w[b..e])
  }

  /**
   * The clean-up corrected: drop the enclosing quotes first, then collapse
   * the doubled quotes inside. Values without a quote are left alone.
   */
  function Unquote(v: string): (r: string)
    ensures '"' !in v ==> r == v
    ensures |r| <= |v|
  {
    if '"' !in v then v
    else
      var b := if |v| > 0 && v[0] == '"' then 1 else 0;
      var e := if |v| > b && v[|v| - 1] == '"' then |v| - 1 else |v|;
      CollapseQuotes(v[b..e])
  }

  /** Every value survives quoting with the escape of RFC 4180 and the corrected clean-up. */
  lemma UnquoteRoundTrip(s: string)
    ensures Unquote("\"" + EscapeQuotes(s) + "\"") == s
  {
    var q := "\"" + EscapeQuotes(s) + "\"";
    assert q[0] == '"';
    assert q[1..|q| - 1] == EscapeQuotes(s);
    CollapseEscape(s);
  }

  /** The quoted empty value `""` makes the clean-up as written throw. */
  lemma EmptyQuotedThrows()
    ensures UnquoteAsWritten("\"\"") == Err(IndexOutOfBounds)
    ensures Unquote("\"\"") == ""
  {
    var v := "\"\"";
    assert v[0] == '"' && v[1] == '"' && |v| == 2;
    assert v[2..] == "" && v[1..1] == "";
    assert CollapseQuotes(v) == "\"" + CollapseQuotes("") == "\"";
    assert StartsWith("\"", "\"") && EndsWith("\"", "\"");
  }

  /** The quoted single quote `""""` comes out empty as written, instead of as one quote. */
  lemma QuotedQuoteLost()
    ensures UnquoteAsWritten("\"\"\"\"") == Ok("")
    ensures Unquote("\"\"\"\"") == "\""
  {
    var v := "\"\"\"\"";
    assert v[2..] == "\"\"" && v[2..][2..] == "";
    assert CollapseQuotes(v) == "\"\"";
    assert "\"\""[1..1] == "";
    assert v[1..3] == "\"\"";
    assert CollapseQuotes("\"\"") == "\"";
  }

  /** A row: column names and values in insertion order, as a LinkedHashMap iterates them. */
  type Row = seq<(string, string)>

  /** LinkedHashMap.put: replaces the value of a present key in place, else appends. */
  function Put(row: Row, k: string, v: string): (r: Row)
    ensures |r| == |row| || |r| == |row| + 1
    ensures (k, v) in r
  {
    if |row| == 0 then [(k, v)]
    else if row[0].0 == k then [(k, v)] + row[1..]
    else [row[0]] + Put(row[1..], k, v)
  }

  /** The values of a row: each field cleaned of its quotes. */
  function Cleaned(fields: seq<string>): (vals: seq<string>)
    ensures |vals| == |fields| && forall i :: 0 <= i < |fields| ==> vals[i] == Unquote(fields[i])
  {
    seq(|fields|, i requires 0 <= i < |fields| => Unquote(fields[i]))
  }

  /** The row after putting the first n column/value pairs. */
  function BuildRow(cols: seq<string>, vals: seq<string>, n: nat): Row
    requires n <= |cols| == |vals|
  {
    if n == 0 then [] else Put(BuildRow(cols, vals, n - 1), cols[n - 1], vals[n - 1])
  }

  /** What parse returns: a field-count mismatch is an IllegalArgumentException, else the row. */
  function ParseSpec(cols: seq<string>, line: string): (r: Result<Row>)
    ensures r.Err? <==> |cols| != |SplitFields(line)|
    ensures r.Err? ==> r.error == IllegalArgument
  {
    var fields := SplitFields(line);
    if |cols| != |fields| then Err(IllegalArgument) else Ok(BuildRow(cols, Cleaned(fields), |cols|))
  }

  /** With distinct column names the i-th entry of the row is the i-th column and the i-th value. */
  lemma {:induction false} BuildRowInOrder(cols: seq<string>, vals: seq<string>, n: nat)
    requires n <= |cols| == |vals|
    requires forall i, j :: 0 <= i < j < |cols| ==> cols[i] != cols[j]
    ensures |BuildRow(cols, vals, n)| == n
    ensures forall i :: 0 <= i < n ==> BuildRow(cols, vals, n)[i] == (cols[i], vals[i])
  {
    if n > 0 {
      BuildRowInOrder(cols, vals, n - 1);
      var row := BuildRow(cols, vals, n - 1);
      forall i | 0 <= i < |row|
        ensures row[i].0 != cols[n - 1]
      {
        assert row[i] == (cols[i], vals[i]);
      }
      PutNewKey(row, cols[n - 1], vals[n - 1]);
      assert BuildRow(cols, vals, n) == row + [(cols[n - 1], vals[n - 1])];
    }
  }

  /** Putting a key that is not present appends it. */
  lemma {:induction false} PutNewKey(row: Row, k: string, v: string)
    requires forall i :: 0 <= i < |row| ==> row[i].0 != k
    ensures Put(row, k, v) == row + [(k, v)]
  {
    if |row| > 0 {
      PutNewKey(row[1..], k, v);
      assert row == [row[0]] + row[1..];
    }
  }

  class RomasCsv {
    const columnNames: seq<string>

    constructor (colNameStr: Option<string>)
      ensures columnNames == ColumnNames(colNameStr)
    {
      columnNames := ColumnNames(colNameStr);
    }

    /** The field-splitting loop of parse. */
    static method ParseFields(line0: string) returns (values: seq<string>)
      ensures values == SplitFields(line0)
    {
      var line := line0;
      values := [];
      while |line| > 0
        invariant values + SplitFields(line) == SplitFields(line0)
        decreases |line|
      {
        var nextDelim := LookupOpen(line, 0, 0);
        var rest := if nextDelim == |line| then "" else Trim(line[nextDelim + 1..]);
        SplitFieldsStep(line, nextDelim, rest);
        if |line| == nextDelim {
          values := values + [line];
          break;
        }
        Regroup(values, NewFields(line, nextDelim, rest), SplitFields(line), SplitFields(rest));
        values := values + NewFields(line, nextDelim, rest);
        line := rest;
      }
    }

    /** parse: split the line, check the field count, and fill the row column by column. */
    method Parse(line: string) returns (r: Result<Row>)
      ensures r == ParseSpec(columnNames, line)
    {
      var values := ParseFields(line);
      if |columnNames| != |values| {
        return Err(IllegalArgument);
      }
      var row := FillRow(columnNames, Cleaned(values));
      return Ok(row);
    }

    /** The filling loop of parse: each column name is put with its cleaned value, in column order. */
    static method FillRow(cols: seq<string>, values: seq<string>) returns (row: Row)
      requires |cols| == |values|
      ensures row == BuildRow(cols, values, |cols|)
    {
      row := [];
      var i := 0;
      while i < |cols|
        invariant 0 <= i <= |cols|
        invariant row == BuildRow(cols, values, i)
      {
        row := Put(row, cols[i], values[i]);
        i := i + 1;
      }
    }
  }
}
