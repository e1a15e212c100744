/**
 The quoting writer and the character-level reader of src/csv.c.  A stream of key/value records
 reads back as the list that was written exactly when every string in it can be represented.
 The quoting is that of section 2 of RFC 4180.
 */
module Csv {
  import opened Common

  const QUOTE := '"'
  const NEWLINE := '\n'

  /** isspace in the C locale. */
  predicate IsSpace(c: char) { c == ' ' || 9 <= c as int <= 13 }

  /** A delimiter that can be told from everything else. */
  predicate Separates(delim: char) { delim != QUOTE && !IsSpace(delim) }

  // ------------------------------------------------------------------ writing

  predicate NeedsQuote(field: string, delim: char) {
    exists k :: 0 <= k < |field| && (field[k] == delim || field[k] == QUOTE || IsSpace(field[k]))
  }

  function Doubled(field: string): string {
    if field == "" then ""
    else
      var c := field[|field| - 1];
      Doubled(field[..|field| - 1]) + (if c == QUOTE then [c, c] else [c])
  }

  function Field(field: string, delim: char): string {
    if NeedsQuote(field, delim) then [QUOTE] + Doubled(field) + [QUOTE] else field
  }

  function Record(key: string, value: string, delim: char): string {
    Field(key, delim) + [delim] + Field(value, delim) + [NEWLINE]
  }

  function Records(pairs: seq<(string, string)>, delim: char): string {
    if pairs == [] then ""
    else Records(pairs[..|pairs| - 1], delim) + Record(pairs[|pairs| - 1].0, pairs[|pairs| - 1].1, delim)
  }

  /**
   A field is quoted exactly if it holds the delimiter, a quote, a blank, or a control character from
   tab to carriage return.
   */
  lemma {:induction false} FieldExactly(f: string, delim: char)
    ensures var plain := forall k :: 0 <= k < |f| ==>
                           f[k] != delim && f[k] != '"' && f[k] != ' ' && !(9 <= f[k] as int <= 13);
            Field(f, delim) == if plain then f else "\"" + Doubled(f) + "\""
  {
    if k :| 0 <= k < |f| && (f[k] == delim || f[k] == '"' || f[k] == ' ' || 9 <= f[k] as int <= 13) {
      assert NeedsQuote(f, delim);
    }
  }

  lemma DoubledOne(c: char)
    ensures Doubled("") == "" && Doubled([c]) == if c == '"' then "\"\"" else [c]
  {
    assert [c][..0] == "";
  }

  /** Quotes are doubled, and nothing else changes. */
  lemma {:induction false} DoubledExactly(f: string, g: string)
    ensures Doubled(f + g) == Doubled(f) + Doubled(g)
    ensures forall c :: f == [c] ==> Doubled(f) == if c == '"' then "\"\"" else [c]
  {
    if |f| == 1 { DoubledOne(f[0]); }
    if g == "" {
      assert f + g == f;
    } else {
      var n, h := |g| - 1, f + g;
      DoubledExactly(f, g[..n]);
      DoubledSnoc(g);
      DoubledSnoc(h);
      hide Doubled;
      assert h[..|h| - 1] == f + g[..n] && h[|h| - 1] == g[n];
    }
  }

  lemma DoubledSnoc(g: string)
    requires g != ""
    ensures Doubled(g) == Doubled(g[..|g| - 1]) + (if g[|g| - 1] == QUOTE then [QUOTE, QUOTE] else [g[|g| - 1]])
  {
  }

  /** A record: the key, the delimiter, the value and a line feed. */
  lemma RecordExactly(key: string, value: string, delim: char)
    ensures Record(key, value, delim) == Field(key, delim) + [delim] + Field(value, delim) + "\n"
  {
  }

  // ------------------------------------------------------------------ reading

  /** A field or NULL, the position after it, and whether the end of the file was met. */
  datatype Got = Got(field: Option<string>, pos: nat, eof: bool)

  function FieldOf(acc: string): Option<string> { if acc == "" then None else Some(acc) }

  /** csv_next with acc already read. */
  function Scan(s: string, delim: char, pos: nat, acc: string, quoted: bool): (g: Got)
    requires pos <= |s|
    ensures pos <= g.pos <= |s|
    ensures g.eof ==> g.pos == |s|
    ensures g.field.None? && !g.eof ==> g.pos > pos
    decreases |s| - pos
  {
    if pos == |s| then Got(FieldOf(acc), pos, true)
    else
      var c := s[pos];
      if !quoted && c == delim then Got(FieldOf(acc), pos + 1, false)
      else if c == NEWLINE then (if acc == "" then Got(None, pos + 1, false) else Got(Some(acc), pos, false))
      else if acc == "" && !quoted && IsSpace(c) then Scan(s, delim, pos + 1, acc, quoted)
      else if acc == "" && c == QUOTE then Scan(s, delim, pos + 1, acc, true)
      else if c == QUOTE && quoted then
        if pos + 1 == |s| then Got(Some(acc), pos + 1, true)
        else if s[pos + 1] == delim || s[pos + 1] == NEWLINE then Got(Some(acc), pos + 2, false)
        else Scan(s, delim, pos + 2, acc + [s[pos + 1]], quoted)
      else Scan(s, delim, pos + 1, acc + [c], quoted)
  }

  /** The scan, unfolded once. */
  lemma ScanStep(s: string, delim: char, pos: nat, acc: string, quoted: bool)
    requires pos <= |s|
    ensures Scan(s, delim, pos, acc, quoted) ==
            if pos == |s| then Got(FieldOf(acc), pos, true)
            else if !quoted && s[pos] == delim then Got(FieldOf(acc), pos + 1, false)
            else if s[pos] == NEWLINE then (if acc == "" then Got(None, pos + 1, false) else Got(Some(acc), pos, false))
            else if acc == "" && !quoted && IsSpace(s[pos]) then Scan(s, delim, pos + 1, acc, quoted)
            else if acc == "" && s[pos] == QUOTE then Scan(s, delim, pos + 1, acc, true)
            else if s[pos] == QUOTE && quoted then
              if pos + 1 == |s| then Got(Some(acc), pos + 1, true)
              else if s[pos + 1] == delim || s[pos + 1] == NEWLINE then Got(Some(acc), pos + 2, false)
              else Scan(s, delim, pos + 2, acc + [s[pos + 1]], quoted)
            else Scan(s, delim, pos + 1, acc + [s[pos]], quoted)
  {
  }

  function Next(s: string, delim: char, pos: nat): (g: Got)
    requires pos <= |s|
    ensures pos <= g.pos <= |s| && (g.eof ==> g.pos == |s|) && (g.field.None? && !g.eof ==> g.pos > pos)
  {
    Scan(s, delim, pos, "", false)
  }

  /** The first field at or after pos, skipping empty lines and empty fields. */
  function NextField(s: string, delim: char, pos: nat): (g: Got)
    requires pos <= |s|
    ensures pos <= g.pos <= |s| && (g.eof ==> g.pos == |s|) && (g.field.None? ==> g.eof)
    decreases |s| - pos
  {
    var g := Next(s, delim, pos);
    if g.field.Some? || g.eof then g else NextField(s, delim, g.pos)
  }

  datatype Pair = Pair(key: Option<string>, value: Option<string>, pos: nat, eof: bool)

  /** csv_next_key_value on a stream whose end has not been met. */
  function NextPair(s: string, delim: char, pos: nat): (p: Pair)
    requires pos <= |s|
    ensures pos <= p.pos <= |s|
  {
    var k := NextField(s, delim, pos);
    if k.field.None? then Pair(None, None, k.pos, true)
    else
      var v := Next(s, delim, k.pos);
      Pair(k.field, v.field, v.pos, v.eof)
  }

  /** Repeated calls, until one returns no key. */
  ghost function ReadAll(s: string, delim: char, pos: nat): seq<(string, Option<string>)>
    requires pos <= |s|
    decreases |s| - pos
  {
    var p := NextPair(s, delim, pos);
    if p.key.None? then []
    else
      assert p.pos > pos by { FieldAdvances(s, delim, pos); }
      [(p.key.value, p.value)] + (if p.eof then [] else ReadAll(s, delim, p.pos))
  }

  /** Line feeds, delimiters and blanks before a key make no difference. */
  lemma {:induction false} BlanksSkipped(s: string, delim: char, pos: nat)
    requires pos < |s| && (s[pos] == '\n' || s[pos] == delim || s[pos] == ' ' || 9 <= s[pos] as int <= 13)
    ensures NextPair(s, delim, pos) == NextPair(s, delim, pos + 1)
  {
    ScanStep(s, delim, pos, "", false);
  }

  lemma {:induction false} ScanAdvances(s: string, delim: char, pos: nat, acc: string, quoted: bool)
    requires pos <= |s|
    ensures var g := Scan(s, delim, pos, acc, quoted); g.field.Some? && acc == "" ==> g.pos > pos
    decreases |s| - pos
  {
    if pos < |s| && acc == "" && s[pos] != NEWLINE && (quoted || s[pos] != delim) {
      if !quoted && IsSpace(s[pos]) { ScanAdvances(s, delim, pos + 1, acc, quoted); }
      else if s[pos] == QUOTE { ScanAdvances(s, delim, pos + 1, acc, true); }
    }
  }

  lemma {:induction false} FieldAdvances(s: string, delim: char, pos: nat)
    requires pos <= |s|
    ensures NextField(s, delim, pos).field.Some? ==> NextField(s, delim, pos).pos > pos
    decreases |s| - pos
  {
    ScanAdvances(s, delim, pos, "", false);
    var g := Next(s, delim, pos);
    if g.field.None? && !g.eof { FieldAdvances(s, delim, g.pos); }
  }

  // ------------------------------------------------------------------ what can be represented

  /** Not empty, without line feeds, and not beginning with a quote. */
  predicate Representable(field: string) {
    field != "" && field[0] != QUOTE && NEWLINE !in field
  }

  /** The reader returns no other fields. */
  lemma {:induction false} ScanRepresentable(s: string, delim: char, pos: nat, acc: string, quoted: bool)
    requires pos <= |s| && (acc == "" || Representable(acc))
    ensures var g := Scan(s, delim, pos, acc, quoted); g.field.Some? ==> Representable(g.field.value)
    decreases |s| - pos
  {
    if pos < |s| {
      var c := s[pos];
      if (quoted || c != delim) && c != NEWLINE {
        if acc == "" && !quoted && IsSpace(c) {
          ScanRepresentable(s, delim, pos + 1, acc, quoted);
        } else if acc == "" && c == QUOTE {
          ScanRepresentable(s, delim, pos + 1, acc, true);
        } else if c == QUOTE && quoted {
          if pos + 1 < |s| && s[pos + 1] != delim && s[pos + 1] != NEWLINE {
            ScanRepresentable(s, delim, pos + 2, acc + [s[pos + 1]], quoted);
          }
        } else {
          ScanRepresentable(s, delim, pos + 1, acc + [c], quoted);
        }
      }
    }
  }

  lemma {:induction false} FieldRepresentable(s: string, delim: char, pos: nat)
    requires pos <= |s|
    ensures var g := NextField(s, delim, pos); g.field.Some? ==> Representable(g.field.value)
    decreases |s| - pos
  {
    ScanRepresentable(s, delim, pos, "", false);
    var g := Next(s, delim, pos);
    if g.field.None? && !g.eof { FieldRepresentable(s, delim, g.pos); }
  }

  lemma {:induction false} ReadRepresentable(s: string, delim: char, pos: nat, k: nat)
    requires pos <= |s| && k < |ReadAll(s, delim, pos)|
    ensures var (key, value) := ReadAll(s, delim, pos)[k];
            Representable(key) && (value.Some? ==> Representable(value.value))
    decreases |s| - pos
  {
    FieldRepresentable(s, delim, pos);
    FieldAdvances(s, delim, pos);
    var p := NextPair(s, delim, pos);
    ScanRepresentable(s, delim, NextField(s, delim, pos).pos, "", false);
    if k > 0 { ReadRepresentable(s, delim, p.pos, k - 1); }
  }

  // ------------------------------------------------------------------ one field

  /** t stands in s at position pos. */
  ghost predicate StandsAt(s: string, t: string, pos: nat) { pos + |t| <= |s| && s[pos..pos + |t|] == t }

  lemma PartStands(s: string, t: string, pos: nat, a: nat, u: string)
    requires StandsAt(s, t, pos) && a + |u| <= |t| && t[a..a + |u|] == u
    ensures StandsAt(s, u, pos + a)
    ensures forall k :: 0 <= k < |t| ==> s[pos + k] == t[k]
  {
    forall k | 0 <= k < |t| ensures s[pos + k] == t[k] { assert s[pos..pos + |t|][k] == t[k]; }
    forall k | 0 <= k < |u| ensures s[pos + a + k] == u[k] { assert t[a..a + |u|][k] == u[k]; }
    assert s[pos + a..pos + a + |u|] == u;
  }

  /** The bytes of t stand one by one. */
  lemma CharStands(s: string, t: string, pos: nat, k: nat)
    requires StandsAt(s, t, pos) && k < |t|
    ensures pos + k < |s| && s[pos + k] == t[k]
  {
    assert s[pos..pos + |t|][k] == t[k];
  }

  /** A character that means nothing to the scan is taken as it is. */
  lemma ScanChar(s: string, delim: char, p: nat, acc: string, quoted: bool)
    requires p < |s| && s[p] != NEWLINE && s[p] != QUOTE
    requires !quoted ==> s[p] != delim && !IsSpace(s[p])
    ensures Scan(s, delim, p, acc, quoted) == Scan(s, delim, p + 1, acc + [s[p]], quoted)
  {
  }

  /** Two quotes stand for one. */
  lemma ScanTwoQuotes(s: string, delim: char, p: nat, acc: string)
    requires p + 1 < |s| && s[p] == s[p + 1] == QUOTE && acc != "" && delim != QUOTE
    ensures Scan(s, delim, p, acc, true) == Scan(s, delim, p + 2, acc + [QUOTE], true)
  {
  }

  lemma {:induction false} ScanPlain(s: string, delim: char, pos: nat, f: string, j: nat)
    requires StandsAt(s, f, pos) && j <= |f| && !NeedsQuote(f, delim) && NEWLINE !in f
    ensures Scan(s, delim, pos + j, f[..j], false) == Scan(s, delim, pos + |f|, f, false)
    decreases |f| - j
  {
    hide Scan, StandsAt, IsSpace;
    StandsLength(s, f, pos);
    if j == |f| {
      assert f[..j] == f;
    } else {
      CharStands(s, f, pos, j);
      ScanChar(s, delim, pos + j, f[..j], false);
      assert f[..j] + [f[j]] == f[..j + 1];
      ScanPlain(s, delim, pos, f, j + 1);
    }
  }

  lemma StandsLength(s: string, t: string, pos: nat)
    requires StandsAt(s, t, pos)
    ensures pos + |t| <= |s|
  {
  }

  lemma {:induction false} DoubledPrefix(f: string, j: nat)
    requires j <= |f|
    ensures |Doubled(f[..j])| <= |Doubled(f)| && Doubled(f)[..|Doubled(f[..j])|] == Doubled(f[..j])
  {
    if j < |f| {
      assert f[..|f| - 1][..j] == f[..j];
      DoubledPrefix(f[..|f| - 1], j);
      var d, e := Doubled(f), Doubled(f[..|f| - 1]);
      assert d[..|e|] == e;
      assert d[..|Doubled(f[..j])|] == d[..|e|][..|Doubled(f[..j])|];
    } else {
      assert f[..j] == f;
    }
  }

  lemma DoubledAt(f: string, j: nat)
    requires j < |f|
    ensures var n := |Doubled(f[..j])|;
            && |Doubled(f[..j + 1])| == n + (if f[j] == QUOTE then 2 else 1) <= |Doubled(f)|
            && Doubled(f)[n] == f[j] && (f[j] == QUOTE ==> Doubled(f)[n + 1] == QUOTE)
  {
    assert f[..j + 1][..j] == f[..j];
    DoubledPrefix(f, j + 1);
    var d := Doubled(f[..j + 1]);
    assert Doubled(f)[..|d|] == d;
    var n := |Doubled(f[..j])|;
    assert d[n] == f[j];
    assert Doubled(f)[n] == Doubled(f)[..|d|][n];
    if f[j] == QUOTE { assert Doubled(f)[n + 1] == Doubled(f)[..|d|][n + 1]; }
  }

  /** One character of a quoted field, doubled if it is a quote. */
  lemma ScanDoubledAt(s: string, delim: char, pos: nat, f: string, j: nat)
    requires StandsAt(s, Doubled(f), pos) && j < |f| && Representable(f) && delim != QUOTE
    ensures var p, q := pos + |Doubled(f[..j])|, pos + |Doubled(f[..j + 1])|;
            p <= |s| && q <= |s| && Scan(s, delim, p, f[..j], true) == Scan(s, delim, q, f[..j + 1], true)
  {
    hide Scan, StandsAt, Doubled;
    DoubledAt(f, j);
    var n := |Doubled(f[..j])|;
    CharStands(s, Doubled(f), pos, n);
    assert f[..j] + [f[j]] == f[..j + 1];
    assert f[j] != NEWLINE && (j == 0 ==> f[j] != QUOTE);
    if f[j] == QUOTE {
      CharStands(s, Doubled(f), pos, n + 1);
      ScanTwoQuotes(s, delim, pos + n, f[..j]);
    } else {
      ScanChar(s, delim, pos + n, f[..j], true);
    }
  }

  lemma {:induction false} ScanDoubled(s: string, delim: char, pos: nat, f: string, j: nat)
    requires StandsAt(s, Doubled(f), pos) && j <= |f| && Representable(f) && Separates(delim)
    ensures var p, q := pos + |Doubled(f[..j])|, pos + |Doubled(f)|;
            p <= |s| && q <= |s| && Scan(s, delim, p, f[..j], true) == Scan(s, delim, q, f, true)
    decreases |f| - j
  {
    hide Scan, StandsAt, Doubled, Representable;
    if j == |f| {
      assert f[..j] == f;
      StandsLength(s, Doubled(f), pos);
    } else {
      ScanDoubledAt(s, delim, pos, f, j);
      ScanDoubled(s, delim, pos, f, j + 1);
    }
  }

  /** A field reads back; the line feed after a quoted one is swallowed, the one after a plain one is left. */
  lemma FieldReads(s: string, delim: char, pos: nat, f: string, t: char)
    requires StandsAt(s, Field(f, delim) + [t], pos) && Representable(f) && Separates(delim)
    requires t == delim || t == NEWLINE
    ensures var n := pos + |Field(f, delim)|;
            Next(s, delim, pos) == Got(Some(f), if t == NEWLINE && !NeedsQuote(f, delim) then n else n + 1, false)
  {
    hide Scan, NeedsQuote, Representable, Separates, Doubled;
    if NeedsQuote(f, delim) {
      QuotedReads(s, delim, pos, f, t);
    } else {
      PlainReads(s, delim, pos, f, t);
    }
  }

  lemma PlainReads(s: string, delim: char, pos: nat, f: string, t: char)
    requires StandsAt(s, f + [t], pos) && Representable(f) && Separates(delim) && (t == delim || t == NEWLINE)
    requires !NeedsQuote(f, delim)
    ensures Next(s, delim, pos) == Got(Some(f), if t == NEWLINE then pos + |f| else pos + |f| + 1, false)
  {
    hide Scan, StandsAt, NeedsQuote;
    CharStands(s, f + [t], pos, |f|);
    assert (f + [t])[0..0 + |f|] == f;
    PartStands(s, f + [t], pos, 0, f);
    assert f[..0] == "";
    ScanPlain(s, delim, pos, f, 0);
    ScanEnd(s, delim, pos + |f|, f);
  }

  /** What ends a plain field. */
  lemma ScanEnd(s: string, delim: char, p: nat, f: string)
    requires p < |s| && f != "" && (s[p] == delim || s[p] == NEWLINE) && Separates(delim)
    ensures Scan(s, delim, p, f, false) == Got(Some(f), if s[p] == NEWLINE then p else p + 1, false)
  {
  }

  lemma QuotedReads(s: string, delim: char, pos: nat, f: string, t: char)
    requires Representable(f) && Separates(delim) && (t == delim || t == NEWLINE)
    requires StandsAt(s, [QUOTE] + Doubled(f) + [QUOTE] + [t], pos)
    ensures Next(s, delim, pos) == Got(Some(f), pos + |Doubled(f)| + 3, false)
  {
    hide Scan, Doubled, StandsAt;
    var d := Doubled(f);
    var e := [QUOTE] + d + [QUOTE] + [t];
    StandsLength(s, e, pos);
    CharStands(s, e, pos, 0);
    CharStands(s, e, pos, |d| + 1);
    CharStands(s, e, pos, |d| + 2);
    assert e[1..1 + |d|] == d;
    PartStands(s, e, pos, 1, d);
    assert f[..0] == "";
    DoubledNothing();
    ScanDoubled(s, delim, pos + 1, f, 0);
    ScanQuotes(s, delim, pos, pos + 1 + |d|, f);
  }

  lemma DoubledNothing()
    ensures Doubled("") == ""
  {
  }

  /** The opening and the closing quote. */
  lemma ScanQuotes(s: string, delim: char, open: nat, close: nat, f: string)
    requires f != "" && Separates(delim) && open < close && close + 1 < |s| && s[open] == QUOTE && s[close] == QUOTE
    requires s[close + 1] == delim || s[close + 1] == NEWLINE
    ensures Scan(s, delim, open, "", false) == Scan(s, delim, open + 1, "", true)
    ensures Scan(s, delim, close, f, true) == Got(Some(f), close + 2, false)
  {
  }

  // ------------------------------------------------------------------ a stream of records

  /** Between two records: at the start of the next one, or at the line feed before it. */
  ghost predicate AtBoundary(s: string, pos: nat, start: nat) {
    pos <= start <= |s| && (pos == start || (pos + 1 == start && s[pos] == NEWLINE))
  }

  lemma BoundaryField(s: string, delim: char, pos: nat, start: nat)
    requires AtBoundary(s, pos, start) && Separates(delim)
    ensures NextField(s, delim, pos) == NextField(s, delim, start)
  {
  }

  lemma PairReads(s: string, delim: char, pos: nat, start: nat, key: string, value: string)
    requires AtBoundary(s, pos, start) && Separates(delim) && StandsAt(s, Record(key, value, delim), start)
    requires Representable(key) && Representable(value)
    ensures var p := NextPair(s, delim, pos);
            && p.key == Some(key) && p.value == Some(value) && !p.eof && p.pos > pos
            && AtBoundary(s, p.pos, start + |Record(key, value, delim)|)
  {
    hide Field, Next;
    var k, v := Field(key, delim), Field(value, delim);
    var mid := |k| + 1;
    PartStands(s, Record(key, value, delim), start, 0, k + [delim]);
    PartStands(s, Record(key, value, delim), start, mid, v + [NEWLINE]);
    PartStands(s, v + [NEWLINE], start + mid, |v|, [NEWLINE]);
    FieldReads(s, delim, start, key, delim);
    FieldReads(s, delim, start + mid, value, NEWLINE);
    BoundaryField(s, delim, pos, start);
    FieldFirst(s, delim, start);
  }

  lemma FieldFirst(s: string, delim: char, pos: nat)
    requires pos <= |s| && Next(s, delim, pos).field.Some?
    ensures NextField(s, delim, pos) == Next(s, delim, pos)
  {
  }

  lemma EndReads(s: string, delim: char, pos: nat)
    requires AtBoundary(s, pos, |s|) && Separates(delim)
    ensures ReadAll(s, delim, pos) == [] && NextPair(s, delim, pos).eof
  {
    BoundaryField(s, delim, pos, |s|);
  }

  function AsRead(pairs: seq<(string, string)>): seq<(string, Option<string>)> {
    seq(|pairs|, k requires 0 <= k < |pairs| => (pairs[k].0, Some(pairs[k].1)))
  }

  lemma {:induction false} RecordsSplit(pairs: seq<(string, string)>, k: nat, delim: char)
    requires k < |pairs|
    ensures var before, r := Records(pairs[..k], delim), Record(pairs[k].0, pairs[k].1, delim);
            && Records(pairs[..k + 1], delim) == before + r
            && Records(pairs[..k + 1], delim) <= Records(pairs, delim)
    decreases |pairs| - k
  {
    assert pairs[..k + 1][..k] == pairs[..k];
    if k + 1 < |pairs| {
      RecordsSplit(pairs, k + 1, delim);
    } else {
      assert pairs[..k + 1] == pairs;
    }
  }

  lemma {:induction false} RecordsRead(pairs: seq<(string, string)>, k: nat, pos: nat, delim: char)
    requires k <= |pairs| && Separates(delim)
    requires forall l :: 0 <= l < |pairs| ==> Representable(pairs[l].0) && Representable(pairs[l].1)
    requires AtBoundary(Records(pairs, delim), pos, |Records(pairs[..k], delim)|)
    ensures ReadAll(Records(pairs, delim), delim, pos) == AsRead(pairs)[k..]
    decreases |pairs| - k
  {
    hide Record, NextPair, AtBoundary;
    var s := Records(pairs, delim);
    if k == |pairs| {
      assert pairs[..k] == pairs;
      EndReads(s, delim, pos);
    } else {
      RecordsSplit(pairs, k, delim);
      var start, r := |Records(pairs[..k], delim)|, Record(pairs[k].0, pairs[k].1, delim);
      assert s[..start + |r|] == Records(pairs[..k + 1], delim);
      assert s[start..start + |r|] == s[..start + |r|][start..] == r;
      PairReads(s, delim, pos, start, pairs[k].0, pairs[k].1);
      RecordsRead(pairs, k + 1, NextPair(s, delim, pos).pos, delim);
      assert AsRead(pairs)[k..] == [AsRead(pairs)[k]] + AsRead(pairs)[k + 1..];
    }
  }

  /** What is read back is the list that was written, if and only if all its strings can be represented. */
  lemma {:induction false} RoundTrip(pairs: seq<(string, string)>, delim: char)
    requires Separates(delim)
    ensures ReadAll(Records(pairs, delim), delim, 0) == AsRead(pairs)
            <==> forall l :: 0 <= l < |pairs| ==> Representable(pairs[l].0) && Representable(pairs[l].1)
  {
    if forall l :: 0 <= l < |pairs| ==> Representable(pairs[l].0) && Representable(pairs[l].1) {
      assert pairs[..0] == [];
      RecordsRead(pairs, 0, 0, delim);
      assert AsRead(pairs)[0..] == AsRead(pairs);
    }
    if ReadAll(Records(pairs, delim), delim, 0) == AsRead(pairs) {
      forall l | 0 <= l < |pairs| ensures Representable(pairs[l].0) && Representable(pairs[l].1) {
        ReadRepresentable(Records(pairs, delim), delim, 0, l);
        assert AsRead(pairs)[l] == (pairs[l].0, Some(pairs[l].1));
      }
    }
  }
}
