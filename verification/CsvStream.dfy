/**
 The loops of src/csv.c over a stream, with the growing buffer of csv_next.  The methods are
 proved against the functions of module Csv; that every write stays in the buffer is part of it.
 */
module CsvStream {
  import opened Common
  import opened Csv

  class Stream {
    var data: string
    var pos: nat
    /** The end-of-file indicator. */
    var eof: bool

    ghost predicate Valid()
      reads this
    {
      pos <= |data| && (eof ==> pos == |data|)
    }

    constructor (data: string)
      ensures Valid() && this.data == data && pos == 0 && !eof
    {
      this.data, pos, eof := data, 0, false;
    }

    method Fputc(c: char)
      modifies this`data
      ensures data == old(data) + [c]
    {
      data := data + [c];
    }

    /** None for EOF. */
    method Fgetc() returns (c: Option<char>)
      requires Valid()
      modifies this`pos, this`eof
      ensures Valid()
      ensures if old(pos) == |data| then c == None && eof && pos == old(pos)
              else c == Some(data[old(pos)]) && pos == old(pos) + 1 && !eof
    {
      if pos == |data| {
        eof := true;
        c := None;
      } else {
        c := Some(data[pos]);
        pos, eof := pos + 1, false;
      }
    }

    method Ungetc()
      requires Valid() && pos > 0
      modifies this`pos, this`eof
      ensures Valid() && pos == old(pos) - 1 && !eof
    {
      pos, eof := pos - 1, false;
    }

    // ---------------------------------------------------------------- writing

    method Append(delim: char, field: string)
      modifies this`data
      ensures data == old(data) + Field(field, delim)
    {
      var needQuote := false;
      for i := 0 to |field|
        invariant !needQuote && forall k :: 0 <= k < i ==> field[k] != delim && field[k] != QUOTE && !IsSpace(field[k])
      {
        if field[i] == delim || field[i] == QUOTE || IsSpace(field[i]) {
          needQuote := true;
          break;
        }
      }
      if needQuote {
        Fputc(QUOTE);
        AppendDoubled(field);
        Fputc(QUOTE);
        assert data == old(data) + ([QUOTE] + Doubled(field) + [QUOTE]);
      } else {
        for i := 0 to |field|
          invariant data == old(data) + field[..i]
        {
          Fputc(field[i]);
          assert field[..i + 1] == field[..i] + [field[i]];
        }
        assert field[..|field|] == field;
      }
    }

    method AppendDoubled(field: string)
      modifies this`data
      ensures data == old(data) + Doubled(field)
    {
      for i := 0 to |field|
        invariant data == old(data) + Doubled(field[..i])
      {
        Fputc(field[i]);
        if field[i] == QUOTE { Fputc(field[i]); }
        assert field[..i + 1][..i] == field[..i];
      }
      assert field[..|field|] == field;
    }

    /** csv_append_key_value: nothing is written when either string is absent. */
    method AppendKeyValue(delim: char, key: Option<string>, value: Option<string>)
      modifies this`data
      ensures data == old(data) + if key.Some? && value.Some? then Record(key.value, value.value, delim) else ""
    {
      if key.Some? && value.Some? {
        Append(delim, key.value);
        Fputc(delim);
        Append(delim, value.value);
        Fputc(NEWLINE);
        assert data == old(data) + (Field(key.value, delim) + [delim] + Field(value.value, delim) + [NEWLINE]);
      }
    }

    // ---------------------------------------------------------------- reading

    /** A larger buffer with the same contents. */
    static method Grow(buf: array<char>, size: nat) returns (r: array<char>)
      requires buf.Length <= size
      ensures fresh(r) && r.Length == size && r[..buf.Length] == buf[..]
    {
      r := new char[size](_ => '\0');
      for k := 0 to buf.Length
        invariant r[..k] == buf[..k]
      {
        r[k] := buf[k];
      }
      assert r[..buf.Length] == buf[..buf.Length] == buf[..];
    }

    /** The buffer, or a larger one when it is full. */
    static method Room(buf: array<char>, i: nat, more: nat) returns (r: array<char>)
      requires i <= buf.Length && more > 0
      ensures (r == buf || fresh(r)) && i < r.Length && r[..i] == old(buf[..i])
    {
      r := buf;
      if i >= buf.Length {
        r := Grow(buf, buf.Length + more);
        assert r[..i] == r[..buf.Length][..i];
      }
    }

    static method Put(buf: array<char>, i: nat, c: char)
      requires i < buf.Length
      modifies buf
      ensures buf[..i + 1] == old(buf[..i]) + [c] && buf[..i] == old(buf[..i])
    {
      buf[i] := c;
    }

    /** csv_next. */
    method Next(delim: char) returns (field: Option<string>)
      requires Valid() && Separates(delim)
      modifies this`pos, this`eof
      ensures Valid() && Got(field, pos, eof) == Csv.Next(data, delim, old(pos))
    {
      hide Scan, IsSpace;
      var buf := new char[0];
      var i, quoted := 0, false;
      ghost var start := pos;
      while true
        invariant Valid() && i <= buf.Length && fresh(buf)
        invariant Scan(data, delim, pos, buf[..i], quoted) == Csv.Next(data, delim, start)
        decreases |data| - pos, !eof
      {
        ghost var acc := buf[..i];
        ScanStep(data, delim, pos, acc, quoted);
        var next := Fgetc();
        if next.None? { break; }
        var c := next.value;
        if !quoted && c == delim { break; }
        if c == NEWLINE {
          if i == 0 { return None; }
          Ungetc();
          break;
        }
        if i == 0 && !quoted && IsSpace(c) { continue; }
        if i == 0 && c == QUOTE {
          quoted := true;
          continue;
        }
        buf := Room(buf, i, 64);
        if c == QUOTE && quoted {
          next := Fgetc();
          if next.None? { break; }
          c := next.value;
          if c == delim || c == NEWLINE { break; }
        }
        Put(buf, i, c);
        i := i + 1;
      }
      if i == 0 { return None; }
      buf := Room(buf, i, 2);
      Put(buf, i, '\0');
      field := Some(buf[..i]);
    }

    /** csv_next_key_value: a stream whose end has been met yields nothing more. */
    method NextKeyValue(delim: char) returns (key: Option<string>, value: Option<string>)
      requires Valid() && Separates(delim)
      modifies this`pos, this`eof
      ensures Valid()
      ensures if old(eof) then key == None && value == None && pos == old(pos) && eof
              else Pair(key, value, pos, eof) == NextPair(data, delim, old(pos))
    {
      key, value := None, None;
      if eof { return; }
      key := Next(delim);
      while key.None?
        invariant Valid()
        invariant NextField(data, delim, old(pos)) == if key.Some? || eof then Got(key, pos, eof)
                  else NextField(data, delim, pos)
        decreases |data| - pos, !eof
      {
        if eof { return; }
        key := Next(delim);
      }
      value := Next(delim);
    }
  }
}
