/**
 Safe names (src/workspace.c): the directories of a queue are named after schedules and actions
 by percent-encoding into a buffer of NAME_MAX bytes.
 */
module Names {
  type Byte = n: int | 0 <= n < 256

  const NAME_MAX := 255
  const PERCENT := 37
  const DASH := 45
  const DOT := 46
  const COMMA := 44
  const UNDERSCORE := 95

  predicate IsAlnum(c: Byte) { 48 <= c <= 57 || 65 <= c <= 90 || 97 <= c <= 122 }

  /** A byte that stands for itself at position i. */
  predicate Plain(c: Byte, i: nat) { IsAlnum(c) || (i > 0 && (c == DASH || c == DOT || c == COMMA || c == UNDERSCORE)) }

  function Hex(d: nat): Byte
    requires d < 16
  {
    if d < 10 then 48 + d else 55 + d
  }

  function Chunk(c: Byte, i: nat): seq<Byte> {
    if Plain(c, i) then [c] else [PERCENT, Hex(c / 16), Hex(c % 16)]
  }

  /** The encoding of the first n bytes, however long. */
  function Encode(name: seq<Byte>, n: nat): seq<Byte>
    requires n <= |name|
  {
    if n == 0 then [] else Encode(name, n - 1) + Chunk(name[n - 1], n - 1)
  }

  /** How many bytes are encoded, of those from i on, before the buffer is full. */
  function Kept(name: seq<Byte>, i: nat): (k: nat)
    requires i <= |name|
    ensures i <= k <= |name|
    decreases |name| - i
  {
    if i == |name| || |Encode(name, i)| >= NAME_MAX - 1 then i
    else if Plain(name[i], i) || |Encode(name, i)| < NAME_MAX - 4 then Kept(name, i + 1)
    else i
  }

  function Safe(name: seq<Byte>): seq<Byte> { Encode(name, Kept(name, 0)) }

  /** How the loop of mksafe goes on at position i. */
  lemma KeptStep(name: seq<Byte>, i: nat)
    requires i <= |name|
    ensures i == |name| || |Encode(name, i)| >= NAME_MAX - 1 ==> Kept(name, i) == i
    ensures i < |name| && |Encode(name, i)| < NAME_MAX - 1 ==>
              Encode(name, i + 1) == Encode(name, i) + Chunk(name[i], i)
              && Kept(name, i) == if Plain(name[i], i) || |Encode(name, i)| < NAME_MAX - 4 then Kept(name, i + 1) else i
  {
  }

  /** The buffer after an escape. */
  method PutEscape(buf: array<Byte>, j: nat, c: Byte)
    requires j + 3 <= buf.Length
    modifies buf
    ensures buf[..j + 3] == old(buf[..j]) + [PERCENT, Hex(c / 16), Hex(c % 16)]
  {
    buf[j] := PERCENT;
    buf[j + 1] := Hex(c / 16);
    buf[j + 2] := Hex(c % 16);
  }

  /** mksafe fills the buffer, with room for the terminating zero. */
  method MkSafe(name: seq<Byte>) returns (buf: array<Byte>, len: nat)
    ensures buf.Length == NAME_MAX && len < NAME_MAX && buf[len] == 0
    ensures buf[..len] == Safe(name)
  {
    hide Kept, Encode, Plain;
    buf := new Byte[NAME_MAX](_ => 0);
    var i, j := 0, 0;
    EncodeNothing(name);
    while i < |name| && j < NAME_MAX - 1
      invariant i <= |name| && j <= NAME_MAX - 1
      invariant buf[..j] == Encode(name, i) && Kept(name, 0) == Kept(name, i)
    {
      KeptStep(name, i);
      if Plain(name[i], i) {
        buf[j] := name[i];
        j := j + 1;
      } else {
        if j >= NAME_MAX - 4 { break; }
        PutEscape(buf, j, name[i]);
        j := j + 3;
      }
      i := i + 1;
    }
    KeptStep(name, i);
    len := j;
    buf[j] := 0;
  }

  lemma EncodeNothing(name: seq<Byte>)
    ensures Encode(name, 0) == []
  {
  }

  // ------------------------------------------------------------------ decoding

  function HexValue(c: Byte): nat {
    if 48 <= c <= 57 then c - 48 else if 65 <= c <= 70 then c - 55 else 0
  }

  function Decode(e: seq<Byte>): seq<Byte> {
    if e == [] then []
    else if e[0] == PERCENT && |e| >= 3 then [16 * HexValue(e[1]) + HexValue(e[2])] + Decode(e[3..])
    else [e[0]] + Decode(e[1..])
  }

  lemma DecodeChunk(c: Byte, i: nat, rest: seq<Byte>)
    ensures Decode(Chunk(c, i) + rest) == [c] + Decode(rest)
  {
    var e := Chunk(c, i) + rest;
    assert e[|Chunk(c, i)|..] == rest;
  }

  lemma {:induction false} DecodeEncoded(name: seq<Byte>, n: nat, rest: seq<Byte>)
    requires n <= |name|
    ensures Decode(Encode(name, n) + rest) == name[..n] + Decode(rest)
  {
    hide Chunk, Decode;
    if n == 0 {
      assert Encode(name, 0) + rest == rest;
      assert name[..0] + Decode(rest) == Decode(rest);
    } else {
      var c := name[n - 1];
      var chunk := Chunk(c, n - 1);
      DecodeEncoded(name, n - 1, chunk + rest);
      Assoc(Encode(name, n - 1), chunk, rest);
      DecodeChunk(c, n - 1, rest);
      assert name[..n] == name[..n - 1] + [c];
      Assoc(name[..n - 1], [c], Decode(rest));
    }
  }

  lemma {:induction false} EncodeGrows(name: seq<Byte>, m: nat, n: nat)
    requires m <= n <= |name|
    ensures |Encode(name, m)| + (n - m) <= |Encode(name, n)|
    decreases n - m
  {
    if m < n { EncodeGrows(name, m, n - 1); }
  }

  /**
   The whole encoding fits the buffer: the last three bytes of an escape must end one byte earlier
   than a plain byte.
   */
  predicate Fits(name: seq<Byte>) {
    var n := |name|;
    |Encode(name, n)| < NAME_MAX - 1 || (|Encode(name, n)| == NAME_MAX - 1 && Plain(name[n - 1], n - 1))
  }

  lemma {:induction false} KeptAll(name: seq<Byte>, i: nat)
    requires i <= |name| && Fits(name)
    ensures Kept(name, i) == |name|
    decreases |name| - i
  {
    if i < |name| {
      EncodeGrows(name, i, |name|);
      EncodeGrows(name, i + 1, |name|);
      KeptAll(name, i + 1);
    }
  }

  lemma {:induction false} KeptBound(name: seq<Byte>, i: nat)
    requires i <= |name| && |Encode(name, i)| <= NAME_MAX - 1
    requires i == |name| ==> |Encode(name, i)| < NAME_MAX - 1 || (i > 0 && Plain(name[i - 1], i - 1))
    ensures Kept(name, i) == |name| ==> Fits(name)
    decreases |name| - i
  {
    if i < |name| && |Encode(name, i)| < NAME_MAX - 1 {
      if Plain(name[i], i) || |Encode(name, i)| < NAME_MAX - 4 { KeptBound(name, i + 1); }
    }
  }

  /** No byte is dropped if and only if the encoding fits; then decoding gives the name back. */
  lemma LeftInverse(name: seq<Byte>)
    ensures Decode(Safe(name)) == name[..Kept(name, 0)]
    ensures Decode(Safe(name)) == name <==> Fits(name)
  {
    DecodeEncoded(name, Kept(name, 0), []);
    assert Encode(name, Kept(name, 0)) + [] == Safe(name);
    assert name[..|name|] == name;
    KeptBound(name, 0);
    if Fits(name) { KeptAll(name, 0); }
  }

  /** Letters and digits, and behind the first byte also dash, dot, comma and underscore. */
  predicate Verbatim(c: Byte, i: nat) {
    || 48 <= c <= 57 || 65 <= c <= 90 || 97 <= c <= 122
    || (i > 0 && (c == 45 || c == 46 || c == 44 || c == 95))
  }

  lemma {:induction false} EncodedBytes(name: seq<Byte>, n: nat)
    requires n <= |name|
    ensures forall k :: 0 <= k < |Encode(name, n)| ==> Verbatim(Encode(name, n)[k], 1) || Encode(name, n)[k] == 37
  {
    if n > 0 { EncodedBytes(name, n - 1); }
  }

  /** A safe name holds letters, digits, dash, dot, comma, underscore and percent only: no slash, in particular. */
  lemma {:induction false} SafeBytes(name: seq<Byte>)
    ensures forall k :: 0 <= k < |Safe(name)| ==> Verbatim(Safe(name)[k], 1) || Safe(name)[k] == 37
    ensures 47 !in Safe(name) && 0 !in Safe(name)
  {
    EncodedBytes(name, Kept(name, 0));
  }

  lemma {:induction false} VerbatimEncoded(name: seq<Byte>, n: nat)
    requires n <= |name| && forall k :: 0 <= k < n ==> Verbatim(name[k], k)
    ensures Encode(name, n) == name[..n]
  {
    if n > 0 { VerbatimEncoded(name, n - 1); }
  }

  lemma {:induction false} VerbatimKept(name: seq<Byte>, i: nat)
    requires i <= |name| && i <= 254 && forall k :: 0 <= k < |name| ==> Verbatim(name[k], k)
    ensures Kept(name, i) == if |name| < 254 then |name| else 254
    decreases |name| - i
  {
    VerbatimEncoded(name, i);
    if i < |name| && i < 254 { VerbatimKept(name, i + 1); }
  }

  /** A name of such bytes alone is its own safe name, up to 254 bytes. */
  lemma {:induction false} SafeVerbatim(name: seq<Byte>)
    requires forall k :: 0 <= k < |name| ==> Verbatim(name[k], k)
    ensures Safe(name) == if |name| < 254 then name else name[..254]
  {
    VerbatimKept(name, 0);
    VerbatimEncoded(name, if |name| < 254 then |name| else 254);
    assert name[..|name|] == name;
  }

  /** Any other byte is a percent sign and two hexadecimal digits, the higher one first. */
  lemma Escapes(c: Byte, i: nat)
    requires !Verbatim(c, i)
    ensures var digits: seq<Byte> := [48, 49, 50, 51, 52, 53, 54, 55, 56, 57, 65, 66, 67, 68, 69, 70];
            Chunk(c, i) == [37, digits[c / 16], digits[c % 16]]
  {
  }

  /** A nonempty name becomes a nonempty name that is neither private nor hidden. */
  lemma FirstByte(name: seq<Byte>)
    requires name != []
    ensures Safe(name) != [] && Safe(name)[0] != UNDERSCORE && Safe(name)[0] != DOT
  {
    assert Kept(name, 0) == Kept(name, 1) >= 1;
    FirstChunk(name, Kept(name, 0));
  }

  lemma {:induction false} FirstChunk(name: seq<Byte>, n: nat)
    requires 1 <= n <= |name|
    ensures Chunk(name[0], 0) <= Encode(name, n)
  {
    if n > 1 { FirstChunk(name, n - 1); } else { assert Encode(name, 0) == []; }
  }

  lemma {:induction false} EncodePrefix(a: seq<Byte>, b: seq<Byte>, n: nat)
    requires n <= |a| && n <= |b| && a[..n] == b[..n]
    ensures Encode(a, n) == Encode(b, n)
  {
    if n > 0 {
      assert a[n - 1] == a[..n][n - 1] == b[..n][n - 1] == b[n - 1];
      assert a[..n - 1] == a[..n][..n - 1] == b[..n][..n - 1] == b[..n - 1];
      EncodePrefix(a, b, n - 1);
    }
  }

  /** The part of a name that its safe form stands for. */
  function Stem(name: seq<Byte>): seq<Byte> { name[..Kept(name, 0)] }

  lemma SafeOfStem(name: seq<Byte>)
    ensures Safe(name) == Encode(Stem(name), |Stem(name)|) && Decode(Safe(name)) == Stem(name)
    ensures name != [] ==> Stem(name) != []
  {
    LeftInverse(name);
    EncodePrefix(name, Stem(name), Kept(name, 0));
    if name != [] { assert Kept(name, 0) == Kept(name, 1) >= 1; }
  }

  /** Two names share a directory exactly when the parts that fit the buffer are the same. */
  lemma SafeExactly(a: seq<Byte>, b: seq<Byte>)
    ensures Safe(a) == Safe(b) <==> a[..Kept(a, 0)] == b[..Kept(b, 0)]
  {
    SafeOfStem(a);
    SafeOfStem(b);
  }

  /** Names that fit are told apart. */
  lemma Injective(a: seq<Byte>, b: seq<Byte>)
    requires Fits(a) && Fits(b) && Safe(a) == Safe(b)
    ensures a == b
  {
    LeftInverse(a);
    LeftInverse(b);
  }

  lemma {:induction false} AlnumEncode(name: seq<Byte>, n: nat)
    requires n <= |name| && forall k :: 0 <= k < |name| ==> IsAlnum(name[k])
    ensures Encode(name, n) == name[..n]
  {
    if n > 0 { AlnumEncode(name, n - 1); }
  }

  /** These two names are too long and differ in their last letter only. */
  lemma LongNamesCollide(a: seq<Byte>, b: seq<Byte>)
    requires a == seq(255, k => 97) && b == seq(255, k => if k < 254 then 97 else 98)
    ensures a != b && Safe(a) == Safe(b)
  {
    assert a[254] != b[254];
    LongKept(a, 0);
    LongKept(b, 0);
    assert a[..254] == b[..254];
    SafeExactly(a, b);
  }

  lemma {:induction false} LongKept(name: seq<Byte>, i: nat)
    requires |name| == 255 && i <= 254 && forall k :: 0 <= k < |name| ==> IsAlnum(name[k])
    ensures Kept(name, i) == 254
    decreases 254 - i
  {
    AlnumEncode(name, i);
    if i < 254 { LongKept(name, i + 1); }
  }

  // ------------------------------------------------------------------ directories

  /** A directory below the queue, as its path. */
  datatype Directory = OfSchedule(s: nat) | OfAction(s: nat, a: nat) | IncomingOf(s: nat)

  /** "_incoming" */
  const INCOMING: seq<Byte> := [95, 105, 110, 99, 111, 109, 105, 110, 103]

  /** The names of a configuration: a schedule and its actions. */
  datatype Entry = Entry(schedule: seq<Byte>, actions: seq<seq<Byte>>)

  predicate Distinct(names: seq<seq<Byte>>) { forall k, l :: 0 <= k < l < |names| ==> names[k] != names[l] }

  function ScheduleNames(cfg: seq<Entry>): seq<seq<Byte>> { seq(|cfg|, k requires 0 <= k < |cfg| => cfg[k].schedule) }

  predicate NamesOk(names: seq<seq<Byte>>) { Distinct(names) && forall n :: n in names ==> n != [] && Fits(n) }

  predicate ConfigOk(cfg: seq<Entry>) {
    NamesOk(ScheduleNames(cfg)) && forall k :: 0 <= k < |cfg| ==> NamesOk(cfg[k].actions)
  }

  predicate Exists(cfg: seq<Entry>, d: Directory) { d.s < |cfg| && (d.OfAction? ==> d.a < |cfg[d.s].actions|) }

  function PathOf(cfg: seq<Entry>, d: Directory): seq<seq<Byte>>
    requires Exists(cfg, d)
  {
    match d
    case OfSchedule(s) => [Safe(cfg[s].schedule)]
    case OfAction(s, a) => [Safe(cfg[s].schedule), Safe(cfg[s].actions[a])]
    case IncomingOf(s) => [Safe(cfg[s].schedule), INCOMING]
  }

  lemma NameIndex(names: seq<seq<Byte>>, k: nat, l: nat)
    requires NamesOk(names) && k < |names| && l < |names| && Safe(names[k]) == Safe(names[l])
    ensures k == l
  {
    assert names[k] in names && names[l] in names;
    Injective(names[k], names[l]);
  }

  /** All directories of a queue are different. */
  lemma DirectoriesDistinct(cfg: seq<Entry>, d: Directory, e: Directory)
    requires ConfigOk(cfg) && Exists(cfg, d) && Exists(cfg, e) && PathOf(cfg, d) == PathOf(cfg, e)
    ensures d == e
  {
    assert Safe(cfg[d.s].schedule) == PathOf(cfg, d)[0] == PathOf(cfg, e)[0] == Safe(cfg[e.s].schedule);
    NameIndex(ScheduleNames(cfg), d.s, e.s);
    if d.OfAction? {
      assert cfg[d.s].actions[d.a] in cfg[d.s].actions;
      FirstByte(cfg[d.s].actions[d.a]);
      assert PathOf(cfg, e)[1][0] != UNDERSCORE;
      NameIndex(cfg[d.s].actions, d.a, e.a);
    }
    if e.OfAction? {
      assert cfg[e.s].actions[e.a] in cfg[e.s].actions;
      FirstByte(cfg[e.s].actions[e.a]);
      assert PathOf(cfg, d)[1][0] != UNDERSCORE;
    }
  }

  /** The list that lmap_add_schedule and lmap_schedule_add_action build: a name that is there is refused. */
  method AddName(names: seq<seq<Byte>>, name: seq<Byte>) returns (ok: bool, r: seq<seq<Byte>>)
    requires Distinct(names)
    ensures ok <==> name !in names
    ensures r == (if ok then names + [name] else names) && Distinct(r)
  {
    for k := 0 to |names|
      invariant name !in names[..k]
    {
      if names[k] == name { return false, names; }
      assert names[..k + 1] == names[..k] + [names[k]];
    }
    assert names[..|names|] == names;
    ok, r := true, names + [name];
  }

  // ------------------------------------------------------------------ file names

  /** The part of a result file name that follows the time. */
  function Joined(schedule: seq<Byte>, action: seq<Byte>): seq<Byte> { schedule + [DASH] + action }

  /** When the first part is the shorter one, the joined names agree exactly if a dash is counted to either part. */
  lemma JoinedExactly(s1: seq<Byte>, a1: seq<Byte>, s2: seq<Byte>, a2: seq<Byte>)
    requires |s1| < |s2|
    ensures Joined(s1, a1) == Joined(s2, a2) <==> exists x :: s2 == Joined(s1, x) && a1 == Joined(x, a2)
  {
    if Joined(s1, a1) == Joined(s2, a2) {
      var j, m, n := Joined(s1, a1), |s1|, |s2|;
      assert s1 == j[..m] && j[m] == DASH && a1 == j[m + 1..];
      assert s2 == j[..n] && j[n] == DASH && a2 == j[n + 1..];
      var x := s2[m + 1..];
      assert s2 == Joined(s1, x) && a1 == Joined(x, a2);
    }
    forall x | s2 == Joined(s1, x) && a1 == Joined(x, a2) ensures Joined(s1, a1) == Joined(s2, a2) {
      JoinAssoc(s1, x, a2);
    }
  }

  /** The encoding of bytes that do not begin the name. */
  function EncodeMid(u: seq<Byte>): seq<Byte> { if u == [] then [] else EncodeMid(u[..|u| - 1]) + Chunk(u[|u| - 1], 1) }

  predicate Special(c: Byte) { c == DASH || c == DOT || c == COMMA || c == UNDERSCORE }

  lemma Assoc(a: seq<Byte>, b: seq<Byte>, c: seq<Byte>)
    ensures a + (b + c) == a + b + c
  {
  }

  /** Both sides end their first part at the same place. */
  lemma SplitAt(a: seq<Byte>, b: seq<Byte>, c: seq<Byte>, d: seq<Byte>)
    requires |a| == |c| && a + b == c + d
    ensures a == c && b == d
  {
    assert a == (a + b)[..|a|] && b == (a + b)[|a|..];
    assert c == (c + d)[..|c|] && d == (c + d)[|c|..];
  }

  lemma EncodeLast(name: seq<Byte>, c: Byte)
    ensures Encode(name + [c], |name| + 1) == Encode(name, |name|) + Chunk(c, |name|)
  {
    hide Chunk;
    assert (name + [c])[..|name|] == name == name[..|name|];
    EncodePrefix(name + [c], name, |name|);
  }

  lemma MidLast(u: seq<Byte>, c: Byte)
    ensures EncodeMid(u + [c]) == EncodeMid(u) + Chunk(c, 1)
  {
    hide Chunk;
    assert (u + [c])[..|u|] == u;
  }

  /** Behind the first byte the position does not matter. */
  lemma ChunkMid(c: Byte, i: nat)
    requires i > 0
    ensures Chunk(c, i) == Chunk(c, 1)
  {
  }

  lemma {:induction false} EncodeJoin(s: seq<Byte>, u: seq<Byte>)
    requires s != []
    ensures Encode(s + u, |s + u|) == Encode(s, |s|) + EncodeMid(u)
    decreases |u|
  {
    hide Encode, EncodeMid, Chunk;
    if u == [] {
      assert s + u == s;
      MidNothing();
    } else {
      var v, c := u[..|u| - 1], u[|u| - 1];
      assert u == v + [c];
      Assoc(s, v, [c]);
      EncodeJoin(s, v);
      EncodeLast(s + v, c);
      MidLast(v, c);
      ChunkMid(c, |s + v|);
      Assoc(Encode(s, |s|), EncodeMid(v), Chunk(c, 1));
    }
  }

  lemma {:induction false} MidJoin(u: seq<Byte>, v: seq<Byte>)
    ensures EncodeMid(u + v) == EncodeMid(u) + EncodeMid(v)
    decreases |v|
  {
    hide EncodeMid, Chunk;
    if v == [] {
      assert u + v == u;
      MidNothing();
    } else {
      var w, c := v[..|v| - 1], v[|v| - 1];
      assert v == w + [c];
      Assoc(u, w, [c]);
      MidJoin(u, w);
      MidLast(u + w, c);
      MidLast(w, c);
      Assoc(EncodeMid(u), EncodeMid(w), Chunk(c, 1));
    }
  }

  lemma MidOne(c: Byte)
    ensures EncodeMid([c]) == Chunk(c, 1)
  {
    assert EncodeMid([c][..0]) == [];
  }

  lemma {:induction false} DecodeMid(u: seq<Byte>, rest: seq<Byte>)
    ensures Decode(EncodeMid(u) + rest) == u + Decode(rest)
    decreases |u|
  {
    hide Decode, Chunk, EncodeMid;
    if u == [] {
      MidNothing();
      assert EncodeMid(u) + rest == rest;
      assert u + Decode(rest) == Decode(rest);
    } else {
      var v, c := u[..|u| - 1], u[|u| - 1];
      assert u == v + [c];
      DecodeMid(v, Chunk(c, 1) + rest);
      MidLast(v, c);
      Assoc(EncodeMid(v), Chunk(c, 1), rest);
      DecodeChunk(c, 1, rest);
      Assoc(v, [c], Decode(rest));
    }
  }

  /** Only a special first byte is encoded differently when it comes later. */
  lemma {:induction false} EncodeFirst(u: seq<Byte>)
    requires u != []
    ensures Encode(u, |u|) != [] && EncodeMid(u) != []
    ensures if Special(u[0]) then Encode(u, |u|)[0] == PERCENT && EncodeMid(u)[0] == u[0]
            else Encode(u, |u|) == EncodeMid(u)
  {
    var v := u[1..];
    assert u == [u[0]] + v;
    EncodeJoin([u[0]], v);
    MidJoin([u[0]], v);
    MidOne(u[0]);
    assert Encode([u[0]], 0) == [];
  }

  /** y lies between the two dashes: it belongs to the longer schedule name or to the longer action name. */
  ghost predicate ShiftedBy(s1: seq<Byte>, a1: seq<Byte>, s2: seq<Byte>, a2: seq<Byte>, y: seq<Byte>) {
    s2 == Joined(s1, y) && a1 == Joined(y, a2) && y != [] && !Special(y[0]) && a2 != [] && !Special(a2[0])
  }

  ghost predicate Shifted(s1: seq<Byte>, a1: seq<Byte>, s2: seq<Byte>, a2: seq<Byte>) {
    exists y :: ShiftedBy(s1, a1, s2, a2, y)
  }

  lemma EncodeDash(s: seq<Byte>, y: seq<Byte>)
    requires s != []
    ensures Encode(Joined(s, y), |Joined(s, y)|) == Joined(Encode(s, |s|), EncodeMid(y))
  {
    hide Encode, EncodeMid;
    MidJoin([DASH], y);
    MidOne(DASH);
    EncodeJoin(s, [DASH] + y);
    Assoc(s, [DASH], y);
    Assoc(Encode(s, |s|), [DASH], EncodeMid(y));
  }

  lemma DecodeDash(rest: seq<Byte>)
    ensures Decode([DASH] + rest) == [DASH] + Decode(rest)
  {
    assert ([DASH] + rest)[1..] == rest;
  }

  lemma JoinAssoc(a: seq<Byte>, b: seq<Byte>, c: seq<Byte>)
    ensures Joined(a, Joined(b, c)) == Joined(Joined(a, b), c)
  {
  }

  /** The first parts being the same, so are the others. */
  lemma JoinSplit(a: seq<Byte>, b: seq<Byte>, c: seq<Byte>)
    requires Joined(a, b) == Joined(a, c)
    ensures b == c
  {
    SplitAt(a + [DASH], b, a + [DASH], c);
  }

  lemma ShiftedJoins(s1: seq<Byte>, a1: seq<Byte>, s2: seq<Byte>, a2: seq<Byte>, y: seq<Byte>)
    requires s1 != [] && ShiftedBy(s1, a1, s2, a2, y)
    ensures Joined(Encode(s1, |s1|), Encode(a1, |a1|)) == Joined(Encode(s2, |s2|), Encode(a2, |a2|))
    ensures |Encode(s1, |s1|)| < |Encode(s2, |s2|)|
  {
    hide Encode, EncodeMid;
    EncodeDash(s1, y);
    EncodeDash(y, a2);
    EncodeFirst(y);
    EncodeFirst(a2);
    JoinAssoc(Encode(s1, |s1|), EncodeMid(y), EncodeMid(a2));
  }

  /** What follows the dash in an encoding is itself one. */
  lemma SchedulePart(s1: seq<Byte>, s2: seq<Byte>, x: seq<Byte>) returns (y: seq<Byte>)
    requires s1 != [] && Encode(s2, |s2|) == Joined(Encode(s1, |s1|), x)
    ensures s2 == Joined(s1, y) && x == EncodeMid(y)
  {
    hide Encode, EncodeMid, Decode, Joined;
    y := Decode(x);
    DecodeWhole(s2);
    DecodeEncodedJoin(s1, x);
    EncodeDash(s1, y);
    JoinSplit(Encode(s1, |s1|), x, EncodeMid(y));
  }

  lemma DecodeEncodedJoin(s: seq<Byte>, rest: seq<Byte>)
    ensures Decode(Joined(Encode(s, |s|), rest)) == Joined(s, Decode(rest))
  {
    hide Encode, Decode;
    var e := Encode(s, |s|);
    DecodeEncoded(s, |s|, [DASH] + rest);
    assert s[..|s|] == s;
    DecodeDash(rest);
    Assoc(e, [DASH], rest);
    Assoc(s, [DASH], Decode(rest));
  }

  lemma DecodeMidJoin(y: seq<Byte>, rest: seq<Byte>)
    ensures Decode(Joined(EncodeMid(y), rest)) == Joined(y, Decode(rest))
  {
    hide EncodeMid, Decode;
    DecodeMid(y, [DASH] + rest);
    DecodeDash(rest);
    Assoc(EncodeMid(y), [DASH], rest);
    Assoc(y, [DASH], Decode(rest));
  }

  lemma ActionPart(a1: seq<Byte>, y: seq<Byte>, a2: seq<Byte>)
    requires Encode(a1, |a1|) == Joined(EncodeMid(y), Encode(a2, |a2|))
    ensures a1 == Joined(y, a2)
  {
    hide Encode, EncodeMid, Decode, Joined;
    DecodeWhole(a1);
    DecodeWhole(a2);
    DecodeMidJoin(y, Encode(a2, |a2|));
  }

  lemma MiddleShifted(s1: seq<Byte>, a1: seq<Byte>, s2: seq<Byte>, a2: seq<Byte>, y: seq<Byte>)
    requires a2 != [] && s2 == Joined(s1, y) && Encode(a1, |a1|) == Joined(EncodeMid(y), Encode(a2, |a2|))
    ensures ShiftedBy(s1, a1, s2, a2, y)
  {
    hide Encode, EncodeMid, Joined, Special;
    ActionPart(a1, y, a2);
    MiddleFits(a1, y, a2);
  }

  lemma PartsShifted(s1: seq<Byte>, a1: seq<Byte>, s2: seq<Byte>, a2: seq<Byte>, x: seq<Byte>)
    requires s1 != [] && a2 != []
    requires Encode(s2, |s2|) == Joined(Encode(s1, |s1|), x) && Encode(a1, |a1|) == Joined(x, Encode(a2, |a2|))
    ensures Shifted(s1, a1, s2, a2)
  {
    hide Encode, EncodeMid, Joined, ShiftedBy;
    var y := SchedulePart(s1, s2, x);
    MiddleShifted(s1, a1, s2, a2, y);
  }

  lemma JoinsShifted(s1: seq<Byte>, a1: seq<Byte>, s2: seq<Byte>, a2: seq<Byte>)
    requires s1 != [] && a1 != [] && s2 != [] && a2 != []
    requires |Encode(s1, |s1|)| < |Encode(s2, |s2|)|
    requires Joined(Encode(s1, |s1|), Encode(a1, |a1|)) == Joined(Encode(s2, |s2|), Encode(a2, |a2|))
    ensures Shifted(s1, a1, s2, a2)
  {
    hide Encode, Decode, Joined, ShiftedBy;
    var e1, f1, e2, f2 := Encode(s1, |s1|), Encode(a1, |a1|), Encode(s2, |s2|), Encode(a2, |a2|);
    JoinedExactly(e1, f1, e2, f2);
    var x :| e2 == Joined(e1, x) && f1 == Joined(x, f2);
    PartsShifted(s1, a1, s2, a2, x);
  }

  lemma DecodeWhole(name: seq<Byte>)
    ensures Decode(Encode(name, |name|)) == name
  {
    DecodeEncoded(name, |name|, []);
    assert Encode(name, |name|) + [] == Encode(name, |name|);
    assert name[..|name|] == name;
  }

  /** No encoding begins with a dash. */
  lemma MiddleNotEmpty(a1: seq<Byte>, y: seq<Byte>, a2: seq<Byte>, f2: seq<Byte>)
    requires a1 == Joined(y, a2) && Encode(a1, |a1|) == Joined(EncodeMid(y), f2)
    ensures y != []
  {
    hide Encode, EncodeMid;
    MidNothing();
    JoinFirst(y, a2);
    JoinFirst(EncodeMid(y), f2);
    EncodeFirst(a1);
  }

  lemma MiddleFits(a1: seq<Byte>, y: seq<Byte>, a2: seq<Byte>)
    requires a1 == Joined(y, a2) && a2 != []
    requires Encode(a1, |a1|) == Joined(EncodeMid(y), Encode(a2, |a2|))
    ensures y != [] && !Special(y[0]) && !Special(a2[0])
  {
    hide Encode, EncodeMid, Joined;
    MiddleNotEmpty(a1, y, a2, Encode(a2, |a2|));
    FirstPlain(a1, y, a2, Encode(a2, |a2|));
    LastPart(y, a2);
  }

  lemma FirstPlain(a1: seq<Byte>, y: seq<Byte>, a2: seq<Byte>, f2: seq<Byte>)
    requires y != [] && a1 == Joined(y, a2) && Encode(a1, |a1|) == Joined(EncodeMid(y), f2)
    ensures !Special(y[0]) && Encode(y, |y|) == EncodeMid(y)
  {
    hide Encode, EncodeMid, Joined;
    JoinFirst(y, a2);
    EncodeFirst(y);
    JoinFirst(EncodeMid(y), f2);
    EncodeFirst(a1);
  }

  lemma JoinFirst(a: seq<Byte>, b: seq<Byte>)
    ensures Joined(a, b) != [] && Joined(a, b)[0] == if a == [] then DASH else a[0]
  {
  }

  lemma LastPart(y: seq<Byte>, a2: seq<Byte>)
    requires y != [] && a2 != [] && Encode(y, |y|) == EncodeMid(y)
    requires Encode(Joined(y, a2), |Joined(y, a2)|) == Joined(EncodeMid(y), Encode(a2, |a2|))
    ensures !Special(a2[0])
  {
    hide Encode, EncodeMid, Joined;
    EncodeDash(y, a2);
    EncodeFirst(a2);
    JoinSplit(EncodeMid(y), Encode(a2, |a2|), EncodeMid(a2));
  }

  lemma MidNothing()
    ensures EncodeMid([]) == []
  {
  }

  /** The names are the same as far as they fit, or they differ only in which of two dashes is the one in the middle. */
  ghost predicate Confused(s1: seq<Byte>, a1: seq<Byte>, s2: seq<Byte>, a2: seq<Byte>) {
    || (Stem(s1) == Stem(s2) && Stem(a1) == Stem(a2))
    || Shifted(Stem(s1), Stem(a1), Stem(s2), Stem(a2))
    || Shifted(Stem(s2), Stem(a2), Stem(s1), Stem(a1))
  }

  /**
   Two pairs of a schedule and an action produce the same file name exactly when their names are
   the same as far as they fit, or when the names differ only in which of two dashes is the one
   between schedule and action.
   */
  lemma {:induction false} FileNamesExactly(s1: seq<Byte>, a1: seq<Byte>, s2: seq<Byte>, a2: seq<Byte>)
    requires s1 != [] && a1 != [] && s2 != [] && a2 != []
    ensures Joined(Safe(s1), Safe(a1)) == Joined(Safe(s2), Safe(a2)) <==> Confused(s1, a1, s2, a2)
  {
    SafeOfStem(s1);
    SafeOfStem(a1);
    SafeOfStem(s2);
    SafeOfStem(a2);
    hide Safe, Stem, Encode, Decode, ShiftedBy;
    var p, q, r, t := Stem(s1), Stem(a1), Stem(s2), Stem(a2);
    if y :| ShiftedBy(p, q, r, t, y) { ShiftedJoins(p, q, r, t, y); }
    if y :| ShiftedBy(r, t, p, q, y) { ShiftedJoins(r, t, p, q, y); }
    if Joined(Safe(s1), Safe(a1)) == Joined(Safe(s2), Safe(a2)) {
      if |Safe(s1)| < |Safe(s2)| {
        JoinsShifted(p, q, r, t);
      } else if |Safe(s2)| < |Safe(s1)| {
        JoinsShifted(r, t, p, q);
      } else {
        var j, m := Joined(Safe(s1), Safe(a1)), |Safe(s1)|;
        assert Safe(s1) == j[..m] == Safe(s2) && Safe(a1) == j[m + 1..] == Safe(a2);
      }
    }
  }

  /** The dash is itself a safe character: two different actions may produce the same file name. */
  lemma {:induction false} FileNamesCollide(s1: seq<Byte>, a1: seq<Byte>, s2: seq<Byte>, a2: seq<Byte>)
    requires s1 == [97, 45, 98] && a1 == [99] && s2 == [97] && a2 == [98, 45, 99]
    ensures (s1, a1) != (s2, a2) && Joined(Safe(s1), Safe(a1)) == Joined(Safe(s2), Safe(a2))
  {
    hide Safe, Stem;
    ShortStem(s1);
    ShortStem(a1);
    ShortStem(s2);
    ShortStem(a2);
    assert ShiftedBy(s2, a2, s1, a1, [98]);
    FileNamesExactly(s1, a1, s2, a2);
  }

  lemma {:induction false} PlainEncode(name: seq<Byte>, n: nat)
    requires n <= |name| && forall k :: 0 <= k < |name| ==> Plain(name[k], k)
    ensures Encode(name, n) == name[..n]
  {
    if n > 0 { PlainEncode(name, n - 1); }
  }

  lemma ShortStem(name: seq<Byte>)
    requires |name| < NAME_MAX - 1 && forall k :: 0 <= k < |name| ==> Plain(name[k], k)
    ensures Stem(name) == name
  {
    PlainEncode(name, |name|);
    assert name[..|name|] == name;
    KeptAll(name, 0);
  }

  function FirstDash(j: seq<Byte>): nat { if j == [] || j[0] == DASH then 0 else 1 + FirstDash(j[1..]) }

  lemma {:induction false} DashAfter(s: seq<Byte>, a: seq<Byte>)
    requires DASH !in s
    ensures FirstDash(Joined(s, a)) == |s|
  {
    if s != [] {
      assert Joined(s, a)[1..] == Joined(s[1..], a);
      DashAfter(s[1..], a);
    }
  }

  /** A first part without a dash is told apart from what follows it. */
  lemma FirstPart(s1: seq<Byte>, a1: seq<Byte>, s2: seq<Byte>, a2: seq<Byte>)
    requires DASH !in s1 && DASH !in s2 && Joined(s1, a1) == Joined(s2, a2)
    ensures s1 == s2 && a1 == a2
  {
    var j := Joined(s1, a1);
    DashAfter(s1, a1);
    DashAfter(s2, a2);
    assert s1 == j[..|s1|] && s2 == j[..|s2|];
    assert a1 == j[|s1| + 1..] && a2 == j[|s2| + 1..];
  }

  /** ".data" and ".meta" */
  const DATA: seq<Byte> := [46, 100, 97, 116, 97]
  const META: seq<Byte> := [46, 109, 101, 116, 97]

  /** The name of a result file; time is the time of the invocation in decimal digits. */
  function FileName(time: seq<Byte>, schedule: seq<Byte>, action: seq<Byte>, suffix: seq<Byte>): seq<Byte> {
    Joined(time, Joined(Safe(schedule), Safe(action))) + suffix
  }

  predicate Digits(time: seq<Byte>) { forall c :: c in time ==> 48 <= c <= 57 }

  /** The parts of a file name: "7-s-a.data" and "7-s-a.meta". */
  lemma FileNameExamples()
    ensures FileName([55], [115], [97], DATA) == [55, 45, 115, 45, 97, 46, 100, 97, 116, 97]
    ensures FileName([55], [115], [97], META) == [55, 45, 115, 45, 97, 46, 109, 101, 116, 97]
  {
    hide Safe;
    SafeVerbatim([115]);
    SafeVerbatim([97]);
  }

  /**
   Two result files have the same name exactly when they are of the same kind and from the same
   second, and their schedules and actions are confused.
   */
  lemma {:induction false} ResultFilesExactly(t1: seq<Byte>, s1: seq<Byte>, a1: seq<Byte>, x1: seq<Byte>,
                                              t2: seq<Byte>, s2: seq<Byte>, a2: seq<Byte>, x2: seq<Byte>)
    requires Digits(t1) && Digits(t2) && x1 in [DATA, META] && x2 in [DATA, META]
    requires s1 != [] && a1 != [] && s2 != [] && a2 != []
    ensures FileName(t1, s1, a1, x1) == FileName(t2, s2, a2, x2) <==> t1 == t2 && x1 == x2 && Confused(s1, a1, s2, a2)
  {
    hide Safe, Confused;
    FileNamesExactly(s1, a1, s2, a2);
    var n1, n2 := FileName(t1, s1, a1, x1), FileName(t2, s2, a2, x2);
    var r1, r2 := Joined(Safe(s1), Safe(a1)), Joined(Safe(s2), Safe(a2));
    if n1 == n2 {
      var k := |n1| - 5;
      assert Joined(t1, r1) == n1[..k] == n2[..k] == Joined(t2, r2) && x1 == n1[k..] == n2[k..] == x2;
      FirstPart(t1, r1, t2, r2);
    }
  }
}
