/**
 Calendar events: the bit sets that the add functions of src/data.c accumulate, the match against
 a broken-down time, the rendering of src/json-io.c as an inverse, and timezone offsets.
 */
module Calendar {
  import opened Common
  import opened Decimal
  import opened Bits

  datatype Kind = Months | DaysOfMonth | DaysOfWeek | Hours | MinSecs

  const MONTH_NAMES: seq<string> := ["january", "february", "march", "april", "may", "june", "july", "august",
                                     "september", "october", "november", "december"]

  const DAY_NAMES: seq<string> := ["monday", "tuesday", "wednesday", "thursday", "friday", "saturday", "sunday"]

  /** The wildcard is all ones in the width of the field. */
  function Wild(k: Kind): Word {
    match k
    case Months => 0xFFFF
    case DaysOfMonth => 0xFFFF_FFFF
    case DaysOfWeek => 0xFF
    case Hours => 0xFFFF_FFFF
    case MinSecs => 0xFFFF_FFFF_FFFF_FFFF
  }

  function Width(k: Kind): nat {
    match k case Months => 16 case DaysOfMonth => 32 case DaysOfWeek => 8 case Hours => 32 case MinSecs => 64
  }

  /** The values are those from First to Bound, Bound excluded. */
  function First(k: Kind): nat { if k == DaysOfMonth then 1 else 0 }

  function Bound(k: Kind): nat {
    match k case Months => 12 case DaysOfMonth => 32 case DaysOfWeek => 7 case Hours => 24 case MinSecs => 60
  }

  predicate Named(k: Kind) { k == Months || k == DaysOfWeek }

  function NamesOf(k: Kind): seq<string>
    requires Named(k)
    ensures |NamesOf(k)| == Bound(k)
  {
    if k == Months then MONTH_NAMES else DAY_NAMES
  }

  // ------------------------------------------------------------------ adding

  datatype Parsed = Star | Value(i: nat) | Bad

  function Lookup(names: seq<string>, s: string, i: nat): (r: Option<nat>)
    requires i <= |names|
    ensures r.Some? ==> i <= r.value < |names| && names[r.value] == s
    ensures r.Some? ==> forall l :: i <= l < r.value ==> names[l] != s
    ensures r.None? ==> forall l :: i <= l < |names| ==> names[l] != s
    decreases |names| - i
  {
    if i == |names| then None else if names[i] == s then Some(i) else Lookup(names, s, i + 1)
  }

  function Parse(k: Kind, s: string): (p: Parsed)
    ensures p.Value? ==> First(k) <= p.i < Bound(k)
  {
    if s == "*" then Star
    else if Named(k) then
      var r := Lookup(NamesOf(k), s, 0);
      if r.Some? then Value(r.value) else Bad
    else
      var r := Int32(s);
      if r.Some? && First(k) <= r.value < Bound(k) then Value(r.value) else Bad
  }

  datatype Added = Added(w: Word, ok: bool)

  /** The tables add the wildcard as a value; the numbers assign it. */
  function Add(k: Kind, w: Word, s: string): Added {
    match Parse(k, s)
    case Star => Added(if Named(k) then Or(w, Wild(k)) else Wild(k), true)
    case Value(i) => Added(Or(w, Bit(i)), true)
    case Bad => Added(w, false)
  }

  function AddAll(k: Kind, ss: seq<string>): Word {
    if ss == [] then 0 else Add(k, AddAll(k, ss[..|ss| - 1]), ss[|ss| - 1]).w
  }

  // ------------------------------------------------------------------ the sets they stand for

  ghost predicate Starred(k: Kind, ss: seq<string>) { exists n :: 0 <= n < |ss| && Parse(k, ss[n]) == Star }

  ghost function Chosen(k: Kind, ss: seq<string>): set<nat> {
    set n | 0 <= n < |ss| && Parse(k, ss[n]).Value? :: Parse(k, ss[n]).i
  }

  lemma WildLow(k: Kind)
    ensures Wild(k) == Low(Width(k)) && Bound(k) <= Width(k) <= 64
  {
    LowValues();
  }

  lemma TestWild(k: Kind, j: nat)
    requires j < Width(k)
    ensures Test(Wild(k), j)
  {
    hide And, Low, Bit, Wild;
    WildLow(k);
    BitBelow(j, Width(k));
    BitNonZero(j);
    Basics(Bit(j), Low(Width(k)));
  }

  lemma StarAbsorbs(k: Kind, w: Word)
    requires Sub(w, Wild(k))
    ensures Or(w, Wild(k)) == Wild(k) && Or(Wild(k), w) == Wild(k)
  {
  }

  lemma SubTrans(a: Word, b: Word, c: Word)
    requires Sub(a, b) && Sub(b, c)
    ensures Sub(a, c)
  {
  }

  lemma WithinWild(k: Kind, w: Word)
    requires Sub(w, Low(Bound(k)))
    ensures Sub(w, Wild(k))
  {
    hide *;
    WildLow(k);
    LowMono(Bound(k), Width(k));
    SubTrans(w, Low(Bound(k)), Wild(k));
  }

  lemma ZeroSub(k: Kind)
    ensures Sub(0, Low(Bound(k)))
  {
    hide Low;
    Basics(Low(Bound(k)), 0);
  }

  /** The word of a list of entries: all ones after a wildcard, otherwise exactly the bits of the values. */
  ghost predicate Represents(k: Kind, w: Word, ss: seq<string>) {
    if Starred(k, ss) then w == Wild(k)
    else Sub(w, Low(Bound(k))) && forall j: nat :: Test(w, j) <==> j in Chosen(k, ss)
  }

  lemma {:induction false} AddAllRepresents(k: Kind, ss: seq<string>)
    ensures Represents(k, AddAll(k, ss), ss)
  {
    if ss == [] {
      forall j: nat ensures !Test(0, j) { NothingSet(j); }
      ZeroSub(k);
    } else {
      AddAllRepresents(k, ss[..|ss| - 1]);
      AddRepresents(k, AddAll(k, ss[..|ss| - 1]), ss[..|ss| - 1], ss[|ss| - 1]);
      assert ss[..|ss| - 1] + [ss[|ss| - 1]] == ss;
    }
  }

  lemma AddRepresents(k: Kind, w: Word, ss: seq<string>, s: string)
    requires Represents(k, w, ss)
    ensures Represents(k, Add(k, w, s).w, ss + [s])
  {
    hide And, Or, Sub, Test, Bit, Low, Wild, Int32;
    StarredSnoc(k, ss, s);
    match Parse(k, s) {
      case Star =>
        if Starred(k, ss) { WildSub(k); } else { WithinWild(k, w); }
        StarAbsorbs(k, w);
      case Value(i) =>
        BitWithin(k, i);
        if Starred(k, ss) {
          StarAbsorbs(k, Bit(i));
        } else {
          BelowKept(w, i, Bound(k));
          forall j: nat ensures Test(Or(w, Bit(i)), j) <==> Test(w, j) || i == j { SetBit(w, i, j); }
        }
      case Bad =>
    }
  }

  lemma WildSub(k: Kind)
    ensures Sub(Wild(k), Wild(k))
  {
    SubOr(Wild(k), 0, 0);
  }

  lemma BitWithin(k: Kind, i: nat)
    requires i < Bound(k)
    ensures Sub(Bit(i), Wild(k)) && i < 64
  {
    hide *;
    BoundSmall(k);
    BitBelow(i, Bound(k));
    WithinWild(k, Bit(i));
  }

  lemma BoundSmall(k: Kind)
    ensures Bound(k) <= 60
  {
  }

  lemma StarredSnoc(k: Kind, ss: seq<string>, s: string)
    ensures Starred(k, ss + [s]) <==> Starred(k, ss) || Parse(k, s) == Star
    ensures Chosen(k, ss + [s]) == Chosen(k, ss) + (if Parse(k, s).Value? then {Parse(k, s).i} else {})
  {
    hide Parse;
    var t := ss + [s];
    assert t[|ss|] == s && forall n :: 0 <= n < |ss| ==> t[n] == ss[n];
  }

  // ------------------------------------------------------------------ matching

  /** The lists of entries of the six leaves of a calendar event. */
  datatype Lists = Lists(months: seq<string>, daysOfMonth: seq<string>, daysOfWeek: seq<string>,
                         hours: seq<string>, minutes: seq<string>, seconds: seq<string>)

  datatype Fields = Fields(months: Word, daysOfMonth: Word, daysOfWeek: Word, hours: Word, minutes: Word, seconds: Word)

  function FieldsOf(l: Lists): Fields {
    Fields(AddAll(Months, l.months), AddAll(DaysOfMonth, l.daysOfMonth), AddAll(DaysOfWeek, l.daysOfWeek),
           AddAll(Hours, l.hours), AddAll(MinSecs, l.minutes), AddAll(MinSecs, l.seconds))
  }

  /** struct tm: months count from 0, days of the week from Sunday, and a leap second is 60. */
  datatype Time = Time(mon: nat, mday: nat, wday: nat, hour: nat, min: nat, sec: nat)

  /** Days of the week count from Monday in the bit set. */
  function Weekday(t: Time): nat { if t.wday == 0 then 6 else t.wday - 1 }

  predicate Admits(k: Kind, w: Word, j: nat) { w == Wild(k) || Test(w, j) }

  predicate Matches(f: Fields, t: Time) {
    && Admits(Months, f.months, t.mon) && Admits(DaysOfMonth, f.daysOfMonth, t.mday)
       && Admits(DaysOfWeek, f.daysOfWeek, Weekday(t))
    && Admits(Hours, f.hours, t.hour) && Admits(MinSecs, f.minutes, t.min) && Admits(MinSecs, f.seconds, t.sec)
  }

  /** A list admits what it names, or everything if it holds the wildcard. */
  ghost predicate Allows(k: Kind, ss: seq<string>, j: nat) { Starred(k, ss) || j in Chosen(k, ss) }

  /** A position that no value uses and the wildcard does. */
  function Unused(k: Kind): nat {
    match k case Months => 12 case DaysOfMonth => 0 case DaysOfWeek => 7 case Hours => 24 case MinSecs => 60
  }

  /** Explicit values never add up to the wildcard. */
  lemma ExplicitIsNotWild(k: Kind, ss: seq<string>)
    ensures AddAll(k, ss) == Wild(k) <==> Starred(k, ss)
  {
    hide AddAll, Test, Wild, Parse;
    AddAllRepresents(k, ss);
    TestWild(k, Unused(k));
    ChosenInRange(k, ss);
  }

  lemma ChosenInRange(k: Kind, ss: seq<string>)
    ensures forall i :: i in Chosen(k, ss) ==> First(k) <= i < Bound(k)
    ensures Unused(k) !in Chosen(k, ss)
  {
    hide Int32;
  }

  lemma AdmitsRefines(k: Kind, ss: seq<string>, j: nat)
    ensures Admits(k, AddAll(k, ss), j) <==> Allows(k, ss, j)
  {
    hide AddAll, Test, Wild, Starred, Chosen;
    AddAllRepresents(k, ss);
    ExplicitIsNotWild(k, ss);
  }

  /** The bit sets refine sets: an event matches a time exactly when each of its lists admits that component. */
  lemma {:induction false} MatchRefines(l: Lists, t: Time)
    ensures Matches(FieldsOf(l), t) <==>
            && Allows(Months, l.months, t.mon) && Allows(DaysOfMonth, l.daysOfMonth, t.mday)
            && Allows(DaysOfWeek, l.daysOfWeek, Weekday(t)) && Allows(Hours, l.hours, t.hour)
            && Allows(MinSecs, l.minutes, t.min) && Allows(MinSecs, l.seconds, t.sec)
  {
    hide Admits, Allows, AddAll;
    AdmitsRefines(Months, l.months, t.mon);
    AdmitsRefines(DaysOfMonth, l.daysOfMonth, t.mday);
    AdmitsRefines(DaysOfWeek, l.daysOfWeek, Weekday(t));
    AdmitsRefines(Hours, l.hours, t.hour);
    AdmitsRefines(MinSecs, l.minutes, t.min);
    AdmitsRefines(MinSecs, l.seconds, t.sec);
  }

  /**
   A leap second is matched exactly when the seconds hold the wildcard and any other second of its
   minute is matched.
   */
  lemma {:induction false} LeapSecond(l: Lists, t: Time, sec: nat)
    ensures t.sec == 60 ==>
              (Matches(FieldsOf(l), t) <==> Starred(MinSecs, l.seconds) && Matches(FieldsOf(l), t.(sec := sec)))
  {
    MatchRefines(l, t);
    MatchRefines(l, t.(sec := sec));
    ChosenInRange(MinSecs, l.seconds);
  }

  // ------------------------------------------------------------------ matching by name

  function MonthName(mon: nat): string {
    match mon
    case 0 => "january" case 1 => "february" case 2 => "march" case 3 => "april"
    case 4 => "may" case 5 => "june" case 6 => "july" case 7 => "august"
    case 8 => "september" case 9 => "october" case 10 => "november" case _ => "december"
  }

  /** Days of a broken-down time count from Sunday. */
  function DayName(wday: nat): string {
    match wday
    case 0 => "sunday" case 1 => "monday" case 2 => "tuesday" case 3 => "wednesday"
    case 4 => "thursday" case 5 => "friday" case _ => "saturday"
  }

  /** Some entry is the wildcard or this word. */
  ghost predicate Says(ss: seq<string>, word: string) { "*" in ss || word in ss }

  /** Some entry is the wildcard or a numeral of this number. */
  ghost predicate Numbers(ss: seq<string>, n: int) { "*" in ss || exists l :: 0 <= l < |ss| && Int32(ss[l]) == Some(n) }

  lemma StarredExactly(k: Kind, ss: seq<string>)
    ensures Starred(k, ss) <==> "*" in ss
  {
    hide Int32, Lookup;
  }

  lemma NamedAllows(k: Kind, ss: seq<string>, j: nat)
    requires Named(k) && j < Bound(k)
    ensures Allows(k, ss, j) <==> Says(ss, NamesOf(k)[j])
  {
    hide Int32, NamesOf;
    StarredExactly(k, ss);
    ParseToken(k, j);
    if n :| 0 <= n < |ss| && ss[n] == NamesOf(k)[j] { assert Parse(k, ss[n]) == Value(j); }
  }

  lemma NumberAllows(k: Kind, ss: seq<string>, j: nat)
    requires !Named(k)
    ensures Allows(k, ss, j) <==> if First(k) <= j < Bound(k) then Numbers(ss, j) else "*" in ss
  {
    hide Int32;
    StarredExactly(k, ss);
    if n :| 0 <= n < |ss| && Int32(ss[n]) == Some(j) && "*" !in ss && First(k) <= j < Bound(k) {
      assert Parse(k, ss[n]) == Value(j);
    }
  }

  lemma TableNames(t: Time)
    ensures t.mon < 12 ==> MONTH_NAMES[t.mon] == MonthName(t.mon)
    ensures t.wday < 7 ==> Weekday(t) < 7 && DAY_NAMES[Weekday(t)] == DayName(t.wday)
  {
  }

  /**
   An event matches a broken-down time if and only if each leaf holds the wildcard or the component:
   months and days of the week by name, the others by number, and second 60 by the wildcard alone.
   */
  lemma {:induction false} MatchesByName(l: Lists, t: Time)
    requires t.mon < 12 && 1 <= t.mday <= 31 && t.wday < 7 && t.hour < 24 && t.min < 60 && t.sec <= 60
    ensures Matches(FieldsOf(l), t) <==>
            && Says(l.months, MonthName(t.mon)) && Numbers(l.daysOfMonth, t.mday)
            && Says(l.daysOfWeek, DayName(t.wday)) && Numbers(l.hours, t.hour) && Numbers(l.minutes, t.min)
            && if t.sec == 60 then "*" in l.seconds else Numbers(l.seconds, t.sec)
  {
    hide Allows, Matches, Weekday, Says, Numbers, MonthName, DayName;
    MatchRefines(l, t);
    TableNames(t);
    NamedAllows(Months, l.months, t.mon);
    NumberAllows(DaysOfMonth, l.daysOfMonth, t.mday);
    NamedAllows(DaysOfWeek, l.daysOfWeek, Weekday(t));
    NumberAllows(Hours, l.hours, t.hour);
    NumberAllows(MinSecs, l.minutes, t.min);
    NumberAllows(MinSecs, l.seconds, t.sec);
  }

  /** The words that are values of a leaf: the names of months and days, and numbers in their range. */
  ghost predicate IsValue(k: Kind, s: string) {
    match k
    case Months => exists m: nat :: m < 12 && s == MonthName(m)
    case DaysOfWeek => exists d: nat :: d < 7 && s == DayName(d)
    case DaysOfMonth => Int32(s).Some? && 1 <= Int32(s).value <= 31
    case Hours => Int32(s).Some? && 0 <= Int32(s).value <= 23
    case MinSecs => Int32(s).Some? && 0 <= Int32(s).value <= 59
  }

  /** The setters take exactly the wildcard and the values of the leaf. */
  lemma {:induction false} AcceptedExactly(k: Kind, w: Word, s: string)
    ensures Add(k, w, s).ok <==> s == "*" || IsValue(k, s)
  {
    hide Int32, Or, Bit, Wild, MonthName, DayName, Lookup;
    if k == Months {
      MonthsListed(s);
    } else if k == DaysOfWeek {
      DaysListed(s);
    }
  }

  lemma MonthsListed(s: string)
    ensures Lookup(MONTH_NAMES, s, 0).Some? <==> exists m: nat :: m < 12 && s == MonthName(m)
  {
    hide Lookup, MonthName;
    forall m: nat | m < 12 ensures MONTH_NAMES[m] == MonthName(m) { TableNames(Time(m, 1, 0, 0, 0, 0)); }
  }

  lemma DaysListed(s: string)
    ensures Lookup(DAY_NAMES, s, 0).Some? <==> exists d: nat :: d < 7 && s == DayName(d)
  {
    hide Lookup, DayName;
    forall d: nat | d < 7 ensures DAY_NAMES[(d + 6) % 7] == DayName(d) && DAY_NAMES[d] == DayName((d + 1) % 7) {
      TableNames(Time(0, 1, d, 0, 0, 0));
      TableNames(Time(0, 1, (d + 1) % 7, 0, 0, 0));
    }
  }

  // ------------------------------------------------------------------ rendering

  function Token(k: Kind, i: nat): string
    requires i < Bound(k)
  {
    if Named(k) then NamesOf(k)[i] else Signed(i)
  }

  /** The entries of the values from First to n. */
  function RenderUpTo(k: Kind, w: Word, n: nat): seq<string>
    requires First(k) <= n <= Bound(k)
    decreases n
  {
    if n == First(k) then []
    else RenderUpTo(k, w, n - 1) + (if Test(w, n - 1) then [Token(k, n - 1)] else [])
  }

  /** An empty set is not rendered at all. */
  function Render(k: Kind, w: Word): seq<string> {
    if w == 0 then [] else if w == Wild(k) then ["*"] else RenderUpTo(k, w, Bound(k))
  }

  lemma {:induction false} LookupAt(names: seq<string>, i: nat, l: nat)
    requires l <= i < |names| && forall a, b :: 0 <= a < b < |names| ==> names[a] != names[b]
    ensures Lookup(names, names[i], l) == Some(i)
    decreases i - l
  {
    if l < i { LookupAt(names, i, l + 1); }
  }

  /** The first three letters tell the names apart. */
  lemma NamesDistinct(k: Kind)
    requires Named(k)
    ensures forall a, b :: 0 <= a < b < Bound(k) ==> NamesOf(k)[a] != NamesOf(k)[b]
    ensures forall a :: 0 <= a < Bound(k) ==> NamesOf(k)[a] != "*"
  {
    var m, d := MONTH_NAMES, DAY_NAMES;
    assert m[0][0..3] == "jan" && m[1][0..3] == "feb" && m[2][0..3] == "mar" && m[3][0..3] == "apr";
    assert m[4][0..3] == "may" && m[5][0..3] == "jun" && m[6][0..3] == "jul" && m[7][0..3] == "aug";
    assert m[8][0..3] == "sep" && m[9][0..3] == "oct" && m[10][0..3] == "nov" && m[11][0..3] == "dec";
    assert d[0][0..3] == "mon" && d[1][0..3] == "tue" && d[2][0..3] == "wed" && d[3][0..3] == "thu";
    assert d[4][0..3] == "fri" && d[5][0..3] == "sat" && d[6][0..3] == "sun";
  }

  lemma ParseToken(k: Kind, i: nat)
    requires First(k) <= i < Bound(k)
    ensures Parse(k, Token(k, i)) == Value(i)
  {
    if Named(k) {
      NamesDistinct(k);
      LookupAt(NamesOf(k), i, 0);
    } else {
      hide Int32, Unsigned;
      SignedReads(i);
      assert IsDigit(Unsigned(i)[0]);
    }
  }

  lemma {:induction false} Reparse(k: Kind, w: Word, n: nat)
    requires First(k) <= n <= Bound(k) && !(k == DaysOfMonth && Test(w, 0))
    ensures AddAll(k, RenderUpTo(k, w, n)) == And(w, Low(n))
    decreases n
  {
    hide And, Or, Test, Bit, Low, Token, AddAll, Add;
    if n == First(k) {
      AddNothing(k);
      NextBit(w, 0);
      NoLowBits(w);
    } else {
      Reparse(k, w, n - 1);
      NextBit(w, n - 1);
      var r := RenderUpTo(k, w, n - 1);
      AddToken(k, r, n - 1);
      assert r + [] == r;
    }
  }

  lemma AddNothing(k: Kind)
    ensures AddAll(k, []) == 0
  {
  }

  lemma AddToken(k: Kind, r: seq<string>, i: nat)
    requires First(k) <= i < Bound(k)
    ensures AddAll(k, r + [Token(k, i)]) == Or(AddAll(k, r), Bit(i))
  {
    hide Or, Bit, Token, Parse, Wild;
    ParseToken(k, i);
    assert (r + [Token(k, i)])[..|r|] == r;
  }

  /** How value i is written. */
  function ValueText(k: Kind, i: nat): string {
    match k case Months => MonthName(i) case DaysOfWeek => DayName((i + 1) % 7) case _ => Signed(i)
  }

  /** The list writes the values below n that are in the word, each once and in ascending order. */
  ghost predicate Enumerates(k: Kind, w: Word, n: nat, r: seq<string>, values: seq<nat>) {
    && |r| == |values| && (forall l :: 0 <= l < |r| ==> First(k) <= values[l] < n && r[l] == ValueText(k, values[l]))
    && (forall l, m :: 0 <= l < m < |values| ==> values[l] < values[m])
    && (forall i: nat :: First(k) <= i < n ==> (i in values <==> Test(w, i)))
  }

  lemma {:induction false} RenderEnumerates(k: Kind, w: Word, n: nat) returns (values: seq<nat>)
    requires First(k) <= n <= Bound(k)
    ensures Enumerates(k, w, n, RenderUpTo(k, w, n), values)
    decreases n
  {
    hide Test, Token, ValueText, Enumerates;
    if n == First(k) {
      values := [];
      EnumeratesNone(k, w);
    } else {
      values := RenderEnumerates(k, w, n - 1);
      var r := RenderUpTo(k, w, n - 1);
      if Test(w, n - 1) {
        TokenText(k, n - 1);
        EnumeratesMore(k, w, n - 1, r, values);
        values := values + [n - 1];
      } else {
        EnumeratesSame(k, w, n - 1, r, values);
        assert RenderUpTo(k, w, n) == r + [] == r;
      }
    }
  }

  lemma EnumeratesNone(k: Kind, w: Word)
    ensures Enumerates(k, w, First(k), [], [])
  {
  }

  lemma EnumeratesMore(k: Kind, w: Word, n: nat, r: seq<string>, values: seq<nat>)
    requires First(k) <= n && Test(w, n) && Enumerates(k, w, n, r, values)
    ensures Enumerates(k, w, n + 1, r + [ValueText(k, n)], values + [n])
  {
    hide Test, ValueText;
    var more := values + [n];
    assert more[|values|] == n;
    forall l | 0 <= l < |values| ensures more[l] == values[l] < n {}
    forall i: nat | First(k) <= i < n + 1 ensures i in more <==> Test(w, i) {
      assert i in more <==> i in values || i == n;
    }
  }

  lemma EnumeratesSame(k: Kind, w: Word, n: nat, r: seq<string>, values: seq<nat>)
    requires First(k) <= n && !Test(w, n) && Enumerates(k, w, n, r, values)
    ensures Enumerates(k, w, n + 1, r, values)
  {
    hide Test, ValueText;
    assert n !in values;
  }

  lemma TokenText(k: Kind, i: nat)
    requires i < Bound(k)
    ensures Token(k, i) == ValueText(k, i)
  {
    hide MonthName, DayName, Signed;
    if k == Months { TableNames(Time(i, 1, 0, 0, 0, 0)); }
    if k == DaysOfWeek { TableNames(Time(0, 1, (i + 1) % 7, 0, 0, 0)); }
  }

  /** What is rendered: nothing, the wildcard, or the values in ascending order. */
  lemma {:induction false} RenderExactly(k: Kind, w: Word)
    ensures if w == 0 then Render(k, w) == [] else if w == Wild(k) then Render(k, w) == ["*"]
            else exists values :: Enumerates(k, w, Bound(k), Render(k, w), values)
  {
    hide Enumerates, RenderUpTo, Wild;
    var values := RenderEnumerates(k, w, Bound(k));
    assert w != 0 && w != Wild(k) ==> Render(k, w) == RenderUpTo(k, w, Bound(k));
    assert w != 0 && w != Wild(k) ==> Enumerates(k, w, Bound(k), Render(k, w), values);
  }

  lemma NoLowBits(w: Word)
    ensures And(w, Low(0)) == 0
  {
    Basics(w, 0);
  }

  /** Parsing the rendered list again gives the same bit set. */
  lemma RenderParse(k: Kind, ss: seq<string>)
    ensures AddAll(k, Render(k, AddAll(k, ss))) == AddAll(k, ss)
  {
    hide And, Or, Test, Bit, Low, Token, Sub, Int32, Lookup;
    var w := AddAll(k, ss);
    AddAllRepresents(k, ss);
    ExplicitIsNotWild(k, ss);
    if w == Wild(k) {
      assert ["*"][..0] == [];
      WildSub(k);
      Basics(Wild(k), 0);
      assert AddAll(k, ["*"]) == Wild(k);
    } else if w != 0 {
      ChosenInRange(k, ss);
      Reparse(k, w, Bound(k));
      SubMeans(w, Low(Bound(k)));
    }
  }

  lemma SubMeans(a: Word, b: Word)
    requires Sub(a, b)
    ensures And(a, b) == a
  {
  }

  // ------------------------------------------------------------------ timezone offsets

  function TwoDigits(n: nat): string
    requires n < 100
  {
    [DigitOf(n / 10), DigitOf(n % 10)]
  }

  /** The offset in minutes as +HH:MM. */
  function RenderZone(offset: int): string
    requires -6000 < offset < 6000
  {
    var m := if offset < 0 then -offset else offset;
    (if offset < 0 then "-" else "+") + TwoDigits(m / 60) + ":" + TwoDigits(m % 60)
  }

  /** set_timezoneoffset. */
  function ParseZone(s: string): (r: Option<int>)
    ensures r.Some? ==> -1439 <= r.value <= 1439
  {
    if s == "Z" then Some(0)
    else if |s| != 6 || (s[0] != '-' && s[0] != '+') || !IsDigit(s[1]) || !IsDigit(s[2]) || s[3] != ':'
            || !IsDigit(s[4]) || !IsDigit(s[5]) then None
    else
      var hours, minutes := ValueOf(s[1]) * 10 + ValueOf(s[2]), ValueOf(s[4]) * 10 + ValueOf(s[5]);
      if hours > 23 || minutes > 59 then None
      else Some(if s[0] == '-' then -(hours * 60 + minutes) else hours * 60 + minutes)
  }

  /** The offset that a sign, hours and minutes stand for. */
  function ZoneText(negative: bool, h: nat, m: nat): string
    requires h < 24 && m < 60
  {
    (if negative then "-" else "+") + TwoDigits(h) + ":" + TwoDigits(m)
  }

  function ZoneValue(negative: bool, h: nat, m: nat): int { if negative then -(h * 60 + m) else h * 60 + m }

  /** s is such a text for v. */
  ghost predicate Zoned(s: string, v: int, negative: bool, h: nat, m: nat) {
    h < 24 && m < 60 && s == ZoneText(negative, h, m) && v == ZoneValue(negative, h, m)
  }

  /** The accepted offsets: Z, or a sign, two digits below 24, a colon and two digits below 60. */
  lemma {:induction false} ZoneExactly(s: string, v: int)
    ensures ParseZone(s) == Some(v) <==>
            (s == "Z" && v == 0) || exists negative, h: nat, m: nat :: Zoned(s, v, negative, h, m)
  {
    hide ParseZone, ZoneText, ZoneValue;
    if negative, h: nat, m: nat :| Zoned(s, v, negative, h, m) { ZoneParts(negative, h, m); }
    ZoneZ();
    if ParseZone(s) == Some(v) && s != "Z" { var negative, h, m := ZoneRead(s, v); }
  }

  lemma ZoneZ()
    ensures ParseZone("Z") == Some(0)
  {
  }

  lemma ZoneRead(s: string, v: int) returns (negative: bool, h: nat, m: nat)
    requires ParseZone(s) == Some(v) && s != "Z"
    ensures Zoned(s, v, negative, h, m)
  {
    negative, h, m := s[0] == '-', ValueOf(s[1]) * 10 + ValueOf(s[2]), ValueOf(s[4]) * 10 + ValueOf(s[5]);
    assert TwoDigits(h) == [s[1], s[2]] && TwoDigits(m) == [s[4], s[5]];
    assert s == [s[0], s[1], s[2], ':', s[4], s[5]];
  }

  lemma ZoneParts(negative: bool, h: nat, m: nat)
    requires h < 24 && m < 60
    ensures ParseZone(ZoneText(negative, h, m)) == Some(ZoneValue(negative, h, m))
  {
    var s := ZoneText(negative, h, m);
    var a, b, sign := TwoDigits(h), TwoDigits(m), if negative then '-' else '+';
    assert s == [sign, a[0], a[1], ':', b[0], b[1]];
  }

  lemma ZoneExamples()
    ensures ParseZone("+01:30") == Some(90) && ParseZone("-05:00") == Some(-300) && ParseZone("+24:00") == None
    ensures RenderZone(90) == "+01:30" && RenderZone(-300) == "-05:00"
  {
  }

  /** An offset comes back if and only if it is less than a day. */
  lemma ZoneRoundTrip(offset: int)
    requires -6000 < offset < 6000
    ensures ParseZone(RenderZone(offset)) == if -1439 <= offset <= 1439 then Some(offset) else None
  {
    var m := if offset < 0 then -offset else offset;
    var s := RenderZone(offset);
    var h, n := TwoDigits(m / 60), TwoDigits(m % 60);
    assert s == [if offset < 0 then '-' else '+', h[0], h[1], ':', n[0], n[1]];
    assert ValueOf(s[1]) * 10 + ValueOf(s[2]) == m / 60;
    assert ValueOf(s[4]) * 10 + ValueOf(s[5]) == m % 60;
  }

  /** The broken-down time of second n, offset minutes east of Greenwich; dates is the calendar of the days. */
  function TimeAt(dates: int -> (nat, nat), n: int, offset: int): Time {
    var minute := n / 60 + offset;
    var day := minute / 1440;
    Time(dates(day).0, dates(day).1, (day + 4) % 7, minute / 60 % 24, minute % 60, n % 60)
  }

  /** The fields of an event at exactly this weekday, hour and minute. */
  function Only(t: Time): Fields {
    Fields(Wild(Months), Wild(DaysOfMonth), Bit(Weekday(t)), Bit(t.hour), Bit(t.min), Wild(MinSecs))
  }

  lemma AdmitsBit(k: Kind, i: nat, j: nat)
    requires i < Width(k)
    ensures Admits(k, Bit(i), j) <==> i == j
  {
    hide And, Bit, Wild;
    BitNonZero(i);
    Basics(Bit(i), 0);
    if i != j { BitsApart(i, j); }
    var l := if i == 0 then 1 else 0;
    TestWild(k, l);
    BitsApart(i, l);
  }

  lemma OnlyMatches(t: Time, u: Time)
    requires t.wday < 7 && t.hour < 24 && t.min < 60 && u.wday < 7
    ensures Matches(Only(t), u) <==> t.wday == u.wday && t.hour == u.hour && t.min == u.min
  {
    hide Bit, Wild, Test;
    AdmitsBit(DaysOfWeek, Weekday(t), Weekday(u));
    AdmitsBit(Hours, t.hour, u.hour);
    AdmitsBit(MinSecs, t.min, u.min);
  }

  /** Weekday, hour and minute tell offsets of less than a day apart. */
  lemma SameMinute(a: int, b: int)
    requires -2880 < a - b < 2880 && a / 60 % 24 == b / 60 % 24 && a % 60 == b % 60
    requires (a / 1440 + 4) % 7 == (b / 1440 + 4) % 7
    ensures a == b
  {
    assert a / 60 / 24 == a / 1440 && b / 60 / 24 == b / 1440;
  }

  /**
   The match uses the local offset of the system where the configuration asks for that of the
   event.  That is harmless for all events and all times if and only if the two are the same.
   */
  lemma {:induction false} OffsetHarmless(dates: int -> (nat, nat), local: int, offset: int)
    requires -1440 < local < 1440 && -1440 < offset < 1440
    ensures (forall f, n :: Matches(f, TimeAt(dates, n, local)) <==> Matches(f, TimeAt(dates, n, offset))) <==>
            local == offset
  {
    hide Matches;
    if forall f, n :: Matches(f, TimeAt(dates, n, local)) <==> Matches(f, TimeAt(dates, n, offset)) {
      var t, u := TimeAt(dates, 0, local), TimeAt(dates, 0, offset);
      OnlyMatches(t, t);
      OnlyMatches(t, u);
      SameMinute(local, offset);
    }
  }

  // ------------------------------------------------------------------ the event

  class CalendarEvent {
    var months: Word
    var daysOfMonth: Word
    var daysOfWeek: Word
    var hours: Word
    var minutes: Word
    var seconds: Word
    /** In minutes, and whether it was given. */
    var timezoneOffset: int
    var timezoneOffsetSet: bool

    /** The fields that decide about a match: the offset is none of them. */
    function View(): Fields
      reads this
    {
      Fields(months, daysOfMonth, daysOfWeek, hours, minutes, seconds)
    }

    constructor ()
      ensures View() == FieldsOf(Lists([], [], [], [], [], [])) && !timezoneOffsetSet
    {
      months, daysOfMonth, daysOfWeek, hours, minutes, seconds := 0, 0, 0, 0, 0, 0;
      timezoneOffset, timezoneOffsetSet := 0, false;
    }

    /** lmap_event_set_timezone_offset */
    method SetTimezoneOffset(value: string) returns (ok: bool)
      modifies this`timezoneOffset, this`timezoneOffsetSet
      ensures ok <==> ParseZone(value).Some?
      ensures timezoneOffset == if ok then ParseZone(value).value else old(timezoneOffset)
      ensures timezoneOffsetSet == (ok || old(timezoneOffsetSet))
    {
      var offset := ParseZone(value);
      ok := offset.Some?;
      if ok { timezoneOffset, timezoneOffsetSet := offset.value, true; }
    }

    /** The search through the table of names. */
    static method FindName(names: seq<string>, value: string) returns (r: Option<nat>)
      ensures r == Lookup(names, value, 0)
    {
      for i := 0 to |names|
        invariant Lookup(names, value, 0) == Lookup(names, value, i)
      {
        if names[i] == value { return Some(i); }
      }
      r := None;
    }

    static method AddNamed(k: Kind, w: Word, value: string) returns (r: Word, ok: bool)
      requires Named(k)
      ensures Added(r, ok) == Add(k, w, value)
    {
      if value == "*" { return Or(w, Wild(k)), true; }
      var i := FindName(NamesOf(k), value);
      if i.None? { return w, false; }
      r, ok := Or(w, Bit(i.value)), true;
    }

    static method AddNumber(k: Kind, w: Word, value: string) returns (r: Word, ok: bool)
      requires !Named(k)
      ensures Added(r, ok) == Add(k, w, value)
    {
      if value == "*" { return Wild(k), true; }
      var n := Int32(value);
      if n.None? || n.value < First(k) || n.value >= Bound(k) { return w, false; }
      r, ok := Or(w, Bit(n.value)), true;
    }

    method AddMonth(value: string) returns (ok: bool)
      modifies this`months
      ensures Added(months, ok) == Add(Months, old(months), value)
    {
      months, ok := AddNamed(Months, months, value);
    }

    method AddDayOfMonth(value: string) returns (ok: bool)
      modifies this`daysOfMonth
      ensures Added(daysOfMonth, ok) == Add(DaysOfMonth, old(daysOfMonth), value)
    {
      daysOfMonth, ok := AddNumber(DaysOfMonth, daysOfMonth, value);
    }

    method AddDayOfWeek(value: string) returns (ok: bool)
      modifies this`daysOfWeek
      ensures Added(daysOfWeek, ok) == Add(DaysOfWeek, old(daysOfWeek), value)
    {
      daysOfWeek, ok := AddNamed(DaysOfWeek, daysOfWeek, value);
    }

    method AddHour(value: string) returns (ok: bool)
      modifies this`hours
      ensures Added(hours, ok) == Add(Hours, old(hours), value)
    {
      hours, ok := AddNumber(Hours, hours, value);
    }

    method AddMinute(value: string) returns (ok: bool)
      modifies this`minutes
      ensures Added(minutes, ok) == Add(MinSecs, old(minutes), value)
    {
      minutes, ok := AddNumber(MinSecs, minutes, value);
    }

    method AddSecond(value: string) returns (ok: bool)
      modifies this`seconds
      ensures Added(seconds, ok) == Add(MinSecs, old(seconds), value)
    {
      seconds, ok := AddNumber(MinSecs, seconds, value);
    }

    static method Check(k: Kind, w: Word, j: nat) returns (ok: bool)
      ensures ok == Admits(k, w, j)
    {
      hide Test, Wild;
      ok := w == Wild(k) || Test(w, j);
    }

    /** lmap_event_calendar_match on the broken-down local time: 1 for a match, 0 for none, whatever the offset is. */
    method Match(t: Time) returns (r: int)
      ensures r == if Matches(View(), t) then 1 else 0
    {
      hide Admits;
      var ok := Check(Months, months, t.mon);
      if !ok { return 0; }
      ok := Check(DaysOfMonth, daysOfMonth, t.mday);
      if !ok { return 0; }
      ok := Check(DaysOfWeek, daysOfWeek, if t.wday == 0 then 6 else t.wday - 1);
      if !ok { return 0; }
      ok := Check(Hours, hours, t.hour);
      if !ok { return 0; }
      ok := Check(MinSecs, minutes, t.min);
      if !ok { return 0; }
      ok := Check(MinSecs, seconds, t.sec);
      if !ok { return 0; }
      r := 1;
    }
  }

  /** The render functions append to a JSON array. */
  method RenderLeaf(k: Kind, w: Word) returns (ja: seq<string>)
    ensures ja == Render(k, w)
  {
    ja := [];
    if w == 0 { return; }
    if w == Wild(k) { return ["*"]; }
    for i := First(k) to Bound(k)
      invariant ja == RenderUpTo(k, w, i)
    {
      if Test(w, i) { ja := ja + [Token(k, i)]; }
    }
  }
}
