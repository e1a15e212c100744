/**
 The meta file of a result: what lmapd_workspace_action_meta_add_start and _add_end write is what
 read_result reads back (src/workspace.c), through the setters of src/data.c.
 */
module Meta {
  import opened Common
  import opened Csv
  import opened CsvStream
  import opened Decimal

  const DELIMITER := ';'

  /** What the writers look at; cycle is the text of a cycle number that is not zero. */
  datatype Source = Source(magic: string, schedule: string, action: string, task: string,
                           taskOptions: seq<Opt>, actionOptions: seq<Opt>,
                           taskTags: seq<string>, scheduleTags: seq<string>, actionTags: seq<string>,
                           event: nat, start: nat, cycle: Option<string>, end: nat, status: int)

  datatype MetaResult = MetaResult(schedule: Option<string>, action: Option<string>, task: Option<string>,
                                   options: seq<Opt>, tags: seq<string>, event: nat, start: nat, end: nat,
                                   cycle: Option<string>, status: int, statusSet: bool)

  const EMPTY := MetaResult(None, None, None, [], [], 0, 0, 0, None, 0, false)

  // ------------------------------------------------------------------ writing

  function Maybe(key: string, value: Option<string>): seq<(string, string)> {
    if value.Some? then [(key, value.value)] else []
  }

  function OptionPairs(o: Opt): seq<(string, string)> {
    [("option-id", o.id)] + Maybe("option-name", o.name) + Maybe("option-value", o.value)
  }

  function OptionsPairs(os: seq<Opt>): seq<(string, string)> {
    if os == [] then [] else OptionsPairs(os[..|os| - 1]) + OptionPairs(os[|os| - 1])
  }

  function TagPairs(tags: seq<string>): seq<(string, string)> {
    seq(|tags|, k requires 0 <= k < |tags| => ("tag", tags[k]))
  }

  function HeadPairs(x: Source): seq<(string, string)> {
    [("magic", x.magic), ("schedule", x.schedule), ("action", x.action), ("task", x.task)]
  }

  function TailPairs(x: Source): seq<(string, string)> {
    [("event", Unsigned(x.event)), ("start", Unsigned(x.start))] + Maybe("cycle-number", x.cycle)
  }

  function StartPairs(x: Source): seq<(string, string)> {
    HeadPairs(x) + OptionsPairs(x.taskOptions) + OptionsPairs(x.actionOptions)
    + TagPairs(x.taskTags) + TagPairs(x.scheduleTags) + TagPairs(x.actionTags) + TailPairs(x)
  }

  function EndPairs(x: Source): seq<(string, string)> {
    [("end", Unsigned(x.end)), ("status", Signed(x.status))]
  }

  // ------------------------------------------------------------------ reading

  predicate HasId(os: seq<Opt>, id: string) { exists k :: 0 <= k < |os| && os[k].id == id }

  /** add_option refuses an id that is there. */
  function AddOption(os: seq<Opt>, o: Opt): seq<Opt> { if HasId(os, o.id) then os else os + [o] }

  /** add_tag ignores a tag that is there. */
  function AddTag(tags: seq<string>, t: string): seq<string> { if t in tags then tags else tags + [t] }

  /** The result so far and the option that is being read. */
  datatype Reading = Reading(res: MetaResult, opt: Option<Opt>)

  /** set_lmap_identifier refuses the empty string. */
  function SetIdentifier(was: Option<string>, value: string): Option<string> {
    if value == "" then was else Some(value)
  }

  function SetNumber(was: nat, value: string): nat { if Uint32(value).Some? then Uint32(value).value else was }

  function Flush(r: Reading): MetaResult {
    if r.opt.Some? then r.res.(options := AddOption(r.res.options, r.opt.value)) else r.res
  }

  function Apply(r: Reading, key: string, value: string): Reading {
    if key == "schedule" then r.(res := r.res.(schedule := SetIdentifier(r.res.schedule, value)))
    else if key == "action" then r.(res := r.res.(action := SetIdentifier(r.res.action, value)))
    else if key == "task" then r.(res := r.res.(task := SetIdentifier(r.res.task, value)))
    else if key == "option-id" then Reading(Flush(r), Some(Opt(value, None, None)))
    else if key == "option-name" then (if r.opt.Some? then r.(opt := Some(r.opt.value.(name := Some(value)))) else r)
    else if key == "option-value" then (if r.opt.Some? then r.(opt := Some(r.opt.value.(value := Some(value)))) else r)
    else if key == "tag" then r.(res := r.res.(tags := AddTag(r.res.tags, value)))
    else if key == "event" then r.(res := r.res.(event := SetNumber(r.res.event, value)))
    else if key == "start" then r.(res := r.res.(start := SetNumber(r.res.start, value)))
    else if key == "end" then r.(res := r.res.(end := SetNumber(r.res.end, value)))
    else if key == "cycle-number" then r.(res := r.res.(cycle := Some(value)))
    else if key == "status" then
      (if Int32(value).Some? then r.(res := r.res.(status := Int32(value).value, statusSet := true)) else r)
    else r
  }

  function ApplyPair(r: Reading, p: (string, Option<string>)): Reading {
    if p.1.Some? then Apply(r, p.0, p.1.value) else r
  }

  function Fold(r: Reading, pairs: seq<(string, Option<string>)>): Reading {
    if pairs == [] then r else ApplyPair(Fold(r, pairs[..|pairs| - 1]), pairs[|pairs| - 1])
  }

  ghost function Read(s: string): MetaResult { Flush(Fold(Reading(EMPTY, None), ReadAll(s, DELIMITER, 0))) }

  // ------------------------------------------------------------------ what should be read

  function FirstById(os: seq<Opt>, more: seq<Opt>): seq<Opt> {
    if more == [] then os else AddOption(FirstById(os, more[..|more| - 1]), more[|more| - 1])
  }

  function FirstOf(tags: seq<string>, more: seq<string>): seq<string> {
    if more == [] then tags else AddTag(FirstOf(tags, more[..|more| - 1]), more[|more| - 1])
  }

  /** The result that belongs to the source: tags and options in order, repetitions dropped. */
  function Expected(x: Source): MetaResult {
    MetaResult(Some(x.schedule), Some(x.action), Some(x.task),
               FirstById([], x.taskOptions + x.actionOptions), FirstOf([], x.taskTags + x.scheduleTags + x.actionTags),
               x.event, x.start, x.end, x.cycle, x.status, true)
  }

  /** The records of one meta file, key by key. */
  lemma FileOfOneRun()
    ensures var o, p := Opt("i", Some("-c"), Some("3")), Opt("j", None, None);
            var x := Source("m", "s", "a", "t", [o], [p], ["u"], ["v"], ["w"], 7, 8, Some("60"), 9, -2);
            StartPairs(x) + EndPairs(x) ==
            [("magic", "m"), ("schedule", "s"), ("action", "a"), ("task", "t"),
             ("option-id", "i"), ("option-name", "-c"), ("option-value", "3"), ("option-id", "j"),
             ("tag", "u"), ("tag", "v"), ("tag", "w"),
             ("event", "7"), ("start", "8"), ("cycle-number", "60"), ("end", "9"), ("status", "-2")]
  {
    var o, p := Opt("i", Some("-c"), Some("3")), Opt("j", None, None);
    assert [o][..0] == [] && [p][..0] == [];
    assert OptionsPairs([o]) == [] + OptionPairs(o) ==
           [("option-id", "i"), ("option-name", "-c"), ("option-value", "3")];
    assert OptionsPairs([p]) == [] + OptionPairs(p) == [("option-id", "j")];
    assert Unsigned(7) == "7" && Unsigned(8) == "8" && Unsigned(9) == "9" && Signed(-2) == "-" + Unsigned(2) == "-2";
  }

  const KEYS := ["schedule", "action", "task", "option-id", "option-name", "option-value", "tag",
                 "event", "start", "end", "cycle-number", "status"]

  /** What the reader passes over: unknown keys, empty identifiers, numbers that do not fit, and parts of no option. */
  lemma {:induction false} ReaderIgnores(r: Reading, key: string, value: string)
    ensures key !in KEYS ==> Apply(r, key, value) == r
    ensures key in {"schedule", "action", "task"} && value == "" ==> Apply(r, key, value) == r
    ensures key in {"option-name", "option-value"} && r.opt.None? ==> Apply(r, key, value) == r
    ensures key in {"event", "start", "end"} && Uint32(value).None? ==> Apply(r, key, value) == r
    ensures key == "status" && Int32(value).None? ==> Apply(r, key, value) == r
    ensures ApplyPair(r, (key, None)) == r
  {
    hide Uint32, Int32, Flush, AddTag;
  }

  predicate OptOk(o: Opt) {
    Representable(o.id) && (o.name.Some? ==> Representable(o.name.value))
      && (o.value.Some? ==> Representable(o.value.value))
  }

  predicate SourceOk(x: Source) {
    && Representable(x.magic) && Representable(x.schedule) && Representable(x.action) && Representable(x.task)
    && (forall o :: o in x.taskOptions + x.actionOptions ==> OptOk(o))
    && (forall t :: t in x.taskTags + x.scheduleTags + x.actionTags ==> Representable(t))
    && (x.cycle.Some? ==> Representable(x.cycle.value))
    && x.event < UINT32_LIMIT && x.start < UINT32_LIMIT && x.end < UINT32_LIMIT
    && -INT32_LIMIT <= x.status < INT32_LIMIT
  }

  // ------------------------------------------------------------------ folding

  lemma {:induction false} FoldSplit(r: Reading, a: seq<(string, Option<string>)>, b: seq<(string, Option<string>)>)
    ensures Fold(r, a + b) == Fold(Fold(r, a), b)
  {
    if b == [] {
      assert a + b == a;
    } else {
      assert (a + b)[..|a + b| - 1] == a + b[..|b| - 1];
      FoldSplit(r, a, b[..|b| - 1]);
    }
  }

  /** The fold over pairs that were written. */
  function FoldW(r: Reading, pairs: seq<(string, string)>): Reading { Fold(r, AsRead(pairs)) }

  lemma FoldWSplit(r: Reading, a: seq<(string, string)>, b: seq<(string, string)>)
    ensures FoldW(r, a + b) == FoldW(FoldW(r, a), b)
  {
    assert AsRead(a + b) == AsRead(a) + AsRead(b);
    FoldSplit(r, AsRead(a), AsRead(b));
  }

  lemma FoldOne(r: Reading, key: string, value: string)
    ensures FoldW(r, [(key, value)]) == Apply(r, key, value)
    ensures FoldW(r, []) == r
  {
    var ps := AsRead([(key, value)]);
    assert AsRead([]) == [] && Fold(r, []) == r;
    assert |ps| == 1 && ps[..0] == [] && ps[0] == (key, Some(value));
    assert Fold(r, ps) == ApplyPair(Fold(r, ps[..0]), ps[0]);
  }

  lemma FoldOption(r: Reading, o: Opt)
    ensures FoldW(r, OptionPairs(o)) == Reading(Flush(r), Some(o))
  {
    var a, b, c := [("option-id", o.id)], Maybe("option-name", o.name), Maybe("option-value", o.value);
    FoldWSplit(r, a + b, c);
    FoldWSplit(r, a, b);
    FoldOne(r, "option-id", o.id);
    var r1 := FoldW(r, a);
    FoldOne(r1, "option-name", if o.name.Some? then o.name.value else "");
    var r2 := FoldW(r1, b);
    FoldOne(r2, "option-value", if o.value.Some? then o.value.value else "");
  }

  lemma {:induction false} FoldOptions(r: Reading, os: seq<Opt>)
    ensures Flush(FoldW(r, OptionsPairs(os))) == Flush(r).(options := FirstById(Flush(r).options, os))
  {
    if os == [] {
      FoldOne(r, "", "");
    } else {
      var prev, o := os[..|os| - 1], os[|os| - 1];
      FoldOptions(r, prev);
      FoldWSplit(r, OptionsPairs(prev), OptionPairs(o));
      FoldOption(FoldW(r, OptionsPairs(prev)), o);
    }
  }

  lemma {:induction false} FoldTags(r: Reading, tags: seq<string>)
    ensures FoldW(r, TagPairs(tags)) == r.(res := r.res.(tags := FirstOf(r.res.tags, tags)))
  {
    if tags == [] {
      FoldOne(r, "", "");
    } else {
      var prev, t := tags[..|tags| - 1], tags[|tags| - 1];
      FoldTags(r, prev);
      assert TagPairs(tags) == TagPairs(prev) + [("tag", t)];
      FoldWSplit(r, TagPairs(prev), [("tag", t)]);
      FoldOne(FoldW(r, TagPairs(prev)), "tag", t);
    }
  }

  lemma {:induction false} FirstByIdSplit(os: seq<Opt>, a: seq<Opt>, b: seq<Opt>)
    ensures FirstById(os, a + b) == FirstById(FirstById(os, a), b)
  {
    if b == [] {
      assert a + b == a;
    } else {
      assert (a + b)[..|a + b| - 1] == a + b[..|b| - 1];
      FirstByIdSplit(os, a, b[..|b| - 1]);
    }
  }

  lemma {:induction false} FirstOfSplit(tags: seq<string>, a: seq<string>, b: seq<string>)
    ensures FirstOf(tags, a + b) == FirstOf(FirstOf(tags, a), b)
  {
    if b == [] {
      assert a + b == a;
    } else {
      assert (a + b)[..|a + b| - 1] == a + b[..|b| - 1];
      FirstOfSplit(tags, a, b[..|b| - 1]);
    }
  }

  lemma FoldHead(x: Source)
    requires SourceOk(x)
    ensures FoldW(Reading(EMPTY, None), HeadPairs(x)) ==
            Reading(EMPTY.(schedule := Some(x.schedule), action := Some(x.action), task := Some(x.task)), None)
  {
    var r := Reading(EMPTY, None);
    var a, b, c, d := [("magic", x.magic)], [("schedule", x.schedule)], [("action", x.action)], [("task", x.task)];
    assert HeadPairs(x) == ((a + b) + c) + d;
    FoldWSplit(r, (a + b) + c, d);
    FoldWSplit(r, a + b, c);
    FoldWSplit(r, a, b);
    FoldOne(r, "magic", x.magic);
    FoldOne(FoldW(r, a), "schedule", x.schedule);
    FoldOne(FoldW(r, a + b), "action", x.action);
    FoldOne(FoldW(r, (a + b) + c), "task", x.task);
  }

  lemma FoldTail(r: Reading, x: Source)
    requires SourceOk(x) && r.res.cycle == None
    ensures FoldW(r, TailPairs(x)) == r.(res := r.res.(event := x.event, start := x.start, cycle := x.cycle))
  {
    var a, b, c := [("event", Unsigned(x.event))], [("start", Unsigned(x.start))], Maybe("cycle-number", x.cycle);
    assert TailPairs(x) == (a + b) + c;
    FoldWSplit(r, a + b, c);
    FoldWSplit(r, a, b);
    FoldOne(r, "event", Unsigned(x.event));
    FoldOne(FoldW(r, a), "start", Unsigned(x.start));
    FoldOne(FoldW(r, a + b), "cycle-number", if x.cycle.Some? then x.cycle.value else "");
    UnsignedReads(x.event);
    UnsignedReads(x.start);
  }

  lemma FoldEnd(r: Reading, x: Source)
    requires SourceOk(x)
    ensures FoldW(r, EndPairs(x)) == r.(res := r.res.(end := x.end, status := x.status, statusSet := true))
  {
    var a, b := [("end", Unsigned(x.end))], [("status", Signed(x.status))];
    assert EndPairs(x) == a + b;
    FoldWSplit(r, a, b);
    FoldOne(r, "end", Unsigned(x.end));
    FoldOne(FoldW(r, a), "status", Signed(x.status));
    UnsignedReads(x.end);
    SignedReads(x.status);
  }

  lemma FoldLists(r: Reading, x: Source)
    requires r.opt == None && r.res.options == [] && r.res.tags == []
    ensures var r' := FoldW(r, OptionsPairs(x.taskOptions) + OptionsPairs(x.actionOptions)
                               + TagPairs(x.taskTags) + TagPairs(x.scheduleTags) + TagPairs(x.actionTags));
            Flush(r') == r.res.(options := FirstById([], x.taskOptions + x.actionOptions),
                                tags := FirstOf([], x.taskTags + x.scheduleTags + x.actionTags))
            && r'.res.cycle == r.res.cycle
  {
    var o1, o2 := OptionsPairs(x.taskOptions), OptionsPairs(x.actionOptions);
    var t1, t2, t3 := TagPairs(x.taskTags), TagPairs(x.scheduleTags), TagPairs(x.actionTags);
    FoldWSplit(r, o1 + o2 + t1 + t2, t3);
    FoldWSplit(r, o1 + o2 + t1, t2);
    FoldWSplit(r, o1 + o2, t1);
    FoldWSplit(r, o1, o2);
    FoldOptions(r, x.taskOptions);
    var r1 := FoldW(r, o1);
    FoldOptions(r1, x.actionOptions);
    FirstByIdSplit([], x.taskOptions, x.actionOptions);
    var r2 := FoldW(r1, o2);
    FoldTags(r2, x.taskTags);
    var r3 := FoldW(r2, t1);
    FoldTags(r3, x.scheduleTags);
    var r4 := FoldW(r3, t2);
    FoldTags(r4, x.actionTags);
    FirstOfSplit([], x.taskTags, x.scheduleTags);
    FirstOfSplit([], x.taskTags + x.scheduleTags, x.actionTags);
  }

  lemma FoldAll(x: Source)
    requires SourceOk(x)
    ensures Flush(FoldW(Reading(EMPTY, None), StartPairs(x) + EndPairs(x))) == Expected(x)
  {
    hide HeadPairs, OptionsPairs, TagPairs, TailPairs, EndPairs, FoldW;
    var r := Reading(EMPTY, None);
    var lists := OptionsPairs(x.taskOptions) + OptionsPairs(x.actionOptions)
                 + TagPairs(x.taskTags) + TagPairs(x.scheduleTags) + TagPairs(x.actionTags);
    assert StartPairs(x) == HeadPairs(x) + lists + TailPairs(x);
    FoldWSplit(r, StartPairs(x), EndPairs(x));
    FoldWSplit(r, HeadPairs(x) + lists, TailPairs(x));
    FoldWSplit(r, HeadPairs(x), lists);
    FoldHead(x);
    var r1 := FoldW(r, HeadPairs(x));
    FoldLists(r1, x);
    var r2 := FoldW(r1, lists);
    FoldTail(r2, x);
    FoldEnd(FoldW(r2, TailPairs(x)), x);
  }

  // ------------------------------------------------------------------ the round trip

  predicate PairsOk(pairs: seq<(string, string)>) {
    forall p :: p in pairs ==> Representable(p.0) && Representable(p.1)
  }

  lemma {:induction false} OptionsOk(os: seq<Opt>)
    requires forall o :: o in os ==> OptOk(o)
    ensures PairsOk(OptionsPairs(os))
  {
    if os != [] {
      var prev, o := os[..|os| - 1], os[|os| - 1];
      OptionsOk(prev);
      assert o in os && OptOk(o);
      OptionOk(o);
      forall p | p in OptionsPairs(os) ensures Representable(p.0) && Representable(p.1) {
        assert p in OptionsPairs(prev) || p in OptionPairs(o);
      }
    }
  }

  lemma OptionOk(o: Opt)
    requires OptOk(o)
    ensures PairsOk(OptionPairs(o))
  {
  }

  lemma TagsOk(tags: seq<string>)
    requires forall t :: t in tags ==> Representable(t)
    ensures PairsOk(TagPairs(tags))
  {
  }

  lemma BothOk(a: seq<(string, string)>, b: seq<(string, string)>)
    requires PairsOk(a) && PairsOk(b)
    ensures PairsOk(a + b)
  {
  }

  lemma HeadOk(x: Source)
    requires SourceOk(x)
    ensures PairsOk(HeadPairs(x))
  {
  }

  lemma TailOk(x: Source)
    requires SourceOk(x)
    ensures PairsOk(TailPairs(x)) && PairsOk(EndPairs(x))
  {
    NumbersRepresentable(x.event, x.status);
    NumbersRepresentable(x.start, 0);
    NumbersRepresentable(x.end, 0);
    hide Unsigned, Signed;
  }

  lemma ListsOk(x: Source)
    requires SourceOk(x)
    ensures PairsOk(OptionsPairs(x.taskOptions)) && PairsOk(OptionsPairs(x.actionOptions))
    ensures PairsOk(TagPairs(x.taskTags)) && PairsOk(TagPairs(x.scheduleTags)) && PairsOk(TagPairs(x.actionTags))
  {
    hide OptionsPairs, TagPairs;
    OptionsOk(x.taskOptions);
    OptionsOk(x.actionOptions);
    TagsOk(x.taskTags);
    TagsOk(x.scheduleTags);
    TagsOk(x.actionTags);
  }

  lemma AllOk(x: Source)
    requires SourceOk(x)
    ensures PairsOk(StartPairs(x) + EndPairs(x))
  {
    HeadOk(x);
    ListsOk(x);
    TailOk(x);
    hide PairsOk, SourceOk, HeadPairs, TailPairs, EndPairs, OptionsPairs, TagPairs;
    var a := HeadPairs(x) + OptionsPairs(x.taskOptions);
    var b := a + OptionsPairs(x.actionOptions);
    var c := b + TagPairs(x.taskTags);
    var d := c + TagPairs(x.scheduleTags);
    var e := d + TagPairs(x.actionTags);
    BothOk(HeadPairs(x), OptionsPairs(x.taskOptions));
    BothOk(a, OptionsPairs(x.actionOptions));
    BothOk(b, TagPairs(x.taskTags));
    BothOk(c, TagPairs(x.scheduleTags));
    BothOk(d, TagPairs(x.actionTags));
    BothOk(e, TailPairs(x));
    BothOk(StartPairs(x), EndPairs(x));
  }

  /** Reading the meta file returns what was written, repetitions dropped. */
  lemma RoundTrip(x: Source)
    requires SourceOk(x)
    ensures Read(Records(StartPairs(x) + EndPairs(x), DELIMITER)) == Expected(x)
  {
    var pairs := StartPairs(x) + EndPairs(x);
    AllOk(x);
    forall l | 0 <= l < |pairs|
      ensures Representable(pairs[l].0) && Representable(pairs[l].1)
    {
      assert pairs[l] in pairs;
    }
    Csv.RoundTrip(pairs, DELIMITER);
    FoldAll(x);
  }

  predicate DistinctIds(os: seq<Opt>) { forall k, l :: 0 <= k < l < |os| ==> os[k].id != os[l].id }

  /** Options with distinct ids all survive, in order. */
  lemma {:induction false} DistinctKept(os: seq<Opt>)
    requires DistinctIds(os)
    ensures FirstById([], os) == os
  {
    if os != [] {
      DistinctKept(os[..|os| - 1]);
      assert os == os[..|os| - 1] + [os[|os| - 1]];
    }
  }

  /** Only then: otherwise an option is lost. */
  lemma {:induction false} DistinctAfter(os: seq<Opt>)
    ensures DistinctIds(FirstById([], os)) && |FirstById([], os)| <= |os|
  {
    if os != [] { DistinctAfter(os[..|os| - 1]); }
  }

  /** All options come back if and only if their ids are distinct across the task and the action. */
  lemma OptionsComeBack(x: Source)
    requires SourceOk(x)
    ensures Read(Records(StartPairs(x) + EndPairs(x), DELIMITER)).options == x.taskOptions + x.actionOptions
            <==> DistinctIds(x.taskOptions + x.actionOptions)
  {
    RoundTrip(x);
    DistinctAfter(x.taskOptions + x.actionOptions);
    if DistinctIds(x.taskOptions + x.actionOptions) { DistinctKept(x.taskOptions + x.actionOptions); }
  }

  /** A tag is kept at its first occurrence: the same tags, each once, in the order they first appear. */
  lemma {:induction false} FirstOccurrences(tags: seq<string>)
    ensures var r := FirstOf([], tags);
            && (forall t :: t in r <==> t in tags)
            && (forall k, l :: 0 <= k < l < |r| ==> r[k] != r[l])
            && (forall n :: 0 <= n <= |tags| ==> FirstOf([], tags[..n]) <= r)
  {
    if tags != [] {
      var m := |tags| - 1;
      FirstOccurrences(tags[..m]);
      assert tags == tags[..m] + [tags[m]];
      forall n | 0 <= n <= |tags| ensures FirstOf([], tags[..n]) <= FirstOf([], tags) {
        if n <= m { assert tags[..m][..n] == tags[..n]; } else { assert tags[..n] == tags; }
      }
    }
  }

  // ------------------------------------------------------------------ the loops

  /** These pairs have been written after what was there before. */
  ghost predicate Written(f: Stream, before: string, done: seq<(string, string)>)
    reads f
  {
    f.data == before + Records(done, DELIMITER)
  }

  method Put(f: Stream, ghost before: string, ghost done: seq<(string, string)>, key: string, value: string)
    requires Written(f, before, done)
    modifies f`data
    ensures Written(f, before, done + [(key, value)])
  {
    f.AppendKeyValue(DELIMITER, Some(key), Some(value));
    assert (done + [(key, value)])[..|done|] == done;
    assert f.data == before + Records(done, DELIMITER) + Record(key, value, DELIMITER);
  }

  method PutMaybe(f: Stream, ghost before: string, ghost done: seq<(string, string)>, key: string,
                  value: Option<string>)
    requires Written(f, before, done)
    modifies f`data
    ensures Written(f, before, done + Maybe(key, value))
  {
    if value.Some? {
      Put(f, before, done, key, value.value);
    } else {
      f.AppendKeyValue(DELIMITER, Some(key), value);
      assert done + [] == done;
    }
  }

  method PutOption(f: Stream, ghost before: string, ghost done: seq<(string, string)>, o: Opt)
    requires Written(f, before, done)
    modifies f`data
    ensures Written(f, before, done + OptionPairs(o))
  {
    hide Written, Maybe;
    Put(f, before, done, "option-id", o.id);
    var d1 := done + [("option-id", o.id)];
    PutMaybe(f, before, d1, "option-name", o.name);
    PutMaybe(f, before, d1 + Maybe("option-name", o.name), "option-value", o.value);
    assert d1 + Maybe("option-name", o.name) + Maybe("option-value", o.value) == done + OptionPairs(o);
  }

  method PutOptions(f: Stream, ghost before: string, ghost done: seq<(string, string)>, os: seq<Opt>)
    requires Written(f, before, done)
    modifies f`data
    ensures Written(f, before, done + OptionsPairs(os))
  {
    hide Written, OptionPairs;
    assert done + OptionsPairs(os[..0]) == done;
    for k := 0 to |os|
      invariant Written(f, before, done + OptionsPairs(os[..k]))
    {
      PutOption(f, before, done + OptionsPairs(os[..k]), os[k]);
      assert os[..k + 1][..k] == os[..k];
      assert done + OptionsPairs(os[..k]) + OptionPairs(os[k]) == done + OptionsPairs(os[..k + 1]);
    }
    assert os[..|os|] == os;
  }

  method PutTags(f: Stream, ghost before: string, ghost done: seq<(string, string)>, tags: seq<string>)
    requires Written(f, before, done)
    modifies f`data
    ensures Written(f, before, done + TagPairs(tags))
  {
    hide Written;
    assert done + TagPairs(tags[..0]) == done;
    for k := 0 to |tags|
      invariant Written(f, before, done + TagPairs(tags[..k]))
    {
      Put(f, before, done + TagPairs(tags[..k]), "tag", tags[k]);
      assert done + TagPairs(tags[..k]) + [("tag", tags[k])] == done + TagPairs(tags[..k + 1]);
    }
    assert tags[..|tags|] == tags;
  }

  method PutHead(f: Stream, ghost before: string, x: Source)
    requires Written(f, before, [])
    modifies f`data
    ensures Written(f, before, HeadPairs(x))
  {
    hide Written;
    Put(f, before, [], "magic", x.magic);
    Put(f, before, [] + [("magic", x.magic)], "schedule", x.schedule);
    Put(f, before, [] + [("magic", x.magic)] + [("schedule", x.schedule)], "action", x.action);
    Put(f, before, [] + [("magic", x.magic)] + [("schedule", x.schedule)] + [("action", x.action)], "task", x.task);
    assert [] + [("magic", x.magic)] + [("schedule", x.schedule)] + [("action", x.action)] + [("task", x.task)] ==
           HeadPairs(x);
  }

  method PutTail(f: Stream, ghost before: string, ghost done: seq<(string, string)>, x: Source)
    requires Written(f, before, done)
    modifies f`data
    ensures Written(f, before, done + TailPairs(x))
  {
    hide Written, Unsigned, Maybe;
    Put(f, before, done, "event", Unsigned(x.event));
    ghost var d1 := done + [("event", Unsigned(x.event))];
    Put(f, before, d1, "start", Unsigned(x.start));
    ghost var d2 := d1 + [("start", Unsigned(x.start))];
    PutMaybe(f, before, d2, "cycle-number", x.cycle);
    assert d2 + Maybe("cycle-number", x.cycle) == done + TailPairs(x);
  }

  /** lmapd_workspace_action_meta_add_start: the file is truncated first. */
  method AddStart(f: Stream, x: Source)
    requires f.data == ""
    modifies f`data
    ensures f.data == Records(StartPairs(x), DELIMITER)
  {
    hide HeadPairs, OptionsPairs, TagPairs, TailPairs;
    assert Written(f, "", []);
    PutHead(f, "", x);
    ghost var d := HeadPairs(x);
    PutOptions(f, "", d, x.taskOptions);
    d := d + OptionsPairs(x.taskOptions);
    PutOptions(f, "", d, x.actionOptions);
    d := d + OptionsPairs(x.actionOptions);
    PutTags(f, "", d, x.taskTags);
    d := d + TagPairs(x.taskTags);
    PutTags(f, "", d, x.scheduleTags);
    d := d + TagPairs(x.scheduleTags);
    PutTags(f, "", d, x.actionTags);
    d := d + TagPairs(x.actionTags);
    PutTail(f, "", d, x);
    assert f.data == "" + Records(StartPairs(x), DELIMITER);
  }

  /** lmapd_workspace_action_meta_add_end appends to a file that holds complete records. */
  method AddEnd(f: Stream, ghost done: seq<(string, string)>, x: Source)
    requires f.data == Records(done, DELIMITER)
    modifies f`data
    ensures f.data == Records(done + EndPairs(x), DELIMITER)
  {
    hide Unsigned, Signed, Records;
    assert Written(f, "", done) by { assert f.data == "" + Records(done, DELIMITER); }
    Put(f, "", done, "end", Unsigned(x.end));
    Put(f, "", done + [("end", Unsigned(x.end))], "status", Signed(x.status));
    assert done + [("end", Unsigned(x.end))] + [("status", Signed(x.status))] == done + EndPairs(x);
    assert f.data == "" + Records(done + EndPairs(x), DELIMITER);
  }

  lemma FoldNothing(r: Reading, pairs: seq<(string, Option<string>)>)
    ensures Fold(r, pairs[..0]) == r
  {
  }

  lemma FoldNext(r: Reading, pairs: seq<(string, Option<string>)>, n: nat)
    requires n < |pairs|
    ensures Fold(r, pairs[..n + 1]) == ApplyPair(Fold(r, pairs[..n]), pairs[n])
  {
    hide ApplyPair;
    assert pairs[..n + 1][..n] == pairs[..n];
  }

  /** What is left to be read after a call of csv_next_key_value. */
  lemma ReadAllStep(s: string, pos: nat)
    requires pos <= |s|
    ensures var p := NextPair(s, DELIMITER, pos);
            ReadAll(s, DELIMITER, pos) ==
            if p.key.None? then [] else [(p.key.value, p.value)] + (if p.eof then [] else ReadAll(s, DELIMITER, p.pos))
    ensures NextPair(s, DELIMITER, pos).key.Some? ==> NextPair(s, DELIMITER, pos).pos > pos
    ensures NextPair(s, DELIMITER, pos).key.None? ==> NextPair(s, DELIMITER, pos).eof
  {
    FieldAdvances(s, DELIMITER, pos);
  }

  /** The front of a list that is known to begin with x. */
  lemma Front<T>(all: seq<T>, n: nat, x: T, rest: seq<T>)
    requires n <= |all| && all[n..] == [x] + rest
    ensures n < |all| && all[n] == x && all[n + 1..] == rest
  {
    assert all[n] == all[n..][0];
    assert all[n + 1..] == all[n..][1..];
  }

  /** read_result. */
  method ReadResult(f: Stream) returns (res: MetaResult)
    requires f.Valid() && f.pos == 0 && !f.eof
    modifies f`pos, f`eof
    ensures res == Read(f.data)
  {
    hide Fold, ReadAll, Apply, NextPair, Flush;
    var r := Reading(EMPTY, None);
    ghost var all := ReadAll(f.data, DELIMITER, 0);
    ghost var n := 0;
    FoldNothing(r, all);
    while !f.eof
      invariant f.Valid() && n <= |all| && r == Fold(Reading(EMPTY, None), all[..n])
      invariant all[n..] == if f.eof then [] else ReadAll(f.data, DELIMITER, f.pos)
      decreases |f.data| - f.pos, !f.eof
    {
      ReadAllStep(f.data, f.pos);
      var key, value := f.NextKeyValue(DELIMITER);
      if key.Some? {
        Front(all, n, (key.value, value), if f.eof then [] else ReadAll(f.data, DELIMITER, f.pos));
        FoldNext(Reading(EMPTY, None), all, n);
        n := n + 1;
        if value.Some? { r := Apply(r, key.value, value.value); }
      }
    }
    assert all[..n] == all;
    res := Flush(r);
  }
}
