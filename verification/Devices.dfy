/** The device table that the parser's handler builds, on values: what a table is after any sequence
  * of handler calls. */
module Devices {
  import opened Text
  import opened Ini
  import opened Numbers

  const LOW := 0
  const HIGH := 1
  const INPUT := 0
  const OUTPUT := 1
  /** The size of a device's name buffer. */
  const DEV_NAME := 128

  datatype Device = Device(name: string, key: int, pin: int, mode: int, status: int, face: int, voice: int)

  function Blank(name: string): Device {
    Device(name, 0, 0, 0, 0, 0, 0)
  }

  /** One setting of the current device. Unknown names, and values that do not scan, change nothing. */
  function Assign(d: Device, name: string, value: string): Device {
    if name == "key" then
      match ScanHex(value) { case Some(n) => d.(key := n) case None => d }
    else if name == "gpio_pin" then
      match ScanDec(value) { case Some(n) => d.(pin := n) case None => d }
    else if name == "gpio_mode" then
      if value == "OUTPUT" then d.(mode := OUTPUT) else if value == "INPUT" then d.(mode := INPUT) else d
    else if name == "gpio_status" then
      if value == "HIGH" then d.(status := HIGH) else if value == "LOW" then d.(status := LOW) else d
    else if name == "check_face_status" then d.(face := Atoi(value))
    else if name == "voice_set_status" then d.(voice := Atoi(value))
    else d
  }

  /** One handler call on the list, head first: only the head is compared with the section. */
  function Handle(list: seq<Device>, c: Call): (r: seq<Device>)
    requires c.value.Some?
    ensures r != [] && r[0].name == c.section
  {
    var l := if list == [] || list[0].name != c.section then [Blank(c.section)] + list else list;
    [Assign(l[0], c.name, c.value.value)] + l[1..]
  }

  predicate AllValues(calls: seq<Call>) {
    forall c :: c in calls ==> c.value.Some?
  }

  /** The list, head first, after all these calls. */
  function Build(calls: seq<Call>): seq<Device>
    requires AllValues(calls)
  {
    if calls == [] then [] else
      assert calls[|calls| - 1] in calls;
      Handle(Build(calls[..|calls| - 1]), calls[|calls| - 1])
  }

  // ---- What the list says about the calls

  function Reverse<T>(s: seq<T>): (r: seq<T>)
    ensures |r| == |s|
  {
    if s == [] then [] else Reverse(s[1..]) + [s[0]]
  }

  /** The calls cut into maximal runs with the same section. */
  function Runs(calls: seq<Call>): (runs: seq<seq<Call>>)
    ensures calls != [] ==> runs != []
  {
    if calls == [] then [] else
      var n := |calls| - 1;
      var before := Runs(calls[..n]);
      if before != [] && calls[n - 1].section == calls[n].section then
        before[..|before| - 1] + [before[|before| - 1] + [calls[n]]]
      else
        before + [[calls[n]]]
  }

  function Flatten(runs: seq<seq<Call>>): seq<Call> {
    if runs == [] then [] else Flatten(runs[..|runs| - 1]) + runs[|runs| - 1]
  }

  predicate SameSection(run: seq<Call>) {
    forall c :: c in run ==> c.section == run[0].section
  }

  /** The six settings of a device. */
  datatype Field = Key | Pin | Mode | Status | Face | Voice

  function FieldName(f: Field): string {
    match f
    case Key => "key" case Pin => "gpio_pin" case Mode => "gpio_mode"
    case Status => "gpio_status" case Face => "check_face_status" case Voice => "voice_set_status"
  }

  function Get(d: Device, f: Field): int {
    match f
    case Key => d.key case Pin => d.pin case Mode => d.mode
    case Status => d.status case Face => d.face case Voice => d.voice
  }

  /** What a value means for a field; None when it means nothing. */
  function Reading(f: Field, value: string): Option<int> {
    match f
    case Key => ScanHex(value)
    case Pin => ScanDec(value)
    case Mode => if value == "OUTPUT" then Some(OUTPUT) else if value == "INPUT" then Some(INPUT) else None
    case Status => if value == "HIGH" then Some(HIGH) else if value == "LOW" then Some(LOW) else None
    case Face => Some(Atoi(value))
    case Voice => Some(Atoi(value))
  }

  /** The last meaningful setting of a field among these calls, 0 when there is none. */
  function LastReading(run: seq<Call>, f: Field): int
    requires AllValues(run)
  {
    if run == [] then 0 else
      var c := run[|run| - 1];
      assert c in run;
      if c.name == FieldName(f) && Reading(f, c.value.value).Some? then Reading(f, c.value.value).value
      else LastReading(run[..|run| - 1], f)
  }

  /** The names of the fields tell them apart. */
  lemma {:induction false} FieldNamesDiffer(f: Field, g: Field)
    requires FieldName(f) == FieldName(g)
    ensures f == g
  {
  }

  lemma {:induction false} AssignField(d: Device, name: string, value: string, f: Field)
    ensures Assign(d, name, value).name == d.name
    ensures Get(Assign(d, name, value), f)
            == if name == FieldName(f) && Reading(f, value).Some? then Reading(f, value).value else Get(d, f)
  {
  }

  /** The device that stands for a run of calls. */
  ghost predicate Describes(d: Device, run: seq<Call>)
    requires run != [] && AllValues(run)
  {
    d.name == run[0].section && forall f :: Get(d, f) == LastReading(run, f)
  }

  /** Head-first list against runs in file order. */
  ghost predicate Matches(list: seq<Device>, runs: seq<seq<Call>>) {
    && |list| == |runs|
    && forall i :: 0 <= i < |runs| ==>
         runs[i] != [] && AllValues(runs[i]) && SameSection(runs[i]) && Describes(list[|list| - 1 - i], runs[i])
  }

  lemma {:induction false} DescribesAdd(d: Device, run: seq<Call>, c: Call)
    requires AllValues(run) && c.value.Some?
    requires if run == [] then d == Blank(c.section) else Describes(d, run) && d.name == c.section
    ensures AllValues(run + [c]) && Describes(Assign(d, c.name, c.value.value), run + [c])
  {
    assert (run + [c])[..|run|] == run;
    forall f ensures Get(Assign(d, c.name, c.value.value), f) == LastReading(run + [c], f) {
      AssignField(d, c.name, c.value.value, f);
    }
    AssignField(d, c.name, c.value.value, Key);
  }

  ghost predicate AreRuns(runs: seq<seq<Call>>, calls: seq<Call>) {
    && Flatten(runs) == calls
    && (forall i :: 0 <= i < |runs| ==> runs[i] != [] && SameSection(runs[i]))
    && (forall i :: 0 <= i < |runs| - 1 ==> runs[i][0].section != runs[i + 1][0].section)
  }

  lemma {:induction false} FlattenLast(runs: seq<seq<Call>>)
    requires runs != [] && runs[|runs| - 1] != []
    ensures var calls, last := Flatten(runs), runs[|runs| - 1];
            calls != [] && calls[|calls| - 1] == last[|last| - 1]
  {
  }

  /** Runs are what they should be: the calls in order, one section each, neighbours different. */
  lemma {:induction false} RunsSpec(calls: seq<Call>)
    ensures AreRuns(Runs(calls), calls)
  {
    if calls != [] {
      var n := |calls| - 1;
      var before, c := Runs(calls[..n]), calls[n];
      RunsSpec(calls[..n]);
      assert calls == calls[..n] + [c];
      if before != [] {
        FlattenLast(before);
        var last := before[|before| - 1];
        assert last[|last| - 1] in last;
        if calls[n - 1].section == c.section {
          ExtendLast(before, c, calls[..n]);
        } else {
          AddRun(before, c, calls[..n]);
        }
      }
    }
  }

  lemma {:induction false} ExtendLast(runs: seq<seq<Call>>, c: Call, calls: seq<Call>)
    requires runs != [] && AreRuns(runs, calls) && runs[|runs| - 1][0].section == c.section
    ensures AreRuns(runs[..|runs| - 1] + [runs[|runs| - 1] + [c]], calls + [c])
  {
    var n := |runs| - 1;
    var longer := runs[..n] + [runs[n] + [c]];
    assert longer[..n] == runs[..n];
    assert Flatten(runs[..n]) + (runs[n] + [c]) == Flatten(runs[..n]) + runs[n] + [c];
  }

  lemma {:induction false} AddRun(runs: seq<seq<Call>>, c: Call, calls: seq<Call>)
    requires runs != [] && AreRuns(runs, calls) && runs[|runs| - 1][0].section != c.section
    ensures AreRuns(runs + [[c]], calls + [c])
  {
    assert (runs + [[c]])[..|runs|] == runs;
  }

  lemma {:induction false} BuildMatches(calls: seq<Call>)
    requires AllValues(calls)
    ensures Matches(Build(calls), Runs(calls))
  {
    if calls != [] {
      var n := |calls| - 1;
      assert calls[n] in calls;
      BuildMatches(calls[..n]);
      RunsSpec(calls[..n]);
      var list, runs, c := Build(calls[..n]), Runs(calls[..n]), calls[n];
      if runs == [] {
        NewHead(list, runs, c);
      } else {
        FlattenLast(runs);
        MatchesAdd(list, runs, c);
      }
    }
  }

  lemma {:induction false} MatchesAdd(list: seq<Device>, runs: seq<seq<Call>>, c: Call)
    requires Matches(list, runs) && runs != [] && c.value.Some?
    ensures var n, last := |runs| - 1, runs[|runs| - 1];
            Matches(Handle(list, c),
                    if last[|last| - 1].section == c.section then runs[..n] + [last + [c]] else runs + [[c]])
  {
    var last := runs[|runs| - 1];
    assert last[|last| - 1] in last;
    assert Describes(list[0], last);
    if last[|last| - 1].section == c.section {
      ExtendHead(list, runs, c);
    } else {
      NewHead(list, runs, c);
    }
  }

  lemma {:induction false} ExtendHead(list: seq<Device>, runs: seq<seq<Call>>, c: Call)
    requires Matches(list, runs) && runs != [] && c.value.Some? && list[0].name == c.section
    requires Describes(list[0], runs[|runs| - 1]) && runs[|runs| - 1][0].section == c.section
    ensures Matches(Handle(list, c), runs[..|runs| - 1] + [runs[|runs| - 1] + [c]])
  {
    DescribesAdd(list[0], runs[|runs| - 1], c);
    assert Handle(list, c) == [Assign(list[0], c.name, c.value.value)] + list[1..];
  }

  lemma {:induction false} NewHead(list: seq<Device>, runs: seq<seq<Call>>, c: Call)
    requires Matches(list, runs) && c.value.Some? && (list == [] || list[0].name != c.section)
    ensures Matches(Handle(list, c), runs + [[c]])
  {
    DescribesAdd(Blank(c.section), [], c);
    assert [] + [c] == [c];
    assert Handle(list, c) == [Assign(Blank(c.section), c.name, c.value.value)] + list;
  }

  /** After any handler calls, the list read from its tail has one device for each maximal run of
    * calls with the same section, neighbours have different names, and each field is the last
    * meaningful setting of its run, or 0. */
  lemma {:induction false} BuilderSemantics(calls: seq<Call>)
    requires AllValues(calls)
    ensures AreRuns(Runs(calls), calls)
    ensures Matches(Build(calls), Runs(calls))
    ensures var list := Build(calls); forall i :: 0 <= i < |list| - 1 ==> list[i].name != list[i + 1].name
  {
    RunsSpec(calls);
    BuildMatches(calls);
    NeighbourNames(Build(calls), Runs(calls), calls);
  }

  lemma {:induction false} NeighbourNames(list: seq<Device>, runs: seq<seq<Call>>, calls: seq<Call>)
    requires Matches(list, runs) && AreRuns(runs, calls)
    ensures forall i :: 0 <= i < |list| - 1 ==> list[i].name != list[i + 1].name
  {
    forall i | 0 <= i < |list| - 1 ensures list[i].name != list[i + 1].name {
      var j := |list| - 2 - i;
      assert Describes(list[|list| - 1 - j], runs[j]);
      assert Describes(list[|list| - 1 - (j + 1)], runs[j + 1]);
    }
  }

  // ---- Looking up a key

  /** The index of the first device with this key, None when there is none. */
  function Lookup(list: seq<Device>, key: int): Option<nat> {
    if list == [] then None
    else if list[0].key == key then Some(0)
    else match Lookup(list[1..], key) { case Some(i) => Some(i + 1) case None => None }
  }

  lemma {:induction false} LookupSpec(list: seq<Device>, key: int)
    ensures match Lookup(list, key)
            case Some(i) => i < |list| && list[i].key == key && forall j :: 0 <= j < i ==> list[j].key != key
            case None => forall j :: 0 <= j < |list| ==> list[j].key != key
  {
    if list != [] {
      LookupSpec(list[1..], key);
      assert forall j :: 1 <= j < |list| ==> list[j] == list[1..][j - 1];
    }
  }

  /** Only the keys matter. */
  lemma {:induction false} SameKeys(xs: seq<Device>, ys: seq<Device>, key: int)
    requires |xs| == |ys| && forall i :: 0 <= i < |xs| ==> xs[i].key == ys[i].key
    ensures Lookup(xs, key) == Lookup(ys, key)
  {
    if xs != [] {
      SameKeys(xs[1..], ys[1..], key);
    }
  }

  /** Looking up a key after any calls finds the device of the last run that sets this key, counting a
    * run without a readable key as 0, and finds none exactly when no run does. */
  lemma {:induction false} LookupFindsLastDefined(calls: seq<Call>, key: int)
    requires AllValues(calls)
    ensures Matches(Build(calls), Runs(calls))
    ensures var list, runs := Build(calls), Runs(calls);
            match Lookup(list, key)
            case Some(i) =>
              && i < |list| && LastReading(runs[|runs| - 1 - i], Key) == key
              && forall j :: |runs| - 1 - i < j < |runs| ==> LastReading(runs[j], Key) != key
            case None => forall j :: 0 <= j < |runs| ==> LastReading(runs[j], Key) != key
  {
    BuildMatches(calls);
    LookupSpec(Build(calls), key);
    KeysOfRuns(Build(calls), Runs(calls));
  }

  lemma {:induction false} KeysOfRuns(list: seq<Device>, runs: seq<seq<Call>>)
    requires Matches(list, runs)
    ensures forall j :: 0 <= j < |runs| ==> list[|list| - 1 - j].key == LastReading(runs[j], Key)
    ensures forall i :: 0 <= i < |list| ==> list[i].key == LastReading(runs[|runs| - 1 - i], Key)
  {
    forall j | 0 <= j < |runs| ensures list[|list| - 1 - j].key == LastReading(runs[j], Key) {
      assert Describes(list[|list| - 1 - j], runs[j]);
      assert Get(list[|list| - 1 - j], Key) == LastReading(runs[j], Key);
    }
    forall i | 0 <= i < |list| ensures list[i].key == LastReading(runs[|runs| - 1 - i], Key) {
      assert list[i] == list[|list| - 1 - (|runs| - 1 - i)];
    }
  }
}
