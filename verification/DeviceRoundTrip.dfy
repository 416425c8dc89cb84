/** From a device table to INI text and back: printing a table, parsing the text, and letting the
  * handler build its list. */
module DeviceRoundTrip {
  import opened Text
  import opened Ini
  import opened Runs
  import opened Grammar
  import opened Writer
  import opened Delivered
  import opened Numbers
  import opened Scanning
  import opened Devices
  import opened DeviceList

  /** Every value that a table read from a file can hold. */
  predicate InDomain(d: Device) {
    && IsInt(d.key) && IsInt(d.pin) && IsInt(d.face) && IsInt(d.voice)
    && (d.mode == INPUT || d.mode == OUTPUT) && (d.status == LOW || d.status == HIGH)
  }

  /** The order of the settings in the configuration file. */
  const FIELDS := [Key, Pin, Mode, Status, Face, Voice]

  function Shown(d: Device, f: Field): string
    requires InDomain(d)
  {
    match f
    case Key => PrintHex(d.key)
    case Pin => PrintDec(d.pin)
    case Mode => if d.mode == OUTPUT then "OUTPUT" else "INPUT"
    case Status => if d.status == HIGH then "HIGH" else "LOW"
    case Face => PrintDec(d.face)
    case Voice => PrintDec(d.voice)
  }

  function SettingsOf(d: Device, fields: seq<Field>): seq<(string, string)>
    requires InDomain(d)
  {
    if fields == [] then [] else [(FieldName(fields[0]), Shown(d, fields[0]))] + SettingsOf(d, fields[1..])
  }

  function Settings(d: Device): seq<(string, string)>
    requires InDomain(d)
  {
    SettingsOf(d, FIELDS)
  }

  function PairStmts(ps: seq<(string, string)>): (r: seq<Stmt>)
    ensures |r| == |ps|
  {
    if ps == [] then [] else [PairStmt(ps[0].0, ps[0].1)] + PairStmts(ps[1..])
  }

  /** A table as a document: a section for each device. */
  function TableStmts(devs: seq<Device>): seq<Stmt>
    requires forall d :: d in devs ==> InDomain(d)
  {
    if devs == [] then [] else
      [HeaderStmt(devs[0].name)] + (PairStmts(Settings(devs[0])) + TableStmts(devs[1..]))
  }

  function SettingCalls(section: string, ps: seq<(string, string)>): (calls: seq<Call>)
    ensures AllValues(calls)
  {
    if ps == [] then [] else [Call(section, ps[0].0, Some(ps[0].1))] + SettingCalls(section, ps[1..])
  }

  function TableCalls(devs: seq<Device>): (calls: seq<Call>)
    requires forall d :: d in devs ==> InDomain(d)
    ensures AllValues(calls)
  {
    if devs == [] then [] else SettingCalls(devs[0].name, Settings(devs[0])) + TableCalls(devs[1..])
  }

  // ---- The calls that the document leads to

  lemma {:induction false} ExpectedSettings(section: string, open: string, ps: seq<(string, string)>, rest: seq<Stmt>)
    requires rest == [] || rest[0].HeaderStmt?
    ensures Expected(section, open, PairStmts(ps) + rest) == SettingCalls(section, ps) + Expected(section, "", rest)
    decreases |ps|
  {
    if ps == [] {
      assert PairStmts(ps) + rest == rest;
      ExpectedOpen(section, open, rest);
    } else {
      var more := PairStmts(ps[1..]) + rest;
      ExpectedSettings(section, Take(ps[0].0, MAX_NAME - 1), ps[1..], rest);
      ExpectedPair(section, open, ps[0], more);
      ConsAssoc(PairStmt(ps[0].0, ps[0].1), PairStmts(ps[1..]), rest);
      ConsAssoc(Call(section, ps[0].0, Some(ps[0].1)), SettingCalls(section, ps[1..]), Expected(section, "", rest));
    }
  }

  lemma {:induction false} ConsAssoc<T>(x: T, ys: seq<T>, zs: seq<T>)
    ensures [x] + ys + zs == [x] + (ys + zs)
  {
  }

  /** A header closes the open name. */
  lemma {:induction false} ExpectedOpen(section: string, open: string, rest: seq<Stmt>)
    requires rest == [] || rest[0].HeaderStmt?
    ensures Expected(section, open, rest) == Expected(section, "", rest)
  {
  }

  lemma {:induction false} ExpectedPair(section: string, open: string, p: (string, string), doc: seq<Stmt>)
    ensures Expected(section, open, [PairStmt(p.0, p.1)] + doc)
            == [Call(section, p.0, Some(p.1))] + Expected(section, Take(p.0, MAX_NAME - 1), doc)
  {
    assert ([PairStmt(p.0, p.1)] + doc)[1..] == doc;
  }

  lemma {:induction false} ExpectedTable(section: string, open: string, devs: seq<Device>)
    requires forall d :: d in devs ==> InDomain(d)
    ensures Expected(section, open, TableStmts(devs)) == TableCalls(devs)
    decreases |devs|
  {
    if devs != [] {
      var d := devs[0];
      var doc := TableStmts(devs);
      assert doc[1..] == PairStmts(Settings(d)) + TableStmts(devs[1..]);
      ExpectedSettings(d.name, "", Settings(d), TableStmts(devs[1..]));
      ExpectedTable(d.name, "", devs[1..]);
    }
  }

  // ---- The document can be written

  /** Characters that neither end a search nor start a comment, and are no space and no NUL. */
  predicate PlainText(s: string) {
    s != "" && forall c :: c in s ==> !IsSpace(c) && c != NUL && c != '=' && c != ':'
  }

  lemma {:induction false} PlainIsClean(syn: Syntax, s: string)
    requires PlainText(s)
    ensures Without(s, "=:") && Uncommented(syn, s) && Clean(s)
  {
    forall i | 0 <= i < |s| ensures !IsSpace(s[i]) {
      assert s[i] in s;
    }
  }

  lemma {:induction false} PlainDigits(s: string, base: Base)
    requires s != "" && IsNumber(s, base)
    ensures PlainText(s)
  {
  }

  lemma {:induction false} PlainJoin(s: string, t: string)
    requires PlainText(s) && PlainText(t)
    ensures PlainText(s + t)
  {
  }

  lemma {:induction false} PlainDec(x: int)
    requires IsInt(x)
    ensures PlainText(PrintDec(x))
  {
    var n := if x < 0 then -x else x;
    PrintedDigits(n, Decimal);
    PlainDigits(PrintNat(n, Decimal), Decimal);
    PlainJoin("-", PrintNat(n, Decimal));
  }

  lemma {:induction false} PlainHex(x: int)
    requires IsInt(x)
    ensures PlainText(PrintHex(x))
  {
    var n := if x < 0 then x + TWO_32 else x;
    PrintedDigits(n, Hexadecimal);
    PlainDigits(PrintNat(n, Hexadecimal), Hexadecimal);
    PlainJoin("0x", PrintNat(n, Hexadecimal));
  }

  predicate PlainPair(p: (string, string)) {
    PlainText(p.0) && p.0[0] in "kgcv" && PlainText(p.1)
  }

  lemma {:induction false} PlainField(d: Device, f: Field)
    requires InDomain(d)
    ensures PlainPair((FieldName(f), Shown(d, f)))
  {
    PlainName(f);
    match f
    case Key => PlainHex(d.key);
    case Pin => PlainDec(d.pin);
    case Mode =>
    case Status =>
    case Face => PlainDec(d.face);
    case Voice => PlainDec(d.voice);
  }

  lemma {:induction false} PlainName(f: Field)
    ensures PlainText(FieldName(f)) && FieldName(f)[0] in "kgcv"
  {
  }

  lemma {:induction false} PlainSettings(d: Device, fields: seq<Field>)
    requires InDomain(d)
    ensures forall p :: p in SettingsOf(d, fields) ==> PlainPair(p)
  {
    if fields != [] {
      PlainField(d, fields[0]);
      PlainSettings(d, fields[1..]);
    }
  }

  /** The comment prefixes leave the setting names alone. */
  predicate PlainSyntax(syn: Syntax) {
    forall c :: c in "kgcv" ==> c !in syn.startPrefixes
  }

  lemma {:induction false} WritableSettings(syn: Syntax, open: bool, ps: seq<(string, string)>, rest: seq<Stmt>)
    requires PlainSyntax(syn) && forall p :: p in ps ==> PlainPair(p)
    requires rest == [] || rest[0].HeaderStmt?
    requires WritableDoc(syn, false, rest)
    ensures WritableDoc(syn, open, PairStmts(ps) + rest)
    decreases |ps|
  {
    var doc := PairStmts(ps) + rest;
    if ps == [] {
      assert doc == rest;
    } else {
      var p := ps[0];
      assert p in ps && PlainPair(p);
      PlainIsClean(syn, p.0);
      PlainIsClean(syn, p.1);
      assert (p.0 + "=")[0] == p.0[0] && p.0[0] in p.0;
      assert Writable(syn, open, PairStmt(p.0, p.1));
      WritableSettings(syn, Opens(open, Meaning(doc[0])), ps[1..], rest);
      assert doc[1..] == PairStmts(ps[1..]) + rest;
    }
  }

  lemma {:induction false} WritableTable(syn: Syntax, open: bool, devs: seq<Device>)
    requires PlainSyntax(syn)
    requires forall d :: d in devs ==> InDomain(d) && Writable(syn, false, HeaderStmt(d.name))
    ensures WritableDoc(syn, open, TableStmts(devs))
    decreases |devs|
  {
    if devs != [] {
      var d, rest, doc := devs[0], devs[1..], TableStmts(devs);
      assert d in devs;
      WritableTable(syn, false, rest);
      PlainSettings(d, FIELDS);
      WritableSettings(syn, false, Settings(d), TableStmts(rest));
      assert doc[1..] == PairStmts(Settings(d)) + TableStmts(rest);
    }
  }

  // ---- The list that the calls build

  function HandleAll(list: seq<Device>, calls: seq<Call>): seq<Device>
    requires AllValues(calls)
    decreases |calls|
  {
    if calls == [] then list else
      assert calls[0] in calls;
      HandleAll(Handle(list, calls[0]), calls[1..])
  }

  lemma {:induction false} MoveOne<T>(xs: seq<T>, ys: seq<T>)
    requires ys != []
    ensures xs + [ys[0]] + ys[1..] == xs + ys
  {
  }

  lemma {:induction false} BuildAppend(calls: seq<Call>, more: seq<Call>)
    requires AllValues(calls) && AllValues(more)
    ensures Build(calls + more) == HandleAll(Build(calls), more)
    decreases |more|
  {
    if more == [] {
      assert calls + more == calls;
    } else {
      assert more[0] in more;
      BuildAppend(calls + [more[0]], more[1..]);
      MoveOne(calls, more);
    }
  }

  function AssignAll(d: Device, ps: seq<(string, string)>): Device
    decreases |ps|
  {
    if ps == [] then d else AssignAll(Assign(d, ps[0].0, ps[0].1), ps[1..])
  }

  lemma {:induction false} HandleSettings(list: seq<Device>, ps: seq<(string, string)>)
    requires list != []
    ensures HandleAll(list, SettingCalls(list[0].name, ps)) == [AssignAll(list[0], ps)] + list[1..]
    decreases |ps|
  {
    if ps != [] {
      var list' := Handle(list, Call(list[0].name, ps[0].0, Some(ps[0].1)));
      AssignField(list[0], ps[0].0, ps[0].1, Key);
      HandleSettings(list', ps[1..]);
    }
  }

  /** What is shown of a field is read back as its value. */
  lemma {:induction false} ReadingShown(d: Device, f: Field)
    requires InDomain(d)
    ensures Reading(f, Shown(d, f)) == Some(Get(d, f))
  {
    HexRoundTrip(d.key);
    DecRoundTrip(d.pin);
    DecRoundTrip(d.face);
    DecRoundTrip(d.voice);
  }

  /** Reading settings back, in any order, copies exactly the fields that were shown. */
  lemma {:induction false} AssignSettings(acc: Device, d: Device, fields: seq<Field>, g: Field)
    requires InDomain(d)
    ensures var r := AssignAll(acc, SettingsOf(d, fields));
            r.name == acc.name && Get(r, g) == if g in fields then Get(d, g) else Get(acc, g)
    decreases |fields|
  {
    if fields != [] {
      var f := fields[0];
      var next := Assign(acc, FieldName(f), Shown(d, f));
      ReadingShown(d, f);
      AssignField(acc, FieldName(f), Shown(d, f), g);
      if FieldName(f) == FieldName(g) { FieldNamesDiffer(f, g); }
      AssignSettings(next, d, fields[1..], g);
    }
  }

  lemma {:induction false} AssignAllSettings(d: Device)
    requires InDomain(d)
    ensures AssignAll(Blank(d.name), Settings(d)) == d
  {
    AssignSettings(Blank(d.name), d, FIELDS, Key);
    AssignSettings(Blank(d.name), d, FIELDS, Pin);
    AssignSettings(Blank(d.name), d, FIELDS, Mode);
    AssignSettings(Blank(d.name), d, FIELDS, Status);
    AssignSettings(Blank(d.name), d, FIELDS, Face);
    AssignSettings(Blank(d.name), d, FIELDS, Voice);
  }

  predicate NeighboursDiffer(devs: seq<Device>) {
    forall i :: 0 <= i < |devs| - 1 ==> devs[i].name != devs[i + 1].name
  }

  /** The calls for one device put that device in front, unless the head already has its name. */
  lemma {:induction false} HandleDevice(list: seq<Device>, d: Device)
    requires InDomain(d) && (list == [] || list[0].name != d.name)
    ensures HandleAll(list, SettingCalls(d.name, Settings(d))) == [d] + list
  {
    var calls, opened' := SettingCalls(d.name, Settings(d)), [Blank(d.name)] + list;
    HandleSettings(opened', Settings(d));
    AssignAllSettings(d);
    assert opened'[1..] == list;
    assert Handle(list, calls[0]) == Handle(opened', calls[0]);
  }

  lemma {:induction false} HandleAppend(list: seq<Device>, calls: seq<Call>, more: seq<Call>)
    requires AllValues(calls) && AllValues(more)
    ensures AllValues(calls + more) && HandleAll(list, calls + more) == HandleAll(HandleAll(list, calls), more)
    decreases |calls|
  {
    if calls == [] {
      assert calls + more == more;
    } else {
      assert (calls + more)[0] == calls[0] && (calls + more)[1..] == calls[1..] + more;
      HandleFirst(list, calls);
      HandleAppend(Handle(list, calls[0]), calls[1..], more);
      HandleFirst(list, calls + more);
    }
  }

  lemma {:induction false} HandleFirst(list: seq<Device>, calls: seq<Call>)
    requires AllValues(calls) && calls != []
    ensures calls[0].value.Some? && AllValues(calls[1..])
    ensures HandleAll(list, calls) == HandleAll(Handle(list, calls[0]), calls[1..])
  {
    assert calls[0] in calls;
  }

  lemma {:induction false} HandleTable(list: seq<Device>, devs: seq<Device>)
    requires forall d :: d in devs ==> InDomain(d)
    requires NeighboursDiffer(devs) && (list != [] && devs != [] ==> list[0].name != devs[0].name)
    ensures HandleAll(list, TableCalls(devs)) == Reverse(devs) + list
    decreases |devs|
  {
    if devs != [] {
      var d, rest := devs[0], devs[1..];
      HandleAppend(list, SettingCalls(d.name, Settings(d)), TableCalls(rest));
      HandleDevice(list, d);
      forall i | 0 <= i < |rest| - 1 ensures rest[i].name != rest[i + 1].name {
        assert devs[i + 1].name != devs[i + 2].name;
      }
      assert rest != [] ==> devs[0].name != devs[1].name;
      HandleTable([d] + list, rest);
      assert Reverse(rest) + [d] + list == Reverse(rest) + ([d] + list);
    }
  }

  lemma {:induction false} ReverseAt<T>(s: seq<T>, i: nat)
    requires i < |s|
    ensures Reverse(s)[i] == s[|s| - 1 - i]
  {
    if i < |s| - 1 { ReverseAt(s[1..], i); }
  }

  /** Printing a device table and parsing the text makes the handler build the table reversed, every
    * field equal, if and only if neighbouring devices have different names. */
  lemma {:induction false} TableRoundTrip(cfg: Config, h: Handler, devs: seq<Device>)
    requires cfg.Valid() && PlainSyntax(cfg.syntax) && forall calls :: h(calls)
    requires forall d :: d in devs ==> InDomain(d) && Writable(cfg.syntax, false, HeaderStmt(d.name))
    requires Fits(cfg.Capacity(), TableStmts(devs))
    ensures var st := Parse(cfg, h, Print(TableStmts(devs)));
            && st.error == 0 && AllValues(st.calls)
            && (Build(st.calls) == Reverse(devs) <==> NeighboursDiffer(devs))
  {
    WritableTable(cfg.syntax, false, devs);
    HeaderIsNoBom(devs);
    RoundTrip(cfg, h, TableStmts(devs));
    ExpectedTable("", "", devs);
    BuildTableIff(devs);
  }

  lemma {:induction false} BuildTableIff(devs: seq<Device>)
    requires forall d :: d in devs ==> InDomain(d)
    ensures Build(TableCalls(devs)) == Reverse(devs) <==> NeighboursDiffer(devs)
  {
    if NeighboursDiffer(devs) {
      BuildTable(devs);
    }
    if Build(TableCalls(devs)) == Reverse(devs) {
      BuilderSemantics(TableCalls(devs));
      assert NeighboursDiffer(Build(TableCalls(devs)));
      ReversedNeighbours(devs);
    }
  }

  lemma {:induction false} BuildTable(devs: seq<Device>)
    requires forall d :: d in devs ==> InDomain(d)
    requires NeighboursDiffer(devs)
    ensures Build(TableCalls(devs)) == Reverse(devs)
  {
    BuildAppend([], TableCalls(devs));
    assert [] + TableCalls(devs) == TableCalls(devs);
    HandleTable([], devs);
  }

  lemma {:induction false} ReversedNeighbours(devs: seq<Device>)
    requires NeighboursDiffer(Reverse(devs))
    ensures NeighboursDiffer(devs)
  {
    forall i | 0 <= i < |devs| - 1 ensures devs[i].name != devs[i + 1].name {
      ReverseAt(devs, |devs| - 1 - i);
      ReverseAt(devs, |devs| - 2 - i);
    }
  }

  lemma {:induction false} HeaderIsNoBom(devs: seq<Device>)
    requires forall d :: d in devs ==> InDomain(d)
    ensures devs != [] ==> !(BOM <= PrintLine(TableStmts(devs)[0]))
  {
    if devs != [] {
      assert PrintLine(TableStmts(devs)[0])[0] == '[';
    }
  }

  // ---- With the parser's default flags

  function Power10(k: nat): nat {
    if k == 0 then 1 else 10 * Power10(k - 1)
  }

  /** A number below 10^k takes at most k digits in either base. */
  lemma {:induction false} PrintedLength(n: nat, base: Base, k: nat)
    requires k >= 1 && n < Power10(k)
    ensures |PrintNat(n, base)| <= k
    decreases k
  {
    if n >= Size(base) {
      DivMod(n, base);
      PrintedLength(Quotient(n, base), base, k - 1);
    }
  }

  lemma {:induction false} ShownLength(d: Device, f: Field)
    requires InDomain(d)
    ensures |FieldName(f)| + |Shown(d, f)| <= 29
  {
    assert Power10(5) == 100000;
    assert Power10(10) == 10000000000;
    match f
    case Key => PrintedLength(if d.key < 0 then d.key + TWO_32 else d.key, Hexadecimal, 10);
    case Pin => PrintedLength(if d.pin < 0 then -d.pin else d.pin, Decimal, 10);
    case Mode =>
    case Status =>
    case Face => PrintedLength(if d.face < 0 then -d.face else d.face, Decimal, 10);
    case Voice => PrintedLength(if d.voice < 0 then -d.voice else d.voice, Decimal, 10);
  }

  lemma {:induction false} SettingsFit(d: Device, fields: seq<Field>, max: int)
    requires InDomain(d) && max >= 32
    ensures Fits(max, PairStmts(SettingsOf(d, fields)))
  {
    if fields != [] {
      ShownLength(d, fields[0]);
      SettingsFit(d, fields[1..], max);
    }
  }

  lemma {:induction false} TableFits(devs: seq<Device>, max: int)
    requires max >= 53
    requires forall d :: d in devs ==> InDomain(d) && |d.name| <= MAX_SECTION - 1
    ensures Fits(max, TableStmts(devs))
  {
    if devs != [] {
      assert devs[0] in devs;
      SettingsFit(devs[0], FIELDS, max);
      TableFits(devs[1..], max);
    }
  }

  /** With the default flags the round trip needs nothing but names that fit a header, and devices of
    * which no two neighbours share a name. */
  lemma {:induction false} DefaultTableRoundTrip(devs: seq<Device>, h: Handler)
    requires forall calls :: h(calls)
    requires forall d :: d in devs ==> InDomain(d) && Writable(DEFAULT_SYNTAX, false, HeaderStmt(d.name))
    ensures var st := Parse(DEFAULT_CONFIG, h, Print(TableStmts(devs)));
            && st.error == 0 && AllValues(st.calls)
            && (Build(st.calls) == Reverse(devs) <==> NeighboursDiffer(devs))
  {
    TableFits(devs, DEFAULT_CONFIG.Capacity());
    TableRoundTrip(DEFAULT_CONFIG, h, devs);
  }

  // ---- All the way to the linked list

  lemma {:induction false} PrintedPairsNulFree(ps: seq<(string, string)>, rest: seq<Stmt>)
    requires forall p :: p in ps ==> PlainPair(p)
    requires NulFree(Print(rest))
    ensures NulFree(Print(PairStmts(ps) + rest))
  {
    var doc := PairStmts(ps) + rest;
    if ps == [] {
      assert doc == rest;
    } else {
      assert ps[0] in ps && PlainPair(ps[0]);
      PrintedPairsNulFree(ps[1..], rest);
      assert doc[0] == PairStmt(ps[0].0, ps[0].1) && doc[1..] == PairStmts(ps[1..]) + rest;
      NulFreeLine(ps[0].0, "=", ps[0].1);
    }
  }

  lemma {:induction false} NulFreeLine(a: string, b: string, c: string)
    requires NulFree(a) && NulFree(b) && NulFree(c)
    ensures NulFree(a + b + c)
  {
  }

  /** The printed table is a C string. */
  lemma {:induction false} PrintedTableNulFree(devs: seq<Device>)
    requires forall d :: d in devs ==> InDomain(d) && NulFree(d.name)
    ensures NulFree(Print(TableStmts(devs)))
  {
    if devs != [] {
      var d, rest := devs[0], devs[1..];
      assert d in devs;
      PrintedTableNulFree(rest);
      PlainSettings(d, FIELDS);
      PrintedPairsNulFree(Settings(d), TableStmts(rest));
      assert TableStmts(devs)[1..] == PairStmts(Settings(d)) + TableStmts(rest);
      NulFreeLine("[", d.name, "]");
    }
  }

  /** The table printed, parsed in place, and built in memory: the linked list is the table reversed, if
    * and only if neighbouring devices have different names. */
  method RestoreTable(cfg: Config, devs: seq<Device>) returns (error: nat, table: DeviceTable)
    requires cfg.Valid() && PlainSyntax(cfg.syntax) && !cfg.syntax.allowNoValue
    requires forall d :: d in devs ==>
               InDomain(d) && NulFree(d.name) && Writable(cfg.syntax, false, HeaderStmt(d.name))
    requires Fits(cfg.Capacity(), TableStmts(devs))
    ensures table.Valid() && error == 0
    ensures table.Devices() == Reverse(devs) <==> NeighboursDiffer(devs)
  {
    PrintedTableNulFree(devs);
    TableRoundTrip(cfg, AlwaysOne(), devs);
    error, table := ReceiveInit(cfg, Print(TableStmts(devs)));
  }
}
