/** The device table in memory: a linked list whose head is compared with each incoming section,
  * searched by key, and whose devices drive the pins. Proved against module Devices. */
module DeviceList {
  import opened Text
  import opened Ini
  import opened Numbers
  import opened Devices
  import opened Delivered
  import IniParser

  class GDevice {
    var devName: string
    var key: int
    var gpioPin: int
    var gpioMode: int
    var gpioStatus: int
    var checkFaceStatus: int
    var voiceSetStatus: int
    var next: GDevice?

    /** A zeroed node with its name. The name buffer has 128 bytes. */
    constructor (name: string, next: GDevice?)
      requires |name| < DEV_NAME
      ensures Value() == Blank(name) && this.next == next
    {
      devName := name;
      key, gpioPin, gpioMode, gpioStatus, checkFaceStatus, voiceSetStatus := 0, 0, 0, 0, 0, 0;
      this.next := next;
    }

    function Value(): Device
      reads this
    {
      Device(devName, key, gpioPin, gpioMode, gpioStatus, checkFaceStatus, voiceSetStatus)
    }
  }

  /** The nodes form the chain that starts at `head`; no node occurs twice. */
  ghost predicate Chain(head: GDevice?, nodes: seq<GDevice>)
    reads nodes
  {
    if nodes == [] then head == null
    else head == nodes[0] && head !in nodes[1..] && Chain(head.next, nodes[1..])
  }

  function SetLevels(levels: map<int, int>, d: Device): map<int, int> {
    if d.pin != -1 && d.status != -1 then levels[d.pin := d.status] else levels
  }

  ghost function Values(nodes: seq<GDevice>): (r: seq<Device>)
    reads nodes
    ensures |r| == |nodes| && forall i :: 0 <= i < |r| ==> r[i] == nodes[i].Value()
  {
    if nodes == [] then [] else [nodes[0].Value()] + Values(nodes[1..])
  }

  /** The first device with this key, null when there is none. */
  method FindGdeviceByKey(pdevhead: GDevice?, key: int, ghost nodes: seq<GDevice>) returns (r: GDevice?)
    requires Chain(pdevhead, nodes)
    ensures match Lookup(Values(nodes), key)
            case None => r == null
            case Some(i) => i < |nodes| && r == nodes[i]
  {
    if pdevhead == null {
      return null;
    }
    var pcur := pdevhead;
    ghost var rest, i := nodes, 0;
    while pcur != null
      invariant Chain(pcur, rest) && i + |rest| == |nodes| && rest == nodes[i..]
      invariant Lookup(Values(nodes), key)
                == match Lookup(Values(rest), key) { case None => None case Some(k) => Some(i + k) }
      decreases |rest|
    {
      if pcur.key == key {
        return pcur;
      }
      pcur := pcur.next;
      rest, i := rest[1..], i + 1;
    }
    return null;
  }

  // ---- Status updates and pins

  function After(nodes: seq<GDevice>, i: nat): GDevice? {
    if i + 1 < |nodes| then nodes[i + 1] else null
  }

  /** The chain, position by position. */
  ghost predicate Linked(head: GDevice?, nodes: seq<GDevice>)
    reads nodes
  {
    && head == (if nodes == [] then null else nodes[0])
    && (forall i :: 0 <= i < |nodes| ==> nodes[i].next == After(nodes, i))
    && (forall i, j :: 0 <= i < j < |nodes| ==> nodes[i] != nodes[j])
  }

  lemma {:induction false} ChainLinks(head: GDevice?, nodes: seq<GDevice>)
    requires Chain(head, nodes)
    ensures Linked(head, nodes)
  {
    if nodes != [] {
      var rest := nodes[1..];
      ChainLinks(head.next, rest);
      forall i | 0 <= i < |nodes| ensures nodes[i].next == After(nodes, i) {
        if i > 0 { assert nodes[i] == rest[i - 1] && After(nodes, i) == After(rest, i - 1); }
      }
      forall i, j | 0 <= i < j < |nodes| ensures nodes[i] != nodes[j] {
        assert nodes[j] == rest[j - 1] && nodes[j] in rest;
        if i > 0 { assert nodes[i] == rest[i - 1]; }
      }
    }
  }

  lemma {:induction false} LinkedChain(head: GDevice?, nodes: seq<GDevice>)
    requires Linked(head, nodes)
    ensures Chain(head, nodes)
  {
    if nodes != [] {
      var rest := nodes[1..];
      assert nodes[0].next == After(nodes, 0);
      forall i | 0 <= i < |rest| ensures rest[i].next == After(rest, i) {
        assert rest[i] == nodes[i + 1] && After(rest, i) == After(nodes, i + 1);
      }
      assert forall i, j :: 0 <= i < j < |rest| ==> rest[i] == nodes[i + 1] && rest[j] == nodes[j + 1];
      assert head !in rest;
      LinkedChain(head.next, rest);
    }
  }

  /** The pins as the program has set them: pin numbers to modes and levels. */
  class Pins {
    var modes: map<int, int>
    var levels: map<int, int>

    method PinMode(pin: int, mode: int)
      modifies this`modes
      ensures modes == old(modes)[pin := mode]
    {
      modes := modes[pin := mode];
    }

    method DigitalWrite(pin: int, level: int)
      modifies this`levels
      ensures levels == old(levels)[pin := level]
    {
      levels := levels[pin := level];
    }

    /** Sets mode and level of the device's pin; -1 in a field leaves that aspect alone. */
    method SetGpioGdeviceStatus(pdev: GDevice?) returns (ret: int)
      modifies this
      ensures ret == if pdev == null then -1 else 0
      ensures pdev == null ==> modes == old(modes) && levels == old(levels)
      ensures pdev != null ==>
                && levels == SetLevels(old(levels), pdev.Value())
                && levels == (if pdev.gpioPin != -1 && pdev.gpioStatus != -1
                              then old(levels)[pdev.gpioPin := pdev.gpioStatus] else old(levels))
                && modes == if pdev.gpioPin != -1 && pdev.gpioMode != -1
                            then old(modes)[pdev.gpioPin := pdev.gpioMode] else old(modes)
    {
      if pdev == null {
        return -1;
      }
      if pdev.gpioPin != -1 {
        if pdev.gpioMode != -1 {
          PinMode(pdev.gpioPin, pdev.gpioMode);
        }
        if pdev.gpioStatus != -1 {
          DigitalWrite(pdev.gpioPin, pdev.gpioStatus);
        }
      }
      return 0;
    }
  }

  /** The static list head that the handler fills. */
  class DeviceTable {
    var pdevhead: GDevice?
    ghost var nodes: seq<GDevice>

    ghost predicate Valid()
      reads this, nodes
    {
      Chain(pdevhead, nodes)
    }

    ghost function Devices(): seq<Device>
      reads this, nodes
    {
      Values(nodes)
    }

    constructor ()
      ensures Valid() && nodes == [] && Devices() == []
    {
      pdevhead, nodes := null, [];
    }

    /** The section is the head's device, or a new device in front of it. */
    method OpenSection(section: string)
      requires Valid() && |section| < DEV_NAME
      modifies this
      ensures Valid() && nodes != []
      ensures var list := old(Devices());
              Devices() == if list == [] || list[0].name != section then [Blank(section)] + list else list
      ensures nodes == old(nodes) || (fresh(nodes[0]) && nodes[1..] == old(nodes))
    {
      if pdevhead == null || section != pdevhead.devName {
        var pdev := new GDevice(section, pdevhead);
        assert ([pdev] + nodes)[1..] == nodes;
        pdevhead := pdev;
        nodes := [pdev] + nodes;
      }
    }

    /** The parser's handler: the setting goes to the device of the section. */
    method GdeviceIniHandler(section: string, name: string, value: string) returns (ok: int)
      requires Valid() && |section| < DEV_NAME
      modifies this, nodes
      ensures Valid() && ok == 1
      ensures Devices() == Handle(old(Devices()), Call(section, name, Some(value)))
      ensures nodes == old(nodes) || (fresh(nodes[0]) && nodes[1..] == old(nodes))
    {
      OpenSection(section);
      ghost var list := Devices();
      AssignField(pdevhead, section, name, value);
      assert Devices() == [Assign(list[0], name, value)] + list[1..];
      ok := 1;
    }

    /** The assignment to one field of the head. */
    static method AssignField(pdev: GDevice, section: string, name: string, value: string)
      requires pdev.devName == section
      modifies pdev
      ensures pdev.Value() == Assign(old(pdev.Value()), name, value) && pdev.next == old(pdev.next)
      ensures name == "key" ==> pdev.key == ScanHex(value).UnwrapOr(old(pdev.key))
      ensures name == "gpio_pin" ==> pdev.gpioPin == ScanDec(value).UnwrapOr(old(pdev.gpioPin))
      ensures name == "gpio_mode" ==>
                pdev.gpioMode == if value == "OUTPUT" then 1 else if value == "INPUT" then 0 else old(pdev.gpioMode)
      ensures name == "gpio_status" ==>
                pdev.gpioStatus == if value == "HIGH" then 1 else if value == "LOW" then 0 else old(pdev.gpioStatus)
      ensures name == "check_face_status" ==> pdev.checkFaceStatus == Atoi(value)
      ensures name == "voice_set_status" ==> pdev.voiceSetStatus == Atoi(value)
    {
      if section == pdev.devName && name == "key" {
        var n := ScanHex(value);
        if n.Some? { pdev.key := n.value; }
      } else if section == pdev.devName && name == "gpio_pin" {
        var n := ScanDec(value);
        if n.Some? { pdev.gpioPin := n.value; }
      } else if section == pdev.devName && name == "gpio_mode" {
        if value == "OUTPUT" { pdev.gpioMode := OUTPUT; } else if value == "INPUT" { pdev.gpioMode := INPUT; }
      } else if section == pdev.devName && name == "gpio_status" {
        if value == "HIGH" { pdev.gpioStatus := HIGH; } else if value == "LOW" { pdev.gpioStatus := LOW; }
      } else if section == pdev.devName && name == "check_face_status" {
        pdev.checkFaceStatus := Atoi(value);
      } else if section == pdev.devName && name == "voice_set_status" {
        pdev.voiceSetStatus := Atoi(value);
      }
    }
  }

  /** What a message does to the list: the first device with its key gets the new status. */
  function UpdateStatus(list: seq<Device>, key: int, status: int): (r: seq<Device>)
    ensures |r| == |list|
  {
    match Lookup(list, key)
    case None => list
    case Some(i) => LookupSpec(list, key); list[i := list[i].(status := status)]
  }

  /** A status update leaves every key and the order of the list alone, and every other device. */
  lemma {:induction false} UpdateKeepsTheRest(list: seq<Device>, key: int, status: int, other: int)
    ensures var r := UpdateStatus(list, key, status);
            && (forall i :: 0 <= i < |list| ==> r[i] == list[i].(status := r[i].status))
            && (forall i :: 0 <= i < |list| && Lookup(list, key) != Some(i) ==> r[i] == list[i])
            && (forall i :: 0 <= i < |list| && Lookup(list, key) == Some(i) ==> r[i].status == status)
            && Lookup(r, other) == Lookup(list, other)
  {
    LookupSpec(list, key);
    SameKeys(list, UpdateStatus(list, key, status), other);
  }

  /** The first thing a handler thread does with a message: find the device and store the status. */
  method StoreStatus(table: DeviceTable, key: int, value: int) returns (pdev: GDevice?)
    requires table.Valid()
    modifies table.nodes
    ensures table.Valid() && table.nodes == old(table.nodes)
    ensures table.Devices() == UpdateStatus(old(table.Devices()), key, if value == 0 then LOW else HIGH)
    ensures match Lookup(table.Devices(), key)
            case None => pdev == null
            case Some(i) => i < |table.nodes| && pdev == table.nodes[i]
  {
    pdev := FindGdeviceByKey(table.pdevhead, key, table.nodes);
    ghost var list, head := table.Devices(), table.pdevhead;
    UpdateKeepsTheRest(list, key, if value == 0 then LOW else HIGH, key);
    if pdev != null {
      StoreInNode(pdev, value, head, table.nodes, Lookup(list, key).value);
    }
  }

  method StoreInNode(pdev: GDevice, value: int, ghost head: GDevice?, ghost nodes: seq<GDevice>, ghost i: nat)
    requires Chain(head, nodes) && i < |nodes| && pdev == nodes[i]
    modifies pdev
    ensures Chain(head, nodes)
    ensures Values(nodes)
            == old(Values(nodes))[i := old(pdev.Value()).(status := if value == 0 then LOW else HIGH)]
  {
    ChainLinks(head, nodes);
    ghost var was := Values(nodes);
    pdev.gpioStatus := if value == 0 then LOW else HIGH;
    LinkedChain(head, nodes);
  }

  // ---- From the text to the list

  /** The device handler's answers: it accepts every call. */
  function AlwaysOne(): Handler {
    (calls: seq<Call>) => true
  }

  /** Reading the configuration: the handler is called for every pair of the text. */
  method ReceiveInit(cfg: Config, text: string) returns (error: nat, table: DeviceTable)
    requires cfg.Valid() && NulFree(text) && !cfg.syntax.allowNoValue
    ensures table.Valid() && AllValues(Parse(cfg, AlwaysOne(), text).calls)
    ensures error == Parse(cfg, AlwaysOne(), text).error
    ensures table.Devices() == Build(Parse(cfg, AlwaysOne(), text).calls)
  {
    var calls;
    error, calls := IniParser.ParseString(cfg, text, AlwaysOne());
    DeliveredText(cfg, AlwaysOne(), text);
    ValuesPresent(cfg, AlwaysOne(), text);
    table := HandleCalls(calls);
  }

  /** The handler calls one after the other. */
  method HandleCalls(calls: seq<Call>) returns (table: DeviceTable)
    requires AllValues(calls) && forall c :: c in calls ==> |c.section| < DEV_NAME
    ensures table.Valid() && table.Devices() == Build(calls)
  {
    table := new DeviceTable();
    var i := 0;
    while i < |calls|
      invariant 0 <= i <= |calls| && table.Valid() && fresh(table) && fresh(table.nodes)
      invariant table.Devices() == Build(calls[..i])
    {
      var c := calls[i];
      assert c in calls;
      BuildOne(calls, i);
      var _ := table.GdeviceIniHandler(c.section, c.name, c.value.value);
      i := i + 1;
    }
    assert calls[..|calls|] == calls;
  }

  lemma {:induction false} BuildOne(calls: seq<Call>, i: nat)
    requires AllValues(calls) && i < |calls|
    ensures calls[i] in calls && AllValues(calls[..i]) && AllValues(calls[..i + 1])
    ensures Build(calls[..i + 1]) == Handle(Build(calls[..i]), calls[i])
  {
    assert calls[i] in calls && calls[..i + 1][..i] == calls[..i];
  }
}
