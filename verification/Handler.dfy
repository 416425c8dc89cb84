/** One handler thread that runs undisturbed: its code, and the proof that the step system, when only
  * this thread moves, does the same. */
module Handler {
  import opened Ini
  import opened Devices
  import opened DeviceList
  import opened Runtime
  import opened FaceGate

  /** What the thread leaves behind: the devices, the pins, and the key byte of the message. */
  datatype Outcome = Outcome(devs: seq<Device>, modes: map<int, int>, levels: map<int, int>, key: int)

  function SetModes(modes: map<int, int>, d: Device): map<int, int> {
    if d.pin != -1 && d.mode != -1 then modes[d.pin := d.mode] else modes
  }

  /** Storing a status and setting the pin to it. */
  function Drive(o: Outcome, i: nat, status: int): Outcome
    requires i < |o.devs|
  {
    var d := o.devs[i].(status := status);
    o.(devs := o.devs[i := d], modes := SetModes(o.modes, d), levels := SetLevels(o.levels, d))
  }

  /** The effect of a message whose key belongs to device `i`: without face check the pin takes the
    * level; with it, only a score above 0.5 moves the pin, which is raised again after the delay. */
  function Handled(o: Outcome, i: nat, value: int, score: real): Outcome
    requires i < |o.devs|
  {
    if o.devs[i].face != 1 then
      Drive(o, i, Level(value))
    else if score > 0.5 then
      Drive(Drive(o, i, Level(value)), i, HIGH).(key := FACE_PASSED)
    else
      o.(devs := o.devs[i := o.devs[i].(status := Level(value))], key := FACE_FAILED)
  }

  /** The message buffer that the receiver shares with the handler. */
  class Message {
    var key: int
    var value: int
  }

  ghost function Seen(table: DeviceTable, pins: Pins, msg: Message): Outcome
    reads table, table.nodes, pins, msg
  {
    Outcome(table.Devices(), pins.modes, pins.levels, msg.key)
  }

  /** The outcome when the device has its new status already, and its pin is set accordingly. */
  function PinSet(o: Outcome, i: nat): Outcome
    requires i < |o.devs|
  {
    o.(modes := SetModes(o.modes, o.devs[i]), levels := SetLevels(o.levels, o.devs[i]))
  }

  method SetPin(table: DeviceTable, pins: Pins, msg: Message, pdev: GDevice, ghost i: nat) returns (ret: int)
    requires table.Valid() && i < |table.nodes| && pdev == table.nodes[i]
    modifies pins
    ensures ret == 0 && Seen(table, pins, msg) == PinSet(old(Seen(table, pins, msg)), i)
  {
    assert table.Devices()[i] == pdev.Value();
    ret := pins.SetGpioGdeviceStatus(pdev);
  }

  /** The end of a passed face check: after the delay, the pin is raised. */
  method RaisePin(table: DeviceTable, pins: Pins, msg: Message, pdev: GDevice, ghost i: nat)
    requires table.Valid() && i < |table.nodes| && pdev == table.nodes[i]
    modifies pdev, pins
    ensures table.Valid() && Seen(table, pins, msg) == Drive(old(Seen(table, pins, msg)), i, HIGH)
  {
    ghost var devs := table.Devices();
    assert devs[i] == pdev.Value();
    StoreInNode(pdev, 1, table.pdevhead, table.nodes, i);
    var _ := SetPin(table, pins, msg, pdev, i);
  }

  /** The face check and what follows from it, for a device whose new status is stored. */
  method Answer(table: DeviceTable, pins: Pins, msg: Message, pdev: GDevice, score: real, ghost i: nat)
    requires table.Valid() && i < |table.nodes| && pdev == table.nodes[i]
    modifies pdev, pins, msg`key
    ensures table.Valid()
    ensures var o := old(Seen(table, pins, msg));
            Seen(table, pins, msg)
            == if o.devs[i].face != 1 then PinSet(o, i)
               else if score > 0.5 then Drive(PinSet(o, i), i, HIGH).(key := FACE_PASSED)
               else o.(key := FACE_FAILED)
  {
    assert table.Devices()[i] == pdev.Value();
    var ret, faceResult := -1, 0.0;
    if pdev.checkFaceStatus == 1 {
      faceResult := score;
      if faceResult > 0.5 {
        ret := SetPin(table, pins, msg, pdev, i);
        msg.key := 0x47;
      } else {
        msg.key := 0x46;
      }
    } else {
      ret := SetPin(table, pins, msg, pdev, i);
    }
    if pdev.checkFaceStatus == 1 && ret == 0 && faceResult > 0.5 {
      RaisePin(table, pins, msg, pdev, i);
    }
  }

  function Written(levels: map<int, int>, pin: int, level: int): map<int, int> {
    if pin == -1 then levels else levels[pin := level]
  }

  /** The same with all its constants written out. */
  lemma {:induction false} HandledMeans(o: Outcome, i: nat, value: int, score: real)
    requires i < |o.devs|
    ensures var o', d := Handled(o, i, value, score), o.devs[i];
            && (d.face != 1 ==> o'.key == o.key && o'.levels == Written(o.levels, d.pin, if value == 0 then 0 else 1))
            && (d.face == 1 && score > 0.5 ==> o'.key == 0x47 && o'.levels == Written(o.levels, d.pin, 1))
            && (d.face == 1 && score <= 0.5 ==> o'.key == 0x46 && o'.levels == o.levels && o'.modes == o.modes)
  {
    var pin := o.devs[i].pin;
    assert o.levels[pin := Level(value)][pin := 1] == o.levels[pin := 1];
  }

  /** The handler, without speech and display. Without a device for its key it dereferences a null
    * pointer, which ends the process: `crashed`. */
  method ReceiveThreadHandler(table: DeviceTable, pins: Pins, msg: Message, score: real) returns (crashed: bool)
    requires table.Valid()
    modifies table.nodes, pins, msg`key
    ensures table.Valid() && table.nodes == old(table.nodes)
    ensures crashed <==> old(msg.key) != IDLE_KEY && Lookup(old(table.Devices()), old(msg.key)) == None
    ensures old(msg.key) == IDLE_KEY || crashed ==> Seen(table, pins, msg) == old(Seen(table, pins, msg))
    ensures old(msg.key) != IDLE_KEY && !crashed ==>
              var o, i := old(Seen(table, pins, msg)), Lookup(old(table.Devices()), old(msg.key)).value;
              i < |o.devs| && Seen(table, pins, msg) == Handled(o, i, msg.value, score)
    ensures old(msg.key) == 0x40 ==> !crashed
    ensures old(msg.key) != 0x40 && !crashed ==>
              var o, i := old(Seen(table, pins, msg)), Lookup(old(table.Devices()), old(msg.key)).value;
              && i < |o.devs|
              && (o.devs[i].face != 1 ==>
                    msg.key == o.key && pins.levels == Written(o.levels, o.devs[i].pin, if msg.value == 0 then 0 else 1))
              && (o.devs[i].face == 1 && score > 0.5 ==>
                    msg.key == 0x47 && pins.levels == Written(o.levels, o.devs[i].pin, 1))
              && (o.devs[i].face == 1 && score <= 0.5 ==>
                    msg.key == 0x46 && pins.levels == o.levels && pins.modes == o.modes)
  {
    crashed := false;
    if msg.key == IDLE_KEY {
      return;
    }
    ghost var o := Seen(table, pins, msg);
    LookupSpec(table.Devices(), msg.key);
    SameKeys(o.devs, UpdateStatus(o.devs, msg.key, Level(msg.value)), msg.key);
    var pdev := StoreStatus(table, msg.key, msg.value);
    if pdev == null {
      return true;
    }
    HandledMeans(o, Lookup(o.devs, msg.key).value, msg.value, score);
    Answer(table, pins, msg, pdev, score, Lookup(o.devs, msg.key).value);
  }

  // ---- The step system when only one thread moves

  /** Thread `t` runs to its end while the others wait. */
  function Finish(s: System, t: nat, score: real): System
    requires t < |s.threads|
    decreases StepsLeft(s.threads[t].pc)
  {
    if s.threads[t].pc in {Done, Crashed} then s
    else Finish(StepThread(s, t, score), t, score)
  }

  function View(s: System): Outcome {
    Outcome(s.devs, s.modes, s.levels, s.key)
  }

  /** Reading the status and writing it to the pin. */
  lemma {:induction false} FinishLevel(s: System, t: nat, score: real) returns (s': System)
    requires t < |s.threads| && s.threads[t].pc.ReadLevel? && s.threads[t].dev < |s.devs|
    requires s.devs[s.threads[t].dev].pin != -1
    ensures |s'.threads| == |s.threads| && Finish(s, t, score) == Finish(s', t, score)
    ensures var th, d := s.threads[t], s.devs[s.threads[t].dev];
            && s'.threads[t] == PinsSet(th.(out := d.status), d.face, th.pc.relock)
            && View(s') == View(s).(levels := SetLevels(s.levels, d))
  {
    var s1 := StepThread(s, t, score);
    assert s1.devs == s.devs && s1.threads[t].pc.WriteLevel?;
    s' := StepThread(s1, t, score);
    assert s'.devs == s1.devs;
  }

  /** The second pin update, from just before its mode is set. */
  lemma {:induction false} FinishRelock(s: System, t: nat, score: real)
    requires t < |s.threads| && s.threads[t].pc == SetMode(true) && s.threads[t].dev < |s.devs|
    requires s.devs[s.threads[t].dev].status == HIGH
    ensures var s' := Finish(s, t, score);
            |s'.threads| == |s.threads| && s'.threads[t].pc == Done && View(s') == PinSet(View(s), s.threads[t].dev)
  {
    var s1 := StepThread(s, t, score);
    assert s1.devs == s.devs;
    if s1.threads[t].pc != Done {
      var s2 := FinishLevel(s1, t, score);
    }
  }

  /** From the display to the end. */
  lemma {:induction false} FinishDisplay(s: System, t: nat, score: real)
    requires t < |s.threads| && s.threads[t].pc == Display && s.threads[t].dev < |s.devs|
    ensures var th, s' := s.threads[t], Finish(s, t, score);
            && |s'.threads| == |s.threads| && s'.threads[t].pc == Done
            && View(s') == if s.devs[th.dev].face == 1 && th.ret == 0 && Passed(th.score)
                           then Drive(View(s), th.dev, HIGH) else View(s)
  {
    var th, s1 := s.threads[t], StepThread(s, t, score);
    assert s1.devs == s.devs;
    if s1.threads[t].pc == Relock {
      var s2 := StepThread(s1, t, score);
      assert Finish(s1, t, score) == Finish(s2, t, score);
      assert View(s2) == View(s).(devs := s.devs[th.dev := s.devs[th.dev].(status := HIGH)]);
      FinishRelock(s2, t, score);
    }
  }

  lemma {:induction false} FinishPassed(s: System, t: nat, score: real)
    requires t < |s.threads| && s.threads[t].pc == MarkPassed && s.threads[t].dev < |s.devs|
    requires s.devs[s.threads[t].dev].face == 1 && s.threads[t].ret == 0 && Passed(s.threads[t].score)
    ensures var s' := Finish(s, t, score);
            && |s'.threads| == |s.threads| && s'.threads[t].pc == Done
            && View(s') == Drive(View(s).(key := FACE_PASSED), s.threads[t].dev, HIGH)
  {
    var s1 := StepThread(s, t, score);
    assert s1.devs == s.devs;
    FinishDisplay(s1, t, score);
  }

  /** From just behind the first pin update. */
  lemma {:induction false} FinishAfterPins(s: System, t: nat, score: real, i: nat)
    requires t < |s.threads| && i < |s.devs| && s.threads[t].dev == i && s.threads[t].ret == 0
    requires s.threads[t].pc == if s.devs[i].face == 1 then MarkPassed else Display
    requires s.devs[i].face == 1 ==> Passed(s.threads[t].score)
    ensures var s' := Finish(s, t, score);
            && |s'.threads| == |s.threads| && s'.threads[t].pc == Done
            && View(s') == if s.devs[i].face == 1 then Drive(View(s).(key := FACE_PASSED), i, HIGH) else View(s)
  {
    if s.devs[i].face == 1 { FinishPassed(s, t, score); } else { FinishDisplay(s, t, score); }
  }

  /** From just before the first pin update. */
  lemma {:induction false} FinishPins(s: System, t: nat, score: real, i: nat)
    requires t < |s.threads| && i < |s.devs| && s.threads[t].dev == i && s.threads[t].pc == SetMode(false)
    requires s.devs[i].status != -1 && (s.devs[i].face == 1 ==> Passed(s.threads[t].score))
    ensures var s' := Finish(s, t, score);
            && |s'.threads| == |s.threads| && s'.threads[t].pc == Done
            && View(s') == if s.devs[i].face == 1 then Drive(PinSet(View(s), i).(key := FACE_PASSED), i, HIGH)
                           else PinSet(View(s), i)
  {
    var s1 := StepThread(s, t, score);
    assert s1.devs == s.devs;
    if s.devs[i].pin == -1 {
      FinishAfterPins(s1, t, score, i);
    } else {
      var s2 := FinishLevel(s1, t, score);
      FinishAfterPins(s2, t, score, i);
    }
  }

  /** From the face check. */
  lemma {:induction false} FinishJudge(s: System, t: nat, score: real, i: nat)
    requires t < |s.threads| && i < |s.devs| && s.threads[t].dev == i && s.threads[t].pc == Judge
    requires s.devs[i].status != -1 && s.devs[i].face == 1
    ensures var s' := Finish(s, t, score);
            && |s'.threads| == |s.threads| && s'.threads[t].pc == Done
            && View(s') == if score > 0.5 then Drive(PinSet(View(s), i).(key := FACE_PASSED), i, HIGH)
                           else View(s).(key := FACE_FAILED)
  {
    var s1 := StepThread(s, t, score);
    assert s1.devs == s.devs;
    if score > 0.5 {
      FinishPins(s1, t, score, i);
    } else {
      var s2 := StepThread(s1, t, score);
      assert s2.devs == s.devs;
      assert Finish(s, t, score) == Finish(s1, t, score) == Finish(s2, t, score);
      FinishDisplay(s2, t, score);
    }
  }

  /** From the store of the status. */
  lemma {:induction false} FinishStore(s: System, t: nat, score: real, i: nat)
    requires t < |s.threads| && i < |s.devs| && s.threads[t].dev == i && s.threads[t].pc == Store
    ensures var s' := Finish(s, t, score);
            |s'.threads| == |s.threads| && s'.threads[t].pc == Done && View(s') == Handled(View(s), i, s.value, score)
  {
    var s1 := StepThread(s, t, score);
    var d := s.devs[i].(status := Level(s.value));
    assert s1.devs == s.devs[i := d] && s1.devs[i] == d;
    if d.face == 1 {
      FinishJudge(s1, t, score, i);
    } else {
      FinishPins(s1, t, score, i);
    }
  }

  /** A handler thread that runs from its start to its end while the others wait does what the handler
    * code does, and so leaves the devices, the pins and the message as `ReceiveThreadHandler` does. */
  lemma {:induction false} UndisturbedThread(s: System, t: nat, score: real)
    requires t < |s.threads| && s.threads[t].pc == Begin
    ensures var s', found := Finish(s, t, score), Lookup(s.devs, s.key);
            && |s'.threads| == |s.threads|
            && s'.threads[t].pc == (if s.key != IDLE_KEY && found == None then Crashed else Done)
            && (s.key == IDLE_KEY || found == None ==> View(s') == View(s))
            && (s.key != IDLE_KEY && found.Some? ==>
                  found.value < |s.devs| && View(s') == Handled(View(s), found.value, s.value, score))
  {
    LookupSpec(s.devs, s.key);
    var s1 := StepThread(s, t, score);
    assert s1.devs == s.devs && View(s1) == View(s);
    if s.key != IDLE_KEY {
      var s2 := StepThread(s1, t, score);
      assert s2.devs == s.devs && View(s2) == View(s);
      assert Finish(s, t, score) == Finish(s1, t, score) == Finish(s2, t, score);
      if Lookup(s.devs, s.key).Some? { FinishStore(s2, t, score, Lookup(s.devs, s.key).value); }
    }
  }
}
