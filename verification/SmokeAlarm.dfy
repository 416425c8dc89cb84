/** The smoke monitor: which messages it sends, and what they do to the alarm's pin once they have all
  * been handled. */
module SmokeAlarm {
  import opened Ini
  import opened Devices
  import opened Runtime
  import opened FaceGate
  import opened Serial

  predicate IsSample(x: int) {
    x == LOW || x == HIGH
  }

  /** The message for sample `i`: an alarm for every low sample, an all-clear exactly where the samples
    * go from low to high. */
  function MessageAt(samples: seq<int>, i: nat): Option<Frame>
    requires i < |samples|
  {
    if samples[i] == LOW then Some(START_FRAME)
    else if i > 0 && samples[i - 1] == LOW then Some(CLEAR_FRAME)
    else None
  }

  /** The messages that reach the queue; `delivered[i]` tells whether sending at sample `i` succeeds. */
  function Sent(samples: seq<int>, delivered: seq<bool>): seq<Frame>
    requires |delivered| == |samples|
  {
    if samples == [] then [] else
      var n := |samples| - 1;
      var m := MessageAt(samples, n);
      Sent(samples[..n], delivered[..n]) + if m.Some? && delivered[n] then [m.value] else []
  }

  lemma {:induction false} SentNext(samples: seq<int>, delivered: seq<bool>, n: nat)
    requires n < |samples| == |delivered|
    ensures var m := MessageAt(samples, n);
            Sent(samples[..n + 1], delivered[..n + 1])
            == Sent(samples[..n], delivered[..n]) + if m.Some? && delivered[n] then [m.value] else []
  {
    assert samples[..n + 1][..n] == samples[..n] && delivered[..n + 1][..n] == delivered[..n];
    assert MessageAt(samples[..n + 1], n) == MessageAt(samples, n);
  }

  /** The monitor's loop, for as many rounds as there are samples. A failed send is not repeated. */
  method SmokeGet(samples: seq<int>, delivered: seq<bool>) returns (queue: seq<Frame>)
    requires |delivered| == |samples| && forall i :: 0 <= i < |samples| ==> IsSample(samples[i])
    ensures queue == Sent(samples, delivered)
    ensures forall f :: f in queue ==> f == Frame(0xAA, 0x55, 0x45, 0x00, 0x55, 0xAA) || f == Frame(0xAA, 0x55, 0x45, 0x01, 0x55, 0xAA)
  {
    var switchStatus := 0;
    var buffer := new int[6][0xAA, 0x55, 0x00, 0x00, 0x55, 0xAA];
    queue := [];
    var i := 0;
    while i < |samples|
      invariant 0 <= i <= |samples| && queue == Sent(samples[..i], delivered[..i])
      invariant forall f :: f in queue ==> f == START_FRAME || f == CLEAR_FRAME
      invariant switchStatus == if i > 0 && samples[i - 1] == LOW then 1 else 0
      invariant buffer[0] == 0xAA && buffer[1] == 0x55 && buffer[4] == 0x55 && buffer[5] == 0xAA
    {
      var status := samples[i];
      SentNext(samples, delivered, i);
      if status == LOW {
        switchStatus := 1;
        buffer[2], buffer[3] := 0x45, 0x00;
        if delivered[i] { queue := queue + [FrameOf(buffer)]; }
      } else if status == HIGH && switchStatus == 1 {
        switchStatus := 0;
        buffer[2], buffer[3] := 0x45, 0x01;
        if delivered[i] { queue := queue + [FrameOf(buffer)]; }
      }
      i := i + 1;
    }
    assert samples[..|samples|] == samples && delivered[..|delivered|] == delivered;
  }

  function FrameOf(buffer: array<int>): Frame
    requires buffer.Length == 6
    reads buffer
  {
    Frame(buffer[0], buffer[1], buffer[2], buffer[3], buffer[4], buffer[5])
  }

  function Samples(samples: seq<int>): seq<Action> {
    seq(|samples|, i requires 0 <= i < |samples| => Sample(samples[i]))
  }

  /** In the step system the monitor sends the same messages, and is armed exactly after a low sample. */
  lemma {:induction false} MonitorAgrees(serial: bool, s0: System, samples: seq<int>, delivered: seq<bool>)
    requires Fresh(s0) && |delivered| == |samples| && forall i :: 0 <= i < |samples| ==> IsSample(samples[i]) && delivered[i]
    ensures var s := Exec(serial, s0, Samples(samples));
            && s.queue == Sent(samples, delivered)
            && (s.armed <==> samples != [] && samples[|samples| - 1] == LOW)
  {
    if samples != [] {
      var n := |samples| - 1;
      MonitorAgrees(serial, s0, samples[..n], delivered[..n]);
      assert Samples(samples)[..n] == Samples(samples[..n]);
    }
  }

  // ---- The whole way from the sensor to the pin

  function LastSample(acts: seq<Action>): int {
    if acts == [] then HIGH
    else if acts[|acts| - 1].Sample? then acts[|acts| - 1].sample
    else LastSample(acts[..|acts| - 1])
  }

  predicate LowSeen(acts: seq<Action>) {
    exists i :: 0 <= i < |acts| && acts[i] == Sample(LOW)
  }

  /** A message that switches the alarm. */
  predicate IsAlarm(f: Frame) {
    ValidFrame(f) && f.key == SMOKE_KEY
  }

  /** Only the smoke monitor switches the alarm, and its pin reads low or high. */
  predicate Traffic(a: Action) {
    (a.Sample? ==> IsSample(a.sample)) && (a.Send? ==> !IsAlarm(a.frame))
  }

  /** The level that the newest alarm message in the queue asks for. */
  function QueueTarget(queue: seq<Frame>): Option<int> {
    if queue == [] then None
    else if IsAlarm(queue[|queue| - 1]) then Some(Level(queue[|queue| - 1].value))
    else QueueTarget(queue[..|queue| - 1])
  }

  /** The level that the running handler is going to give the alarm, device `i`. */
  function ThreadTarget(s: System, i: nat): Option<int>
    requires i < |s.devs|
  {
    if s.threads == [] then None else
      var th := Latest(s);
      if th.pc in {Begin, Find} then (if s.key == SMOKE_KEY then Some(Level(s.value)) else None)
      else if th.dev != i then None
      else if th.pc == Store then Some(Level(s.value))
      else if th.pc in {SetMode(false), ReadLevel(false)} then Some(s.devs[i].status)
      else if th.pc == WriteLevel(false) then Some(th.out)
      else None
  }

  /** The level of the alarm's pin once everything under way has been handled. */
  function Target(s: System, i: nat): Option<int>
    requires i < |s.devs|
  {
    if QueueTarget(s.queue).Some? then QueueTarget(s.queue) else Rest(s, i)
  }

  /** The same with nothing in the queue. */
  function Rest(s: System, i: nat): Option<int>
    requires i < |s.devs|
  {
    if ThreadTarget(s, i).Some? then ThreadTarget(s, i)
    else if s.devs[i].pin in s.levels then Some(s.levels[s.devs[i].pin])
    else None
  }

  /** Device `i` is the alarm: found by the smoke key, not face-checked, alone on its pin. */
  predicate IsAlarmDevice(devs: seq<Device>, i: nat) {
    && i < |devs|
    && Lookup(devs, SMOKE_KEY) == Some(i)
    && devs[i].pin != -1
    && devs[i].face != 1
    && forall j :: 0 <= j < |devs| && j != i ==> devs[j].pin != devs[i].pin
  }

  /** Only face-checked devices are set a second time. */
  predicate RelockOk(s: System, th: Thread) {
    th.pc in {Relock, SetMode(true), ReadLevel(true), WriteLevel(true), Judge, MarkPassed, MarkFailed}
    ==> th.dev < |s.devs| && s.devs[th.dev].face == 1
  }

  ghost predicate AlarmInv(s: System, i: nat, low: bool, last: int) {
    && OneAtATime(s)
    && IsAlarmDevice(s.devs, i)
    && IsSample(last)
    && (s.threads != [] ==> ThreadOk(s.devs, Latest(s)) && RelockOk(s, Latest(s)))
    && (s.armed <==> last == LOW)
    && (low ==> Target(s, i) == Some(last))
    && (!low ==> last == HIGH)
  }

  lemma {:induction false} AlarmDeviceStays(now: seq<Device>, before: seq<Device>, i: nat)
    requires SameDevices(now, before) && IsAlarmDevice(before, i)
    ensures IsAlarmDevice(now, i)
  {
    SameKeys(now, before, SMOKE_KEY);
    assert forall j :: 0 <= j < |now| ==> now[j] == before[j].(status := now[j].status);
  }

  lemma {:induction false} QueueTargetAdd(queue: seq<Frame>, f: Frame)
    ensures QueueTarget(queue + [f]) == if IsAlarm(f) then Some(Level(f.value)) else QueueTarget(queue)
  {
    assert (queue + [f])[..|queue|] == queue;
  }

  lemma {:induction false} QueueTargetFront(queue: seq<Frame>)
    requires queue != []
    ensures QueueTarget(queue)
            == if QueueTarget(queue[1..]).Some? then QueueTarget(queue[1..])
               else if IsAlarm(queue[0]) then Some(Level(queue[0].value)) else None
  {
    var n := |queue| - 1;
    if n > 0 {
      QueueTargetFront(queue[..n]);
      assert queue[..n][1..] == queue[1..][..n - 1];
    }
  }

  /** What a step of the running handler cannot change. */
  lemma {:induction false} StepKeepsFrame(s: System, i: nat, score: real)
    requires s.threads != [] && OneAtATime(s) && IsAlarmDevice(s.devs, i)
    requires ThreadOk(s.devs, Latest(s)) && RelockOk(s, Latest(s))
    ensures var s' := StepThread(s, |s.threads| - 1, score);
            && s'.threads != [] && OneAtATime(s') && IsAlarmDevice(s'.devs, i)
            && ThreadOk(s'.devs, Latest(s')) && RelockOk(s', Latest(s'))
            && s'.queue == s.queue && s'.armed == s.armed
  {
    var s' := StepThread(s, |s.threads| - 1, score);
    StepKeepsThread(s, score);
    AlarmDeviceStays(s'.devs, s.devs, i);
  }

  lemma {:induction false} StepKeepsThread(s: System, score: real)
    requires s.threads != [] && ThreadOk(s.devs, Latest(s)) && RelockOk(s, Latest(s))
    ensures var s' := StepThread(s, |s.threads| - 1, score);
            && SameDevices(s'.devs, s.devs) && s'.threads != []
            && ThreadOk(s'.devs, Latest(s')) && RelockOk(s', Latest(s'))
  {
    var s' := StepThread(s, |s.threads| - 1, score);
    NextThreadOk(s, Latest(s), score);
    assert SameDevices(s'.devs, s.devs);
  }

  /** A handler that looks up the smoke key finds the alarm; one that looks up another key does not. */
  lemma {:induction false} FindKeepsRest(s: System, i: nat, score: real)
    requires s.threads != [] && IsAlarmDevice(s.devs, i) && Latest(s).pc in {Begin, Find}
    ensures Rest(StepThread(s, |s.threads| - 1, score), i) == Rest(s, i)
  {
    LookupSpec(s.devs, SMOKE_KEY);
    LookupSpec(s.devs, s.key);
    BeforeStore(s, |s.threads| - 1, score);
  }

  /** The handler of another device leaves the alarm and its pin alone. */
  lemma {:induction false} OtherKeepsRest(s: System, i: nat, score: real)
    requires s.threads != [] && IsAlarmDevice(s.devs, i)
    requires !(Latest(s).pc in {Begin, Find}) && Latest(s).dev != i
    ensures Rest(StepThread(s, |s.threads| - 1, score), i) == Rest(s, i)
  {
    OtherKeepsPin(s, i, score);
    var s' := StepThread(s, |s.threads| - 1, score);
    assert ThreadTarget(s', i) == None == ThreadTarget(s, i);
  }

  lemma {:induction false} OtherKeepsPin(s: System, i: nat, score: real)
    requires s.threads != [] && IsAlarmDevice(s.devs, i)
    requires !(Latest(s).pc in {Begin, Find}) && Latest(s).dev != i
    ensures var s', pin := StepThread(s, |s.threads| - 1, score), s.devs[i].pin;
            && i < |s'.devs| && s'.devs[i] == s.devs[i] && s'.threads != []
            && !(Latest(s').pc in {Begin, Find}) && Latest(s').dev != i
            && (pin in s'.levels <==> pin in s.levels) && (pin in s.levels ==> s'.levels[pin] == s.levels[pin])
  {
  }

  /** The handler of the alarm brings its pin to the level that it was asked for. */
  lemma {:induction false} AlarmKeepsRest(s: System, i: nat, score: real, level: int)
    requires s.threads != [] && IsAlarmDevice(s.devs, i)
    requires !(Latest(s).pc in {Begin, Find}) && Latest(s).dev == i && RelockOk(s, Latest(s))
    requires Rest(s, i) == Some(level) && IsSample(level)
    ensures Rest(StepThread(s, |s.threads| - 1, score), i) == Some(level)
  {
  }

  lemma {:induction false} StepKeepsRest(s: System, i: nat, score: real, level: int)
    requires s.threads != [] && IsAlarmDevice(s.devs, i) && RelockOk(s, Latest(s))
    requires Rest(s, i) == Some(level) && IsSample(level)
    ensures Rest(StepThread(s, |s.threads| - 1, score), i) == Some(level)
  {
    if Latest(s).pc in {Begin, Find} {
      FindKeepsRest(s, i, score);
    } else if Latest(s).dev != i {
      OtherKeepsRest(s, i, score);
    } else {
      AlarmKeepsRest(s, i, score, level);
    }
  }

  lemma {:induction false} RunKeepsAlarm(s: System, i: nat, low: bool, last: int, t: nat, score: real)
    requires AlarmInv(s, i, low, last) && t < |s.threads|
    ensures AlarmInv(StepThread(s, t, score), i, low, last)
  {
    if t < |s.threads| - 1 {
      DoneStays(s, t, score);
      assert StepThread(s, t, score) == s;
    } else {
      LatestKeepsAlarm(s, i, low, last, score);
    }
  }

  lemma {:induction false} LatestKeepsAlarm(s: System, i: nat, low: bool, last: int, score: real)
    requires AlarmInv(s, i, low, last) && s.threads != []
    ensures AlarmInv(StepThread(s, |s.threads| - 1, score), i, low, last)
  {
    StepKeepsFrame(s, i, score);
    if low { StepKeepsTarget(s, i, score, last); }
  }

  lemma {:induction false} StepKeepsTarget(s: System, i: nat, score: real, level: int)
    requires s.threads != [] && IsAlarmDevice(s.devs, i) && RelockOk(s, Latest(s))
    requires Target(s, i) == Some(level) && IsSample(level)
    ensures Target(StepThread(s, |s.threads| - 1, score), i) == Some(level)
  {
    if QueueTarget(s.queue).None? {
      StepKeepsRest(s, i, score, level);
    }
  }

  lemma {:induction false} TakeKeepsAlarm(s: System, i: nat, low: bool, last: int)
    requires AlarmInv(s, i, low, last) && s.queue != [] && NoneActive(s)
    ensures AlarmInv(Receive(s), i, low, last)
  {
    NoneActiveDone(s);
    QueueTargetFront(s.queue);
    var s' := Receive(s);
    if low && QueueTarget(s'.queue).None? {
      TakeKeepsRest(s, i);
    }
  }

  /** A message taken from the queue becomes the handler's errand. */
  lemma {:induction false} TakeKeepsRest(s: System, i: nat)
    requires s.queue != [] && i < |s.devs| && (s.threads != [] ==> Latest(s).pc == Done)
    ensures Rest(Receive(s), i) == if IsAlarm(s.queue[0]) then Some(Level(s.queue[0].value)) else Rest(s, i)
  {
    assert s.threads != [] ==> ThreadTarget(s, i) == None;
  }

  /** The queue and the monitor are not the handler's business. */
  lemma {:induction false} SameRest(s: System, queue: seq<Frame>, armed: bool, i: nat)
    requires i < |s.devs|
    ensures Rest(s.(queue := queue, armed := armed), i) == Rest(s, i)
  {
  }

  lemma {:induction false} SampleKeepsAlarm(s: System, i: nat, low: bool, last: int, x: int)
    requires AlarmInv(s, i, low, last) && IsSample(x)
    ensures AlarmInv(Act(true, s, Sample(x)), i, low || x == LOW, x)
  {
    var (armed, f) := Smoke(s.armed, x);
    if f.Some? { QueueTargetAdd(s.queue, f.value); }
    SameRest(s, Act(true, s, Sample(x)).queue, armed, i);
  }

  lemma {:induction false} SendKeepsAlarm(s: System, i: nat, low: bool, last: int, f: Frame)
    requires AlarmInv(s, i, low, last) && !IsAlarm(f)
    ensures AlarmInv(Act(true, s, Send(f)), i, low, last)
  {
    QueueTargetAdd(s.queue, f);
    SameRest(s, s.queue + [f], s.armed, i);
  }

  lemma {:induction false} HistoryNext(acts: seq<Action>)
    requires acts != []
    ensures var before, a := acts[..|acts| - 1], acts[|acts| - 1];
            && (LowSeen(acts) <==> LowSeen(before) || a == Sample(LOW))
            && LastSample(acts) == if a.Sample? then a.sample else LastSample(before)
  {
    var before, a := acts[..|acts| - 1], acts[|acts| - 1];
    if LowSeen(before) {
      var k :| 0 <= k < |before| && before[k] == Sample(LOW);
      assert acts[k] == Sample(LOW);
    }
    if LowSeen(acts) && a != Sample(LOW) {
      var k :| 0 <= k < |acts| && acts[k] == Sample(LOW);
      assert before[k] == Sample(LOW);
    }
  }

  lemma {:induction false} ExecKeepsAlarm(s0: System, acts: seq<Action>, i: nat)
    requires Fresh(s0) && IsAlarmDevice(s0.devs, i)
    requires forall a :: a in acts ==> Traffic(a)
    ensures AlarmInv(Exec(true, s0, acts), i, LowSeen(acts), LastSample(acts))
  {
    if acts != [] {
      var before, a := acts[..|acts| - 1], acts[|acts| - 1];
      ExecKeepsAlarm(s0, before, i);
      HistoryNext(acts);
      assert a in acts && Traffic(a);
      var s, low, last := Exec(true, s0, before), LowSeen(before), LastSample(before);
      match a
      case Sample(x) => SampleKeepsAlarm(s, i, low, last, x);
      case Send(f) => SendKeepsAlarm(s, i, low, last, f);
      case Take => if s.queue != [] && NoneActive(s) { TakeKeepsAlarm(s, i, low, last); }
      case Run(t, score) => if t < |s.threads| { RunKeepsAlarm(s, i, low, last, t, score); }
    }
  }

  /** From sensor to pin: with reliable sends and handlers running one at a time, once the queue is
    * empty and no handler is active, the alarm's pin shows the last sample, provided the sensor has
    * read low at least once; whatever other messages were handled in between. */
  lemma {:induction false} AlarmShowsLastSample(s0: System, acts: seq<Action>, i: nat)
    requires Fresh(s0) && IsAlarmDevice(s0.devs, i)
    requires (forall a :: a in acts ==> Traffic(a)) && LowSeen(acts)
    ensures var s := Exec(true, s0, acts);
            s.queue == [] && NoneActive(s) ==>
              s0.devs[i].pin in s.levels && s.levels[s0.devs[i].pin] == LastSample(acts)
  {
    ExecKeepsAlarm(s0, acts, i);
    ExecKeepsInv(true, s0, acts);
    var s := Exec(true, s0, acts);
    if s.queue == [] && NoneActive(s) {
      NoneActiveDone(s);
      assert s.devs[i] == s0.devs[i].(status := s.devs[i].status);
    }
  }
}
