/** The running system: the smoke monitor feeds a message queue, the receiver takes messages from it
  * and starts a handler thread for each, and handler threads, in any interleaving, share one message
  * buffer, the device list and the pins. */
module Runtime {
  import opened Ini
  import opened Devices

  /** A six-byte message: two header bytes, key, value, two trailer bytes. */
  datatype Frame = Frame(b0: int, b1: int, key: int, value: int, b4: int, b5: int)

  predicate ValidFrame(f: Frame) {
    f.b0 == 0xAA && f.b1 == 0x55 && f.b5 == 0xAA && f.b4 == 0x55
  }

  const IDLE_KEY := 0x40
  const SMOKE_KEY := 0x45
  const FACE_FAILED := 0x46
  const FACE_PASSED := 0x47

  /** Where a handler thread is; `relock` in the second pin update, after the delay. `ReadLevel` reads the
    * status of the device, `WriteLevel` writes what was read to the pin. */
  datatype Pc =
    | Begin | Find | Store | Judge | SetMode(relock: bool) | ReadLevel(relock: bool) | WriteLevel(relock: bool)
    | MarkPassed | MarkFailed | Display | Relock | Done | Crashed

  /** A handler thread with its local variables; `out` is the status it has read. */
  datatype Thread = Thread(pc: Pc, dev: nat, score: Option<real>, ret: int, out: int)

  const START := Thread(Begin, 0, None, -1, -1)

  /** One write to a pin, of its mode or of its level, and the thread that did it. */
  datatype PinWrite =
    | ModeWrite(thread: nat, pin: int, value: int)
    | LevelWrite(thread: nat, pin: int, value: int)

  /** `key` and `value` are bytes 2 and 3 of the shared message buffer; `log` is the history of pin
    * writes; `armed` is the smoke monitor's `switch_status`. */
  datatype System = System(
    devs: seq<Device>,
    modes: map<int, int>,
    levels: map<int, int>,
    queue: seq<Frame>,
    key: int,
    value: int,
    threads: seq<Thread>,
    log: seq<PinWrite>,
    armed: bool)

  predicate Active(t: Thread) {
    t.pc != Done
  }

  predicate NoneActive(s: System) {
    forall t :: t in s.threads ==> !Active(t)
  }

  function Level(value: int): int {
    if value == 0 then LOW else HIGH
  }

  predicate Passed(score: Option<real>) {
    score.Some? && score.value > 0.5
  }

  /** After a pin update, which returned 0. */
  function PinsSet(th: Thread, face: int, relock: bool): Thread {
    if relock then th.(pc := Done) else th.(ret := 0, pc := if face == 1 then MarkPassed else Display)
  }

  /** Where the thread is after its next step, and its local variables. `d` is its device, `score` what
    * the face service would answer now. */
  function NextThread(s: System, th: Thread, d: Device, score: real): Thread {
    match th.pc
    case Begin => th.(pc := if s.key == IDLE_KEY then Done else Find)
    case Find =>
      (match Lookup(s.devs, s.key) case Some(i) => th.(pc := Store, dev := i) case None => th.(pc := Crashed))
    case Store => th.(pc := if d.face == 1 then Judge else SetMode(false))
    case Judge => th.(score := Some(score), pc := if score > 0.5 then SetMode(false) else MarkFailed)
    case SetMode(relock) => if d.pin == -1 then PinsSet(th, d.face, relock) else th.(pc := ReadLevel(relock))
    case ReadLevel(relock) => th.(pc := WriteLevel(relock), out := d.status)
    case WriteLevel(relock) => PinsSet(th, d.face, relock)
    case MarkPassed => th.(pc := Display)
    case MarkFailed => th.(pc := Display, ret := -1)
    case Display => th.(pc := if d.face == 1 && th.ret == 0 && Passed(th.score) then Relock else Done)
    case Relock => th.(pc := SetMode(true))
    case _ => th
  }

  /** What the step does to the status of the thread's device. */
  function NextStatus(s: System, pc: Pc, status: int): int {
    if pc == Store then Level(s.value) else if pc == Relock then HIGH else status
  }

  /** What it does to byte 2 of the shared message. */
  function NextKey(pc: Pc, key: int): int {
    if pc == MarkPassed then FACE_PASSED else if pc == MarkFailed then FACE_FAILED else key
  }

  /** Does it write the level of the pin? */
  predicate WritesLevel(th: Thread) {
    th.pc.WriteLevel? && th.out != -1
  }

  predicate WritesMode(pc: Pc, d: Device) {
    pc.SetMode? && d.pin != -1 && d.mode != -1
  }

  const NO_DEVICE := Device("", 0, -1, -1, -1, 0, 0)

  /** The device of a thread that has found one. */
  function DeviceOf(s: System, th: Thread): Device {
    if th.dev < |s.devs| && !(th.pc in {Begin, Find}) then s.devs[th.dev] else NO_DEVICE
  }

  /** One atomic step of handler thread `t`. */
  function StepThread(s: System, t: nat, score: real): System
    requires t < |s.threads|
  {
    var th := s.threads[t];
    var d := DeviceOf(s, th);
    System(
      if th.dev < |s.devs| then s.devs[th.dev := s.devs[th.dev].(status := NextStatus(s, th.pc, s.devs[th.dev].status))]
      else s.devs,
      if WritesMode(th.pc, d) then s.modes[d.pin := d.mode] else s.modes,
      if WritesLevel(th) then s.levels[d.pin := th.out] else s.levels,
      s.queue,
      NextKey(th.pc, s.key),
      s.value,
      s.threads[t := NextThread(s, th, d, score)],
      if WritesMode(th.pc, d) then s.log + [ModeWrite(t, d.pin, d.mode)]
      else if WritesLevel(th) then s.log + [LevelWrite(t, d.pin, th.out)]
      else s.log,
      s.armed)
  }

  /** The receiver: takes a message off the queue and starts a thread for it when it is well formed. */
  function Receive(s: System): System
    requires s.queue != []
  {
    var f, s' := s.queue[0], s.(queue := s.queue[1..]);
    if ValidFrame(f) then
      s'.(key := f.key, value := f.value, threads := s.threads + [START])
    else s'
  }

  /** What the smoke monitor sends. */
  const START_FRAME := Frame(0xAA, 0x55, SMOKE_KEY, 0x00, 0x55, 0xAA)
  const CLEAR_FRAME := Frame(0xAA, 0x55, SMOKE_KEY, 0x01, 0x55, 0xAA)

  /** The smoke monitor's reaction to a sample: its new `switch_status` and the message it sends. */
  function Smoke(armed: bool, sample: int): (bool, Option<Frame>) {
    if sample == LOW then (true, Some(START_FRAME))
    else if sample == HIGH && armed then (false, Some(CLEAR_FRAME))
    else (armed, None)
  }

  datatype Action =
    | Sample(sample: int)                 // the smoke monitor reads its pin, and sends reliably
    | Send(frame: Frame)                  // another sender puts a message on the queue
    | Take                                // the receiver
    | Run(thread: nat, score: real)       // a handler thread

  /** What one action does; an action that is not possible does nothing. With `serial`, the receiver
    * waits until no handler is active. */
  function Act(serial: bool, s: System, a: Action): System {
    match a
    case Sample(sample) =>
      var (armed, f) := Smoke(s.armed, sample);
      s.(armed := armed, queue := if f.Some? then s.queue + [f.value] else s.queue)
    case Send(frame) => s.(queue := s.queue + [frame])
    case Take => if s.queue == [] || (serial && !NoneActive(s)) then s else Receive(s)
    case Run(t, score) => if t < |s.threads| then StepThread(s, t, score) else s
  }

  /** The system after any sequence of actions. */
  function Exec(serial: bool, s: System, acts: seq<Action>): System {
    if acts == [] then s
    else Act(serial, Exec(serial, s, acts[..|acts| - 1]), acts[|acts| - 1])
  }

  /** Start-up: no thread has run and nothing has been sent. */
  predicate Fresh(s: System) {
    s.threads == [] && s.log == [] && s.queue == [] && !s.armed
  }
}
