/** A pin behind the face check is high whenever no handler is at work on it, as long as handlers of the
  * devices on this pin do not overlap. */
module GuardedPins {
  import opened Ini
  import opened Devices
  import opened Runtime
  import opened FaceGate
  import opened Serial
  import opened Reachable

  predicate IsHigh(s: System, pin: int) {
    pin in s.levels && s.levels[pin] == HIGH
  }

  /** Thread `t` has found its device, has not finished, and its device is on the pin. */
  predicate On(s: System, t: nat, pin: int) {
    && t < |s.threads|
    && !(s.threads[t].pc in {Begin, Find, Done, Crashed})
    && s.threads[t].dev < |s.devs|
    && s.devs[s.threads[t].dev].pin == pin
  }

  /** At most one thread is at work on the pin. */
  predicate Apart(s: System, pin: int) {
    forall t, u :: 0 <= t < |s.threads| && 0 <= u < |s.threads| && On(s, t, pin) && On(s, u, pin) ==> t == u
  }

  predicate Free(s: System, pin: int) {
    forall t :: 0 <= t < |s.threads| ==> !On(s, t, pin)
  }

  /** At no time do two handlers of devices on this pin overlap. */
  ghost predicate NeverOverlap(serial: bool, s0: System, acts: seq<Action>, pin: int) {
    forall k :: 0 <= k <= |acts| ==> Apart(Exec(serial, s0, acts[..k]), pin)
  }

  /** The thread has lowered the pin and is on its way to raise it again. */
  predicate Relocking(s: System, t: nat, pin: int) {
    && On(s, t, pin)
    && s.devs[s.threads[t].dev].face == 1
    && Passed(s.threads[t].score)
    && s.threads[t].ret == 0
    && (s.threads[t].pc in {MarkPassed, Display, Relock} || Raising(s.threads[t].pc))
  }

  /** The thread is setting its pin for the second time. */
  predicate Raising(pc: Pc) {
    pc in {SetMode(true), ReadLevel(true), WriteLevel(true)}
  }

  /** If so, it is going to set it high. */
  predicate SetsHigh(s: System, t: nat)
    requires t < |s.threads| && s.threads[t].dev < |s.devs|
  {
    && (s.threads[t].pc in {SetMode(true), ReadLevel(true)} ==> s.devs[s.threads[t].dev].status == HIGH)
    && (s.threads[t].pc == WriteLevel(true) ==> s.threads[t].out == HIGH)
  }

  /** A thread that sets the pin for the second time sets it high. */
  predicate RaisesHigh(s: System, pin: int) {
    forall t :: 0 <= t < |s.threads| && On(s, t, pin) ==> SetsHigh(s, t)
  }

  /** The pin is high, or some thread is going to raise it. */
  ghost predicate PinInv(s: System, pin: int) {
    && (IsHigh(s, pin) || exists t :: 0 <= t < |s.threads| && Relocking(s, t, pin))
    && RaisesHigh(s, pin)
  }

  /** Does the next step of thread `t` write this pin? */
  predicate Writing(s: System, t: nat, pin: int)
    requires t < |s.threads|
  {
    && WritesLevel(s.threads[t])
    && DeviceOf(s, s.threads[t]).pin == pin
  }

  lemma {:induction false} StepPins(s: System, t: nat, score: real)
    requires t < |s.threads|
    ensures SameDevices(StepThread(s, t, score).devs, s.devs)
  {
  }

  /** Threads on other devices, and threads that are not moving, are not affected. */
  lemma {:induction false} OthersKeep(s: System, t: nat, u: nat, score: real, pin: int)
    requires t < |s.threads| && u < |s.threads| && t != u && Apart(s, pin)
    ensures var s' := StepThread(s, t, score);
            && s'.threads[u] == s.threads[u] && (On(s', u, pin) <==> On(s, u, pin))
            && (On(s, u, pin) ==>
                  s'.devs[s.threads[u].dev].face == s.devs[s.threads[u].dev].face
                  && s'.devs[s.threads[u].dev].status == s.devs[s.threads[u].dev].status)
  {
    StepPins(s, t, score);
    if On(s, u, pin) && s.threads[t].pc in {Store, Relock} && s.threads[t].dev == s.threads[u].dev {
      assert On(s, t, pin);
    }
  }

  /** The moving thread sets its pin for the second time only after it has stored HIGH. */
  lemma {:induction false} MoverRaisesHigh(s: System, t: nat, score: real, pin: int)
    requires t < |s.threads| && RaisesHigh(s, pin)
    ensures var s' := StepThread(s, t, score);
            On(s', t, pin) ==> SetsHigh(s', t)
  {
    StepPins(s, t, score);
    LookupSpec(s.devs, s.key);
    assert On(s, t, pin) ==> SetsHigh(s, t);
  }

  lemma {:induction false} StepRaisesHigh(s: System, t: nat, score: real, pin: int)
    requires t < |s.threads| && RaisesHigh(s, pin) && Apart(s, pin)
    ensures RaisesHigh(StepThread(s, t, score), pin)
  {
    var s' := StepThread(s, t, score);
    forall u | 0 <= u < |s'.threads| && On(s', u, pin) ensures SetsHigh(s', u)
    {
      if u == t { MoverRaisesHigh(s, t, score, pin); } else { OthersKeep(s, t, u, score, pin); }
    }
  }

  /** A step that does not write the pin. */
  lemma {:induction false} OtherStep(s: System, t: nat, score: real, pin: int)
    requires t < |s.threads| && PinInv(s, pin) && Apart(s, pin) && pin != -1 && !Writing(s, t, pin)
    ensures PinInv(StepThread(s, t, score), pin)
  {
    StepRaisesHigh(s, t, score, pin);
    var s' := StepThread(s, t, score);
    if !IsHigh(s, pin) {
      var r :| 0 <= r < |s.threads| && Relocking(s, r, pin);
      if r != t { OthersKeep(s, t, r, score, pin); }
      assert Relocking(s', r, pin);
    }
  }

  /** The step that writes the pin: the first time the thread is then on its way to raise it again, the
    * second time it raises it. */
  lemma {:induction false} WritingStep(s: System, t: nat, score: real, pin: int)
    requires t < |s.threads| && ThreadOk(s.devs, s.threads[t]) && PinInv(s, pin) && Apart(s, pin)
    requires Guarded(s.devs, pin) && Writing(s, t, pin)
    ensures PinInv(StepThread(s, t, score), pin)
  {
    StepRaisesHigh(s, t, score, pin);
    StepPins(s, t, score);
    var s' := StepThread(s, t, score);
    assert s.devs[s.threads[t].dev].face == 1 && On(s, t, pin);
    if s.threads[t].pc == WriteLevel(true) {
      assert IsHigh(s', pin);
    } else {
      assert Relocking(s', t, pin);
    }
  }

  lemma {:induction false} ReceiveKeepsPinInv(s: System, pin: int)
    requires PinInv(s, pin) && s.queue != []
    ensures PinInv(Receive(s), pin)
  {
    var s' := Receive(s);
    assert forall t :: 0 <= t < |s.threads| ==> s'.threads[t] == s.threads[t] && (On(s', t, pin) <==> On(s, t, pin));
    if !IsHigh(s, pin) {
      var r :| 0 <= r < |s.threads| && Relocking(s, r, pin);
      assert Relocking(s', r, pin);
    }
  }

  lemma {:induction false} QueueKeepsPinInv(s: System, queue: seq<Frame>, armed: bool, pin: int)
    requires PinInv(s, pin)
    ensures PinInv(s.(queue := queue, armed := armed), pin)
  {
    var s' := s.(queue := queue, armed := armed);
    assert forall t :: 0 <= t < |s.threads| ==> (On(s', t, pin) <==> On(s, t, pin));
    if !IsHigh(s, pin) {
      var r :| 0 <= r < |s.threads| && Relocking(s, r, pin);
      assert Relocking(s', r, pin);
    }
  }

  lemma {:induction false} RunKeepsPinInv(s: System, s0: System, t: nat, score: real, pin: int)
    requires Inv(s, s0) && PinInv(s, pin) && Apart(s, pin) && Guarded(s0.devs, pin) && pin != -1 && t < |s.threads|
    ensures PinInv(StepThread(s, t, score), pin)
  {
    assert ThreadOk(s.devs, s.threads[t]);
    if Writing(s, t, pin) { WritingStep(s, t, score, pin); } else { OtherStep(s, t, score, pin); }
  }

  lemma {:induction false} ActKeepsPinInv(serial: bool, s: System, s0: System, a: Action, pin: int)
    requires Inv(s, s0) && PinInv(s, pin) && Apart(s, pin) && Guarded(s0.devs, pin) && pin != -1
    ensures PinInv(Act(serial, s, a), pin)
  {
    match a
    case Run(t, score) => if t < |s.threads| { RunKeepsPinInv(s, s0, t, score, pin); }
    case Take => if s.queue != [] { ReceiveKeepsPinInv(s, pin); }
    case Sample(sample) => QueueKeepsPinInv(s, Act(serial, s, a).queue, Act(serial, s, a).armed, pin);
    case Send(frame) => QueueKeepsPinInv(s, s.queue + [frame], s.armed, pin);
  }

  lemma {:induction false} ExecKeepsPinInv(serial: bool, s0: System, acts: seq<Action>, pin: int)
    requires Fresh(s0) && Guarded(s0.devs, pin) && pin != -1 && IsHigh(s0, pin)
    requires NeverOverlap(serial, s0, acts, pin)
    ensures PinInv(Exec(serial, s0, acts), pin)
  {
    if acts != [] {
      var n := |acts| - 1;
      forall k | 0 <= k <= n ensures Apart(Exec(serial, s0, acts[..n][..k]), pin) {
        assert acts[..n][..k] == acts[..k];
      }
      ExecKeepsPinInv(serial, s0, acts[..n], pin);
      ExecKeepsInv(serial, s0, acts[..n]);
      ActKeepsPinInv(serial, Exec(serial, s0, acts[..n]), s0, acts[n], pin);
    }
  }

  /** In every interleaving in which handlers of devices on the pin do not overlap, whatever the other
    * handlers do: a pin all of whose devices are face-checked, and that starts high, is high whenever
    * no handler is at work on it. */
  lemma {:induction false} GuardedPinIsHighWhenFree(serial: bool, s0: System, acts: seq<Action>, pin: int)
    requires Fresh(s0) && Guarded(s0.devs, pin) && pin != -1 && IsHigh(s0, pin)
    requires NeverOverlap(serial, s0, acts, pin)
    ensures var s := Exec(serial, s0, acts); Free(s, pin) ==> IsHigh(s, pin)
  {
    ExecKeepsPinInv(serial, s0, acts, pin);
  }

  /** Handlers that run one at a time do not overlap. */
  lemma {:induction false} GuardedPinIsHighAtRest(s0: System, acts: seq<Action>, pin: int)
    requires Fresh(s0) && Guarded(s0.devs, pin) && pin != -1 && IsHigh(s0, pin)
    ensures var s := Exec(true, s0, acts); NoneActive(s) ==> IsHigh(s, pin)
  {
    forall k | 0 <= k <= |acts| ensures Apart(Exec(true, s0, acts[..k]), pin) {
      ExecOneAtATime(s0, acts[..k]);
    }
    GuardedPinIsHighWhenFree(true, s0, acts, pin);
    var s := Exec(true, s0, acts);
    if NoneActive(s) { NoneActiveDone(s); }
  }
}
