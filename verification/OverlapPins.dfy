/** A pin behind the face check when handlers overlap, as the program lets them: which tables and messages
  * keep it high whenever no handler is at work on it. */
module OverlapPins {
  import opened Ini
  import opened Devices
  import opened Runtime
  import opened FaceGate
  import opened Serial
  import opened GuardedPins
  import opened Handler
  import opened Reachable
  import opened Overlap
  import opened Settle
  import opened Schedules

  /** Some message that a handler is started for has the value for low. Its key does not matter. */
  predicate LowSent(frames: set<Frame>, smoke: bool) {
    smoke || exists f :: f in frames && ValidFrame(f) && f.value == 0
  }

  predicate LeadsTo(devs: seq<Device>, key: int, pin: int) {
    match Lookup(devs, key)
    case Some(i) => i < |devs| && devs[i].pin == pin
    case None => false
  }

  /** Some handler may find a device on the pin. */
  ghost predicate MayBeFound(devs: seq<Device>, frames: set<Frame>, smoke: bool, pin: int) {
    exists key :: MayLookUp(devs, frames, smoke, key) && LeadsTo(devs, key, pin)
  }

  // ---- Without a message for low, every level written is high

  predicate HighThread(devs: seq<Device>, th: Thread) {
    && (!(th.pc in {Begin, Find, Done, Crashed}) ==>
          th.dev < |devs| && (th.pc != Store ==> devs[th.dev].status == HIGH))
    && (th.pc.WriteLevel? ==> th.out == HIGH)
  }

  predicate HighInv(s: System, pin: int) {
    && IsHigh(s, pin)
    && (s.threads != [] ==> s.value != 0)
    && (forall f :: f in s.queue && ValidFrame(f) ==> f.value != 0)
    && forall t :: 0 <= t < |s.threads| ==> HighThread(s.devs, s.threads[t])
  }

  lemma {:induction false} HighMover(s: System, t: nat, score: real)
    requires t < |s.threads| && s.value != 0 && HighThread(s.devs, s.threads[t])
    ensures var s' := StepThread(s, t, score); HighThread(s'.devs, s'.threads[t])
  {
    LookupSpec(s.devs, s.key);
  }

  lemma {:induction false} HighRun(s: System, t: nat, score: real, pin: int)
    requires HighInv(s, pin) && t < |s.threads|
    ensures HighInv(StepThread(s, t, score), pin)
  {
    var s' := StepThread(s, t, score);
    assert HighThread(s.devs, s.threads[t]);
    forall u | 0 <= u < |s'.threads| ensures HighThread(s'.devs, s'.threads[u]) {
      if u == t { HighMover(s, t, score); }
    }
  }

  lemma {:induction false} HighExec(frames: set<Frame>, s0: System, acts: seq<Action>, pin: int)
    requires Fresh(s0) && IsHigh(s0, pin) && !LowSent(frames, false) && AllAllowed(frames, false, acts)
    ensures HighInv(Exec(false, s0, acts), pin)
  {
    if acts != [] {
      var n := |acts| - 1;
      var s := Exec(false, s0, acts[..n]);
      HighExec(frames, s0, acts[..n], pin);
      assert acts[n] in acts;
      match acts[n]
      case Run(t, score) => if t < |s.threads| { HighRun(s, t, score, pin); }
      case Take => if s.queue != [] { assert s.queue[0] in s.queue; }
      case _ =>
    }
  }

  // ---- Without a key for the pin, nobody writes it

  ghost predicate UnfoundInv(s: System, pin: int) {
    IsHigh(s, pin) && Free(s, pin)
  }

  lemma {:induction false} UnfoundRun(frames: set<Frame>, smoke: bool, s: System, s0: System, t: nat, score: real, pin: int)
    requires OverlapInv(frames, smoke, s, s0) && !MayBeFound(s0.devs, frames, smoke, pin)
    requires UnfoundInv(s, pin) && pin != -1 && t < |s.threads|
    ensures UnfoundInv(StepThread(s, t, score), pin)
  {
    var th, s' := s.threads[t], StepThread(s, t, score);
    StepPins(s, t, score);
    assert !On(s, t, pin);
    assert ThreadOk(s.devs, th) && HandlerOk(frames, smoke, s0.devs, th);
    if th.pc == Find {
      FindMayLookUp(frames, smoke, s, s0);
      LookupSpec(s.devs, s.key);
      assert !LeadsTo(s0.devs, s.key, pin);
      assert forall i :: 0 <= i < |s.devs| ==> s.devs[i] == s0.devs[i].(status := s.devs[i].status);
    }
    forall u | 0 <= u < |s'.threads| ensures !On(s', u, pin) {
      assert !On(s, u, pin);
    }
  }

  lemma {:induction false} UnfoundExec(frames: set<Frame>, smoke: bool, s0: System, acts: seq<Action>, pin: int)
    requires Fresh(s0) && IsHigh(s0, pin) && pin != -1 && AllAllowed(frames, smoke, acts)
    requires !MayBeFound(s0.devs, frames, smoke, pin)
    ensures UnfoundInv(Exec(false, s0, acts), pin)
  {
    if acts != [] {
      var n := |acts| - 1;
      var s := Exec(false, s0, acts[..n]);
      UnfoundExec(frames, smoke, s0, acts[..n], pin);
      OverlapExec(frames, smoke, s0, acts[..n]);
      match acts[n]
      case Run(t, score) => if t < |s.threads| { UnfoundRun(frames, smoke, s, s0, t, score, pin); }
      case _ => UnfoundRest(s, acts[n], pin);
    }
  }

  lemma {:induction false} UnfoundRest(s: System, a: Action, pin: int)
    requires UnfoundInv(s, pin) && !a.Run?
    ensures UnfoundInv(Act(false, s, a), pin)
  {
    var s' := Act(false, s, a);
    forall u | 0 <= u < |s'.threads| ensures !On(s', u, pin) {
      if u < |s.threads| { assert !On(s, u, pin); }
    }
  }

  // ---- With both, two handlers can leave the pin low

  /** A message for low is sent and taken. */
  lemma {:induction false} LowStarted(frames: set<Frame>, smoke: bool, s0: System, s: System) returns (s': System)
    requires Idle(frames, smoke, s0, s) && LowSent(frames, smoke)
    ensures Idle(frames, smoke, s0, s') && s'.value == 0
    ensures s'.threads == s.threads + [START] && s'.devs == s.devs
  {
    var f := START_FRAME;
    if smoke {
      ReachStep(false, frames, smoke, s0, s, Sample(LOW));
      s' := Act(false, s, Sample(LOW));
    } else {
      f :| f in frames && ValidFrame(f) && f.value == 0;
      ReachStep(false, frames, smoke, s0, s, Send(f));
      s' := Act(false, s, Send(f));
    }
    assert s'.queue == [f];
    ReachStep(false, frames, smoke, s0, s', Take);
    s' := Act(false, s', Take);
  }

  /** A handler finds its device, by the key of a message or by the outcome of another's face check. */
  lemma {:induction false} OneFound(frames: set<Frame>, smoke: bool, s0: System, s: System, key: int, i: nat)
    returns (s': System, t: nat)
    requires Idle(frames, smoke, s0, s) && MayLookUp(s0.devs, frames, smoke, key) && Lookup(s0.devs, key) == Some(i)
    ensures Idle(frames, smoke, s0, s') && s.threads <= s'.threads
    ensures |s.threads| <= t < |s'.threads| && s'.threads[t] == Found(i)
    ensures forall u :: |s.threads| <= u < |s'.threads| && u != t ==> s'.threads[u].pc in {Begin, Done}
  {
    if SentKey(frames, smoke, key) {
      s' := FoundBySent(frames, smoke, s0, s, key, i);
      t := |s.threads|;
    } else {
      var s1 := Marked(frames, smoke, s0, s, key);
      t := |s.threads| + 1;
      KnownStays(s1.devs, s0.devs, key);
      s' := Finds(s1, t, i);
      IdleRuns(frames, smoke, s0, s1, s');
    }
  }

  /** Two handlers of the face-checked device `i`, and a message for low in the shared buffer; the others
    * have not moved since `o`. */
  ghost predicate Two(o: System, s: System, a: nat, b: nat, i: nat) {
    && RunsTo(o, s)
    && s.queue == o.queue
    && SameDevices(s.devs, o.devs)
    && s.value == 0
    && a < |o.threads|
    && b < |o.threads|
    && a != b
    && |s.threads| == |o.threads|
    && (forall u :: 0 <= u < |o.threads| && u != a && u != b ==> s.threads[u] == o.threads[u])
    && i < |s.devs|
    && s.devs[i].face == 1
    && s.devs[i].pin != -1
    && s.threads[a].dev == i
    && s.threads[b].dev == i
  }

  /** One step of one of the two. */
  lemma {:induction false} Move(o: System, s: System, a: nat, b: nat, i: nat, t: nat, score: real) returns (s': System)
    requires Two(o, s, a, b, i) && t in {a, b} && !(s.threads[t].pc in {Begin, Find})
    ensures s' == StepThread(s, t, score) && Two(o, s', a, b, i)
    ensures s'.threads[t] == NextThread(s, s.threads[t], s.devs[i], score)
    ensures s'.threads[a + b - t] == s.threads[a + b - t]
    ensures s'.devs[i].status == NextStatus(s, s.threads[t].pc, s.devs[i].status)
  {
    s' := StepThread(s, t, score);
    OneRun(s, t, score);
    RunsOn(o, s, s');
    assert SameDevices(s'.devs, s.devs);
    SameDevicesOn(s'.devs, s.devs, o.devs);
  }

  /** The first passes the face check and sets its pin. */
  lemma {:induction false} FirstPasses(o: System, s: System, a: nat, b: nat, i: nat) returns (s': System)
    requires Two(o, s, a, b, i) && s.threads[a].pc == Store
    ensures Two(o, s', a, b, i) && s'.threads[b] == s.threads[b]
    ensures s'.threads[a].pc == MarkPassed && Passed(s'.threads[a].score)
    ensures s'.threads[a].ret == 0
  {
    s' := Move(o, s, a, b, i, a, 0.9);
    s' := Move(o, s', a, b, i, a, 0.9);
    assert s'.threads[a].pc == SetMode(false) && Passed(s'.threads[a].score);
    s' := Move(o, s', a, b, i, a, 0.9);
    s' := Move(o, s', a, b, i, a, 0.9);
    s' := Move(o, s', a, b, i, a, 0.9);
  }

  /** It stores HIGH to raise the pin again. */
  lemma {:induction false} FirstStores(o: System, s: System, a: nat, b: nat, i: nat) returns (s': System)
    requires Two(o, s, a, b, i)
    requires s.threads[a].pc == MarkPassed && Passed(s.threads[a].score) && s.threads[a].ret == 0
    ensures Two(o, s', a, b, i) && s'.threads[b] == s.threads[b]
    ensures s'.threads[a].pc == SetMode(true)
  {
    s' := Move(o, s, a, b, i, a, 0.9);
    s' := Move(o, s', a, b, i, a, 0.9);
    s' := Move(o, s', a, b, i, a, 0.9);
  }

  /** The second stores LOW before the first reads the status for the pin. */
  lemma {:induction false} SecondStores(o: System, s: System, a: nat, b: nat, i: nat) returns (s': System)
    requires Two(o, s, a, b, i) && s.threads[a].pc == SetMode(true) && s.threads[b].pc == Store
    ensures Two(o, s', a, b, i) && s'.threads[a].pc == Done
    ensures s'.threads[b].pc == Judge
    ensures PinLevel(s', s.devs[i].pin) == Some(LOW) && s'.devs[i].status == LOW
  {
    s' := Move(o, s, a, b, i, b, 0.0);
    s' := Move(o, s', a, b, i, a, 0.9);
    assert s'.devs[i].status == LOW && s'.threads[a].pc == ReadLevel(true);
    s' := Move(o, s', a, b, i, a, 0.9);
    assert s'.threads[a].pc == WriteLevel(true) && s'.threads[a].out == LOW;
    s' := Move(o, s', a, b, i, a, 0.9);
  }

  /** The second is turned away, and the pin stays low. */
  lemma {:induction false} BothHandled(o: System, a: nat, b: nat, i: nat) returns (s': System)
    requires Two(o, o, a, b, i) && o.threads[a].pc == Store && o.threads[b].pc == Store
    ensures RunsTo(o, s') && s'.queue == o.queue
    ensures SameDevices(s'.devs, o.devs) && |s'.threads| == |o.threads|
    ensures forall u :: 0 <= u < |o.threads| && u != a && u != b ==> s'.threads[u] == o.threads[u]
    ensures s'.threads[a].pc == Done && s'.threads[b].pc == Done
    ensures PinLevel(s', o.devs[i].pin) == Some(LOW)
  {
    var s1 := FirstPasses(o, o, a, b, i);
    var s2 := FirstStores(o, s1, a, b, i);
    var s3 := SecondStores(o, s2, a, b, i);
    assert s2.devs[i] == o.devs[i].(status := s2.devs[i].status);
    FinishJudge(s3, b, 0.0, i);
    FinishRuns(s3, b, 0.0);
    s' := Finish(s3, b, 0.0);
    RunsOn(o, s3, s');
    SameDevicesOn(s'.devs, s3.devs, o.devs);
    assert View(s').levels == s3.levels;
  }

  /** Two handlers find the same device on the pin, and a third message is one for low: then the pin can
    * be low, with all handlers ended or not begun. */
  lemma {:induction false} PinLowered(frames: set<Frame>, smoke: bool, s0: System, key: int, pin: int) returns (s: System)
    requires Fresh(s0) && Guarded(s0.devs, pin) && pin != -1 && LowSent(frames, smoke)
    requires MayLookUp(s0.devs, frames, smoke, key) && LeadsTo(s0.devs, key, pin)
    ensures Idle(frames, smoke, s0, s) && PinLevel(s, pin) == Some(LOW)
    ensures forall u :: 0 <= u < |s.threads| ==> s.threads[u].pc in {Begin, Done}
  {
    var i := Lookup(s0.devs, key).value;
    ReachStart(false, frames, smoke, s0);
    var s1, a := OneFound(frames, smoke, s0, s0, key, i);
    var s2, b := OneFound(frames, smoke, s0, s1, key, i);
    var o := LowStarted(frames, smoke, s0, s2);
    assert o.devs[i] == s0.devs[i].(status := o.devs[i].status) && o.threads[a] == o.threads[b] == Found(i);
    RunsStart(o);
    assert SameDevices(o.devs, o.devs);
    s := BothHandled(o, a, b, i);
    IdleRuns(frames, smoke, s0, o, s);
  }

  /** And the remaining handlers can end and leave it low. */
  lemma {:induction false} PinStaysLow(frames: set<Frame>, smoke: bool, s0: System, key: int, pin: int) returns (s: System)
    requires Fresh(s0) && Guarded(s0.devs, pin) && pin != -1 && LowSent(frames, smoke)
    requires MayLookUp(s0.devs, frames, smoke, key) && LeadsTo(s0.devs, key, pin)
    ensures Reaches(false, frames, smoke, s0, s) && s.queue == []
    ensures NoneActive(s) && PinLevel(s, pin) == Some(LOW)
  {
    var s1 := PinLowered(frames, smoke, s0, key, pin);
    var k := key;
    if !SentKey(frames, smoke, key) { k :| SentKey(frames, smoke, k) && AsksForFace(s0.devs, k); }
    var s2 := Started(frames, smoke, s0, s1, k);
    LookupSpec(s0.devs, k);
    assert Serves(s0.devs, k, pin);
    ServesSame(s2.devs, s0.devs, k, pin);
    s := AllSettle(s2, pin);
    ReachRuns(frames, smoke, s0, s2, s);
  }

  // ---- Exactly when a guarded pin is kept high

  ghost predicate HighWhenFree(frames: set<Frame>, smoke: bool, s0: System, pin: int) {
    forall s :: Reaches(false, frames, smoke, s0, s) && Free(s, pin) ==> IsHigh(s, pin)
  }

  ghost predicate HighAtRest(frames: set<Frame>, smoke: bool, s0: System, pin: int) {
    forall s :: Reaches(false, frames, smoke, s0, s) && s.queue == [] && NoneActive(s) ==> IsHigh(s, pin)
  }

  /** A pin all of whose devices are face-checked, and that starts high, is high whenever no handler is at
    * work on it, and whenever the system is at rest, if and only if no message is one for low, or no key
    * that may be looked up leads to the pin. */
  lemma {:induction false} GuardedPinIsHighIff(s0: System, frames: set<Frame>, smoke: bool, pin: int)
    requires Fresh(s0) && Guarded(s0.devs, pin) && pin != -1 && IsHigh(s0, pin)
    ensures HighWhenFree(frames, smoke, s0, pin) <==> !(LowSent(frames, smoke) && MayBeFound(s0.devs, frames, smoke, pin))
    ensures HighAtRest(frames, smoke, s0, pin) <==> !(LowSent(frames, smoke) && MayBeFound(s0.devs, frames, smoke, pin))
  {
    if LowSent(frames, smoke) && MayBeFound(s0.devs, frames, smoke, pin) {
      var key :| MayLookUp(s0.devs, frames, smoke, key) && LeadsTo(s0.devs, key, pin);
      var s := PinStaysLow(frames, smoke, s0, key, pin);
      NoneActiveDone(s);
      assert !IsHigh(s, pin) && Free(s, pin);
    } else {
      forall s | Reaches(false, frames, smoke, s0, s) && Free(s, pin) ensures IsHigh(s, pin) {
        var acts :| AllAllowed(frames, smoke, acts) && Exec(false, s0, acts) == s;
        if LowSent(frames, smoke) {
          UnfoundExec(frames, smoke, s0, acts, pin);
        } else {
          HighExec(frames, s0, acts, pin);
        }
      }
      forall s | Reaches(false, frames, smoke, s0, s) && s.queue == [] && NoneActive(s) ensures IsHigh(s, pin) {
        NoneActiveDone(s);
        assert Free(s, pin);
      }
    }
  }

  /** The lock alone and messages that open it: overlapping handlers can leave its pin low with the queue
    * empty and no handler active. */
  lemma {:induction false} OverlapLeavesPinLow(s0: System)
    requires Fresh(s0) && s0.devs == [LOCK] && IsHigh(s0, LOCK.pin)
    ensures Guarded(s0.devs, LOCK.pin) && !HighAtRest({TO_LOCK}, false, s0, LOCK.pin)
  {
    assert TO_LOCK in {TO_LOCK} && Carried({TO_LOCK}, false, 0x44);
    assert SentKey({TO_LOCK}, false, 0x44);
    assert Lookup([LOCK], 0x44) == Some(0);
    assert MayLookUp(s0.devs, {TO_LOCK}, false, 0x44) && LeadsTo(s0.devs, 0x44, LOCK.pin);
    GuardedPinIsHighIff(s0, {TO_LOCK}, false, LOCK.pin);
  }
}
