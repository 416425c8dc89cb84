/** A handler fails when the table lacks the key in the shared message. Which tables and messages keep
  * every handler from failing, when handlers run one at a time and when they overlap. */
module KnownKeys {
  import opened Ini
  import opened Devices
  import opened Runtime
  import opened FaceGate
  import opened Serial
  import opened Reachable
  import opened Settle
  import opened Schedules
  import opened Overlap

  predicate NoCrash(s: System) {
    forall t :: 0 <= t < |s.threads| ==> s.threads[t].pc != Crashed
  }

  /** No handler ever fails, whatever is sent and in whatever order things happen. */
  ghost predicate CrashFree(serial: bool, frames: set<Frame>, smoke: bool, s0: System) {
    forall s :: Reaches(serial, frames, smoke, s0, s) ==> NoCrash(s)
  }

  // ---- One handler at a time

  /** All keys that messages carry, other than the idle key, are in the table. */
  ghost predicate KeysKnown(devs: seq<Device>, frames: set<Frame>, smoke: bool) {
    forall key :: Carried(frames, smoke, key) && key != IDLE_KEY ==> Known(devs, key)
  }

  /** The latest handler still has the key of its message. */
  ghost predicate SerialInv(frames: set<Frame>, smoke: bool, s: System, s0: System) {
    && OneAtATime(s)
    && SameDevices(s.devs, s0.devs)
    && QueueOk(frames, smoke, s.queue)
    && NoCrash(s)
    && (s.threads != [] && Latest(s).pc in {Begin, Find} ==> Carried(frames, smoke, s.key))
    && (s.threads != [] && Latest(s).pc == Find ==> s.key != IDLE_KEY)
  }

  /** The step itself: the key stays until the handler has used it. */
  lemma {:induction false} LatestMoves(s: System, score: real)
    requires s.threads != [] && OneAtATime(s)
    ensures var s' := StepThread(s, |s.threads| - 1, score);
            && s'.threads != [] && OneAtATime(s') && s'.queue == s.queue
            && (Latest(s').pc in {Begin, Find} ==>
                  Latest(s').pc == Find && Latest(s).pc == Begin && s'.key == s.key && s.key != IDLE_KEY)
  {
  }

  lemma {:induction false} SerialMove(frames: set<Frame>, smoke: bool, s: System, s0: System, score: real)
    requires SerialInv(frames, smoke, s, s0) && KeysKnown(s0.devs, frames, smoke) && s.threads != []
    ensures SerialInv(frames, smoke, StepThread(s, |s.threads| - 1, score), s0)
  {
    if Latest(s).pc == Find { KnownStays(s.devs, s0.devs, s.key); }
    NoNewCrash(s, |s.threads| - 1, score);
    OnlyDevices(s, s0, |s.threads| - 1, score);
    LatestMoves(s, score);
    SerialMoved(frames, smoke, s, StepThread(s, |s.threads| - 1, score), s0);
  }

  lemma {:induction false} SerialMoved(frames: set<Frame>, smoke: bool, s: System, s': System, s0: System)
    requires SerialInv(frames, smoke, s, s0) && s.threads != [] && s'.threads != []
    requires OneAtATime(s') && SameDevices(s'.devs, s0.devs) && s'.queue == s.queue && NoCrash(s')
    requires Latest(s').pc in {Begin, Find} ==>
               Latest(s').pc == Find && Latest(s).pc == Begin && s'.key == s.key && s.key != IDLE_KEY
    ensures SerialInv(frames, smoke, s', s0)
  {
  }

  lemma {:induction false} OnlyDevices(s: System, s0: System, t: nat, score: real)
    requires t < |s.threads| && SameDevices(s.devs, s0.devs)
    ensures SameDevices(StepThread(s, t, score).devs, s0.devs)
  {
    assert SameDevices(StepThread(s, t, score).devs, s.devs);
  }

  lemma {:induction false} SerialFinished(frames: set<Frame>, smoke: bool, s: System, s0: System, t: nat, score: real)
    requires SerialInv(frames, smoke, s, s0) && t < |s.threads| - 1
    ensures SerialInv(frames, smoke, StepThread(s, t, score), s0)
  {
    DoneStays(s, t, score);
    assert StepThread(s, t, score) == s;
  }

  /** A step fails only where it looks up an unknown key. */
  lemma {:induction false} NoNewCrash(s: System, t: nat, score: real)
    requires t < |s.threads| && NoCrash(s) && (s.threads[t].pc == Find ==> Known(s.devs, s.key))
    ensures NoCrash(StepThread(s, t, score))
  {
  }

  lemma {:induction false} SerialTake(frames: set<Frame>, smoke: bool, s: System, s0: System)
    requires SerialInv(frames, smoke, s, s0) && s.queue != [] && NoneActive(s)
    ensures SerialInv(frames, smoke, Receive(s), s0)
  {
    NoneActiveDone(s);
    assert s.queue[0] in s.queue;
  }

  lemma {:induction false} SerialQueued(frames: set<Frame>, smoke: bool, s: System, s0: System, queue: seq<Frame>, armed: bool)
    requires SerialInv(frames, smoke, s, s0) && QueueOk(frames, smoke, queue)
    ensures SerialInv(frames, smoke, s.(queue := queue, armed := armed), s0)
  {
  }

  lemma {:induction false} SerialAct(frames: set<Frame>, smoke: bool, s: System, s0: System, a: Action)
    requires SerialInv(frames, smoke, s, s0) && KeysKnown(s0.devs, frames, smoke) && Allowed(frames, smoke, a)
    ensures SerialInv(frames, smoke, Act(true, s, a), s0)
  {
    match a
    case Run(t, score) =>
      if t < |s.threads| - 1 {
        SerialFinished(frames, smoke, s, s0, t, score);
      } else if t < |s.threads| {
        SerialMove(frames, smoke, s, s0, score);
      }
    case Take => if s.queue != [] && NoneActive(s) { SerialTake(frames, smoke, s, s0); }
    case _ =>
      ActQueueOk(true, frames, smoke, s, a);
      SerialQueued(frames, smoke, s, s0, Act(true, s, a).queue, Act(true, s, a).armed);
  }

  lemma {:induction false} SerialExec(frames: set<Frame>, smoke: bool, s0: System, acts: seq<Action>)
    requires Fresh(s0) && KeysKnown(s0.devs, frames, smoke) && AllAllowed(frames, smoke, acts)
    ensures SerialInv(frames, smoke, Exec(true, s0, acts), s0)
  {
    if acts != [] {
      var n := |acts| - 1;
      SerialExec(frames, smoke, s0, acts[..n]);
      assert acts[n] in acts;
      SerialAct(frames, smoke, Exec(true, s0, acts[..n]), s0, acts[n]);
    }
  }

  // ---- Overlapping handlers

  ghost predicate AllKnown(devs: seq<Device>, frames: set<Frame>, smoke: bool) {
    forall key :: MayLookUp(devs, frames, smoke, key) ==> Known(devs, key)
  }

  /** With all keys known that may be looked up, no handler fails. */
  lemma {:induction false} OverlapNoCrash(frames: set<Frame>, smoke: bool, s0: System, acts: seq<Action>)
    requires Fresh(s0) && AllAllowed(frames, smoke, acts) && AllKnown(s0.devs, frames, smoke)
    ensures NoCrash(Exec(false, s0, acts))
  {
    if acts != [] {
      var n := |acts| - 1;
      var s, a := Exec(false, s0, acts[..n]), acts[n];
      OverlapNoCrash(frames, smoke, s0, acts[..n]);
      if a.Run? && a.thread < |s.threads| {
        OverlapExec(frames, smoke, s0, acts[..n]);
        assert HandlerOk(frames, smoke, s0.devs, s.threads[a.thread]);
        if s.threads[a.thread].pc == Find { FindMayLookUp(frames, smoke, s, s0); }
        NoNewCrash(s, a.thread, a.score);
      }
    }
  }

  // ---- Nothing less will do

  /** The first message starts a handler, which is about to look its key up. */
  lemma {:induction false} FirstHandler(serial: bool, frames: set<Frame>, smoke: bool, s0: System, key: int)
    returns (s: System)
    requires Fresh(s0) && Carried(frames, smoke, key) && key != IDLE_KEY
    ensures Reaches(serial, frames, smoke, s0, s) && s.devs == s0.devs && s.queue == [] && s.key == key
    ensures |s.threads| == 1 && s.threads[0].pc == Find
  {
    ReachStart(serial, frames, smoke, s0);
    var f;
    s, f := Bring(serial, frames, smoke, s0, s0, key);
    assert NoneActive(s) && s.queue == [f];
    ReachStep(serial, frames, smoke, s0, s, Take);
    s := Act(serial, s, Take);
    assert |s.threads| == 1 && s.threads[0] == START && s.key == key;
    s := Go(serial, frames, smoke, s0, s, 0, 0.0);
    assert s.devs == s0.devs;
  }

  /** A handler that looks up an unknown key fails. */
  lemma {:induction false} UnknownCrashes(serial: bool, frames: set<Frame>, smoke: bool, s0: System, s: System, t: nat)
    requires Reaches(serial, frames, smoke, s0, s) && t < |s.threads| && s.threads[t].pc == Find
    requires !Known(s.devs, s.key)
    ensures !CrashFree(serial, frames, smoke, s0)
  {
    var s' := Go(serial, frames, smoke, s0, s, t, 0.0);
    assert s'.threads[t].pc == Crashed;
  }

  /** With handlers one at a time, no handler ever fails if and only if every message that starts one
    * carries the idle key or a key of the table. */
  lemma {:induction false} SerialCrashFreeIff(s0: System, frames: set<Frame>, smoke: bool)
    requires Fresh(s0)
    ensures CrashFree(true, frames, smoke, s0) <==> KeysKnown(s0.devs, frames, smoke)
  {
    if KeysKnown(s0.devs, frames, smoke) {
      forall s | Reaches(true, frames, smoke, s0, s) ensures NoCrash(s) {
        var acts :| AllAllowed(frames, smoke, acts) && Exec(true, s0, acts) == s;
        SerialExec(frames, smoke, s0, acts);
      }
    }
    forall key | Carried(frames, smoke, key) && key != IDLE_KEY && !Known(s0.devs, key)
      ensures !CrashFree(true, frames, smoke, s0)
    {
      var s := FirstHandler(true, frames, smoke, s0, key);
      UnknownCrashes(true, frames, smoke, s0, s, 0);
    }
  }

  /** A handler looks up the outcome of another handler's face check. */
  lemma {:induction false} MarkCrashes(frames: set<Frame>, smoke: bool, s0: System, key: int)
    requires Fresh(s0) && key in {FACE_PASSED, FACE_FAILED} && FaceReached(s0.devs, frames, smoke)
    requires !Known(s0.devs, key)
    ensures !CrashFree(false, frames, smoke, s0)
  {
    ReachStart(false, frames, smoke, s0);
    var s1 := Marked(frames, smoke, s0, s0, key);
    IdleStep(frames, smoke, s0, s1, 1, 0.0);
    var s2 := StepThread(s1, 1, 0.0);
    KnownStays(s2.devs, s0.devs, key);
    UnknownCrashes(false, frames, smoke, s0, s2, 1);
  }

  /** With overlapping handlers, no handler ever fails if and only if the table has every key that may be
    * looked up: the keys of the messages, the idle key if it is sent beside another key, and the two
    * outcomes of the face check if one of these keys belongs to a face-checked device. */
  lemma {:induction false} OverlapCrashFreeIff(s0: System, frames: set<Frame>, smoke: bool)
    requires Fresh(s0)
    ensures CrashFree(false, frames, smoke, s0) <==> AllKnown(s0.devs, frames, smoke)
  {
    if AllKnown(s0.devs, frames, smoke) {
      forall s | Reaches(false, frames, smoke, s0, s) ensures NoCrash(s) {
        var acts :| AllAllowed(frames, smoke, acts) && Exec(false, s0, acts) == s;
        OverlapNoCrash(frames, smoke, s0, acts);
      }
    }
    forall key | MayLookUp(s0.devs, frames, smoke, key) && !Known(s0.devs, key)
      ensures !CrashFree(false, frames, smoke, s0)
    {
      if SentKey(frames, smoke, key) {
        ReachStart(false, frames, smoke, s0);
        var s := AtFind(frames, smoke, s0, s0, key);
        KnownStays(s.devs, s0.devs, key);
        UnknownCrashes(false, frames, smoke, s0, s, 0);
      } else {
        MarkCrashes(frames, smoke, s0, key);
      }
    }
  }

  // ---- The two at one input

  /** A face-checked lock and a fan, and messages to both: handlers one at a time never fail, but when
    * they overlap, the outcome of the face check can take the place of the fan's key. */
  lemma {:induction false} LockAndFan(s0: System)
    requires Fresh(s0) && s0.devs == [LOCK, FAN]
    ensures CrashFree(true, {TO_LOCK, TO_FAN}, false, s0)
    ensures !CrashFree(false, {TO_LOCK, TO_FAN}, false, s0)
  {
    var frames := {TO_LOCK, TO_FAN};
    assert Lookup([LOCK, FAN], 0x44) == Some(0);
    assert [LOCK, FAN][1..] == [FAN];
    assert Lookup([LOCK, FAN], 0x43) == Some(1);
    SerialCrashFreeIff(s0, frames, false);
    assert Carried(frames, false, 0x44) by { assert TO_LOCK in frames; }
    assert SentKey(frames, false, 0x44) && AsksForFace(s0.devs, 0x44);
    LookupSpec(s0.devs, FACE_FAILED);
    assert MayLookUp(s0.devs, frames, false, FACE_FAILED) && !Known(s0.devs, FACE_FAILED);
    OverlapCrashFreeIff(s0, frames, false);
  }

  // ---- The system comes to rest

  /** With known keys and handlers one at a time, from every reachable state the receiver and the
    * handlers alone bring the system to a state with an empty queue and no active handler. */
  lemma {:induction false} ComesToRest(frames: set<Frame>, smoke: bool, s0: System, s: System) returns (s': System)
    requires Fresh(s0) && KeysKnown(s0.devs, frames, smoke) && Reaches(true, frames, smoke, s0, s)
    ensures Reaches(true, {}, false, s, s') && s'.queue == [] && NoneActive(s')
  {
    var acts :| AllAllowed(frames, smoke, acts) && Exec(true, s0, acts) == s;
    SerialExec(frames, smoke, s0, acts);
    ReachStart(true, {}, false, s);
    s' := Drain(frames, smoke, s0, s, s);
  }

  lemma {:induction false} Drain(frames: set<Frame>, smoke: bool, s0: System, origin: System, s: System) returns (s': System)
    requires SerialInv(frames, smoke, s, s0) && KeysKnown(s0.devs, frames, smoke) && Reaches(true, {}, false, origin, s)
    ensures Reaches(true, {}, false, origin, s') && s'.queue == [] && NoneActive(s')
    decreases |s.queue|, if s.threads == [] then 0 else StepsLeft(Latest(s).pc)
  {
    if s.threads != [] && Latest(s).pc != Done {
      NearerToRest(s, 0.0);
      var s1 := LatestRuns(frames, smoke, s0, origin, s);
      s' := Drain(frames, smoke, s0, origin, s1);
    } else {
      AllDoneInactive(s);
      if s.queue == [] {
        s' := s;
      } else {
        SerialTake(frames, smoke, s, s0);
        ReachStep(true, {}, false, origin, s, Take);
        s' := Drain(frames, smoke, s0, origin, Receive(s));
      }
    }
  }

  lemma {:induction false} LatestRuns(frames: set<Frame>, smoke: bool, s0: System, origin: System, s: System) returns (s': System)
    requires SerialInv(frames, smoke, s, s0) && KeysKnown(s0.devs, frames, smoke) && Reaches(true, {}, false, origin, s)
    requires s.threads != []
    ensures s' == StepThread(s, |s.threads| - 1, 0.0)
    ensures SerialInv(frames, smoke, s', s0) && Reaches(true, {}, false, origin, s')
  {
    s' := Go(true, {}, false, origin, s, |s.threads| - 1, 0.0);
    SerialMove(frames, smoke, s, s0, 0.0);
  }

  lemma {:induction false} NearerToRest(s: System, score: real)
    requires s.threads != [] && !(Latest(s).pc in {Done, Crashed})
    ensures var s' := StepThread(s, |s.threads| - 1, score);
            && s'.threads != [] && s'.queue == s.queue && StepsLeft(Latest(s').pc) < StepsLeft(Latest(s).pc)
  {
    StepsDescend(s, Latest(s), DeviceOf(s, Latest(s)), score);
  }
}
