/** Which keys messages carry and handlers may look up, and runs that bring handlers to given points.
  * A key may be looked up because a message carries it, or because it is the outcome of a face check that
  * another handler has written over the key of a message. For each such key there is a run that brings a
  * handler to its device. */
module Schedules {
  import opened Ini
  import opened Devices
  import opened Runtime
  import opened FaceGate
  import opened Serial
  import opened Handler
  import opened Reachable
  import opened Settle

  /** Some message that a handler is started for carries this key. */
  predicate Carried(frames: set<Frame>, smoke: bool, key: int) {
    (exists f :: f in frames && ValidFrame(f) && f.key == key) || (smoke && key == SMOKE_KEY)
  }

  predicate Known(devs: seq<Device>, key: int) {
    Lookup(devs, key).Some?
  }

  lemma {:induction false} KnownStays(now: seq<Device>, before: seq<Device>, key: int)
    requires SameDevices(now, before)
    ensures Lookup(now, key) == Lookup(before, key)
  {
    assert forall i :: 0 <= i < |now| ==> now[i] == before[i].(status := now[i].status);
    SameKeys(now, before, key);
  }

  /** A handler can get past the idle check with this key in the shared message: a message carries it,
    * and some message carries a key that is not the idle key. */
  ghost predicate SentKey(frames: set<Frame>, smoke: bool, key: int) {
    Carried(frames, smoke, key) && exists k :: Carried(frames, smoke, k) && k != IDLE_KEY
  }

  predicate AsksForFace(devs: seq<Device>, key: int) {
    match Lookup(devs, key)
    case Some(i) => i < |devs| && devs[i].face == 1
    case None => false
  }

  /** Some handler reaches the face check, and overwrites the key with the outcome. */
  ghost predicate FaceReached(devs: seq<Device>, frames: set<Frame>, smoke: bool) {
    exists k :: SentKey(frames, smoke, k) && AsksForFace(devs, k)
  }

  /** The keys that overlapping handlers may look up. */
  ghost predicate MayLookUp(devs: seq<Device>, frames: set<Frame>, smoke: bool, key: int) {
    SentKey(frames, smoke, key) || (key in {FACE_PASSED, FACE_FAILED} && FaceReached(devs, frames, smoke))
  }

  // ---- Runs

  /** A message with this key gets to the end of the queue. */
  lemma {:induction false} Bring(serial: bool, frames: set<Frame>, smoke: bool, s0: System, s: System, key: int)
    returns (s': System, f: Frame)
    requires Reaches(serial, frames, smoke, s0, s) && Carried(frames, smoke, key)
    ensures Reaches(serial, frames, smoke, s0, s') && ValidFrame(f) && f.key == key
    ensures s' == s.(queue := s.queue + [f], armed := s'.armed)
  {
    if smoke && key == SMOKE_KEY {
      ReachStep(serial, frames, smoke, s0, s, Sample(LOW));
      s', f := Act(serial, s, Sample(LOW)), Frame(0xAA, 0x55, SMOKE_KEY, 0x00, 0x55, 0xAA);
    } else {
      f :| f in frames && ValidFrame(f) && f.key == key;
      ReachStep(serial, frames, smoke, s0, s, Send(f));
      s' := Act(serial, s, Send(f));
    }
  }

  lemma {:induction false} Go(serial: bool, frames: set<Frame>, smoke: bool, s0: System, s: System, t: nat, score: real)
    returns (s': System)
    requires Reaches(serial, frames, smoke, s0, s) && t < |s.threads|
    ensures Reaches(serial, frames, smoke, s0, s') && s' == StepThread(s, t, score)
  {
    ReachStep(serial, frames, smoke, s0, s, Run(t, score));
    s' := StepThread(s, t, score);
  }

  /** A reachable state with nothing in the queue. */
  ghost predicate Idle(frames: set<Frame>, smoke: bool, s0: System, s: System) {
    && Reaches(false, frames, smoke, s0, s)
    && s.queue == []
    && SameDevices(s.devs, s0.devs)
  }

  lemma {:induction false} IdleRuns(frames: set<Frame>, smoke: bool, s0: System, s: System, s': System)
    requires Idle(frames, smoke, s0, s) && RunsTo(s, s') && s'.queue == s.queue && SameDevices(s'.devs, s.devs)
    ensures Idle(frames, smoke, s0, s')
  {
    ReachRuns(frames, smoke, s0, s, s');
    SameDevicesOn(s'.devs, s.devs, s0.devs);
  }

  lemma {:induction false} IdleStep(frames: set<Frame>, smoke: bool, s0: System, s: System, t: nat, score: real)
    requires Idle(frames, smoke, s0, s) && t < |s.threads|
    ensures Idle(frames, smoke, s0, StepThread(s, t, score))
  {
    OneRun(s, t, score);
    assert SameDevices(StepThread(s, t, score).devs, s.devs);
    IdleRuns(frames, smoke, s0, s, StepThread(s, t, score));
  }

  /** A message with this key is sent and taken. */
  lemma {:induction false} Started(frames: set<Frame>, smoke: bool, s0: System, s: System, key: int) returns (s': System)
    requires Idle(frames, smoke, s0, s) && Carried(frames, smoke, key)
    ensures Idle(frames, smoke, s0, s')
    ensures s' == s.(key := key, value := s'.value, threads := s.threads + [START], armed := s'.armed)
  {
    var f;
    s', f := Bring(false, frames, smoke, s0, s, key);
    assert s'.queue == [f];
    ReachStep(false, frames, smoke, s0, s', Take);
    s' := Act(false, s', Take);
  }

  function Found(i: nat): Thread {
    START.(pc := Store, dev := i)
  }

  /** A handler is about to look up this key, and another has not begun. */
  lemma {:induction false} AtFind(frames: set<Frame>, smoke: bool, s0: System, s: System, key: int) returns (s': System)
    requires Idle(frames, smoke, s0, s) && SentKey(frames, smoke, key)
    ensures Idle(frames, smoke, s0, s') && s'.threads == s.threads + [START.(pc := Find), START]
    ensures s'.key == key
  {
    var t := |s.threads|;
    var k :| Carried(frames, smoke, k) && k != IDLE_KEY;
    var s1 := Started(frames, smoke, s0, s, k);
    IdleStep(frames, smoke, s0, s1, t, 0.0);
    var s2 := StepThread(s1, t, 0.0);
    assert s2.threads == s.threads + [START.(pc := Find)];
    s' := Started(frames, smoke, s0, s2, key);
  }

  /** A handler finds its device by the key of a message. */
  lemma {:induction false} FoundBySent(frames: set<Frame>, smoke: bool, s0: System, s: System, key: int, i: nat) returns (s': System)
    requires Idle(frames, smoke, s0, s) && SentKey(frames, smoke, key) && Lookup(s0.devs, key) == Some(i)
    ensures Idle(frames, smoke, s0, s')
    ensures s'.threads == s.threads + [Found(i), START]
  {
    var s1 := AtFind(frames, smoke, s0, s, key);
    KnownStays(s1.devs, s0.devs, key);
    IdleStep(frames, smoke, s0, s1, |s.threads|, 0.0);
    s' := StepThread(s1, |s.threads|, 0.0);
  }

  /** A handler leaves the outcome of its face check in the shared message; the next has not begun. */
  lemma {:induction false} Marked(frames: set<Frame>, smoke: bool, s0: System, s: System, key: int) returns (s': System)
    requires Idle(frames, smoke, s0, s) && key in {FACE_PASSED, FACE_FAILED} && FaceReached(s0.devs, frames, smoke)
    ensures Idle(frames, smoke, s0, s') && |s'.threads| == |s.threads| + 2
    ensures s.threads <= s'.threads
    ensures s'.threads[|s.threads|].pc == Done && s'.threads[|s.threads| + 1] == START
    ensures s'.key == key
  {
    var t, score := |s.threads|, if key == FACE_PASSED then 0.9 else 0.0;
    var k :| SentKey(frames, smoke, k) && AsksForFace(s0.devs, k);
    var j := Lookup(s0.devs, k).value;
    var s1 := FoundBySent(frames, smoke, s0, s, k, j);
    assert s1.devs[j] == s0.devs[j].(status := s1.devs[j].status);
    FinishStore(s1, t, score, j);
    FinishRuns(s1, t, score);
    s' := Finish(s1, t, score);
    IdleRuns(frames, smoke, s0, s1, s');
    assert View(s').key == key;
  }

  /** A handler finds the device that the shared key leads to. */
  lemma {:induction false} Finds(s: System, t: nat, i: nat) returns (s': System)
    requires t < |s.threads| && s.threads[t] == START && s.key != IDLE_KEY && Lookup(s.devs, s.key) == Some(i)
    ensures RunsTo(s, s') && s' == s.(threads := s.threads[t := Found(i)])
  {
    BeforeStore(s, t, 0.0);
    OneRun(s, t, 0.0);
    var s1 := StepThread(s, t, 0.0);
    BeforeStore(s1, t, 0.0);
    OneRun(s1, t, 0.0);
    s' := StepThread(s1, t, 0.0);
    RunsOn(s, s1, s');
  }
}
