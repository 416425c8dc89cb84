/** What is true of handlers and the shared key in every interleaving, whatever the table has.
  * A handler that has passed the idle check owes that to a message with another key; one at its face check
  * owes it to a message for a face-checked device; and the shared key is one that may be looked up, unless
  * no message carries any key but the idle one. */
module Overlap {
  import opened Ini
  import opened Devices
  import opened Runtime
  import opened FaceGate
  import opened Reachable
  import opened Schedules

  /** Everything in the queue that starts a handler carries one of these keys. */
  predicate QueueOk(frames: set<Frame>, smoke: bool, queue: seq<Frame>) {
    forall f :: f in queue && ValidFrame(f) ==> Carried(frames, smoke, f.key)
  }

  lemma {:induction false} ActQueueOk(serial: bool, frames: set<Frame>, smoke: bool, s: System, a: Action)
    requires QueueOk(frames, smoke, s.queue) && Allowed(frames, smoke, a)
    ensures QueueOk(frames, smoke, Act(serial, s, a).queue)
  {
  }

  /** What is true of a handler at each point. */
  ghost predicate HandlerOk(frames: set<Frame>, smoke: bool, devs: seq<Device>, th: Thread) {
    && (!(th.pc in {Begin, Done}) ==> exists k :: Carried(frames, smoke, k) && k != IDLE_KEY)
    && (!(th.pc in {Begin, Find, Done, Crashed}) && th.dev < |devs| && devs[th.dev].face == 1
        ==> FaceReached(devs, frames, smoke))
    && (th.pc in {Judge, MarkPassed, MarkFailed} ==> FaceReached(devs, frames, smoke))
  }

  /** The shared key is one that may be looked up, unless no handler ever gets that far. */
  ghost predicate KeyOk(frames: set<Frame>, smoke: bool, s: System, s0: System) {
    MayLookUp(s0.devs, frames, smoke, s.key)
    || (s.key == IDLE_KEY && forall k :: Carried(frames, smoke, k) ==> k == IDLE_KEY)
  }

  ghost predicate OverlapInv(frames: set<Frame>, smoke: bool, s: System, s0: System) {
    && SameDevices(s.devs, s0.devs)
    && QueueOk(frames, smoke, s.queue)
    && (forall t :: 0 <= t < |s.threads| ==>
          ThreadOk(s.devs, s.threads[t]) && HandlerOk(frames, smoke, s0.devs, s.threads[t]))
    && (s.threads != [] ==> KeyOk(frames, smoke, s, s0))
  }

  lemma {:induction false} FindMayLookUp(frames: set<Frame>, smoke: bool, s: System, s0: System)
    requires SameDevices(s.devs, s0.devs) && KeyOk(frames, smoke, s, s0)
    requires exists k :: Carried(frames, smoke, k) && k != IDLE_KEY
    ensures MayLookUp(s0.devs, frames, smoke, s.key) && Lookup(s.devs, s.key) == Lookup(s0.devs, s.key)
    ensures AsksForFace(s0.devs, s.key) ==> FaceReached(s0.devs, frames, smoke)
  {
    KnownStays(s.devs, s0.devs, s.key);
  }

  /** The thread that moves. */
  lemma {:induction false} MoverOk(frames: set<Frame>, smoke: bool, s: System, s0: System, th: Thread, score: real)
    requires SameDevices(s.devs, s0.devs) && KeyOk(frames, smoke, s, s0)
    requires ThreadOk(s.devs, th) && HandlerOk(frames, smoke, s0.devs, th)
    ensures HandlerOk(frames, smoke, s0.devs, NextThread(s, th, DeviceOf(s, th), score))
  {
    if th.pc == Find {
      FindMayLookUp(frames, smoke, s, s0);
      KnownStays(s.devs, s0.devs, s.key);
      LookupSpec(s.devs, s.key);
    } else if th.pc != Begin && th.dev < |s.devs| {
      assert s.devs[th.dev] == s0.devs[th.dev].(status := s.devs[th.dev].status);
    }
  }

  lemma {:induction false} OverlapRun(frames: set<Frame>, smoke: bool, s: System, s0: System, t: nat, score: real)
    requires OverlapInv(frames, smoke, s, s0) && t < |s.threads|
    ensures OverlapInv(frames, smoke, StepThread(s, t, score), s0)
  {
    var s' := StepThread(s, t, score);
    assert SameDevices(s'.devs, s.devs);
    assert ThreadOk(s.devs, s.threads[t]) && HandlerOk(frames, smoke, s0.devs, s.threads[t]);
    MoverOk(frames, smoke, s, s0, s.threads[t], score);
    NextThreadOk(s, s.threads[t], score);
    forall u | 0 <= u < |s'.threads|
      ensures ThreadOk(s'.devs, s'.threads[u]) && HandlerOk(frames, smoke, s0.devs, s'.threads[u])
    {
      if u != t { assert ThreadOk(s.devs, s.threads[u]) && HandlerOk(frames, smoke, s0.devs, s.threads[u]); }
    }
  }

  lemma {:induction false} OverlapAct(frames: set<Frame>, smoke: bool, s: System, s0: System, a: Action)
    requires OverlapInv(frames, smoke, s, s0) && Allowed(frames, smoke, a)
    ensures OverlapInv(frames, smoke, Act(false, s, a), s0)
  {
    ActQueueOk(false, frames, smoke, s, a);
    match a
    case Run(t, score) => if t < |s.threads| { OverlapRun(frames, smoke, s, s0, t, score); }
    case _ =>
  }

  lemma {:induction false} OverlapExec(frames: set<Frame>, smoke: bool, s0: System, acts: seq<Action>)
    requires Fresh(s0) && AllAllowed(frames, smoke, acts)
    ensures OverlapInv(frames, smoke, Exec(false, s0, acts), s0)
  {
    if acts != [] {
      var n := |acts| - 1;
      OverlapExec(frames, smoke, s0, acts[..n]);
      assert acts[n] in acts;
      OverlapAct(frames, smoke, Exec(false, s0, acts[..n]), s0, acts[n]);
    }
  }

  // ---- Devices of the program's table, and messages to them

  const LOCK := Device("lock", 0x44, 7, OUTPUT, HIGH, 1, 0)
  const FAN := Device("fan", 0x43, 8, OUTPUT, HIGH, 0, 0)
  const TO_LOCK := Frame(0xAA, 0x55, 0x44, 0x00, 0x55, 0xAA)
  const TO_FAN := Frame(0xAA, 0x55, 0x43, 0x00, 0x55, 0xAA)
}
