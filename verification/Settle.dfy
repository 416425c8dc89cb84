/** Runs in which only handlers move, and how handlers of which none is to write a pin come to their ends.
  * A thread that runs alone ends and moves nothing else. When every handler that has still to look its
  * device up finds one, and none of them can pass the face check of a device on the pin, all of them can
  * be run to their ends, and the pin keeps its level. */
module Settle {
  import opened Ini
  import opened Devices
  import opened Runtime
  import opened FaceGate
  import opened Serial
  import opened Handler
  import opened Reachable

  predicate OnlyRuns(acts: seq<Action>) {
    forall a :: a in acts ==> a.Run?
  }

  ghost predicate RunsTo(s: System, s': System) {
    exists acts :: OnlyRuns(acts) && Exec(false, s, acts) == s'
  }

  lemma {:induction false} ExecAppend(serial: bool, s: System, acts: seq<Action>, more: seq<Action>)
    ensures Exec(serial, s, acts + more) == Exec(serial, Exec(serial, s, acts), more)
    decreases |more|
  {
    if more == [] {
      assert acts + more == acts;
    } else {
      var n := |more| - 1;
      ExecAppend(serial, s, acts, more[..n]);
      assert more == more[..n] + [more[n]] && acts + more == acts + more[..n] + [more[n]];
    }
  }

  lemma {:induction false} RunsStart(s: System)
    ensures RunsTo(s, s)
  {
    assert OnlyRuns([]) && Exec(false, s, []) == s;
  }

  lemma {:induction false} RunsOn(s: System, s1: System, s2: System)
    requires RunsTo(s, s1) && RunsTo(s1, s2)
    ensures RunsTo(s, s2)
  {
    var acts :| OnlyRuns(acts) && Exec(false, s, acts) == s1;
    var more :| OnlyRuns(more) && Exec(false, s1, more) == s2;
    ExecAppend(false, s, acts, more);
    assert OnlyRuns(acts + more);
  }

  lemma {:induction false} OneRun(s: System, t: nat, score: real)
    requires t < |s.threads|
    ensures RunsTo(s, StepThread(s, t, score))
  {
    var acts := [Run(t, score)];
    assert acts[..0] == [] && OnlyRuns(acts) && Exec(false, s, acts) == StepThread(s, t, score);
  }

  lemma {:induction false} ReachRuns(frames: set<Frame>, smoke: bool, s0: System, s: System, s': System)
    requires Reaches(false, frames, smoke, s0, s) && RunsTo(s, s')
    ensures Reaches(false, frames, smoke, s0, s')
  {
    var acts :| AllAllowed(frames, smoke, acts) && Exec(false, s0, acts) == s;
    var more :| OnlyRuns(more) && Exec(false, s, more) == s';
    ExecAppend(false, s0, acts, more);
    assert AllAllowed(frames, smoke, acts + more);
  }

  /** What a run of thread `t` alone leaves as it was. */
  predicate OnlyMoved(s: System, s': System, t: nat) {
    && |s'.threads| == |s.threads|
    && (forall u :: 0 <= u < |s.threads| && u != t ==> s'.threads[u] == s.threads[u])
    && s'.queue == s.queue
    && s'.value == s.value
    && s'.armed == s.armed
    && SameDevices(s'.devs, s.devs)
  }

  lemma {:induction false} SameDevicesOn(a: seq<Device>, b: seq<Device>, c: seq<Device>)
    requires SameDevices(a, b) && SameDevices(b, c)
    ensures SameDevices(a, c)
  {
    forall i | 0 <= i < |a| ensures a[i] == c[i].(status := a[i].status) {
      assert a[i] == b[i].(status := a[i].status) && b[i] == c[i].(status := b[i].status);
    }
  }

  /** A thread that runs alone comes to its end, and moves nothing else. */
  lemma {:induction false} FinishRuns(s: System, t: nat, score: real)
    requires t < |s.threads|
    ensures var s' := Finish(s, t, score);
            RunsTo(s, s') && OnlyMoved(s, s', t) && s'.threads[t].pc in {Done, Crashed}
    decreases StepsLeft(s.threads[t].pc)
  {
    if s.threads[t].pc in {Done, Crashed} {
      RunsStart(s);
    } else {
      var s1 := StepThread(s, t, score);
      StepsDescend(s, s.threads[t], DeviceOf(s, s.threads[t]), score);
      OneRun(s, t, score);
      FinishRuns(s1, t, score);
      RunsOn(s, s1, Finish(s1, t, score));
      SameDevicesOn(Finish(s1, t, score).devs, s1.devs, s.devs);
    }
  }

  // ---- All handlers come to their ends, and leave a pin alone

  function PinLevel(s: System, pin: int): Option<int> {
    if pin in s.levels then Some(s.levels[pin]) else None
  }

  /** When the face check fails from now on, the thread does not write a guarded pin. */
  predicate TurnedAway(th: Thread) {
    th.pc in {Store, Judge, MarkFailed} || (th.pc == Display && th.ret != 0)
  }

  predicate Harmless(devs: seq<Device>, th: Thread, pin: int) {
    && th.pc != Crashed
    && (!(th.pc in {Begin, Find, Done}) ==>
          th.dev < |devs| && (devs[th.dev].pin == pin ==> devs[th.dev].face == 1 && TurnedAway(th)))
  }

  predicate AllHarmless(s: System, pin: int) {
    forall t :: 0 <= t < |s.threads| ==> Harmless(s.devs, s.threads[t], pin)
  }

  /** The table has this key, and not for an unguarded device on the pin. */
  predicate Serves(devs: seq<Device>, key: int, pin: int) {
    match Lookup(devs, key)
    case Some(i) => i < |devs| && (devs[i].pin == pin ==> devs[i].face == 1)
    case None => false
  }

  lemma {:induction false} ServesSame(now: seq<Device>, before: seq<Device>, key: int, pin: int)
    requires SameDevices(now, before)
    ensures Serves(now, key, pin) <==> Serves(before, key, pin)
  {
    assert forall i :: 0 <= i < |now| ==> now[i] == before[i].(status := now[i].status);
    SameKeys(now, before, key);
  }

  /** Handlers that look a device up find one that serves. */
  predicate KeyServes(s: System, pin: int) {
    Serves(s.devs, s.key, pin)
    || (s.key == IDLE_KEY && forall t :: 0 <= t < |s.threads| ==> s.threads[t].pc != Find)
  }

  predicate PastFind(s: System, n: nat) {
    forall t :: 0 <= t < n && t < |s.threads| ==> !(s.threads[t].pc in {Begin, Find})
  }

  /** What the two halves of coming to rest have in common. */
  ghost predicate Settling(s: System, s': System, pin: int) {
    && RunsTo(s, s')
    && |s'.threads| == |s.threads|
    && s'.queue == s.queue
    && PinLevel(s', pin) == PinLevel(s, pin)
    && AllHarmless(s', pin)
  }

  /** First all handlers look their devices up. */
  lemma {:induction false} AllFind(s: System, n: nat, pin: int) returns (s': System)
    requires AllHarmless(s, pin) && pin != -1 && KeyServes(s, pin) && n <= |s.threads| && PastFind(s, n)
    ensures Settling(s, s', pin) && PastFind(s', |s'.threads|)
    decreases |s.threads| - n, if n < |s.threads| then StepsLeft(s.threads[n].pc) else 0
  {
    if n == |s.threads| {
      RunsStart(s);
      s' := s;
    } else if !(s.threads[n].pc in {Begin, Find}) {
      s' := AllFind(s, n + 1, pin);
    } else {
      var s1 := StepThread(s, n, 0.0);
      OneRun(s, n, 0.0);
      StepsDescend(s, s.threads[n], DeviceOf(s, s.threads[n]), 0.0);
      ServesSame(s1.devs, s.devs, s.key, pin);
      s' := AllFind(s1, n, pin);
      RunsOn(s, s1, s');
    }
  }

  /** Then they run to their ends. */
  lemma {:induction false} AllEnd(s: System, n: nat, pin: int) returns (s': System)
    requires AllHarmless(s, pin) && pin != -1 && n <= |s.threads| && PastFind(s, |s.threads|)
    requires forall t :: 0 <= t < n ==> s.threads[t].pc == Done
    ensures Settling(s, s', pin) && NoneActive(s')
    decreases |s.threads| - n, if n < |s.threads| then StepsLeft(s.threads[n].pc) else 0
  {
    if n == |s.threads| {
      RunsStart(s);
      s' := s;
    } else if s.threads[n].pc == Done {
      s' := AllEnd(s, n + 1, pin);
    } else {
      var s1 := StepThread(s, n, 0.0);
      OneRun(s, n, 0.0);
      assert Harmless(s.devs, s.threads[n], pin);
      StepsDescend(s, s.threads[n], DeviceOf(s, s.threads[n]), 0.0);
      s' := AllEnd(s1, n, pin);
      RunsOn(s, s1, s');
    }
  }

  /** Handlers that look up a device that serves, and then fail the face check if there is one, come to
    * their ends and leave the pin as it is. */
  lemma {:induction false} AllSettle(s: System, pin: int) returns (s': System)
    requires AllHarmless(s, pin) && pin != -1 && KeyServes(s, pin)
    ensures RunsTo(s, s') && NoneActive(s')
    ensures s'.queue == s.queue && PinLevel(s', pin) == PinLevel(s, pin)
  {
    var s1 := AllFind(s, 0, pin);
    s' := AllEnd(s1, 0, pin);
    RunsOn(s, s1, s');
  }
}
