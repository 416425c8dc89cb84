/** Pins behind the face check: in every interleaving only a thread whose own score passed writes their
  * modes and levels. And every handler comes to an end. */
module FaceGate {
  import opened Ini
  import opened Devices
  import opened Runtime

  /** Only the status of a device changes while the system runs. */
  predicate SameDevices(now: seq<Device>, before: seq<Device>) {
    |now| == |before| && forall i :: 0 <= i < |now| ==> now[i] == before[i].(status := now[i].status)
  }

  /** All devices on this pin ask for a face check. */
  predicate Guarded(devs: seq<Device>, pin: int) {
    forall i :: 0 <= i < |devs| && devs[i].pin == pin ==> devs[i].face == 1
  }

  /** The modes that result from the writes in the log. */
  function ReplayModes(modes: map<int, int>, log: seq<PinWrite>): map<int, int> {
    if log == [] then modes
    else
      var w, before := log[|log| - 1], ReplayModes(modes, log[..|log| - 1]);
      if w.ModeWrite? then before[w.pin := w.value] else before
  }

  /** The levels that result from them. */
  function ReplayLevels(levels: map<int, int>, log: seq<PinWrite>): map<int, int> {
    if log == [] then levels
    else
      var w, before := log[|log| - 1], ReplayLevels(levels, log[..|log| - 1]);
      if w.LevelWrite? then before[w.pin := w.value] else before
  }

  predicate BeforeScore(pc: Pc) {
    pc in {Begin, Find, Store, Judge}
  }

  predicate NeedsPass(pc: Pc) {
    pc.SetMode? || pc.ReadLevel? || pc.WriteLevel? || pc in {MarkPassed, Relock}
  }

  /** What is true of a thread at each point of the handler. */
  predicate ThreadOk(devs: seq<Device>, t: Thread) {
    && (BeforeScore(t.pc) ==> t.score == None)
    && (!(t.pc in {Begin, Find, Done, Crashed}) ==> t.dev < |devs|)
    && (NeedsPass(t.pc) && devs[t.dev].face == 1 ==> Passed(t.score))
    && (t.pc == Judge ==> devs[t.dev].face == 1)
  }

  /** Threads are as they should be, and so is every write in the log. */
  ghost predicate Inv(s: System, s0: System) {
    && SameDevices(s.devs, s0.devs)
    && s.modes == ReplayModes(s0.modes, s.log)
    && s.levels == ReplayLevels(s0.levels, s.log)
    && (forall t :: 0 <= t < |s.threads| ==> ThreadOk(s.devs, s.threads[t]))
    && (forall k :: 0 <= k < |s.log| ==> WriteOk(s, s.log[k]))
  }

  predicate WriteOk(s: System, w: PinWrite) {
    w.thread < |s.threads| && (Guarded(s.devs, w.pin) ==> Passed(s.threads[w.thread].score))
  }

  lemma {:induction false} NextThreadOk(s: System, th: Thread, score: real)
    requires ThreadOk(s.devs, th)
    ensures var th' := NextThread(s, th, DeviceOf(s, th), score);
            && ThreadOk(s.devs, th') && (th'.score == th.score || th.score == None)
  {
    LookupSpec(s.devs, s.key);
  }

  lemma {:induction false} ThreadOkSame(devs: seq<Device>, devs': seq<Device>, th: Thread)
    requires SameDevices(devs', devs) && ThreadOk(devs, th)
    ensures ThreadOk(devs', th)
  {
    if th.dev < |devs| { assert devs'[th.dev] == devs[th.dev].(status := devs'[th.dev].status); }
  }

  lemma {:induction false} StepKeepsInv(s: System, s0: System, t: nat, score: real)
    requires Inv(s, s0) && t < |s.threads|
    ensures Inv(StepThread(s, t, score), s0)
  {
    var th, s' := s.threads[t], StepThread(s, t, score);
    assert ThreadOk(s.devs, th);
    NextThreadOk(s, th, score);
    assert SameDevices(s'.devs, s.devs);
    forall u | 0 <= u < |s'.threads| ensures ThreadOk(s'.devs, s'.threads[u]) {
      ThreadOkSame(s.devs, s'.devs, s'.threads[u]);
    }
    forall k | 0 <= k < |s'.log| ensures WriteOk(s', s'.log[k]) {
      if k < |s.log| {
        assert WriteOk(s, s.log[k]);
      } else {
        NewWriteOk(s, t, score);
      }
    }
    LogGrows(s, s0, t, score);
  }

  /** A thread that writes to a guarded pin has passed. */
  lemma {:induction false} NewWriteOk(s: System, t: nat, score: real)
    requires t < |s.threads| && ThreadOk(s.devs, s.threads[t])
    requires WritesMode(s.threads[t].pc, DeviceOf(s, s.threads[t])) || WritesLevel(s.threads[t])
    ensures var s' := StepThread(s, t, score); |s'.log| == |s.log| + 1 && WriteOk(s', s'.log[|s.log|])
  {
    var th, s' := s.threads[t], StepThread(s, t, score);
    assert SameDevices(s'.devs, s.devs);
  }

  lemma {:induction false} ReplayNext(log: seq<PinWrite>, w: PinWrite, s0: System)
    ensures var modes, levels := ReplayModes(s0.modes, log), ReplayLevels(s0.levels, log);
            && ReplayModes(s0.modes, log + [w]) == (if w.ModeWrite? then modes[w.pin := w.value] else modes)
            && ReplayLevels(s0.levels, log + [w]) == (if w.LevelWrite? then levels[w.pin := w.value] else levels)
  {
    assert (log + [w])[..|log|] == log;
  }

  lemma {:induction false} LogGrows(s: System, s0: System, t: nat, score: real)
    requires t < |s.threads|
    requires s.modes == ReplayModes(s0.modes, s.log) && s.levels == ReplayLevels(s0.levels, s.log)
    ensures var s' := StepThread(s, t, score);
            s'.modes == ReplayModes(s0.modes, s'.log) && s'.levels == ReplayLevels(s0.levels, s'.log)
  {
    var d := DeviceOf(s, s.threads[t]);
    if WritesMode(s.threads[t].pc, d) {
      ReplayNext(s.log, ModeWrite(t, d.pin, d.mode), s0);
    } else if WritesLevel(s.threads[t]) {
      ReplayNext(s.log, LevelWrite(t, d.pin, s.threads[t].out), s0);
    }
  }

  lemma {:induction false} ActKeepsInv(serial: bool, s: System, s0: System, a: Action)
    requires Inv(s, s0)
    ensures Inv(Act(serial, s, a), s0)
  {
    match a
    case Run(t, score) => if t < |s.threads| { StepKeepsInv(s, s0, t, score); }
    case _ =>
      var s' := Act(serial, s, a);
      assert forall k :: 0 <= k < |s.log| ==> WriteOk(s, s.log[k]) == WriteOk(s', s.log[k]);
  }

  lemma {:induction false} ExecKeepsInv(serial: bool, s0: System, acts: seq<Action>)
    requires Fresh(s0)
    ensures Inv(Exec(serial, s0, acts), s0)
  {
    if acts != [] {
      ExecKeepsInv(serial, s0, acts[..|acts| - 1]);
      ActKeepsInv(serial, Exec(serial, s0, acts[..|acts| - 1]), s0, acts[|acts| - 1]);
    }
  }

  /** In every interleaving: the modes and levels of the pins are exactly what the logged writes make of
    * them, and a pin all of whose devices are face-checked is written, mode or level, only by threads
    * whose own score is above 0.5. */
  lemma {:induction false} OnlyPassedThreadsWrite(serial: bool, s0: System, acts: seq<Action>)
    requires Fresh(s0)
    ensures var s := Exec(serial, s0, acts);
            && s.modes == ReplayModes(s0.modes, s.log) && s.levels == ReplayLevels(s0.levels, s.log)
            && forall w :: w in s.log && Guarded(s0.devs, w.pin) ==>
                 w.thread < |s.threads| && Passed(s.threads[w.thread].score)
  {
    ExecKeepsInv(serial, s0, acts);
    var s := Exec(serial, s0, acts);
    forall w | w in s.log && Guarded(s0.devs, w.pin)
      ensures w.thread < |s.threads| && Passed(s.threads[w.thread].score)
    {
      var k :| 0 <= k < |s.log| && s.log[k] == w;
      assert WriteOk(s, s.log[k]);
    }
  }

  // ---- Every handler comes to an end

  /** At most how many steps a thread has left. */
  function StepsLeft(pc: Pc): nat {
    match pc
    case Begin => 13
    case Find => 12
    case Store => 11
    case Judge => 10
    case SetMode(relock) => if relock then 3 else 9
    case ReadLevel(relock) => if relock then 2 else 8
    case WriteLevel(relock) => if relock then 1 else 7
    case MarkPassed => 6
    case MarkFailed => 6
    case Display => 5
    case Relock => 4
    case Done => 0
    case Crashed => 0
  }

  lemma {:induction false} StepsDescend(s: System, th: Thread, d: Device, score: real)
    requires !(th.pc in {Done, Crashed})
    ensures StepsLeft(NextThread(s, th, d, score).pc) < StepsLeft(th.pc)
    ensures NextThread(s, th, d, score).pc == Crashed <==> th.pc == Find && Lookup(s.devs, s.key) == None
  {
  }

  /** How often these actions let thread `t` run. */
  function RunsOf(t: nat, acts: seq<Action>): nat {
    if acts == [] then 0
    else RunsOf(t, acts[..|acts| - 1])
         + if acts[|acts| - 1].Run? && acts[|acts| - 1].thread == t then 1 else 0
  }

  lemma {:induction false} ActDescends(serial: bool, s: System, a: Action, t: nat)
    requires t < |s.threads|
    ensures var s' := Act(serial, s, a);
            && t < |s'.threads|
            && StepsLeft(s'.threads[t].pc) <= StepsLeft(s.threads[t].pc)
            && (a.Run? && a.thread == t && StepsLeft(s.threads[t].pc) > 0 ==>
                  StepsLeft(s'.threads[t].pc) < StepsLeft(s.threads[t].pc))
  {
    if a.Run? && a.thread == t && StepsLeft(s.threads[t].pc) > 0 {
      StepsDescend(s, s.threads[t], DeviceOf(s, s.threads[t]), a.score);
    }
  }

  lemma {:induction false} StepsRunOut(serial: bool, s: System, acts: seq<Action>, t: nat)
    requires t < |s.threads|
    ensures var s' := Exec(serial, s, acts);
            && t < |s'.threads|
            && (StepsLeft(s'.threads[t].pc) == 0
                || StepsLeft(s'.threads[t].pc) + RunsOf(t, acts) <= StepsLeft(s.threads[t].pc))
  {
    if acts != [] {
      StepsRunOut(serial, s, acts[..|acts| - 1], t);
      ActDescends(serial, Exec(serial, s, acts[..|acts| - 1]), acts[|acts| - 1], t);
    }
  }

  /** A handler is at its end after at most 13 steps of its own, whatever the others do in between. */
  lemma {:induction false} HandlersEnd(serial: bool, s: System, acts: seq<Action>, t: nat)
    requires t < |s.threads| && RunsOf(t, acts) >= 13
    ensures var s' := Exec(serial, s, acts); t < |s'.threads| && s'.threads[t].pc in {Done, Crashed}
  {
    StepsRunOut(serial, s, acts, t);
    StepsBounded(s.threads[t].pc);
    StepsBounded(Exec(serial, s, acts).threads[t].pc);
  }

  lemma {:induction false} StepsBounded(pc: Pc)
    ensures StepsLeft(pc) <= 13 && (StepsLeft(pc) == 0 <==> pc in {Done, Crashed})
  {
  }
}
