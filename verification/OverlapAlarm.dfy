/** The smoke alarm when handlers overlap, as the program lets them: for which samples and which messages
  * of other senders its pin shows the last sample once the system is at rest. */
module OverlapAlarm {
  import opened Ini
  import opened Devices
  import opened Runtime
  import opened FaceGate
  import opened Serial
  import opened Handler
  import opened Reachable
  import opened Overlap
  import opened Settle
  import opened Schedules
  import opened SmokeAlarm

  function SamplesOf(acts: seq<Action>): seq<int> {
    if acts == [] then []
    else SamplesOf(acts[..|acts| - 1]) + if acts[|acts| - 1].Sample? then [acts[|acts| - 1].sample] else []
  }

  /** A state that can be reached with these samples, when the other senders have these messages. */
  ghost predicate Played(frames: set<Frame>, samples: seq<int>, s0: System, s: System) {
    exists acts :: AllAllowed(frames, true, acts) && SamplesOf(acts) == samples && Exec(false, s0, acts) == s
  }

  predicate AllSamples(samples: seq<int>) {
    forall i :: 0 <= i < |samples| ==> IsSample(samples[i])
  }

  /** The sensor reads high right after low, so that an all-clear is sent. */
  predicate Clears(samples: seq<int>) {
    exists k :: 0 <= k < |samples| - 1 && samples[k] == LOW && samples[k + 1] == HIGH
  }

  /** At rest, in every interleaving, the pin shows the last sample. */
  ghost predicate ShowsLastSample(frames: set<Frame>, samples: seq<int>, s0: System, pin: int)
    requires samples != []
  {
    forall s :: Played(frames, samples, s0, s) && s.queue == [] && NoneActive(s) ==>
      PinLevel(s, pin) == Some(samples[|samples| - 1])
  }

  /** A message that starts the alarm, whoever sends it. */
  predicate StartsAlarm(f: Frame) {
    f.key == SMOKE_KEY && f.value == 0
  }

  predicate OnlyStarts(frames: set<Frame>) {
    forall f :: f in frames && ValidFrame(f) ==> StartsAlarm(f)
  }

  // ---- How a run goes on

  lemma {:induction false} PlayedStart(frames: set<Frame>, s0: System)
    ensures Played(frames, [], s0, s0)
  {
    assert AllAllowed(frames, true, []) && SamplesOf([]) == [] && Exec(false, s0, []) == s0;
  }

  lemma {:induction false} PlayedStep(frames: set<Frame>, samples: seq<int>, s0: System, s: System, a: Action)
    requires Played(frames, samples, s0, s) && Allowed(frames, true, a)
    ensures Played(frames, samples + if a.Sample? then [a.sample] else [], s0, Act(false, s, a))
  {
    var acts :| AllAllowed(frames, true, acts) && SamplesOf(acts) == samples && Exec(false, s0, acts) == s;
    assert (acts + [a])[..|acts|] == acts && AllAllowed(frames, true, acts + [a]);
    assert SamplesOf(acts + [a]) == samples + if a.Sample? then [a.sample] else [];
  }

  lemma {:induction false} NoSamples(acts: seq<Action>, more: seq<Action>)
    requires OnlyRuns(more)
    ensures SamplesOf(acts + more) == SamplesOf(acts)
    decreases |more|
  {
    if more == [] {
      assert acts + more == acts;
    } else {
      var n := |more| - 1;
      NoSamples(acts, more[..n]);
      assert more[n] in more && (acts + more)[..|acts + more| - 1] == acts + more[..n];
    }
  }

  lemma {:induction false} PlayedRuns(frames: set<Frame>, samples: seq<int>, s0: System, s: System, s': System)
    requires Played(frames, samples, s0, s) && RunsTo(s, s')
    ensures Played(frames, samples, s0, s')
  {
    var acts :| AllAllowed(frames, true, acts) && SamplesOf(acts) == samples && Exec(false, s0, acts) == s;
    var more :| OnlyRuns(more) && Exec(false, s, more) == s';
    ExecAppend(false, s0, acts, more);
    NoSamples(acts, more);
    assert AllAllowed(frames, true, acts + more);
  }

  /** The monitor is armed exactly after a low sample. */
  lemma {:induction false} ArmedAfterLow(s0: System, acts: seq<Action>)
    requires Fresh(s0) && AllSamples(SamplesOf(acts))
    ensures var samples := SamplesOf(acts);
            Exec(false, s0, acts).armed <==> samples != [] && samples[|samples| - 1] == LOW
  {
    if acts != [] {
      var n := |acts| - 1;
      assert forall i :: 0 <= i < |SamplesOf(acts[..n])| ==> SamplesOf(acts)[i] == SamplesOf(acts[..n])[i];
      ArmedAfterLow(s0, acts[..n]);
      if acts[n].Sample? { assert IsSample(SamplesOf(acts)[|SamplesOf(acts)| - 1]); }
    }
  }

  // ---- Only messages that start the alarm: the pin shows the last sample

  predicate LowThread(s: System, th: Thread, i: nat)
    requires i < |s.devs|
  {
    && th.pc in {Begin, Find, Store, SetMode(false), ReadLevel(false), WriteLevel(false), Display, Done}
    && (!(th.pc in {Begin, Find}) ==> th.dev == i)
    && (th.pc in {SetMode(false), ReadLevel(false)} ==> s.devs[i].status == LOW)
    && (th.pc == WriteLevel(false) ==> th.out == LOW)
    && (th.pc in {Display, Done} ==> PinLevel(s, s.devs[i].pin) == Some(LOW))
  }

  predicate LowInv(s: System, i: nat) {
    && IsAlarmDevice(s.devs, i)
    && (forall f :: f in s.queue && ValidFrame(f) ==> StartsAlarm(f))
    && (s.threads != [] ==> s.key == SMOKE_KEY && s.value == 0)
    && (forall t :: 0 <= t < |s.threads| ==> LowThread(s, s.threads[t], i))
  }

  /** The alarm has been started, or is about to be. */
  predicate Triggered(s: System) {
    s.threads != [] || exists f :: f in s.queue && ValidFrame(f)
  }

  lemma {:induction false} LowRun(s: System, i: nat, t: nat, score: real)
    requires LowInv(s, i) && t < |s.threads|
    ensures LowInv(StepThread(s, t, score), i)
  {
    var s' := StepThread(s, t, score);
    assert LowThread(s, s.threads[t], i);
    assert SameDevices(s'.devs, s.devs);
    AlarmDeviceStays(s'.devs, s.devs, i);
    assert forall u :: 0 <= u < |s'.threads| && u != t ==> s'.threads[u] == s.threads[u];
  }

  /** Reading high without a low reading before sends nothing. */
  lemma {:induction false} LowAct(frames: set<Frame>, s: System, i: nat, a: Action)
    requires LowInv(s, i) && OnlyStarts(frames) && Allowed(frames, true, a)
    requires a.Sample? ==> a.sample == LOW || (a.sample == HIGH && !s.armed)
    ensures LowInv(Act(false, s, a), i)
    ensures Triggered(Act(false, s, a)) <== Triggered(s) || a == Sample(LOW)
  {
    var s' := Act(false, s, a);
    if a.Sample? || a.Send? { assert forall f :: f in s.queue ==> f in s'.queue; }
    match a
    case Run(t, score) => if t < |s.threads| { LowRun(s, i, t, score); }
    case Sample(x) => if x == LOW { assert START_FRAME in s'.queue; }
    case _ =>
  }

  lemma {:induction false} LowExec(frames: set<Frame>, s0: System, acts: seq<Action>, i: nat)
    requires Fresh(s0) && IsAlarmDevice(s0.devs, i) && OnlyStarts(frames) && AllAllowed(frames, true, acts)
    requires AllSamples(SamplesOf(acts)) && !Clears(SamplesOf(acts))
    ensures LowInv(Exec(false, s0, acts), i)
    ensures LOW in SamplesOf(acts) ==> Triggered(Exec(false, s0, acts))
  {
    if acts != [] {
      var n := |acts| - 1;
      var before, samples := SamplesOf(acts[..n]), SamplesOf(acts);
      assert forall k :: 0 <= k < |before| ==> samples[k] == before[k];
      LowExec(frames, s0, acts[..n], i);
      ArmedAfterLow(s0, acts[..n]);
      assert acts[n] in acts;
      if acts[n].Sample? { assert IsSample(samples[|before|]); }
      LowAct(frames, Exec(false, s0, acts[..n]), i, acts[n]);
    }
  }

  lemma {:induction false} StaysLow(samples: seq<int>)
    requires AllSamples(samples) && LOW in samples && !Clears(samples)
    ensures samples[|samples| - 1] == LOW
  {
    var n := |samples| - 1;
    if samples[n] != LOW {
      assert samples[..n] + [samples[n]] == samples;
      assert forall k :: 0 <= k < n ==> samples[..n][k] == samples[k];
      StaysLow(samples[..n]);
      assert false;
    }
  }

  /** When the sensor never reads high after low, and other senders send nothing else that starts a
    * handler, the pin shows the last sample at rest, however the handlers overlap. */
  lemma {:induction false} StartsShowLastSample(s0: System, frames: set<Frame>, samples: seq<int>, i: nat)
    requires Fresh(s0) && IsAlarmDevice(s0.devs, i) && AllSamples(samples) && LOW in samples
    requires !Clears(samples) && OnlyStarts(frames)
    ensures ShowsLastSample(frames, samples, s0, s0.devs[i].pin)
  {
    StaysLow(samples);
    forall s | Played(frames, samples, s0, s) && s.queue == [] && NoneActive(s)
      ensures PinLevel(s, s0.devs[i].pin) == Some(LOW)
    {
      var acts :| AllAllowed(frames, true, acts) && SamplesOf(acts) == samples && Exec(false, s0, acts) == s;
      LowExec(frames, s0, acts, i);
      ExecKeepsInv(false, s0, acts);
      NoneActiveDone(s);
      assert LowThread(s, s.threads[0], i) && s.devs[i] == s0.devs[i].(status := s.devs[i].status);
    }
  }

  // ---- An all-clear: a handler that has read its status writes it last

  /** A state that can be reached with these samples, and with nothing in the queue. */
  ghost predicate Quiet(frames: set<Frame>, samples: seq<int>, s0: System, s: System) {
    && Played(frames, samples, s0, s)
    && s.queue == []
    && SameDevices(s.devs, s0.devs)
  }

  predicate AllDone(threads: seq<Thread>, from: nat) {
    forall t :: from <= t < |threads| ==> threads[t].pc == Done
  }

  lemma {:induction false} QuietRuns(frames: set<Frame>, samples: seq<int>, s0: System, s: System, s': System)
    requires Quiet(frames, samples, s0, s) && RunsTo(s, s') && s'.queue == s.queue && SameDevices(s'.devs, s.devs)
    ensures Quiet(frames, samples, s0, s')
  {
    PlayedRuns(frames, samples, s0, s, s');
    SameDevicesOn(s'.devs, s.devs, s0.devs);
  }

  lemma {:induction false} QuietStep(frames: set<Frame>, samples: seq<int>, s0: System, s: System, t: nat, score: real)
    requires Quiet(frames, samples, s0, s) && t < |s.threads|
    ensures Quiet(frames, samples, s0, StepThread(s, t, score))
  {
    OneRun(s, t, score);
    assert SameDevices(StepThread(s, t, score).devs, s.devs);
    QuietRuns(frames, samples, s0, s, StepThread(s, t, score));
  }

  /** A message is taken from the queue. */
  lemma {:induction false} Taken(frames: set<Frame>, samples: seq<int>, s0: System, s: System, f: Frame) returns (s': System)
    requires Played(frames, samples, s0, s) && s.queue == [f] && ValidFrame(f) && SameDevices(s.devs, s0.devs)
    ensures Quiet(frames, samples, s0, s')
    ensures s' == s.(queue := [], key := f.key, value := f.value, threads := s.threads + [START])
  {
    PlayedStep(frames, samples, s0, s, Take);
    s' := Act(false, s, Take);
    assert samples + [] == samples;
  }

  /** A handler of a known key runs alone. */
  lemma {:induction false} Handles(frames: set<Frame>, samples: seq<int>, s0: System, s: System, n: nat) returns (s': System)
    requires Quiet(frames, samples, s0, s) && n < |s.threads| && s.threads[n] == START && Known(s0.devs, s.key)
    ensures Quiet(frames, samples, s0, s') && |s'.threads| == |s.threads|
    ensures s'.threads[n].pc == Done
    ensures forall u :: 0 <= u < |s.threads| && u != n ==> s'.threads[u] == s.threads[u]
    ensures s.key != IDLE_KEY ==> var j := Lookup(s0.devs, s.key).value;
              j < |s.devs| && View(s') == Handled(View(s), j, s.value, 0.0)
  {
    KnownStays(s.devs, s0.devs, s.key);
    UndisturbedThread(s, n, 0.0);
    FinishRuns(s, n, 0.0);
    s' := Finish(s, n, 0.0);
    QuietRuns(frames, samples, s0, s, s');
  }

  /** The monitor reads its pin, and its message is handled at once if it sends one. */
  lemma {:induction false} Serve(frames: set<Frame>, samples: seq<int>, s0: System, s: System, x: int) returns (s': System)
    requires Quiet(frames, samples, s0, s) && IsSample(x) && Known(s0.devs, SMOKE_KEY)
    ensures Quiet(frames, samples + [x], s0, s') && s.threads <= s'.threads
    ensures AllDone(s'.threads, |s.threads|)
  {
    PlayedStep(frames, samples, s0, s, Sample(x));
    s' := Act(false, s, Sample(x));
    if s'.queue != [] {
      var s1 := Taken(frames, samples + [x], s0, s', s'.queue[0]);
      s' := Handles(frames, samples + [x], s0, s1, |s.threads|);
    }
  }

  lemma {:induction false} ServeAll(frames: set<Frame>, samples: seq<int>, s0: System, s: System, more: seq<int>) returns (s': System)
    requires Quiet(frames, samples, s0, s) && AllSamples(more) && Known(s0.devs, SMOKE_KEY)
    ensures Quiet(frames, samples + more, s0, s') && s.threads <= s'.threads
    ensures AllDone(s'.threads, |s.threads|)
    decreases |more|
  {
    if more == [] {
      s' := s;
      assert samples + more == samples;
    } else {
      var s1 := Serve(frames, samples, s0, s, more[0]);
      s' := ServeAll(frames, samples + [more[0]], s0, s1, more[1..]);
      assert samples + [more[0]] + more[1..] == samples + more;
    }
  }

  /** A handler of the alarm that has read the level it is going to write. */
  predicate Holds(th: Thread, i: nat, x: int) {
    th.pc == WriteLevel(false) && th.dev == i && th.out == x
  }

  /** The monitor sends a message, and its handler gets as far as that. */
  lemma {:induction false} Hold(frames: set<Frame>, samples: seq<int>, s0: System, s: System, x: int, i: nat) returns (s': System)
    requires Quiet(frames, samples, s0, s) && IsAlarmDevice(s0.devs, i) && (x == LOW || (x == HIGH && s.armed))
    ensures Quiet(frames, samples + [x], s0, s') && |s'.threads| == |s.threads| + 1
    ensures s.threads <= s'.threads
    ensures Holds(s'.threads[|s.threads|], i, x)
  {
    var t := |s.threads|;
    PlayedStep(frames, samples, s0, s, Sample(x));
    var s1 := Act(false, s, Sample(x));
    s1 := Taken(frames, samples + [x], s0, s1, s1.queue[0]);
    KnownStays(s1.devs, s0.devs, SMOKE_KEY);
    AlarmDeviceStays(s1.devs, s0.devs, i);
    var s2 := Finds(s1, t, i);
    QuietRuns(frames, samples + [x], s0, s1, s2);
    s' := ToWrite(frames, samples + [x], s0, s2, t, i, x);
  }

  lemma {:induction false} ToWrite(frames: set<Frame>, samples: seq<int>, s0: System, s: System, t: nat, i: nat, x: int) returns (s': System)
    requires Quiet(frames, samples, s0, s) && t < |s.threads| && s.threads[t].pc == Store && s.threads[t].dev == i
    requires i < |s.devs| && s.devs[i].pin != -1 && s.devs[i].face != 1 && Level(s.value) == x
    ensures Quiet(frames, samples, s0, s') && |s'.threads| == |s.threads|
    ensures Holds(s'.threads[t], i, x)
    ensures forall u :: 0 <= u < |s.threads| && u != t ==> s'.threads[u] == s.threads[u]
  {
    QuietStep(frames, samples, s0, s, t, 0.0);
    var s1 := StepThread(s, t, 0.0);
    assert s1.devs[i] == s.devs[i].(status := x) && s1.threads[t].pc == SetMode(false);
    QuietStep(frames, samples, s0, s1, t, 0.0);
    var s2 := StepThread(s1, t, 0.0);
    assert s2.devs[i] == s1.devs[i] && s2.threads[t].pc == ReadLevel(false);
    QuietStep(frames, samples, s0, s2, t, 0.0);
    s' := StepThread(s2, t, 0.0);
  }

  /** It writes that level, and ends. */
  lemma {:induction false} WriteHeld(frames: set<Frame>, samples: seq<int>, s0: System, s: System, t: nat, i: nat, x: int) returns (s': System)
    requires Quiet(frames, samples, s0, s) && t < |s.threads| && Holds(s.threads[t], i, x) && x != -1
    requires i < |s.devs| && s.devs[i].face != 1
    ensures Quiet(frames, samples, s0, s') && |s'.threads| == |s.threads|
    ensures s'.threads[t].pc == Done
    ensures forall u :: 0 <= u < |s.threads| && u != t ==> s'.threads[u] == s.threads[u]
    ensures PinLevel(s', s.devs[i].pin) == Some(x)
  {
    QuietStep(frames, samples, s0, s, t, 0.0);
    var s1 := StepThread(s, t, 0.0);
    assert s1.devs[i] == s.devs[i] && s1.threads[t].pc == Display;
    QuietStep(frames, samples, s0, s1, t, 0.0);
    s' := StepThread(s1, t, 0.0);
  }

  /** The handler of sample `m` is held until all others have ended, and then the pin shows that sample. */
  lemma {:induction false} HeldSampleWins(s0: System, frames: set<Frame>, samples: seq<int>, m: nat, i: nat) returns (s: System)
    requires Fresh(s0) && IsAlarmDevice(s0.devs, i) && AllSamples(samples) && m < |samples|
    requires samples[m] == LOW || (m > 0 && samples[m - 1] == LOW)
    ensures Quiet(frames, samples, s0, s) && NoneActive(s)
    ensures PinLevel(s, s0.devs[i].pin) == Some(samples[m])
  {
    var s1, t := HeldSample(s0, frames, samples, m, i);
    assert samples[..m + 1] + samples[m + 1..] == samples;
    var s2 := ServeAll(frames, samples[..m + 1], s0, s1, samples[m + 1..]);
    assert s2.threads[t] == s1.threads[t] && s2.devs[i] == s0.devs[i].(status := s2.devs[i].status);
    s := WriteHeld(frames, samples, s0, s2, t, i, samples[m]);
    AllDoneInactive(s);
  }

  lemma {:induction false} HeldSample(s0: System, frames: set<Frame>, samples: seq<int>, m: nat, i: nat) returns (s: System, t: nat)
    requires Fresh(s0) && IsAlarmDevice(s0.devs, i) && AllSamples(samples) && m < |samples|
    requires samples[m] == LOW || (m > 0 && samples[m - 1] == LOW)
    ensures Quiet(frames, samples[..m + 1], s0, s) && |s.threads| == t + 1
    ensures Holds(s.threads[t], i, samples[m])
    ensures forall u :: 0 <= u < t ==> s.threads[u].pc == Done
  {
    PlayedStart(frames, s0);
    var before := samples[..m];
    var s1 := ServeAll(frames, [], s0, s0, before);
    assert [] + before == before && before + [samples[m]] == samples[..m + 1];
    ArmedIs(s0, frames, before, s1);
    t := |s1.threads|;
    s := Hold(frames, before, s0, s1, samples[m], i);
  }

  lemma {:induction false} ArmedIs(s0: System, frames: set<Frame>, samples: seq<int>, s: System)
    requires Fresh(s0) && AllSamples(samples) && Played(frames, samples, s0, s)
    ensures s.armed <==> samples != [] && samples[|samples| - 1] == LOW
  {
    var acts :| AllAllowed(frames, true, acts) && SamplesOf(acts) == samples && Exec(false, s0, acts) == s;
    ArmedAfterLow(s0, acts);
  }

  /** After an all-clear, whatever the other senders do, the pin can be left with the wrong level. */
  lemma {:induction false} ClearMisleads(s0: System, frames: set<Frame>, samples: seq<int>, i: nat)
    requires Fresh(s0) && IsAlarmDevice(s0.devs, i) && AllSamples(samples) && Clears(samples)
    ensures !ShowsLastSample(frames, samples, s0, s0.devs[i].pin)
  {
    var k :| 0 <= k < |samples| - 1 && samples[k] == LOW && samples[k + 1] == HIGH;
    var s := HeldSampleWins(s0, frames, samples, if samples[|samples| - 1] == HIGH then k else k + 1, i);
  }

  // ---- Another message: the handlers of the alarm are led elsewhere

  /** The monitor reads all samples before anything is taken. */
  lemma {:induction false} SampleAll(frames: set<Frame>, s0: System, samples: seq<int>) returns (s: System)
    requires Fresh(s0)
    ensures Played(frames, samples, s0, s)
    ensures s == s0.(queue := s.queue, armed := s.armed)
    decreases |samples|
  {
    if samples == [] {
      PlayedStart(frames, s0);
      s := s0;
    } else {
      var n := |samples| - 1;
      s := SampleAll(frames, s0, samples[..n]);
      PlayedStep(frames, samples[..n], s0, s, Sample(samples[n]));
      s := Act(false, s, Sample(samples[n]));
      assert samples[..n] + [samples[n]] == samples;
    }
  }

  /** All messages are taken before any handler moves; the last one stays in the shared buffer. */
  lemma {:induction false} TakeAll(frames: set<Frame>, samples: seq<int>, s0: System, s: System, f: Frame) returns (s': System)
    requires Played(frames, samples, s0, s) && ValidFrame(f) && s.queue != [] && s.queue[|s.queue| - 1] == f
    requires forall t :: 0 <= t < |s.threads| ==> s.threads[t] == START
    ensures Played(frames, samples, s0, s') && s'.queue == [] && s'.key == f.key
    ensures s'.devs == s.devs && s'.levels == s.levels && forall t :: 0 <= t < |s'.threads| ==> s'.threads[t] == START
    decreases |s.queue|
  {
    PlayedStep(frames, samples, s0, s, Take);
    s' := Act(false, s, Take);
    assert samples + [] == samples;
    if s'.queue != [] {
      s' := TakeAll(frames, samples, s0, s', f);
    }
  }

  /** Any message with another key can keep the alarm's pin from being written at all. */
  lemma {:induction false} OtherKeySilences(s0: System, frames: set<Frame>, samples: seq<int>, i: nat, f: Frame) returns (s: System)
    requires Fresh(s0) && IsAlarmDevice(s0.devs, i) && f in frames && ValidFrame(f) && f.key != SMOKE_KEY
    requires f.key == IDLE_KEY || Known(s0.devs, f.key)
    ensures Played(frames, samples, s0, s) && s.queue == [] && NoneActive(s)
    ensures PinLevel(s, s0.devs[i].pin) == PinLevel(s0, s0.devs[i].pin)
  {
    var pin := s0.devs[i].pin;
    var s1 := SampleAll(frames, s0, samples);
    PlayedStep(frames, samples, s0, s1, Send(f));
    assert samples + [] == samples;
    var s2 := TakeAll(frames, samples, s0, Act(false, s1, Send(f)), f);
    LookupSpec(s0.devs, f.key);
    LookupSpec(s0.devs, SMOKE_KEY);
    s := AllSettle(s2, pin);
    PlayedRuns(frames, samples, s0, s2, s);
  }

  /** A message that clears the alarm, handled last. */
  lemma {:induction false} ClearSilences(s0: System, frames: set<Frame>, samples: seq<int>, i: nat, f: Frame) returns (s: System)
    requires Fresh(s0) && IsAlarmDevice(s0.devs, i) && AllSamples(samples)
    requires f in frames && ValidFrame(f) && f.key == SMOKE_KEY && f.value != 0
    ensures Played(frames, samples, s0, s) && s.queue == [] && NoneActive(s)
    ensures PinLevel(s, s0.devs[i].pin) == Some(HIGH)
  {
    PlayedStart(frames, s0);
    var s1 := ServeAll(frames, [], s0, s0, samples);
    assert [] + samples == samples == samples + [];
    PlayedStep(frames, samples, s0, s1, Send(f));
    var s2 := Taken(frames, samples, s0, Act(false, s1, Send(f)), f);
    s := Handles(frames, samples, s0, s2, |s1.threads|);
    assert s2.devs[i] == s0.devs[i].(status := s2.devs[i].status);
    assert View(s).levels[s0.devs[i].pin] == HIGH;
    AllDoneInactive(s);
  }

  // ---- Exactly when the pin shows the last sample

  /** With overlapping handlers and known keys, and a pin that is not low at first: the pin shows the last
    * sample whenever the system is at rest, if and only if the sensor never reads high after low and the
    * other senders send nothing that starts a handler but messages that start the alarm. */
  lemma {:induction false} OverlapShowsLastSampleIff(s0: System, frames: set<Frame>, samples: seq<int>, i: nat)
    requires Fresh(s0) && IsAlarmDevice(s0.devs, i) && AllSamples(samples) && LOW in samples
    requires PinLevel(s0, s0.devs[i].pin) != Some(LOW)
    requires forall f :: f in frames && ValidFrame(f) ==> f.key == IDLE_KEY || Known(s0.devs, f.key)
    ensures ShowsLastSample(frames, samples, s0, s0.devs[i].pin) <==> !Clears(samples) && OnlyStarts(frames)
  {
    if Clears(samples) {
      ClearMisleads(s0, frames, samples, i);
    } else if OnlyStarts(frames) {
      StartsShowLastSample(s0, frames, samples, i);
    } else {
      StaysLow(samples);
      var f :| f in frames && ValidFrame(f) && !StartsAlarm(f);
      var s;
      if f.key == SMOKE_KEY {
        s := ClearSilences(s0, frames, samples, i, f);
      } else {
        s := OtherKeySilences(s0, frames, samples, i, f);
      }
    }
  }

  const BEEP := Device("beep", 0x45, 9, OUTPUT, HIGH, 0, 0)

  /** The alarm and a fan: one message for the fan, and smoke leaves the alarm's pin high. */
  lemma {:induction false} FanSilencesAlarm(s0: System) returns (s: System)
    requires Fresh(s0) && s0.devs == [FAN, BEEP] && PinLevel(s0, BEEP.pin) == Some(HIGH)
    ensures Played({TO_FAN}, [LOW], s0, s) && s.queue == []
    ensures NoneActive(s) && PinLevel(s, BEEP.pin) == Some(HIGH)
  {
    assert s0.devs[1..] == [BEEP] && Lookup([BEEP], SMOKE_KEY) == Some(0);
    assert Lookup(s0.devs, SMOKE_KEY) == Some(1) && Lookup(s0.devs, 0x43) == Some(0);
    assert IsAlarmDevice(s0.devs, 1) && TO_FAN in {TO_FAN};
    s := OtherKeySilences(s0, {TO_FAN}, [LOW], 1, TO_FAN);
  }
}
