/** One handler at a time: when the receiver waits for the handler before it starts the next one, only
  * the latest thread can be running. */
module Serial {
  import opened Ini
  import opened Devices
  import opened Runtime

  /** Only the latest thread can still be running. */
  predicate OneAtATime(s: System) {
    forall t :: 0 <= t < |s.threads| - 1 ==> s.threads[t].pc == Done
  }

  function Latest(s: System): Thread
    requires s.threads != []
  {
    s.threads[|s.threads| - 1]
  }

  /** A finished thread does nothing. */
  lemma {:induction false} DoneStays(s: System, t: nat, score: real)
    requires t < |s.threads| && s.threads[t].pc == Done
    ensures StepThread(s, t, score) == s
  {
    assert s.threads[t := s.threads[t]] == s.threads;
    if s.threads[t].dev < |s.devs| {
      var d := s.devs[s.threads[t].dev];
      assert d.(status := d.status) == d;
      assert s.devs[s.threads[t].dev := d] == s.devs;
    }
  }

  /** A step before the store changes only the thread. */
  lemma {:induction false} BeforeStore(s: System, t: nat, score: real)
    requires t < |s.threads| && s.threads[t].pc in {Begin, Find}
    ensures StepThread(s, t, score) == s.(threads := s.threads[t := NextThread(s, s.threads[t], NO_DEVICE, score)])
  {
    if s.threads[t].dev < |s.devs| {
      var d := s.devs[s.threads[t].dev];
      assert d.(status := d.status) == d && s.devs[s.threads[t].dev := d] == s.devs;
    }
  }

  lemma {:induction false} NoneActiveDone(s: System)
    requires NoneActive(s)
    ensures forall t :: 0 <= t < |s.threads| ==> s.threads[t].pc == Done
  {
    forall t | 0 <= t < |s.threads| ensures s.threads[t].pc == Done {
      assert s.threads[t] in s.threads;
      assert !Active(s.threads[t]);
    }
  }

  lemma {:induction false} AllDoneInactive(s: System)
    requires forall t :: 0 <= t < |s.threads| ==> s.threads[t].pc == Done
    ensures NoneActive(s)
  {
  }

  lemma {:induction false} ActOneAtATime(s: System, a: Action)
    requires OneAtATime(s)
    ensures OneAtATime(Act(true, s, a))
  {
    match a
    case Run(t, score) => if t < |s.threads| - 1 { DoneStays(s, t, score); }
    case Take => if NoneActive(s) { NoneActiveDone(s); }
    case _ =>
  }

  lemma {:induction false} ExecOneAtATime(s0: System, acts: seq<Action>)
    requires OneAtATime(s0)
    ensures OneAtATime(Exec(true, s0, acts))
  {
    if acts != [] {
      ExecOneAtATime(s0, acts[..|acts| - 1]);
      ActOneAtATime(Exec(true, s0, acts[..|acts| - 1]), acts[|acts| - 1]);
    }
  }
}
