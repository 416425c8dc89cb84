/** The states that a system can reach when its senders are restricted. */
module Reachable {
  import opened Ini
  import opened Devices
  import opened Runtime

  /** The senders put only these messages on the queue; `smoke` when the smoke monitor runs. */
  predicate Allowed(frames: set<Frame>, smoke: bool, a: Action) {
    (a.Send? ==> a.frame in frames) && (a.Sample? ==> smoke)
  }

  predicate AllAllowed(frames: set<Frame>, smoke: bool, acts: seq<Action>) {
    forall a :: a in acts ==> Allowed(frames, smoke, a)
  }

  ghost predicate Reaches(serial: bool, frames: set<Frame>, smoke: bool, s0: System, s: System) {
    exists acts :: AllAllowed(frames, smoke, acts) && Exec(serial, s0, acts) == s
  }

  lemma {:induction false} ReachStart(serial: bool, frames: set<Frame>, smoke: bool, s0: System)
    ensures Reaches(serial, frames, smoke, s0, s0)
  {
    assert AllAllowed(frames, smoke, []) && Exec(serial, s0, []) == s0;
  }

  lemma {:induction false} ReachStep(serial: bool, frames: set<Frame>, smoke: bool, s0: System, s: System, a: Action)
    requires Reaches(serial, frames, smoke, s0, s) && Allowed(frames, smoke, a)
    ensures Reaches(serial, frames, smoke, s0, Act(serial, s, a))
  {
    var acts :| AllAllowed(frames, smoke, acts) && Exec(serial, s0, acts) == s;
    assert AllAllowed(frames, smoke, acts + [a]);
  }
}
