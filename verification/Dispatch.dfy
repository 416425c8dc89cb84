/** The receiver's test of a message, byte by byte: what starts a handler, and that messages that fail the
  * test might as well not have been sent. */
module Dispatch {
  import opened Ini
  import opened Devices
  import opened Runtime

  /** Two header bytes and two trailer bytes, around key and value. */
  predicate Framed(f: Frame) {
    f.b0 == 0xAA && f.b1 == 0x55 && f.b4 == 0x55 && f.b5 == 0xAA
  }

  /** Taking a message starts one handler with its bytes 2 and 3 when the message is framed, and otherwise
    * changes nothing but the queue. With handlers one at a time, the receiver may have to wait. */
  lemma {:induction false} TakeDispatches(serial: bool, s: System)
    ensures var s' := Act(serial, s, Take);
            if s.queue == [] || (serial && !NoneActive(s)) then s' == s
            else
              var f, rest := s.queue[0], s.queue[1..];
              if Framed(f) then
                s' == s.(queue := rest, key := f.key, value := f.value, threads := s.threads + [Thread(Begin, 0, None, -1, -1)])
              else
                s' == s.(queue := rest)
  {
  }

  function FramedOnly(queue: seq<Frame>): seq<Frame> {
    if queue == [] then []
    else FramedOnly(queue[..|queue| - 1]) + if Framed(queue[|queue| - 1]) then [queue[|queue| - 1]] else []
  }

  lemma {:induction false} FramedAdd(queue: seq<Frame>, f: Frame)
    ensures FramedOnly(queue + [f]) == FramedOnly(queue) + if Framed(f) then [f] else []
  {
    assert (queue + [f])[..|queue|] == queue;
  }

  lemma {:induction false} FramedFront(queue: seq<Frame>)
    requires queue != []
    ensures FramedOnly(queue) == (if Framed(queue[0]) then [queue[0]] else []) + FramedOnly(queue[1..])
  {
    var n := |queue| - 1;
    if n > 0 {
      FramedFront(queue[..n]);
      assert queue[..n][1..] == queue[1..][..n - 1];
    }
  }

  /** Is this action the sending or the taking of a message that is not framed? */
  predicate Stray(s: System, a: Action) {
    || (a.Send? && !Framed(a.frame))
    || (a.Take? && s.queue != [] && !Framed(s.queue[0]))
  }

  /** The actions without those. */
  function Cleaned(serial: bool, s0: System, acts: seq<Action>): seq<Action> {
    if acts == [] then []
    else
      var n := |acts| - 1;
      Cleaned(serial, s0, acts[..n]) + if Stray(Exec(serial, s0, acts[..n]), acts[n]) then [] else [acts[n]]
  }

  lemma {:induction false} StrayChangesQueueOnly(serial: bool, s: System, a: Action)
    requires Stray(s, a)
    ensures var s' := Act(serial, s, a); s' == s.(queue := s'.queue) && FramedOnly(s'.queue) == FramedOnly(s.queue)
  {
    if a.Send? {
      FramedAdd(s.queue, a.frame);
    } else {
      TakeDispatches(serial, s);
      FramedFront(s.queue);
    }
  }

  lemma {:induction false} SameTake(serial: bool, s: System)
    requires s.queue != [] ==> Framed(s.queue[0])
    ensures var s' := Act(serial, s, Take);
            Act(serial, s.(queue := FramedOnly(s.queue)), Take) == s'.(queue := FramedOnly(s'.queue))
  {
    TakeDispatches(serial, s);
    TakeDispatches(serial, s.(queue := FramedOnly(s.queue)));
    if s.queue != [] { FramedFront(s.queue); }
  }

  lemma {:induction false} SameAct(serial: bool, s: System, a: Action)
    requires !Stray(s, a)
    ensures var s' := Act(serial, s, a);
            Act(serial, s.(queue := FramedOnly(s.queue)), a) == s'.(queue := FramedOnly(s'.queue))
  {
    match a
    case Take => SameTake(serial, s);
    case Send(f) => FramedAdd(s.queue, f);
    case Sample(x) => if Smoke(s.armed, x).1.Some? { FramedAdd(s.queue, Smoke(s.armed, x).1.value); }
    case Run(t, score) =>
  }

  /** Without the messages that are not framed, a run ends in the same state: the same devices, pins,
    * handlers and writes, and the same framed messages in the queue. */
  lemma {:induction false} StrayMessagesDoNothing(serial: bool, s0: System, acts: seq<Action>)
    requires s0.queue == []
    ensures var clean, s := Cleaned(serial, s0, acts), Exec(serial, s0, acts);
            && (forall a :: a in clean && a.Send? ==> Framed(a.frame))
            && Exec(serial, s0, clean) == s.(queue := FramedOnly(s.queue))
  {
    if acts != [] {
      var n := |acts| - 1;
      var s, clean := Exec(serial, s0, acts[..n]), Cleaned(serial, s0, acts[..n]);
      StrayMessagesDoNothing(serial, s0, acts[..n]);
      if Stray(s, acts[n]) {
        StrayChangesQueueOnly(serial, s, acts[n]);
        assert clean + [] == clean;
      } else {
        SameAct(serial, s, acts[n]);
        assert (clean + [acts[n]])[..|clean|] == clean;
      }
    }
  }
}
