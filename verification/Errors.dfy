/** The number that a parse returns: the first line that was malformed or whose handler call failed. */
module Errors {
  import opened Text
  import opened Ini
  import opened Reader
  import opened Runs

  predicate Malformed(syn: Syntax, line: Line) {
    line.OpenHeader? || (line.NoValue? && !syn.allowNoValue)
  }

  /** The handler call that a line leads to, if any. A name without value is reported only while no
    * error has happened. */
  function CallOf(syn: Syntax, st: State, line: Line): Option<Call> {
    match line
    case Continuation(text) => Some(Call(st.section, st.prevName, Option.Some(text)))
    case Pair(name, value) => Some(Call(st.section, name, Option.Some(value)))
    case NoValue(name) => if syn.allowNoValue && st.error == 0 then Some(Call(st.section, name, None)) else None
    case _ => None
  }

  /** Does this line, met in state `st`, count as an error? */
  predicate Fails(syn: Syntax, h: Handler, st: State, chunk: string) {
    var line := LineOf(syn, st, chunk);
    var call := CallOf(syn, st, line);
    Malformed(syn, line) || (call.Some? && !h(st.calls + [call.value]))
  }

  /** The state of the error-recovering parser before line `i`. */
  function Before(syn: Syntax, h: Handler, lines: seq<string>, i: nat): State
    requires i <= |lines|
  {
    Run(syn, false, h, INITIAL, lines[..i])
  }

  predicate FailsAt(syn: Syntax, h: Handler, lines: seq<string>, i: nat)
    requires i < |lines|
  {
    Fails(syn, h, Before(syn, h, lines, i), lines[i])
  }

  lemma {:induction false} StepFails(syn: Syntax, h: Handler, st: State, chunk: string)
    requires st.error == 0
    ensures Step(syn, h, st, chunk).error == if Fails(syn, h, st, chunk) then st.lineno + 1 else 0
  {
    ApplyFails(syn, h, st, LineOf(syn, st, chunk));
  }

  lemma {:induction false} ApplyFails(syn: Syntax, h: Handler, st: State, line: Line)
    requires st.error == 0
    ensures var call := CallOf(syn, st, line);
            Apply(syn, h, st.(lineno := st.lineno + 1), line).error
            == if Malformed(syn, line) || (call.Some? && !h(st.calls + [call.value])) then st.lineno + 1 else 0
  {
  }

  lemma {:induction false} BeforeNext(syn: Syntax, h: Handler, lines: seq<string>, i: nat)
    requires i < |lines|
    ensures Before(syn, h, lines, i + 1) == Step(syn, h, Before(syn, h, lines, i), lines[i])
  {
    assert lines[..i + 1] == lines[..i] + [lines[i]];
    RunAppend(syn, false, h, INITIAL, lines[..i], [lines[i]]);
    OneStep(syn, false, h, Before(syn, h, lines, i), lines[i]);
  }

  /** Among the first `i` lines, the error is the first that fails. */
  ghost predicate IsFirst(fails: nat -> bool, i: nat, error: nat) {
    && error <= i
    && (forall k: nat :: k < (if error == 0 then i else error - 1) ==> !fails(k))
    && (error > 0 ==> fails(error - 1))
  }

  function Failing(syn: Syntax, h: Handler, lines: seq<string>): nat -> bool {
    (i: nat) => i < |lines| && FailsAt(syn, h, lines, i)
  }

  lemma {:induction false} NextIsFirst(fails: nat -> bool, i: nat, error: nat, error': nat)
    requires IsFirst(fails, i, error)
    requires error' == if error > 0 then error else if fails(i) then i + 1 else 0
    ensures IsFirst(fails, i + 1, error')
  {
  }

  lemma {:induction false} ErrorSoFar(syn: Syntax, h: Handler, lines: seq<string>, i: nat)
    requires i <= |lines|
    ensures var st := Before(syn, h, lines, i);
            st.lineno == i && IsFirst(Failing(syn, h, lines), i, st.error)
  {
    if i > 0 {
      ErrorSoFar(syn, h, lines, i - 1);
      NextError(syn, h, lines, i - 1);
      NextIsFirst(Failing(syn, h, lines), i - 1, Before(syn, h, lines, i - 1).error, Before(syn, h, lines, i).error);
    }
  }

  lemma {:induction false} NextError(syn: Syntax, h: Handler, lines: seq<string>, i: nat)
    requires i < |lines| && Before(syn, h, lines, i).lineno == i
    ensures var st, st' := Before(syn, h, lines, i), Before(syn, h, lines, i + 1);
            && st'.lineno == i + 1
            && st'.error == if st.error > 0 then st.error else if Failing(syn, h, lines)(i) then i + 1 else 0
  {
    BeforeNext(syn, h, lines, i);
    var st := Before(syn, h, lines, i);
    StepCounts(syn, h, st, lines[i]);
    if st.error == 0 {
      StepFails(syn, h, st, lines[i]);
    }
  }

  /** The result of a parse, with or without error recovery: 0 exactly when no line fails, and
    * otherwise the number of the first line that does. */
  lemma {:induction false} ErrorIsFirstFailure(cfg: Config, h: Handler, text: string)
    requires cfg.Valid()
    ensures var lines, error := Lines(cfg, text), Parse(cfg, h, text).error;
            && (error == 0 <==> forall i :: 0 <= i < |lines| ==> !FailsAt(cfg.syntax, h, lines, i))
            && (error > 0 ==>
                  && error <= |lines| && FailsAt(cfg.syntax, h, lines, error - 1)
                  && forall i :: 0 <= i < error - 1 ==> !FailsAt(cfg.syntax, h, lines, i))
  {
    var lines := Lines(cfg, text);
    ErrorSoFar(cfg.syntax, h, lines, |lines|);
    assert lines[..|lines|] == lines;
    var fails := Failing(cfg.syntax, h, lines);
    assert forall i: nat :: i < |lines| ==> (fails(i) <==> FailsAt(cfg.syntax, h, lines, i));
    if cfg.stopOnFirstError {
      StoppedRunIsPrefix(cfg.syntax, h, INITIAL, lines);
    }
  }
}
