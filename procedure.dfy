/** `Procedure`: a pipeline of stages run one after the other. A stage is a
    single step or a group of steps run on the same input; each step answers
    with a `Result`, and the first `Err` ends the run. */
module Procedure {
  import opened Js
  import opened Text
  import opened TaggedResult

  /** A step: from the previous stage's payload to a `Result`. */
  type Step = Value -> Result<Value, Value>

  datatype Stage = Sequential(step: Step) | Parallel(group: seq<Step>)

  datatype Procedure = Procedure(instructions: seq<Stage>)

  /** One call of a step: the stage it belongs to, its position in the group
      (0 for a sequential step) and the input it received. */
  datatype Invocation = Invocation(stage: nat, member: nat, input: Value)

  /** `Procedure.start()`. */
  function Start(): (p: Procedure)
    ensures |p.instructions| == 0
  {
    Procedure([])
  }

  /** `sequence(fn)`: a new procedure with one more stage; the receiver, a
      value, is untouched. */
  function Sequence(p: Procedure, fn: Step): (q: Procedure)
    ensures q.instructions == p.instructions + [Sequential(fn)]
  {
    Procedure(p.instructions + [Sequential(fn)])
  }

  /** `parallelize(...fn)`. */
  function Parallelize(p: Procedure, group: seq<Step>): (q: Procedure)
    ensures q.instructions == p.instructions + [Parallel(group)]
  {
    Procedure(p.instructions + [Parallel(group)])
  }

  /** The results of a group, in declaration order, all on the same input. */
  function GroupResults(group: seq<Step>, acc: Value): (rs: seq<Result<Value, Value>>)
    ensures |rs| == |group|
    ensures forall i :: 0 <= i < |group| ==> rs[i] == group[i](acc)
  {
    seq(|group|, i requires 0 <= i < |group| => group[i](acc))
  }

  /** The position of the first `Err` among `rs`, or `|rs|`. */
  function FirstErr(rs: seq<Result<Value, Value>>): (i: nat)
    ensures i <= |rs|
    ensures i < |rs| ==> rs[i].Err?
    ensures forall j :: 0 <= j < i ==> rs[j].Ok?
  {
    if |rs| == 0 then 0
    else if rs[0].Err? then 0
    else 1 + FirstErr(rs[1..])
  }

  /** What a group's results come to: the `Err` of the first failing member,
      else `Ok` of the array of payloads in declaration order. */
  function Collect(rs: seq<Result<Value, Value>>): (r: Result<Value, Value>)
    ensures r.Err? <==> exists i :: 0 <= i < |rs| && rs[i].Err?
  {
    var f := FirstErr(rs);
    if f < |rs| then Err(rs[f].error) else Ok(Arr(Payloads(rs)))
  }

  /** What a stage gives for the payload `acc`. */
  function StageOutcome(s: Stage, acc: Value): (r: Result<Value, Value>)
  {
    match s
    case Sequential(step) => step(acc)
    case Parallel(group) => Collect(GroupResults(group, acc))
  }

  /** A group stage fails exactly when one of its members fails on the
      payload; otherwise it yields an array with one payload per member. */
  lemma GroupOutcome(group: seq<Step>, acc: Value)
    ensures var r := StageOutcome(Parallel(group), acc);
      && (r.Err? <==> exists i :: 0 <= i < |group| && group[i](acc).Err?)
      && (r.Ok? ==> r.value.Arr? && |r.value.items| == |group|)
  {
    var rs := GroupResults(group, acc);
    if exists i :: 0 <= i < |group| && group[i](acc).Err? {
      var i :| 0 <= i < |group| && group[i](acc).Err?;
      assert rs[i].Err?;
    }
  }

  /** The calls stage `k` makes: its step, or every member of its group
      (the results are awaited together, so a failure stops none of them). */
  function StageCalls(k: nat, s: Stage, acc: Value): (log: seq<Invocation>)
    ensures s.Sequential? ==> log == [Invocation(k, 0, acc)]
    ensures s.Parallel? ==> |log| == |s.group| && forall i :: 0 <= i < |log| ==> log[i] == Invocation(k, i, acc)
  {
    match s
    case Sequential(_) => [Invocation(k, 0, acc)]
    case Parallel(group) => seq(|group|, i requires 0 <= i < |group| => Invocation(k, i, acc))
  }

  /** Running the stages from position `k` on with payload `acc`: the final
      result and the calls made, in order. */
  function Run(stages: seq<Stage>, k: nat, acc: Value): (Result<Value, Value>, seq<Invocation>)
    requires k <= |stages|
    decreases |stages| - k
  {
    if k == |stages| then (Ok(acc), [])
    else
      var o := StageOutcome(stages[k], acc);
      var calls := StageCalls(k, stages[k], acc);
      if o.Err? then (Err(o.error), calls)
      else
        var rest := Run(stages, k + 1, o.value);
        (rest.0, calls + rest.1)
  }

  /** `end()`: the stages run in order from the payload `undefined`; the log
      records every step call. */
  method End(p: Procedure) returns (r: Result<Value, Value>, log: seq<Invocation>)
    ensures (r, log) == Run(p.instructions, 0, Undefined)
  {
    var stages := p.instructions;
    var prev := Undefined;
    log := [];
    var k := 0;
    assert log + Run(stages, k, prev).1 == Run(stages, k, prev).1;
    while k < |stages|
      invariant k <= |stages|
      invariant Run(stages, 0, Undefined) == (Run(stages, k, prev).0, log + Run(stages, k, prev).1)
    {
      var outcome, calls := RunStage(k, stages[k], prev);
      RunUnfold(stages, k, prev);
      ghost var logBefore := log;
      log := log + calls;
      if outcome.Err? {
        return Err(outcome.error), log;
      }
      prev := outcome.value;
      assert logBefore + (calls + Run(stages, k + 1, prev).1) == log + Run(stages, k + 1, prev).1;
      k := k + 1;
    }
    assert log + Run(stages, k, prev).1 == log;
    return Ok(prev), log;
  }

  /** One stage of `end()`: the step is awaited, or every member of the group
      is started and their results gathered. */
  method RunStage(k: nat, s: Stage, acc: Value) returns (outcome: Result<Value, Value>, calls: seq<Invocation>)
    ensures outcome == StageOutcome(s, acc)
    ensures calls == StageCalls(k, s, acc)
  {
    match s {
      case Sequential(step) =>
        outcome := step(acc);
        calls := [Invocation(k, 0, acc)];
      case Parallel(group) =>
        var results;
        results, calls := RunGroup(k, group, acc);
        outcome := CollectGroup(results);
    }
  }

  /** One step of `Run`: the stage at `k`, then the rest when it succeeded. */
  lemma RunUnfold(stages: seq<Stage>, k: nat, acc: Value)
    requires k < |stages|
    ensures var o := StageOutcome(stages[k], acc);
      var calls := StageCalls(k, stages[k], acc);
      Run(stages, k, acc) ==
        if o.Err? then (Err(o.error), calls)
        else (Run(stages, k + 1, o.value).0, calls + Run(stages, k + 1, o.value).1)
  {
  }

  /** Going through a group's results in order: the first `Err` is returned;
      otherwise the payloads are pushed onto a fresh array. */
  method CollectGroup(results: seq<Result<Value, Value>>) returns (r: Result<Value, Value>)
    ensures r == Collect(results)
  {
    var items := [];
    var j := 0;
    while j < |results|
      invariant j <= |results|
      invariant forall m :: 0 <= m < j ==> results[m].Ok?
      invariant items == Payloads(results[..j])
    {
      if results[j].Err? {
        FirstErrIs(results, j);
        return Err(results[j].error);
      }
      items := items + [results[j].value];
      j := j + 1;
    }
    assert results[..j] == results;
    FirstErrIs(results, j);
    return Ok(Arr(items));
  }

  /** Starting every member of a group on the same payload, in order. */
  method RunGroup(k: nat, group: seq<Step>, acc: Value) returns (results: seq<Result<Value, Value>>, calls: seq<Invocation>)
    ensures results == GroupResults(group, acc)
    ensures calls == StageCalls(k, Parallel(group), acc)
  {
    results := [];
    calls := [];
    var i := 0;
    while i < |group|
      invariant i <= |group|
      invariant results == GroupResults(group[..i], acc)
      invariant calls == StageCalls(k, Parallel(group[..i]), acc)
    {
      results := results + [group[i](acc)];
      calls := calls + [Invocation(k, i, acc)];
      i := i + 1;
    }
    assert group[..i] == group;
  }

  /** A position before which every result is `Ok`, and which is an `Err` (or
      the end), is the first failure. */
  lemma FirstErrIs(rs: seq<Result<Value, Value>>, i: nat)
    requires i <= |rs|
    requires forall j :: 0 <= j < i ==> rs[j].Ok?
    requires i < |rs| ==> rs[i].Err?
    ensures FirstErr(rs) == i
  {
    var f := FirstErr(rs);
    if f < i {
      assert false;
    }
  }

  /** A group fails with the error of its first failing member in declaration
      order, and succeeds with the payloads in declaration order. */
  lemma CollectFirstFailure(rs: seq<Result<Value, Value>>, i: nat)
    requires i < |rs| && rs[i].Err?
    requires forall j :: 0 <= j < i ==> rs[j].Ok?
    ensures Collect(rs) == Err(rs[i].error)
  {
    FirstErrIs(rs, i);
  }

  /** With every member `Ok`, the group's payload is the array of their
      payloads, in declaration order. */
  lemma CollectAllOk(rs: seq<Result<Value, Value>>)
    requires forall j :: 0 <= j < |rs| ==> rs[j].Ok?
    ensures Collect(rs) == Ok(Arr(Payloads(rs)))
  {
    FirstErrIs(rs, |rs|);
  }

  /** An empty procedure yields `Ok(undefined)` and calls nothing. */
  lemma StartEndsOk()
    ensures Run(Start().instructions, 0, Undefined) == (Ok(Undefined), [])
  {
  }

  /** How many calls a stage makes: one step, or every member of its group. */
  function StageSize(s: Stage): nat {
    match s
    case Sequential(_) => 1
    case Parallel(group) => |group|
  }

  /** Call `a` comes before call `b`: an earlier stage, or an earlier member
      of the same stage. */
  predicate Earlier(a: Invocation, b: Invocation) {
    a.stage < b.stage || (a.stage == b.stage && a.member < b.member)
  }

  /** The log lists calls strictly in stage order, and inside a stage in
      member order; so no step is called twice. */
  predicate InCallOrder(log: seq<Invocation>) {
    forall i, j :: 0 <= i < j < |log| ==> Earlier(log[i], log[j])
  }

  /** The calls of stage `k` come in member order and belong to that stage. */
  lemma StageCallsInOrder(k: nat, s: Stage, acc: Value)
    ensures var calls := StageCalls(k, s, acc);
      && |calls| == StageSize(s)
      && InCallOrder(calls)
      && forall c :: c in calls ==> c.stage == k && c.member < StageSize(s) && c.input == acc
  {
  }

  /** A stage's calls followed by a log of later stages stay in call order. */
  lemma InCallOrderJoin(calls: seq<Invocation>, rest: seq<Invocation>, k: nat)
    requires InCallOrder(calls) && InCallOrder(rest)
    requires forall c :: c in calls ==> c.stage == k
    requires forall c :: c in rest ==> c.stage > k
    ensures InCallOrder(calls + rest)
  {
    var log := calls + rest;
    forall i, j | 0 <= i < j < |log| ensures Earlier(log[i], log[j]) {
      if j < |calls| {
        assert log[i] == calls[i] && log[j] == calls[j];
      } else if i < |calls| {
        assert log[i] == calls[i] && log[i] in calls;
        assert log[j] == rest[j - |calls|] && log[j] in rest;
      } else {
        assert log[i] == rest[i - |calls|];
        assert log[j] == rest[j - |calls|];
      }
    }
  }

  /** A stage that fails calls at least one step. */
  lemma FailingStageCalls(k: nat, s: Stage, acc: Value)
    requires StageOutcome(s, acc).Err?
    ensures StageSize(s) > 0
  {
    if s.Parallel? {
      var rs := GroupResults(s.group, acc);
      assert FirstErr(rs) < |rs|;
    }
  }

  /** Every logged call is a member of a stage from `k` on. */
  lemma {:induction false} RunLogMembers(stages: seq<Stage>, k: nat, acc: Value)
    requires k <= |stages|
    ensures forall c :: c in Run(stages, k, acc).1 ==> k <= c.stage < |stages| && c.member < StageSize(stages[c.stage])
    decreases |stages| - k
  {
    if k < |stages| {
      var o := StageOutcome(stages[k], acc);
      var calls := StageCalls(k, stages[k], acc);
      StageCallsInOrder(k, stages[k], acc);
      if o.Ok? {
        var rest := Run(stages, k + 1, o.value);
        RunLogMembers(stages, k + 1, o.value);
        assert Run(stages, k, acc).1 == calls + rest.1;
      }
    }
  }

  /** The log lists the calls in stage order, each step at most once. */
  lemma {:induction false} RunLogOrder(stages: seq<Stage>, k: nat, acc: Value)
    requires k <= |stages|
    ensures InCallOrder(Run(stages, k, acc).1)
    decreases |stages| - k
  {
    if k < |stages| {
      var o := StageOutcome(stages[k], acc);
      var calls := StageCalls(k, stages[k], acc);
      StageCallsInOrder(k, stages[k], acc);
      if o.Ok? {
        var rest := Run(stages, k + 1, o.value);
        RunLogOrder(stages, k + 1, o.value);
        RunLogMembers(stages, k + 1, o.value);
        InCallOrderJoin(calls, rest.1, k);
        assert Run(stages, k, acc).1 == calls + rest.1;
      }
    }
  }

  /** The last call of `log` is of a stage that, on the payload it received,
      fails with `error`. */
  predicate FailedLast(stages: seq<Stage>, log: seq<Invocation>, error: Value) {
    && |log| > 0 && log[|log| - 1].stage < |stages|
    && StageOutcome(stages[log[|log| - 1].stage], log[|log| - 1].input) == Err(error)
  }

  /** A failed run failed in the last stage it called, on the payload that
      stage received. */
  lemma {:induction false} RunLogFailure(stages: seq<Stage>, k: nat, acc: Value)
    requires k <= |stages|
    ensures Run(stages, k, acc).0.Err? ==> FailedLast(stages, Run(stages, k, acc).1, Run(stages, k, acc).0.error)
    decreases |stages| - k
  {
    if k < |stages| {
      var o := StageOutcome(stages[k], acc);
      var calls := StageCalls(k, stages[k], acc);
      if o.Err? {
        FailingStageCalls(k, stages[k], acc);
        assert calls[|calls| - 1] == Invocation(k, |calls| - 1, acc);
        assert Run(stages, k, acc) == (Err(o.error), calls);
      } else {
        var rest := Run(stages, k + 1, o.value);
        RunLogFailure(stages, k + 1, o.value);
        var log := calls + rest.1;
        assert Run(stages, k, acc) == (rest.0, log);
        if rest.0.Err? {
          assert log[|log| - 1] == rest.1[|rest.1| - 1];
        }
      }
    }
  }

  /** Every logged call is a member of a stage from `k` on; the calls come in
      stage order, each step at most once; and a failed run failed in the last
      stage it called, on the payload that stage received, so no later stage
      ran. */
  lemma RunLogStages(stages: seq<Stage>, k: nat, acc: Value)
    requires k <= |stages|
    ensures var log := Run(stages, k, acc).1;
      forall c :: c in log ==> k <= c.stage < |stages| && c.member < StageSize(stages[c.stage])
    ensures InCallOrder(Run(stages, k, acc).1)
    ensures var (r, log) := Run(stages, k, acc);
      r.Err? ==> (&& |log| > 0 && log[|log| - 1].stage < |stages|
                  && StageOutcome(stages[log[|log| - 1].stage], log[|log| - 1].input) == Err(r.error))
  {
    RunLogMembers(stages, k, acc);
    RunLogOrder(stages, k, acc);
    RunLogFailure(stages, k, acc);
  }

  /** Running only the appended stage. */
  lemma RunLast(stages: seq<Stage>, s: Stage, acc: Value)
    ensures var o := StageOutcome(s, acc);
      Run(stages + [s], |stages|, acc) ==
        (if o.Err? then Err(o.error) else Ok(o.value), StageCalls(|stages|, s, acc))
  {
    var all := stages + [s];
    assert all[|stages|] == s;
    var o := StageOutcome(s, acc);
    var calls := StageCalls(|stages|, s, acc);
    if o.Ok? {
      assert Run(all, |stages| + 1, o.value) == (Ok(o.value), []);
      assert calls + [] == calls;
    }
  }

  /** Appending a stage: a run that failed is unaffected (the new stage is
      never called); a run that succeeded with payload `v` goes on into the
      new stage with `v`, whose outcome becomes the result. */
  lemma {:induction false} RunAppend(stages: seq<Stage>, s: Stage, k: nat, acc: Value)
    requires k <= |stages|
    ensures var before := Run(stages, k, acc);
      Run(stages + [s], k, acc) ==
        if before.0.Err? then before
        else
          var o := StageOutcome(s, before.0.value);
          (if o.Err? then Err(o.error) else Ok(o.value),
           before.1 + StageCalls(|stages|, s, before.0.value))
    decreases |stages| - k
  {
    var all := stages + [s];
    assert all[..|stages|] == stages;
    if k == |stages| {
      RunLast(stages, s, acc);
      assert Run(stages, k, acc) == (Ok(acc), []);
      assert [] + StageCalls(k, s, acc) == StageCalls(k, s, acc);
    } else {
      assert all[k] == stages[k];
      var o := StageOutcome(stages[k], acc);
      var calls := StageCalls(k, stages[k], acc);
      if o.Ok? {
        RunAppend(stages, s, k + 1, o.value);
        var rest := Run(stages, k + 1, o.value);
        if rest.0.Ok? {
          var extra := StageCalls(|stages|, s, rest.0.value);
          assert calls + (rest.1 + extra) == (calls + rest.1) + extra;
        }
      }
    }
  }

  /** `sequence(fn)`: the step receives the payload the procedure ended with,
      and its `Result` is the new outcome; a failed procedure stays failed
      and `fn` is not called. */
  lemma SequenceThreadsPayload(p: Procedure, fn: Step)
    ensures var before := Run(p.instructions, 0, Undefined);
      Run(Sequence(p, fn).instructions, 0, Undefined) ==
        if before.0.Err? then before
        else (fn(before.0.value), before.1 + [Invocation(|p.instructions|, 0, before.0.value)])
  {
    RunAppend(p.instructions, Sequential(fn), 0, Undefined);
    var before := Run(p.instructions, 0, Undefined);
    if before.0.Ok? {
      var o := fn(before.0.value);
      assert (if o.Err? then Err(o.error) else Ok(o.value)) == o;
    }
  }

  /** `parallelize(...group)`: every member is called on the payload the
      procedure ended with, whatever the members answer, and the first failing
      member (in declaration order) decides the error. */
  lemma ParallelizeCallsAll(p: Procedure, group: seq<Step>)
    ensures var before := Run(p.instructions, 0, Undefined);
      var after := Run(Parallelize(p, group).instructions, 0, Undefined);
      before.0.Ok? ==>
        && after.0 == Collect(GroupResults(group, before.0.value))
        && forall i :: 0 <= i < |group| ==> Invocation(|p.instructions|, i, before.0.value) in after.1
  {
    RunAppend(p.instructions, Parallel(group), 0, Undefined);
    var before := Run(p.instructions, 0, Undefined);
    if before.0.Ok? {
      var calls := StageCalls(|p.instructions|, Parallel(group), before.0.value);
      var o := Collect(GroupResults(group, before.0.value));
      assert (if o.Err? then Err(o.error) else Ok(o.value)) == o;
      forall i | 0 <= i < |group|
        ensures Invocation(|p.instructions|, i, before.0.value) in before.1 + calls
      {
        assert (before.1 + calls)[|before.1| + i] == calls[i];
      }
    }
  }

  /** The tests' three sequential steps: `Ok(12)`, then one more, then its
      text, give `Ok("13")`. */
  lemma SequenceExample()
    ensures var p := Sequence(Sequence(Sequence(Start(),
        (_: Value) => Ok(Num(12))),
        (i: Value) => if i.Num? then Ok(Num(i.n + 1)) else Ok(NaN)),
        (i: Value) => if i.Num? then Ok(Str(IntText(i.n))) else Ok(Undefined));
      Run(p.instructions, 0, Undefined).0 == Ok(Str("13"))
  {
    var s1: Step := (_: Value) => Ok(Num(12));
    var s2: Step := (i: Value) => if i.Num? then Ok(Num(i.n + 1)) else Ok(NaN);
    var s3: Step := (i: Value) => if i.Num? then Ok(Str(IntText(i.n))) else Ok(Undefined);
    SequenceThreadsPayload(Start(), s1);
    SequenceThreadsPayload(Sequence(Start(), s1), s2);
    SequenceThreadsPayload(Sequence(Sequence(Start(), s1), s2), s3);
    assert IntText(13) == "13" by {
      assert NatText(13) == NatText(1) + [DigitChar(3)];
    }
  }
}
