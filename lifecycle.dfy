/**
 * The trace lifecycle as a pure state machine (trace.go:87-154): the state a
 * `Trace` holds, the three mutating calls, and what any sequence of calls
 * does. The `Trace` class in module Traces is proved to take exactly these
 * steps; the lemmas here state what holds for every run.
 */
module Lifecycle {
  import opened Wrappers
  import opened Values
  import opened Steps

  const AddStepError := "cannot add step to completed trace"
  const SetResultError := "cannot set result on completed trace"
  const MetadataError := "cannot add metadata to completed trace"

  /** Every field of a Go `Trace`, including the unexported `completed` flag. */
  datatype TraceState = TraceState(
    id: string,
    name: string,
    inputs: map<string, Value>,
    steps: seq<Step>,
    result: Option<Value>,
    startTime: Timestamp,
    endTime: Option<Timestamp>,
    metadata: map<string, string>,
    completed: bool)

  /** A result and an end time are present exactly when the trace is completed. */
  predicate Consistent(s: TraceState)
  {
    s.result.Some? == s.completed && s.endTime.Some? == s.completed
  }

  /** The trace NewTrace returns: no steps, no result, no end time, empty metadata, open. */
  function Initial(id: string, name: string, inputs: map<string, Value>, now: Timestamp): (s: TraceState)
    ensures Consistent(s) && !s.completed
    ensures s.steps == [] && s.metadata == map[]
  {
    TraceState(id, name, inputs, [], None, now, None, map[], false)
  }

  /** A call of one of the mutating methods, with its arguments (and the clock reading SetResult takes). */
  datatype Call =
    | AddStepCall(step: Step)
    | SetResultCall(value: Value, now: Timestamp)
    | WithMetadataCall(key: string, val: string)

  function ErrorMessage(c: Call): string
  {
    match c
    case AddStepCall(_) => AddStepError
    case SetResultCall(_, _) => SetResultError
    case WithMetadataCall(_, _) => MetadataError
  }

  datatype Transition = Transition(state: TraceState, outcome: Outcome)

  /** AddStep, SetResult and WithMetadata on a trace in state `s`. */
  function Apply(s: TraceState, c: Call): (t: Transition)
    ensures t.outcome.Fail? <==> s.completed
    ensures s.completed ==> t.state == s && t.outcome == Fail(ErrorMessage(c))
    ensures t.state.completed <==> s.completed || c.SetResultCall?
    ensures t.state.id == s.id && t.state.name == s.name
    ensures t.state.inputs == s.inputs && t.state.startTime == s.startTime
    ensures s.steps <= t.state.steps
    ensures !(c.SetResultCall? && !s.completed) ==> t.state.result == s.result
    ensures Consistent(s) ==> Consistent(t.state)
  {
    if s.completed then Transition(s, Fail(ErrorMessage(c)))
    else
      match c
      case AddStepCall(step) =>
        Transition(s.(steps := s.steps + [step]), Pass)
      case SetResultCall(value, now) =>
        Transition(s.(result := Some(value), endTime := Some(now), completed := true), Pass)
      case WithMetadataCall(key, val) =>
        Transition(s.(metadata := s.metadata[key := val]), Pass)
  }

  datatype Run = Run(state: TraceState, outcomes: seq<Outcome>)

  /** The calls `cs`, made one after another; the outcome of each, in order. */
  function RunCalls(s: TraceState, cs: seq<Call>): (r: Run)
    ensures |r.outcomes| == |cs|
    decreases |cs|
  {
    if cs == [] then Run(s, [])
    else
      var t := Apply(s, cs[0]);
      var rest := RunCalls(t.state, cs[1..]);
      Run(rest.state, [t.outcome] + rest.outcomes)
  }

  /** Completed is terminal: every later call fails and changes nothing. */
  lemma {:induction false} CompletedIsTerminal(s: TraceState, cs: seq<Call>)
    requires s.completed
    ensures RunCalls(s, cs).state == s
    ensures forall i :: 0 <= i < |cs| ==> RunCalls(s, cs).outcomes[i] == Fail(ErrorMessage(cs[i]))
    decreases |cs|
  {
    if cs != [] {
      CompletedIsTerminal(s, cs[1..]);
      var r := RunCalls(s, cs);
      forall i | 0 < i < |cs|
        ensures r.outcomes[i] == Fail(ErrorMessage(cs[i]))
      {
        assert r.outcomes[i] == RunCalls(s, cs[1..]).outcomes[i - 1];
        assert cs[1..][i - 1] == cs[i];
      }
    }
  }

  /** The flag never goes back: a trace ends completed iff it started so or some call was a SetResult. */
  lemma {:induction false} CompletionIsMonotonic(s: TraceState, cs: seq<Call>)
    ensures RunCalls(s, cs).state.completed <==>
              s.completed || exists i :: 0 <= i < |cs| && cs[i].SetResultCall?
    decreases |cs|
  {
    if cs != [] {
      var t := Apply(s, cs[0]);
      CompletionIsMonotonic(t.state, cs[1..]);
      if exists i :: 0 <= i < |cs[1..]| && cs[1..][i].SetResultCall? {
        var i :| 0 <= i < |cs[1..]| && cs[1..][i].SetResultCall?;
        assert cs[i + 1].SetResultCall?;
      }
      if exists i :: 0 <= i < |cs| && cs[i].SetResultCall? {
        var i :| 0 <= i < |cs| && cs[i].SetResultCall?;
        if i > 0 {
          assert cs[1..][i - 1].SetResultCall?;
        }
      }
    }
  }

  /**
   * On an open trace, the first SetResult is the only one that succeeds: the calls before it
   * succeed, every call after it fails, and its value is the result the trace ends with.
   */
  lemma {:induction false} OnlyFirstSetResultSucceeds(s: TraceState, cs: seq<Call>, i: nat)
    requires !s.completed
    requires i < |cs| && cs[i].SetResultCall?
    requires forall j :: 0 <= j < i ==> !cs[j].SetResultCall?
    ensures forall j :: 0 <= j <= i ==> RunCalls(s, cs).outcomes[j] == Pass
    ensures forall j :: i < j < |cs| ==> RunCalls(s, cs).outcomes[j].Fail?
    ensures RunCalls(s, cs).state.result == Some(cs[i].value)
    ensures RunCalls(s, cs).state.completed
    decreases |cs|
  {
    var t := Apply(s, cs[0]);
    var rest := RunCalls(t.state, cs[1..]);
    var r := RunCalls(s, cs);
    if i == 0 {
      CompletedIsTerminal(t.state, cs[1..]);
    } else {
      OnlyFirstSetResultSucceeds(t.state, cs[1..], i - 1);
    }
    forall j | 0 < j < |cs|
      ensures r.outcomes[j] == rest.outcomes[j - 1]
    {
    }
  }

  /** The steps recorded, in call order, by the AddStep calls among `cs`. */
  function AddedSteps(cs: seq<Call>): seq<Step>
    decreases |cs|
  {
    if cs == [] then []
    else (if cs[0].AddStepCall? then [cs[0].step] else []) + AddedSteps(cs[1..])
  }

  /**
   * While no SetResult intervenes, every call succeeds and the steps are exactly the
   * old ones followed by the added ones in call order: no reordering, no deduplication.
   */
  lemma {:induction false} StepsKeepCallOrder(s: TraceState, cs: seq<Call>)
    requires !s.completed
    requires forall i :: 0 <= i < |cs| ==> !cs[i].SetResultCall?
    ensures RunCalls(s, cs).state.steps == s.steps + AddedSteps(cs)
    ensures forall i :: 0 <= i < |cs| ==> RunCalls(s, cs).outcomes[i] == Pass
    decreases |cs|
  {
    if cs != [] {
      var t := Apply(s, cs[0]);
      StepsKeepCallOrder(t.state, cs[1..]);
      var r := RunCalls(s, cs);
      forall i | 0 < i < |cs|
        ensures r.outcomes[i] == Pass
      {
        assert r.outcomes[i] == RunCalls(t.state, cs[1..]).outcomes[i - 1];
      }
    }
  }

  /**
   * Whatever the calls: the identifier, name, inputs and start time never change, the old
   * steps stay a prefix of the steps, and the result, end time and flag stay in agreement.
   */
  lemma {:induction false} RunPreservesRecord(s: TraceState, cs: seq<Call>)
    ensures var f := RunCalls(s, cs).state;
      && f.id == s.id && f.name == s.name
      && f.inputs == s.inputs && f.startTime == s.startTime
      && s.steps <= f.steps
      && (Consistent(s) ==> Consistent(f))
    decreases |cs|
  {
    if cs != [] {
      RunPreservesRecord(Apply(s, cs[0]).state, cs[1..]);
    }
  }
}
