/**
 * The `Trace` aggregate (trace.go:87-179, 190-200): a class whose methods
 * change its fields in place, as the Go methods do through their pointer
 * receiver. `State()` reads all fields as a `TraceState`; each mutating
 * method is proved to take exactly the step `Lifecycle.Apply` describes, so
 * the lemmas of module Lifecycle hold of every sequence of calls on a Trace.
 */
module Traces {
  import opened Wrappers
  import opened Text
  import opened Ordering
  import opened Values
  import opened Steps
  import opened Lifecycle
  import opened Identifiers
  import opened Rendering

  /**
   * copyInputs: a nil map gives a fresh empty map, any other map a copy with the same entries,
   * filled in the map's own iteration order.
   */
  method CopyInputs(inputs: Option<map<string, Value>>) returns (copied: map<string, Value>)
    ensures inputs.None? ==> copied == map[]
    ensures inputs.Some? ==> copied == inputs.value
  {
    if inputs.None? {
      return map[];
    }
    var source := inputs.value;
    copied := map[];
    var rest := source.Keys;
    while rest != {}
      invariant rest <= source.Keys
      invariant copied.Keys == source.Keys - rest
      invariant forall k :: k in copied ==> copied[k] == source[k]
      decreases |rest|
    {
      var k :| k in rest;
      copied := copied[k := source[k]];
      rest := rest - {k};
    }
  }

  class Trace {
    var id: string
    var name: string
    var inputs: map<string, Value>
    var steps: seq<Step>
    var result: Option<Value>
    var startTime: Timestamp
    var endTime: Option<Timestamp>
    var metadata: map<string, string>
    var completed: bool

    /** All fields, as a value. */
    ghost function State(): TraceState
      reads this
    {
      TraceState(id, name, inputs, steps, result, startTime, endTime, metadata, completed)
    }

    /** A result and an end time are present exactly when the trace is completed. */
    ghost predicate Valid()
      reads this
    {
      Consistent(State())
    }

    /**
     * NewTrace: an open trace with the derived identifier, a copy of the inputs (empty for
     * nil), no steps, no result, no end time, empty metadata, started at `now`.
     */
    constructor (name: string, inputs: Option<map<string, Value>>, now: Timestamp, sha256: string -> Digest)
      ensures Valid()
      ensures State() == Initial(TraceId(name, Entries(inputs), sha256), name, Entries(inputs), now)
    {
      var id := GenerateID(name, inputs, sha256);
      var copied := CopyInputs(inputs);
      this.id := id;
      this.name := name;
      this.inputs := copied;
      this.steps := [];
      this.result := None;
      this.startTime := now;
      this.endTime := None;
      this.metadata := map[];
      this.completed := false;
    }

    /**
     * AddStep: on an open trace, appends `step` after the existing steps and succeeds; on a
     * completed trace, fails with its error and changes nothing. No other field changes.
     */
    method AddStep(step: Step) returns (err: Outcome)
      modifies this
      ensures old(completed) ==> err == Fail(AddStepError) && State() == old(State())
      ensures !old(completed) ==> err == Pass && State() == old(State()).(steps := old(steps) + [step])
      ensures Transition(State(), err) == Apply(old(State()), AddStepCall(step))
      ensures old(Valid()) ==> Valid()
    {
      if completed {
        return Fail(AddStepError);
      }
      steps := steps + [step];
      return Pass;
    }

    /**
     * SetResult: on an open trace, records `value` as the result, `now` as the end time and
     * marks the trace completed, all in one call; on a completed trace, fails with its error
     * and the first result stays as it was.
     */
    method SetResult(value: Value, now: Timestamp) returns (err: Outcome)
      modifies this
      ensures old(completed) ==> err == Fail(SetResultError) && State() == old(State())
      ensures !old(completed) ==>
                err == Pass &&
                State() == old(State()).(result := Some(value), endTime := Some(now), completed := true)
      ensures Transition(State(), err) == Apply(old(State()), SetResultCall(value, now))
      ensures old(Valid()) ==> Valid()
    {
      if completed {
        return Fail(SetResultError);
      }
      result := Some(value);
      endTime := Some(now);
      completed := true;
      return Pass;
    }

    /** IsCompleted: on a valid trace, true exactly when a result and an end time have been recorded. */
    function IsCompleted(): (r: bool)
      reads this
      ensures Valid() ==> (r <==> result.Some?) && (r <==> endTime.Some?)
    {
      completed
    }

    /**
     * WithMetadata: on an open trace, maps `key` to `value` (replacing any earlier value) and
     * succeeds; on a completed trace, fails with its error and changes nothing.
     */
    method WithMetadata(key: string, value: string) returns (err: Outcome)
      modifies this
      ensures old(completed) ==> err == Fail(MetadataError) && State() == old(State())
      ensures !old(completed) ==>
                err == Pass &&
                State() == old(State()).(metadata := old(metadata)[key := value])
      ensures Transition(State(), err) == Apply(old(State()), WithMetadataCall(key, value))
      ensures old(Valid()) ==> Valid()
    {
      if completed {
        return Fail(MetadataError);
      }
      metadata := metadata[key := value];
      return Pass;
    }

    /** String: the text `Render` gives for the current state, whatever order the inputs map yields its keys in. */
    method String() returns (r: string)
      ensures r == Render(State())
    {
      var keys := CollectKeys(inputs);
      ghost var visited := keys;
      keys := Sort(keys);
      SortIsCanonical(visited, inputs.Keys);
      r := Header(name, id) + "Inputs:\n";
      r := AppendInputLines(r, keys, inputs);
      ghost var withInputs := r;
      if |steps| > 0 {
        r := r + "Steps:\n";
        r := AppendStepLines(r, steps);
        AppendAssociates(withInputs, "Steps:\n", StepLines(steps));
      }
      assert r == withInputs + StepsSection(steps);
      ghost var withSteps := r;
      if result.Some? {
        r := r + ResultLine(result.value);
      }
      assert r == withSteps + ResultSection(result);
    }
  }

  /** The input loop of Trace.String: one line per key of `keys`, in that order. */
  method AppendInputLines(text: string, keys: seq<string>, inputs: map<string, Value>) returns (r: string)
    requires forall k :: k in keys ==> k in inputs
    ensures r == text + InputLines(keys, inputs)
  {
    r := text;
    var i := 0;
    while i < |keys|
      invariant 0 <= i <= |keys|
      invariant r == text + InputLines(keys[..i], inputs)
    {
      InputLinesOfPrefix(keys, i, inputs);
      AppendAssociates(text, InputLines(keys[..i], inputs), InputLine(keys[i], inputs[keys[i]]));
      r := r + InputLine(keys[i], inputs[keys[i]]);
      i := i + 1;
    }
    assert keys[..|keys|] == keys;
  }

  /** The step loop of Trace.String: the step at index i on a line numbered i + 1. */
  method AppendStepLines(text: string, steps: seq<Step>) returns (r: string)
    ensures r == text + StepLines(steps)
  {
    r := text;
    var i := 0;
    while i < |steps|
      invariant 0 <= i <= |steps|
      invariant r == text + StepLines(steps[..i])
    {
      StepLinesOfPrefix(steps, i);
      AppendAssociates(text, StepLines(steps[..i]), StepLine(i + 1, steps[i]));
      r := r + StepLine(i + 1, steps[i]);
      i := i + 1;
    }
    assert steps[..|steps|] == steps;
  }
}
