/**
 * Client code in the manner of the package's tests and examples: what a
 * caller can conclude from the contracts of Trace alone.
 */
module Scenarios {
  import opened Wrappers
  import opened Values
  import opened Steps
  import opened Lifecycle
  import opened Identifiers
  import opened Rendering
  import opened Traces

  /** Record "addition" of 10 and 20: one step, result 30; later calls fail and change nothing. */
  method AdditionTrace(sha256: string -> Digest, t0: Timestamp, t1: Timestamp, t2: Timestamp, t3: Timestamp)
  {
    var inputs := map["a" := NewValue(IntDatum(10)), "b" := NewValue(IntDatum(20))];
    var tr := new Trace("addition", Some(inputs), t0, sha256);
    assert !tr.IsCompleted();

    var step := NewStep("add", inputs, NewValue(IntDatum(30)), t1);
    var err := tr.AddStep(step);
    assert err == Pass && tr.steps == [step];

    err := tr.SetResult(NewValue(IntDatum(30)), t2);
    assert err == Pass && tr.IsCompleted() && tr.endTime == Some(t2);

    err := tr.SetResult(NewValue(IntDatum(31)), t3);
    assert err == Fail(SetResultError) && tr.result == Some(NewValue(IntDatum(30)));

    err := tr.AddStep(step);
    assert err.Fail? && |tr.steps| == 1;

    err := tr.WithMetadata("unit", "none");
    assert err.Fail? && tr.metadata == map[];
  }

  /** Two traces built from separately made but equal input maps get the same identifier. */
  method SameInputsSameId(sha256: string -> Digest, t0: Timestamp, t1: Timestamp)
  {
    var inputs1 := map["a" := NewValue(IntDatum(1)), "b" := NewValue(IntDatum(2))];
    var inputs2 := map["b" := NewValue(IntDatum(2))];
    inputs2 := inputs2["a" := NewValue(IntDatum(1))];
    assert inputs1 == inputs2;
    var tr1 := new Trace("test", Some(inputs1), t0, sha256);
    var tr2 := new Trace("test", Some(inputs2), t1, sha256);
    assert tr1.id == TraceId("test", inputs1, sha256);
    assert tr2.id == TraceId("test", inputs1, sha256);
  }

  /** The inputs a trace records do not follow later changes to the caller's map. */
  method InputsAreSnapshotted(sha256: string -> Digest, t0: Timestamp)
  {
    var inputs := map["x" := NewValue(IntDatum(10))];
    var tr := new Trace("test", Some(inputs), t0, sha256);
    inputs := inputs["x" := NewValue(IntDatum(20))]["y" := NewValue(IntDatum(30))];
    assert tr.inputs == map["x" := NewValue(IntDatum(10))];
  }

  /** Metadata goes in while the trace is open; a nil inputs map is recorded as empty. */
  method MetadataWhileOpen(sha256: string -> Digest, t0: Timestamp, t1: Timestamp)
  {
    var tr := new Trace("percentage-calculation", None, t0, sha256);
    assert tr.inputs == map[];
    ghost var rendered := Render(tr.State());
    var err := tr.WithMetadata("unit", "percent");
    err := tr.WithMetadata("precision", "2");
    assert err == Pass && tr.metadata == map["unit" := "percent", "precision" := "2"];
    var s := tr.String();
    assert s == rendered;
    var head := Header(tr.name, tr.id) + "Inputs:\n";
    assert |head| <= |s| && s[..|head|] == head;
  }
}
