/**
 * Trace.String (trace.go:156-179): a header line, an "Inputs:" section with
 * one line per input in ascending key order, a "Steps:" section with the
 * steps numbered from 1 in the order they were added (only when there is at
 * least one), and a "Result:" line (only when a result is set).
 */
module Rendering {
  import opened Wrappers
  import opened Text
  import opened Ordering
  import opened Values
  import opened Steps
  import opened Lifecycle

  /** `fmt.Sprintf("Trace: %s (ID: %s)\n", name, id)`. */
  function Header(name: string, id: string): string
  {
    "Trace: " + name + " (ID: " + id + ")\n"
  }

  /** The header line, piece by piece; it is a single line when name and id hold no newline. */
  lemma HeaderFormat(name: string, id: string)
    ensures var r := Header(name, id);
      && |r| == |name| + |id| + 15
      && r[..7] == "Trace: " && r[7..7 + |name|] == name
      && r[7 + |name|..13 + |name|] == " (ID: " && r[13 + |name|..|r| - 2] == id
      && r[|r| - 2..] == ")\n"
      && ('\n' !in name && '\n' !in id ==> '\n' !in r[..|r| - 1])
  {
    ConcatParts("Trace: ", name, " (ID: ", id, ")\n");
    var r := Header(name, id);
    assert r[..|r| - 1] == ("Trace: " + name + " (ID: " + id) + ")";
  }

  /** `fmt.Sprintf("  %s: %s\n", k, value)`. */
  function InputLine(key: string, v: Value): string
  {
    "  " + key + ": " + Display(v) + "\n"
  }

  /** An input line, piece by piece; it is a single line when key and display text hold no newline. */
  lemma InputLineFormat(key: string, v: Value)
    ensures var r := InputLine(key, v);
      && |r| == |key| + |Display(v)| + 5
      && r[..2] == "  " && r[2..2 + |key|] == key
      && r[2 + |key|..4 + |key|] == ": " && r[4 + |key|..|r| - 1] == Display(v)
      && r[|r| - 1] == '\n'
      && ('\n' !in key && '\n' !in Display(v) ==> '\n' !in r[..|r| - 1])
  {
    ConcatParts("  ", key, ": ", Display(v), "\n");
  }

  /** The input lines for `keys`, in that order. */
  function InputLines(keys: seq<string>, inputs: map<string, Value>): string
    requires forall k :: k in keys ==> k in inputs
    decreases |keys|
  {
    if keys == [] then ""
    else
      var k := keys[|keys| - 1];
      InputLines(keys[..|keys| - 1], inputs) + InputLine(k, inputs[k])
  }

  /** The input lines of a prefix one longer: one more line, for the next key. */
  lemma InputLinesOfPrefix(keys: seq<string>, i: nat, inputs: map<string, Value>)
    requires i < |keys| && forall k :: k in keys ==> k in inputs
    ensures InputLines(keys[..i + 1], inputs) == InputLines(keys[..i], inputs) + InputLine(keys[i], inputs[keys[i]])
  {
    var longer := keys[..i + 1];
    assert longer[..|longer| - 1] == keys[..i];
    assert longer[|longer| - 1] == keys[i];
  }

  /** `fmt.Sprintf("  %d. %s\n", n, step)`. */
  function StepLine(n: nat, s: Step): string
  {
    "  " + NatString(n) + ". " + StepString(s) + "\n"
  }

  /**
   * A step line, piece by piece: the number is written in decimal digits that read back as the
   * number, and the line is a single line when the step's text holds no newline.
   */
  lemma StepLineFormat(n: nat, s: Step)
    ensures var d, r := NatString(n), StepLine(n, s);
      && ParseNat(d) == n
      && |r| == |d| + |StepString(s)| + 5
      && r[..2] == "  " && r[2..2 + |d|] == d
      && r[2 + |d|..4 + |d|] == ". " && r[4 + |d|..|r| - 1] == StepString(s)
      && r[|r| - 1] == '\n'
      && ('\n' !in StepString(s) ==> '\n' !in r[..|r| - 1])
  {
    NatStringRoundTrip(n);
    var d := NatString(n);
    assert '\n' !in d;
    ConcatParts("  ", d, ". ", StepString(s), "\n");
  }

  /** The step lines: the step at index i is numbered i + 1. */
  function StepLines(steps: seq<Step>): string
    decreases |steps|
  {
    if steps == [] then ""
    else StepLines(steps[..|steps| - 1]) + StepLine(|steps|, steps[|steps| - 1])
  }

  /** The "Steps:" section: present exactly when there is at least one step. */
  function StepsSection(steps: seq<Step>): (r: string)
    ensures r == "" <==> steps == []
    ensures steps != [] ==> |r| >= 7 && r[..7] == "Steps:\n"
  {
    if |steps| > 0 then "Steps:\n" + StepLines(steps) else ""
  }

  /** `fmt.Sprintf("Result: %s\n", result)`. */
  function ResultLine(v: Value): string
  {
    "Result: " + Display(v) + "\n"
  }

  /** The result line, piece by piece; it is a single line when the display text holds no newline. */
  lemma ResultLineFormat(v: Value)
    ensures var r := ResultLine(v);
      && |r| == |Display(v)| + 9
      && r[..8] == "Result: " && r[8..|r| - 1] == Display(v) && r[|r| - 1] == '\n'
      && ('\n' !in Display(v) ==> '\n' !in r[..|r| - 1])
  {
    ConcatParts("Result: ", Display(v), "", "", "\n");
    assert "Result: " + Display(v) + "" + "" == "Result: " + Display(v);
  }

  /** The "Result:" line: present exactly when a result is set. */
  function ResultSection(result: Option<Value>): (r: string)
    ensures r == "" <==> result.None?
    ensures result.Some? ==> r == "Result: " + Display(result.value) + "\n"
  {
    if result.Some? then ResultLine(result.value) else ""
  }

  /** The text Trace.String returns for a trace in state `st`. */
  ghost function Render(st: TraceState): (r: string)
    ensures var head := Header(st.name, st.id) + "Inputs:\n";
      |head| <= |r| && r[..|head|] == head
  {
    Header(st.name, st.id) + "Inputs:\n"
      + InputLines(SortedSeq(st.inputs.Keys), st.inputs)
      + StepsSection(st.steps)
      + ResultSection(st.result)
  }

  /** Inputs are listed once each, in ascending key order, whatever order the map was filled in. */
  lemma InputsListedInKeyOrder(st: TraceState)
    ensures exists keys ::
      && StrictlyAscending(keys)
      && (forall k :: k in keys <==> k in st.inputs)
      && |keys| == |st.inputs|
      && Render(st) == Header(st.name, st.id) + "Inputs:\n" + InputLines(keys, st.inputs)
           + StepsSection(st.steps) + ResultSection(st.result)
  {
    var keys := SortedSeq(st.inputs.Keys);
    assert |keys| == |multiset(keys)| == |multiset(st.inputs.Keys)| == |st.inputs.Keys| == |st.inputs|;
  }

  lemma StepLinesExtend(steps: seq<Step>, step: Step)
    ensures StepLines(steps + [step]) == StepLines(steps) + StepLine(|steps| + 1, step)
  {
    var longer := steps + [step];
    assert longer[..|longer| - 1] == steps;
    assert longer[|longer| - 1] == step;
  }

  /**
   * How each call changes the rendering of a consistent trace: a step that is added appends its
   * numbered line (opening the "Steps:" section for the first one), a result that is set appends
   * the "Result:" line, and metadata and failed calls change nothing.
   */
  lemma RenderAfterCall(st: TraceState, c: Call)
    requires Consistent(st)
    ensures var after := Render(Apply(st, c).state);
      && (st.completed || c.WithMetadataCall? ==> after == Render(st))
      && (!st.completed && c.AddStepCall? ==>
            after == Render(st) + ((if st.steps == [] then "Steps:\n" else "") + StepLine(|st.steps| + 1, c.step)))
      && (!st.completed && c.SetResultCall? ==>
            after == Render(st) + ResultLine(c.value))
  {
    if !st.completed {
      match c
      case AddStepCall(step) =>
        assert Apply(st, c).state == st.(steps := st.steps + [step]);
        RenderAfterAddStep(st, step);
      case SetResultCall(value, now) =>
        assert Apply(st, c).state == st.(result := Some(value), endTime := Some(now), completed := true);
        RenderAfterSetResult(st, value, now);
      case WithMetadataCall(key, val) =>
        assert Apply(st, c).state == st.(metadata := st.metadata[key := val]);
    }
  }

  lemma RenderAfterAddStep(st: TraceState, step: Step)
    requires st.result.None?
    ensures Render(st.(steps := st.steps + [step]))
         == Render(st) + ((if st.steps == [] then "Steps:\n" else "") + StepLine(|st.steps| + 1, step))
  {
    var after := st.(steps := st.steps + [step]);
    var head := Header(st.name, st.id) + "Inputs:\n" + InputLines(SortedSeq(st.inputs.Keys), st.inputs);
    assert Render(st) == head + StepsSection(st.steps);
    assert Render(after) == head + StepsSection(after.steps);
    StepsSectionExtend(st.steps, step);
    AppendAssociates(head, StepsSection(st.steps),
      (if st.steps == [] then "Steps:\n" else "") + StepLine(|st.steps| + 1, step));
  }

  lemma StepsSectionExtend(steps: seq<Step>, step: Step)
    ensures StepsSection(steps + [step])
         == StepsSection(steps) + ((if steps == [] then "Steps:\n" else "") + StepLine(|steps| + 1, step))
  {
    var line := StepLine(|steps| + 1, step);
    StepLinesExtend(steps, step);
    if steps == [] {
      assert StepLines([step]) == "" + line == line;
      assert StepsSection([] + [step]) == "Steps:\n" + line;
      assert StepsSection(steps) == "";
    } else {
      assert StepsSection(steps + [step]) == "Steps:\n" + (StepLines(steps) + line);
      AppendAssociates("Steps:\n", StepLines(steps), line);
      assert "" + line == line;
    }
  }

  /** The step lines of a prefix one longer: one more numbered line. */
  lemma StepLinesOfPrefix(steps: seq<Step>, i: nat)
    requires i < |steps|
    ensures StepLines(steps[..i + 1]) == StepLines(steps[..i]) + StepLine(i + 1, steps[i])
  {
    var longer := steps[..i + 1];
    assert longer[..|longer| - 1] == steps[..i];
    assert longer[|longer| - 1] == steps[i];
  }

  lemma RenderAfterSetResult(st: TraceState, value: Value, now: Timestamp)
    requires st.result.None?
    ensures Render(st.(result := Some(value), endTime := Some(now), completed := true))
         == Render(st) + ResultLine(value)
  {
    var after := st.(result := Some(value), endTime := Some(now), completed := true);
    var head := Header(st.name, st.id) + "Inputs:\n" + InputLines(SortedSeq(st.inputs.Keys), st.inputs)
      + StepsSection(st.steps);
    assert ResultSection(st.result) == "";
    assert Render(st) == head + "";
    assert head + "" == head;
    assert Render(after) == head + ResultSection(after.result);
  }

  /** A trace with no inputs and no steps whose result is 0 renders as its header, "Inputs:" and "Result: 0". */
  lemma EmptyTraceRendering(st: TraceState)
    requires st.inputs == map[] && st.steps == [] && st.result == Some(NewValue(IntDatum(0)))
    ensures Render(st) == Header(st.name, st.id) + "Inputs:\n" + "Result: 0\n"
  {
    assert |SortedSeq(st.inputs.Keys)| == |multiset(st.inputs.Keys)| == 0;
  }
}
