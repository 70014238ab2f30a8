/**
 * `Step`: one recorded operation (trace.go:41-85). Its modifiers copy and
 * return, so the model gives `Step` value semantics throughout.
 */
module Steps {
  import opened Values

  /** A `time.Time` in UTC, as the clock reported it; only carried, never inspected. */
  datatype Timestamp = Timestamp(unixNanos: int)

  datatype Step = Step(
    operation: string,
    description: string,
    inputs: map<string, Value>,
    output: Value,
    timestamp: Timestamp,
    metadata: map<string, string>)

  /** NewStep: the given operation, inputs and output, stamped `now`, with no description and empty metadata. */
  function NewStep(operation: string, inputs: map<string, Value>, output: Value, now: Timestamp): (s: Step)
    ensures s.operation == operation && s.inputs == inputs && s.output == output
    ensures s.timestamp == now
    ensures s.description == "" && s.metadata == map[]
  {
    Step(operation, "", inputs, output, now, map[])
  }

  /** Step.WithDescription: a copy whose description is `desc`, otherwise identical. */
  function WithDescription(s: Step, desc: string): (r: Step)
    ensures r.description == desc
    ensures r.(description := s.description) == s
  {
    s.(description := desc)
  }

  /** Step.WithMetadata: a copy with `key` mapped to `value`; other keys and fields are as before. */
  function WithMetadata(s: Step, key: string, value: string): (r: Step)
    ensures key in r.metadata && r.metadata[key] == value
    ensures forall k :: k != key ==> (k in r.metadata <==> k in s.metadata)
    ensures forall k :: k != key && k in s.metadata ==> r.metadata[k] == s.metadata[k]
    ensures r.(metadata := s.metadata) == s
  {
    s.(metadata := s.metadata[key := value])
  }

  /** Step.String: "op: output", followed by " (desc)" exactly when the description is not empty. */
  function StepString(s: Step): (r: string)
    ensures var head := s.operation + ": " + Display(s.output);
      && |head| <= |r|
      && r[..|head|] == head
      && (s.description == "" <==> r == head)
      && (s.description != "" ==> r[|head|..] == " (" + s.description + ")")
  {
    var head := s.operation + ": " + Display(s.output);
    if s.description != "" then head + " (" + s.description + ")" else head
  }
}
