/** The damage report the vision capability returns and the assessment
    screen consumes. Every field is optional: the report is whatever JSON the
    capability produced, so any key may be missing. */
module Analysis {
  import opened Wrappers

  /** One repaired part and its cost, both display strings. */
  datatype Part = Part(name: string, cost: string)

  /** The parsed analysis result. `vehicle` is not part of the requested
      shape but is read by the claim hand-off when present. */
  datatype Report = Report(
    riskTitle: Option<string>,
    riskDescription: Option<string>,
    parts: Option<seq<Part>>,
    totalEstimate: Option<string>,
    repairability: Option<string>,
    vehicle: Option<string>)

  /** What `JSON.parse` makes of the model's answer: `None` for a falsy JSON
      value (`null`, `false`, `0`, `""`), which the screen treats as "no
      report"; any other value is read as a report whose absent keys are
      missing fields. */
  type Parsed = Option<Report>
}
