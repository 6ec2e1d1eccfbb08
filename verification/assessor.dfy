/** The damage-assessment workflow (`src/pages/Assessor.jsx`): a state
    machine over three steps, `upload`, `scanning` and `results`. A file
    selection or drop is read into a data URL (a parameter here), analysed,
    and either shows the report or falls back to `upload`; confirming the
    report files a claim. Each analysis runs as one atomic step. */
module Assessor {
  import opened Wrappers
  import opened Text
  import opened Analysis
  import ClaimsContext
  import Groq

  datatype Step = Upload | Scanning | Results

  /** The four pieces of component state the workflow keeps. */
  datatype Workflow = Workflow(
    step: Step,
    selectedImage: Option<string>,
    analysisResult: Option<Report>,
    isAnalyzing: bool)

  /** The state the component mounts with. */
  const Initial: Workflow := Workflow(Upload, None, None, false)

  /** `file && file.type.startsWith('image/')`: the only files the workflow
      reacts to. */
  predicate AcceptsFile(file: Option<ClaimsContext.FileInfo>) {
    file.Some? && HasPrefix(file.value.mediaType, "image/")
  }

  /** The state while the analysis runs, once the reader has produced the
      data URL of the image. */
  function BeginScan(w: Workflow, dataUrl: string): (r: Workflow)
    ensures r.step == Scanning && r.selectedImage == Some(dataUrl) && r.isAnalyzing
    ensures r.analysisResult == w.analysisResult
  {
    Workflow(Scanning, Some(dataUrl), w.analysisResult, true)
  }

  /** What settling the analysis does to the workflow, and the alert text the
      failure path shows. */
  datatype Settled = Settled(workflow: Workflow, alert: Option<string>)

  /** The `try`/`catch`/`finally` after the analysis call: success stores the
      parsed value (no report when it is falsy) and shows the results;
      failure alerts, drops the image and goes back to `upload`, leaving any
      earlier report in place; either way the analyzing flag ends `false`. */
  function FinishScan(w: Workflow, outcome: Result<Parsed, string>): (r: Settled)
    ensures !r.workflow.isAnalyzing
    ensures outcome.Success? ==>
      && r.workflow.step == Results
      && r.workflow.analysisResult == outcome.value
      && r.workflow.selectedImage == w.selectedImage
      && r.alert.None?
    ensures outcome.Failure? ==>
      && r.workflow.step == Upload
      && r.workflow.selectedImage.None?
      && r.workflow.analysisResult == w.analysisResult
      && r.alert == Some("Analysis failed: " + outcome.error)
  {
    match outcome
    case Success(parsed) => Settled(Workflow(Results, w.selectedImage, parsed, false), None)
    case Failure(m) => Settled(Workflow(Upload, None, w.analysisResult, false), Some("Analysis failed: " + m))
  }

  /** `processFile` as one step: a file that is absent or not an image
      changes nothing; an image is scanned and the analysis of its data URL,
      produced by `analyzeDamage` from the model's `reply`, settles the
      state. */
  function ProcessFile(
    w: Workflow,
    file: Option<ClaimsContext.FileInfo>,
    dataUrl: string,
    reply: Groq.Reply,
    parse: string -> Result<Parsed, string>): (r: Settled)
    ensures !AcceptsFile(file) ==> r == Settled(w, None)
    ensures AcceptsFile(file) ==> !r.workflow.isAnalyzing
    ensures AcceptsFile(file) ==>
      match Groq.AnalyzeDamage(reply, parse)
      case Success(parsed) =>
        r.workflow == Workflow(Results, Some(dataUrl), parsed, false) && r.alert.None?
      case Failure(m) =>
        && r.workflow == Workflow(Upload, None, w.analysisResult, false)
        && r.alert == Some("Analysis failed: " + m)
        && m != []
  {
    if AcceptsFile(file) then FinishScan(BeginScan(w, dataUrl), Groq.AnalyzeDamage(reply, parse))
    else Settled(w, None)
  }

  /** "Scan Another": back to `upload` with neither image nor report; the
      analyzing flag is left as it is. */
  function Reset(w: Workflow): (r: Workflow)
    ensures r.step == Upload && r.selectedImage.None? && r.analysisResult.None?
    ensures r.isAnalyzing == w.isAnalyzing
  {
    Workflow(Upload, None, None, w.isAnalyzing)
  }

  /** The states a user can observe between two handlers: nothing is being
      analysed, the workflow is not left in `scanning`, and `results` is only
      shown with an image. */
  predicate Observable(w: Workflow) {
    && !w.isAnalyzing
    && w.step != Scanning
    && (w.step == Results ==> w.selectedImage.Some?)
  }

  /** The report card with "Proceed to Claim" and "Scan Another" is rendered
      only in `results` with a truthy analysis result, and it renders only
      when the result carries a `parts` list: mapping over a missing one
      throws during rendering and nothing catches it. */
  predicate ShowsReport(w: Workflow) {
    w.step == Results && w.analysisResult.Some? && w.analysisResult.value.parts.Some?
  }

  /** The mount state is observable, and every handler keeps the workflow
      observable: a file selection (whatever the file and the analysis
      outcome) and "Scan Another". A file selection shows the report card
      exactly when the analysis of an image yields a report with parts. */
  lemma WorkflowStaysObservable(
    w: Workflow, file: Option<ClaimsContext.FileInfo>, dataUrl: string,
    reply: Groq.Reply, parse: string -> Result<Parsed, string>)
    ensures Observable(Initial)
    ensures Observable(w) ==> Observable(ProcessFile(w, file, dataUrl, reply, parse).workflow)
    ensures Observable(w) ==> Observable(Reset(w))
    ensures AcceptsFile(file) ==>
      (ShowsReport(ProcessFile(w, file, dataUrl, reply, parse).workflow) <==>
        && Groq.AnalyzeDamage(reply, parse).Success?
        && Groq.AnalyzeDamage(reply, parse).value.Some?
        && Groq.AnalyzeDamage(reply, parse).value.value.parts.Some?)
  {
  }

  const DefaultVehicle: string := "Toyota Camry 2018"
  const DefaultIncident: string := "Accidental Damage"

  /** The fields the hand-off passes to `addClaim`. */
  function ClaimFields(report: Report): (d: ClaimsContext.ClaimData)
    ensures d.id.None? && d.claimNumber.None? && d.date.None? && d.status.None?
    ensures d.vehicle == Some(if Truthy(report.vehicle) then report.vehicle.value else DefaultVehicle)
    ensures d.incident == Some(if Truthy(report.riskTitle) then report.riskTitle.value else DefaultIncident)
    ensures d.estimate == report.totalEstimate && d.parts == report.parts
  {
    ClaimsContext.ClaimData(
      None, None, None, None,
      Some(OrElse(report.vehicle, DefaultVehicle)),
      Some(OrElse(report.riskTitle, DefaultIncident)),
      report.totalEstimate,
      report.parts)
  }

  /** The ledger after "Proceed to Claim", and whether the page navigates to
      the claims screen. */
  datatype Proceeded = Proceeded(ledger: ClaimsContext.Ledger, navigated: bool)

  /** `handleProceedToClaim`: without a report nothing happens; with one,
      exactly one claim is filed (vehicle and incident defaulted when the
      report's value is falsy, estimate and parts copied as they are) and the
      page navigates away. */
  function ProceedToClaim(w: Workflow, l: ClaimsContext.Ledger, now: int, draw: real, dateText: string): (r: Proceeded)
    requires 0.0 <= draw < 1.0
    ensures w.analysisResult.None? ==> r == Proceeded(l, false)
    ensures w.analysisResult.Some? ==>
      var report := w.analysisResult.value;
      && r.navigated
      && |r.ledger.claims| == |l.claims| + 1 && r.ledger.claims[1..] == l.claims
      && r.ledger.documents == l.documents
      && r.ledger.claims[0].vehicle == Some(if Truthy(report.vehicle) then report.vehicle.value else DefaultVehicle)
      && r.ledger.claims[0].incident == Some(if Truthy(report.riskTitle) then report.riskTitle.value else DefaultIncident)
      && r.ledger.claims[0].estimate == report.totalEstimate
      && r.ledger.claims[0].parts == report.parts
      && r.ledger.claims[0].status == "submitted"
      && r.ledger.claims[0].id == now && r.ledger.claims[0].date == dateText
      && ClaimsContext.OnlyKeyChanged(l.store, r.ledger.store, ClaimsContext.ClaimsKey)
      && (ClaimsContext.Persisted(l) ==> ClaimsContext.Persisted(r.ledger))
      && 100 <= r.ledger.claims[0].claimNumber <= 999
      && ClaimsContext.ActiveClaim(r.ledger) == Some(r.ledger.claims[0])
  {
    match w.analysisResult
    case None => Proceeded(l, false)
    case Some(report) =>
      var added := ClaimsContext.AddClaim(l, ClaimFields(report), now, draw, dateText);
      Proceeded(added.ledger, true)
  }

  /** An image whose analysis succeeds takes the workflow from `upload`
      through `scanning` to `results`, and confirming then files exactly one
      claim whose parts are the report's parts. */
  lemma ImageToClaimScenario(
    dataUrl: string, reply: Groq.Reply, parse: string -> Result<Parsed, string>,
    l: ClaimsContext.Ledger, now: int, draw: real, dateText: string)
    requires 0.0 <= draw < 1.0
    requires Groq.AnalyzeDamage(reply, parse).Success? && Groq.AnalyzeDamage(reply, parse).value.Some?
    requires Groq.AnalyzeDamage(reply, parse).value.value.parts.Some?
    ensures var file := Some(ClaimsContext.FileInfo("crash.jpg", "image/jpeg"));
      var settled := ProcessFile(Initial, file, dataUrl, reply, parse);
      var proceeded := ProceedToClaim(settled.workflow, l, now, draw, dateText);
      && ShowsReport(settled.workflow)
      && |proceeded.ledger.claims| == |l.claims| + 1
      && proceeded.ledger.claims[0].parts == Groq.AnalyzeDamage(reply, parse).value.value.parts
  {
    assert HasPrefix("image/jpeg", "image/");
  }

  /** An image whose answer parses to a falsy value such as `null` reaches
      `results` without a report: the report card is not rendered and
      "Proceed" would file nothing. */
  lemma NullReportScenario(
    dataUrl: string, reply: Groq.Reply, parse: string -> Result<Parsed, string>,
    l: ClaimsContext.Ledger, now: int, draw: real, dateText: string)
    requires 0.0 <= draw < 1.0
    requires Groq.AnalyzeDamage(reply, parse) == Success(None)
    ensures var file := Some(ClaimsContext.FileInfo("crash.jpg", "image/jpeg"));
      var settled := ProcessFile(Initial, file, dataUrl, reply, parse);
      && settled.workflow.step == Results
      && settled.workflow.analysisResult.None?
      && !ShowsReport(settled.workflow)
      && ProceedToClaim(settled.workflow, l, now, draw, dateText) == Proceeded(l, false)
  {
    assert HasPrefix("image/jpeg", "image/");
  }

  /** A file that is not an image leaves a fresh workflow where it was,
      and "Proceed" afterwards files nothing because there is no report. */
  lemma NonImageScenario(
    name: string, dataUrl: string, reply: Groq.Reply, parse: string -> Result<Parsed, string>,
    l: ClaimsContext.Ledger, now: int, draw: real, dateText: string)
    requires 0.0 <= draw < 1.0
    ensures var settled := ProcessFile(Initial, Some(ClaimsContext.FileInfo(name, "application/pdf")), dataUrl, reply, parse);
      && settled.workflow == Initial && settled.alert.None?
      && ProceedToClaim(settled.workflow, l, now, draw, dateText) == Proceeded(l, false)
  {
    assert !HasPrefix("application/pdf", "image/") by {
      assert "application/pdf"[0] != "image/"[0];
    }
  }
}
