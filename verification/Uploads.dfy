/** The upload-to-script tables, and the committed effect of every request on them. */
module Uploads {
  import opened Rubric
  import opened Text

  datatype ScanStatus = Unscanned | Clean | Infected | ScanError

  datatype ExtractionStatus = Unextracted | Extracted | ExtractionFailed

  datatype UploadStatus = Pending | Scanning | Extracting | Completed | Failed | Rejected | Deleted

  /** An upload row; `source` says whether its file is still in quarantine. */
  datatype Upload = Upload(
    scan: ScanStatus, signature: Option<string>, extraction: ExtractionStatus, content: Option<string>,
    scenario: Option<nat>, status: UploadStatus, script: Option<nat>, reason: Option<string>, source: bool)

  datatype ScriptStatus = Draft | Published | Unpublished

  datatype Script = Script(scenario: nat, draft: string, status: ScriptStatus, deleted: bool)

  /** Rows are never removed: an id is a position. */
  datatype Db = Db(uploads: seq<Upload>, scripts: seq<Script>)

  datatype Review =
    | InRejected | InInfected | InScanFailed | InExtractionFailed | InProcessing | ForConversion | ForReview | InPublished

  /** The externally visible status of an upload with the script it is linked to. */
  function DeriveReviewStatus(u: Upload, script: Option<Script>): Review {
    if u.status == Rejected then InRejected
    else if u.scan == Infected then InInfected
    else if u.scan == ScanError then InScanFailed
    else if u.extraction == ExtractionFailed then InExtractionFailed
    else if u.status in {Pending, Scanning, Extracting} then InProcessing
    else if u.scan == Unscanned then InProcessing
    else if u.extraction == Unextracted then InProcessing
    else if u.status == Failed then InProcessing
    else if u.status == Deleted then InRejected
    else if u.script.None? || script.None? then ForConversion
    else if script.value.deleted then InRejected
    else match script.value.status
      case Draft => ForReview
      case Published => InPublished
      case Unpublished => InRejected
  }

  function LinkedScript(db: Db, u: Upload): Option<Script> {
    if u.script.Some? && u.script.value < |db.scripts| then Some(db.scripts[u.script.value]) else None
  }

  function ReviewOf(db: Db, u: Upload): Review {
    DeriveReviewStatus(u, LinkedScript(db, u))
  }

  predicate Blank(content: Option<string>) {
    content.None? || Strip(content.value) == ""
  }

  predicate Eligible(u: Upload) {
    u.status == Completed && u.scan == Clean && u.extraction == Extracted && !Blank(u.content) && u.scenario.Some?
  }

  /** The script of a scenario that has not been soft-deleted. */
  function LiveScript(scripts: seq<Script>, scenario: nat): (r: Option<nat>)
    ensures r.Some? ==> r.value < |scripts| && scripts[r.value].scenario == scenario && !scripts[r.value].deleted
    ensures r.None? ==> forall s :: s in scripts && s.scenario == scenario ==> s.deleted
  {
    if scripts == [] then None
    else
      var n := |scripts| - 1;
      if scripts[n].scenario == scenario && !scripts[n].deleted then Some(n) else LiveScript(scripts[..n], scenario)
  }

  /** The unique constraint on `scripts.scenario_id`, which soft-deleted rows still hold. */
  predicate Taken(scripts: seq<Script>, scenario: nat) {
    exists s :: s in scripts && s.scenario == scenario
  }

  datatype ScanResult = NothingFound | Signature(name: string) | ScannerError

  /** What a request meets outside the two tables. */
  datatype World = World(
    scenarioExists: bool, contract: string -> Option<string>, scan: ScanResult, extracted: Option<string>,
    flushes: bool, commits: bool, unlinks: bool)

  datatype Reply =
    | Accepted
    | Converted(script: nat)
    | NotFound
    | NotAllowed
    | AlreadyConverted(existing: nat)
    | ScenarioTaken(other: Option<nat>)
    | Unconvertible
    | SourceExpired
    | ScanFailed
    | NotExtracted
    | InternalError

  datatype Tx = Tx(db: Db, reply: Reply)

  function WithUpload(db: Db, u: nat, row: Upload): Db
    requires u < |db.uploads|
  {
    db.(uploads := db.uploads[u := row])
  }

  // ----- requests

  function PersistTx(db: Db, content: string, scenario: Option<nat>, w: World): Tx {
    var row := Upload(Clean, None, Extracted, Some(content), scenario, Completed, None, None, true);
    if w.commits then Tx(db.(uploads := db.uploads + [row]), Accepted) else Tx(db, InternalError)
  }

  /** The record of a failed scan; its file has already been removed. */
  function PersistFailedTx(db: Db, signature: Option<string>, scenario: Option<nat>, w: World): Tx {
    var row := Upload(if signature.Some? then Infected else ScanError, signature, ExtractionFailed, None, scenario, Failed, None, None, false);
    if w.commits then Tx(db.(uploads := db.uploads + [row]), ScanFailed) else Tx(db, InternalError)
  }

  function ConvertTx(db: Db, u: nat, w: World): Tx {
    if u >= |db.uploads| then Tx(db, NotFound)
    else
      var row := db.uploads[u];
      if row.script.Some? then Tx(db, AlreadyConverted(row.script.value))
      else if !Eligible(row) || !w.scenarioExists then Tx(db, NotAllowed)
      else if LiveScript(db.scripts, row.scenario.value).Some? then Tx(db, ScenarioTaken(LiveScript(db.scripts, row.scenario.value)))
      else if w.contract(row.content.value).None? then Tx(db, Unconvertible)
      else if Taken(db.scripts, row.scenario.value) then Tx(db, ScenarioTaken(None))
      else if !w.flushes || !w.commits then Tx(db, InternalError)
      else
        var script := Script(row.scenario.value, w.contract(row.content.value).value, Draft, false);
        Tx(Db(db.uploads[u := row.(script := Some(|db.scripts|))], db.scripts + [script]), Converted(|db.scripts|))
  }

  datatype Target = Conversion | Scan | Extraction

  function RetryConversionTx(db: Db, u: nat, w: World): Tx
    requires u < |db.uploads|
  {
    var row := db.uploads[u];
    if row.scan != Clean || row.extraction != Extracted || Blank(row.content) || row.scenario.None? || row.script.Some?
    then Tx(db, NotAllowed)
    else ConvertTx(db, u, w)
  }

  /** An infected file is removed before the commit, so a failed commit loses it too. */
  function RetryScanTx(db: Db, u: nat, w: World): Tx
    requires u < |db.uploads|
  {
    var row := db.uploads[u];
    if !row.source then Tx(db, SourceExpired)
    else if row.scan != ScanError then Tx(db, NotAllowed)
    else match w.scan
      case Signature(name) =>
        var gone := row.(source := false);
        if w.commits then Tx(WithUpload(db, u, gone.(scan := Infected, signature := Some(name), status := Failed)), ScanFailed)
        else Tx(WithUpload(db, u, gone), InternalError)
      case ScannerError => Tx(db, if w.commits then ScanFailed else InternalError)
      case NothingFound =>
        if w.commits then Tx(WithUpload(db, u, row.(scan := Clean, signature := None)), Accepted) else Tx(db, InternalError)
  }

  function RetryExtractionTx(db: Db, u: nat, w: World): Tx
    requires u < |db.uploads|
  {
    var row := db.uploads[u];
    if !row.source then Tx(db, SourceExpired)
    else if row.scan != Clean then Tx(db, NotAllowed)
    else if !w.commits then Tx(db, InternalError)
    else if w.extracted.None? then Tx(WithUpload(db, u, row.(extraction := ExtractionFailed)), NotExtracted)
    else Tx(WithUpload(db, u, row.(extraction := Extracted, content := w.extracted, status := Completed)), Accepted)
  }

  function RetryTx(db: Db, u: nat, target: Target, w: World): Tx {
    if u >= |db.uploads| then Tx(db, NotFound)
    else
      var row := db.uploads[u];
      if row.scan == Infected || row.status == Deleted || row.status == Rejected || ReviewOf(db, row) == InPublished
      then Tx(db, NotAllowed)
      else match target
        case Conversion => RetryConversionTx(db, u, w)
        case Scan => RetryScanTx(db, u, w)
        case Extraction => RetryExtractionTx(db, u, w)
  }

  /** The file is removed only after a commit, and that may fail without undoing it. */
  function RejectTx(db: Db, u: nat, reason: string, w: World): Tx {
    if u >= |db.uploads| then Tx(db, NotFound)
    else
      var row := db.uploads[u];
      match ReviewOf(db, row)
      case InPublished => Tx(db, NotAllowed)
      case InRejected => Tx(db, Accepted)
      case _ =>
        if !w.commits then Tx(db, InternalError)
        else Tx(WithUpload(db, u, row.(status := Rejected, reason := Some(reason), source := row.source && !w.unlinks)), Accepted)
  }

  // ----- what else happens to the rows

  /** Retention cleanup removes the quarantined file. */
  function ExpireTx(db: Db, u: nat): Tx {
    if u >= |db.uploads| then Tx(db, NotFound)
    else Tx(WithUpload(db, u, db.uploads[u].(source := false)), Accepted)
  }

  function DraftTx(db: Db, scenario: nat, draft: string): Tx {
    if Taken(db.scripts, scenario) then Tx(db, InternalError)
    else Tx(db.(scripts := db.scripts + [Script(scenario, draft, Draft, false)]), Converted(|db.scripts|))
  }

  datatype ScriptChange = Edit(draft: string) | Publish | Unpublish | Delete

  function Changed(s: Script, change: ScriptChange): Script {
    match change
    case Edit(draft) => s.(draft := draft)
    case Publish => s.(status := Published)
    case Unpublish => s.(status := Unpublished)
    case Delete => s.(deleted := true)
  }

  /** The registry's own operations see no soft-deleted script. */
  function ScriptTx(db: Db, script: nat, change: ScriptChange): Tx {
    if script >= |db.scripts| || db.scripts[script].deleted then Tx(db, NotFound)
    else Tx(db.(scripts := db.scripts[script := Changed(db.scripts[script], change)]), Accepted)
  }

  /** A script other than this one holds the scenario, soft-deleted or not. */
  predicate HeldByOther(scripts: seq<Script>, script: nat, scenario: nat) {
    exists i :: 0 <= i < |scripts| && i != script && scripts[i].scenario == scenario
  }

  predicate LiveElsewhere(scripts: seq<Script>, script: nat, scenario: nat) {
    exists i :: 0 <= i < |scripts| && i != script && scripts[i].scenario == scenario && !scripts[i].deleted
  }

  /** Moves a live script to another scenario. The endpoint looks for live scripts only; a soft-deleted one makes
      the unique constraint fail instead. */
  function AssignTx(db: Db, script: nat, scenario: nat, w: World): Tx {
    if script >= |db.scripts| || db.scripts[script].deleted || !w.scenarioExists then Tx(db, NotFound)
    else if LiveElsewhere(db.scripts, script, scenario) then Tx(db, ScenarioTaken(None))
    else if HeldByOther(db.scripts, script, scenario) || !w.commits then Tx(db, InternalError)
    else Tx(db.(scripts := db.scripts[script := db.scripts[script].(scenario := scenario)]), Accepted)
  }

  // ----- runs

  datatype Step =
    | PersistStep(content: string, scenario: Option<nat>, world: World)
    | PersistFailedStep(signature: Option<string>, scenario: Option<nat>, world: World)
    | ConvertStep(upload: nat, world: World)
    | RetryStep(upload: nat, target: Target, world: World)
    | RejectStep(upload: nat, reason: string, world: World)
    | ExpireStep(upload: nat)
    | DraftStep(newScenario: nat, draft: string)
    | ScriptStep(script: nat, change: ScriptChange)
    | AssignStep(moved: nat, goal: nat, world: World)

  function Apply(db: Db, step: Step): Tx {
    match step
    case PersistStep(content, scenario, w) => PersistTx(db, content, scenario, w)
    case PersistFailedStep(signature, scenario, w) => PersistFailedTx(db, signature, scenario, w)
    case ConvertStep(u, w) => ConvertTx(db, u, w)
    case RetryStep(u, target, w) => RetryTx(db, u, target, w)
    case RejectStep(u, reason, w) => RejectTx(db, u, reason, w)
    case ExpireStep(u) => ExpireTx(db, u)
    case DraftStep(scenario, draft) => DraftTx(db, scenario, draft)
    case ScriptStep(s, change) => ScriptTx(db, s, change)
    case AssignStep(s, scenario, w) => AssignTx(db, s, scenario, w)
  }

  function Run(db: Db, steps: seq<Step>): Db
    decreases |steps|
  {
    if steps == [] then db else Run(Apply(db, steps[0]).db, steps[1..])
  }

  // ----- what every step keeps

  /** Stored content, a completed extraction, a linked script and a kept file all come from a clean scan. */
  predicate UploadSound(u: Upload, scripts: seq<Script>) {
    && u.scan in {Clean, Infected, ScanError}
    && u.status in {Completed, Failed, Rejected}
    && (u.content.Some? || u.extraction == Extracted || u.status == Completed || u.script.Some? || u.source ==> u.scan == Clean)
    && (u.extraction == Extracted ==> u.content.Some?)
    && (u.scan == Clean ==> u.status != Failed && u.content.Some? && u.extraction != Unextracted)
    && (u.script.Some? ==> u.script.value < |scripts| && u.scenario.Some?)
  }

  predicate ScenariosDistinct(scripts: seq<Script>) {
    forall i, j :: 0 <= i < j < |scripts| ==> scripts[i].scenario != scripts[j].scenario
  }

  predicate LinksDistinct(uploads: seq<Upload>) {
    forall i, j :: 0 <= i < j < |uploads| && uploads[i].script.Some? ==> uploads[i].script != uploads[j].script
  }

  predicate Inv(db: Db) {
    && (forall i :: 0 <= i < |db.uploads| ==> UploadSound(db.uploads[i], db.scripts))
    && ScenariosDistinct(db.scripts) && LinksDistinct(db.uploads)
  }

  lemma InitialInv()
    ensures Inv(Db([], []))
  {
  }

  lemma ConvertKeepsInv(db: Db, u: nat, w: World)
    requires Inv(db)
    ensures Inv(ConvertTx(db, u, w).db)
  {
    hide LiveScript, Strip;
    var next := ConvertTx(db, u, w).db;
    if next != db {
      assert forall s :: s in db.scripts ==> s.scenario != db.uploads[u].scenario.value;
      forall i | 0 <= i < |db.scripts| ensures next.scripts[i].scenario != next.scripts[|db.scripts|].scenario {
        assert db.scripts[i] in db.scripts;
      }
    }
  }

  lemma RetryKeepsInv(db: Db, u: nat, target: Target, w: World)
    requires Inv(db)
    ensures Inv(RetryTx(db, u, target, w).db)
  {
    hide LiveScript, Strip, ConvertTx;
    ConvertKeepsInv(db, u, w);
  }

  lemma ApplyKeepsInv(db: Db, step: Step)
    requires Inv(db)
    ensures Inv(Apply(db, step).db)
  {
    hide LiveScript, LiveElsewhere, Strip, ConvertTx, RetryTx;
    match step {
      case ConvertStep(u, w) => ConvertKeepsInv(db, u, w);
      case RetryStep(u, target, w) => RetryKeepsInv(db, u, target, w);
      case DraftStep(scenario, draft) =>
        if !Taken(db.scripts, scenario) {
          forall i | 0 <= i < |db.scripts| ensures db.scripts[i].scenario != scenario {
            assert db.scripts[i] in db.scripts;
          }
        }
      case _ =>
    }
  }
}
