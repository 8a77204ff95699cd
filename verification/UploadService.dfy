/** The upload endpoints, the conversion service and the review endpoints, acting on the shared tables. */
module UploadService {
  import opened Rubric
  import opened Text
  import opened Uploads
  import opened UploadTheorems

  class Tables {
    var uploads: seq<Upload>
    var scripts: seq<Script>

    ghost function State(): Db
      reads this
    {
      Db(uploads, scripts)
    }

    ghost predicate Valid()
      reads this
    {
      Inv(State())
    }

    constructor ()
      ensures Valid() && State() == Db([], [])
    {
      uploads, scripts := [], [];
    }

    method PersistUpload(content: string, scenario: Option<nat>, w: World) returns (reply: Reply)
      requires Valid()
      modifies this
      ensures Valid() && Tx(State(), reply) == PersistTx(old(State()), content, scenario, w)
      ensures scripts == old(scripts) && (reply == Accepted <==> w.commits)
      ensures reply != Accepted ==> uploads == old(uploads)
      ensures reply == Accepted ==>
        && |uploads| == |old(uploads)| + 1 && old(uploads) <= uploads
        && var row := uploads[|old(uploads)|];
        && row.scan == Clean && row.signature == None && row.extraction == Extracted && row.content == Some(content)
        && row.scenario == scenario && row.status == Completed && row.script == None && row.source
    {
      ApplyKeepsInv(State(), PersistStep(content, scenario, w));
      if !w.commits {
        return InternalError;
      }
      uploads := uploads + [Upload(Clean, None, Extracted, Some(content), scenario, Completed, None, None, true)];
      return Accepted;
    }

    method PersistFailedScan(signature: Option<string>, scenario: Option<nat>, w: World) returns (reply: Reply)
      requires Valid()
      modifies this
      ensures Valid() && Tx(State(), reply) == PersistFailedTx(old(State()), signature, scenario, w)
      ensures scripts == old(scripts) && (reply == ScanFailed <==> w.commits)
      ensures reply != ScanFailed ==> uploads == old(uploads)
      ensures reply == ScanFailed ==>
        && |uploads| == |old(uploads)| + 1 && old(uploads) <= uploads
        && var row := uploads[|old(uploads)|];
        && (signature.Some? <==> row.scan == Infected) && (signature.None? <==> row.scan == ScanError)
        && row.signature == signature && row.extraction == ExtractionFailed && row.content == None
        && row.scenario == scenario && row.status == Failed && row.script == None && !row.source
    {
      ApplyKeepsInv(State(), PersistFailedStep(signature, scenario, w));
      if !w.commits {
        return InternalError;
      }
      var scan := if signature.Some? then Infected else ScanError;
      uploads := uploads + [Upload(scan, signature, ExtractionFailed, None, scenario, Failed, None, None, false)];
      return ScanFailed;
    }

    /** Inserts a draft without committing; the unique constraint or another failure stops it. */
    method CreateDraftInTransaction(scenario: nat, draft: string, w: World) returns (script: Option<nat>, taken: bool)
      modifies this`scripts
      ensures taken <==> Taken(old(scripts), scenario)
      ensures script == if taken || !w.flushes then None else Some(|old(scripts)|)
      ensures scripts == if script.None? then old(scripts) else old(scripts) + [Script(scenario, draft, Draft, false)]
    {
      taken := Taken(scripts, scenario);
      if taken || !w.flushes {
        return None, taken;
      }
      script := Some(|scripts|);
      scripts := scripts + [Script(scenario, draft, Draft, false)];
    }

    /** Why an upload may not be converted, in the order the checks are made. */
    method CheckEligibility(row: Upload) returns (ok: bool)
      ensures ok <==> Eligible(row)
    {
      if row.status == Deleted {
        return false;
      }
      if row.scan == Infected {
        return false;
      }
      if row.scan == ScanError {
        return false;
      }
      if row.scan == Unscanned {
        return false;
      }
      if row.extraction != Extracted {
        return false;
      }
      if row.status != Completed {
        return false;
      }
      if Blank(row.content) {
        return false;
      }
      return row.scenario.Some?;
    }

    /** Creates a draft and links the upload to it in one transaction. */
    method ConvertUploadToScriptDraft(u: nat, w: World) returns (reply: Reply)
      requires Valid()
      modifies this
      ensures Valid() && Tx(State(), reply) == ConvertTx(old(State()), u, w)
      ensures reply.Converted? <==>
        && u < |old(uploads)|
        && var row := old(uploads)[u];
        && row.script.None? && Eligible(row) && w.scenarioExists && !Taken(old(scripts), row.scenario.value)
        && w.contract(row.content.value).Some? && w.flushes && w.commits
      ensures reply.Converted? ==>
        && var row := old(uploads)[u];
        && reply.script == |old(scripts)| && uploads == old(uploads)[u := row.(script := Some(reply.script))]
        && scripts == old(scripts) + [Script(row.scenario.value, w.contract(row.content.value).value, Draft, false)]
      ensures !reply.Converted? ==> State() == old(State())
    {
      hide Inv, LiveScript, Taken;
      ConvertKeepsInv(State(), u, w);
      ConvertsExactly(State(), u, w);
      ConversionIsAtomic(State(), u, w);
      if u >= |uploads| {
        return NotFound;
      }
      var row := uploads[u];
      if row.script.Some? {
        return AlreadyConverted(row.script.value);
      }
      var eligible := CheckEligibility(row);
      if !eligible {
        return NotAllowed;
      }
      if !w.scenarioExists {
        return NotAllowed;
      }
      var existing := LiveScript(scripts, row.scenario.value);
      if existing.Some? {
        return ScenarioTaken(existing);
      }
      var contract := w.contract(row.content.value);
      if contract.None? {
        return Unconvertible;
      }
      var uploadsBefore, scriptsBefore := uploads, scripts;
      var script, taken := CreateDraftInTransaction(row.scenario.value, contract.value, w);
      if script.None? {
        return if taken then ScenarioTaken(None) else InternalError;
      }
      uploads := uploads[u := row.(script := script)];
      if !w.commits {
        uploads, scripts := uploadsBefore, scriptsBefore;
        return InternalError;
      }
      return Converted(script.value);
    }

    method RetryReview(u: nat, target: Target, w: World) returns (reply: Reply)
      requires Valid()
      modifies this
      ensures Valid() && Tx(State(), reply) == RetryTx(old(State()), u, target, w)
      ensures u < |old(uploads)| && (old(uploads)[u].scan == Infected || old(uploads)[u].status in {Deleted, Rejected}) ==> reply == NotAllowed
      ensures u < |old(uploads)| && old(ReviewOf(State(), uploads[u])) == InPublished ==> reply == NotAllowed
      ensures reply == NotAllowed || reply == NotFound ==> State() == old(State())
      ensures target.Conversion? ==>
        (reply.Converted? <==>
          && u < |old(uploads)|
          && var row := old(uploads)[u];
          && row.script.None? && Eligible(row) && w.scenarioExists && (forall s :: s in old(scripts) ==> s.scenario != row.scenario.value)
          && w.contract(row.content.value).Some? && w.flushes && w.commits)
      ensures target.Conversion? && reply.Converted? ==>
        && var row := old(uploads)[u];
        && reply.script == |old(scripts)| && uploads == old(uploads)[u := row.(script := Some(reply.script))]
        && scripts == old(scripts) + [Script(row.scenario.value, w.contract(row.content.value).value, Draft, false)]
      ensures target.Conversion? && !reply.Converted? ==> State() == old(State())
      ensures target.Scan? ==> State() == old(State())
      ensures target.Extraction? ==> scripts == old(scripts) && (reply == Accepted ==> u < |uploads| && uploads[u].content == w.extracted)
    {
      RetriedConversion(State(), u, w);
      RetriedExtraction(State(), u, w);
      if u < |uploads| {
        EligibleMeaning(uploads[u]);
      }
      hide Inv, Blank, LiveScript, ConvertTx, Eligible, AllSpace;
      ApplyKeepsInv(State(), RetryStep(u, target, w));
      if u >= |uploads| {
        return NotFound;
      }
      var row := uploads[u];
      if row.scan == Infected {
        return NotAllowed;
      }
      if row.status == Deleted {
        return NotAllowed;
      }
      if row.status == Rejected {
        return NotAllowed;
      }
      var script := if row.script.Some? && row.script.value < |scripts| then Some(scripts[row.script.value]) else None;
      if DeriveReviewStatus(row, script) == InPublished {
        return NotAllowed;
      }
      match target {
        case Conversion => reply := RetryConversion(u, w);
        case Scan => reply := RetryScan(u, w);
        case Extraction => reply := RetryExtraction(u, w);
      }
    }

    method RetryConversion(u: nat, w: World) returns (reply: Reply)
      requires Valid() && u < |uploads|
      modifies this
      ensures Valid() && Tx(State(), reply) == RetryConversionTx(old(State()), u, w)
      ensures reply.Converted? ==> uploads == old(uploads)[u := old(uploads)[u].(script := Some(reply.script))]
      ensures reply.Converted? ==> |scripts| == |old(scripts)| + 1 && old(scripts) <= scripts && reply.script == |old(scripts)|
      ensures !reply.Converted? ==> State() == old(State())
    {
      hide Inv, Blank, Taken, LiveScript;
      ConvertKeepsInv(State(), u, w);
      var row := uploads[u];
      if row.scan != Clean {
        return NotAllowed;
      }
      if row.extraction != Extracted {
        return NotAllowed;
      }
      if Blank(row.content) {
        return NotAllowed;
      }
      if row.scenario.None? {
        return NotAllowed;
      }
      if row.script.Some? {
        return NotAllowed;
      }
      reply := ConvertUploadToScriptDraft(u, w);
    }

    /** Only the scan, its signature, the status and the file may change, and only of a failed scan whose file is kept:
        in sound tables there is none. */
    method RetryScan(u: nat, w: World) returns (reply: Reply)
      requires u < |uploads|
      modifies this`uploads
      ensures Tx(State(), reply) == RetryScanTx(old(State()), u, w)
      ensures old(Valid()) ==> State() == old(State()) && reply in {SourceExpired, NotAllowed}
      ensures |uploads| == |old(uploads)| && forall i :: 0 <= i < |uploads| && i != u ==> uploads[i] == old(uploads)[i]
      ensures var a, b := old(uploads)[u], uploads[u];
        && b == a.(scan := b.scan, signature := b.signature, status := b.status, source := b.source)
        && (b != a ==> a.source && a.scan == ScanError)
        && (b.scan == Clean && b != a ==> w.scan.NothingFound? && w.commits)
    {
      var row := uploads[u];
      if !row.source {
        return SourceExpired;
      }
      if row.scan != ScanError {
        return NotAllowed;
      }
      var changed := row;
      match w.scan {
        case Signature(name) =>
          changed := changed.(scan := Infected, signature := Some(name), status := Failed);
          row, changed := row.(source := false), changed.(source := false);
        case ScannerError => changed := changed.(scan := ScanError);
        case NothingFound => changed := changed.(scan := Clean, signature := None);
      }
      uploads := uploads[u := if w.commits then changed else row];
      return if !w.commits then InternalError else if w.scan.NothingFound? then Accepted else ScanFailed;
    }

    /** Content is replaced exactly on success; nothing but extraction, content and status ever changes. */
    method RetryExtraction(u: nat, w: World) returns (reply: Reply)
      requires u < |uploads|
      modifies this`uploads
      ensures Tx(State(), reply) == RetryExtractionTx(old(State()), u, w)
      ensures old(Valid()) ==> Valid()
      ensures |uploads| == |old(uploads)| && forall i :: 0 <= i < |uploads| && i != u ==> uploads[i] == old(uploads)[i]
      ensures var a, b := old(uploads)[u], uploads[u];
        && b == a.(extraction := b.extraction, content := b.content, status := b.status)
        && (reply == Accepted <==> a.source && a.scan == Clean && w.commits && w.extracted.Some?)
        && (if reply == Accepted then b.content == w.extracted && b.extraction == Extracted && b.status == Completed
            else b.content == a.content && b.status == a.status && (b.extraction != a.extraction ==> reply == NotExtracted))
    {
      var row := uploads[u];
      if !row.source {
        return SourceExpired;
      }
      if row.scan != Clean {
        return NotAllowed;
      }
      var changed := if w.extracted.None? then row.(extraction := ExtractionFailed)
        else row.(extraction := Extracted, content := w.extracted, status := Completed);
      if !w.commits {
        return InternalError;
      }
      uploads := uploads[u := changed];
      return if w.extracted.None? then NotExtracted else Accepted;
    }

    method RejectReview(u: nat, reason: string, w: World) returns (reply: Reply)
      requires Valid()
      modifies this
      ensures Valid() && Tx(State(), reply) == RejectTx(old(State()), u, reason, w)
      ensures scripts == old(scripts) && (u >= |old(uploads)| ==> reply == NotFound)
      ensures u < |old(uploads)| && old(ReviewOf(State(), uploads[u])) == InPublished ==> reply == NotAllowed
      ensures u < |old(uploads)| && old(ReviewOf(State(), uploads[u])) == InRejected ==> reply == Accepted && uploads == old(uploads)
      ensures u < |old(uploads)| && old(ReviewOf(State(), uploads[u])) !in {InPublished, InRejected} ==>
        if w.commits then
          && reply == Accepted
          && var was := old(uploads)[u];
          uploads == old(uploads)[u := was.(status := Rejected, reason := Some(reason), source := was.source && !w.unlinks)]
        else reply == InternalError
      ensures reply != Accepted ==> uploads == old(uploads)
    {
      ApplyKeepsInv(State(), RejectStep(u, reason, w));
      if u >= |uploads| {
        return NotFound;
      }
      var row := uploads[u];
      var script := if row.script.Some? && row.script.value < |scripts| then Some(scripts[row.script.value]) else None;
      var status := DeriveReviewStatus(row, script);
      if status == InPublished {
        return NotAllowed;
      }
      if status == InRejected {
        return Accepted;
      }
      if !w.commits {
        return InternalError;
      }
      row := row.(status := Rejected, reason := Some(reason));
      if w.unlinks {
        row := row.(source := false);
      }
      uploads := uploads[u := row];
      return Accepted;
    }

    /** The registry's assignment endpoint: only live scripts are looked for, and the constraint catches the others. */
    method AssignScript(script: nat, scenario: nat, w: World) returns (reply: Reply)
      requires Valid()
      modifies this`scripts
      ensures Valid() && Tx(State(), reply) == AssignTx(old(State()), script, scenario, w)
      ensures |scripts| == |old(scripts)| && forall i :: 0 <= i < |scripts| && i != script ==> scripts[i] == old(scripts)[i]
      ensures reply == Accepted ==>
        && script < |scripts| && !old(scripts)[script].deleted
        && scripts[script] == old(scripts)[script].(scenario := scenario)
      ensures reply != Accepted ==> scripts == old(scripts)
    {
      ApplyKeepsInv(State(), AssignStep(script, scenario, w));
      if script >= |scripts| || scripts[script].deleted {
        return NotFound;
      }
      if !w.scenarioExists {
        return NotFound;
      }
      if exists i :: 0 <= i < |scripts| && i != script && scripts[i].scenario == scenario && !scripts[i].deleted {
        return ScenarioTaken(None);
      }
      var before := scripts;
      scripts := scripts[script := scripts[script].(scenario := scenario)];
      if HeldByOther(before, script, scenario) || !w.commits {
        scripts := before;
        return InternalError;
      }
      return Accepted;
    }
  }
}
