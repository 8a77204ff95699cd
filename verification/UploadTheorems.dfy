/** What any run of upload, conversion, retry, rejection and registry requests keeps. */
module UploadTheorems {
  import opened Rubric
  import opened Text
  import opened Uploads

  lemma {:induction false} RunKeepsInv(db: Db, steps: seq<Step>)
    requires Inv(db)
    ensures Inv(Run(db, steps))
    decreases |steps|
  {
    if steps != [] {
      ApplyKeepsInv(db, steps[0]);
      RunKeepsInv(Apply(db, steps[0]).db, steps[1..]);
    }
  }

  /** What never changes about an upload row, and what changes at most once. */
  predicate UploadLater(a: Upload, b: Upload) {
    && b.scan == a.scan && b.signature == a.signature && b.scenario == a.scenario
    && (a.content.Some? ==> b.content.Some?)
    && (a.status == Rejected ==> b.status == Rejected && b.reason == a.reason)
    && (a.script.Some? ==> b.script == a.script)
    && (b.source ==> a.source)
  }

  predicate ScriptLater(a: Script, b: Script) {
    a.deleted ==> b == a
  }

  predicate Later(a: Db, b: Db) {
    && |a.uploads| <= |b.uploads| && |a.scripts| <= |b.scripts|
    && (forall i :: 0 <= i < |a.uploads| ==> UploadLater(a.uploads[i], b.uploads[i]))
    && (forall i :: 0 <= i < |a.scripts| ==> ScriptLater(a.scripts[i], b.scripts[i]))
  }

  lemma ApplyIsLater(db: Db, step: Step)
    requires Inv(db)
    ensures Later(db, Apply(db, step).db)
  {
    hide LiveScript, Strip, Taken, ConvertTx, RetryTx, Later, LiveElsewhere, HeldByOther;
    match step {
      case ConvertStep(u, w) => ConvertIsLater(db, u, w);
      case RetryStep(u, target, w) => RetryIsLater(db, u, target, w);
      case _ => OtherIsLater(db, step);
    }
  }

  lemma ConvertIsLater(db: Db, u: nat, w: World)
    requires Inv(db)
    ensures Later(db, ConvertTx(db, u, w).db)
  {
    hide LiveScript, Strip, Taken;
  }

  lemma RetryIsLater(db: Db, u: nat, target: Target, w: World)
    requires Inv(db)
    ensures Later(db, RetryTx(db, u, target, w).db)
  {
    hide LiveScript, Strip, Taken, ConvertTx;
    ConvertIsLater(db, u, w);
  }

  lemma OtherIsLater(db: Db, step: Step)
    requires Inv(db) && !step.ConvertStep? && !step.RetryStep?
    ensures Later(db, Apply(db, step).db)
  {
    hide Strip, Taken, LiveElsewhere, HeldByOther;
  }

  /** Over any run: scans are final, so infected is absorbing; so is rejected; a link is written once, and a
      soft-deleted script never changes again. */
  lemma {:induction false} RunIsLater(db: Db, steps: seq<Step>)
    requires Inv(db)
    ensures Later(db, Run(db, steps))
    decreases |steps|
  {
    if steps != [] {
      ApplyKeepsInv(db, steps[0]);
      ApplyIsLater(db, steps[0]);
      RunIsLater(Apply(db, steps[0]).db, steps[1..]);
    }
  }

  /** A linked script, stored content or a completed extraction means a clean scan, now and for ever. */
  lemma CleanForEver(start: seq<Step>, more: seq<Step>, u: nat)
    requires var db := Run(Db([], []), start);
      u < |db.uploads| && (db.uploads[u].script.Some? || db.uploads[u].content.Some? || db.uploads[u].extraction == Extracted)
    ensures var later := Run(Run(Db([], []), start), more);
      u < |later.uploads| && later.uploads[u].scan == Clean
  {
    InitialInv();
    RunKeepsInv(Db([], []), start);
    RunIsLater(Run(Db([], []), start), more);
  }

  /** An upload whose scan failed has no quarantined file left, so retrying its scan never does anything. */
  lemma ScanRetryNeverRuns(steps: seq<Step>, u: nat, w: World)
    ensures var db := Run(Db([], []), steps);
      && RetryTx(db, u, Scan, w).db == db
      && RetryTx(db, u, Scan, w).reply in {NotFound, NotAllowed, SourceExpired}
  {
    InitialInv();
    RunKeepsInv(Db([], []), steps);
  }

  /** A conversion commits the draft and its link together, or changes nothing. */
  lemma ConversionIsAtomic(db: Db, u: nat, w: World)
    ensures var t := ConvertTx(db, u, w);
      if t.reply.Converted? then
        && u < |db.uploads| && db.uploads[u].script.None? && t.reply.script == |db.scripts|
        && t.db.uploads == db.uploads[u := db.uploads[u].(script := Some(|db.scripts|))]
        && |t.db.scripts| == |db.scripts| + 1 && t.db.scripts[..|db.scripts|] == db.scripts
        && var s := t.db.scripts[|db.scripts|];
        && db.uploads[u].scenario == Some(s.scenario) && s.status == Draft && !s.deleted
        && db.uploads[u].content.Some? && w.contract(db.uploads[u].content.value) == Some(s.draft)
      else t.db == db
  {
    hide LiveScript, Strip, Taken;
  }

  /** Exactly when a conversion goes through: a script of the scenario blocks it even after soft deletion. */
  lemma ConvertsExactly(db: Db, u: nat, w: World)
    ensures ConvertTx(db, u, w).reply.Converted? <==>
      && u < |db.uploads|
      && var row := db.uploads[u];
      && row.script.None? && Eligible(row) && w.scenarioExists && !Taken(db.scripts, row.scenario.value)
      && w.contract(row.content.value).Some? && w.flushes && w.commits
  {
    if u < |db.uploads| && Eligible(db.uploads[u]) {
      var live := LiveScript(db.scripts, db.uploads[u].scenario.value);
      assert live.Some? ==> db.scripts[live.value] in db.scripts;
    }
  }

  /** What each visible status means. */
  lemma ReviewMeaning(u: Upload, script: Option<Script>)
    requires u.scan != Unscanned && u.extraction != Unextracted && u.status in {Completed, Failed, Rejected}
    ensures var review, sound := DeriveReviewStatus(u, script), u.status != Rejected && u.scan == Clean && u.extraction == Extracted;
      && (review == InInfected <==> u.status != Rejected && u.scan == Infected)
      && (review == InScanFailed <==> u.status != Rejected && u.scan == ScanError)
      && (review == InExtractionFailed <==> u.status != Rejected && u.scan == Clean && u.extraction == ExtractionFailed)
      && (review == InProcessing <==> sound && u.status == Failed)
      && (review == ForConversion <==> sound && u.status == Completed && (u.script.None? || script.None?))
      && (review == ForReview <==>
            sound && u.status == Completed && u.script.Some? && script.Some? && !script.value.deleted && script.value.status == Draft)
      && (review == InPublished <==>
            sound && u.status == Completed && u.script.Some? && script.Some? && !script.value.deleted && script.value.status == Published)
      && (review == InRejected <==>
            || u.status == Rejected
            || (sound && u.status == Completed && u.script.Some? && script.Some? && (script.value.deleted || script.value.status == Unpublished)))
  {
  }

  /** An upload is eligible when it is completed, clean and extracted, and has a scenario and a text with something in it. */
  lemma EligibleMeaning(row: Upload)
    ensures Eligible(row) <==>
      && row.status == Completed && row.scan == Clean && row.extraction == Extracted
      && row.content.Some? && !AllSpace(row.content.value) && row.scenario.Some?
  {
    if row.content.Some? {
      BlankMeaning(row.content.value);
    }
  }

  /** Exactly when retrying the conversion converts, and what that does: one draft with the converted content, and its link. */
  lemma RetriedConversion(db: Db, u: nat, w: World)
    ensures var t := RetryTx(db, u, Conversion, w);
      && (t.reply.Converted? <==>
            && u < |db.uploads|
            && var row := db.uploads[u];
            && row.status == Completed && row.scan == Clean && row.extraction == Extracted && row.script.None?
            && row.content.Some? && !AllSpace(row.content.value) && row.scenario.Some? && w.scenarioExists
            && (forall s :: s in db.scripts ==> s.scenario != row.scenario.value)
            && w.contract(row.content.value).Some? && w.flushes && w.commits)
      && (t.reply.Converted? ==>
            var row := db.uploads[u];
            && t.reply.script == |db.scripts|
            && t.db.scripts == db.scripts + [Script(row.scenario.value, w.contract(row.content.value).value, Draft, false)]
            && t.db.uploads == db.uploads[u := row.(script := Some(|db.scripts|))])
      && (!t.reply.Converted? ==> t.db == db)
  {
    hide LiveScript, Strip;
    if u < |db.uploads| {
      var row := db.uploads[u];
      if row.content.Some? {
        BlankMeaning(row.content.value);
      }
      ConvertsExactly(db, u, w);
      ConversionIsAtomic(db, u, w);
      var next := ConvertTx(db, u, w).db;
      if ConvertTx(db, u, w).reply.Converted? {
        assert next.scripts == db.scripts + [next.scripts[|db.scripts|]];
      }
    }
  }

  /** A published upload is refused for every target. */
  lemma PublishedNotRetried(db: Db, u: nat, target: Target, w: World)
    requires u < |db.uploads| && db.uploads[u].status == Completed && db.uploads[u].scan == Clean && db.uploads[u].extraction == Extracted
    requires db.uploads[u].script.Some? && db.uploads[u].script.value < |db.scripts|
    requires !db.scripts[db.uploads[u].script.value].deleted && db.scripts[db.uploads[u].script.value].status == Published
    ensures RetryTx(db, u, target, w) == Tx(db, NotAllowed)
  {
  }

  /** A retried extraction replaces the content exactly when a clean upload that is neither rejected nor published has its file,
      the text extracts and the commit succeeds. */
  lemma RetriedExtraction(db: Db, u: nat, w: World)
    requires Inv(db)
    ensures var t := RetryTx(db, u, Extraction, w);
      && (t.reply == Accepted <==>
            && u < |db.uploads|
            && var row := db.uploads[u];
            && row.status != Rejected && row.scan == Clean && row.source && ReviewOf(db, row) != InPublished
            && w.extracted.Some? && w.commits)
      && (t.reply == Accepted ==>
            t.db == db.(uploads := db.uploads[u := db.uploads[u].(extraction := Extracted, content := w.extracted, status := Completed)]))
      && (t.db != db && t.reply != Accepted ==>
            t.reply == NotExtracted && t.db == db.(uploads := db.uploads[u := db.uploads[u].(extraction := ExtractionFailed)]))
  {
    hide LiveScript, Strip, DeriveReviewStatus;
  }

  /** What the registry's own requests do to a live script, and that they leave a soft-deleted one alone. */
  lemma RegistryMeaning(db: Db, script: nat, draft: string)
    ensures script >= |db.scripts| || db.scripts[script].deleted ==>
      forall change :: ScriptTx(db, script, change) == Tx(db, NotFound)
    ensures script < |db.scripts| && !db.scripts[script].deleted ==>
      var s := db.scripts[script];
      && ScriptTx(db, script, Edit(draft)).db == db.(scripts := db.scripts[script := Script(s.scenario, draft, s.status, false)])
      && ScriptTx(db, script, Publish).db == db.(scripts := db.scripts[script := Script(s.scenario, s.draft, Published, false)])
      && ScriptTx(db, script, Unpublish).db == db.(scripts := db.scripts[script := Script(s.scenario, s.draft, Unpublished, false)])
      && ScriptTx(db, script, Delete).db == db.(scripts := db.scripts[script := Script(s.scenario, s.draft, s.status, true)])
  {
  }

  /** A draft is created exactly if its scenario is free; the clean-up takes the file of an upload and nothing else. */
  lemma DraftAndExpiry(db: Db, scenario: nat, draft: string, u: nat)
    ensures (forall s :: s in db.scripts ==> s.scenario != scenario) ==>
      DraftTx(db, scenario, draft) == Tx(db.(scripts := db.scripts + [Script(scenario, draft, Draft, false)]), Converted(|db.scripts|))
    ensures (exists s :: s in db.scripts && s.scenario == scenario) ==> DraftTx(db, scenario, draft) == Tx(db, InternalError)
    ensures u < |db.uploads| ==> ExpireTx(db, u).db == db.(uploads := db.uploads[u := db.uploads[u].(source := false)])
    ensures u >= |db.uploads| ==> ExpireTx(db, u) == Tx(db, NotFound)
  {
  }

  // ----- scripts and scenarios

  /** At every moment a scenario holds at most one script, counting the soft-deleted ones. */
  lemma OneScriptPerScenario(steps: seq<Step>, i: nat, j: nat)
    requires var scripts := Run(Db([], []), steps).scripts;
      i < |scripts| && j < |scripts| && scripts[i].scenario == scripts[j].scenario
    ensures i == j
  {
    InitialInv();
    RunKeepsInv(Db([], []), steps);
  }

  /** A held scenario admits no conversion, no draft and no other script. */
  lemma TakenBlocks(db: Db, scenario: nat)
    requires Taken(db.scripts, scenario)
    ensures forall u: nat, w: World :: u < |db.uploads| && db.uploads[u].scenario == Some(scenario) ==> !ConvertTx(db, u, w).reply.Converted?
    ensures forall draft: string :: !DraftTx(db, scenario, draft).reply.Converted?
    ensures forall s: nat, w: World :: s < |db.scripts| && db.scripts[s].scenario != scenario ==> AssignTx(db, s, scenario, w).db == db
  {
    forall u: nat, w: World | u < |db.uploads| && db.uploads[u].scenario == Some(scenario)
      ensures !ConvertTx(db, u, w).reply.Converted?
    {
      ConvertsExactly(db, u, w);
    }
    var i :| 0 <= i < |db.scripts| && db.scripts[i].scenario == scenario;
    forall s: nat, w: World | s < |db.scripts| && db.scripts[s].scenario != scenario
      ensures AssignTx(db, s, scenario, w).db == db
    {
      assert i != s && HeldByOther(db.scripts, s, scenario);
    }
  }

  /** A soft-deleted script holds its scenario for ever. */
  lemma DeletedScriptBlocks(start: seq<Step>, more: seq<Step>, i: nat)
    requires var db := Run(Db([], []), start); i < |db.scripts| && db.scripts[i].deleted
    ensures var before, after := Run(Db([], []), start), Run(Run(Db([], []), start), more);
      i < |after.scripts| && after.scripts[i] == before.scripts[i] && Taken(after.scripts, before.scripts[i].scenario)
  {
    var before := Run(Db([], []), start);
    InitialInv();
    RunKeepsInv(Db([], []), start);
    RunIsLater(before, more);
    var after := Run(before, more);
    assert after.scripts[i] in after.scripts;
  }

  /** The step moves a live script away from the scenario it holds. */
  predicate Releases(db: Db, step: Step, scenario: nat) {
    && step.AssignStep? && step.moved < |db.scripts|
    && db.scripts[step.moved].scenario == scenario && !db.scripts[step.moved].deleted
    && step.goal != scenario && step.world.scenarioExists && step.world.commits
    && !HeldByOther(db.scripts, step.moved, step.goal)
  }

  lemma HolderTakes(scripts: seq<Script>, i: nat)
    requires i < |scripts|
    ensures Taken(scripts, scripts[i].scenario)
  {
    assert scripts[i] in scripts;
  }

  /** Only the reassignment of its live script frees a scenario, and that always does. */
  lemma FreedExactly(db: Db, step: Step, scenario: nat)
    requires Inv(db) && Taken(db.scripts, scenario)
    ensures !Taken(Apply(db, step).db.scripts, scenario) <==> Releases(db, step, scenario)
  {
    var i :| 0 <= i < |db.scripts| && db.scripts[i].scenario == scenario;
    var after := Apply(db, step).db.scripts;
    if !step.AssignStep? {
      KeepsScenarios(db, step);
      HolderTakes(after, i);
    } else if Releases(db, step, scenario) {
      forall j | 0 <= j < |after| ensures after[j].scenario != scenario {
      }
    } else if after[i].scenario == scenario {
      HolderTakes(after, i);
    }
  }

  lemma KeepsScenarios(db: Db, step: Step)
    requires !step.AssignStep?
    ensures var after := Apply(db, step).db.scripts;
      |db.scripts| <= |after| && forall i :: 0 <= i < |db.scripts| ==> after[i].scenario == db.scripts[i].scenario
  {
    hide LiveScript, Strip, Taken, DeriveReviewStatus, Eligible, Blank;
  }

  /** In a run, a scenario that was held and is free has been released by one of the steps. */
  lemma {:induction false} FreedInRun(db: Db, steps: seq<Step>, scenario: nat) returns (k: nat)
    requires Inv(db) && Taken(db.scripts, scenario) && !Taken(Run(db, steps).scripts, scenario)
    ensures k < |steps| && Releases(Run(db, steps[..k]), steps[k], scenario)
    decreases |steps|
  {
    hide Apply, Releases, Taken, Inv;
    var next := Apply(db, steps[0]).db;
    FreedExactly(db, steps[0], scenario);
    if Taken(next.scripts, scenario) {
      ApplyKeepsInv(db, steps[0]);
      var j := FreedInRun(next, steps[1..], scenario);
      k := j + 1;
      assert steps[..k] == [steps[0]] + steps[1..][..j];
      RunFirst(db, steps[0], steps[1..][..j]);
    } else {
      k := 0;
      assert steps[..0] == [];
      RunNothing(db);
    }
  }

  function Unused(scripts: seq<Script>): (n: nat)
    ensures forall s :: s in scripts ==> s.scenario < n
  {
    if scripts == [] then 0
    else
      var n, last := Unused(scripts[..|scripts| - 1]), scripts[|scripts| - 1].scenario;
      assert scripts == scripts[..|scripts| - 1] + [scripts[|scripts| - 1]];
      if last < n then n else last + 1
  }

  /** A held scenario can become free again, in some continuation, exactly when the script that holds it is live. */
  lemma FreeableExactly(start: seq<Step>, i: nat)
    requires i < |Run(Db([], []), start).scripts|
    ensures var db := Run(Db([], []), start);
      !db.scripts[i].deleted <==> exists more: seq<Step> :: !Taken(Run(db, more).scripts, db.scripts[i].scenario)
  {
    var db := Run(Db([], []), start);
    var scenario := db.scripts[i].scenario;
    InitialInv();
    RunKeepsInv(Db([], []), start);
    HolderTakes(db.scripts, i);
    if db.scripts[i].deleted {
      forall more: seq<Step> ensures Taken(Run(db, more).scripts, scenario) {
        DeletedScriptBlocks(start, more, i);
      }
    } else {
      var w := World(true, (text: string) => None, NothingFound, None, true, true, true);
      var step := AssignStep(i, Unused(db.scripts), w);
      assert Releases(db, step, scenario) by {
        assert db.scripts[i] in db.scripts;
        assert forall j :: 0 <= j < |db.scripts| ==> db.scripts[j] in db.scripts;
      }
      FreedExactly(db, step, scenario);
      RunFirst(db, step, []);
      RunNothing(Apply(db, step).db);
      assert [step] == [step] + [];
      assert !Taken(Run(db, [step]).scripts, scenario);
    }
  }

  /** Every linked script belongs to the scenario of its upload. */
  predicate LinksInScenario(db: Db) {
    forall u :: 0 <= u < |db.uploads| && db.uploads[u].script.Some? ==>
      && db.uploads[u].script.value < |db.scripts|
      && db.uploads[u].scenario == Some(db.scripts[db.uploads[u].script.value].scenario)
  }

  predicate IsLinked(db: Db, script: nat) {
    exists u :: 0 <= u < |db.uploads| && db.uploads[u].script == Some(script)
  }

  lemma ConvertLinksInScenario(db: Db, u: nat, w: World)
    requires Inv(db) && LinksInScenario(db)
    ensures LinksInScenario(ConvertTx(db, u, w).db)
  {
    hide LiveScript, Strip, Taken;
  }

  lemma OtherLinksInScenario(db: Db, step: Step)
    requires Inv(db) && LinksInScenario(db) && !step.AssignStep?
    ensures LinksInScenario(Apply(db, step).db)
  {
    hide LiveScript, Strip, Taken, ConvertTx, DeriveReviewStatus, Blank;
    match step {
      case ConvertStep(u, w) => ConvertLinksInScenario(db, u, w);
      case RetryStep(u, target, w) => ConvertLinksInScenario(db, u, w);
      case _ =>
    }
  }

  /** A link leaves its upload's scenario exactly when its script is reassigned. */
  lemma LinkMovesExactly(db: Db, step: Step)
    requires Inv(db) && LinksInScenario(db)
    ensures !LinksInScenario(Apply(db, step).db) <==>
      step.AssignStep? && IsLinked(db, step.moved) && Releases(db, step, db.scripts[step.moved].scenario)
  {
    hide LiveScript, Strip, Taken, ConvertTx, RetryTx;
    if !step.AssignStep? {
      OtherLinksInScenario(db, step);
    } else if step.moved < |db.scripts| {
      var after := Apply(db, step).db;
      if Releases(db, step, db.scripts[step.moved].scenario) {
        if IsLinked(db, step.moved) {
          var u :| 0 <= u < |db.uploads| && db.uploads[u].script == Some(step.moved);
          assert after.uploads[u].scenario != Some(after.scripts[step.moved].scenario);
        }
      } else {
        assert after == db;
      }
    }
  }

  /** A scenario's script, soft-deleted or not, belongs to at most one upload. */
  lemma OneUploadPerScript(steps: seq<Step>, i: nat, j: nat)
    requires var db := Run(Db([], []), steps);
      i < |db.uploads| && j < |db.uploads| && db.uploads[i].script.Some? && db.uploads[i].script == db.uploads[j].script
    ensures i == j
  {
    InitialInv();
    RunKeepsInv(Db([], []), steps);
  }

  /** When an upload counts as published. */
  lemma InPublishedExactly(db: Db, u: nat)
    requires Inv(db) && u < |db.uploads|
    ensures var row := db.uploads[u];
      ReviewOf(db, row) == InPublished <==>
        && row.status != Rejected && row.extraction == Extracted && row.script.Some?
        && var s := db.scripts[row.script.value];
        !s.deleted && s.status == Published
  {
  }

  /** Rejection of an upload whose script is live and published takes effect exactly when a later
      extraction retry failed; the guard on published uploads catches the others. */
  lemma PublishedRejectedExactly(steps: seq<Step>, u: nat, reason: string, w: World)
    requires w.commits
    requires var db := Run(Db([], []), steps);
      u < |db.uploads| && db.uploads[u].status != Rejected && db.uploads[u].script.Some?
    requires var db := Run(Db([], []), steps);
      LinkedScript(db, db.uploads[u]).Some? ==>
      !LinkedScript(db, db.uploads[u]).value.deleted && LinkedScript(db, db.uploads[u]).value.status == Published
    ensures var db := Run(Db([], []), steps);
      var t := RejectTx(db, u, reason, w);
      (t.db.uploads[u].status == Rejected <==> db.uploads[u].extraction == ExtractionFailed)
      && (t.reply == NotAllowed <==> db.uploads[u].extraction == Extracted)
  {
    InitialInv();
    RunKeepsInv(Db([], []), steps);
    InPublishedExactly(Run(Db([], []), steps), u);
  }

  lemma RunFirst(db: Db, step: Step, rest: seq<Step>)
    ensures Run(db, [step] + rest) == Run(Apply(db, step).db, rest)
  {
    assert ([step] + rest)[1..] == rest;
  }

  /** From any upload in review whose file is kept: fail an extraction retry, publish in the registry, reject. */
  lemma RejectedAfterPublication(db: Db, u: nat, reason: string, w: World)
    requires Inv(db) && u < |db.uploads| && ReviewOf(db, db.uploads[u]) == ForReview && db.uploads[u].source
    requires w.commits && w.extracted.None?
    ensures var script := db.uploads[u].script.value;
      var later := Run(db, [RetryStep(u, Extraction, w), ScriptStep(script, Publish), RejectStep(u, reason, w)]);
      && u < |later.uploads| && later.uploads[u].status == Rejected && later.uploads[u].script == Some(script) && |later.uploads| == |db.uploads|
      && script < |later.scripts| && later.scripts[script].status == Published && !later.scripts[script].deleted
  {
    hide Run;
    var script := db.uploads[u].script.value;
    var retry, publish, reject := RetryStep(u, Extraction, w), ScriptStep(script, Publish), RejectStep(u, reason, w);
    assert [retry, publish, reject] == [retry] + [publish, reject];
    RunFirst(db, retry, [publish, reject]);
    var failed := Apply(db, retry).db;
    assert failed.uploads[u].extraction == ExtractionFailed && failed.scripts == db.scripts;
    assert [publish, reject] == [publish] + [reject];
    RunFirst(failed, publish, [reject]);
    var published := Apply(failed, publish).db;
    assert published.uploads == failed.uploads;
    assert [reject] == [reject] + [];
    RunFirst(published, reject, []);
    RunNothing(Apply(published, reject).db);
  }

  lemma {:induction false} RunConcat(db: Db, steps: seq<Step>, more: seq<Step>)
    ensures Run(db, steps + more) == Run(Run(db, steps), more)
    decreases |steps|
  {
    hide Apply;
    if steps == [] {
      assert steps + more == more;
    } else {
      RunConcat(Apply(db, steps[0]).db, steps[1..], more);
      assert (steps + more)[1..] == steps[1..] + more;
    }
  }

  /** Upload and convert into an empty registry: the upload is in review with its file. */
  lemma UploadedAndConverted(content: string, scenario: nat, w: World)
    requires w.commits && w.flushes && w.scenarioExists && w.contract(content).Some? && Strip(content) != ""
    ensures var db := Run(Db([], []), [PersistStep(content, Some(scenario), w), ConvertStep(0, w)]);
      && |db.uploads| == 1 && |db.scripts| == 1 && db.uploads[0].script == Some(0) && db.uploads[0].source
      && ReviewOf(db, db.uploads[0]) == ForReview
  {
    hide Run, Strip;
    var persist, convert := PersistStep(content, Some(scenario), w), ConvertStep(0, w);
    assert [persist, convert] == [persist] + [convert] && [convert] == [convert] + [];
    RunFirst(Db([], []), persist, [convert]);
    var stored := Apply(Db([], []), persist).db;
    RunFirst(stored, convert, []);
    RunNothing(Apply(stored, convert).db);
    assert LiveScript([], scenario).None?;
  }

  /** A run from the empty registry: upload, convert, fail an extraction retry, publish in the registry, reject. */
  lemma PublishedMayBeRejected(content: string, scenario: nat, reason: string, w: World, failing: World)
    requires w.commits && w.flushes && w.scenarioExists && w.contract(content).Some? && Strip(content) != ""
    requires failing.commits && failing.extracted.None?
    ensures var later := Run(Db([], []), [
        PersistStep(content, Some(scenario), w), ConvertStep(0, w),
        RetryStep(0, Extraction, failing), ScriptStep(0, Publish), RejectStep(0, reason, failing)]);
      && |later.uploads| == 1 && later.uploads[0].status == Rejected && later.uploads[0].script == Some(0)
      && 0 < |later.scripts| && later.scripts[0].status == Published && !later.scripts[0].deleted
  {
    hide Run, Apply, Inv, ReviewOf;
    var start := [PersistStep(content, Some(scenario), w), ConvertStep(0, w)];
    var rest := [RetryStep(0, Extraction, failing), ScriptStep(0, Publish), RejectStep(0, reason, failing)];
    UploadedAndConverted(content, scenario, w);
    InitialInv();
    RunKeepsInv(Db([], []), start);
    RejectedAfterPublication(Run(Db([], []), start), 0, reason, failing);
    RunConcat(Db([], []), start, rest);
    assert start + rest == [PersistStep(content, Some(scenario), w), ConvertStep(0, w),
      RetryStep(0, Extraction, failing), ScriptStep(0, Publish), RejectStep(0, reason, failing)];
  }

  lemma OneMoreStep(steps: seq<Step>, step: Step)
    ensures Run(Db([], []), steps + [step]) == Apply(Run(Db([], []), steps), step).db
  {
    RunConcat(Db([], []), steps, [step]);
    RunFirst(Run(Db([], []), steps), step, []);
    RunNothing(Apply(Run(Db([], []), steps), step).db);
    assert [step] + [] == [step];
  }

  /** A run from the empty registry: two uploads of one scenario, the first is converted, its script is reassigned,
      and the second is converted too. The first upload's script now belongs to another scenario. */
  lemma ScenarioConvertedTwice(content: string, scenario: nat, other: nat, w: World)
    requires w.commits && w.flushes && w.scenarioExists && w.contract(content).Some? && Strip(content) != "" && scenario != other
    ensures var persist := PersistStep(content, Some(scenario), w);
      var db := Run(Db([], []), [persist, persist, ConvertStep(0, w), AssignStep(0, other, w), ConvertStep(1, w)]);
      && |db.uploads| == 2 && |db.scripts| == 2
      && db.uploads[0].scenario == db.uploads[1].scenario == Some(scenario)
      && db.uploads[0].script == Some(0) && db.uploads[1].script == Some(1)
      && db.scripts[0].scenario == other && db.scripts[1].scenario == scenario
      && !LinksInScenario(db)
  {
    hide Run, Strip;
    var persist := PersistStep(content, Some(scenario), w);
    var row := Upload(Clean, None, Extracted, Some(content), Some(scenario), Completed, None, None, true);
    var draft := w.contract(content).value;
    RunNothing(Db([], []));
    OneMoreStep([], persist);
    OneMoreStep([persist], persist);
    assert [] + [persist] == [persist] && [persist] + [persist] == [persist, persist];
    var db2 := Run(Db([], []), [persist, persist]);
    assert db2 == Db([row, row], []);
    OneMoreStep([persist, persist], ConvertStep(0, w));
    assert [persist, persist] + [ConvertStep(0, w)] == [persist, persist, ConvertStep(0, w)];
    FirstConverted(row, draft, scenario, w);
    OneMoreStep([persist, persist, ConvertStep(0, w)], AssignStep(0, other, w));
    var start := [persist, persist, ConvertStep(0, w), AssignStep(0, other, w)];
    assert [persist, persist, ConvertStep(0, w)] + [AssignStep(0, other, w)] == start;
    OneMoreStep(start, ConvertStep(1, w));
    assert start + [ConvertStep(1, w)] == [persist, persist, ConvertStep(0, w), AssignStep(0, other, w), ConvertStep(1, w)];
    SecondConverted(row, draft, scenario, other, w);
  }

  lemma FirstConverted(row: Upload, draft: string, scenario: nat, w: World)
    requires w.commits && w.flushes && w.scenarioExists && row.script.None? && Eligible(row) && row.scenario == Some(scenario)
    requires w.contract(row.content.value) == Some(draft)
    ensures ConvertTx(Db([row, row], []), 0, w).db == Db([row.(script := Some(0)), row], [Script(scenario, draft, Draft, false)])
  {
    hide Strip, Blank;
    assert LiveScript([], scenario).None?;
  }

  lemma SecondConverted(row: Upload, draft: string, scenario: nat, other: nat, w: World)
    requires w.commits && w.flushes && w.scenarioExists && row.script.None? && Eligible(row) && row.scenario == Some(scenario)
    requires w.contract(row.content.value) == Some(draft) && scenario != other
    ensures var linked, script := row.(script := Some(0)), Script(scenario, draft, Draft, false);
      var moved := AssignTx(Db([linked, row], [script]), 0, other, w).db;
      && moved == Db([linked, row], [script.(scenario := other)])
      && ConvertTx(moved, 1, w).db == Db([linked, row.(script := Some(1))], [script.(scenario := other), script])
  {
    hide Strip, Blank;
    var script := Script(other, draft, Draft, false);
    assert [script][..0] == [];
    assert LiveScript([script], scenario).None?;
  }

  lemma RunNothing(db: Db)
    ensures Run(db, []) == db
  {
  }

  /** Rejecting takes effect exactly in these states; a second rejection keeps the first reason. */
  lemma RejectsExactly(db: Db, u: nat, reason: string, w: World)
    requires Inv(db) && u < |db.uploads| && w.commits
    ensures var row, t := db.uploads[u], RejectTx(db, u, reason, w);
      var open := row.script.None? || (!db.scripts[row.script.value].deleted && db.scripts[row.script.value].status == Draft);
      if row.status != Rejected && (row.scan != Clean || row.extraction == ExtractionFailed || open)
      then t.db.uploads[u].status == Rejected && t.db.uploads[u].reason == Some(reason)
      else t.db == db
  {
  }
}
