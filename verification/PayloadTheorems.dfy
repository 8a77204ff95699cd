/** When the identity checks accept an evaluation: all references resolve, and repetition is the only obstacle. */
module PayloadTheorems {
  import opened Rubric
  import opened Sorting
  import opened StandardValidator
  import opened ObservationValidator
  import opened ScoreCalculator
  import opened ScoringTheorems
  import opened Recommendations
  import opened RecommendationTheorems
  import opened Coaching
  import LearningPlan
  import opened ReportPayload
  import opened PipelineTheorems

  /** The canonical result with its recommendations attached, as it enters the report. */
  ghost function Reported(redact: string -> string, version: Version, v: ValidatedObservation): Canonical
    requires CategoriesKnown(v) && CanonicalSchema(Scored(v)) && Linked(BlocksOf(v), Scored(v))
  {
    Scored(v).(recommendations := if v.observation.status == NotApplicable then [] else RankedFor(redact, version, v))
  }

  /** The sequence numbers of the transcript. */
  function Entries(v: ValidatedObservation): set<int> {
    Indexed(v.transcript, |v.transcript|).Keys
  }

  /** Every check except the three on repetition. */
  predicate Reference(e: PayloadError) {
    e !in {CriterionRepeated, EvidenceRepeated, RecommendationRepeated}
  }

  lemma CategoryReferences(fold: string -> string, v: ValidatedObservation, c: CategoryScore, e: PayloadError)
    requires Evaluation(fold, v) && c in Scored(v).categories && Reference(e)
    ensures CategoryPasses(Entries(v), c, e)
  {
    hide CanonicalSchema, Linked, Publishable, ObservationSchema, StandardSchema, Scored;
    var o := ScoredOrigin(v, c);
    var k := Inputs(fold, v.observation, v.snapshot, v.transcript);
    assert CategoryGrounded(k.Turns(), BlocksOf(v)[o.blockId], o);
    assert EvidenceSequences(o.evidence) <= Entries(v);
    assert FindingsEvidenced(o.strengths, o.evidence) && FindingsEvidenced(o.violations, o.evidence);
    assert forall i :: i in o.inputs ==> InputGrounded(BlocksOf(v)[o.blockId], o, i);
  }

  /** No reference check can fail on what the chain produces. */
  lemma ReferencesResolve(fold: string -> string, redact: string -> string, version: Version, v: ValidatedObservation, e: PayloadError)
    requires Evaluation(fold, v) && Reference(e) && (version.number.Some? ==> 1 <= version.number.value)
    ensures PayloadPasses(Entries(v), Reported(redact, version, v), e)
  {
    hide CanonicalSchema, Linked, Publishable, Trusted, Scored, CategoryPasses, RecommendationSchema;
    var canonical := Reported(redact, version, v);
    forall c | c in canonical.categories ensures CategoryPasses(Entries(v), c, e) {
      CategoryReferences(fold, v, c, e);
    }
    forall r | r in canonical.recommendations
      ensures r.blockId in BlockIdsOf(canonical.categories) && r.sequence in Entries(v)
    {
      RecommendationsGrounded(fold, redact, version, v, r);
      var c, i, x := RecommendationOrigin(redact, version, v.snapshot, Scored(v), r);
      BlockMapIds(v.snapshot.blocks);
      var k :| 0 <= k < |canonical.categories| && canonical.categories[k] == c;
      assert BlockIdsOf(canonical.categories)[k] == c.blockId;
    }
  }

  // ----- when recommendation identities repeat

  /** No failed criterion that a finding cites is listed twice. */
  ghost predicate ListedOnce(findings: seq<Finding>, failed: seq<string>) {
    forall i, j :: 0 <= i < j < |failed| && failed[i] == failed[j] ==> !Cites(findings, failed[i])
  }

  /** No two recommendations of the category can share criterion and place. */
  ghost predicate Unambiguous(o: CategoryObservation)
    requires AllCite(o.violations)
  {
    if o.inputs != [] then NoRepeats(InputKeys(o.inputs))
    else
      && ListedOnce(o.strengths + o.violations, o.failedCriteria)
      && (forall i, j :: 0 <= i < j < |o.violations| ==>
            o.violations[i].id != o.violations[j].id || o.violations[i].sequences[0] != o.violations[j].sequences[0])
      && (forall f :: f in o.violations && f.id in o.failedCriteria ==>
            exists n :: n in Cited(o.strengths, f.id) + Cited(o.violations, f.id) && n < f.sequences[0])
  }

  lemma {:induction false} ViolationInputs(findings: seq<Finding>)
    requires AllCite(findings)
    ensures |FromViolations(findings)| == |findings|
    ensures forall i :: 0 <= i < |findings| ==>
      FromViolations(findings)[i] == RecommendationInput(findings[i].id, findings[i].sequences[0], findings[i].explanation)
  {
    if findings != [] {
      assert findings[0] in findings;
      ViolationInputs(findings[1..]);
    }
  }

  function KeyOf(place: bool, i: RecommendationInput): (string, int) {
    (i.criterionId, if place then i.sequence else 0)
  }

  lemma ListedOneMore(findings: seq<Finding>, front: seq<string>, id: string)
    ensures ListedOnce(findings, front + [id]) <==> ListedOnce(findings, front) && (Cites(findings, id) ==> id !in front)
  {
    hide Cites;
    var failed := front + [id];
    if ListedOnce(findings, failed) {
      forall i, j | 0 <= i < j < |front| && front[i] == front[j] ensures !Cites(findings, front[i]) {
        assert failed[i] == failed[j];
      }
      if id in front {
        var i :| 0 <= i < |front| && front[i] == id;
        assert failed[i] == failed[|front|];
      }
    }
  }

  /** The inputs made for failed criteria name exactly those with a finding, and none twice unless it is listed twice. */
  lemma {:induction false} FailedKeys(place: bool, findings: seq<Finding>, failed: seq<string>)
    requires AllCite(findings)
    ensures NoRepeats(KeysBy(place, FromAllFailed(findings, failed))) <==> ListedOnce(findings, failed)
    ensures forall k :: k in KeysBy(place, FromAllFailed(findings, failed)) <==>
      k.0 in failed && Cites(findings, k.0) && k == KeyOf(place, FromFailed(findings, k.0))
  {
    hide Cites, AllCite;
    if failed != [] {
      var front, id := failed[..|failed| - 1], failed[|failed| - 1];
      FailedKeys(place, findings, front);
      assert failed == front + [id];
      ListedOneMore(findings, front, id);
      var before := FromAllFailed(findings, front);
      if !Cites(findings, id) {
        assert FromAllFailed(findings, failed) == before;
      } else {
        var x := FromFailed(findings, id);
        assert FromAllFailed(findings, failed) == before + [x];
        assert KeysBy(place, before + [x]) == KeysBy(place, before) + [KeyOf(place, x)];
        NoRepeatsConcat(KeysBy(place, before), [KeyOf(place, x)]);
      }
    }
  }

  /** The synthesised inputs of a category repeat exactly when it is ambiguous. */
  lemma SynthesisedInputs(o: CategoryObservation, c: CategoryScore)
    requires Carries(c, o) && AllCite(Findings(c)) && AllCite(o.violations) && o.inputs == []
    ensures NoRepeats(InputKeys(CategoryInputs(c))) <==> Unambiguous(o)
  {
    hide FromViolations, FromAllFailed, Cited;
    var first, second := FromViolations(c.violations), FromAllFailed(Findings(c), c.failedCriteria);
    ViolationInputs(c.violations);
    FailedKeys(true, Findings(c), c.failedCriteria);
    assert InputKeys(first + second) == InputKeys(first) + InputKeys(second);
    NoRepeatsConcat(InputKeys(first), InputKeys(second));
    forall i | 0 <= i < |first|
      ensures InputKeys(first)[i] in InputKeys(second) <==>
        var f := o.violations[i];
        f.id in o.failedCriteria && !(exists n :: n in Cited(o.strengths, f.id) + Cited(o.violations, f.id) && n < f.sequences[0])
    {
      SharedKey(o, c, i);
    }
    assert forall i :: 0 <= i < |first| ==> o.violations[i] in o.violations;
    assert forall x :: x in InputKeys(first) ==> exists i :: 0 <= i < |first| && InputKeys(first)[i] == x;
  }

  /** A violation's input reappears among the failed criteria when it cites its criterion's earliest place. */
  lemma SharedKey(o: CategoryObservation, c: CategoryScore, i: nat)
    requires Carries(c, o) && AllCite(Findings(c)) && AllCite(o.violations) && i < |o.violations|
    ensures (o.violations[i].id, o.violations[i].sequences[0]) in InputKeys(FromAllFailed(Findings(c), c.failedCriteria)) <==>
      var f := o.violations[i];
      f.id in o.failedCriteria && !(exists n :: n in Cited(o.strengths, f.id) + Cited(o.violations, f.id) && n < f.sequences[0])
  {
    var f := o.violations[i];
    assert f in Findings(c);
    FailedKeys(true, Findings(c), c.failedCriteria);
    BothFindings(o, c, f.id);
    CitedNonEmpty(Findings(c), f.id);
    var n := f.sequences[0];
    assert n in f.sequences;
    assert n in Cited(Findings(c), f.id);
  }

  /** The identity of a recommendation, with or without its place in the transcript. */
  function NameOf(place: bool, r: Recommendation): (string, string, int) {
    (r.blockId, r.criterionId, if place then r.sequence else 0)
  }

  function NamesOf(place: bool, rs: seq<Recommendation>): (names: seq<(string, string, int)>)
    ensures |names| == |rs| && forall i :: 0 <= i < |rs| ==> names[i] == NameOf(place, rs[i])
  {
    seq(|rs|, (i: nat) requires i < |rs| => NameOf(place, rs[i]))
  }

  function KeyBy(place: bool): Candidate -> (string, string, int) {
    (x: Candidate) => NameOf(place, x.recommendation)
  }

  lemma CandidateKey(place: bool, redact: string -> string, version: Version, b: Block, c: CategoryScore, i: RecommendationInput)
    requires b.HasCriterion(i.criterionId)
    ensures KeyBy(place)(CandidateOf(redact, version, b, c, i)) == (b.id, i.criterionId, if place then i.sequence else 0)
  {
    hide LastCriterion, SafeText, FirstEvidence;
  }

  lemma CategoryKeys(place: bool, redact: string -> string, version: Version, b: Block, c: CategoryScore, inputs: seq<RecommendationInput>)
    requires forall i :: i in inputs ==> b.HasCriterion(i.criterionId)
    ensures NoRepeats(Map(KeyBy(place), CandidatesOf(redact, version, b, c, inputs))) <==> NoRepeats(KeysBy(place, inputs))
    ensures forall k :: k in Map(KeyBy(place), CandidatesOf(redact, version, b, c, inputs)) ==> k.0 == b.id
  {
    var keys := Map(KeyBy(place), CandidatesOf(redact, version, b, c, inputs));
    hide CandidateOf;
    forall i | 0 <= i < |inputs| ensures keys[i] == (b.id, inputs[i].criterionId, if place then inputs[i].sequence else 0) {
      assert inputs[i] in inputs;
      CandidateKey(place, redact, version, b, c, inputs[i]);
    }
    SamePattern(keys, KeysBy(place, inputs));
  }

  lemma KeysBlock(place: bool, redact: string -> string, version: Version, blocks: map<string, Block>, cs: seq<CategoryScore>, k: (string, string, int))
    requires forall c :: c in cs ==> AllCite(Findings(c)) && CategoryLinked(blocks, c)
    requires forall id :: id in blocks ==> blocks[id].id == id
    requires k in Map(KeyBy(place), AllCandidates(redact, version, blocks, cs))
    ensures k.0 in BlockIdsOf(cs)
  {
    var xs := AllCandidates(redact, version, blocks, cs);
    var i :| 0 <= i < |xs| && KeyBy(place)(xs[i]) == k;
    var c := CandidateRank(redact, version, blocks, cs, xs[i]);
    var j :| 0 <= j < |cs| && cs[j] == c;
    assert BlockIdsOf(cs)[j] == c.blockId;
  }

  /** With one category per block, identities repeat only inside a category. */
  lemma {:induction false} KeysPerCategory(place: bool, redact: string -> string, version: Version, blocks: map<string, Block>, cs: seq<CategoryScore>)
    requires forall c :: c in cs ==> AllCite(Findings(c)) && CategoryLinked(blocks, c)
    requires forall id :: id in blocks ==> blocks[id].id == id
    requires NoRepeats(BlockIdsOf(cs))
    ensures NoRepeats(Map(KeyBy(place), AllCandidates(redact, version, blocks, cs)))
      <==> forall c :: c in cs ==> NoRepeats(KeysBy(place, CategoryInputs(c)))
  {
    hide CategoryInputs, CategoryLinked;
    if cs != [] {
      var front, last := cs[..|cs| - 1], cs[|cs| - 1];
      assert cs == front + [last] && last in cs;
      assert BlockIdsOf(cs) == BlockIdsOf(front) + [last.blockId];
      NoRepeatsConcat(BlockIdsOf(front), [last.blockId]);
      KeysPerCategory(place, redact, version, blocks, front);
      LastKeys(place, redact, version, blocks, last);
      var before := AllCandidates(redact, version, blocks, front);
      var more := CandidatesOf(redact, version, blocks[last.blockId], last, CategoryInputs(last));
      MapConcat(KeyBy(place), before, more);
      NoRepeatsConcat(Map(KeyBy(place), before), Map(KeyBy(place), more));
      forall k | k in Map(KeyBy(place), before) ensures k !in Map(KeyBy(place), more) {
        KeysBlock(place, redact, version, blocks, front, k);
      }
    }
  }

  lemma LastKeys(place: bool, redact: string -> string, version: Version, blocks: map<string, Block>, c: CategoryScore)
    requires AllCite(Findings(c)) && CategoryLinked(blocks, c)
    requires forall id :: id in blocks ==> blocks[id].id == id
    ensures c.blockId in blocks && forall i :: i in CategoryInputs(c) ==> blocks[c.blockId].HasCriterion(i.criterionId)
    ensures var keys := Map(KeyBy(place), CandidatesOf(redact, version, blocks[c.blockId], c, CategoryInputs(c)));
      (NoRepeats(keys) <==> NoRepeats(KeysBy(place, CategoryInputs(c)))) && forall k :: k in keys ==> k.0 == c.blockId
  {
    LinkedCriteria(blocks, c);
    CategoryKeys(place, redact, version, blocks[c.blockId], c, CategoryInputs(c));
  }

  /** The ranked recommendations repeat an identity exactly when some category's inputs do. */
  lemma RankedKeys(place: bool, redact: string -> string, version: Version, snapshot: Standard, canonical: Canonical)
    requires CanonicalSchema(canonical) && Linked(BlockMap(snapshot.blocks), canonical) && NoRepeats(BlockIdsOf(canonical.categories))
    ensures NoRepeats(NamesOf(place, Ranked(redact, version, snapshot, canonical)))
      <==> forall c :: c in canonical.categories ==> NoRepeats(KeysBy(place, CategoryInputs(c)))
  {
    hide CanonicalSchema, CandidateLe, SortBy, CategoryInputs, CategoryLinked;
    var blocks := BlockMap(snapshot.blocks);
    var all, xs := AllCandidates(redact, version, blocks, canonical.categories), SortedCandidates(redact, version, snapshot, canonical);
    BlockMapIds(snapshot.blocks);
    KeysPerCategory(place, redact, version, blocks, canonical.categories);
    assert multiset(xs) == multiset(all);
    MapPermutation(KeyBy(place), xs, all);
    assert NamesOf(place, Ranked(redact, version, snapshot, canonical)) == Map(KeyBy(place), xs);
    if NoRepeats(Map(KeyBy(place), all)) {
      NoRepeatsPermutation(Map(KeyBy(place), all), Map(KeyBy(place), xs));
    }
    if NoRepeats(Map(KeyBy(place), xs)) {
      NoRepeatsPermutation(Map(KeyBy(place), xs), Map(KeyBy(place), all));
    }
  }

  // ----- the exact conditions

  /** The observation never names one criterion, evidence or recommendation twice in a category. */
  ghost predicate NothingRepeated(v: ValidatedObservation)
    requires forall o :: o in v.observation.categories ==> AllCite(o.violations)
  {
    forall o :: o in v.observation.categories ==>
      && NoRepeats(o.failedCriteria) && NoRepeats(EvidenceKeys(o.evidence))
      && (v.observation.status == Evaluated ==> Unambiguous(o))
  }

  lemma ObservedViolationsCite(fold: string -> string, v: ValidatedObservation)
    requires Trusted(fold, v)
    ensures forall o :: o in v.observation.categories ==> AllCite(o.violations)
  {
    forall o | o in v.observation.categories ensures AllCite(o.violations) {
      assert CategorySchema(o);
    }
  }

  lemma ScoredOf(v: ValidatedObservation, o: CategoryObservation) returns (c: CategoryScore)
    requires CategoriesKnown(v) && o in v.observation.categories
    ensures c in Scored(v).categories && Carries(c, o)
  {
    hide SortBy, WeightedTotal, Contribution, Penalized;
    var os := Ordered(v);
    assert o in multiset(v.observation.categories);
    var i :| 0 <= i < |os| && os[i] == o;
    assert forall p :: p in os ==> p in multiset(os);
    BlockMapIds(v.snapshot.blocks);
    c := ScoreCategories(BlocksOf(v), os)[i];
  }

  lemma InputsOf(o: CategoryObservation, c: CategoryScore)
    requires Carries(c, o) && AllCite(Findings(c)) && AllCite(o.violations)
    ensures NoRepeats(InputKeys(CategoryInputs(c))) <==> Unambiguous(o)
  {
    if o.inputs == [] {
      SynthesisedInputs(o, c);
    }
  }

  lemma ScoredCites(fold: string -> string, v: ValidatedObservation)
    requires Evaluation(fold, v)
    ensures forall c :: c in Scored(v).categories ==> AllCite(Findings(c))
  {
  }

  lemma UnambiguousCategories(fold: string -> string, v: ValidatedObservation)
    requires Evaluation(fold, v) && forall o :: o in v.observation.categories ==> AllCite(o.violations)
    requires forall c :: c in Scored(v).categories ==> AllCite(Findings(c))
    ensures (forall c :: c in Scored(v).categories ==> NoRepeats(InputKeys(CategoryInputs(c))))
      <==> forall o :: o in v.observation.categories ==> Unambiguous(o)
  {
    hide Scored, Evaluation, CategoryInputs, Unambiguous;
    assert CategoriesKnown(v) by { KnownCategories(fold, v); }
    forall c | c in Scored(v).categories
      ensures exists o :: o in v.observation.categories && (NoRepeats(InputKeys(CategoryInputs(c))) <==> Unambiguous(o))
    {
      var o := ScoredOrigin(v, c);
      InputsOf(o, c);
    }
    forall o | o in v.observation.categories
      ensures exists c :: c in Scored(v).categories && (NoRepeats(InputKeys(CategoryInputs(c))) <==> Unambiguous(o))
    {
      var c := ScoredOf(v, o);
      InputsOf(o, c);
    }
  }

  lemma KnownCategories(fold: string -> string, v: ValidatedObservation)
    requires Evaluation(fold, v)
    ensures CategoriesKnown(v)
  {
  }

  /** Scored categories and observed categories carry the same lists. */
  lemma SameLists(v: ValidatedObservation)
    requires CategoriesKnown(v)
    ensures forall c :: c in Scored(v).categories ==> exists o :: o in v.observation.categories && Carries(c, o)
    ensures forall o :: o in v.observation.categories ==> exists c :: c in Scored(v).categories && Carries(c, o)
  {
    hide Scored;
    forall c | c in Scored(v).categories ensures exists o :: o in v.observation.categories && Carries(c, o) {
      var o := ScoredOrigin(v, c);
    }
    forall o | o in v.observation.categories ensures exists c :: c in Scored(v).categories && Carries(c, o) {
      var c := ScoredOf(v, o);
    }
  }

  lemma RepetitionChecks(entries: set<int>, c: CategoryScore)
    ensures CategoryPasses(entries, c, CriterionRepeated) == NoRepeats(c.failedCriteria)
    ensures CategoryPasses(entries, c, EvidenceRepeated) == NoRepeats(EvidenceKeys(c.evidence))
  {
  }

  lemma CategoryRepeats(v: ValidatedObservation)
    requires CategoriesKnown(v)
    ensures (forall c :: c in Scored(v).categories ==> CategoryPasses(Entries(v), c, CriterionRepeated))
      <==> forall o :: o in v.observation.categories ==> NoRepeats(o.failedCriteria)
    ensures (forall c :: c in Scored(v).categories ==> CategoryPasses(Entries(v), c, EvidenceRepeated))
      <==> forall o :: o in v.observation.categories ==> NoRepeats(EvidenceKeys(o.evidence))
  {
    hide Scored, NoRepeats, CategoryPasses;
    SameLists(v);
    forall c
      ensures CategoryPasses(Entries(v), c, CriterionRepeated) == NoRepeats(c.failedCriteria)
      ensures CategoryPasses(Entries(v), c, EvidenceRepeated) == NoRepeats(EvidenceKeys(c.evidence))
    {
      RepetitionChecks(Entries(v), c);
    }
  }

  /** The identity checks pass exactly when the observation repeats nothing. */
  lemma PayloadAcceptedExactly(fold: string -> string, redact: string -> string, version: Version, v: ValidatedObservation)
    requires Evaluation(fold, v) && (version.number.Some? ==> 1 <= version.number.value)
    ensures forall o :: o in v.observation.categories ==> AllCite(o.violations)
    ensures (forall e :: PayloadPasses(Entries(v), Reported(redact, version, v), e)) <==> NothingRepeated(v)
  {
    hide Scored, Trusted, Publishable, CanonicalSchema, Linked, CategoryPasses, Ranked, Unambiguous, CategoryInputs;
    ObservedViolationsCite(fold, v);
    ScoredCites(fold, v);
    CategoryRepeats(v);
    RecommendationRepeats(fold, redact, version, v);
    var canonical := Reported(redact, version, v);
    forall e | Reference(e) ensures PayloadPasses(Entries(v), canonical, e) {
      ReferencesResolve(fold, redact, version, v, e);
    }
    assert (forall e :: PayloadPasses(Entries(v), canonical, e)) <==>
      && PayloadPasses(Entries(v), canonical, CriterionRepeated)
      && PayloadPasses(Entries(v), canonical, EvidenceRepeated)
      && PayloadPasses(Entries(v), canonical, RecommendationRepeated);
  }

  lemma RecommendationRepeats(fold: string -> string, redact: string -> string, version: Version, v: ValidatedObservation)
    requires Evaluation(fold, v) && forall o :: o in v.observation.categories ==> AllCite(o.violations)
    ensures PayloadPasses(Entries(v), Reported(redact, version, v), RecommendationRepeated)
      <==> (v.observation.status == Evaluated ==> forall o :: o in v.observation.categories ==> Unambiguous(o))
  {
    hide Scored, Trusted, Publishable, CanonicalSchema, Linked, Ranked, Unambiguous, CategoryInputs;
    if v.observation.status == Evaluated {
      ScoredCites(fold, v);
      RankedKeys(true, redact, version, v.snapshot, Scored(v));
      var rs := Ranked(redact, version, v.snapshot, Scored(v));
      assert RecommendationKeys(rs) == NamesOf(true, rs);
      UnambiguousCategories(fold, v);
    }
  }

  /** A failed block that names no criterion yields the item the report cannot take. */
  ghost predicate FailsWithoutCriterion(c: CategoryScore) {
    !c.passed && c.failedCriteria == [] && c.violations == []
  }

  lemma TargetsStrict(c: CategoryScore, t: nat, u: nat)
    requires t < u < |LearningPlan.Targets(c)|
    ensures LearningPlan.Targets(c)[t] != LearningPlan.Targets(c)[u]
  {
    LearningPlan.SortedSetStrict(c.failedCriteria + LearningPlan.ViolationIds(c.violations));
  }

  lemma ItemsDistinct(redact: string -> string, v: ValidatedObservation, p: nat, q: nat)
    requires CategoriesKnown(v) && v.observation.status == Evaluated && NoRepeats(BlockIdsOf(Scored(v).categories))
    requires p < q < |LearningPlan.PlanOf(redact, Scored(v), v.snapshot).items|
    ensures var items := LearningPlan.PlanOf(redact, Scored(v), v.snapshot).items;
      (items[p].blockId, items[p].criterionId) != (items[q].blockId, items[q].criterionId)
  {
    hide WeightedTotal, LearningPlan.PlanRank, LearningPlan.Item, LearningPlan.Targets, LearningPlan.AllItems, BlockMap;
    var ranked := LearningPlan.RankedCategories(v.snapshot, Scored(v));
    var k, t, l, u := LearningPlan.ItemOrder(redact, BlocksOf(v), ranked, p, q);
    ItemBlock(redact, BlocksOf(v), ranked[k], LearningPlan.Targets(ranked[k])[t]);
    ItemBlock(redact, BlocksOf(v), ranked[l], LearningPlan.Targets(ranked[l])[u]);
    if k == l {
      TargetsStrict(ranked[k], t, u);
    } else {
      RankedDistinct(v, k, l);
    }
  }

  lemma RankedDistinct(v: ValidatedObservation, k: nat, l: nat)
    requires CategoriesKnown(v) && NoRepeats(BlockIdsOf(Scored(v).categories))
    requires k < l < |LearningPlan.RankedCategories(v.snapshot, Scored(v))|
    ensures LearningPlan.RankedCategories(v.snapshot, Scored(v))[k].blockId != LearningPlan.RankedCategories(v.snapshot, Scored(v))[l].blockId
  {
    hide Scored, SortBy;
    var ranked, cs := LearningPlan.RankedCategories(v.snapshot, Scored(v)), Scored(v).categories;
    assert multiset(ranked) == multiset(cs);
    MapPermutation((c: CategoryScore) => c.blockId, cs, ranked);
    assert Map((c: CategoryScore) => c.blockId, cs) == BlockIdsOf(cs);
    NoRepeatsPermutation(BlockIdsOf(cs), Map((c: CategoryScore) => c.blockId, ranked));
    assert Map((c: CategoryScore) => c.blockId, ranked)[k] != Map((c: CategoryScore) => c.blockId, ranked)[l];
  }

  ghost predicate AllNamed(items: seq<LearningPlan.PlanItem>) {
    forall i :: 0 <= i < |items| ==> items[i].criterionId.Some?
  }

  lemma AllNamedConcat(a: seq<LearningPlan.PlanItem>, b: seq<LearningPlan.PlanItem>)
    ensures AllNamed(a + b) <==> AllNamed(a) && AllNamed(b)
  {
    if AllNamed(a + b) {
      forall i | 0 <= i < |b| ensures b[i].criterionId.Some? { assert (a + b)[|a| + i] == b[i]; }
      forall i | 0 <= i < |a| ensures a[i].criterionId.Some? { assert (a + b)[i] == a[i]; }
    }
  }

  lemma {:induction false} UnnamedItems(redact: string -> string, blocks: map<string, Block>, cs: seq<CategoryScore>)
    ensures AllNamed(LearningPlan.AllItems(redact, blocks, cs)) <==> forall c :: c in cs ==> !FailsWithoutCriterion(c)
  {
    hide AllNamed, FailsWithoutCriterion, LearningPlan.ItemsFor;
    if cs == [] {
      NothingUnnamed();
    } else {
      var front, last := cs[..|cs| - 1], cs[|cs| - 1];
      assert cs == front + [last];
      assert forall c :: c in cs <==> c in front || c == last;
      UnnamedItems(redact, blocks, front);
      UnnamedTargets(redact, blocks, last);
      AllNamedConcat(LearningPlan.AllItems(redact, blocks, front), LearningPlan.ItemsFor(redact, blocks, last));
    }
  }

  lemma NothingUnnamed()
    ensures AllNamed([])
  {
  }

  lemma UnnamedTargets(redact: string -> string, blocks: map<string, Block>, c: CategoryScore)
    ensures AllNamed(LearningPlan.ItemsFor(redact, blocks, c)) <==> !FailsWithoutCriterion(c)
  {
    LearningPlan.NoCriteria(c);
    var items := LearningPlan.ItemsFor(redact, blocks, c);
    if FailsWithoutCriterion(c) {
      assert items[0].criterionId.None?;
    }
  }

  lemma ScoredStatus(v: ValidatedObservation)
    requires CategoriesKnown(v)
    ensures Scored(v).status == v.observation.status
  {
    hide Ordered, ScoreCategories, WeightedTotal;
  }

  lemma NamedMeans(items: seq<LearningPlan.PlanItem>)
    ensures AllNamed(items) <==> forall i :: 0 <= i < |items| ==> items[i].criterionId.Some?
  {
  }

  lemma PlanNamed(redact: string -> string, v: ValidatedObservation)
    requires CategoriesKnown(v) && Scored(v).status == Evaluated
    ensures AllNamed(LearningPlan.PlanOf(redact, Scored(v), v.snapshot).items)
      <==> forall c :: c in Scored(v).categories ==> !FailsWithoutCriterion(c)
  {
    hide Scored, LearningPlan.AllItems, BlockMap, SortBy, AllNamed, FailsWithoutCriterion;
    var ranked := LearningPlan.RankedCategories(v.snapshot, Scored(v));
    UnnamedItems(redact, BlocksOf(v), ranked);
    assert forall c :: c in ranked <==> c in multiset(ranked);
    assert forall c :: c in Scored(v).categories <==> c in multiset(Scored(v).categories);
  }

  /** The report accepts the plan exactly when every failed block names a criterion to practise. */
  lemma PlanAcceptedExactly(redact: string -> string, v: ValidatedObservation)
    requires CategoriesKnown(v) && v.observation.status == Evaluated && NoRepeats(BlockIdsOf(Scored(v).categories))
    ensures PlanAccepted(LearningPlan.PlanOf(redact, Scored(v), v.snapshot).items)
      <==> forall c :: c in Scored(v).categories ==> !FailsWithoutCriterion(c)
  {
    hide Scored, LearningPlan.AllItems, LearningPlan.RankedCategories, BlockMap, AllNamed, FailsWithoutCriterion;
    var items := LearningPlan.PlanOf(redact, Scored(v), v.snapshot).items;
    ScoredStatus(v);
    PlanNamed(redact, v);
    assert AllNamed(items) <==> forall i :: 0 <= i < |items| ==> items[i].criterionId.Some? by { NamedMeans(items); }
    forall p: nat, q: nat | p < q < |items|
      ensures (items[p].blockId, items[p].criterionId) != (items[q].blockId, items[q].criterionId)
    {
      ItemsDistinct(redact, v, p, q);
    }
  }
}
