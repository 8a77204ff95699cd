/** Which evaluations of the chain the assembler turns into a report. */
module AssemblyTheorems {
  import opened Rubric
  import opened Text
  import opened Sorting
  import opened StandardValidator
  import opened ObservationValidator
  import opened ScoreCalculator
  import opened ScoringTheorems
  import opened Recommendations
  import opened RecommendationTheorems
  import opened Coaching
  import LearningPlan
  import opened ReportPayload
  import opened PipelineTheorems
  import opened PayloadTheorems
  import opened ReportTheorems
  import Assembler = ReportAssembler
  import EvaluationEngine

  // ----- a criterion belongs to one block

  lemma CriterionPlace(b: Block, id: string) returns (violation: bool, item: nat)
    requires b.HasCriterion(id)
    ensures if violation then item < |b.violations| && b.violations[item].id == id
            else item < |b.positiveBehaviors| && b.positiveBehaviors[item].id == id
  {
    var c :| c in b.Criteria() && c.id == id;
    var k :| 0 <= k < |b.Criteria()| && b.Criteria()[k] == c;
    violation := k >= |b.positiveBehaviors|;
    item := if violation then k - |b.positiveBehaviors| else k;
  }

  /** Publishable content declares no criterion in two blocks. */
  lemma OneOwner(fold: string -> string, s: Standard, i: nat, j: nat, id: string)
    requires Publishable(fold, s) && i < |s.blocks| && j < |s.blocks|
    requires s.blocks[i].HasCriterion(id) && s.blocks[j].HasCriterion(id)
    ensures i == j
  {
    var first, p := CriterionPlace(s.blocks[i], id);
    var second, q := CriterionPlace(s.blocks[j], id);
    var kind, kind' := if first then ViolationId else CriterionId, if second then ViolationId else CriterionId;
    assert SameKey(fold, s, kind, Place(i, p), kind', Place(j, q));
    assert SameKey(fold, s, kind', Place(j, q), kind, Place(i, p));
  }

  lemma InputOwner(fold: string -> string, v: ValidatedObservation, c: CategoryScore, d: CategoryScore, id: string)
    requires Evaluation(fold, v) && c in Scored(v).categories && d in Scored(v).categories
    requires exists i :: i in c.inputs && i.criterionId == id
    requires exists i :: i in d.inputs && i.criterionId == id
    ensures c.blockId == d.blockId
  {
    hide Scored, Publishable, CanonicalSchema, Linked, ObservationSchema, StandardSchema, DistinctSequences;
    var b := DeclaringBlock(fold, v, c, id);
    var e := DeclaringBlock(fold, v, d, id);
    OneOwner(fold, v.snapshot, b, e, id);
  }

  lemma DeclaringBlock(fold: string -> string, v: ValidatedObservation, c: CategoryScore, id: string) returns (k: nat)
    requires Evaluation(fold, v) && c in Scored(v).categories && exists i :: i in c.inputs && i.criterionId == id
    ensures k < |v.snapshot.blocks| && v.snapshot.blocks[k].id == c.blockId && v.snapshot.blocks[k].HasCriterion(id)
  {
    hide Scored, Publishable, CanonicalSchema, Linked, ObservationSchema, StandardSchema, DistinctSequences;
    var o := ScoredOrigin(v, c);
    var inputs := Inputs(fold, v.observation, v.snapshot, v.transcript);
    var b := BlocksOf(v)[o.blockId];
    assert CategoryGrounded(inputs.Turns(), b, o);
    var i :| i in o.inputs && i.criterionId == id;
    assert InputGrounded(b, o, i);
    k :| 0 <= k < |v.snapshot.blocks| && v.snapshot.blocks[k] == b;
  }

  lemma {:induction false} ExplicitKeyOrigin(cs: seq<CategoryScore>, k: (string, int))
    requires k in Assembler.ExplicitKeys(cs)
    ensures exists c :: c in cs && exists i :: i in c.inputs && i.criterionId == k.0
  {
    var front, last := cs[..|cs| - 1], cs[|cs| - 1];
    assert cs == front + [last];
    if k in Assembler.ExplicitKeys(front) {
      ExplicitKeyOrigin(front, k);
    } else {
      var j :| 0 <= j < |last.inputs| && InputKeys(last.inputs)[j] == k;
      assert last.inputs[j] in last.inputs && last in cs;
    }
  }

  /** The explicit inputs of an evaluation repeat only inside a category. */
  lemma {:induction false} ExplicitDistinct(fold: string -> string, v: ValidatedObservation, cs: seq<CategoryScore>)
    requires Evaluation(fold, v) && cs <= Scored(v).categories
    requires forall c :: c in cs ==> NoRepeats(InputKeys(c.inputs))
    ensures NoRepeats(Assembler.ExplicitKeys(cs))
  {
    hide Scored, Evaluation, NoRepeats;
    if cs != [] {
      var front, last := cs[..|cs| - 1], cs[|cs| - 1];
      assert cs == front + [last];
      KnownCategories(fold, v);
      assert forall c :: c in cs ==> c in Scored(v).categories;
      ExplicitDistinct(fold, v, front);
      forall k | k in Assembler.ExplicitKeys(front) ensures k !in InputKeys(last.inputs) {
        ExplicitKeyOrigin(front, k);
        var c :| c in front && exists i :: i in c.inputs && i.criterionId == k.0;
        if k in InputKeys(last.inputs) {
          var j :| 0 <= j < |last.inputs| && InputKeys(last.inputs)[j] == k;
          assert last.inputs[j] in last.inputs;
          InputOwner(fold, v, c, last, k.0);
          PrefixBlocks(fold, v, cs, c);
        }
      }
      NoRepeatsConcat(Assembler.ExplicitKeys(front), InputKeys(last.inputs));
    } else {
      NothingExplicit();
    }
  }

  lemma NothingExplicit()
    ensures NoRepeats(Assembler.ExplicitKeys([]))
  {
  }

  lemma PrefixBlocks(fold: string -> string, v: ValidatedObservation, cs: seq<CategoryScore>, c: CategoryScore)
    requires Evaluation(fold, v) && cs <= Scored(v).categories && cs != [] && c in cs[..|cs| - 1]
    ensures c.blockId != cs[|cs| - 1].blockId
  {
    hide Scored, Trusted, Publishable, CanonicalSchema, Linked;
    var j :| 0 <= j < |cs| - 1 && cs[j] == c;
    var ids := BlockIdsOf(Scored(v).categories);
    assert ids[j] != ids[|cs| - 1];
  }

  // ----- what the pipeline stores

  /** The stored evaluation; one that does not apply is flagged as too short, and keeps its outcome fields. */
  ghost function StoredOf(redact: string -> string, version: Version, v: ValidatedObservation): Assembler.StoredEvaluation
    requires CategoriesKnown(v) && CanonicalSchema(Scored(v)) && Linked(BlocksOf(v), Scored(v))
  {
    var canonical := Reported(redact, version, v);
    Assembler.StoredEvaluation(
      v.observation.status == NotApplicable, canonical, Some(canonical.weightedTotal), Some(canonical.passingScore), Some(canonical.passed))
  }

  /** The stored plan; its items carry the session's scenario if the agent may practise it. */
  ghost function StoredPlan(redact: string -> string, v: ValidatedObservation, authorized: bool, scenario: nat): seq<ReportItem>
    requires CategoriesKnown(v)
  {
    Filed(PlanItems(redact, v), if authorized then Some(scenario) else None)
  }

  /** All that the pipeline stores for a session can be assembled with these rows. */
  ghost predicate Reports(redact: string -> string, version: Version, rows: seq<Assembler.Row>, v: ValidatedObservation,
                          authorized: bool, scenario: nat, mode: Assembler.Mode)
    requires CategoriesKnown(v) && CanonicalSchema(Scored(v)) && Linked(BlocksOf(v), Scored(v))
  {
    Assembler.Assembles(
      rows, StoredOf(redact, version, v), CoachingOf(redact, version, v).blocks, StoredPlan(redact, v, authorized, scenario), scenario, mode)
  }

  /** The transcript as the pipeline hands it to the evaluation: numbered by position. */
  function Heard(rows: seq<Assembler.Row>): (r: seq<Turn>)
    ensures |r| == |rows| && forall i :: 0 <= i < |r| ==> r[i] == Turn(Some(i), Some(rows[i].speaker), Some(rows[i].text), None)
  {
    seq(|rows|, (i: nat) requires i < |rows| => Turn(Some(i), Some(rows[i].speaker), Some(rows[i].text), None))
  }

  /** Every quotation stands word for word in the stored entry of its number, and every technique cites stored entries. */
  ghost predicate Verbatim(index: map<int, Assembler.Row>, o: Observation) {
    && (forall c :: c in o.categories ==> forall e :: e in c.evidence ==> Assembler.Attested(index, e))
    && Assembler.TechniquesRefer(index, o.applied)
  }

  ghost predicate AllListed(o: Observation) {
    forall c :: c in o.categories ==> forall f :: f in c.violations ==> f.id in c.failedCriteria
  }

  // ----- one category

  /** A grounded category refers to stored entries as soon as its evidence does. */
  lemma {:induction false} CategoryRefersExactly(fold: string -> string, v: ValidatedObservation, index: map<int, Assembler.Row>,
                              o: CategoryObservation, c: CategoryScore)
    requires Evaluation(fold, v) && o in v.observation.categories && Carries(c, o)
    ensures Assembler.CategoryRefers(index, c) <==>
      && NoRepeats(o.failedCriteria) && NoRepeats(EvidenceKeys(o.evidence))
      && forall e :: e in o.evidence ==> Assembler.Attested(index, e)
  {
    hide Scored, Publishable, CanonicalSchema, Linked, ObservationSchema, StandardSchema, DistinctSequences, NoRepeats, FailedGrounded;
    var k := Inputs(fold, v.observation, v.snapshot, v.transcript);
    assert CategoryGrounded(k.Turns(), BlocksOf(v)[o.blockId], o);
    assert FindingsEvidenced(o.strengths, o.evidence) && FindingsEvidenced(o.violations, o.evidence);
    assert forall i :: i in o.inputs ==> InputGrounded(BlocksOf(v)[o.blockId], o, i);
    if forall e :: e in o.evidence ==> Assembler.Attested(index, e) {
      assert EvidenceSequences(o.evidence) <= index.Keys;
    }
  }

  // ----- the recommendations

  lemma {:induction false} QuotedIsSourced(index: map<int, Assembler.Row>, o: CategoryObservation, e: Evidence, r: Recommendation)
    requires Quotes(r, o, e) && Assembler.Attested(index, e)
    ensures Assembler.Sourced(index, r)
  {
    hide Contains;
  }

  /** Recommendations refer to stored entries as soon as the evidence they quote does. */
  lemma {:induction false} RecommendationsSourced(fold: string -> string, redact: string -> string, version: Version, v: ValidatedObservation,
                               index: map<int, Assembler.Row>, r: Recommendation)
    requires Evaluation(fold, v) && (version.number.Some? ==> 1 <= version.number.value)
    requires Verbatim(index, v.observation) && r in RankedFor(redact, version, v)
    ensures Assembler.Sourced(index, r)
  {
    hide Scored, Trusted, Publishable, CanonicalSchema, Linked, Ranked, Quotes, Assembler.Attested, Assembler.Sourced;
    RecommendationsGrounded(fold, redact, version, v, r);
    var o, e :| o in v.observation.categories && Quotes(r, o, e);
    assert e in o.evidence by { QuotesFrom(r, o, e); }
    QuotedIsSourced(index, o, e, r);
  }

  lemma QuotesFrom(r: Recommendation, o: CategoryObservation, e: Evidence)
    requires Quotes(r, o, e)
    ensures e in o.evidence
  {
  }

  // ----- the coaching blocks

  lemma BlockItems(rs: seq<Recommendation>, b: CoachingBlock)
    requires b in Report(GroupBy(rs)).blocks
    ensures forall r :: r in b.recommendations ==> r in rs
  {
    hide GroupBy, SortBy, Partitions;
    var made := ToBlocks(GroupBy(rs));
    assert b in multiset(Report(GroupBy(rs)).blocks) && b in made;
    var i :| 0 <= i < |made| && made[i] == b;
    BlockOfGroup(rs, i);
  }

  lemma {:induction false} CoachingRefersExactly(fold: string -> string, redact: string -> string, version: Version, v: ValidatedObservation,
                              index: map<int, Assembler.Row>)
    requires Evaluation(fold, v) && (version.number.Some? ==> 1 <= version.number.value)
    requires Verbatim(index, v.observation) && v.observation.status == Evaluated
    ensures Assembler.CoachingRefers(index, CoachingOf(redact, version, v).blocks)
      <==> CoachingAccepted(CoachingOf(redact, version, v).blocks)
  {
    hide Scored, Trusted, Publishable, CanonicalSchema, Linked, RankedFor, GroupBy, Report, BlockCoached, NoRepeats;
    hide Assembler.Sourced, Verbatim, EnrichAll;
    var rs := RankedFor(redact, version, v);
    CoachingFaithful(fold, redact, version, v);
    var blocks := CoachingOf(redact, version, v).blocks;
    forall b | b in blocks ensures forall r :: r in b.recommendations ==> Assembler.Sourced(index, r) {
      BlockItems(rs, b);
      forall r | r in b.recommendations ensures Assembler.Sourced(index, r) {
        RecommendationsSourced(fold, redact, version, v, index, r);
      }
    }
  }

  // ----- the evaluation section

  lemma {:induction false} CategoriesReferExactly(fold: string -> string, v: ValidatedObservation, index: map<int, Assembler.Row>)
    requires Evaluation(fold, v)
    ensures (forall c :: c in Scored(v).categories ==> Assembler.CategoryRefers(index, c)) <==>
      forall o :: o in v.observation.categories ==>
        && NoRepeats(o.failedCriteria) && NoRepeats(EvidenceKeys(o.evidence))
        && forall e :: e in o.evidence ==> Assembler.Attested(index, e)
  {
    hide Scored, Evaluation, NoRepeats, Assembler.Attested, Assembler.CategoryRefers, Carries;
    KnownCategories(fold, v);
    forall c | c in Scored(v).categories
      ensures exists o :: o in v.observation.categories && Carries(c, o)
    {
      var o := ScoredOrigin(v, c);
    }
    forall o | o in v.observation.categories
      ensures exists c :: c in Scored(v).categories && Carries(c, o)
    {
      var c := ScoredOf(v, o);
    }
    forall c, o | c in Scored(v).categories && o in v.observation.categories && Carries(c, o)
      ensures Assembler.CategoryRefers(index, c) <==>
        && NoRepeats(o.failedCriteria) && NoRepeats(EvidenceKeys(o.evidence))
        && forall e :: e in o.evidence ==> Assembler.Attested(index, e)
    {
      CategoryRefersExactly(fold, v, index, o, c);
    }
  }

  /** The same, with the techniques. */
  lemma {:induction false} QuotesReferExactly(fold: string -> string, v: ValidatedObservation, index: map<int, Assembler.Row>)
    requires Evaluation(fold, v)
    ensures (forall c :: c in Scored(v).categories ==> Assembler.CategoryRefers(index, c)) && Assembler.TechniquesRefer(index, Scored(v).applied)
      <==> (forall o :: o in v.observation.categories ==> NoRepeats(o.failedCriteria) && NoRepeats(EvidenceKeys(o.evidence)))
           && Verbatim(index, v.observation)
  {
    hide Scored, Trusted, Publishable, CanonicalSchema, Linked, NoRepeats, Assembler.Attested, Assembler.CategoryRefers, Assembler.TechniquesRefer;
    CategoriesReferExactly(fold, v, index);
    SameTechniques(v);
  }

  lemma InputsDistinct(fold: string -> string, v: ValidatedObservation)
    requires Evaluation(fold, v) && forall o :: o in v.observation.categories ==> AllCite(o.violations) && Unambiguous(o)
    ensures NoRepeats(Assembler.ExplicitKeys(Scored(v).categories))
  {
    hide Scored, Trusted, Publishable, CanonicalSchema, Linked;
    forall c | c in Scored(v).categories ensures NoRepeats(InputKeys(c.inputs)) {
      var o := ScoredOrigin(v, c);
      assert Unambiguous(o);
    }
    ExplicitDistinct(fold, v, Scored(v).categories);
  }

  lemma RecommendationsRefer(fold: string -> string, redact: string -> string, version: Version, v: ValidatedObservation,
                             index: map<int, Assembler.Row>)
    requires Evaluation(fold, v) && (version.number.Some? ==> 1 <= version.number.value) && v.observation.status == Evaluated
    requires Verbatim(index, v.observation)
    ensures var canonical := Reported(redact, version, v);
      forall r :: r in canonical.recommendations ==> r.blockId in BlockIdsOf(canonical.categories) && Assembler.Sourced(index, r)
  {
    hide Scored, Trusted, Publishable, CanonicalSchema, Linked, RankedFor, Assembler.Sourced, Verbatim;
    ReferencesResolve(fold, redact, version, v, RecommendationBlock);
    var canonical := Reported(redact, version, v);
    forall r | r in canonical.recommendations ensures Assembler.Sourced(index, r) {
      RecommendationsSourced(fold, redact, version, v, index, r);
    }
  }

  lemma RecommendedDistinct(fold: string -> string, redact: string -> string, version: Version, v: ValidatedObservation)
    requires Evaluation(fold, v) && v.observation.status == Evaluated
    requires forall o :: o in v.observation.categories ==> AllCite(o.violations)
    ensures NoRepeats(RecommendationKeys(Reported(redact, version, v).recommendations))
      <==> forall o :: o in v.observation.categories ==> Unambiguous(o)
  {
    hide Scored, Evaluation, RankedFor, Unambiguous, NoRepeats, AllCite;
    RecommendationRepeats(fold, redact, version, v);
  }

  /** The evaluation section's references hold exactly when nothing is repeated and everything is quoted verbatim. */
  lemma CanonicalRefersExactly(fold: string -> string, redact: string -> string, version: Version, v: ValidatedObservation,
                               index: map<int, Assembler.Row>)
    requires Evaluation(fold, v) && (version.number.Some? ==> 1 <= version.number.value) && v.observation.status == Evaluated
    ensures forall o :: o in v.observation.categories ==> AllCite(o.violations)
    ensures Assembler.CanonicalRefers(index, Reported(redact, version, v))
      <==> NothingRepeated(v) && Verbatim(index, v.observation)
  {
    hide Scored, Trusted, Publishable, CanonicalSchema, Linked, RankedFor, Unambiguous, NoRepeats, AllCite, CategoryPasses;
    hide Assembler.Attested, Assembler.Sourced, Assembler.CategoryRefers, Assembler.TechniquesRefer, Verbatim;
    ObservedViolationsCite(fold, v);
    QuotesReferExactly(fold, v, index);
    RecommendedDistinct(fold, redact, version, v);
    if NothingRepeated(v) && Verbatim(index, v.observation) {
      InputsDistinct(fold, v);
      RecommendationsRefer(fold, redact, version, v, index);
    }
  }

  lemma SameTechniques(v: ValidatedObservation)
    requires CategoriesKnown(v)
    ensures Scored(v).applied == v.observation.applied && Scored(v).status == v.observation.status
  {
    hide Ordered, ScoreCategories, WeightedTotal;
  }

  lemma ReportedSchema(fold: string -> string, redact: string -> string, version: Version, v: ValidatedObservation)
    requires Evaluation(fold, v) && (version.number.Some? ==> 1 <= version.number.value)
    ensures var e := StoredOf(redact, version, v);
      CanonicalSchema(e.canonical) && Assembler.OutcomeInRange(e)
  {
    hide Scored, Trusted, Publishable, Linked, Ranked, RecommendationSchema, CategoryScoreSchema, AppliedSchema, MissedSchema;
    var canonical := Reported(redact, version, v);
    forall r | r in canonical.recommendations ensures RecommendationSchema(r) {
      RecommendationsGrounded(fold, redact, version, v, r);
    }
    assert forall r :: r in Scored(v).recommendations ==> RecommendationSchema(r);
  }

  lemma ScoresPresent(fold: string -> string, v: ValidatedObservation)
    requires Evaluation(fold, v)
    ensures Scored(v).categories != []
    ensures forall c :: c in Scored(v).categories ==> (c.rawScore.Some? <==> v.observation.status == Evaluated)
  {
    hide Publishable, CanonicalSchema, Linked, StandardSchema, Grounded, DistinctSequences, TechniquesDisjoint, CategorySchema;
    hide Scored, BlockMap, PenaltyTotal;
    var o := v.observation.categories[0];
    var c := ScoredOf(v, o);
    forall c | c in Scored(v).categories ensures c.rawScore.Some? <==> v.observation.status == Evaluated {
      var o := ScoredOrigin(v, c);
    }
  }

  // ----- the whole report

  lemma SlugNotBlank(s: string)
    requires IsSlug(s)
    ensures Strip(s) != ""
  {
    assert !IsSpace(s[0]) && StripLeft(s) == s && StripRight(s) == s;
  }

  /** Plan items name slugs. */
  lemma PlanNotBlank(fold: string -> string, redact: string -> string, v: ValidatedObservation)
    requires Evaluation(fold, v) && v.observation.status == Evaluated
    ensures forall i :: 0 <= i < |PlanItems(redact, v)| ==>
      var item := PlanItems(redact, v)[i];
      Strip(item.blockId) != "" && (item.criterionId.Some? ==> Strip(item.criterionId.value) != "")
  {
    hide WeightedTotal, BlockMap, SortBy, ScoreCategories, Strip, IsSlug, Trusted, Publishable, Linked;
    hide LearningPlan.AllItems, LearningPlan.Targets, LearningPlan.Criteria, LearningPlan.Item;
    var ranked := LearningPlan.RankedCategories(v.snapshot, Scored(v));
    var items := PlanItems(redact, v);
    assert items == LearningPlan.AllItems(redact, BlocksOf(v), ranked);
    assert forall c :: c in ranked <==> c in multiset(ranked);
    forall i: nat | i < |items|
      ensures Strip(items[i].blockId) != "" && (items[i].criterionId.Some? ==> Strip(items[i].criterionId.value) != "")
    {
      var k, t := LearningPlan.ItemOrigin(redact, BlocksOf(v), ranked, i);
      var c, target := ranked[k], LearningPlan.Targets(ranked[k])[t];
      ItemBlock(redact, BlocksOf(v), c, target);
      assert c in ranked && c in Scored(v).categories && CategoryScoreSchema(c);
      SlugNotBlank(c.blockId);
      if target.Some? {
        assert target in LearningPlan.Targets(c);
        TargetsAre(c, target.value);
        CriteriaAre(c, target.value);
        SlugNotBlank(target.value);
      }
    }
  }

  /** The stored plan is assembled exactly when its items are accepted and every violation was listed as failed. */
  lemma PlanAssembledExactly(fold: string -> string, redact: string -> string, v: ValidatedObservation, authorized: bool, scenario: nat)
    requires Evaluation(fold, v) && v.observation.status == Evaluated
    ensures PlanAssembled(StoredPlan(redact, v, authorized, scenario), Scored(v).categories, scenario)
      <==> PlanAccepted(PlanItems(redact, v)) && AllListed(v.observation)
  {
    hide Scored, Trusted, Publishable, CanonicalSchema, Linked, PlanAccepted, PlanKnown, PlanItems, AllListed;
    ListedExactly(fold, redact, v);
    PlanNotBlank(fold, redact, v);
    ScoresPresent(fold, v);
    FiledExactly(PlanItems(redact, v), Scored(v).categories, if authorized then Some(scenario) else None, scenario);
  }

  lemma ListedExactly(fold: string -> string, redact: string -> string, v: ValidatedObservation)
    requires Evaluation(fold, v) && v.observation.status == Evaluated
    ensures PlanKnown(PlanItems(redact, v), Scored(v).categories) <==> AllListed(v.observation)
  {
    hide Scored, Trusted, Publishable, CanonicalSchema, Linked, PlanKnown, PlanItems;
    PlanKnownExactly(redact, v);
    SameLists(v);
  }

  /** An evaluation is reported exactly when it was evaluated, the stored rows are sound, nothing is repeated, no
      criterion is coached twice, every failing block names a criterion, every violation is listed as failed, and
      every quotation stands word for word in the entry of its number. */
  lemma {:induction false} AssembledExactly(fold: string -> string, redact: string -> string, version: Version,
                         rows: seq<Assembler.Row>, v: ValidatedObservation, authorized: bool, scenario: nat, mode: Assembler.Mode)
    requires Evaluation(fold, v) && (version.number.Some? ==> 1 <= version.number.value)
    ensures Reports(redact, version, rows, v, authorized, scenario, mode)
      <==> && mode == Assembler.CanonicalMode && v.observation.status == Evaluated
           && Assembler.RowsSound(rows) && Reportable(v) && AllListed(v.observation)
           && Verbatim(Assembler.IndexOf(rows), v.observation)
  {
    hide Scored, Trusted, Publishable, CanonicalSchema, Linked, Reportable, AllListed, Verbatim, NothingRepeated, AllCite;
    hide PayloadPasses, CoachingAccepted, PlanAccepted, PlanAssembled, StoredPlan, PlanItems, CoachingOf, Reported;
    hide Assembler.RowsSound, Assembler.CanonicalRefers, Assembler.CoachingRefers, Assembler.IndexOf;
    StoredFields(fold, redact, version, v);
    if v.observation.status == Evaluated {
      SectionsExactly(fold, redact, version, v, Assembler.IndexOf(rows));
      ReportedSchema(fold, redact, version, v);
      PlanAssembledExactly(fold, redact, v, authorized, scenario);
    }
  }

  // ----- what a report guarantees

  /** The stored entry with this number has this speaker, and this text in it. */
  ghost predicate StoredQuote(rows: seq<Assembler.Row>, n: int, speaker: Option<string>, excerpt: Option<string>) {
    exists r :: r in rows && r.sequence == n
      && (speaker.Some? ==> r.speaker == speaker.value)
      && (excerpt.Some? ==> exists before: string, after: string :: r.text == before + excerpt.value + after)
  }

  lemma {:induction false} StoredIsReferred(rows: seq<Assembler.Row>, n: int, speaker: Option<string>, excerpt: Option<string>)
    requires Assembler.RowsSound(rows)
    ensures Assembler.Refers(Assembler.IndexOf(rows), n, speaker, excerpt) <==> StoredQuote(rows, n, speaker, excerpt)
  {
    hide Contains, Assembler.IndexOf, Assembler.RowValid;
    Assembler.IndexMeaning(rows);
    if excerpt.Some? {
      forall r: Assembler.Row
        ensures Contains(excerpt.value, r.text) <==> exists before: string, after: string :: r.text == before + excerpt.value + after
      {
        ContainsMeaning(excerpt.value, r.text);
      }
    }
  }

  /** A report has sound rows: distinct ids and numbers, texts that are not blank, and known speakers. */
  lemma {:induction false} ReportedRows(rows: seq<Assembler.Row>)
    requires Assembler.RowsSound(rows)
    ensures forall i, j :: 0 <= i < j < |rows| ==> rows[i].id != rows[j].id && rows[i].sequence != rows[j].sequence
    ensures forall r :: r in rows ==> !AllSpace(r.text) && 0 <= r.sequence && (r.speaker == "agent" || r.speaker == "debtor")
  {
    forall i, j | 0 <= i < j < |rows| ensures rows[i].id != rows[j].id && rows[i].sequence != rows[j].sequence {
      assert Assembler.Ids(rows)[i] != Assembler.Ids(rows)[j] && Assembler.Numbers(rows)[i] != Assembler.Numbers(rows)[j];
    }
    forall r | r in rows ensures !AllSpace(r.text) {
      BlankMeaning(r.text);
    }
  }

  /** Whatever is reported as evaluated or not applicable: every quotation and every source of its categories and recommendations is in
      the stored entry of its number, every number cited is stored, and no block, criterion, evidence, input or recommendation repeats. */
  lemma {:induction false} ReportedMeans(rows: seq<Assembler.Row>, e: Assembler.StoredEvaluation, blocks: seq<CoachingBlock>, items: seq<ReportItem>,
                                         scenario: nat, mode: Assembler.Mode)
    requires Assembler.Assembles(rows, e, blocks, items, scenario, mode)
    requires mode == Assembler.CanonicalMode || mode == Assembler.NotApplicableMode
    ensures forall c, x :: c in e.canonical.categories && x in c.evidence ==>
      StoredQuote(rows, x.sequence, Some(x.speaker), Some(x.excerpt))
    ensures forall c, f :: c in e.canonical.categories && f in c.strengths + c.violations ==>
      forall n :: n in f.sequences ==> StoredQuote(rows, n, None, None)
    ensures forall c, i :: c in e.canonical.categories && i in c.inputs ==> StoredQuote(rows, i.sequence, None, None)
    ensures forall r :: r in e.canonical.recommendations ==>
      StoredQuote(rows, r.sequence, r.sourceSpeaker, r.sourceExcerpt) && exists c :: c in e.canonical.categories && c.blockId == r.blockId
    ensures forall t :: t in e.canonical.applied ==> forall n :: n in t.sequences ==> StoredQuote(rows, n, None, None)
    ensures forall c :: c in e.canonical.categories ==> forall i, j :: 0 <= i < j < |c.failedCriteria| ==> c.failedCriteria[i] != c.failedCriteria[j]
    ensures forall i, j :: 0 <= i < j < |e.canonical.categories| ==> e.canonical.categories[i].blockId != e.canonical.categories[j].blockId
  {
    hide Assembler.RowsSound, Assembler.IndexOf, CanonicalSchema, StoredQuote, Assembler.CoachingRefers, PlanAssembled, Assembler.Refers;
    var index := Assembler.IndexOf(rows);
    forall n, speaker: Option<string>, excerpt: Option<string>
      ensures Assembler.Refers(index, n, speaker, excerpt) <==> StoredQuote(rows, n, speaker, excerpt)
    {
      StoredIsReferred(rows, n, speaker, excerpt);
    }
    forall n ensures n in index <==> StoredQuote(rows, n, None, None) {
      KnownNumber(index, n);
    }
    var cs := e.canonical.categories;
    forall c | c in cs ensures Assembler.CategoryRefers(index, c) {
    }
    forall i, j | 0 <= i < j < |cs| ensures cs[i].blockId != cs[j].blockId {
      assert BlockIdsOf(cs)[i] != BlockIdsOf(cs)[j];
    }
    forall r | r in e.canonical.recommendations ensures exists c :: c in cs && c.blockId == r.blockId {
      var k :| 0 <= k < |cs| && BlockIdsOf(cs)[k] == r.blockId;
      assert cs[k] in cs;
    }
  }

  lemma KnownNumber(index: map<int, Assembler.Row>, n: int)
    ensures Assembler.Refers(index, n, None, None) <==> n in index
  {
  }

  /** What is coached in a report: distinct blocks, each with its own recommendations, each criterion once, every source stored. */
  lemma {:induction false} ReportedCoaching(rows: seq<Assembler.Row>, blocks: seq<CoachingBlock>)
    requires Assembler.RowsSound(rows)
    ensures Assembler.CoachingRefers(Assembler.IndexOf(rows), blocks) <==>
      && (forall i, j :: 0 <= i < j < |blocks| ==> blocks[i].blockId != blocks[j].blockId)
      && forall b :: b in blocks ==>
           && (forall i, j :: 0 <= i < j < |b.recommendations| ==> b.recommendations[i].criterionId != b.recommendations[j].criterionId)
           && forall r :: r in b.recommendations ==> r.blockId == b.blockId && StoredQuote(rows, r.sequence, r.sourceSpeaker, r.sourceExcerpt)
  {
    hide Assembler.RowsSound, Assembler.IndexOf, StoredQuote, Assembler.Refers;
    var index := Assembler.IndexOf(rows);
    forall r: Recommendation ensures Assembler.Sourced(index, r) <==> StoredQuote(rows, r.sequence, r.sourceSpeaker, r.sourceExcerpt) {
      StoredIsReferred(rows, r.sequence, r.sourceSpeaker, r.sourceExcerpt);
    }
    assert NoRepeats(CoachingIds(blocks)) <==> forall i, j :: 0 <= i < j < |blocks| ==> blocks[i].blockId != blocks[j].blockId;
    forall b: CoachingBlock
      ensures NoRepeats(CriteriaOf(b.recommendations)) <==>
        forall i, j :: 0 <= i < j < |b.recommendations| ==> b.recommendations[i].criterionId != b.recommendations[j].criterionId
    {
    }
  }

  // ----- what is left when entries are numbered by position

  lemma {:induction false} HeardIndex(rows: seq<Assembler.Row>, n: nat)
    requires n <= |rows|
    ensures forall s :: s in Indexed(Heard(rows), n) <==> 0 <= s < n
    ensures forall s :: 0 <= s < n ==> Indexed(Heard(rows), n)[s] == Heard(rows)[s]
  {
    if n > 0 {
      HeardIndex(rows, n - 1);
    }
  }

  lemma {:induction false} StoredIndex(rows: seq<Assembler.Row>)
    requires forall i :: 0 <= i < |rows| ==> rows[i].sequence == i
    ensures forall s :: s in Assembler.IndexOf(rows) <==> 0 <= s < |rows|
    ensures forall s :: 0 <= s < |rows| ==> Assembler.IndexOf(rows)[s] == rows[s]
  {
    var index := Assembler.IndexOf(rows);
    assert forall i :: 0 <= i < |rows| ==> Assembler.Numbers(rows)[i] == i;
    Assembler.IndexMeaning(rows);
    forall s | 0 <= s < |rows| ensures s in index && index[s] == rows[s] {
      assert rows[s] in rows;
    }
  }

  /** The excerpt stands as it is in the entry at its position. */
  predicate InPlace(rows: seq<Assembler.Row>, e: Evidence) {
    0 <= e.sequence < |rows| && Contains(e.excerpt, rows[e.sequence].text)
  }

  lemma {:induction false} AttestedExactly(fold: string -> string, v: ValidatedObservation, rows: seq<Assembler.Row>, o: CategoryObservation, e: Evidence)
    requires Trusted(fold, v) && v.transcript == Heard(rows)
    requires forall i :: 0 <= i < |rows| ==> rows[i].sequence == i
    requires o in v.observation.categories && e in o.evidence
    ensures 0 <= e.sequence < |rows|
    ensures Assembler.Attested(Assembler.IndexOf(rows), e) <==> InPlace(rows, e)
  {
    hide ObservationSchema, StandardSchema, DistinctSequences, Contains;
    var turns := Inputs(fold, v.observation, v.snapshot, v.transcript).Turns();
    HeardIndex(rows, |rows|);
    StoredIndex(rows);
    assert CategoryGrounded(turns, BlocksOf(v)[o.blockId], o);
    assert turns[e.sequence] == Heard(rows)[e.sequence] && SpeakerMatches(turns[e.sequence], e);
  }

  lemma {:induction false} TechniquesFound(fold: string -> string, v: ValidatedObservation, rows: seq<Assembler.Row>)
    requires Trusted(fold, v) && v.transcript == Heard(rows)
    requires forall i :: 0 <= i < |rows| ==> rows[i].sequence == i
    ensures Assembler.TechniquesRefer(Assembler.IndexOf(rows), v.observation.applied)
  {
    hide ObservationSchema, StandardSchema, DistinctSequences;
    HeardIndex(rows, |rows|);
    StoredIndex(rows);
  }

  /** When the stored numbers are the positions 0, 1, 2, ..., speakers and references always agree, and what is left
      to ask is that each excerpt stands in its entry as it is, whitespace included. */
  lemma {:induction false} VerbatimExactly(fold: string -> string, v: ValidatedObservation, rows: seq<Assembler.Row>)
    requires Trusted(fold, v) && v.transcript == Heard(rows)
    requires forall i :: 0 <= i < |rows| ==> rows[i].sequence == i
    ensures Verbatim(Assembler.IndexOf(rows), v.observation) <==>
      forall o :: o in v.observation.categories ==> forall e :: e in o.evidence ==> InPlace(rows, e)
  {
    hide Trusted, InPlace, Assembler.Attested, Assembler.IndexOf, Assembler.TechniquesRefer;
    TechniquesFound(fold, v, rows);
    forall o, e | o in v.observation.categories && e in o.evidence
      ensures Assembler.Attested(Assembler.IndexOf(rows), e) <==> InPlace(rows, e)
    {
      AttestedExactly(fold, v, rows, o, e);
    }
  }

  lemma StoredFields(fold: string -> string, redact: string -> string, version: Version, v: ValidatedObservation)
    requires Evaluation(fold, v)
    ensures var e := StoredOf(redact, version, v);
      && e.canonical.status == v.observation.status && e.canonical.categories == Scored(v).categories != []
      && forall c :: c in e.canonical.categories ==> (c.rawScore.Some? <==> v.observation.status == Evaluated)
  {
    hide Scored, Trusted, Publishable, CanonicalSchema, Linked, RankedFor;
    ScoresPresent(fold, v);
    SameTechniques(v);
  }

  /** The three sections together, on the references and the repetitions. */
  lemma {:induction false} SectionsExactly(fold: string -> string, redact: string -> string, version: Version, v: ValidatedObservation,
                        index: map<int, Assembler.Row>)
    requires Evaluation(fold, v) && (version.number.Some? ==> 1 <= version.number.value) && v.observation.status == Evaluated
    ensures (Assembler.CanonicalRefers(index, Reported(redact, version, v))
             && Assembler.CoachingRefers(index, CoachingOf(redact, version, v).blocks) && PlanAccepted(PlanItems(redact, v)))
      <==> Reportable(v) && Verbatim(index, v.observation)
  {
    hide Scored, Trusted, Publishable, CanonicalSchema, Linked, Reportable, Verbatim, NothingRepeated, AllCite;
    hide PayloadPasses, CoachingAccepted, PlanAccepted, PlanItems, CoachingOf, Reported, Assembler.CanonicalRefers, Assembler.CoachingRefers;
    CanonicalRefersExactly(fold, redact, version, v, index);
    PayloadAcceptedExactly(fold, redact, version, v);
    ReportValidExactly(fold, redact, version, v);
    if Verbatim(index, v.observation) {
      CoachingRefersExactly(fold, redact, version, v, index);
    }
  }

  /** The evaluation of a session that is too short is stored, and no report can be made of it. */
  lemma {:induction false} ShortSessionNeverReported(fold: string -> string, redact: string -> string, version: Version,
                                  snapshot: Standard, transcript: seq<Turn>, rows: seq<Assembler.Row>,
                                  authorized: bool, scenario: nat, mode: Assembler.Mode)
    requires StandardSchema(snapshot) && Publishable(fold, snapshot) && DistinctSequences(transcript)
    requires version.number.Some? ==> 1 <= version.number.value
    ensures var v := ValidatedObservation(EvaluationEngine.NothingObserved(snapshot), snapshot, transcript);
      Evaluation(fold, v) && !Reports(redact, version, rows, v, authorized, scenario, mode)
  {
    hide Scored, Trusted, Publishable, CanonicalSchema, Linked, Evaluation, Reportable, Reports;
    hide Assembler.RowsSound, Verbatim, StandardSchema, DistinctSequences;
    var v := ValidatedObservation(EvaluationEngine.NothingObserved(snapshot), snapshot, transcript);
    EvaluationEngine.ShortSessionUsable(fold, snapshot, transcript);
    EvaluationHolds(fold, v);
    AssembledExactly(fold, redact, version, rows, v, authorized, scenario, mode);
  }
}
