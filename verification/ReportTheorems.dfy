/** Which evaluations get through all three sections of the report: identity, coaching and plan. */
module ReportTheorems {
  import opened Rubric
  import opened Sorting
  import opened StandardValidator
  import opened ObservationValidator
  import opened ScoreCalculator
  import opened ScoringTheorems
  import opened Recommendations
  import opened RecommendationTheorems
  import opened Coaching
  import LearningPlan
  import opened ReportPayload
  import opened PipelineTheorems
  import opened PayloadTheorems

  // ----- the coaching section

  lemma NamedInBlock(rs: seq<Recommendation>, r: Recommendation)
    ensures NameOf(false, r) in NamesOf(false, rs) <==> r.criterionId in CriteriaOf(OfBlock(rs, r.blockId))
  {
    var mine := OfBlock(rs, r.blockId);
    if NameOf(false, r) in NamesOf(false, rs) {
      var i :| 0 <= i < |rs| && NamesOf(false, rs)[i] == NameOf(false, r);
      assert rs[i] in mine;
      var j :| 0 <= j < |mine| && mine[j] == rs[i];
      assert CriteriaOf(mine)[j] == r.criterionId;
    }
    if r.criterionId in CriteriaOf(mine) {
      var j :| 0 <= j < |mine| && CriteriaOf(mine)[j] == r.criterionId;
      assert mine[j] in mine;
      var i :| 0 <= i < |rs| && rs[i] == mine[j];
      assert NamesOf(false, rs)[i] == NameOf(false, r);
    }
  }

  /** No block's criterion is recommended twice exactly when no block's own list repeats a criterion. */
  lemma {:induction false} NamesByBlock(rs: seq<Recommendation>)
    ensures NoRepeats(NamesOf(false, rs)) <==> forall id :: NoRepeats(CriteriaOf(OfBlock(rs, id)))
  {
    if rs != [] {
      var front, r := rs[..|rs| - 1], rs[|rs| - 1];
      assert rs == front + [r];
      NamesByBlock(front);
      NamedInBlock(front, r);
      assert NamesOf(false, rs) == NamesOf(false, front) + [NameOf(false, r)];
      NoRepeatsConcat(NamesOf(false, front), [NameOf(false, r)]);
      forall id
        ensures NoRepeats(CriteriaOf(OfBlock(rs, id))) <==>
          NoRepeats(CriteriaOf(OfBlock(front, id))) && (id == r.blockId ==> r.criterionId !in CriteriaOf(OfBlock(front, id)))
      {
        OneMoreOfBlock(front, r, id);
      }
    }
  }

  lemma OneMoreOfBlock(front: seq<Recommendation>, r: Recommendation, id: string)
    ensures NoRepeats(CriteriaOf(OfBlock(front + [r], id))) <==>
      NoRepeats(CriteriaOf(OfBlock(front, id))) && (id == r.blockId ==> r.criterionId !in CriteriaOf(OfBlock(front, id)))
  {
    FilterLast(front, id, r);
    var mine := OfBlock(front, id);
    if id == r.blockId {
      assert CriteriaOf(mine + [r]) == CriteriaOf(mine) + [r.criterionId];
      NoRepeatsConcat(CriteriaOf(mine), [r.criterionId]);
    } else {
      assert mine + [] == mine;
    }
  }

  lemma {:induction false} NoGroupNoItems(groups: seq<Group>, id: string)
    requires ItemsFor(groups, id) != []
    ensures exists i :: 0 <= i < |groups| && groups[i].blockId == id
  {
    if groups[0].blockId != id {
      NoGroupNoItems(groups[1..], id);
      var i :| 0 <= i < |groups[1..]| && groups[1..][i].blockId == id;
      assert groups[i + 1].blockId == id;
    }
  }

  lemma BlockOfGroup(rs: seq<Recommendation>, i: nat)
    requires i < |GroupBy(rs)|
    ensures ToBlocks(GroupBy(rs))[i].recommendations == OfBlock(rs, GroupBy(rs)[i].blockId)
    ensures BlockCoached(ToBlocks(GroupBy(rs))[i]) <==> NoRepeats(CriteriaOf(OfBlock(rs, GroupBy(rs)[i].blockId)))
  {
    GroupByPartitions(rs);
    ItemsOfGroup(GroupBy(rs), i);
  }

  lemma BlockIdsDistinct(rs: seq<Recommendation>)
    ensures NoRepeats(CoachingIds(Report(GroupBy(rs)).blocks))
  {
    hide GroupBy, SortBy;
    var made, blocks := ToBlocks(GroupBy(rs)), Report(GroupBy(rs)).blocks;
    GroupByPartitions(rs);
    assert NoRepeats(CoachingIds(made));
    var id := (b: CoachingBlock) => b.blockId;
    MapPermutation(id, made, blocks);
    assert Map(id, made) == CoachingIds(made) && Map(id, blocks) == CoachingIds(blocks);
    NoRepeatsPermutation(CoachingIds(made), CoachingIds(blocks));
  }

  /** The coaching of any list is accepted exactly when no criterion of a block is recommended twice. */
  lemma CoachedExactly(rs: seq<Recommendation>)
    ensures CoachingAccepted(Report(GroupBy(rs)).blocks) <==> NoRepeats(NamesOf(false, rs))
  {
    hide GroupBy, SortBy, BlockCoached, Partitions;
    var groups, made, blocks := GroupBy(rs), ToBlocks(GroupBy(rs)), Report(GroupBy(rs)).blocks;
    BlockIdsDistinct(rs);
    NamesByBlock(rs);
    assert forall b :: b in blocks <==> b in multiset(blocks);
    assert forall b :: b in made <==> b in multiset(made);
    forall i | 0 <= i < |groups|
      ensures BlockCoached(made[i]) <==> NoRepeats(CriteriaOf(OfBlock(rs, groups[i].blockId)))
    {
      BlockOfGroup(rs, i);
    }
    if CoachingAccepted(blocks) {
      forall id ensures NoRepeats(CriteriaOf(OfBlock(rs, id))) {
        if OfBlock(rs, id) != [] {
          OfBlockInGroups(rs, id);
          var i :| 0 <= i < |groups| && groups[i].blockId == id;
          assert made[i] in made;
        }
      }
    }
  }

  lemma OfBlockInGroups(rs: seq<Recommendation>, id: string)
    requires OfBlock(rs, id) != []
    ensures exists i :: 0 <= i < |GroupBy(rs)| && GroupBy(rs)[i].blockId == id
  {
    GroupByPartitions(rs);
    NoGroupNoItems(GroupBy(rs), id);
  }

  /** The coaching section of an evaluation. */
  ghost function CoachingOf(redact: string -> string, version: Version, v: ValidatedObservation): CoachingReport
    requires CategoriesKnown(v) && CanonicalSchema(Scored(v)) && Linked(BlocksOf(v), Scored(v))
  {
    if v.observation.status == NotApplicable then CoachingReport([], [], [], 0, true)
    else Report(GroupBy(EnrichAll(v.snapshot, version, RankedFor(redact, version, v))))
  }

  /** Nothing the category asks to be recommended names a criterion twice. */
  ghost predicate NamedOnce(o: CategoryObservation) {
    if o.inputs != [] then NoRepeats(KeysBy(false, o.inputs))
    else
      && NoRepeats(LearningPlan.ViolationIds(o.violations)) && ListedOnce(o.strengths + o.violations, o.failedCriteria)
      && forall f :: f in o.violations ==> f.id !in o.failedCriteria
  }

  lemma NamedOnceIsUnambiguous(o: CategoryObservation)
    requires AllCite(o.violations) && NamedOnce(o)
    ensures Unambiguous(o)
  {
    if o.inputs == [] {
      var ids := LearningPlan.ViolationIds(o.violations);
      assert forall i, j :: 0 <= i < j < |o.violations| ==> ids[i] != ids[j];
    } else {
      assert forall i, j :: 0 <= i < j < |o.inputs| ==> KeysBy(false, o.inputs)[i] != KeysBy(false, o.inputs)[j];
    }
  }

  /** The inputs made for violations name each violation. */
  lemma ViolationNames(findings: seq<Finding>)
    requires AllCite(findings)
    ensures NoRepeats(KeysBy(false, FromViolations(findings))) <==> NoRepeats(LearningPlan.ViolationIds(findings))
    ensures forall k :: k in KeysBy(false, FromViolations(findings)) <==> k.1 == 0 && exists f :: f in findings && f.id == k.0
  {
    ViolationInputs(findings);
    var keys, ids := KeysBy(false, FromViolations(findings)), LearningPlan.ViolationIds(findings);
    assert forall i :: 0 <= i < |keys| ==> keys[i] == (ids[i], 0) && findings[i].id == ids[i];
    SamePattern(keys, ids);
    forall f | f in findings ensures (f.id, 0) in keys {
      var i :| 0 <= i < |findings| && findings[i] == f;
      assert keys[i] == (f.id, 0);
    }
  }

  lemma SynthesisedNames(o: CategoryObservation)
    requires AllCite(o.strengths + o.violations) && AllCite(o.violations)
    ensures
      NoRepeats(KeysBy(false, FromViolations(o.violations) + FromAllFailed(o.strengths + o.violations, o.failedCriteria)))
      <==> && NoRepeats(LearningPlan.ViolationIds(o.violations)) && ListedOnce(o.strengths + o.violations, o.failedCriteria)
           && forall f :: f in o.violations ==> f.id !in o.failedCriteria
  {
    hide NoRepeats, ListedOnce, FromViolations, FromAllFailed, AllCite, KeysBy;
    var findings := o.strengths + o.violations;
    var first, second := FromViolations(o.violations), FromAllFailed(findings, o.failedCriteria);
    var keys, more := KeysBy(false, first), KeysBy(false, second);
    ViolationNames(o.violations);
    FailedKeys(false, findings, o.failedCriteria);
    assert KeysBy(false, first + second) == keys + more;
    NoRepeatsConcat(keys, more);
    forall f | f in o.violations ensures (f.id, 0) in keys && ((f.id, 0) in more <==> f.id in o.failedCriteria) {
      assert f in findings;
      assert Cites(findings, f.id);
    }
  }

  lemma NamesOfInputs(o: CategoryObservation, c: CategoryScore)
    requires Carries(c, o) && AllCite(Findings(c)) && AllCite(o.violations)
    ensures NoRepeats(KeysBy(false, CategoryInputs(c))) <==> NamedOnce(o)
  {
    if o.inputs == [] {
      assert Findings(c) == o.strengths + o.violations;
      SynthesisedNames(o);
    }
  }

  /** The ranked list names a criterion of a block twice exactly when some category's inputs do. */
  lemma CoachingNames(fold: string -> string, redact: string -> string, version: Version, v: ValidatedObservation)
    requires Evaluation(fold, v) && v.observation.status == Evaluated
    ensures forall c :: c in Scored(v).categories ==> AllCite(Findings(c))
    ensures CoachingAccepted(CoachingOf(redact, version, v).blocks)
      <==> forall c :: c in Scored(v).categories ==> NoRepeats(KeysBy(false, CategoryInputs(c)))
  {
    hide Scored, Trusted, Publishable, CanonicalSchema, Ranked, CategoryInputs, CategoryLinked, CoachingAccepted, Report, GroupBy, EnrichAll;
    ScoredCites(fold, v);
    CoachingFaithful(fold, redact, version, v);
    CoachedExactly(RankedFor(redact, version, v));
    RankedKeys(false, redact, version, v.snapshot, Scored(v));
  }

  /** The section's validator accepts the coaching exactly when every category names its criteria once. */
  lemma CoachingAcceptedExactly(fold: string -> string, redact: string -> string, version: Version, v: ValidatedObservation)
    requires Evaluation(fold, v)
    ensures CoachingAccepted(CoachingOf(redact, version, v).blocks)
      <==> (v.observation.status == Evaluated ==> forall o :: o in v.observation.categories ==> NamedOnce(o))
  {
    hide Trusted, Publishable, CanonicalSchema, Linked, Scored, NamedOnce, CategoryInputs, NoRepeats;
    if v.observation.status == Evaluated {
      ObservedCite(fold, v);
      CoachingNames(fold, redact, version, v);
      NamedCategories(fold, v);
    } else {
      NothingCoached();
    }
  }

  lemma NothingCoached()
    ensures CoachingAccepted([])
  {
  }

  lemma ObservedCite(fold: string -> string, v: ValidatedObservation)
    requires Evaluation(fold, v)
    ensures forall o :: o in v.observation.categories ==> AllCite(o.violations)
    ensures forall c :: c in Scored(v).categories ==> AllCite(Findings(c))
  {
    hide Scored, Publishable, Linked;
    ObservedViolationsCite(fold, v);
    ScoredCites(fold, v);
  }

  lemma NamedCategories(fold: string -> string, v: ValidatedObservation)
    requires Evaluation(fold, v) && forall o :: o in v.observation.categories ==> AllCite(o.violations)
    requires forall c :: c in Scored(v).categories ==> AllCite(Findings(c))
    ensures (forall c :: c in Scored(v).categories ==> NoRepeats(KeysBy(false, CategoryInputs(c))))
      <==> forall o :: o in v.observation.categories ==> NamedOnce(o)
  {
    hide Scored, Evaluation, CategoryInputs, NamedOnce;
    assert CategoriesKnown(v) by { KnownCategories(fold, v); }
    forall c | c in Scored(v).categories
      ensures exists o :: o in v.observation.categories && (NoRepeats(KeysBy(false, CategoryInputs(c))) <==> NamedOnce(o))
    {
      var o := ScoredOrigin(v, c);
      NamesOfInputs(o, c);
    }
    forall o | o in v.observation.categories
      ensures exists c :: c in Scored(v).categories && (NoRepeats(KeysBy(false, CategoryInputs(c))) <==> NamedOnce(o))
    {
      var c := ScoredOf(v, o);
      NamesOfInputs(o, c);
    }
  }

  // ----- all three sections

  ghost function PlanItems(redact: string -> string, v: ValidatedObservation): seq<LearningPlan.PlanItem>
    requires CategoriesKnown(v)
  {
    LearningPlan.PlanOf(redact, Scored(v), v.snapshot).items
  }

  /** The evaluation, its coaching and its plan pass the validators of the report. */
  ghost predicate ReportValid(redact: string -> string, version: Version, v: ValidatedObservation)
    requires CategoriesKnown(v) && CanonicalSchema(Scored(v)) && Linked(BlocksOf(v), Scored(v))
  {
    && (forall e :: PayloadPasses(Entries(v), Reported(redact, version, v), e))
    && CoachingAccepted(CoachingOf(redact, version, v).blocks)
    && PlanAccepted(PlanItems(redact, v))
  }

  /** In every category no failed criterion and no evidence repeats, and of an evaluated session
      no criterion is named twice and no failing block goes without one. */
  ghost predicate Reportable(v: ValidatedObservation)
    requires CategoriesKnown(v)
  {
    && (forall o :: o in v.observation.categories ==> NoRepeats(o.failedCriteria) && NoRepeats(EvidenceKeys(o.evidence)))
    && (v.observation.status == Evaluated ==>
          && (forall o :: o in v.observation.categories ==> NamedOnce(o))
          && (forall c :: c in Scored(v).categories ==> !FailsWithoutCriterion(c)))
  }

  /** The validators of the report accept exactly the reportable evaluations. */
  lemma ReportValidExactly(fold: string -> string, redact: string -> string, version: Version, v: ValidatedObservation)
    requires Evaluation(fold, v) && (version.number.Some? ==> 1 <= version.number.value)
    ensures ReportValid(redact, version, v) <==> Reportable(v)
  {
    hide Trusted, Publishable, Linked, CanonicalSchema, Scored, NamedOnce, Unambiguous, PayloadPasses, CoachingAccepted;
    hide PlanAccepted, FailsWithoutCriterion, PlanItems, CoachingOf, Reported, NoRepeats;
    ObservedCite(fold, v);
    PayloadAcceptedExactly(fold, redact, version, v);
    CoachingAcceptedExactly(fold, redact, version, v);
    PlanPart(fold, redact, v);
    forall o | o in v.observation.categories && NamedOnce(o) ensures Unambiguous(o) {
      NamedOnceIsUnambiguous(o);
    }
  }

  lemma PlanPart(fold: string -> string, redact: string -> string, v: ValidatedObservation)
    requires Evaluation(fold, v)
    ensures PlanAccepted(PlanItems(redact, v))
      <==> (v.observation.status == Evaluated ==> forall c :: c in Scored(v).categories ==> !FailsWithoutCriterion(c))
  {
    hide Trusted, Publishable, CanonicalSchema, Linked, FailsWithoutCriterion, WeightedTotal, Ordered, ScoreCategories;
    if v.observation.status == Evaluated {
      PlanAcceptedExactly(redact, v);
    } else {
      assert PlanItems(redact, v) == [];
    }
  }

  // ----- the assembler's demand on the plan

  lemma CriteriaAre(c: CategoryScore, id: string)
    ensures id in LearningPlan.Criteria(c) <==> id in c.failedCriteria || exists f :: f in c.violations && f.id == id
  {
    hide LearningPlan.SortedSet;
    var ids := LearningPlan.ViolationIds(c.violations);
    if id in ids {
      var j :| 0 <= j < |ids| && ids[j] == id;
      assert c.violations[j] in c.violations;
    }
    if f :| f in c.violations && f.id == id {
      var j :| 0 <= j < |c.violations| && c.violations[j] == f;
      assert ids[j] in ids;
    }
  }

  lemma TargetsAre(c: CategoryScore, id: string)
    ensures Some(id) in LearningPlan.Targets(c) <==> id in LearningPlan.Criteria(c)
  {
    hide LearningPlan.Criteria;
    var criteria := LearningPlan.Criteria(c);
    if id in criteria {
      var i :| 0 <= i < |criteria| && criteria[i] == id;
      assert LearningPlan.Targets(c)[i] == Some(id);
    }
  }

  lemma {:induction false} ItemsReach(redact: string -> string, blocks: map<string, Block>, cs: seq<CategoryScore>, c: CategoryScore, t: nat) returns (p: nat)
    requires c in cs && t < |LearningPlan.Targets(c)|
    ensures p < |LearningPlan.AllItems(redact, blocks, cs)|
    ensures LearningPlan.AllItems(redact, blocks, cs)[p] == LearningPlan.Item(redact, blocks, c, LearningPlan.Targets(c)[t])
  {
    hide LearningPlan.Targets, LearningPlan.Item;
    var front, last := cs[..|cs| - 1], cs[|cs| - 1];
    assert cs == front + [last];
    if c in front {
      p := ItemsReach(redact, blocks, front, c, t);
    } else {
      p := |LearningPlan.AllItems(redact, blocks, front)| + t;
    }
  }

  /** The plan practises exactly the failed and the violated criteria, and the failed blocks that name none. */
  lemma PlanPractises(redact: string -> string, canonical: Canonical, snapshot: Standard, item: LearningPlan.PlanItem)
    requires canonical.status == Evaluated
    ensures item in LearningPlan.PlanOf(redact, canonical, snapshot).items <==>
      exists c, target: Option<string> :: Practises(redact, canonical, snapshot, c, target, item)
  {
    hide BlockMap, SortBy, LearningPlan.AllItems, LearningPlan.Targets, LearningPlan.Item, Practised;
    var blocks, ranked := BlockMap(snapshot.blocks), LearningPlan.RankedCategories(snapshot, canonical);
    var items := LearningPlan.PlanOf(redact, canonical, snapshot).items;
    assert items == LearningPlan.AllItems(redact, blocks, ranked);
    assert forall c :: c in ranked <==> c in multiset(ranked);
    assert forall c :: c in canonical.categories <==> c in multiset(canonical.categories);
    if item in items {
      var p :| 0 <= p < |items| && items[p] == item;
      var k, t := LearningPlan.ItemOrigin(redact, blocks, ranked, p);
      PractisedTargets(ranked[k], LearningPlan.Targets(ranked[k])[t]);
      assert ranked[k] in ranked;
      assert Practises(redact, canonical, snapshot, ranked[k], LearningPlan.Targets(ranked[k])[t], item);
    }
    if c, target: Option<string> :| Practises(redact, canonical, snapshot, c, target, item) {
      PractisedTargets(c, target);
      var t :| 0 <= t < |LearningPlan.Targets(c)| && LearningPlan.Targets(c)[t] == target;
      assert c in ranked;
      var p := ItemsReach(redact, blocks, ranked, c, t);
    }
  }

  /** A criterion that failed or was violated, or none when the block failed and there is no such criterion. */
  predicate Practised(c: CategoryScore, target: Option<string>) {
    if target.Some? then target.value in c.failedCriteria || exists f :: f in c.violations && f.id == target.value
    else !c.passed && c.failedCriteria == [] && c.violations == []
  }

  predicate Practises(redact: string -> string, canonical: Canonical, snapshot: Standard, c: CategoryScore, target: Option<string>,
                      item: LearningPlan.PlanItem)
  {
    && c in canonical.categories && Practised(c, target)
    && item == LearningPlan.Item(redact, BlockMap(snapshot.blocks), c, target)
  }

  lemma PractisedTargets(c: CategoryScore, target: Option<string>)
    ensures target in LearningPlan.Targets(c) <==> Practised(c, target)
  {
    LearningPlan.NoCriteria(c);
    if target.Some? {
      TargetsAre(c, target.value);
      CriteriaAre(c, target.value);
    } else if Practised(c, None) {
      assert LearningPlan.Targets(c)[0] == None;
    }
  }

  /** Every violation of the category is also a failed criterion. */
  ghost predicate ViolationsFailed(c: CategoryScore) {
    forall f :: f in c.violations ==> f.id in c.failedCriteria
  }

  lemma KnownItem(redact: string -> string, blocks: map<string, Block>, cs: seq<CategoryScore>, c: CategoryScore, target: Option<string>)
    requires NoRepeats(BlockIdsOf(cs)) && c in cs
    ensures ItemKnown(FailedByBlock(cs), LearningPlan.Item(redact, blocks, c, target))
      <==> (target.Some? ==> target.value in c.failedCriteria)
  {
    hide FailedByBlock;
    FailedOfCategory(cs, c);
    ItemBlock(redact, blocks, c, target);
  }

  /** The assembler knows every criterion of the plan exactly when every violation was listed as failed. */
  lemma PlanKnownExactly(redact: string -> string, v: ValidatedObservation)
    requires CategoriesKnown(v) && v.observation.status == Evaluated && NoRepeats(BlockIdsOf(Scored(v).categories))
    ensures PlanKnown(PlanItems(redact, v), Scored(v).categories)
      <==> forall c :: c in Scored(v).categories ==> ViolationsFailed(c)
  {
    hide WeightedTotal, BlockMap, SortBy, ItemKnown, FailedByBlock, ScoreCategories;
    hide LearningPlan.AllItems, LearningPlan.Targets, LearningPlan.Criteria, LearningPlan.Item;
    var ranked, cs := LearningPlan.RankedCategories(v.snapshot, Scored(v)), Scored(v).categories;
    var items := PlanItems(redact, v);
    assert items == LearningPlan.AllItems(redact, BlocksOf(v), ranked);
    assert forall c :: c in ranked <==> c in multiset(ranked);
    assert forall c :: c in cs <==> c in multiset(cs);
    if forall c :: c in cs ==> ViolationsFailed(c) {
      forall p: nat | p < |items| ensures ItemKnown(FailedByBlock(cs), items[p]) {
        var k, t := LearningPlan.ItemOrigin(redact, BlocksOf(v), ranked, p);
        assert ranked[k] in ranked && LearningPlan.Targets(ranked[k])[t] in LearningPlan.Targets(ranked[k]);
        var target := LearningPlan.Targets(ranked[k])[t];
        if target.Some? {
          TargetsAre(ranked[k], target.value);
          CriteriaAre(ranked[k], target.value);
        }
        KnownItem(redact, BlocksOf(v), cs, ranked[k], target);
      }
    }
    if PlanKnown(items, cs) {
      forall c, f | c in cs && f in c.violations ensures f.id in c.failedCriteria {
        TargetsAre(c, f.id);
        CriteriaAre(c, f.id);
        var t :| 0 <= t < |LearningPlan.Targets(c)| && LearningPlan.Targets(c)[t] == Some(f.id);
        assert c in ranked;
        var p := ItemsReach(redact, BlocksOf(v), ranked, c, t);
        assert ItemKnown(FailedByBlock(cs), items[p]);
        KnownItem(redact, BlocksOf(v), cs, c, Some(f.id));
      }
    }
  }

  /** Together: a session with a violation is reported only if its category came with explicit inputs. */
  lemma ViolationsNeedInputs(fold: string -> string, redact: string -> string, version: Version, v: ValidatedObservation, o: CategoryObservation)
    requires Evaluation(fold, v) && (version.number.Some? ==> 1 <= version.number.value) && v.observation.status == Evaluated
    requires ReportValid(redact, version, v) && PlanKnown(PlanItems(redact, v), Scored(v).categories)
    requires o in v.observation.categories && o.violations != []
    ensures o.inputs != []
  {
    ReportValidExactly(fold, redact, version, v);
    PlanKnownExactly(redact, v);
    var c := ScoredOf(v, o);
    assert ViolationsFailed(c) && NamedOnce(o);
    assert o.violations[0] in c.violations && o.violations[0] in o.violations;
  }
}
