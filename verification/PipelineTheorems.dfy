/** What holds across the evaluation chain: scoring, recommending, coaching, planning, reporting. */
module PipelineTheorems {
  import opened Rubric
  import opened Sorting
  import opened Text
  import opened StandardValidator
  import opened ObservationValidator
  import opened ScoreCalculator
  import opened ScoringTheorems
  import opened Ranking
  import opened Recommendations
  import opened RecommendationTheorems
  import opened Coaching
  import LearningPlan
  import opened ReportPayload

  /** Everything the chain has established once scoring is done. */
  ghost predicate Evaluation(fold: string -> string, v: ValidatedObservation) {
    && Trusted(fold, v) && Publishable(fold, v.snapshot)
    && CategoriesKnown(v) && CanonicalSchema(Scored(v)) && Linked(BlocksOf(v), Scored(v))
    && NoRepeats(BlockIdsOf(Scored(v).categories))
  }

  lemma PermutedIdsDistinct(cs: seq<CategoryObservation>, os: seq<CategoryObservation>)
    requires multiset(cs) == multiset(os)
    requires forall i, j :: 0 <= i < j < |cs| ==> cs[i].blockId != cs[j].blockId
    ensures forall i, j :: 0 <= i < j < |os| ==> os[i].blockId != os[j].blockId
  {
    NoRepeatsPermutation(cs, os);
    forall i, j | 0 <= i < j < |os| ensures os[i].blockId != os[j].blockId {
      assert os[i] in multiset(cs) && os[j] in multiset(cs);
      var a :| 0 <= a < |cs| && cs[a] == os[i];
      var b :| 0 <= b < |cs| && cs[b] == os[j];
      assert a != b;
    }
  }

  lemma ScoredIds(v: ValidatedObservation)
    requires CategoriesKnown(v)
    ensures |Scored(v).categories| == |Ordered(v)|
    ensures forall i :: 0 <= i < |Ordered(v)| ==> Scored(v).categories[i].blockId == Ordered(v)[i].blockId
  {
    hide SortBy, WeightedTotal, Contribution, Penalized;
    var os := Ordered(v);
    assert forall o :: o in os ==> o in multiset(os);
    BlockMapIds(v.snapshot.blocks);
    var cs := ScoreCategories(BlocksOf(v), os);
    forall i | 0 <= i < |os| ensures cs[i].blockId == os[i].blockId {
      assert cs[i] == ScoreCategory(BlocksOf(v)[os[i].blockId], os[i]);
      assert os[i] in os;
    }
  }

  lemma OrderedDistinct(v: ValidatedObservation)
    requires CategoriesKnown(v) && CategoriesDistinct(v.observation)
    ensures NoRepeats(BlockIdsOf(Scored(v).categories))
  {
    hide SortBy, Scored;
    PermutedIdsDistinct(v.observation.categories, Ordered(v));
    ScoredIds(v);
  }

  lemma EvaluationHolds(fold: string -> string, v: ValidatedObservation)
    requires Trusted(fold, v) && Publishable(fold, v.snapshot)
    ensures Evaluation(fold, v)
  {
    hide Scored, Publishable, CanonicalSchema, Linked;
    BuilderIsTotal(fold, v);
    OrderedDistinct(v);
  }

  ghost function RankedFor(redact: string -> string, version: Version, v: ValidatedObservation): seq<Recommendation>
    requires CategoriesKnown(v) && CanonicalSchema(Scored(v)) && Linked(BlocksOf(v), Scored(v))
  {
    Ranked(redact, version, v.snapshot, Scored(v))
  }

  // ----- ranking keeps blocks together

  lemma SameBlockSameCategory(cs: seq<CategoryScore>, c: CategoryScore, d: CategoryScore)
    requires NoRepeats(BlockIdsOf(cs)) && c in cs && d in cs && c.blockId == d.blockId
    ensures c == d
  {
    var i :| 0 <= i < |cs| && cs[i] == c;
    var j :| 0 <= j < |cs| && cs[j] == d;
    assert BlockIdsOf(cs)[i] == BlockIdsOf(cs)[j];
  }

  /** The rank of the block a recommendation belongs to. */
  lemma CandidateRank(redact: string -> string, version: Version, blocks: map<string, Block>, cs: seq<CategoryScore>, x: Candidate) returns (c: CategoryScore)
    requires forall d :: d in cs ==> AllCite(Findings(d)) && CategoryLinked(blocks, d)
    requires forall id :: id in blocks ==> blocks[id].id == id
    requires x in AllCandidates(redact, version, blocks, cs)
    ensures c in cs && c.blockId in blocks && x.rank.block == RankOf(blocks[c.blockId], c)
    ensures x.recommendation.blockId == c.blockId == x.rank.block.block
  {
    CandidateOrigin(redact, version, blocks, cs, x);
    var d, i :| d in cs && MadeFor(redact, version, blocks, d, i, x);
    c := d;
  }

  lemma CandidatesContiguous(redact: string -> string, version: Version, snapshot: Standard, canonical: Canonical)
    requires CanonicalSchema(canonical) && Linked(BlockMap(snapshot.blocks), canonical) && NoRepeats(BlockIdsOf(canonical.categories))
    ensures Contiguous(Ranked(redact, version, snapshot, canonical))
  {
    hide CandidateLe, CanonicalSchema, RankOf, BlockRankLe;
    var xs := SortedCandidates(redact, version, snapshot, canonical);
    var rs := Ranked(redact, version, snapshot, canonical);
    forall i, j, k | 0 <= i <= j <= k < |rs| && rs[i].blockId == rs[k].blockId
      ensures rs[j].blockId == rs[i].blockId
    {
      var ci := CandidateAt(redact, version, snapshot, canonical, i);
      var cj := CandidateAt(redact, version, snapshot, canonical, j);
      var ck := CandidateAt(redact, version, snapshot, canonical, k);
      SameBlockSameCategory(canonical.categories, ci, ck);
      RanksOrdered(redact, version, snapshot, canonical, i, j);
      RanksOrdered(redact, version, snapshot, canonical, j, k);
      BlockRankAntisymmetric(xs[i].rank.block, xs[j].rank.block);
    }
  }

  lemma CandidateAt(redact: string -> string, version: Version, snapshot: Standard, canonical: Canonical, i: nat) returns (c: CategoryScore)
    requires CanonicalSchema(canonical) && Linked(BlockMap(snapshot.blocks), canonical)
    requires i < |Ranked(redact, version, snapshot, canonical)|
    ensures var xs := SortedCandidates(redact, version, snapshot, canonical);
      && c in canonical.categories && c.blockId in BlockMap(snapshot.blocks)
      && xs[i].rank.block == RankOf(BlockMap(snapshot.blocks)[c.blockId], c)
      && xs[i].recommendation.blockId == c.blockId == xs[i].rank.block.block
  {
    var xs := SortedCandidates(redact, version, snapshot, canonical);
    assert xs[i] in multiset(xs);
    BlockMapIds(snapshot.blocks);
    c := CandidateRank(redact, version, BlockMap(snapshot.blocks), canonical.categories, xs[i]);
  }

  lemma RanksOrdered(redact: string -> string, version: Version, snapshot: Standard, canonical: Canonical, i: nat, j: nat)
    requires CanonicalSchema(canonical) && Linked(BlockMap(snapshot.blocks), canonical)
    requires i <= j < |Ranked(redact, version, snapshot, canonical)|
    ensures var xs := SortedCandidates(redact, version, snapshot, canonical);
      BlockRankLe(xs[i].rank.block, xs[j].rank.block)
  {
    hide CanonicalSchema, CategoryLinked, AllCandidates, SortBy, BlockMap, Unwrap, TotalPreorder;
    var xs := SortedCandidates(redact, version, snapshot, canonical);
    CandidateLePreorder();
    SortBySorted(CandidateLe, AllCandidates(redact, version, BlockMap(snapshot.blocks), canonical.categories));
    assert Sorted(CandidateLe, xs);
    BlockRankTotal(xs[i].rank.block, xs[i].rank.block);
    if i < j {
      assert CandidateLe(xs[i], xs[j]);
    }
  }

  /** How far a block's score is below its passing score; a missing score counts as 0. */
  function Shortfall(b: Block, c: CategoryScore): int {
    var score := if c.penalizedScore.Some? then c.penalizedScore.value else 0;
    if score < b.passingScore then b.passingScore - score else 0
  }

  /** The recommendation before another is for a block further below its passing score; then for one that lost more to
      penalties; then for one displayed earlier; then for one with the smaller id; and inside a block for the smaller
      criterion, and for the earlier place. */
  lemma MostUrgentFirst(redact: string -> string, version: Version, snapshot: Standard, canonical: Canonical, i: nat, j: nat)
    returns (c: CategoryScore, d: CategoryScore)
    requires CanonicalSchema(canonical) && Linked(BlockMap(snapshot.blocks), canonical)
    requires i < j < |Ranked(redact, version, snapshot, canonical)|
    ensures var r, t, blocks := Ranked(redact, version, snapshot, canonical)[i], Ranked(redact, version, snapshot, canonical)[j], BlockMap(snapshot.blocks);
      && c in canonical.categories && d in canonical.categories && c.blockId == r.blockId && d.blockId == t.blockId
      && c.blockId in blocks && d.blockId in blocks
      && var b, e := blocks[c.blockId], blocks[d.blockId];
      && Shortfall(b, c) >= Shortfall(e, d)
      && (Shortfall(b, c) == Shortfall(e, d) ==> c.penaltyTotal >= d.penaltyTotal)
      && (Shortfall(b, c) == Shortfall(e, d) && c.penaltyTotal == d.penaltyTotal ==> b.displayOrder <= e.displayOrder)
      && (Shortfall(b, c) == Shortfall(e, d) && c.penaltyTotal == d.penaltyTotal && b.displayOrder == e.displayOrder ==>
            StrLe(r.blockId, t.blockId))
      && (Shortfall(b, c) == Shortfall(e, d) && c.penaltyTotal == d.penaltyTotal && r.blockId == t.blockId ==>
            StrLe(r.criterionId, t.criterionId) && (r.criterionId == t.criterionId ==> r.sequence <= t.sequence))
  {
    hide CanonicalSchema, Linked, CategoryLinked, AllCandidates, SortBy, BlockMap, ItemRankLe, Shortfall, Ranked, SortedCandidates;
    var xs := SortedCandidates(redact, version, snapshot, canonical);
    c := RankedCandidate(redact, version, snapshot, canonical, i);
    d := RankedCandidate(redact, version, snapshot, canonical, j);
    CandidatesSorted(redact, version, snapshot, canonical);
    assert CandidateLe(xs[i], xs[j]);
    RankNumbers(xs[i].rank, xs[j].rank);
  }

  lemma RankNumbers(a: ItemRank, b: ItemRank)
    requires ItemRankLe(a, b)
    ensures a.block.gap >= b.block.gap
    ensures a.block.gap == b.block.gap ==> a.block.penalty >= b.block.penalty
    ensures a.block.gap == b.block.gap && a.block.penalty == b.block.penalty ==> a.block.order <= b.block.order
    ensures a.block.gap == b.block.gap && a.block.penalty == b.block.penalty && a.block.order == b.block.order ==>
      StrLe(a.block.block, b.block.block)
    ensures a.block == b.block ==> StrLe(a.criterion, b.criterion) && (a.criterion == b.criterion ==> a.sequence <= b.sequence)
  {
    BlockRankTotal(a.block, a.block);
    StrLeTotal(a.criterion, a.criterion);
    StrLeTotal(a.block.block, a.block.block);
  }

  lemma CandidatesSorted(redact: string -> string, version: Version, snapshot: Standard, canonical: Canonical)
    requires CanonicalSchema(canonical) && Linked(BlockMap(snapshot.blocks), canonical)
    ensures Sorted(CandidateLe, SortedCandidates(redact, version, snapshot, canonical))
  {
    hide CanonicalSchema, CategoryLinked, AllCandidates, SortBy, BlockMap;
    CandidateLePreorder();
    SortBySorted(CandidateLe, AllCandidates(redact, version, BlockMap(snapshot.blocks), canonical.categories));
  }

  /** The rank of a candidate, number by number. */
  lemma RankedCandidate(redact: string -> string, version: Version, snapshot: Standard, canonical: Canonical, i: nat) returns (c: CategoryScore)
    requires CanonicalSchema(canonical) && Linked(BlockMap(snapshot.blocks), canonical)
    requires i < |Ranked(redact, version, snapshot, canonical)|
    ensures c in canonical.categories && c.blockId in BlockMap(snapshot.blocks)
    ensures var x, b := SortedCandidates(redact, version, snapshot, canonical)[i], BlockMap(snapshot.blocks)[c.blockId];
      && x.recommendation == Ranked(redact, version, snapshot, canonical)[i] && x.recommendation.blockId == c.blockId
      && x.rank.block.gap == Shortfall(b, c) && x.rank.block.penalty == c.penaltyTotal
      && x.rank.block.order == b.displayOrder && x.rank.block.block == c.blockId
      && x.rank.criterion == x.recommendation.criterionId && x.rank.sequence == x.recommendation.sequence
  {
    hide CanonicalSchema, LinkError, CategoryInputs, SafeText;
    var xs, blocks := SortedCandidates(redact, version, snapshot, canonical), BlockMap(snapshot.blocks);
    assert xs[i] in multiset(xs);
    BlockMapIds(snapshot.blocks);
    CandidateOrigin(redact, version, blocks, canonical.categories, xs[i]);
    var d, input :| d in canonical.categories && MadeFor(redact, version, blocks, d, input, xs[i]);
    c := d;
  }

  // ----- coaching

  lemma EnrichIdentity(redact: string -> string, version: Version, snapshot: Standard, canonical: Canonical, r: Recommendation)
    requires CanonicalSchema(canonical) && Linked(BlockMap(snapshot.blocks), canonical) && StandardSchema(snapshot)
    requires r in Ranked(redact, version, snapshot, canonical)
    ensures Enrich(r, Coaching.BlockOf(snapshot, r.blockId), version) == r
  {
    hide CanonicalSchema, Linked, Ranked, CategoryInputs;
    var c, i, x := RecommendationOrigin(redact, version, snapshot, canonical, r);
    BlockMapIds(snapshot.blocks);
    var b := BlockMap(snapshot.blocks)[c.blockId];
    CandidateNamed(redact, version, b, c, i);
  }

  lemma CandidateNamed(redact: string -> string, version: Version, b: Block, c: CategoryScore, i: RecommendationInput)
    requires BlockSchema(b) && b.HasCriterion(i.criterionId)
    ensures var r := CandidateOf(redact, version, b, c, i).recommendation;
      && r.blockId == b.id && r.blockName == Some(b.category) && b.category != ""
      && r.criterionName.Some? && r.criterionName.value != "" && r.displayOrder == Some(b.displayOrder)
      && r.versionId == version.id && r.versionNumber == version.number
  {
    var criterion := LastCriterion(b.Criteria(), i.criterionId);
    assert CriterionSchema(criterion);
  }

  /** Coaching neither loses, repeats, changes nor reorders a recommendation. */
  lemma CoachingFaithful(fold: string -> string, redact: string -> string, version: Version, v: ValidatedObservation)
    requires Evaluation(fold, v)
    ensures var rs := RankedFor(redact, version, v);
      && EnrichAll(v.snapshot, version, rs) == rs
      && Flatten(GroupBy(rs)) == rs
      && Partitions(GroupBy(rs), rs)
      && Report(GroupBy(rs)).totalMistakes == |rs|
  {
    hide Scored, CanonicalSchema, Linked, GroupBy, Flatten, Partitions, Enrich, Ranked;
    var rs := RankedFor(redact, version, v);
    forall i | 0 <= i < |rs| ensures EnrichAll(v.snapshot, version, rs)[i] == rs[i] {
      EnrichIdentity(redact, version, v.snapshot, Scored(v), rs[i]);
    }
    CandidatesContiguous(redact, version, v.snapshot, Scored(v));
    FlattenGroupBy(rs);
    GroupByPartitions(rs);
  }

  // ----- the learning plan

  lemma SameRank(v: ValidatedObservation, c: CategoryScore)
    requires CategoriesKnown(v) && c in Scored(v).categories
    ensures c.blockId in BlocksOf(v)
    ensures LearningPlan.PlanRank(BlocksOf(v), c) == RankOf(BlocksOf(v)[c.blockId], c)
  {
    var o := ScoredOrigin(v, c);
    BlockMapIds(v.snapshot.blocks);
  }

  /** An earlier recommendation belongs to a category at least as urgent. */
  lemma RecommendationOrder(redact: string -> string, version: Version, v: ValidatedObservation, i: nat, j: nat)
    returns (c: CategoryScore, d: CategoryScore)
    requires CategoriesKnown(v) && CanonicalSchema(Scored(v)) && Linked(BlocksOf(v), Scored(v))
    requires i < j < |RankedFor(redact, version, v)|
    ensures c in Scored(v).categories && c.blockId == RankedFor(redact, version, v)[i].blockId
    ensures d in Scored(v).categories && d.blockId == RankedFor(redact, version, v)[j].blockId
    ensures BlockRankLe(LearningPlan.PlanRank(BlocksOf(v), c), LearningPlan.PlanRank(BlocksOf(v), d))
  {
    hide CanonicalSchema, Linked, Scored, LearningPlan.PlanRank, RankOf, BlockRankLe;
    c := CandidateAt(redact, version, v.snapshot, Scored(v), i);
    d := CandidateAt(redact, version, v.snapshot, Scored(v), j);
    RanksOrdered(redact, version, v.snapshot, Scored(v), i, j);
    SameRank(v, c);
    SameRank(v, d);
  }

  /** An earlier plan item belongs to a category at least as urgent. */
  lemma PlanOrder(redact: string -> string, v: ValidatedObservation, p: nat, q: nat) returns (c: CategoryScore, d: CategoryScore)
    requires CategoriesKnown(v) && v.observation.status == Evaluated
    requires p < q < |LearningPlan.PlanOf(redact, Scored(v), v.snapshot).items|
    ensures c in Scored(v).categories && c.blockId == LearningPlan.PlanOf(redact, Scored(v), v.snapshot).items[p].blockId
    ensures d in Scored(v).categories && d.blockId == LearningPlan.PlanOf(redact, Scored(v), v.snapshot).items[q].blockId
    ensures BlockRankLe(LearningPlan.PlanRank(BlocksOf(v), c), LearningPlan.PlanRank(BlocksOf(v), d))
  {
    hide WeightedTotal, LearningPlan.PlanRank, BlockRankLe, LearningPlan.Item, LearningPlan.Targets, LearningPlan.AllItems;
    var ranked := LearningPlan.RankedCategories(v.snapshot, Scored(v));
    var k, t, l, u := LearningPlan.ItemOrder(redact, BlocksOf(v), ranked, p, q);
    ItemBlock(redact, BlocksOf(v), ranked[k], LearningPlan.Targets(ranked[k])[t]);
    ItemBlock(redact, BlocksOf(v), ranked[l], LearningPlan.Targets(ranked[l])[u]);
    PlanSorted(v, k, l);
    c, d := ranked[k], ranked[l];
  }

  /** The plan too goes from the block furthest below its passing score on, with the same tie-breakers. */
  lemma PlanMostUrgentFirst(redact: string -> string, v: ValidatedObservation, p: nat, q: nat) returns (c: CategoryScore, d: CategoryScore)
    requires CategoriesKnown(v) && v.observation.status == Evaluated
    requires p < q < |LearningPlan.PlanOf(redact, Scored(v), v.snapshot).items|
    ensures var items, blocks := LearningPlan.PlanOf(redact, Scored(v), v.snapshot).items, BlocksOf(v);
      && c in Scored(v).categories && d in Scored(v).categories
      && c.blockId == items[p].blockId && d.blockId == items[q].blockId && c.blockId in blocks && d.blockId in blocks
      && var b, e := blocks[c.blockId], blocks[d.blockId];
      && Shortfall(b, c) >= Shortfall(e, d)
      && (Shortfall(b, c) == Shortfall(e, d) ==> c.penaltyTotal >= d.penaltyTotal)
      && (Shortfall(b, c) == Shortfall(e, d) && c.penaltyTotal == d.penaltyTotal ==> b.displayOrder <= e.displayOrder)
      && (Shortfall(b, c) == Shortfall(e, d) && c.penaltyTotal == d.penaltyTotal && b.displayOrder == e.displayOrder ==>
            StrLe(c.blockId, d.blockId))
  {
    hide Scored, LearningPlan.PlanOf;
    c, d := PlanOrder(redact, v, p, q);
    PlanRankNumbers(v, c);
    PlanRankNumbers(v, d);
  }

  lemma PlanRankNumbers(v: ValidatedObservation, c: CategoryScore)
    requires CategoriesKnown(v) && c in Scored(v).categories
    ensures c.blockId in BlocksOf(v)
    ensures var rank, b := LearningPlan.PlanRank(BlocksOf(v), c), BlocksOf(v)[c.blockId];
      && rank.gap == Shortfall(b, c) && rank.penalty == c.penaltyTotal && rank.order == b.displayOrder && rank.block == c.blockId
  {
    SameRank(v, c);
    var o := ScoredOrigin(v, c);
    BlockMapIds(v.snapshot.blocks);
  }

  /** The plan and the recommendation list, ranked by separate code, agree on the order of their blocks. */
  lemma PlanAgreesWithRanking(fold: string -> string, redact: string -> string, version: Version, v: ValidatedObservation,
                              i: nat, j: nat, p: nat, q: nat)
    requires Evaluation(fold, v) && v.observation.status == Evaluated
    requires i < j < |RankedFor(redact, version, v)|
    requires var items := LearningPlan.PlanOf(redact, Scored(v), v.snapshot).items;
      && p < |items| && q < |items|
      && items[p].blockId == RankedFor(redact, version, v)[i].blockId
      && items[q].blockId == RankedFor(redact, version, v)[j].blockId
      && items[p].blockId != items[q].blockId
    ensures p < q
  {
    hide CanonicalSchema, Linked, Scored, Trusted, Publishable, RankedFor, BlockRankLe, LearningPlan.PlanOf, LearningPlan.PlanRank;
    if q < p {
      var c, d := RecommendationOrder(redact, version, v, i, j);
      var e, f := PlanOrder(redact, v, q, p);
      SameBlockSameCategory(Scored(v).categories, c, f);
      SameBlockSameCategory(Scored(v).categories, d, e);
      BlockRankAntisymmetric(LearningPlan.PlanRank(BlocksOf(v), c), LearningPlan.PlanRank(BlocksOf(v), d));
      PlanRankBlock(BlocksOf(v), c);
      PlanRankBlock(BlocksOf(v), d);
    }
  }

  lemma PlanRankBlock(blocks: map<string, Block>, c: CategoryScore)
    ensures LearningPlan.PlanRank(blocks, c).block == c.blockId
  {
  }

  lemma ItemBlock(redact: string -> string, blocks: map<string, Block>, c: CategoryScore, target: Option<string>)
    ensures LearningPlan.Item(redact, blocks, c, target).blockId == c.blockId
    ensures LearningPlan.Item(redact, blocks, c, target).criterionId == target
  {
  }

  lemma PlanSorted(v: ValidatedObservation, k: nat, l: nat)
    requires CategoriesKnown(v) && k <= l < |LearningPlan.RankedCategories(v.snapshot, Scored(v))|
    ensures var ranked := LearningPlan.RankedCategories(v.snapshot, Scored(v));
      && ranked[k] in Scored(v).categories && ranked[l] in Scored(v).categories
      && BlockRankLe(LearningPlan.PlanRank(BlocksOf(v), ranked[k]), LearningPlan.PlanRank(BlocksOf(v), ranked[l]))
  {
    hide Scored;
    var ranked, cs := LearningPlan.RankedCategories(v.snapshot, Scored(v)), Scored(v).categories;
    LearningPlan.PlanLePreorder(BlocksOf(v));
    SortBySorted(LearningPlan.PlanLe(BlocksOf(v)), cs);
    assert ranked[k] in multiset(ranked) && ranked[l] in multiset(ranked);
    BlockRankTotal(LearningPlan.PlanRank(BlocksOf(v), ranked[k]), LearningPlan.PlanRank(BlocksOf(v), ranked[k]));
    if k < l {
      assert LearningPlan.PlanLe(BlocksOf(v))(ranked[k], ranked[l]);
    }
  }
}
