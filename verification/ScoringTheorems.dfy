/** What the scores mean, over every trusted observation of publishable content. */
module ScoringTheorems {
  import opened Rubric
  import opened Sorting
  import opened Text
  import opened StandardValidator
  import opened ObservationValidator
  import opened ScoreCalculator

  /** Penalized score times weight: what a category is worth, in hundredths of a point. */
  function Points(blocks: map<string, Block>): CategoryObservation -> int {
    (o: CategoryObservation) => if o.blockId in blocks then Penalized(blocks[o.blockId], o) * blocks[o.blockId].weight else 0
  }

  function BlocksOf(v: ValidatedObservation): map<string, Block> { BlockMap(v.snapshot.blocks) }

  function TotalPoints(v: ValidatedObservation): int {
    SumOf(Points(BlocksOf(v)), v.observation.categories)
  }

  lemma ContributionExact(score: int, weight: int)
    ensures Contribution(score, weight) == (score * weight) as real / 100.0
  {
    WholeCents(score, weight);
  }

  lemma PointsOf(blocks: map<string, Block>, o: CategoryObservation)
    requires o.blockId in blocks
    ensures Points(blocks)(o) == Penalized(blocks[o.blockId], o) * blocks[o.blockId].weight
  {
  }

  lemma CategoryContribution(b: Block, o: CategoryObservation)
    ensures ScoreCategory(b, o).contribution == (Penalized(b, o) * b.weight) as real / 100.0
  {
    ContributionExact(Penalized(b, o), b.weight);
  }

  lemma CentsAdd(a: int, b: int)
    ensures a as real / 100.0 + b as real / 100.0 == (a + b) as real / 100.0
  {
  }

  lemma {:induction false} ContributionsExact(blocks: map<string, Block>, os: seq<CategoryObservation>)
    requires forall o :: o in os ==> o.blockId in blocks
    ensures SumContributions(ScoreCategories(blocks, os)) == SumOf(Points(blocks), os) as real / 100.0
  {
    if os != [] {
      var front, last := os[..|os| - 1], os[|os| - 1];
      var scores := ScoreCategories(blocks, os);
      assert scores[..|os| - 1] == ScoreCategories(blocks, front);
      assert SumContributions(scores) == SumContributions(scores[..|os| - 1]) + scores[|os| - 1].contribution;
      ContributionsExact(blocks, front);
      assert SumOf(Points(blocks), os) == SumOf(Points(blocks), front) + Points(blocks)(last) by {
        SumOfAppend(Points(blocks), front, [last]);
        assert front + [last] == os;
      }
      PointsOf(blocks, last);
      CategoryContribution(blocks[last.blockId], last);
      CentsAdd(SumOf(Points(blocks), front), Points(blocks)(last));
    }
  }

  lemma ExactSumExactTotal(cs: seq<CategoryScore>, cents: int)
    requires SumContributions(cs) == cents as real / 100.0
    ensures WeightedTotal(cs) == cents as real / 100.0
  {
    MoneyExact(cents);
  }

  lemma OrderedTotal(v: ValidatedObservation)
    requires CategoriesKnown(v)
    ensures forall o :: o in Ordered(v) ==> o.blockId in BlocksOf(v)
    ensures WeightedTotal(ScoreCategories(BlocksOf(v), Ordered(v))) == TotalPoints(v) as real / 100.0
  {
    hide WeightedTotal, SumContributions;
    assert forall c :: c in Ordered(v) ==> c in multiset(Ordered(v));
    ContributionsExact(BlocksOf(v), Ordered(v));
    SumOfPermutation(Points(BlocksOf(v)), Ordered(v), v.observation.categories);
    ExactSumExactTotal(ScoreCategories(BlocksOf(v), Ordered(v)), TotalPoints(v));
  }

  /** Half-up rounding never changes a value: the total is the exact weighted sum. */
  lemma TotalIsExact(v: ValidatedObservation)
    requires CategoriesKnown(v)
    ensures Scored(v).weightedTotal == TotalPoints(v) as real / 100.0
  {
    hide WeightedTotal;
    OrderedTotal(v);
  }

  // ----- the categories of a grounded observation are the rubric's blocks

  function IdsOf(os: seq<CategoryObservation>): (r: seq<string>)
    ensures |r| == |os| && forall i :: 0 <= i < |r| ==> r[i] == os[i].blockId
  {
    seq(|os|, (i: nat) requires i < |os| => os[i].blockId)
  }

  function BlockIds(bs: seq<Block>): (r: seq<string>)
    ensures |r| == |bs| && forall i :: 0 <= i < |r| ==> r[i] == bs[i].id
  {
    seq(|bs|, (i: nat) requires i < |bs| => bs[i].id)
  }

  lemma {:induction false} DistinctSameMembers(s: seq<string>, t: seq<string>)
    requires forall i, j :: 0 <= i < j < |s| ==> s[i] != s[j]
    requires forall i, j :: 0 <= i < j < |t| ==> t[i] != t[j]
    requires forall x :: x in s <==> x in t
    ensures multiset(s) == multiset(t)
  {
    forall x ensures multiset(s)[x] == multiset(t)[x] {
      DistinctCount(s, x);
      DistinctCount(t, x);
    }
  }

  lemma {:induction false} DistinctCount(s: seq<string>, x: string)
    requires forall i, j :: 0 <= i < j < |s| ==> s[i] != s[j]
    ensures multiset(s)[x] == if x in s then 1 else 0
  {
    if s != [] {
      DistinctCount(s[1..], x);
      MultisetTail(s);
      assert s == [s[0]] + s[1..];
    }
  }

  /** The observation covers each block of publishable content exactly once. */
  lemma CategoriesPermuteBlocks(fold: string -> string, v: ValidatedObservation)
    requires Trusted(fold, v) && Publishable(fold, v.snapshot)
    ensures multiset(IdsOf(v.observation.categories)) == multiset(BlockIds(v.snapshot.blocks))
    ensures CategoriesKnown(v)
    ensures forall b :: b in v.snapshot.blocks ==> BlocksOf(v)[b.id] == b
  {
    hide Publishable, ObservationSchema, StandardSchema, CategoryGrounded, DeclaredTechnique;
    PublishableBlocksDistinct(fold, v.snapshot);
    var k := Inputs(fold, v.observation, v.snapshot, v.transcript);
    var cats, blocks := v.observation.categories, v.snapshot.blocks;
    forall id ensures id in IdsOf(cats) <==> id in BlockIds(blocks) {
      assert id in IdsOf(cats) <==> id in CategoryIds(k.o);
      if id in BlockIds(blocks) {
        var i :| 0 <= i < |blocks| && blocks[i].id == id;
        assert blocks[i].id in k.Blocks();
      }
      if id in k.Blocks() {
        var i :| 0 <= i < |blocks| && blocks[i] == k.Blocks()[id];
        assert BlockIds(blocks)[i] == id;
      }
    }
    DistinctSameMembers(IdsOf(cats), BlockIds(blocks));
    forall c | c in cats ensures c.blockId in BlocksOf(v) {
      assert c.blockId in CategoryIds(k.o);
    }
  }

  lemma {:induction false} SumOverIds(g: string -> int, os: seq<CategoryObservation>)
    ensures SumOf(PerCategory(g), os) == SumOf(g, IdsOf(os))
  {
    if os != [] {
      SumOverIds(g, os[1..]);
      assert IdsOf(os)[1..] == IdsOf(os[1..]);
    }
  }

  lemma {:induction false} SumOverBlocks(g: string -> int, f: Block -> int, bs: seq<Block>)
    requires forall b :: b in bs ==> g(b.id) == f(b)
    ensures SumOf(g, BlockIds(bs)) == SumOf(f, bs)
  {
    if bs != [] {
      SumOverBlocks(g, f, bs[1..]);
      assert BlockIds(bs)[1..] == BlockIds(bs[1..]);
    }
  }

  /** A sum over the rubric's blocks can be taken over the observed categories instead. */
  lemma SumAcross(fold: string -> string, v: ValidatedObservation, g: string -> int, f: Block -> int)
    requires Trusted(fold, v) && Publishable(fold, v.snapshot)
    requires forall b :: b in v.snapshot.blocks ==> g(b.id) == f(b)
    ensures SumOf(PerCategory(g), v.observation.categories) == SumOf(f, v.snapshot.blocks)
  {
    hide Publishable, Trusted;
    CategoriesPermuteBlocks(fold, v);
    SumOverIds(g, v.observation.categories);
    SumOfPermutation(g, IdsOf(v.observation.categories), BlockIds(v.snapshot.blocks));
    SumOverBlocks(g, f, v.snapshot.blocks);
  }

  /** A function of the block id, as a function of the category observed for that block. */
  function PerCategory(g: string -> int): CategoryObservation -> int {
    (o: CategoryObservation) => g(o.blockId)
  }

  function WeightOf(blocks: map<string, Block>): string -> int {
    (id: string) => if id in blocks then blocks[id].weight else 0
  }

  function PassMarkOf(blocks: map<string, Block>): string -> int {
    (id: string) => if id in blocks then blocks[id].passingScore * blocks[id].weight else 0
  }

  /** A parsed category scores between 0 and 100 under a parsed block. */
  lemma PenalizedBounds(b: Block, o: CategoryObservation)
    requires BlockSchema(b) && CategorySchema(o)
    ensures 0 <= Penalized(b, o) <= 100 && PenaltyTotal(b, o.violations) >= 0
    ensures o.rawScore.Some? ==> Penalized(b, o) <= o.rawScore.value
  {
    PenaltyBounds(Occurrences(o.violations), b.penalties);
  }

  lemma KnownBlock(fold: string -> string, v: ValidatedObservation, o: CategoryObservation)
    requires Trusted(fold, v) && Publishable(fold, v.snapshot) && o in v.observation.categories
    ensures o.blockId in BlocksOf(v) && BlockSchema(BlocksOf(v)[o.blockId]) && CategorySchema(o)
  {
    CategoriesPermuteBlocks(fold, v);
  }

  lemma PointsBounds(fold: string -> string, v: ValidatedObservation, o: CategoryObservation)
    requires Trusted(fold, v) && Publishable(fold, v.snapshot) && o in v.observation.categories
    ensures 0 <= Points(BlocksOf(v))(o) <= 100 * PerCategory(WeightOf(BlocksOf(v)))(o)
  {
    hide Publishable, Trusted, PenaltyTotal;
    var blocks := BlocksOf(v);
    KnownBlock(fold, v, o);
    PointsOf(blocks, o);
    PenalizedBounds(blocks[o.blockId], o);
    Scale(Penalized(blocks[o.blockId], o), blocks[o.blockId].weight);
  }

  lemma {:induction false} SumOfBounds<T(!new)>(f: T -> int, cap: T -> int, s: seq<T>)
    requires forall x :: x in s ==> 0 <= f(x) <= 100 * cap(x)
    ensures 0 <= SumOf(f, s) <= 100 * SumOf(cap, s)
  {
    if s != [] {
      assert s[0] in s;
      SumOfBounds(f, cap, s[1..]);
    }
  }

  /** The total lies in [0, 100]. */
  lemma TotalInRange(fold: string -> string, v: ValidatedObservation)
    requires Trusted(fold, v) && Publishable(fold, v.snapshot)
    ensures 0 <= TotalPoints(v) <= 10000
  {
    hide Publishable, Trusted, Points;
    CategoriesPermuteBlocks(fold, v);
    var cap := PerCategory(WeightOf(BlocksOf(v)));
    forall o | o in v.observation.categories ensures 0 <= Points(BlocksOf(v))(o) <= 100 * cap(o) {
      PointsBounds(fold, v, o);
    }
    SumOfBounds(Points(BlocksOf(v)), cap, v.observation.categories);
    SumAcross(fold, v, WeightOf(BlocksOf(v)), (b: Block) => b.weight);
    PublishableWeight(fold, v.snapshot);
  }

  lemma Scale(score: int, weight: int)
    requires 0 <= score <= 100 && 0 <= weight
    ensures 0 <= score * weight <= 100 * weight
  {
  }

  lemma ScaleMonotone(a: int, b: int, weight: int)
    requires a <= b && 0 <= weight
    ensures a * weight <= b * weight
  {
  }

  lemma PublishableWeight(fold: string -> string, s: Standard)
    requires Publishable(fold, s)
    ensures SumOf((b: Block) => b.weight, s.blocks) == 100
  {
  }

  /** When every block passes, the total is at least the weighted mean of the passing scores. */
  lemma PassingTotal(fold: string -> string, v: ValidatedObservation)
    requires Trusted(fold, v) && Publishable(fold, v.snapshot)
    requires forall o :: o in v.observation.categories && o.blockId in BlocksOf(v) ==> Passes(BlocksOf(v)[o.blockId], o)
    ensures TotalPoints(v) >= SumOf((b: Block) => b.passingScore * b.weight, v.snapshot.blocks)
  {
    hide Publishable, Trusted, PenaltyTotal;
    var blocks, os := BlocksOf(v), v.observation.categories;
    CategoriesPermuteBlocks(fold, v);
    var mark := PerCategory(PassMarkOf(blocks));
    forall o | o in os ensures mark(o) <= Points(blocks)(o) {
      KnownBlock(fold, v, o);
      PointsOf(blocks, o);
      assert mark(o) == blocks[o.blockId].passingScore * blocks[o.blockId].weight;
      ScaleMonotone(blocks[o.blockId].passingScore, Penalized(blocks[o.blockId], o), blocks[o.blockId].weight);
    }
    SumOfMonotone(mark, Points(blocks), os);
    SumAcross(fold, v, PassMarkOf(blocks), (b: Block) => b.passingScore * b.weight);
  }

  lemma CategoriesMeetSchema(fold: string -> string, v: ValidatedObservation, c: CategoryScore)
    requires Trusted(fold, v) && Publishable(fold, v.snapshot) && CategoriesKnown(v) && c in Scored(v).categories
    ensures CategoryScoreSchema(c)
  {
    hide Trusted, Publishable, ScoreCategory, CategoryScoreSchema, BlockSchema, CategorySchema, SortBy, WeightedTotal;
    var os := Ordered(v);
    var i :| 0 <= i < |Scored(v).categories| && Scored(v).categories[i] == c;
    assert os[i] in multiset(os);
    KnownBlock(fold, v, os[i]);
    CategoryMeetsSchema(BlocksOf(v)[os[i].blockId], os[i]);
  }

  /** Every field of the result meets the bounds of the output schema. */
  lemma ScoredMeetsSchema(fold: string -> string, v: ValidatedObservation)
    requires Trusted(fold, v) && Publishable(fold, v.snapshot)
    ensures CategoriesKnown(v) && CanonicalSchema(Scored(v))
  {
    hide Publishable, Grounded, DistinctSequences, ScoreCategories, CategoryScoreSchema, Ordered, WeightedTotal, CategorySchema, BlockSchema, TechniquesDisjoint, BlockMap;
    CategoriesPermuteBlocks(fold, v);
    TotalInRange(fold, v);
    TotalIsExact(v);
    forall c | c in Scored(v).categories ensures CategoryScoreSchema(c) {
      CategoriesMeetSchema(fold, v, c);
    }
  }

  lemma CategoryMeetsSchema(b: Block, o: CategoryObservation)
    requires BlockSchema(b) && CategorySchema(o)
    ensures CategoryScoreSchema(ScoreCategory(b, o))
  {
    PenalizedBounds(b, o);
    ContributionExact(Penalized(b, o), b.weight);
    Scale(Penalized(b, o), b.weight);
  }

  // ----- what a scored category is

  /** `c` is what `o` scores under `b`: the raw score less the penalties, at least 0, and its weighted share. */
  predicate ScoredAs(b: Block, o: CategoryObservation, c: CategoryScore) {
    && c.blockId == b.id && c.category == b.category && c.weight == b.weight && c.passingScore == b.passingScore
    && c.rawScore == o.rawScore && c.evidence == o.evidence && c.strengths == o.strengths && c.violations == o.violations
    && c.failedCriteria == o.failedCriteria && c.inputs == o.inputs
    && if o.rawScore.None? then c.penalizedScore.None? && c.penaltyTotal == 0 && c.contribution == 0.0 && !c.passed
       else
         && c.penaltyTotal == PenaltyTotal(b, o.violations)
         && c.penalizedScore == Some(if o.rawScore.value >= c.penaltyTotal then o.rawScore.value - c.penaltyTotal else 0)
         && c.contribution == (c.penalizedScore.value * b.weight) as real / 100.0
         && (c.passed <==> c.penalizedScore.value >= b.passingScore)
  }

  lemma CategoryScored(b: Block, o: CategoryObservation)
    requires o.blockId == b.id
    ensures ScoredAs(b, o, ScoreCategory(b, o)) && ScoreCategory(b, o).blockId == b.id
  {
    hide PenaltyTotal, Contribution;
    ContributionExact(Penalized(b, o), b.weight);
  }

  /** Each scored category is that of one observation under the block of its id, number by number. */
  lemma ScoredMeaning(v: ValidatedObservation, c: CategoryScore) returns (b: Block, o: CategoryObservation)
    requires CategoriesKnown(v) && c in Scored(v).categories
    ensures b in v.snapshot.blocks && o in v.observation.categories && b.id == o.blockId == c.blockId
    ensures ScoredAs(b, o, c)
  {
    hide SortBy, WeightedTotal, ScoreCategory, ScoredAs, BlockMap;
    var os := Ordered(v);
    assert forall p :: p in os ==> p in multiset(os);
    var scores := ScoreCategories(BlocksOf(v), os);
    var i :| 0 <= i < |scores| && scores[i] == c;
    o := os[i];
    assert o in multiset(os);
    b := BlocksOf(v)[o.blockId];
    CategoryScored(b, o);
  }

  /** Everything else in the result is the observation's, and the passing score is the rubric's. */
  lemma ScoredFields(v: ValidatedObservation)
    requires CategoriesKnown(v)
    ensures var result, o := Scored(v), v.observation;
      && result.status == o.status && result.summary == o.summary && result.applied == o.applied && result.missed == o.missed
      && result.passingScore == v.snapshot.overallPassingScore && result.recommendations == []
      && |result.categories| == |o.categories|
  {
    hide ScoreCategory, WeightedTotal, SortBy, BlockMap;
    assert |Ordered(v)| == |multiset(Ordered(v))| == |multiset(v.observation.categories)| == |v.observation.categories|;
    OrderedKnown(v);
  }

  /** Categories stand by display order, and by id within one. */
  lemma CategoriesInDisplayOrder(v: ValidatedObservation, i: nat, j: nat)
    requires CategoriesKnown(v) && i < j < |Scored(v).categories|
    ensures var c, d, blocks := Scored(v).categories[i], Scored(v).categories[j], BlocksOf(v);
      && c.blockId in blocks && d.blockId in blocks
      && (blocks[c.blockId].displayOrder < blocks[d.blockId].displayOrder
          || (blocks[c.blockId].displayOrder == blocks[d.blockId].displayOrder && StrLe(c.blockId, d.blockId)))
  {
    hide SortBy, WeightedTotal, PenaltyTotal, Contribution, Penalized;
    var os := Ordered(v);
    assert forall p :: p in os ==> p in multiset(os);
    DisplayLePreorder(BlocksOf(v));
    SortBySorted(DisplayLe(BlocksOf(v)), v.observation.categories);
    assert DisplayLe(BlocksOf(v))(os[i], os[j]);
    var cs := ScoreCategories(BlocksOf(v), os);
    assert cs[i] == ScoreCategory(BlocksOf(v)[os[i].blockId], os[i]) && cs[j] == ScoreCategory(BlocksOf(v)[os[j].blockId], os[j]);
    assert os[i] in os && os[j] in os;
  }

  // ----- arrival order does not matter

  lemma SortedOrderUnique(blocks: map<string, Block>, os: seq<CategoryObservation>, ps: seq<CategoryObservation>)
    requires multiset(os) == multiset(ps)
    requires forall i, j :: 0 <= i < j < |os| ==> os[i].blockId != os[j].blockId
    ensures SortBy(DisplayLe(blocks), os) == SortBy(DisplayLe(blocks), ps)
  {
    var le := DisplayLe(blocks);
    DisplayLePreorder(blocks);
    SortBySorted(le, os);
    SortBySorted(le, ps);
    var sorted := SortBy(le, os);
    forall a, b | a in sorted && b in sorted && le(a, b) && le(b, a) ensures a == b {
      StrLeAntisymmetric(a.blockId, b.blockId);
      assert a in multiset(sorted) && b in multiset(sorted);
      assert a in os && b in os;
    }
    SortedUnique(le, sorted, SortBy(le, ps));
  }

  /** The same observation with its categories in another order scores the same. */
  lemma OrderIndependent(fold: string -> string, v: ValidatedObservation, w: ValidatedObservation)
    requires Trusted(fold, v) && CategoriesKnown(v)
    requires multiset(v.observation.categories) == multiset(w.observation.categories)
    requires w == v.(observation := v.observation.(categories := w.observation.categories))
    ensures CategoriesKnown(w) && Scored(w) == Scored(v)
  {
    hide SortBy, ScoreCategories, ObservationSchema, StandardSchema, CategoryGrounded;
    forall c | c in w.observation.categories ensures c in v.observation.categories {
      assert c in multiset(w.observation.categories);
    }
    SortedOrderUnique(BlocksOf(v), v.observation.categories, w.observation.categories);
  }

  /** The two categories belong to one block, have the same raw score, and the same violations in any order. */
  ghost predicate ScoresAlike(o: CategoryObservation, p: CategoryObservation) {
    o.blockId == p.blockId && o.rawScore == p.rawScore && multiset(o.violations) == multiset(p.violations)
  }

  /** All but the observed lists. */
  ghost predicate SameScore(c: CategoryScore, d: CategoryScore) {
    d == c.(evidence := d.evidence, strengths := d.strengths, violations := d.violations,
            failedCriteria := d.failedCriteria, inputs := d.inputs)
  }

  /** `os` are the categories of `v` in some order, each with its violations in some order. */
  ghost predicate Rearranged(v: Observation, os: seq<CategoryObservation>) {
    exists cs: seq<CategoryObservation> :: multiset(cs) == multiset(v.categories) && Pairwise(ScoresAlike, cs, os)
  }

  lemma AlikeScoresSame(b: Block, o: CategoryObservation, p: CategoryObservation)
    requires ScoresAlike(o, p)
    ensures SameScore(ScoreCategory(b, o), ScoreCategory(b, p))
  {
    SameOccurrences(o.violations, p.violations);
  }

  lemma {:induction false} SumPairwiseSame(cs: seq<CategoryScore>, ds: seq<CategoryScore>)
    requires |cs| == |ds| && forall i :: 0 <= i < |cs| ==> SameScore(cs[i], ds[i])
    ensures SumContributions(cs) == SumContributions(ds)
  {
    if cs != [] {
      SumPairwiseSame(cs[..|cs| - 1], ds[..|ds| - 1]);
    }
  }

  lemma AlikeOrdered(v: ValidatedObservation, w: ValidatedObservation)
    requires CategoriesKnown(v) && CategoriesKnown(w) && w.snapshot == v.snapshot
    requires Pairwise(ScoresAlike, v.observation.categories, w.observation.categories)
    ensures |Scored(v).categories| == |Scored(w).categories|
    ensures forall i :: 0 <= i < |Scored(v).categories| ==> SameScore(Scored(v).categories[i], Scored(w).categories[i])
  {
    hide SortBy, WeightedTotal, ScoreCategory, SameScore, BlockMap, ScoresAlike;
    var blocks, le := BlocksOf(v), DisplayLe(BlocksOf(v));
    AlikeRespected(blocks);
    SortByPairwise(le, ScoresAlike, v.observation.categories, w.observation.categories);
    var os, ps := Ordered(v), Ordered(w);
    forall i | 0 <= i < |os| ensures SameScore(Scored(v).categories[i], Scored(w).categories[i]) {
      OrderedKnown(v);
      assert ScoresAlike(os[i], ps[i]);
      AlikeBlock(os[i], ps[i]);
      AlikeScoresSame(blocks[os[i].blockId], os[i], ps[i]);
    }
  }

  lemma AlikeRespected(blocks: map<string, Block>)
    ensures Respects(DisplayLe(blocks), ScoresAlike)
  {
  }

  lemma AlikeBlock(o: CategoryObservation, p: CategoryObservation)
    requires ScoresAlike(o, p)
    ensures o.blockId == p.blockId
  {
  }

  /** Nothing that is scored depends on the order in which categories, or violations within one, arrive. */
  lemma ArrivalOrderIrrelevant(fold: string -> string, v: ValidatedObservation, w: ValidatedObservation)
    requires Trusted(fold, v) && CategoriesKnown(v) && w.snapshot == v.snapshot
    requires w.observation.status == v.observation.status && Rearranged(v.observation, w.observation.categories)
    ensures CategoriesKnown(w) && |Scored(w).categories| == |Scored(v).categories|
    ensures forall i :: 0 <= i < |Scored(v).categories| ==> SameScore(Scored(v).categories[i], Scored(w).categories[i])
    ensures Scored(w).weightedTotal == Scored(v).weightedTotal && Scored(w).passed == Scored(v).passed
  {
    hide Trusted, Scored, SameScore;
    var cs: seq<CategoryObservation> :| multiset(cs) == multiset(v.observation.categories) && Pairwise(ScoresAlike, cs, w.observation.categories);
    var u := v.(observation := v.observation.(categories := cs));
    OrderIndependent(fold, v, u);
    AlikeKnown(u, w);
    AlikeOrdered(u, w);
    AlikeTotals(u, w);
  }

  lemma AlikeKnown(v: ValidatedObservation, w: ValidatedObservation)
    requires CategoriesKnown(v) && w.snapshot == v.snapshot
    requires Pairwise(ScoresAlike, v.observation.categories, w.observation.categories)
    ensures CategoriesKnown(w)
  {
    var os, ps := v.observation.categories, w.observation.categories;
    forall p | p in ps ensures p.blockId in BlocksOf(v) {
      var i :| 0 <= i < |ps| && ps[i] == p;
      assert ScoresAlike(os[i], ps[i]) && os[i] in os;
    }
  }

  lemma AlikeTotals(v: ValidatedObservation, w: ValidatedObservation)
    requires CategoriesKnown(v) && CategoriesKnown(w) && w.snapshot == v.snapshot && w.observation.status == v.observation.status
    requires |Scored(v).categories| == |Scored(w).categories|
    requires forall i :: 0 <= i < |Scored(v).categories| ==> SameScore(Scored(v).categories[i], Scored(w).categories[i])
    ensures Scored(w).weightedTotal == Scored(v).weightedTotal && Scored(w).passed == Scored(v).passed
  {
    hide Ordered, ScoreCategories, Money;
    var cs, ds := Scored(v).categories, Scored(w).categories;
    SumPairwiseSame(cs, ds);
    if forall c :: c in cs ==> c.passed {
      forall i | 0 <= i < |ds| ensures ds[i].passed { assert SameScore(cs[i], ds[i]) && cs[i] in cs; }
    }
    if forall d :: d in ds ==> d.passed {
      forall i | 0 <= i < |cs| ensures cs[i].passed { assert SameScore(cs[i], ds[i]) && ds[i] in ds; }
    }
  }

  // ----- monotonicity

  /** Category by category, `w` has at least the raw score of `v` and some of its violations. */
  ghost predicate Relieved(v: Observation, w: Observation) {
    && |v.categories| == |w.categories|
    && forall i :: 0 <= i < |v.categories| ==>
         && v.categories[i].blockId == w.categories[i].blockId
         && (v.categories[i].rawScore.Some? <==> w.categories[i].rawScore.Some?)
         && (v.categories[i].rawScore.Some? ==> v.categories[i].rawScore.value <= w.categories[i].rawScore.value)
         && multiset(w.categories[i].violations) <= multiset(v.categories[i].violations)
  }

  lemma RelievedIsNoWorse(v: Observation, w: Observation)
    requires Relieved(v, w)
    ensures NoWorse(v, w)
  {
    forall i | 0 <= i < |v.categories|
      ensures Occurrences(w.categories[i].violations) <= Occurrences(v.categories[i].violations)
    {
      FewerOccurrences(w.categories[i].violations, v.categories[i].violations);
    }
  }

  /** In every category, `w` scores at least as high raw and cites no violation more often. */
  ghost predicate NoWorse(v: Observation, w: Observation) {
    && |v.categories| == |w.categories|
    && forall i :: 0 <= i < |v.categories| ==>
         && v.categories[i].blockId == w.categories[i].blockId
         && (v.categories[i].rawScore.Some? <==> w.categories[i].rawScore.Some?)
         && (v.categories[i].rawScore.Some? ==> v.categories[i].rawScore.value <= w.categories[i].rawScore.value)
         && Occurrences(w.categories[i].violations) <= Occurrences(v.categories[i].violations)
  }

  lemma {:induction false} DeductionMonotone(fewer: multiset<string>, more: multiset<string>, ps: seq<Penalty>)
    requires fewer <= more && forall p :: p in ps ==> 0 <= p.deduction
    ensures SumOf(Deduction(fewer), ps) <= SumOf(Deduction(more), ps)
  {
    forall p | p in ps ensures Deduction(fewer)(p) <= Deduction(more)(p) {
      ScaleMonotone(Min(fewer[p.violationId], p.maxOccurrences), Min(more[p.violationId], p.maxOccurrences), p.deduction);
    }
    SumOfMonotone(Deduction(fewer), Deduction(more), ps);
  }

  lemma CategoryMonotone(b: Block, o: CategoryObservation, p: CategoryObservation)
    requires BlockSchema(b) && (o.rawScore.Some? <==> p.rawScore.Some?)
    requires o.rawScore.Some? ==> o.rawScore.value <= p.rawScore.value
    requires Occurrences(p.violations) <= Occurrences(o.violations)
    ensures Penalized(b, o) <= Penalized(b, p) && (Passes(b, o) ==> Passes(b, p))
  {
    DeductionMonotone(Occurrences(p.violations), Occurrences(o.violations), b.penalties);
  }

  lemma {:induction false} SumPairwise(f: CategoryObservation -> int, os: seq<CategoryObservation>, ps: seq<CategoryObservation>)
    requires |os| == |ps| && forall i :: 0 <= i < |os| ==> f(os[i]) <= f(ps[i])
    ensures SumOf(f, os) <= SumOf(f, ps)
  {
    if os != [] {
      SumPairwise(f, os[1..], ps[1..]);
    }
  }

  lemma AtLeast(cents: int, mark: int)
    ensures cents as real / 100.0 >= mark as real <==> cents >= 100 * mark
  {
  }

  lemma AllPassedIn(blocks: map<string, Block>, os: seq<CategoryObservation>)
    requires forall o :: o in os ==> o.blockId in blocks
    ensures (forall c :: c in ScoreCategories(blocks, os) ==> c.passed) <==> forall o :: o in os ==> Passes(blocks[o.blockId], o)
  {
    hide Passes;
    var categories := ScoreCategories(blocks, os);
    if forall c :: c in categories ==> c.passed {
      forall i | 0 <= i < |os| ensures Passes(blocks[os[i].blockId], os[i]) {
        assert categories[i] in categories;
      }
    }
  }

  lemma AllPassed(v: ValidatedObservation)
    requires CategoriesKnown(v)
    ensures (forall c :: c in Scored(v).categories ==> c.passed)
      <==> forall o :: o in v.observation.categories ==> Passes(BlocksOf(v)[o.blockId], o)
  {
    hide Passes, WeightedTotal, SortBy, ScoreCategories;
    assert forall o :: o in Ordered(v) ==> o in multiset(Ordered(v));
    assert forall o :: o in v.observation.categories ==> o in multiset(v.observation.categories);
    AllPassedIn(BlocksOf(v), Ordered(v));
  }

  /** The session passes exactly when it was evaluated, its total reaches the mark, and every block passes. */
  lemma PassedMeaning(v: ValidatedObservation)
    requires CategoriesKnown(v)
    ensures Scored(v).passed <==>
      && v.observation.status == Evaluated
      && TotalPoints(v) >= 100 * v.snapshot.overallPassingScore
      && forall o :: o in v.observation.categories ==> Passes(BlocksOf(v)[o.blockId], o)
  {
    hide Passes, WeightedTotal, Ordered, ScoreCategories, TotalPoints;
    TotalIsExact(v);
    AllPassed(v);
    AtLeast(TotalPoints(v), v.snapshot.overallPassingScore);
  }

  lemma NoWorseLength(v: Observation, w: Observation)
    requires NoWorse(v, w)
    ensures |v.categories| == |w.categories|
  {
  }

  lemma EachMonotone(fold: string -> string, v: ValidatedObservation, w: Observation, i: nat)
    requires Trusted(fold, v) && Publishable(fold, v.snapshot) && CategoriesKnown(v)
    requires NoWorse(v.observation, w) && i < |v.observation.categories|
    ensures i < |w.categories|
    ensures var o, p, blocks := v.observation.categories[i], w.categories[i], BlocksOf(v);
      && o.blockId in blocks && p.blockId == o.blockId
      && Penalized(blocks[o.blockId], o) <= Penalized(blocks[o.blockId], p)
      && (Passes(blocks[o.blockId], o) ==> Passes(blocks[o.blockId], p))
      && Points(blocks)(o) <= Points(blocks)(p)
  {
    hide Trusted, Publishable, Penalized, Passes;
    var o, p, blocks := v.observation.categories[i], w.categories[i], BlocksOf(v);
    var b := blocks[o.blockId];
    KnownBlock(fold, v, o);
    CategoryMonotone(b, o, p);
    PointsOf(blocks, o);
    PointsOf(blocks, p);
    ScaleMonotone(Penalized(b, o), Penalized(b, p), b.weight);
  }

  /** Raising raw scores or removing violations lowers no score and turns no pass into a fail. */
  lemma ScoringMonotone(fold: string -> string, v: ValidatedObservation, w: ValidatedObservation)
    requires Trusted(fold, v) && Trusted(fold, w) && Publishable(fold, v.snapshot) && v.snapshot == w.snapshot
    requires v.observation.status == w.observation.status && NoWorse(v.observation, w.observation)
    ensures CategoriesKnown(v) && CategoriesKnown(w)
    ensures forall i :: 0 <= i < |v.observation.categories| ==>
      var b := BlocksOf(v)[v.observation.categories[i].blockId];
      && Penalized(b, v.observation.categories[i]) <= Penalized(b, w.observation.categories[i])
      && (Passes(b, v.observation.categories[i]) ==> Passes(b, w.observation.categories[i]))
    ensures Scored(v).weightedTotal <= Scored(w).weightedTotal
    ensures Scored(v).passed ==> Scored(w).passed
  {
    hide Publishable, Trusted, Penalized, Passes, Scored, NoWorse, BlockMap, Points;
    CategoriesPermuteBlocks(fold, v);
    CategoriesPermuteBlocks(fold, w);
    var blocks, os, ps := BlocksOf(v), v.observation.categories, w.observation.categories;
    assert |os| == |ps| by {
      NoWorseLength(v.observation, w.observation);
    }
    forall i | 0 <= i < |os|
      ensures ps[i].blockId == os[i].blockId
      ensures Penalized(blocks[os[i].blockId], os[i]) <= Penalized(blocks[os[i].blockId], ps[i])
      ensures Passes(blocks[os[i].blockId], os[i]) ==> Passes(blocks[os[i].blockId], ps[i])
      ensures Points(blocks)(os[i]) <= Points(blocks)(ps[i])
    {
      EachMonotone(fold, v, w.observation, i);
    }
    SumPairwise(Points(blocks), os, ps);
    TotalIsExact(v);
    TotalIsExact(w);
    PassedMeaning(v);
    PassedMeaning(w);
    assert forall p :: p in ps ==> exists i :: 0 <= i < |ps| && ps[i] == p;
  }

  /** Dropping findings from the violation lists, or raising raw scores, lowers no score and fails no pass. */
  lemma RemovingViolations(fold: string -> string, v: ValidatedObservation, w: ValidatedObservation)
    requires Trusted(fold, v) && Trusted(fold, w) && Publishable(fold, v.snapshot) && v.snapshot == w.snapshot
    requires v.observation.status == w.observation.status && Relieved(v.observation, w.observation)
    ensures CategoriesKnown(v) && CategoriesKnown(w) && |w.observation.categories| == |v.observation.categories|
    ensures forall i :: 0 <= i < |v.observation.categories| ==>
      var b := BlocksOf(v)[v.observation.categories[i].blockId];
      && Penalized(b, v.observation.categories[i]) <= Penalized(b, w.observation.categories[i])
      && (Passes(b, v.observation.categories[i]) ==> Passes(b, w.observation.categories[i]))
    ensures Scored(v).weightedTotal <= Scored(w).weightedTotal
    ensures Scored(v).passed ==> Scored(w).passed
  {
    hide Publishable, Trusted, Penalized, Passes, Scored, BlockMap, Points;
    RelievedIsNoWorse(v.observation, w.observation);
    ScoringMonotone(fold, v, w);
  }
}
