/** Deterministic scoring of a validated observation. */
module ScoreCalculator {
  import opened Rubric
  import opened Sorting
  import opened Text
  import opened StandardValidator
  import opened ObservationValidator

  datatype ScoreError = SnapshotMismatch | WeightsInvariant

  /** `quantize(0.01, ROUND_HALF_UP)`: ties move away from zero. */
  function Money(x: real): real {
    (if x >= 0.0 then (x * 100.0 + 0.5).Floor else -(0.5 - x * 100.0).Floor) as real / 100.0
  }

  /** Amounts that are whole cents are left alone. */
  lemma MoneyExact(cents: int)
    ensures Money(cents as real / 100.0) == cents as real / 100.0
  {
    var x := cents as real / 100.0;
    assert x * 100.0 == cents as real;
    if x >= 0.0 {
      assert (cents as real + 0.5).Floor == cents;
    } else {
      assert (0.5 - cents as real).Floor == -cents;
    }
  }

  /** The nearest whole cent, and the upper one of two nearest for amounts that are not negative. */
  lemma MoneyHalfUp(x: real)
    requires 0.0 <= x
    ensures -0.005 < Money(x) - x <= 0.005
    ensures (Money(x) * 100.0).Floor as real == Money(x) * 100.0
  {
    var cents := (x * 100.0 + 0.5).Floor;
    assert Money(x) * 100.0 == cents as real;
  }

  /** What a block's score adds to the total: its weighted share, to the cent. */
  function Contribution(score: int, weight: int): real {
    Money(score as real * weight as real / 100.0)
  }

  function Min(a: int, b: int): int { if a <= b then a else b }
  function Max(a: int, b: int): int { if a >= b then a else b }

  /** `Counter(finding.violation_id for finding in findings)`. */
  function Occurrences(findings: seq<Finding>): multiset<string> {
    if findings == [] then multiset{} else multiset{findings[0].id} + Occurrences(findings[1..])
  }

  lemma {:induction false} OccurrencesAppend(fs: seq<Finding>, gs: seq<Finding>)
    ensures Occurrences(fs + gs) == Occurrences(fs) + Occurrences(gs)
  {
    if fs == [] {
      assert fs + gs == gs;
    } else {
      assert (fs + gs)[1..] == fs[1..] + gs;
      OccurrencesAppend(fs[1..], gs);
    }
  }

  /** Removing findings lowers no count. */
  lemma {:induction false} FewerOccurrences(fs: seq<Finding>, gs: seq<Finding>)
    requires multiset(fs) <= multiset(gs)
    ensures Occurrences(fs) <= Occurrences(gs)
  {
    if fs != [] {
      assert fs[0] in multiset(fs);
      var front, back := TakeOut(gs, fs[0]);
      MultisetTail(fs);
      FewerOccurrences(fs[1..], front + back);
      OccurrencesAppend(front, back);
      OccurrencesAppend(front, [fs[0]] + back);
      OccurrencesAppend([fs[0]], back);
      assert [fs[0]][1..] == [];
    }
  }

  /** Nor does their order matter. */
  lemma SameOccurrences(fs: seq<Finding>, gs: seq<Finding>)
    requires multiset(fs) == multiset(gs)
    ensures Occurrences(fs) == Occurrences(gs)
  {
    FewerOccurrences(fs, gs);
    FewerOccurrences(gs, fs);
  }

  lemma {:induction false} OccurrencesNamed(findings: seq<Finding>, id: string)
    ensures id in Occurrences(findings) <==> exists f :: f in findings && f.id == id
  {
    if findings != [] {
      OccurrencesNamed(findings[1..], id);
      assert findings == [findings[0]] + findings[1..];
    }
  }

  function Deduction(counts: multiset<string>): Penalty -> int {
    (p: Penalty) => Min(counts[p.violationId], p.maxOccurrences) * p.deduction
  }

  function PenaltyTotal(b: Block, findings: seq<Finding>): int {
    SumOf(Deduction(Occurrences(findings)), b.penalties)
  }

  /** The findings about one violation. */
  function About(findings: seq<Finding>, id: string): seq<Finding> {
    Filter((f: Finding) => f.id == id, findings)
  }

  lemma {:induction false} OccurrencesCount(findings: seq<Finding>, id: string)
    ensures Occurrences(findings)[id] == |About(findings, id)|
  {
    if findings != [] {
      OccurrencesCount(findings[1..], id);
    }
  }

  /** What one penalty deducts: its deduction for every finding about its violation, up to the maximum. */
  lemma OnePenalty(b: Block, findings: seq<Finding>, p: Penalty)
    requires b.penalties == [p]
    ensures var n := |About(findings, p.violationId)|;
      PenaltyTotal(b, findings) == (if n <= p.maxOccurrences then n * p.deduction else p.maxOccurrences * p.deduction)
  {
    OccurrencesCount(findings, p.violationId);
    var f := Deduction(Occurrences(findings));
    assert SumOf(f, b.penalties[1..]) == 0;
    assert SumOf(f, b.penalties) == f(p) + SumOf(f, b.penalties[1..]);
  }

  /** Penalties add up. */
  lemma PenaltiesAdd(b: Block, findings: seq<Finding>, ps: seq<Penalty>, qs: seq<Penalty>)
    requires b.penalties == ps + qs
    ensures PenaltyTotal(b, findings)
      == PenaltyTotal(b.(penalties := ps), findings) + PenaltyTotal(b.(penalties := qs), findings)
    ensures PenaltyTotal(b.(penalties := []), findings) == 0
  {
    SumOfAppend(Deduction(Occurrences(findings)), ps, qs);
  }

  /** The most the penalties of a block can deduct. */
  function PenaltyCap(b: Block): int {
    SumOf((p: Penalty) => p.maxOccurrences * p.deduction, b.penalties)
  }

  lemma {:induction false} PenaltyBounds(counts: multiset<string>, ps: seq<Penalty>)
    requires forall p :: p in ps ==> 0 <= p.deduction && 0 <= p.maxOccurrences
    ensures 0 <= SumOf(Deduction(counts), ps) <= SumOf((p: Penalty) => p.maxOccurrences * p.deduction, ps)
    ensures (forall p :: p in ps ==> p.violationId !in counts) ==> SumOf(Deduction(counts), ps) == 0
  {
    if ps != [] {
      PenaltyBounds(counts, ps[1..]);
      var p := ps[0];
      assert p in ps;
      ProductBounds(Min(counts[p.violationId], p.maxOccurrences), p.maxOccurrences, p.deduction);
    }
  }

  lemma ProductBounds(a: int, b: int, c: int)
    requires 0 <= a <= b && 0 <= c
    ensures 0 <= a * c <= b * c
  {
  }

  /** The raw score less its penalties, never below zero; 0 stands for a missing score. */
  function Penalized(b: Block, o: CategoryObservation): int {
    if o.rawScore.None? then 0 else Max(0, o.rawScore.value - PenaltyTotal(b, o.violations))
  }

  predicate Passes(b: Block, o: CategoryObservation) {
    o.rawScore.Some? && Penalized(b, o) >= b.passingScore
  }

  function ScoreCategory(b: Block, o: CategoryObservation): CategoryScore {
    var scored := o.rawScore.Some?;
    CategoryScore(
      b.id, b.category, o.rawScore,
      if scored then PenaltyTotal(b, o.violations) else 0,
      if scored then Some(Penalized(b, o)) else None,
      b.weight,
      if scored then Contribution(Penalized(b, o), b.weight) else 0.0,
      b.passingScore, Passes(b, o),
      o.evidence, o.strengths, o.violations, o.failedCriteria, o.inputs)
  }

  function OrderOf(blocks: map<string, Block>, id: string): int {
    if id in blocks then blocks[id].displayOrder else 0
  }

  predicate DisplayKeyLe(order: int, id: string, order': int, id': string) {
    order < order' || (order == order' && StrLe(id, id'))
  }

  /** The sort key `(display_order, rubric_block_id)`. */
  function DisplayLe(blocks: map<string, Block>): (CategoryObservation, CategoryObservation) -> bool {
    (a: CategoryObservation, b: CategoryObservation) =>
      DisplayKeyLe(OrderOf(blocks, a.blockId), a.blockId, OrderOf(blocks, b.blockId), b.blockId)
  }

  lemma DisplayLePreorder(blocks: map<string, Block>)
    ensures TotalPreorder(DisplayLe(blocks))
  {
    var le := DisplayLe(blocks);
    forall a, b ensures le(a, b) || le(b, a) { StrLeTotal(a.blockId, b.blockId); }
    forall a, b, c | le(a, b) && le(b, c) ensures le(a, c) {
      if StrLe(a.blockId, b.blockId) && StrLe(b.blockId, c.blockId) {
        StrLeTransitive(a.blockId, b.blockId, c.blockId);
      }
    }
  }

  function Ordered(v: ValidatedObservation): (r: seq<CategoryObservation>)
    ensures multiset(r) == multiset(v.observation.categories)
  {
    SortBy(DisplayLe(BlockMap(v.snapshot.blocks)), v.observation.categories)
  }

  predicate CategoriesKnown(v: ValidatedObservation) {
    forall c :: c in v.observation.categories ==> c.blockId in BlockMap(v.snapshot.blocks)
  }

  function ScoreCategories(blocks: map<string, Block>, os: seq<CategoryObservation>): (r: seq<CategoryScore>)
    requires forall o :: o in os ==> o.blockId in blocks
    ensures |r| == |os| && forall i :: 0 <= i < |r| ==> r[i] == ScoreCategory(blocks[os[i].blockId], os[i])
  {
    if os == [] then []
    else
      var last := os[|os| - 1];
      ScoreCategories(blocks, os[..|os| - 1]) + [ScoreCategory(blocks[last.blockId], last)]
  }

  function SumContributions(cs: seq<CategoryScore>): real {
    if cs == [] then 0.0 else SumContributions(cs[..|cs| - 1]) + cs[|cs| - 1].contribution
  }

  function WeightedTotal(cs: seq<CategoryScore>): real {
    Money(SumContributions(cs))
  }

  /** The canonical result of a validated observation. */
  function Scored(v: ValidatedObservation): Canonical
    requires CategoriesKnown(v)
  {
    var o := v.observation;
    assert forall c :: c in Ordered(v) ==> c in multiset(Ordered(v));
    var categories := ScoreCategories(BlockMap(v.snapshot.blocks), Ordered(v));
    var total := WeightedTotal(categories);
    Canonical(
      o.status, o.summary, categories, total, v.snapshot.overallPassingScore,
      o.status == Evaluated && total >= v.snapshot.overallPassingScore as real && (forall c :: c in categories ==> c.passed),
      o.applied, o.missed, [])
  }

  lemma OrderedKnown(v: ValidatedObservation)
    requires CategoriesKnown(v)
    ensures forall o :: o in Ordered(v) ==> o.blockId in BlockMap(v.snapshot.blocks)
  {
    hide SortBy, BlockMap;
    forall o | o in Ordered(v) ensures o.blockId in BlockMap(v.snapshot.blocks) {
      assert o in multiset(Ordered(v));
    }
  }

  /** A raw score loses at most the cap, nothing without a penalised violation, and never becomes negative. */
  lemma PenaltiesLower(b: Block, o: CategoryObservation)
    requires BlockSchema(b) && CategorySchema(o) && o.rawScore.Some?
    ensures 0 <= Penalized(b, o) <= o.rawScore.value <= Penalized(b, o) + PenaltyCap(b)
    ensures (forall p, f :: p in b.penalties && f in o.violations ==> p.violationId != f.id) ==> Penalized(b, o) == o.rawScore.value
  {
    PenaltyBounds(Occurrences(o.violations), b.penalties);
    forall id: string { OccurrencesNamed(o.violations, id); }
  }

  /** Scores one category: no points and no pass without a raw score; otherwise the raw score less at most
      the capped penalties, and a pass exactly when what is left reaches the passing score. */
  method ScoreObservation(b: Block, o: CategoryObservation) returns (c: CategoryScore)
    ensures c == ScoreCategory(b, o)
    ensures c.penalizedScore.Some? <==> o.rawScore.Some?
    ensures o.rawScore.Some? ==>
      && c.penaltyTotal == PenaltyTotal(b, o.violations)
      && c.penalizedScore.value == (if o.rawScore.value >= c.penaltyTotal then o.rawScore.value - c.penaltyTotal else 0)
      && c.contribution == (c.penalizedScore.value * b.weight) as real / 100.0
    ensures o.rawScore.None? ==> c.penaltyTotal == 0 && c.contribution == 0.0 && !c.passed
    ensures c.blockId == b.id && c.category == b.category && c.weight == b.weight && c.passingScore == b.passingScore
    ensures c.rawScore == o.rawScore && c.evidence == o.evidence && c.strengths == o.strengths && c.violations == o.violations
      && c.failedCriteria == o.failedCriteria && c.inputs == o.inputs
    ensures BlockSchema(b) && CategorySchema(o) && o.rawScore.Some? ==>
      0 <= c.penalizedScore.value <= o.rawScore.value <= c.penalizedScore.value + PenaltyCap(b)
    ensures c.passed <==> c.penalizedScore.Some? && c.penalizedScore.value >= b.passingScore
  {
    if BlockSchema(b) && CategorySchema(o) && o.rawScore.Some? {
      PenaltiesLower(b, o);
    }
    var penaltyTotal, penalized, contribution, passed := 0, None, 0.0, false;
    if o.rawScore.Some? {
      penaltyTotal := PenaltyTotal(b, o.violations);
      var score := Max(0, o.rawScore.value - penaltyTotal);
      penalized := Some(score);
      contribution := Contribution(score, b.weight);
      passed := score >= b.passingScore;
      assert score == Penalized(b, o);
      WholeCents(score, b.weight);
    }
    c := CategoryScore(
      b.id, b.category, o.rawScore, penaltyTotal, penalized, b.weight, contribution, b.passingScore, passed,
      o.evidence, o.strengths, o.violations, o.failedCriteria, o.inputs);
  }

  lemma WholeCents(score: int, weight: int)
    ensures Contribution(score, weight) == (score * weight) as real / 100.0
  {
    assert score as real * weight as real == (score * weight) as real;
    MoneyExact(score * weight);
  }

  lemma ScoreNothing(blocks: map<string, Block>)
    ensures ScoreCategories(blocks, []) == [] && SumContributions([]) == 0.0
  {
  }

  lemma ScoreOneMore(blocks: map<string, Block>, os: seq<CategoryObservation>, o: CategoryObservation)
    requires o.blockId in blocks && forall p :: p in os ==> p.blockId in blocks
    ensures ScoreCategories(blocks, os + [o]) == ScoreCategories(blocks, os) + [ScoreCategory(blocks[o.blockId], o)]
    ensures SumContributions(ScoreCategories(blocks, os + [o]))
      == SumContributions(ScoreCategories(blocks, os)) + ScoreCategory(blocks[o.blockId], o).contribution
  {
    hide ScoreCategory;
    assert (os + [o])[..|os|] == os;
    var cs, c := ScoreCategories(blocks, os), ScoreCategory(blocks[o.blockId], o);
    assert (cs + [c])[..|cs|] == cs;
  }

  method ScoreAll(blocks: map<string, Block>, os: seq<CategoryObservation>)
    returns (categories: seq<CategoryScore>, weightedTotal: real)
    requires forall o :: o in os ==> o.blockId in blocks
    ensures categories == ScoreCategories(blocks, os) && weightedTotal == SumContributions(categories)
  {
    hide ScoreCategory, ScoreCategories, SumContributions;
    assert ScoreCategories(blocks, []) == [] && SumContributions([]) == 0.0 by {
      ScoreNothing(blocks);
    }
    categories, weightedTotal := [], 0.0;
    for i := 0 to |os|
      invariant forall o :: o in os[..i] ==> o.blockId in blocks
      invariant categories == ScoreCategories(blocks, os[..i])
      invariant weightedTotal == SumContributions(categories)
    {
      var score := ScoreObservation(blocks[os[i].blockId], os[i]);
      ScoreOneMore(blocks, os[..i], os[i]);
      assert os[..i + 1] == os[..i] + [os[i]];
      weightedTotal := weightedTotal + score.contribution;
      categories := categories + [score];
    }
    assert os[..|os|] == os;
  }

  /** Scores once the snapshot matches and its weights total 100. */
  method CalculateRubricScore(v: ValidatedObservation, snapshot: Option<Standard>) returns (r: Result<Canonical, ScoreError>)
    requires CategoriesKnown(v)
    ensures snapshot.Some? && snapshot.value != v.snapshot ==> r == Err(SnapshotMismatch)
    ensures !(snapshot.Some? && snapshot.value != v.snapshot) ==>
      r == if WeightTotal(v.snapshot) != 100 then Err(WeightsInvariant) else Ok(Scored(v))
  {
    hide ScoreCategory, Money, Ordered, WeightTotal, CategoriesKnown, SumContributions, ScoreCategories, BlockMap;
    var rubric := if snapshot.None? then v.snapshot else snapshot.value;
    if rubric != v.snapshot {
      return Err(SnapshotMismatch);
    }
    if WeightTotal(rubric) != 100 {
      return Err(WeightsInvariant);
    }
    var ordered := Ordered(v);
    OrderedKnown(v);
    var categories, weightedTotal := ScoreAll(BlockMap(rubric.blocks), ordered);
    var total := Money(weightedTotal);
    var passed := v.observation.status == Evaluated && total >= rubric.overallPassingScore as real
      && forall c :: c in categories ==> c.passed;
    r := Ok(Canonical(
      v.observation.status, v.observation.summary, categories, total, rubric.overallPassingScore, passed,
      v.observation.applied, v.observation.missed, []));
  }
}
