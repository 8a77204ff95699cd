/** Criterion-linked practice items, most urgent block first. */
module LearningPlan {
  import opened Rubric
  import opened Sorting
  import opened Text
  import opened Ranking

  datatype PlanItem = PlanItem(category: string, score: int, blockId: string, criterionId: Option<string>, focus: string)

  datatype Plan = Plan(items: seq<PlanItem>, allPassing: bool)

  /** First occurrences, in order. */
  function Distinct(s: seq<string>): (r: seq<string>)
    ensures forall x :: x in r <==> x in s
    ensures forall i, j :: 0 <= i < j < |r| ==> r[i] != r[j]
  {
    if s == [] then []
    else
      var front, last := Distinct(s[..|s| - 1]), s[|s| - 1];
      assert s == s[..|s| - 1] + [last];
      if last in front then front else front + [last]
  }

  lemma StrLePreorder()
    ensures TotalPreorder(StrLe)
  {
    forall a, b ensures StrLe(a, b) || StrLe(b, a) { StrLeTotal(a, b); }
    forall a, b, c | StrLe(a, b) && StrLe(b, c) ensures StrLe(a, c) { StrLeTransitive(a, b, c); }
  }

  /** `sorted(set(items))`. */
  function SortedSet(items: seq<string>): (r: seq<string>)
    ensures forall x :: x in r <==> x in items
  {
    var r := SortBy(StrLe, Distinct(items));
    assert forall x :: x in r <==> x in multiset(r);
    r
  }

  lemma SortedSetStrict(items: seq<string>)
    ensures forall i, j :: 0 <= i < j < |SortedSet(items)| ==>
      StrLe(SortedSet(items)[i], SortedSet(items)[j]) && SortedSet(items)[i] != SortedSet(items)[j]
  {
    var d := Distinct(items);
    StrLePreorder();
    SortBySorted(StrLe, d);
    NoRepeatsPermutation(d, SortBy(StrLe, d));
  }

  function ViolationIds(findings: seq<Finding>): (r: seq<string>)
    ensures |r| == |findings| && forall i :: 0 <= i < |r| ==> r[i] == findings[i].id
  {
    seq(|findings|, (i: nat) requires i < |findings| => findings[i].id)
  }

  /** The failed and violated criteria of a category, in order and without repetition. */
  function Criteria(c: CategoryScore): seq<string> {
    SortedSet(c.failedCriteria + ViolationIds(c.violations))
  }

  function ScoreOf(c: CategoryScore): int { if c.penalizedScore.Some? then c.penalizedScore.value else 0 }

  function PlanRank(blocks: map<string, Block>, c: CategoryScore): BlockRank {
    BlockRank(
      if c.passingScore - ScoreOf(c) > 0 then c.passingScore - ScoreOf(c) else 0,
      c.penaltyTotal,
      if c.blockId in blocks then blocks[c.blockId].displayOrder else 0,
      c.blockId)
  }

  function PlanLe(blocks: map<string, Block>): (CategoryScore, CategoryScore) -> bool {
    (a: CategoryScore, b: CategoryScore) => BlockRankLe(PlanRank(blocks, a), PlanRank(blocks, b))
  }

  lemma PlanLePreorder(blocks: map<string, Block>)
    ensures TotalPreorder(PlanLe(blocks))
  {
    var le := PlanLe(blocks);
    forall a, b ensures le(a, b) || le(b, a) { BlockRankTotal(PlanRank(blocks, a), PlanRank(blocks, b)); }
    forall a, b, c | le(a, b) && le(b, c) ensures le(a, c) {
      BlockRankTransitive(PlanRank(blocks, a), PlanRank(blocks, b), PlanRank(blocks, c));
    }
  }

  function FirstCriterion(cs: seq<Criterion>, id: string): (r: Option<Criterion>)
    ensures r.Some? ==> r.value in cs && r.value.id == id
    ensures r.None? ==> forall c :: c in cs ==> c.id != id
  {
    if cs == [] then None else if cs[0].id == id then Some(cs[0]) else FirstCriterion(cs[1..], id)
  }

  /** What to practise: the criterion's instructions, or the block's when no criterion is named. */
  function PracticeFocus(redact: string -> string, category: string, criterionId: Option<string>, b: Option<Block>): string {
    if criterionId.Some? && criterionId.value != "" then
      var found := if b.Some? then FirstCriterion(b.value.Criteria(), criterionId.value) else None;
      var name := if found.Some? then found.value.name else criterionId.value;
      var detail :=
        if found.None? then ""
        else if found.value.evidenceInstructions != "" then found.value.evidenceInstructions
        else found.value.description;
      redact("Practice " + name + " (" + criterionId.value + ")." + if detail != "" then " Focus on " + detail else "")
    else
      var instructions :=
        if b.None? then ""
        else if b.value.scoringInstructions != "" then b.value.scoringInstructions
        else b.value.recommendationGuidance;
      redact("Practice " + category + " using the pinned rubric guidance."
        + if instructions != "" then " Focus on " + instructions else "")
  }

  function Item(redact: string -> string, blocks: map<string, Block>, c: CategoryScore, criterionId: Option<string>): PlanItem {
    var b := if c.blockId in blocks then Some(blocks[c.blockId]) else None;
    PlanItem(c.category, ScoreOf(c), c.blockId, criterionId, PracticeFocus(redact, c.category, criterionId, b))
  }

  /** The criteria to practise; a failed block without any is practised as a whole. */
  function Targets(c: CategoryScore): (r: seq<Option<string>>)
    ensures r == [] <==> c.passed && Criteria(c) == []
  {
    var criteria := Criteria(c);
    if criteria != [] then seq(|criteria|, (i: nat) requires i < |criteria| => Some(criteria[i]))
    else if c.passed then [] else [None]
  }

  function ItemsFor(redact: string -> string, blocks: map<string, Block>, c: CategoryScore): (r: seq<PlanItem>)
    ensures |r| == |Targets(c)| && forall i :: 0 <= i < |r| ==> r[i] == Item(redact, blocks, c, Targets(c)[i])
  {
    var targets := Targets(c);
    seq(|targets|, (i: nat) requires i < |targets| => Item(redact, blocks, c, targets[i]))
  }

  function AllItems(redact: string -> string, blocks: map<string, Block>, cs: seq<CategoryScore>): seq<PlanItem> {
    if cs == [] then []
    else AllItems(redact, blocks, cs[..|cs| - 1]) + ItemsFor(redact, blocks, cs[|cs| - 1])
  }

  function RankedCategories(snapshot: Standard, canonical: Canonical): seq<CategoryScore> {
    SortBy(PlanLe(BlockMap(snapshot.blocks)), canonical.categories)
  }

  function PlanOf(redact: string -> string, canonical: Canonical, snapshot: Standard): Plan {
    if canonical.status == NotApplicable then Plan([], false)
    else
      var items := AllItems(redact, BlockMap(snapshot.blocks), RankedCategories(snapshot, canonical));
      Plan(items, items == [])
  }

  lemma ItemsStep(redact: string -> string, blocks: map<string, Block>, cs: seq<CategoryScore>, k: nat)
    requires k < |cs|
    ensures AllItems(redact, blocks, cs[..k + 1]) == AllItems(redact, blocks, cs[..k]) + ItemsFor(redact, blocks, cs[k])
    ensures cs[k].passed && Criteria(cs[k]) == [] ==> ItemsFor(redact, blocks, cs[k]) == []
  {
    hide Targets, Item;
    assert cs[..k + 1][..k] == cs[..k];
  }

  method GenerateRubricPlan(redact: string -> string, canonical: Canonical, snapshot: Standard) returns (plan: Plan)
    ensures plan == PlanOf(redact, canonical, snapshot)
  {
    assert AllItems(redact, BlockMap(snapshot.blocks), []) == [];
    if canonical.status == NotApplicable {
      return Plan([], false);
    }
    hide SortBy, PlanLe, ItemsFor, Criteria, AllItems, BlockMap;
    var blocks := BlockMap(snapshot.blocks);
    var ranked := RankedCategories(snapshot, canonical);
    var items: seq<PlanItem> := [];
    for k := 0 to |ranked|
      invariant items == AllItems(redact, blocks, ranked[..k])
    {
      ItemsStep(redact, blocks, ranked, k);
      var criteria := Criteria(ranked[k]);
      if ranked[k].passed && criteria == [] {
        continue;
      }
      var more := TargetItems(redact, blocks, ranked[k]);
      items := items + more;
    }
    assert ranked[..|ranked|] == ranked;
    return Plan(items, items == []);
  }

  method TargetItems(redact: string -> string, blocks: map<string, Block>, c: CategoryScore) returns (items: seq<PlanItem>)
    ensures items == ItemsFor(redact, blocks, c)
  {
    hide Targets, Item;
    items := [];
    var targets := Targets(c);
    for i := 0 to |targets|
      invariant items == ItemsFor(redact, blocks, c)[..i]
    {
      items := items + [Item(redact, blocks, c, targets[i])];
    }
  }

  // ----- what the plan says

  lemma {:induction false} FirstCriterionMeaning(cs: seq<Criterion>, id: string) returns (i: nat)
    requires exists c :: c in cs && c.id == id
    ensures i < |cs| && FirstCriterion(cs, id) == Some(cs[i]) && cs[i].id == id && forall j :: 0 <= j < i ==> cs[j].id != id
  {
    i := 0;
    if cs[0].id != id {
      assert cs == [cs[0]] + cs[1..];
      i := FirstCriterionMeaning(cs[1..], id);
      i := i + 1;
    }
  }

  lemma Mentions(before: string, part: string, after: string)
    ensures Contains(part, before + part + after)
  {
    assert OccursAt(part, before + part + after, |before|);
  }

  /** An item for a criterion carries its category's score, and its focus names the criterion and its instructions. */
  lemma CriterionItem(redact: string -> string, blocks: map<string, Block>, c: CategoryScore, id: string)
    returns (text: string, found: Option<Criterion>)
    requires id != ""
    ensures var item := Item(redact, blocks, c, Some(id));
      && item.category == c.category && item.blockId == c.blockId && item.criterionId == Some(id)
      && item.score == (if c.penalizedScore.Some? then c.penalizedScore.value else 0)
      && item.focus == redact(text) && Contains(id, text)
    ensures found == if c.blockId in blocks then FirstCriterion(blocks[c.blockId].Criteria(), id) else None
    ensures found.Some? ==>
      && Contains(found.value.name, text)
      && Contains(if found.value.evidenceInstructions != "" then found.value.evidenceInstructions else found.value.description, text)
  {
    found := if c.blockId in blocks then FirstCriterion(blocks[c.blockId].Criteria(), id) else None;
    var name := if found.Some? then found.value.name else id;
    var detail :=
      if found.None? then ""
      else if found.value.evidenceInstructions != "" then found.value.evidenceInstructions
      else found.value.description;
    text := "Practice " + name + " (" + id + ")." + if detail != "" then " Focus on " + detail else "";
    hide Contains, FirstCriterion;
    FocusMentions(name, id, detail);
  }

  lemma FocusMentions(name: string, id: string, detail: string)
    ensures var text := "Practice " + name + " (" + id + ")." + if detail != "" then " Focus on " + detail else "";
      Contains(name, text) && Contains(id, text) && Contains(detail, text)
  {
    hide Contains;
    var rest := if detail != "" then " Focus on " + detail else "";
    var text := "Practice " + name + " (" + id + ")." + rest;
    assert text == "Practice " + name + (" (" + id + ")." + rest);
    Mentions("Practice ", name, " (" + id + ")." + rest);
    var before := "Practice " + name + " (";
    assert text == before + id + (")." + rest);
    Mentions(before, id, ")." + rest);
    DetailLast("Practice " + name + " (" + id + ").", detail);
  }

  lemma DetailLast(before: string, detail: string)
    ensures Contains(detail, before + if detail != "" then " Focus on " + detail else "")
  {
    hide Contains;
    if detail != "" {
      assert before + (" Focus on " + detail) == (before + " Focus on ") + detail + "";
      Mentions(before + " Focus on ", detail, "");
    } else {
      assert before + "" == before + detail + "";
      Mentions(before, detail, "");
    }
  }

  /** An item without a criterion names the category, and the block's instructions or else its guidance. */
  lemma BlockItem(redact: string -> string, blocks: map<string, Block>, c: CategoryScore) returns (text: string)
    ensures var item := Item(redact, blocks, c, None);
      && item.category == c.category && item.blockId == c.blockId && item.criterionId == None
      && item.score == (if c.penalizedScore.Some? then c.penalizedScore.value else 0)
      && item.focus == redact(text) && Contains(c.category, text)
    ensures c.blockId in blocks ==>
      var b := blocks[c.blockId];
      Contains(if b.scoringInstructions != "" then b.scoringInstructions else b.recommendationGuidance, text)
  {
    var instructions :=
      if c.blockId !in blocks then ""
      else if blocks[c.blockId].scoringInstructions != "" then blocks[c.blockId].scoringInstructions
      else blocks[c.blockId].recommendationGuidance;
    var before := "Practice " + c.category + " using the pinned rubric guidance.";
    text := before + if instructions != "" then " Focus on " + instructions else "";
    hide Contains;
    var rest := if instructions != "" then " Focus on " + instructions else "";
    assert text == "Practice " + c.category + (" using the pinned rubric guidance." + rest);
    Mentions("Practice ", c.category, " using the pinned rubric guidance." + rest);
    DetailLast(before, instructions);
  }

  lemma {:induction false} ItemOrigin(redact: string -> string, blocks: map<string, Block>, cs: seq<CategoryScore>, p: nat) returns (k: nat, t: nat)
    requires p < |AllItems(redact, blocks, cs)|
    ensures k < |cs| && t < |Targets(cs[k])| && AllItems(redact, blocks, cs)[p] == Item(redact, blocks, cs[k], Targets(cs[k])[t])
  {
    hide Targets, Item;
    var front := cs[..|cs| - 1];
    if p < |AllItems(redact, blocks, front)| {
      k, t := ItemOrigin(redact, blocks, front, p);
    } else {
      k, t := |cs| - 1, p - |AllItems(redact, blocks, front)|;
    }
  }

  /** Later items come from the same or a later category, and then from a later target. */
  lemma {:induction false} ItemOrder(redact: string -> string, blocks: map<string, Block>, cs: seq<CategoryScore>, p: nat, q: nat)
    returns (k: nat, t: nat, l: nat, u: nat)
    requires p < q < |AllItems(redact, blocks, cs)|
    ensures k < |cs| && t < |Targets(cs[k])| && AllItems(redact, blocks, cs)[p] == Item(redact, blocks, cs[k], Targets(cs[k])[t])
    ensures l < |cs| && u < |Targets(cs[l])| && AllItems(redact, blocks, cs)[q] == Item(redact, blocks, cs[l], Targets(cs[l])[u])
    ensures k < l || (k == l && t < u)
  {
    hide Targets, Item;
    var front := cs[..|cs| - 1];
    var n := |AllItems(redact, blocks, front)|;
    if q < n {
      k, t, l, u := ItemOrder(redact, blocks, front, p, q);
    } else {
      l, u := |cs| - 1, q - n;
      if p < n {
        k, t := ItemOrigin(redact, blocks, front, p);
      } else {
        k, t := |cs| - 1, p - n;
      }
    }
  }

  lemma {:induction false} ItemsEmpty(redact: string -> string, blocks: map<string, Block>, cs: seq<CategoryScore>)
    ensures AllItems(redact, blocks, cs) == [] <==> forall c :: c in cs ==> c.passed && Criteria(c) == []
  {
    hide Criteria, Item, Targets;
    if cs != [] {
      var front, last := cs[..|cs| - 1], cs[|cs| - 1];
      ItemsEmpty(redact, blocks, front);
      assert cs == front + [last];
      assert last in cs;
    }
  }

  lemma NoCriteria(c: CategoryScore)
    ensures Criteria(c) == [] <==> c.failedCriteria == [] && c.violations == []
  {
    var all := c.failedCriteria + ViolationIds(c.violations);
    if all != [] {
      assert all[0] in all;
    }
    if Criteria(c) != [] {
      assert Criteria(c)[0] in Criteria(c);
    }
  }

  /** All passing means exactly: every block passed, with no failed criterion and no violation. */
  lemma AllPassingMeaning(redact: string -> string, canonical: Canonical, snapshot: Standard)
    ensures PlanOf(redact, canonical, snapshot).allPassing <==>
      && canonical.status == Evaluated
      && forall c :: c in canonical.categories ==> c.passed && c.failedCriteria == [] && c.violations == []
  {
    hide AllItems, Criteria, SortBy, BlockMap;
    var ranked := RankedCategories(snapshot, canonical);
    ItemsEmpty(redact, BlockMap(snapshot.blocks), ranked);
    forall c ensures Criteria(c) == [] <==> c.failedCriteria == [] && c.violations == [] { NoCriteria(c); }
    assert forall c :: c in ranked <==> c in multiset(ranked);
    assert forall c :: c in canonical.categories <==> c in multiset(canonical.categories);
  }
}
