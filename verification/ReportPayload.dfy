/** The identity and reference checks of an assembled session report. */
module ReportPayload {
  import opened Rubric
  import opened Sorting
  import opened Text
  import opened LearningPlan
  import Coaching

  datatype PayloadError =
    | BlockRepeated | CriterionRepeated | EvidenceUnknown | EvidenceRepeated
    | StrengthUnknown | ViolationUnknown | InputUnknown
    | RecommendationBlock | RecommendationEntry | RecommendationRepeated

  /** What makes two pieces of evidence the same. */
  function EvidenceKeys(evidence: seq<Evidence>): (r: seq<(int, string, string)>)
    ensures |r| == |evidence|
    ensures forall i :: 0 <= i < |r| ==> r[i] == (evidence[i].sequence, evidence[i].speaker, evidence[i].excerpt)
  {
    seq(|evidence|, (i: nat) requires i < |evidence| => (evidence[i].sequence, evidence[i].speaker, evidence[i].excerpt))
  }

  /** What makes two recommendations the same. */
  function RecommendationKeys(rs: seq<Recommendation>): (r: seq<(string, string, int)>)
    ensures |r| == |rs|
    ensures forall i :: 0 <= i < |r| ==> r[i] == (rs[i].blockId, rs[i].criterionId, rs[i].sequence)
  {
    seq(|rs|, (i: nat) requires i < |rs| => (rs[i].blockId, rs[i].criterionId, rs[i].sequence))
  }

  function BlockIdsOf(cs: seq<CategoryScore>): (r: seq<string>)
    ensures |r| == |cs| && forall i :: 0 <= i < |r| ==> r[i] == cs[i].blockId
  {
    seq(|cs|, (i: nat) requires i < |cs| => cs[i].blockId)
  }

  /** What the inputs name: criteria with their places, or criteria alone. */
  function KeysBy(place: bool, inputs: seq<RecommendationInput>): (r: seq<(string, int)>)
    ensures |r| == |inputs|
    ensures forall i :: 0 <= i < |r| ==> r[i] == (inputs[i].criterionId, if place then inputs[i].sequence else 0)
  {
    seq(|inputs|, (i: nat) requires i < |inputs| => (inputs[i].criterionId, if place then inputs[i].sequence else 0))
  }

  function InputKeys(inputs: seq<RecommendationInput>): (r: seq<(string, int)>)
    ensures |r| == |inputs| && forall i :: 0 <= i < |r| ==> r[i] == (inputs[i].criterionId, inputs[i].sequence)
  {
    KeysBy(true, inputs)
  }

  ghost predicate SequencesIn(findings: seq<Finding>, entries: set<int>) {
    forall f :: f in findings ==> forall n :: n in f.sequences ==> n in entries
  }

  /** No check of one category can fail with `e`. */
  ghost predicate CategoryPasses(entries: set<int>, c: CategoryScore, e: PayloadError) {
    match e
    case CriterionRepeated => NoRepeats(c.failedCriteria)
    case EvidenceUnknown => forall x :: x in c.evidence ==> x.sequence in entries
    case EvidenceRepeated => NoRepeats(EvidenceKeys(c.evidence))
    case StrengthUnknown => SequencesIn(c.strengths, entries)
    case ViolationUnknown => SequencesIn(c.violations, entries)
    case InputUnknown => forall i :: i in c.inputs ==> i.sequence in entries
    case _ => true
  }

  /** No check of the payload can fail with `e`. */
  ghost predicate PayloadPasses(entries: set<int>, canonical: Canonical, e: PayloadError) {
    match e
    case BlockRepeated => NoRepeats(BlockIdsOf(canonical.categories))
    case RecommendationBlock => forall r :: r in canonical.recommendations ==> r.blockId in BlockIdsOf(canonical.categories)
    case RecommendationEntry => forall r :: r in canonical.recommendations ==> r.sequence in entries
    case RecommendationRepeated => NoRepeats(RecommendationKeys(canonical.recommendations))
    case _ => forall c :: c in canonical.categories ==> CategoryPasses(entries, c, e)
  }

  method CheckDistinct<T(==)>(items: seq<T>) returns (distinct: bool)
    ensures distinct <==> NoRepeats(items)
  {
    var seen: set<T> := {};
    for i := 0 to |items|
      invariant forall x :: x in seen <==> x in items[..i]
      invariant NoRepeats(items[..i])
    {
      if items[i] in seen {
        var j :| 0 <= j < i && items[..i][j] == items[i];
        assert items[j] == items[i];
        return false;
      }
      seen := seen + {items[i]};
      assert items[..i + 1] == items[..i] + [items[i]];
    }
    assert items[..|items|] == items;
    return true;
  }

  method CheckSequencesIn(findings: seq<Finding>, entries: set<int>) returns (known: bool)
    ensures known <==> SequencesIn(findings, entries)
  {
    for i := 0 to |findings|
      invariant SequencesIn(findings[..i], entries)
    {
      if !(forall n :: n in findings[i].sequences ==> n in entries) {
        assert findings[i] in findings;
        return false;
      }
      assert findings[..i + 1] == findings[..i] + [findings[i]];
    }
    assert findings[..|findings|] == findings;
    return true;
  }

  method CheckCategory(entries: set<int>, c: CategoryScore) returns (r: Option<PayloadError>)
    ensures r.None? ==> forall e :: CategoryPasses(entries, c, e)
    ensures r.Some? ==> OfCategory(r.value) && !CategoryPasses(entries, c, r.value)
  {
    var criteriaDistinct := CheckDistinct(c.failedCriteria);
    if !criteriaDistinct {
      return Some(CriterionRepeated);
    }
    if !(forall x :: x in c.evidence ==> x.sequence in entries) {
      return Some(EvidenceUnknown);
    }
    var evidenceDistinct := CheckDistinct(EvidenceKeys(c.evidence));
    if !evidenceDistinct {
      return Some(EvidenceRepeated);
    }
    var strengthsKnown := CheckSequencesIn(c.strengths, entries);
    if !strengthsKnown {
      return Some(StrengthUnknown);
    }
    var violationsKnown := CheckSequencesIn(c.violations, entries);
    if !violationsKnown {
      return Some(ViolationUnknown);
    }
    if !(forall i :: i in c.inputs ==> i.sequence in entries) {
      return Some(InputUnknown);
    }
    return None;
  }

  /** Accepts exactly the payloads that pass every check; an error names a check that fails. */
  method ValidatePayload(entries: set<int>, canonical: Canonical) returns (r: Option<PayloadError>)
    ensures r.None? <==> forall e :: PayloadPasses(entries, canonical, e)
    ensures r.Some? ==> !PayloadPasses(entries, canonical, r.value)
  {
    hide CategoryPasses;
    var cs := canonical.categories;
    var ids := BlockIdsOf(cs);
    r := CheckCategories(entries, cs);
    if r.Some? {
      assert !PayloadPasses(entries, canonical, r.value);
      return;
    }
    if !(forall x :: x in canonical.recommendations ==> x.blockId in ids) {
      assert !PayloadPasses(entries, canonical, RecommendationBlock);
      return Some(RecommendationBlock);
    }
    if !(forall x :: x in canonical.recommendations ==> x.sequence in entries) {
      assert !PayloadPasses(entries, canonical, RecommendationEntry);
      return Some(RecommendationEntry);
    }
    var keysDistinct := CheckDistinct(RecommendationKeys(canonical.recommendations));
    if !keysDistinct {
      assert !PayloadPasses(entries, canonical, RecommendationRepeated);
      return Some(RecommendationRepeated);
    }
    return None;
  }

  predicate OfCategory(e: PayloadError) {
    e in {CriterionRepeated, EvidenceUnknown, EvidenceRepeated, StrengthUnknown, ViolationUnknown, InputUnknown}
  }

  method CheckCategories(entries: set<int>, cs: seq<CategoryScore>) returns (r: Option<PayloadError>)
    ensures r.None? ==> NoRepeats(BlockIdsOf(cs)) && forall c, e :: c in cs ==> CategoryPasses(entries, c, e)
    ensures r.Some? ==>
      if r.value == BlockRepeated then !NoRepeats(BlockIdsOf(cs))
      else OfCategory(r.value) && exists c :: c in cs && !CategoryPasses(entries, c, r.value)
  {
    hide CategoryPasses;
    var seen: set<string> := {};
    for i := 0 to |cs|
      invariant forall id :: id in seen <==> exists j :: 0 <= j < i && cs[j].blockId == id
      invariant forall j, k :: 0 <= j < k < i ==> cs[j].blockId != cs[k].blockId
      invariant forall c, e :: c in cs[..i] ==> CategoryPasses(entries, c, e)
    {
      if cs[i].blockId in seen {
        var j :| 0 <= j < i && cs[j].blockId == cs[i].blockId;
        assert BlockIdsOf(cs)[j] == BlockIdsOf(cs)[i];
        return Some(BlockRepeated);
      }
      seen := seen + {cs[i].blockId};
      r := CheckCategory(entries, cs[i]);
      if r.Some? {
        assert cs[i] in cs;
        return;
      }
      assert cs[..i + 1] == cs[..i] + [cs[i]];
    }
    assert cs[..|cs|] == cs;
    return None;
  }

  // ----- the learning-plan section

  /** Every item names a criterion, and no block's criterion twice. */
  ghost predicate PlanAccepted(items: seq<PlanItem>) {
    && (forall i :: 0 <= i < |items| ==> items[i].criterionId.Some?)
    && forall i, j :: 0 <= i < j < |items| ==> (items[i].blockId, items[i].criterionId) != (items[j].blockId, items[j].criterionId)
  }

  /** A stored plan item, as the report reads it: a legacy item names neither block nor criterion. */
  datatype ReportItem = ReportItem(blockId: Option<string>, criterionId: Option<string>, scenario: Option<nat>)

  /** Block and criterion come together, and no pair comes twice. */
  ghost predicate ItemsAccepted(items: seq<ReportItem>) {
    && (forall i :: 0 <= i < |items| ==> (items[i].blockId.Some? <==> items[i].criterionId.Some?))
    && forall i, j :: 0 <= i < j < |items| && items[i].blockId.Some? ==>
         (items[i].blockId, items[i].criterionId) != (items[j].blockId, items[j].criterionId)
  }

  method ValidatePlan(items: seq<ReportItem>) returns (ok: bool)
    ensures ok <==> ItemsAccepted(items)
  {
    var identities: set<(Option<string>, Option<string>)> := {};
    for i := 0 to |items|
      invariant forall k :: k in identities <==>
        exists j :: 0 <= j < i && items[j].blockId.Some? && (items[j].blockId, items[j].criterionId) == k
      invariant ItemsAccepted(items[..i])
    {
      if items[i].blockId.Some? != items[i].criterionId.Some? {
        return false;
      }
      if items[i].blockId.Some? {
        var identity := (items[i].blockId, items[i].criterionId);
        if identity in identities {
          return false;
        }
        identities := identities + {identity};
      }
    }
    assert items[..|items|] == items;
    return true;
  }

  /** The plan as it is stored, with the scenario it was resolved to. */
  function Filed(items: seq<PlanItem>, scenario: Option<nat>): (r: seq<ReportItem>)
    ensures |r| == |items|
    ensures forall i :: 0 <= i < |r| ==> r[i] == ReportItem(Some(items[i].blockId), items[i].criterionId, scenario)
  {
    seq(|items|, (i: nat) requires i < |items| => ReportItem(Some(items[i].blockId), items[i].criterionId, scenario))
  }

  predicate ItemKnown(failed: map<string, set<string>>, item: PlanItem) {
    item.criterionId.Some? ==> item.blockId in failed && item.criterionId.value in failed[item.blockId]
  }

  /** The assembler also wants every named criterion among the failed criteria of its block. */
  ghost predicate PlanKnown(items: seq<PlanItem>, cs: seq<CategoryScore>) {
    forall i :: 0 <= i < |items| ==> ItemKnown(FailedByBlock(cs), items[i])
  }

  /** `{category["rubric_block_id"]: set(category["failed_criteria"])}`: a later category replaces an earlier one. */
  function FailedByBlock(cs: seq<CategoryScore>): map<string, set<string>> {
    if cs == [] then map[]
    else
      var last := cs[|cs| - 1];
      FailedByBlock(cs[..|cs| - 1])[last.blockId := set id | id in last.failedCriteria]
  }

  /** With one category per block, each block has the failed criteria of its category. */
  lemma {:induction false} FailedOfCategory(cs: seq<CategoryScore>, c: CategoryScore)
    requires NoRepeats(BlockIdsOf(cs)) && c in cs
    ensures c.blockId in FailedByBlock(cs) && FailedByBlock(cs)[c.blockId] == set id | id in c.failedCriteria
  {
    var front, last := cs[..|cs| - 1], cs[|cs| - 1];
    assert cs == front + [last];
    if c in front {
      assert BlockIdsOf(cs)[..|front|] == BlockIdsOf(front);
      FailedOfCategory(front, c);
      var i :| 0 <= i < |front| && front[i] == c;
      assert BlockIdsOf(cs)[i] == c.blockId && BlockIdsOf(cs)[|front|] == last.blockId;
    }
  }

  /** What the assembler asks of one stored item: the session's scenario, and a pair that is not blank and known. */
  predicate ItemAssembled(item: ReportItem, failed: map<string, set<string>>, scenario: nat) {
    && (item.scenario.Some? ==> item.scenario.value == scenario)
    && (item.blockId.Some? && item.criterionId.Some? ==>
          && Strip(item.blockId.value) != "" && Strip(item.criterionId.value) != ""
          && (failed != map[] ==> item.blockId.value in failed && item.criterionId.value in failed[item.blockId.value]))
  }

  ghost predicate PlanAssembled(items: seq<ReportItem>, cs: seq<CategoryScore>, scenario: nat) {
    ItemsAccepted(items) && forall i :: 0 <= i < |items| ==> ItemAssembled(items[i], FailedByBlock(cs), scenario)
  }

  /** The assembler's pass over the stored plan of a session, before the section's own validation. */
  method AssemblePlan(items: seq<ReportItem>, cs: seq<CategoryScore>, scenario: nat) returns (ok: bool)
    ensures ok <==> PlanAssembled(items, cs, scenario)
  {
    hide FailedByBlock, Strip;
    var failed := FailedByBlock(cs);
    var identities: set<(Option<string>, Option<string>)> := {};
    for i := 0 to |items|
      invariant forall k :: k in identities <==>
        exists j :: 0 <= j < i && items[j].blockId.Some? && (items[j].blockId, items[j].criterionId) == k
      invariant ItemsAccepted(items[..i])
      invariant forall j :: 0 <= j < i ==> ItemAssembled(items[j], failed, scenario)
    {
      var item := items[i];
      if item.scenario.Some? && item.scenario.value != scenario {
        return false;
      }
      if item.blockId.Some? != item.criterionId.Some? {
        return false;
      }
      if item.blockId.Some? {
        if Strip(item.blockId.value) == "" || Strip(item.criterionId.value) == "" {
          return false;
        }
        var identity := (item.blockId, item.criterionId);
        if identity in identities {
          return false;
        }
        identities := identities + {identity};
        if failed != map[] && !(item.blockId.value in failed && item.criterionId.value in failed[item.blockId.value]) {
          return false;
        }
      }
    }
    assert items[..|items|] == items;
    return true;
  }

  /** The criterion is among the failed criteria of the block's category. */
  ghost predicate FailedIn(cs: seq<CategoryScore>, blockId: string, criterionId: string) {
    exists c :: c in cs && c.blockId == blockId && criterionId in c.failedCriteria
  }

  lemma {:induction false} FailedKey(cs: seq<CategoryScore>, id: string)
    ensures id in FailedByBlock(cs) <==> exists c :: c in cs && c.blockId == id
  {
    if cs != [] {
      var front, last := cs[..|cs| - 1], cs[|cs| - 1];
      FailedKey(front, id);
      assert cs == front + [last];
    }
  }

  lemma FailedExactly(cs: seq<CategoryScore>, blockId: string, criterionId: string)
    requires NoRepeats(BlockIdsOf(cs))
    ensures blockId in FailedByBlock(cs) && criterionId in FailedByBlock(cs)[blockId] <==> FailedIn(cs, blockId, criterionId)
  {
    hide FailedByBlock, NoRepeats;
    FailedKey(cs, blockId);
    forall c | c in cs && c.blockId == blockId
      ensures blockId in FailedByBlock(cs) && FailedByBlock(cs)[blockId] == set id | id in c.failedCriteria
    {
      FailedOfCategory(cs, c);
    }
  }

  /** What the assembler accepts: items for the session's scenario if for any; with both names or neither; with names that are
      not blank, and that belong to a failed criterion of the block when the evaluation has categories; and no pair twice. */
  lemma PlanAssembledPlainly(items: seq<ReportItem>, cs: seq<CategoryScore>, scenario: nat)
    requires NoRepeats(BlockIdsOf(cs))
    ensures PlanAssembled(items, cs, scenario) <==>
      && (forall i :: 0 <= i < |items| ==>
            && (items[i].scenario.Some? ==> items[i].scenario.value == scenario)
            && (items[i].blockId.Some? <==> items[i].criterionId.Some?)
            && (items[i].blockId.Some? && items[i].criterionId.Some? ==>
                  && !AllSpace(items[i].blockId.value) && !AllSpace(items[i].criterionId.value)
                  && (cs != [] ==> FailedIn(cs, items[i].blockId.value, items[i].criterionId.value))))
      && forall i, j :: 0 <= i < j < |items| && items[i].blockId.Some? ==>
           items[i].blockId != items[j].blockId || items[i].criterionId != items[j].criterionId
  {
    hide FailedByBlock, FailedIn, NoRepeats, Strip, AllSpace;
    var failed := FailedByBlock(cs);
    assert failed == map[] <==> cs == [] by { NoFailed(cs); }
    forall i | 0 <= i < |items| && items[i].blockId.Some? && items[i].criterionId.Some?
      ensures Strip(items[i].blockId.value) == "" <==> AllSpace(items[i].blockId.value)
      ensures Strip(items[i].criterionId.value) == "" <==> AllSpace(items[i].criterionId.value)
      ensures items[i].blockId.value in failed && items[i].criterionId.value in failed[items[i].blockId.value]
        <==> FailedIn(cs, items[i].blockId.value, items[i].criterionId.value)
    {
      BlankMeaning(items[i].blockId.value);
      BlankMeaning(items[i].criterionId.value);
      FailedExactly(cs, items[i].blockId.value, items[i].criterionId.value);
    }
  }

  lemma NoFailed(cs: seq<CategoryScore>)
    ensures FailedByBlock(cs) == map[] <==> cs == []
  {
    if cs != [] {
      assert cs[|cs| - 1].blockId in FailedByBlock(cs);
    }
  }

  /** A plan of the chain, stored: only its identities, its criteria and its scenario can be at fault. */
  lemma FiledExactly(items: seq<PlanItem>, cs: seq<CategoryScore>, resolved: Option<nat>, scenario: nat)
    requires cs != []
    requires forall i :: 0 <= i < |items| ==>
      Strip(items[i].blockId) != "" && (items[i].criterionId.Some? ==> Strip(items[i].criterionId.value) != "")
    ensures ItemsAccepted(Filed(items, resolved)) <==> PlanAccepted(items)
    ensures PlanAssembled(Filed(items, resolved), cs, scenario) <==>
      PlanAccepted(items) && PlanKnown(items, cs) && (items != [] && resolved.Some? ==> resolved.value == scenario)
  {
    hide Strip;
    var filed, failed := Filed(items, resolved), FailedByBlock(cs);
    assert cs[|cs| - 1].blockId in failed;
    forall i | 0 <= i < |items| && items[i].criterionId.Some?
      ensures ItemAssembled(filed[i], failed, scenario) <==>
        ItemKnown(failed, items[i]) && (resolved.Some? ==> resolved.value == scenario)
    {
    }
    if PlanAssembled(filed, cs, scenario) && items != [] {
      assert ItemAssembled(filed[0], failed, scenario);
    }
  }

  // ----- the coaching section

  datatype CoachingError = CoachingBlockRepeated | WrongBlock | CoachingCriterionRepeated | CoachingEvidenceRepeated

  function CriteriaOf(rs: seq<Recommendation>): (r: seq<string>)
    ensures |r| == |rs| && forall i :: 0 <= i < |r| ==> r[i] == rs[i].criterionId
  {
    seq(|rs|, (i: nat) requires i < |rs| => rs[i].criterionId)
  }

  function CoachingIds(blocks: seq<Coaching.CoachingBlock>): (r: seq<string>)
    ensures |r| == |blocks| && forall i :: 0 <= i < |r| ==> r[i] == blocks[i].blockId
  {
    seq(|blocks|, (i: nat) requires i < |blocks| => blocks[i].blockId)
  }

  /** Every recommendation stands under its own block, and none shares its criterion there. */
  ghost predicate BlockCoached(b: Coaching.CoachingBlock) {
    (forall r :: r in b.recommendations ==> r.blockId == b.blockId) && NoRepeats(CriteriaOf(b.recommendations))
  }

  /** Blocks are distinct and each is well coached. */
  ghost predicate CoachingAccepted(blocks: seq<Coaching.CoachingBlock>) {
    NoRepeats(CoachingIds(blocks)) && forall b :: b in blocks ==> BlockCoached(b)
  }

  /** One block; `criteria` and `evidence` hold what earlier blocks named. The evidence check never decides. */
  method CheckBlock(b: Coaching.CoachingBlock, criteria: set<(string, string)>, evidence: set<(string, string, int)>)
    returns (r: Option<CoachingError>, criteria': set<(string, string)>, evidence': set<(string, string, int)>)
    requires forall k :: k in criteria ==> k.0 != b.blockId
    requires forall k :: k in evidence ==> (k.0, k.1) in criteria
    ensures r.None? <==> BlockCoached(b)
    ensures r != Some(CoachingBlockRepeated) && r != Some(CoachingEvidenceRepeated)
    ensures r == Some(WrongBlock) ==> exists x :: x in b.recommendations && x.blockId != b.blockId
    ensures r == Some(CoachingCriterionRepeated) ==> !NoRepeats(CriteriaOf(b.recommendations))
    ensures forall k :: k in criteria' ==> k in criteria || k.0 == b.blockId
    ensures forall k :: k in evidence' ==> (k.0, k.1) in criteria'
  {
    criteria', evidence' := criteria, evidence;
    var rs := b.recommendations;
    for i := 0 to |rs|
      invariant forall k :: k in criteria' <==> k in criteria || (k.0 == b.blockId && k.1 in CriteriaOf(rs[..i]))
      invariant forall k :: k in evidence' ==> (k.0, k.1) in criteria'
      invariant (forall x :: x in rs[..i] ==> x.blockId == b.blockId) && NoRepeats(CriteriaOf(rs[..i]))
    {
      if rs[i].blockId != b.blockId {
        assert rs[i] in rs;
        return Some(WrongBlock), criteria', evidence';
      }
      assert CriteriaOf(rs[..i + 1]) == CriteriaOf(rs[..i]) + [rs[i].criterionId];
      assert rs[..i + 1] == rs[..i] + [rs[i]];
      var criterion := (b.blockId, rs[i].criterionId);
      if criterion in criteria' {
        var j :| 0 <= j < i && CriteriaOf(rs[..i])[j] == rs[i].criterionId;
        assert CriteriaOf(rs)[j] == CriteriaOf(rs)[i];
        return Some(CoachingCriterionRepeated), criteria', evidence';
      }
      criteria' := criteria' + {criterion};
      var key := (b.blockId, rs[i].criterionId, rs[i].sequence);
      if key in evidence' {
        assert false;
        return Some(CoachingEvidenceRepeated), criteria', evidence';
      }
      evidence' := evidence' + {key};
    }
    assert rs[..|rs|] == rs;
    return None, criteria', evidence';
  }

  /** The section's validator: accepts exactly the well-coached sections. */
  method ValidateCoaching(blocks: seq<Coaching.CoachingBlock>) returns (r: Option<CoachingError>)
    ensures r.None? <==> CoachingAccepted(blocks)
    ensures r == Some(CoachingBlockRepeated) ==> !NoRepeats(CoachingIds(blocks))
    ensures r.Some? && r != Some(CoachingBlockRepeated) ==> exists b :: b in blocks && !BlockCoached(b)
    ensures r != Some(CoachingEvidenceRepeated)
  {
    hide BlockCoached;
    var ids: set<string>, criteria: set<(string, string)>, evidence: set<(string, string, int)> := {}, {}, {};
    for i := 0 to |blocks|
      invariant forall id :: id in ids <==> id in CoachingIds(blocks)[..i]
      invariant NoRepeats(CoachingIds(blocks)[..i]) && forall b :: b in blocks[..i] ==> BlockCoached(b)
      invariant forall k :: k in criteria ==> k.0 in ids
      invariant forall k :: k in evidence ==> (k.0, k.1) in criteria
    {
      assert CoachingIds(blocks)[..i + 1] == CoachingIds(blocks)[..i] + [blocks[i].blockId];
      if blocks[i].blockId in ids {
        var j :| 0 <= j < i && CoachingIds(blocks)[..i][j] == blocks[i].blockId;
        assert CoachingIds(blocks)[j] == CoachingIds(blocks)[i];
        return Some(CoachingBlockRepeated);
      }
      ids := ids + {blocks[i].blockId};
      r, criteria, evidence := CheckBlock(blocks[i], criteria, evidence);
      if r.Some? {
        assert blocks[i] in blocks;
        return;
      }
      assert blocks[..i + 1] == blocks[..i] + [blocks[i]];
    }
    assert blocks[..|blocks|] == blocks && CoachingIds(blocks)[..|blocks|] == CoachingIds(blocks);
    return None;
  }
}
