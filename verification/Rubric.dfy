/** Rubric content, AI observations and scored results, with the bounds that
    schema parsing enforces on each of them. */
module Rubric {

  datatype Option<+T> = None | Some(value: T)

  datatype Result<+T, +E> = Ok(value: T) | Err(error: E)

  /** A positive behaviour or a violation: the two have the same fields. */
  datatype Criterion = Criterion(id: string, name: string, description: string, evidenceInstructions: string)

  datatype Penalty = Penalty(violationId: string, deduction: int, maxOccurrences: int)

  datatype Block = Block(
    id: string, category: string, weight: int, passingScore: int, scoringInstructions: string,
    positiveBehaviors: seq<Criterion>, violations: seq<Criterion>, penalties: seq<Penalty>,
    recommendationGuidance: string, displayOrder: int)
  {
    /** The criteria a finding or recommendation in this block may cite. */
    function Criteria(): seq<Criterion> { positiveBehaviors + violations }
    predicate HasCriterion(id: string) { exists c :: c in Criteria() && c.id == id }
    predicate HasViolation(id: string) { exists c :: c in violations && c.id == id }
  }

  datatype Standard = Standard(schemaVersion: int, overallPassingScore: int, blocks: seq<Block>)

  predicate IsSlug(s: string) {
    && 1 <= |s| <= 120
    && s[0] != '-' && s[|s| - 1] != '-'
    && (forall i | 0 <= i < |s| :: 'a' <= s[i] <= 'z' || '0' <= s[i] <= '9' || s[i] == '-')
    && (forall i | 0 < i < |s| :: s[i - 1] == '-' ==> s[i] != '-')
  }
  predicate ShortText(s: string) { 1 <= |s| <= 120 }
  predicate LongText(s: string) { 1 <= |s| <= 10000 }
  predicate Percentage(n: int) { 0 <= n <= 100 }

  predicate CriterionSchema(c: Criterion) {
    IsSlug(c.id) && ShortText(c.name) && LongText(c.description) && LongText(c.evidenceInstructions)
  }

  predicate BlockSchema(b: Block) {
    && IsSlug(b.id) && ShortText(b.category) && Percentage(b.weight) && Percentage(b.passingScore)
    && LongText(b.scoringInstructions) && LongText(b.recommendationGuidance) && 0 <= b.displayOrder
    && (forall c :: c in b.positiveBehaviors ==> CriterionSchema(c))
    && (forall c :: c in b.violations ==> CriterionSchema(c))
    && (forall p :: p in b.penalties ==>
          IsSlug(p.violationId) && Percentage(p.deduction) && Percentage(p.maxOccurrences))
  }

  predicate StandardSchema(s: Standard) {
    && 1 <= s.schemaVersion && Percentage(s.overallPassingScore)
    && (forall b :: b in s.blocks ==> BlockSchema(b))
  }

  /** `{block.id: block for block in blocks}`: a later block replaces an earlier one. */
  function BlockMap(blocks: seq<Block>): (m: map<string, Block>)
    ensures forall id :: id in m ==> m[id] in blocks && m[id].id == id
    ensures forall b :: b in blocks ==> b.id in m
  {
    if blocks == [] then map[]
    else
      var last := blocks[|blocks| - 1];
      BlockMap(blocks[..|blocks| - 1])[last.id := last]
  }

  /** The block found under an id is the last one that has it. */
  lemma {:induction false} BlockMapMeaning(blocks: seq<Block>, i: nat)
    requires i < |blocks| && forall j :: i < j < |blocks| ==> blocks[j].id != blocks[i].id
    ensures blocks[i].id in BlockMap(blocks) && BlockMap(blocks)[blocks[i].id] == blocks[i]
  {
    if i < |blocks| - 1 {
      BlockMapMeaning(blocks[..|blocks| - 1], i);
      assert blocks[|blocks| - 1].id != blocks[i].id;
    }
  }

  datatype Evidence = Evidence(sequence: int, speaker: string, excerpt: string, explanation: string)

  /** A cited strength or violation: the criterion, why, and where in the transcript. */
  datatype Finding = Finding(id: string, explanation: string, sequences: seq<int>)

  datatype RecommendationInput = RecommendationInput(criterionId: string, sequence: int, need: string)

  datatype CategoryObservation = CategoryObservation(
    blockId: string, rawScore: Option<int>, evidence: seq<Evidence>, strengths: seq<Finding>,
    violations: seq<Finding>, failedCriteria: seq<string>, inputs: seq<RecommendationInput>)

  datatype AppliedTechnique = AppliedTechnique(
    name: string, executionType: string, description: string, sequences: seq<int>)

  datatype MissedTechnique = MissedTechnique(name: string, reason: string)

  datatype Status = Evaluated | NotApplicable

  datatype Observation = Observation(
    status: Status, summary: string, categories: seq<CategoryObservation>,
    applied: seq<AppliedTechnique>, missed: seq<MissedTechnique>)

  predicate EvidenceSchema(e: Evidence) {
    0 <= e.sequence && e.speaker in ["agent", "debtor"] && LongText(e.excerpt) && LongText(e.explanation)
  }

  predicate FindingSchema(f: Finding) {
    IsSlug(f.id) && LongText(f.explanation) && f.sequences != [] && (forall n :: n in f.sequences ==> 0 <= n)
  }

  predicate InputSchema(i: RecommendationInput) {
    IsSlug(i.criterionId) && 0 <= i.sequence && LongText(i.need)
  }

  /** What parsing guarantees of the lists an observed and a scored category share. */
  predicate ListsSchema(evidence: seq<Evidence>, strengths: seq<Finding>, violations: seq<Finding>,
                        failedCriteria: seq<string>, inputs: seq<RecommendationInput>)
  {
    && (forall e :: e in evidence ==> EvidenceSchema(e))
    && (forall f :: f in strengths ==> FindingSchema(f))
    && (forall f :: f in violations ==> FindingSchema(f))
    && (forall id :: id in failedCriteria ==> IsSlug(id))
    && (forall i :: i in inputs ==> InputSchema(i))
  }

  predicate CategorySchema(c: CategoryObservation) {
    && IsSlug(c.blockId)
    && (c.rawScore.Some? ==> Percentage(c.rawScore.value))
    && ListsSchema(c.evidence, c.strengths, c.violations, c.failedCriteria, c.inputs)
  }

  predicate AppliedSchema(t: AppliedTechnique) {
    && LongText(t.name) && LongText(t.description)
    && t.executionType in ["Executed Properly", "Weak Execution", "Misapplied"]
    && t.sequences != [] && (forall n :: n in t.sequences ==> 0 <= n)
  }

  predicate MissedSchema(t: MissedTechnique) {
    LongText(t.name) && LongText(t.reason)
  }

  /** Scores are present exactly when the session was evaluated. */
  predicate ScoresMatchStatus(o: Observation) {
    forall c :: c in o.categories ==> (c.rawScore.Some? <==> o.status == Evaluated)
  }

  /** No technique name repeats, up to case, within or across the two lists. */
  predicate TechniquesDisjoint(fold: string -> string, o: Observation) {
    && (forall i, j :: 0 <= i < j < |o.applied| ==> fold(o.applied[i].name) != fold(o.applied[j].name))
    && (forall i, j :: 0 <= i < j < |o.missed| ==> fold(o.missed[i].name) != fold(o.missed[j].name))
    && (forall i, j :: 0 <= i < |o.applied| && 0 <= j < |o.missed| ==>
          fold(o.applied[i].name) != fold(o.missed[j].name))
  }

  predicate ObservationSchema(fold: string -> string, o: Observation) {
    && LongText(o.summary) && o.categories != []
    && (forall c :: c in o.categories ==> CategorySchema(c))
    && (forall t :: t in o.applied ==> AppliedSchema(t))
    && (forall t :: t in o.missed ==> MissedSchema(t))
    && ScoresMatchStatus(o)
    && TechniquesDisjoint(fold, o)
  }

  datatype CategoryScore = CategoryScore(
    blockId: string, category: string, rawScore: Option<int>, penaltyTotal: int,
    penalizedScore: Option<int>, weight: int, contribution: real, passingScore: int, passed: bool,
    evidence: seq<Evidence>, strengths: seq<Finding>, violations: seq<Finding>,
    failedCriteria: seq<string>, inputs: seq<RecommendationInput>)

  datatype Recommendation = Recommendation(
    blockId: string, blockName: Option<string>, criterionId: string, criterionName: Option<string>,
    displayOrder: Option<int>, sequence: int, sourceSpeaker: Option<string>, sourceExcerpt: Option<string>,
    explanation: string, response: string, advice: string,
    versionId: Option<int>, versionNumber: Option<int>)

  datatype Canonical = Canonical(
    status: Status, summary: string, categories: seq<CategoryScore>, weightedTotal: real,
    passingScore: int, passed: bool, applied: seq<AppliedTechnique>, missed: seq<MissedTechnique>,
    recommendations: seq<Recommendation>)

  predicate CategoryScoreSchema(c: CategoryScore) {
    && IsSlug(c.blockId) && LongText(c.category)
    && (c.rawScore.Some? ==> Percentage(c.rawScore.value)) && 0 <= c.penaltyTotal
    && (c.penalizedScore.Some? ==> Percentage(c.penalizedScore.value)) && Percentage(c.weight)
    && 0.0 <= c.contribution <= 100.0 && Percentage(c.passingScore)
    && ListsSchema(c.evidence, c.strengths, c.violations, c.failedCriteria, c.inputs)
  }

  predicate RecommendationSchema(r: Recommendation) {
    && IsSlug(r.blockId) && (r.blockName.Some? ==> LongText(r.blockName.value))
    && IsSlug(r.criterionId) && (r.criterionName.Some? ==> LongText(r.criterionName.value))
    && (r.displayOrder.Some? ==> 0 <= r.displayOrder.value) && 0 <= r.sequence
    && (r.sourceSpeaker.Some? ==> r.sourceSpeaker.value in ["agent", "debtor"])
    && (r.sourceExcerpt.Some? ==> LongText(r.sourceExcerpt.value))
    && LongText(r.explanation) && LongText(r.response) && LongText(r.advice)
    && (r.versionNumber.Some? ==> 1 <= r.versionNumber.value)
  }

  predicate CanonicalSchema(c: Canonical) {
    && LongText(c.summary) && 0.0 <= c.weightedTotal <= 100.0 && Percentage(c.passingScore)
    && (forall s :: s in c.categories ==> CategoryScoreSchema(s))
    && (forall t :: t in c.applied ==> AppliedSchema(t))
    && (forall t :: t in c.missed ==> MissedSchema(t))
    && (forall r :: r in c.recommendations ==> RecommendationSchema(r))
  }
}
