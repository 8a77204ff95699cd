/** Prioritized, criterion-grounded recommendations from a canonical result. */
module Recommendations {
  import opened Rubric
  import opened Sorting
  import opened Text
  import opened ObservationValidator
  import opened Ranking

  const SAFE_EXPLANATION := "The cited rubric criterion needs improvement based on validated evidence."
  const SAFE_RESPONSE := "At the referenced moment, follow the cited criterion and pinned rubric guidance."
  const SAFE_ADVICE := "Use the pinned rubric guidance at the cited evidence moment."

  datatype RecommendationError =
    | UnknownBlock(blockId: string)
    | UnsupportedCriterion(id: string)
    | LacksEvidence(id: string)
    | NotLinked(id: string)

  /** Redacted, at most 10000 characters, and never empty. */
  function SafeText(redact: string -> string, value: string, fallback: string): (r: string)
    requires LongText(fallback)
    ensures LongText(r)
  {
    var redacted := redact(value);
    var sanitized := Strip(if |redacted| > 10000 then redacted[..10000] else redacted);
    if sanitized != "" then sanitized else fallback
  }

  /** The redacted text up to its 10000th character, without the whitespace around it; the fallback only if that is nothing. */
  lemma SafeTextMeaning(redact: string -> string, value: string, fallback: string) returns (a: nat, b: nat)
    requires LongText(fallback)
    ensures var cut := if |redact(value)| > 10000 then redact(value)[..10000] else redact(value);
      && a <= b <= |cut| && AllSpace(cut[..a]) && AllSpace(cut[b..])
      && SafeText(redact, value, fallback) == (if AllSpace(cut) then fallback else cut[a..b])
      && (!AllSpace(cut) ==> a < b && !IsSpace(cut[a]) && !IsSpace(cut[b - 1]))
  {
    var cut := if |redact(value)| > 10000 then redact(value)[..10000] else redact(value);
    a, b := StripMeaning(cut);
    BlankMeaning(cut);
  }

  // ----- findings, as the builder collects them

  function Findings(c: CategoryScore): seq<Finding> { c.strengths + c.violations }

  /** The explanation of the last finding about `id`. */
  function LastExplanation(findings: seq<Finding>, id: string): Option<string> {
    if findings == [] then None
    else if findings[|findings| - 1].id == id then Some(findings[|findings| - 1].explanation)
    else LastExplanation(findings[..|findings| - 1], id)
  }

  /** A later finding about the same criterion replaces an earlier explanation. */
  lemma {:induction false} LastExplanationMeaning(findings: seq<Finding>, id: string, text: string)
    ensures LastExplanation(findings, id) == Some(text) <==>
      exists i :: 0 <= i < |findings| && findings[i].id == id && findings[i].explanation == text
        && forall j :: i < j < |findings| ==> findings[j].id != id
  {
    if findings != [] {
      var front, n := findings[..|findings| - 1], |findings| - 1;
      LastExplanationMeaning(front, id, text);
      assert forall i :: 0 <= i < n ==> front[i] == findings[i];
      if findings[n].id == id {
        assert LastExplanation(findings, id) == Some(findings[n].explanation);
      } else if i :| 0 <= i < n && front[i].id == id && front[i].explanation == text && forall j :: i < j < n ==> front[j].id != id {
        assert findings[i].id == id;
      }
    }
  }

  ghost predicate CollectsEvidence(findings: seq<Finding>, m: map<string, set<int>>) {
    forall id :: (id in m <==> Cites(findings, id)) && (id in m ==> m[id] == Cited(findings, id))
  }

  ghost predicate CollectsExplanations(findings: seq<Finding>, m: map<string, string>) {
    forall id :: (id in m <==> LastExplanation(findings, id).Some?) && (id in m ==> LastExplanation(findings, id) == Some(m[id]))
  }

  lemma ExplanationStep(findings: seq<Finding>, i: nat, id: string)
    requires i < |findings|
    ensures LastExplanation(findings[..i + 1], id)
      == if findings[i].id == id then Some(findings[i].explanation) else LastExplanation(findings[..i], id)
  {
    assert findings[..i + 1][..i] == findings[..i];
  }

  lemma CollectStep(findings: seq<Finding>, i: nat, evidence: map<string, set<int>>, explanations: map<string, string>)
    requires i < |findings| && CollectsEvidence(findings[..i], evidence) && CollectsExplanations(findings[..i], explanations)
    ensures CollectsEvidence(findings[..i + 1], AddCited(evidence, findings[i].id, findings[i].sequences))
    ensures CollectsExplanations(findings[..i + 1], explanations[findings[i].id := findings[i].explanation])
  {
    hide Cites, Cited, LastExplanation;
    var f := findings[i];
    forall id
      ensures Cites(findings[..i + 1], id) == (Cites(findings[..i], id) || f.id == id)
      ensures Cited(findings[..i + 1], id) == Cited(findings[..i], id) + (if f.id == id then set n | n in f.sequences else {})
    {
      CitedStep(findings, i, id);
    }
    NoneCited(findings[..i], f.id);
    ExplanationsStep(findings, i, explanations);
  }

  lemma ExplanationsStep(findings: seq<Finding>, i: nat, explanations: map<string, string>)
    requires i < |findings| && CollectsExplanations(findings[..i], explanations)
    ensures CollectsExplanations(findings[..i + 1], explanations[findings[i].id := findings[i].explanation])
  {
    hide LastExplanation;
    var after := explanations[findings[i].id := findings[i].explanation];
    forall id
      ensures id in after <==> LastExplanation(findings[..i + 1], id).Some?
      ensures id in after ==> LastExplanation(findings[..i + 1], id) == Some(after[id])
    {
      ExplanationStep(findings, i, id);
    }
  }

  lemma NoneCited(findings: seq<Finding>, id: string)
    ensures !Cites(findings, id) ==> Cited(findings, id) == {}
  {
  }

  method CollectFindings(c: CategoryScore) returns (evidence: map<string, set<int>>, explanations: map<string, string>)
    ensures CollectsEvidence(Findings(c), evidence) && CollectsExplanations(Findings(c), explanations)
  {
    evidence, explanations := map[], map[];
    var findings := Findings(c);
    for i := 0 to |findings|
      invariant CollectsEvidence(findings[..i], evidence)
      invariant CollectsExplanations(findings[..i], explanations)
    {
      var f := findings[i];
      CollectStep(findings, i, evidence, explanations);
      evidence := AddCited(evidence, f.id, f.sequences);
      explanations := explanations[f.id := f.explanation];
    }
    assert findings[..|findings|] == findings;
  }

  lemma {:induction false} CitedHasExplanation(findings: seq<Finding>, id: string)
    ensures Cites(findings, id) <==> LastExplanation(findings, id).Some?
  {
    if findings != [] {
      var front, last := findings[..|findings| - 1], findings[|findings| - 1];
      CitedHasExplanation(front, id);
      assert findings == front + [last];
      assert last in findings;
    }
  }

  ghost predicate IsMin(s: set<int>, m: int) {
    m in s && forall n :: n in s ==> m <= n
  }

  lemma EmptyOrInhabited(s: set<int>)
    ensures s == {} || exists n :: n in s
  {
    if forall n :: n !in s {
      assert s == {};
    }
  }

  lemma {:induction false} MinExists(s: set<int>)
    requires s != {}
    ensures exists m :: IsMin(s, m)
  {
    EmptyOrInhabited(s);
    var m :| m in s;
    if s == {m} {
      assert IsMin(s, m);
    } else {
      assert s - {m} != {};
      MinExists(s - {m});
      var rest :| IsMin(s - {m}, rest);
      assert forall n :: n in s ==> n == m || n in s - {m};
      assert IsMin(s, if m <= rest then m else rest);
    }
  }

  function MinOf(s: set<int>): (m: int)
    requires s != {}
    ensures m in s && forall n :: n in s ==> m <= n
  {
    MinExists(s);
    assert exists m :: m in s && forall n :: n in s ==> m <= n by {
      var m :| IsMin(s, m);
    }
    var m :| m in s && forall n :: n in s ==> m <= n;
    m
  }

  // ----- the recommendation inputs of a category

  /** An explicit input for every violation, at the first place it cites. */
  function FromViolations(findings: seq<Finding>): (r: seq<RecommendationInput>) {
    if findings == [] then []
    else
      (if findings[0].sequences == [] then []
       else [RecommendationInput(findings[0].id, findings[0].sequences[0], findings[0].explanation)])
      + FromViolations(findings[1..])
  }

  /** Schema parsing leaves no finding without a sequence. */
  predicate AllCite(findings: seq<Finding>) {
    forall f :: f in findings ==> f.sequences != []
  }

  lemma CitedNonEmpty(findings: seq<Finding>, id: string)
    requires AllCite(findings) && Cites(findings, id)
    ensures Cited(findings, id) != {} && LastExplanation(findings, id).Some?
  {
    CitedHasExplanation(findings, id);
    var f :| f in findings && f.id == id;
    var n := f.sequences[0];
    assert n in f.sequences;
    assert n in Cited(findings, id);
  }

  /** The input made for a failed criterion that has a finding: the earliest place cited for it. */
  function FromFailed(findings: seq<Finding>, id: string): RecommendationInput
    requires AllCite(findings) && Cites(findings, id)
  {
    CitedNonEmpty(findings, id);
    RecommendationInput(id, MinOf(Cited(findings, id)), LastExplanation(findings, id).value)
  }

  function FromAllFailed(findings: seq<Finding>, failed: seq<string>): seq<RecommendationInput>
    requires AllCite(findings)
  {
    if failed == [] then []
    else
      var id := failed[|failed| - 1];
      FromAllFailed(findings, failed[..|failed| - 1]) + (if Cites(findings, id) then [FromFailed(findings, id)] else [])
  }

  /** What the category asks to be recommended: its own inputs, or else ones made from its findings. */
  function CategoryInputs(c: CategoryScore): seq<RecommendationInput>
    requires AllCite(Findings(c))
  {
    if c.inputs != [] then c.inputs else FromViolations(c.violations) + FromAllFailed(Findings(c), c.failedCriteria)
  }

  lemma SchemaCites(c: CategoryScore)
    requires CategoryScoreSchema(c)
    ensures AllCite(Findings(c))
  {
  }

  /** The first grounding rule an input breaks. */
  function LinkError(b: Block, c: CategoryScore, i: RecommendationInput): Option<RecommendationError> {
    if !b.HasCriterion(i.criterionId) then Some(UnsupportedCriterion(i.criterionId))
    else if !Cites(Findings(c), i.criterionId) && i.criterionId !in c.failedCriteria then Some(LacksEvidence(i.criterionId))
    else
      var allowed := if Cites(Findings(c), i.criterionId) then Cited(Findings(c), i.criterionId) else EvidenceSequences(c.evidence);
      if i.sequence !in allowed then Some(NotLinked(i.criterionId)) else None
  }

  /** `{item.id: item}[id]`: the last declaration of the criterion. */
  function LastCriterion(cs: seq<Criterion>, id: string): (r: Criterion)
    requires exists c :: c in cs && c.id == id
    ensures r in cs && r.id == id
  {
    if cs[|cs| - 1].id == id then cs[|cs| - 1]
    else
      assert cs == cs[..|cs| - 1] + [cs[|cs| - 1]];
      LastCriterion(cs[..|cs| - 1], id)
  }

  function FirstEvidence(evidence: seq<Evidence>, sequence: int): (r: Option<Evidence>)
    ensures r.Some? <==> sequence in EvidenceSequences(evidence)
    ensures r.Some? ==> r.value in evidence && r.value.sequence == sequence
  {
    if evidence == [] then None
    else if evidence[0].sequence == sequence then Some(evidence[0])
    else
      assert evidence == [evidence[0]] + evidence[1..];
      FirstEvidence(evidence[1..], sequence)
  }

  /** A criterion declared again replaces the earlier declaration. */
  lemma {:induction false} LastCriterionMeaning(cs: seq<Criterion>, id: string) returns (i: nat)
    requires exists c :: c in cs && c.id == id
    ensures i < |cs| && LastCriterion(cs, id) == cs[i] && cs[i].id == id && forall j :: i < j < |cs| ==> cs[j].id != id
  {
    i := |cs| - 1;
    if cs[i].id != id {
      assert cs == cs[..|cs| - 1] + [cs[|cs| - 1]];
      i := LastCriterionMeaning(cs[..|cs| - 1], id);
    }
  }

  /** The source is the first evidence at the position. */
  lemma {:induction false} FirstEvidenceMeaning(evidence: seq<Evidence>, sequence: int) returns (i: nat)
    requires sequence in EvidenceSequences(evidence)
    ensures i < |evidence| && FirstEvidence(evidence, sequence) == Some(evidence[i]) && evidence[i].sequence == sequence
    ensures forall j :: 0 <= j < i ==> evidence[j].sequence != sequence
  {
    i := 0;
    if evidence[0].sequence != sequence {
      assert evidence == [evidence[0]] + evidence[1..];
      i := FirstEvidenceMeaning(evidence[1..], sequence);
      i := i + 1;
    }
  }

  datatype Version = Version(id: Option<int>, number: Option<int>)

  datatype Candidate = Candidate(rank: ItemRank, recommendation: Recommendation)

  function Gap(b: Block, c: CategoryScore): int {
    var score := if c.penalizedScore.Some? then c.penalizedScore.value else 0;
    if b.passingScore > score then b.passingScore - score else 0
  }

  function RankOf(b: Block, c: CategoryScore): BlockRank {
    BlockRank(Gap(b, c), c.penaltyTotal, b.displayOrder, b.id)
  }

  function CandidateOf(redact: string -> string, version: Version, b: Block, c: CategoryScore, i: RecommendationInput): Candidate
    requires b.HasCriterion(i.criterionId)
  {
    var criterion := LastCriterion(b.Criteria(), i.criterionId);
    var source := FirstEvidence(c.evidence, i.sequence);
    var explained := LastExplanation(Findings(c), i.criterionId);
    Candidate(
      ItemRank(RankOf(b, c), i.criterionId, i.sequence),
      Recommendation(
        b.id, Some(b.category), i.criterionId, Some(criterion.name), Some(b.displayOrder), i.sequence,
        if source.Some? then Some(source.value.speaker) else None,
        if source.Some? then Some(source.value.excerpt) else None,
        SafeText(redact, if explained.Some? then explained.value else i.need, SAFE_EXPLANATION),
        SafeText(redact, "At the referenced moment, apply " + criterion.name + ": " + criterion.description
          + " Address the identified need: " + i.need + ". " + b.recommendationGuidance, SAFE_RESPONSE),
        SafeText(redact, b.recommendationGuidance + " Use this criterion's evidence instruction: "
          + criterion.evidenceInstructions, SAFE_ADVICE),
        version.id, version.number))
  }

  predicate CandidateLe(a: Candidate, b: Candidate) {
    ItemRankLe(a.rank, b.rank)
  }

  lemma CandidateLePreorder()
    ensures TotalPreorder(CandidateLe)
  {
    forall a, b ensures CandidateLe(a, b) || CandidateLe(b, a) { ItemRankTotal(a.rank, b.rank); }
    forall a, b, c | CandidateLe(a, b) && CandidateLe(b, c) ensures CandidateLe(a, c) {
      ItemRankTransitive(a.rank, b.rank, c.rank);
    }
  }

  /** Every input of the category passes the grounding rules. */
  ghost predicate CategoryLinked(blocks: map<string, Block>, c: CategoryScore)
    requires AllCite(Findings(c))
  {
    c.blockId in blocks && forall i :: i in CategoryInputs(c) ==> LinkError(blocks[c.blockId], c, i).None?
  }

  ghost predicate Linked(blocks: map<string, Block>, canonical: Canonical)
    requires CanonicalSchema(canonical)
  {
    forall c :: c in canonical.categories ==> AllCite(Findings(c)) && CategoryLinked(blocks, c)
  }

  function CandidatesOf(redact: string -> string, version: Version, b: Block, c: CategoryScore, inputs: seq<RecommendationInput>): (r: seq<Candidate>)
    requires forall i :: i in inputs ==> b.HasCriterion(i.criterionId)
    ensures |r| == |inputs| && forall k :: 0 <= k < |r| ==> r[k] == CandidateOf(redact, version, b, c, inputs[k])
  {
    seq(|inputs|, (k: nat) requires k < |inputs| => CandidateOf(redact, version, b, c, inputs[k]))
  }

  lemma LinkedCriteria(blocks: map<string, Block>, c: CategoryScore)
    requires AllCite(Findings(c)) && CategoryLinked(blocks, c)
    ensures forall i :: i in CategoryInputs(c) ==> blocks[c.blockId].HasCriterion(i.criterionId)
  {
  }

  ghost function AllCandidates(redact: string -> string, version: Version, blocks: map<string, Block>, cs: seq<CategoryScore>): seq<Candidate>
    requires forall c :: c in cs ==> AllCite(Findings(c)) && CategoryLinked(blocks, c)
  {
    if cs == [] then []
    else
      var last := cs[|cs| - 1];
      assert last in cs;
      LinkedCriteria(blocks, last);
      AllCandidates(redact, version, blocks, cs[..|cs| - 1])
      + CandidatesOf(redact, version, blocks[last.blockId], last, CategoryInputs(last))
  }

  function Unwrap(cs: seq<Candidate>): (r: seq<Recommendation>)
    ensures |r| == |cs| && forall i :: 0 <= i < |r| ==> r[i] == cs[i].recommendation
  {
    seq(|cs|, (i: nat) requires i < |cs| => cs[i].recommendation)
  }

  /** The ranked list of a linked, evaluated result. */
  ghost function Ranked(redact: string -> string, version: Version, snapshot: Standard, canonical: Canonical): seq<Recommendation>
    requires CanonicalSchema(canonical) && Linked(BlockMap(snapshot.blocks), canonical)
  {
    Unwrap(SortBy(CandidateLe, AllCandidates(redact, version, BlockMap(snapshot.blocks), canonical.categories)))
  }

  // ----- the builder

  method SelectInputs(c: CategoryScore, evidence: map<string, set<int>>, explanations: map<string, string>) returns (inputs: seq<RecommendationInput>)
    requires AllCite(Findings(c))
    requires CollectsEvidence(Findings(c), evidence) && CollectsExplanations(Findings(c), explanations)
    ensures inputs == CategoryInputs(c)
  {
    hide LastExplanation, Cited, FromViolations, MinOf;
    inputs := c.inputs;
    if inputs == [] {
      inputs := FromViolations(c.violations);
      var failed := c.failedCriteria;
      for i := 0 to |failed|
        invariant inputs == FromViolations(c.violations) + FromAllFailed(Findings(c), failed[..i])
      {
        assert failed[..i + 1][..i] == failed[..i];
        if failed[i] in evidence {
          CitedNonEmpty(Findings(c), failed[i]);
          inputs := inputs + [RecommendationInput(failed[i], MinOf(evidence[failed[i]]), explanations[failed[i]])];
        }
      }
      assert failed[..|failed|] == failed;
    }
  }

  /** The grounding checks and the candidate for one input. */
  method CheckedCandidate(redact: string -> string, version: Version, b: Block, c: CategoryScore, i: RecommendationInput,
                          evidence: map<string, set<int>>, explanations: map<string, string>)
    returns (r: Result<Candidate, RecommendationError>)
    requires CollectsEvidence(Findings(c), evidence) && CollectsExplanations(Findings(c), explanations)
    ensures r.Err? ==> LinkError(b, c, i) == Some(r.error)
    ensures r.Ok? ==> LinkError(b, c, i).None? && r.value == CandidateOf(redact, version, b, c, i)
  {
    hide CandidateOf;
    if !b.HasCriterion(i.criterionId) {
      return Err(UnsupportedCriterion(i.criterionId));
    }
    var allowed := EvidenceSequences(c.evidence);
    if i.criterionId in evidence {
      allowed := evidence[i.criterionId];
    } else if i.criterionId !in c.failedCriteria {
      return Err(LacksEvidence(i.criterionId));
    }
    if i.sequence !in allowed {
      return Err(NotLinked(i.criterionId));
    }
    var x := MakeCandidate(redact, version, b, c, i, explanations);
    r := Ok(x);
  }

  /** The candidate, with its texts taken from the collected explanations. */
  method MakeCandidate(redact: string -> string, version: Version, b: Block, c: CategoryScore, i: RecommendationInput,
                       explanations: map<string, string>) returns (x: Candidate)
    requires b.HasCriterion(i.criterionId) && CollectsExplanations(Findings(c), explanations)
    ensures x == CandidateOf(redact, version, b, c, i)
  {
    var criterion := LastCriterion(b.Criteria(), i.criterionId);
    var source := FirstEvidence(c.evidence, i.sequence);
    var explanation := SafeText(redact, if i.criterionId in explanations then explanations[i.criterionId] else i.need, SAFE_EXPLANATION);
    var response := SafeText(redact, "At the referenced moment, apply " + criterion.name + ": " + criterion.description
      + " Address the identified need: " + i.need + ". " + b.recommendationGuidance, SAFE_RESPONSE);
    var advice := SafeText(redact, b.recommendationGuidance + " Use this criterion's evidence instruction: "
      + criterion.evidenceInstructions, SAFE_ADVICE);
    var score := if c.penalizedScore.Some? then c.penalizedScore.value else 0;
    var gap := if b.passingScore > score then b.passingScore - score else 0;
    x := Candidate(
      ItemRank(BlockRank(gap, c.penaltyTotal, b.displayOrder, b.id), i.criterionId, i.sequence),
      Recommendation(b.id, Some(b.category), i.criterionId, Some(criterion.name), Some(b.displayOrder), i.sequence,
        if source.Some? then Some(source.value.speaker) else None,
        if source.Some? then Some(source.value.excerpt) else None,
        explanation, response, advice, version.id, version.number));
  }

  lemma CheckInputsStep(b: Block, c: CategoryScore, inputs: seq<RecommendationInput>, k: nat)
    requires k < |inputs| && LinkError(b, c, inputs[k]).None?
    requires forall i :: i in inputs[..k] ==> LinkError(b, c, i).None?
    ensures inputs[..k + 1] == inputs[..k] + [inputs[k]]
    ensures forall i :: i in inputs[..k + 1] ==> LinkError(b, c, i).None? && b.HasCriterion(i.criterionId)
  {
    assert inputs[..k + 1] == inputs[..k] + [inputs[k]];
  }

  lemma CandidatesStep(redact: string -> string, version: Version, b: Block, c: CategoryScore, inputs: seq<RecommendationInput>, k: nat)
    requires k < |inputs| && forall i :: i in inputs[..k + 1] ==> b.HasCriterion(i.criterionId)
    ensures inputs[k] in inputs[..k + 1] && forall i :: i in inputs[..k] ==> b.HasCriterion(i.criterionId)
    ensures CandidatesOf(redact, version, b, c, inputs[..k + 1])
      == CandidatesOf(redact, version, b, c, inputs[..k]) + [CandidateOf(redact, version, b, c, inputs[k])]
  {
    hide CandidateOf;
    assert inputs[..k + 1] == inputs[..k] + [inputs[k]];
  }

  lemma UnlinkedInput(b: Block, c: CategoryScore, i: RecommendationInput, error: RecommendationError)
    requires AllCite(Findings(c)) && i in CategoryInputs(c) && LinkError(b, c, i) == Some(error)
    ensures exists j :: j in CategoryInputs(c) && LinkError(b, c, j) == Some(error)
  {
  }

  /** `error` is a rule that the category or one of its inputs really breaks. */
  ghost predicate Breach(blocks: map<string, Block>, c: CategoryScore, error: RecommendationError) {
    && AllCite(Findings(c))
    && if c.blockId !in blocks then error == UnknownBlock(c.blockId)
       else exists i :: i in CategoryInputs(c) && LinkError(blocks[c.blockId], c, i) == Some(error)
  }

  /** The candidates of one category, or the grounding rule one of its inputs breaks. */
  method BuildCategory(redact: string -> string, version: Version, blocks: map<string, Block>, c: CategoryScore)
    returns (r: Result<seq<Candidate>, RecommendationError>)
    requires AllCite(Findings(c))
    ensures r.Ok? <==> CategoryLinked(blocks, c)
    ensures r.Ok? ==> r.value == CandidatesOf(redact, version, blocks[c.blockId], c, CategoryInputs(c))
    ensures r.Err? ==> Breach(blocks, c, r.error)
  {
    hide LinkError, AllCite, CategoryInputs, CollectsEvidence, CollectsExplanations, CandidatesOf;
    if c.blockId !in blocks {
      return Err(UnknownBlock(c.blockId));
    }
    var b := blocks[c.blockId];
    var evidence, explanations := CollectFindings(c);
    var inputs := SelectInputs(c, evidence, explanations);
    var candidates: seq<Candidate> := [];
    for k := 0 to |inputs|
      invariant forall i :: i in inputs[..k] ==> LinkError(b, c, i).None? && b.HasCriterion(i.criterionId)
      invariant candidates == CandidatesOf(redact, version, b, c, inputs[..k])
    {
      var checked := CheckedCandidate(redact, version, b, c, inputs[k], evidence, explanations);
      match checked
      case Err(error) =>
        UnlinkedInput(b, c, inputs[k], error);
        return Err(error);
      case Ok(candidate) =>
        CheckInputsStep(b, c, inputs, k);
        CandidatesStep(redact, version, b, c, inputs, k);
        candidates := candidates + [candidate];
    }
    assert inputs[..|inputs|] == inputs;
    return Ok(candidates);
  }

  /** Succeeds exactly on linked results, with the ranked candidates; an error names a real breach. */
  method BuildRubricRecommendations(redact: string -> string, canonical: Canonical, snapshot: Standard, version: Version)
    returns (r: Result<seq<Recommendation>, RecommendationError>)
    requires CanonicalSchema(canonical)
    ensures canonical.status == NotApplicable ==> r == Ok([])
    ensures canonical.status == Evaluated ==> (r.Ok? <==> Linked(BlockMap(snapshot.blocks), canonical))
    ensures canonical.status == Evaluated && r.Ok? ==> r.value == Ranked(redact, version, snapshot, canonical)
    ensures r.Err? ==> exists c :: c in canonical.categories && Breach(BlockMap(snapshot.blocks), c, r.error)
  {
    hide ItemRankLe, BlockRankLe, SafeText, LinkError, CategoryInputs;
    if canonical.status == NotApplicable {
      return Ok([]);
    }
    var blocks := BlockMap(snapshot.blocks);
    var cs := canonical.categories;
    forall c | c in cs ensures AllCite(Findings(c)) { SchemaCites(c); }
    var candidates: seq<Candidate> := [];
    for k := 0 to |cs|
      invariant forall c :: c in cs[..k] ==> AllCite(Findings(c)) && CategoryLinked(blocks, c)
      invariant candidates == AllCandidates(redact, version, blocks, cs[..k])
    {
      var built := BuildCategory(redact, version, blocks, cs[k]);
      match built
      case Err(error) =>
        assert cs[k] in cs;
        return Err(error);
      case Ok(more) =>
        assert cs[..k + 1][..k] == cs[..k];
        candidates := candidates + more;
    }
    assert cs[..|cs|] == cs;
    r := Ok(Unwrap(SortBy(CandidateLe, candidates)));
  }
}
