/** Concrete evaluations that the services accept and the report rejects. */
module Counterexamples {
  import opened Rubric
  import opened Text
  import opened Sorting
  import StandardValidator
  import opened ObservationValidator
  import opened ScoreCalculator
  import opened ScoringTheorems
  import opened RecommendationTheorems
  import opened Recommendations
  import LearningPlan
  import opened ReportPayload
  import opened PipelineTheorems
  import opened PayloadTheorems
  import opened ReportTheorems
  import opened AssemblyTheorems
  import Assembler = ReportAssembler
  import EvaluationEngine

  const BLOCK := Block("b", "B", 100, 60, "s", [], [Criterion("v", "V", "d", "e")], [], "g", 0)

  const RUBRIC := Standard(1, 60, [BLOCK])

  /** Long enough to be evaluated: four agent turns. */
  const TALK := [Said(1), Said(2), Said(3), Said(4)]

  function Said(n: int): Turn { Turn(Some(n), Some("agent"), Some("hi"), None) }

  /** The violation is cited once, and also listed among the failed criteria. */
  const COUNTED_TWICE := CategoryObservation(
    "b", Some(50), [Evidence(1, "agent", "hi", "x")], [], [Finding("v", "x", [1])], ["v"], [])

  /** One violation, cited at two places by two findings. */
  const CITED_TWICE := CategoryObservation(
    "b", Some(50), [Evidence(1, "agent", "hi", "x"), Evidence(2, "agent", "hi", "x")], [],
    [Finding("v", "x", [1]), Finding("v", "x", [2])], [], [])

  /** One violation that is not listed among the failed criteria. */
  const NOT_LISTED := CategoryObservation(
    "b", Some(50), [Evidence(1, "agent", "hi", "x")], [], [Finding("v", "x", [1])], [], [])

  /** A failing score without any finding. */
  const UNEXPLAINED := CategoryObservation("b", Some(0), [], [], [], [], [])

  /** A passing call that quotes its first entry. */
  const QUOTED := CategoryObservation("b", Some(100), [Evidence(0, "agent", "a b", "x")], [], [], [], [])

  /** That entry stored as it is quoted, stored with two spaces, and stored from number 1 on. */
  const FAITHFUL := RowsFrom("a b", 0)
  const SPACED := RowsFrom("a  b", 0)
  const LATE := RowsFrom("a b", 1)

  function RowsFrom(text: string, n: int): (rows: seq<Assembler.Row>)
    ensures |rows| == 4
  {
    [Assembler.Row(0, "agent", text, 0, n), Assembler.Row(1, "agent", "c", 0, n + 1),
     Assembler.Row(2, "agent", "c", 0, n + 2), Assembler.Row(3, "agent", "c", 0, n + 3)]
  }

  function ObservedIn(talk: seq<Turn>, c: CategoryObservation): ValidatedObservation {
    ValidatedObservation(Observation(Evaluated, "s", [c], [], []), RUBRIC, talk)
  }

  function Observed(c: CategoryObservation): ValidatedObservation {
    ObservedIn(TALK, c)
  }

  lemma RubricPublishable(fold: string -> string)
    ensures StandardSchema(RUBRIC) && StandardValidator.Publishable(fold, RUBRIC)
  {
    OneBlockWeight(RUBRIC);
  }

  lemma OneBlockWeight(s: Standard)
    requires |s.blocks| == 1
    ensures StandardValidator.WeightTotal(s) == s.blocks[0].weight
  {
    SumOfOne((b: Block) => b.weight, s.blocks);
  }

  lemma SumOfOne<T>(f: T -> int, s: seq<T>)
    requires |s| == 1
    ensures SumOf(f, s) == f(s[0])
  {
    assert SumOf(f, s[1..]) == 0;
  }

  lemma ObservedTrusted(fold: string -> string, c: CategoryObservation)
    requires CategorySchema(c) && c.rawScore.Some? && c.blockId == "b"
    requires CategoryGrounded(Indexed(TALK, 4), BLOCK, c)
    ensures Trusted(fold, Observed(c))
  {
    hide CategoryGrounded, CategorySchema, Indexed, Trusted;
    TalkLong();
    ObservedInTrusted(fold, TALK, c);
  }

  lemma ObservedInTrusted(fold: string -> string, talk: seq<Turn>, c: CategoryObservation)
    requires CategorySchema(c) && c.rawScore.Some? && c.blockId == "b"
    requires DistinctSequences(talk) && CategoryGrounded(Indexed(talk, |talk|), BLOCK, c)
    ensures Trusted(fold, ObservedIn(talk, c))
  {
    hide CategoryGrounded, CategorySchema, Indexed, DistinctSequences;
    RubricPublishable(fold);
    var v := ObservedIn(talk, c);
    var k := Inputs(fold, v.observation, RUBRIC, talk);
    assert BlockMap(RUBRIC.blocks) == map["b" := BLOCK] by {
      assert RUBRIC.blocks[..0] == [];
    }
    assert v.observation.categories[0] == c;
    assert c in v.observation.categories && CategoryIds(k.o) == {"b"};
  }

  lemma TalkIndexed()
    ensures Indexed(TALK, 4) == map[1 := TALK[0], 2 := TALK[1], 3 := TALK[2], 4 := TALK[3]]
  {
    assert Indexed(TALK, 0) == map[];
    assert Indexed(TALK, 1) == map[1 := TALK[0]];
    assert Indexed(TALK, 2) == map[1 := TALK[0], 2 := TALK[1]];
    assert Indexed(TALK, 3) == map[1 := TALK[0], 2 := TALK[1], 3 := TALK[2]];
  }

  lemma TalkLong()
    ensures !EvaluationEngine.TooShort(TALK) && DistinctSequences(TALK)
  {
    FourAgentTurns(TALK);
  }

  /** Four agent turns are not too short. */
  lemma FourAgentTurns(talk: seq<Turn>)
    requires |talk| == 4 && forall i :: 0 <= i < 4 ==> talk[i].speaker == Some("agent")
    ensures !EvaluationEngine.TooShort(talk)
  {
    assert EvaluationEngine.AgentTurns(talk, 1) == 1;
    assert EvaluationEngine.AgentTurns(talk, 2) == 2;
    assert EvaluationEngine.AgentTurns(talk, 3) == 3;
  }

  /** Evidence that quotes either turn is grounded, and so is a violation it covers. */
  lemma QuotesGrounded(c: CategoryObservation)
    requires c.strengths == [] && c.inputs == []
    requires forall e :: e in c.evidence ==> e == Evidence(1, "agent", "hi", "x") || e == Evidence(2, "agent", "hi", "x")
    requires forall f :: f in c.violations ==> f.id == "v" && forall n :: n in f.sequences ==> n in EvidenceSequences(c.evidence)
    requires forall id :: id in c.failedCriteria ==> id == "v" && c.violations != []
    ensures CategoryGrounded(Indexed(TALK, 4), BLOCK, c)
  {
    TalkIndexed();
    hide Indexed, Normalize;
    assert BLOCK.violations[0] in BLOCK.violations && BLOCK.violations[0] in BLOCK.Criteria();
    assert OccursAt(Normalize("hi"), Normalize("hi"), 0);
    assert c.violations != [] ==> c.violations[0] in c.violations;
  }

  lemma OneQuoteSchema()
    ensures CategorySchema(COUNTED_TWICE) && CategorySchema(NOT_LISTED)
  {
  }

  lemma OneQuoteGrounded()
    ensures CategoryGrounded(Indexed(TALK, 4), BLOCK, COUNTED_TWICE) && CategoryGrounded(Indexed(TALK, 4), BLOCK, NOT_LISTED)
  {
    assert COUNTED_TWICE.evidence[0] in COUNTED_TWICE.evidence && COUNTED_TWICE.evidence == NOT_LISTED.evidence;
    assert 1 in EvidenceSequences(COUNTED_TWICE.evidence);
    hide CategoryGrounded, Indexed, EvidenceSequences;
    QuotesGrounded(COUNTED_TWICE);
    QuotesGrounded(NOT_LISTED);
  }

  lemma CountedTwiceTrusted(fold: string -> string)
    ensures Trusted(fold, Observed(COUNTED_TWICE))
  {
    OneQuoteSchema();
    OneQuoteGrounded();
    hide CategoryGrounded, CategorySchema, Trusted;
    ObservedTrusted(fold, COUNTED_TWICE);
  }

  lemma CountedTwiceAmbiguous()
    ensures AllCite(COUNTED_TWICE.violations) && !Unambiguous(COUNTED_TWICE)
  {
    var o := COUNTED_TWICE;
    var f := o.violations[0];
    assert f in o.violations && f.id in o.failedCriteria && f.sequences[0] == 1;
    forall n | n in Cited(o.strengths, "v") + Cited(o.violations, "v") ensures n == 1 {
      var g :| g in o.violations && n in g.sequences;
    }
  }

  /** Recommendation identities are not unique: a violation that is also a failed criterion is recommended twice. */
  lemma ViolationRecommendedTwice(fold: string -> string, redact: string -> string, version: Recommendations.Version)
    requires version.number.Some? ==> 1 <= version.number.value
    ensures !EvaluationEngine.TooShort(TALK)
    ensures Evaluation(fold, Observed(COUNTED_TWICE))
    ensures exists e :: !PayloadPasses(
      Entries(Observed(COUNTED_TWICE)), Reported(redact, version, Observed(COUNTED_TWICE)), e)
  {
    hide Scored, Trusted, StandardValidator.Publishable, CanonicalSchema, Linked, PayloadPasses, Unambiguous, Evaluation, Reported;
    TalkLong();
    var v := Observed(COUNTED_TWICE);
    CountedTwiceTrusted(fold);
    RubricPublishable(fold);
    EvaluationHolds(fold, v);
    PayloadAcceptedExactly(fold, redact, version, v);
    CountedTwiceAmbiguous();
    assert v.observation.categories[0] in v.observation.categories;
  }

  /** A plan item may lack its criterion: the block fails and nothing says why. */
  lemma UnexplainedFailure(fold: string -> string, redact: string -> string)
    ensures !EvaluationEngine.TooShort(TALK)
    ensures Evaluation(fold, Observed(UNEXPLAINED))
    ensures !PlanAccepted(LearningPlan.PlanOf(redact, Scored(Observed(UNEXPLAINED)), RUBRIC).items)
  {
    hide Scored, Trusted, StandardValidator.Publishable, CanonicalSchema, Linked, PlanAccepted, LearningPlan.PlanOf;
    TalkLong();
    var v := Observed(UNEXPLAINED);
    ObservedTrusted(fold, UNEXPLAINED);
    RubricPublishable(fold);
    EvaluationHolds(fold, v);
    PlanAcceptedExactly(redact, v);
    assert v.observation.categories[0] in v.observation.categories;
    var c := ScoredOf(v, UNEXPLAINED);
    UnexplainedFails(v, c);
  }

  lemma UnexplainedFails(v: ValidatedObservation, c: CategoryScore)
    requires v == Observed(UNEXPLAINED) && CategoriesKnown(v) && c in Scored(v).categories
    ensures FailsWithoutCriterion(c)
  {
    hide SortBy, BlockMap, WeightedTotal, Contribution;
    var k :| 0 <= k < |Scored(v).categories| && Scored(v).categories[k] == c;
    assert Ordered(v)[k] in multiset(v.observation.categories);
  }

  lemma CitedTwiceSchema()
    ensures CategorySchema(CITED_TWICE)
  {
  }

  lemma CitedTwiceGrounded()
    ensures CategoryGrounded(Indexed(TALK, 4), BLOCK, CITED_TWICE)
  {
    assert CITED_TWICE.evidence[0] in CITED_TWICE.evidence && CITED_TWICE.evidence[1] in CITED_TWICE.evidence;
    assert 1 in EvidenceSequences(CITED_TWICE.evidence) && 2 in EvidenceSequences(CITED_TWICE.evidence);
    hide CategoryGrounded, Indexed, EvidenceSequences;
    QuotesGrounded(CITED_TWICE);
  }

  lemma CitedTwiceTrusted(fold: string -> string)
    ensures Evaluation(fold, Observed(CITED_TWICE))
  {
    CitedTwiceSchema();
    CitedTwiceGrounded();
    hide CategoryGrounded, CategorySchema, Evaluation, Trusted, StandardValidator.Publishable;
    ObservedTrusted(fold, CITED_TWICE);
    RubricPublishable(fold);
    EvaluationHolds(fold, Observed(CITED_TWICE));
  }

  lemma CitedTwiceDistinct()
    ensures AllCite(CITED_TWICE.violations) && Unambiguous(CITED_TWICE) && !NamedOnce(CITED_TWICE)
    ensures NoRepeats(CITED_TWICE.failedCriteria) && NoRepeats(EvidenceKeys(CITED_TWICE.evidence))
  {
    var ids := LearningPlan.ViolationIds(CITED_TWICE.violations);
    assert ids[0] == ids[1];
  }

  /** Coaching may name a criterion twice: the identity checks pass and the coaching section is refused. */
  lemma CriterionCoachedTwice(fold: string -> string, redact: string -> string, version: Recommendations.Version)
    requires version.number.Some? ==> 1 <= version.number.value
    ensures !EvaluationEngine.TooShort(TALK)
    ensures Evaluation(fold, Observed(CITED_TWICE))
    ensures forall e :: PayloadPasses(Entries(Observed(CITED_TWICE)), Reported(redact, version, Observed(CITED_TWICE)), e)
    ensures !CoachingAccepted(CoachingOf(redact, version, Observed(CITED_TWICE)).blocks)
  {
    hide Scored, Trusted, StandardValidator.Publishable, CanonicalSchema, Linked, PayloadPasses, Unambiguous, Evaluation;
    hide Reported, CoachingAccepted, CoachingOf, NamedOnce, NoRepeats;
    TalkLong();
    var v := Observed(CITED_TWICE);
    CitedTwiceTrusted(fold);
    CitedTwiceDistinct();
    PayloadAcceptedExactly(fold, redact, version, v);
    CoachingAcceptedExactly(fold, redact, version, v);
    assert v.observation.categories[0] in v.observation.categories;
  }

  lemma NotListedTrusted(fold: string -> string)
    ensures Evaluation(fold, Observed(NOT_LISTED))
  {
    OneQuoteSchema();
    OneQuoteGrounded();
    hide CategoryGrounded, CategorySchema, Evaluation, Trusted, StandardValidator.Publishable;
    ObservedTrusted(fold, NOT_LISTED);
    RubricPublishable(fold);
    EvaluationHolds(fold, Observed(NOT_LISTED));
  }

  lemma NotListedScored(c: CategoryScore)
    requires CategoriesKnown(Observed(NOT_LISTED)) && c in Scored(Observed(NOT_LISTED)).categories
    ensures !FailsWithoutCriterion(c) && !ViolationsFailed(c) && NamedOnce(NOT_LISTED)
  {
    hide Scored;
    var o := ScoredOrigin(Observed(NOT_LISTED), c);
    assert c.violations == NOT_LISTED.violations;
    assert c.violations[0] in c.violations;
  }

  /** A violation that is not listed as failed passes every validator, and the assembler does not know the plan's criterion. */
  lemma ViolationNotListed(fold: string -> string, redact: string -> string, version: Recommendations.Version)
    requires version.number.Some? ==> 1 <= version.number.value
    ensures !EvaluationEngine.TooShort(TALK)
    ensures Evaluation(fold, Observed(NOT_LISTED)) && ReportValid(redact, version, Observed(NOT_LISTED))
    ensures !PlanKnown(PlanItems(redact, Observed(NOT_LISTED)), Scored(Observed(NOT_LISTED)).categories)
  {
    hide Scored, Trusted, StandardValidator.Publishable, CanonicalSchema, Linked, ReportValid, NamedOnce, PlanKnown, PlanItems;
    hide FailsWithoutCriterion, ViolationsFailed, NoRepeats;
    TalkLong();
    var v := Observed(NOT_LISTED);
    NotListedTrusted(fold);
    ReportValidExactly(fold, redact, version, v);
    PlanKnownExactly(redact, v);
    assert NoRepeats(NOT_LISTED.failedCriteria) && NoRepeats(EvidenceKeys(NOT_LISTED.evidence)) by { ShortLists(); }
    assert v.observation.categories[0] in v.observation.categories;
    forall c | c in Scored(v).categories ensures !FailsWithoutCriterion(c) && !ViolationsFailed(c) && NamedOnce(NOT_LISTED) {
      NotListedScored(c);
    }
    var c := ScoredOf(v, NOT_LISTED);
  }

  lemma ShortLists()
    ensures NoRepeats(NOT_LISTED.failedCriteria) && NoRepeats(EvidenceKeys(NOT_LISTED.evidence))
  {
  }

  // ----- quotations that the validator accepts and the assembler does not find

  lemma SpacesNormalised()
    ensures Normalize("a b") == Normalize("a  b")
  {
    assert "b"[1..] == "" && " b"[1..] == "b" && "  b"[1..] == " b" && "a b"[1..] == " b" && "a  b"[1..] == "  b";
    assert [] + ['b'] == "b" && [] + ['a'] == "a";
    assert Words("b", []) == Words("", "b") == ["b"];
    assert Words(" b", []) == Words("b", []);
    assert Words(" b", "a") == ["a"] + Words("b", []);
    assert Words("  b", "a") == ["a"] + Words(" b", []);
    assert Words("a b", []) == Words(" b", "a");
    assert Words("a  b", []) == Words("  b", "a");
  }

  lemma SpacesDiffer()
    ensures !Contains("a b", "a  b")
  {
    assert !OccursAt("a b", "a  b", 0) by { assert "a  b"[0..3][2] == ' '; }
    assert !OccursAt("a b", "a  b", 1) by { assert "a  b"[1..4][0] == ' '; }
  }

  predicate Stored(rows: seq<Assembler.Row>) { rows == FAITHFUL || rows == SPACED || rows == LATE }

  lemma {:induction false} SpacesMatch(rows: seq<Assembler.Row>)
    requires Stored(rows)
    ensures ExcerptMatches(Heard(rows)[0], QUOTED.evidence[0])
  {
    SpacesNormalised();
    hide Normalize;
    assert OccursAt(Normalize("a b"), Normalize("a b"), 0);
  }

  lemma {:induction false} QuotedGrounded(rows: seq<Assembler.Row>)
    requires Stored(rows)
    ensures CategoryGrounded(Indexed(Heard(rows), 4), BLOCK, QUOTED)
  {
    hide Normalize, Indexed, ExcerptMatches;
    HeardIndex(rows, 4);
    SpacesMatch(rows);
  }

  lemma QuotedSchema()
    ensures CategorySchema(QUOTED)
  {
  }

  lemma {:induction false} QuotedTrusted(fold: string -> string, rows: seq<Assembler.Row>)
    requires Stored(rows)
    ensures Evaluation(fold, ObservedIn(Heard(rows), QUOTED))
  {
    QuotedGrounded(rows);
    QuotedSchema();
    hide CategoryGrounded, CategorySchema, Evaluation, Trusted, StandardValidator.Publishable, Indexed;
    ObservedInTrusted(fold, Heard(rows), QUOTED);
    RubricPublishable(fold);
    EvaluationHolds(fold, ObservedIn(Heard(rows), QUOTED));
  }

  lemma {:induction false} QuotedReportable(rows: seq<Assembler.Row>)
    requires Stored(rows) && CategoriesKnown(ObservedIn(Heard(rows), QUOTED))
    ensures Reportable(ObservedIn(Heard(rows), QUOTED)) && AllListed(ObservedIn(Heard(rows), QUOTED).observation)
  {
    hide Scored;
    var v := ObservedIn(Heard(rows), QUOTED);
    assert BlocksOf(v) == map["b" := BLOCK] by {
      assert RUBRIC.blocks[..0] == [];
    }
    forall c | c in Scored(v).categories ensures !FailsWithoutCriterion(c) {
      var o := ScoredOrigin(v, c);
    }
  }

  lemma RowsFromSound(text: string, n: nat)
    requires Strip(text) != ""
    ensures Assembler.RowsSound(RowsFrom(text, n))
  {
    var rows := RowsFrom(text, n);
    assert Strip("c") == "c";
    hide Strip;
    forall i | 0 <= i < |rows| ensures Assembler.Numbers(rows)[i] == n + i && Assembler.Ids(rows)[i] == i {
    }
  }

  /** The first entry is found under 0 if the rows are numbered from 0, and nothing is found there otherwise. */
  lemma FirstEntry(text: string, n: nat)
    requires Strip(text) != ""
    ensures var index := Assembler.IndexOf(RowsFrom(text, n));
      if n == 0 then 0 in index && index[0] == RowsFrom(text, n)[0] else 0 !in index
  {
    var rows := RowsFrom(text, n);
    RowsFromSound(text, n);
    Numbered(text, n);
    hide Strip, NoRepeats, RowsFrom, Assembler.RowValid, Assembler.IndexOf;
    Assembler.IndexMeaning(rows);
  }

  lemma Numbered(text: string, n: nat)
    ensures RowsFrom(text, n)[0] in RowsFrom(text, n) && RowsFrom(text, n)[0].sequence == n
    ensures forall r :: r in RowsFrom(text, n) ==> r.sequence >= n
  {
  }

  lemma TextsNotBlank()
    ensures Strip("a b") != "" && Strip("a  b") != ""
  {
  }

  lemma {:induction false} FoundIfFaithful(rows: seq<Assembler.Row>)
    requires Stored(rows)
    ensures Assembler.RowsSound(rows) && (Assembler.Attested(Assembler.IndexOf(rows), QUOTED.evidence[0]) <==> rows == FAITHFUL)
  {
    hide Assembler.RowsSound, Assembler.IndexOf, Contains, Strip;
    var text, n := rows[0].text, rows[0].sequence;
    assert rows == RowsFrom(text, n);
    TextsNotBlank();
    RowsFromSound(text, n);
    FirstEntry(text, n);
    SpacesDiffer();
    QuoteContained();
  }

  lemma QuoteContained()
    ensures Contains("a b", "a b")
  {
    assert OccursAt("a b", "a b", 0);
  }

  /** A session that passes every check on its content is reported if its entry is stored as quoted, and refused if
      the excerpt matches only up to whitespace, or if the stored number is not the position it was evaluated by. */
  lemma {:induction false} QuotedReportedIfFaithful(fold: string -> string, redact: string -> string, version: Recommendations.Version,
                                 rows: seq<Assembler.Row>, authorized: bool, scenario: nat)
    requires Stored(rows) && (version.number.Some? ==> 1 <= version.number.value)
    ensures var v := ObservedIn(Heard(rows), QUOTED);
      && !EvaluationEngine.TooShort(v.transcript)
      && Evaluation(fold, v) && Reportable(v) && AllListed(v.observation) && Assembler.RowsSound(rows)
      && (Reports(redact, version, rows, v, authorized, scenario, Assembler.CanonicalMode) <==> rows == FAITHFUL)
  {
    hide Scored, Trusted, StandardValidator.Publishable, CanonicalSchema, Linked, Evaluation, Reportable, Reports;
    hide Assembler.RowsSound, Assembler.Attested, Assembler.IndexOf;
    var v := ObservedIn(Heard(rows), QUOTED);
    FourAgentTurns(Heard(rows));
    QuotedTrusted(fold, rows);
    KnownCategories(fold, v);
    QuotedReportable(rows);
    FoundIfFaithful(rows);
    AssembledExactly(fold, redact, version, rows, v, authorized, scenario, Assembler.CanonicalMode);
    assert v.observation.categories[0] == QUOTED && QUOTED.evidence[0] in QUOTED.evidence;
  }
}
