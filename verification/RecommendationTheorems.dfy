/** Whatever the validator accepts and the calculator scores, the builder can recommend. */
module RecommendationTheorems {
  import opened Rubric
  import opened Sorting
  import opened Text
  import opened StandardValidator
  import opened ObservationValidator
  import opened ScoreCalculator
  import opened ScoringTheorems
  import opened Ranking
  import opened Recommendations

  /** The lists of a scored category are those that were observed. */
  ghost predicate Carries(c: CategoryScore, o: CategoryObservation) {
    && c.blockId == o.blockId && c.evidence == o.evidence && c.strengths == o.strengths
    && c.violations == o.violations && c.failedCriteria == o.failedCriteria && c.inputs == o.inputs
  }

  lemma BothFindings(o: CategoryObservation, c: CategoryScore, id: string)
    requires Carries(c, o)
    ensures Cites(Findings(c), id) <==> Found(o, id)
    ensures Cited(Findings(c), id) == Cited(o.strengths, id) + Cited(o.violations, id)
  {
    var all := Findings(c);
    assert forall f :: f in all <==> f in o.strengths || f in o.violations;
    forall n ensures n in Cited(all, id) <==> n in Cited(o.strengths, id) + Cited(o.violations, id) {
      if n in Cited(o.strengths, id) {
        var f :| f in o.strengths && f.id == id && n in f.sequences;
        assert f in all;
      }
      if n in Cited(o.violations, id) {
        var f :| f in o.violations && f.id == id && n in f.sequences;
        assert f in all;
      }
    }
  }

  lemma {:induction false} FromViolationsOrigin(findings: seq<Finding>, i: RecommendationInput)
    requires i in FromViolations(findings)
    ensures exists f :: f in findings && f.sequences != [] && i == RecommendationInput(f.id, f.sequences[0], f.explanation)
  {
    if i in FromViolations(findings[1..]) {
      FromViolationsOrigin(findings[1..], i);
    } else {
      assert findings[0] in findings;
    }
  }

  lemma {:induction false} FromAllFailedOrigin(findings: seq<Finding>, failed: seq<string>, i: RecommendationInput)
    requires AllCite(findings) && i in FromAllFailed(findings, failed)
    ensures i.criterionId in failed && Cites(findings, i.criterionId) && i == FromFailed(findings, i.criterionId)
  {
    var front := failed[..|failed| - 1];
    assert failed == front + [failed[|failed| - 1]];
    if i in FromAllFailed(findings, front) {
      FromAllFailedOrigin(findings, front, i);
    }
  }

  lemma CitedIsEvidenced(o: CategoryObservation, id: string, n: int)
    requires FindingsEvidenced(o.strengths, o.evidence) && FindingsEvidenced(o.violations, o.evidence)
    requires n in Cited(o.strengths, id) + Cited(o.violations, id)
    ensures n in EvidenceSequences(o.evidence)
  {
    if n in Cited(o.strengths, id) {
      var f :| f in o.strengths && f.id == id && n in f.sequences;
    } else {
      var f :| f in o.violations && f.id == id && n in f.sequences;
    }
  }

  /** Every input of a grounded category, explicit or synthesised, is linked and has its evidence. */
  lemma GroundedInputLinked(turns: map<int, Turn>, b: Block, o: CategoryObservation, c: CategoryScore, i: RecommendationInput)
    requires CategoryGrounded(turns, b, o) && Carries(c, o) && AllCite(Findings(c)) && i in CategoryInputs(c)
    ensures LinkError(b, c, i).None? && i.sequence in EvidenceSequences(c.evidence)
  {
    BothFindings(o, c, i.criterionId);
    if c.inputs == [] {
      if i in FromViolations(c.violations) {
        FromViolationsOrigin(c.violations, i);
        var f :| f in c.violations && f.sequences != [] && i == RecommendationInput(f.id, f.sequences[0], f.explanation);
        ViolationsAreCriteria(b, f.id);
        assert f.sequences[0] in f.sequences;
        assert i.sequence in Cited(c.violations, f.id);
      } else {
        FromAllFailedOrigin(Findings(c), c.failedCriteria, i);
      }
      CitedIsEvidenced(o, i.criterionId, i.sequence);
    } else {
      assert InputGrounded(b, o, i);
    }
  }

  /** A result is linked exactly when every input names a declared criterion and cites a place where a finding about that
      criterion cites it, or, for a failed criterion without any finding, a place of the category's evidence. */
  lemma LinkedExactly(blocks: map<string, Block>, c: CategoryScore)
    requires AllCite(Findings(c))
    ensures CategoryLinked(blocks, c) <==>
      && c.blockId in blocks
      && forall i :: i in CategoryInputs(c) ==>
           && (exists k :: k in blocks[c.blockId].positiveBehaviors + blocks[c.blockId].violations && k.id == i.criterionId)
           && (if exists f :: f in c.strengths + c.violations && f.id == i.criterionId
               then exists f :: f in c.strengths + c.violations && f.id == i.criterionId && i.sequence in f.sequences
               else i.criterionId in c.failedCriteria && exists e :: e in c.evidence && e.sequence == i.sequence)
  {
    hide CategoryInputs;
    forall i | c.blockId in blocks
      ensures LinkError(blocks[c.blockId], c, i).None? <==>
        && (exists k :: k in blocks[c.blockId].positiveBehaviors + blocks[c.blockId].violations && k.id == i.criterionId)
        && (if exists f :: f in c.strengths + c.violations && f.id == i.criterionId
            then exists f :: f in c.strengths + c.violations && f.id == i.criterionId && i.sequence in f.sequences
            else i.criterionId in c.failedCriteria && exists e :: e in c.evidence && e.sequence == i.sequence)
    {
    }
  }

  lemma ScoredOrigin(v: ValidatedObservation, c: CategoryScore) returns (o: CategoryObservation)
    requires CategoriesKnown(v) && c in Scored(v).categories
    ensures o in v.observation.categories && c == ScoreCategory(BlocksOf(v)[o.blockId], o) && Carries(c, o)
  {
    var os := Ordered(v);
    assert forall p :: p in os ==> p in multiset(os);
    var scores := ScoreCategories(BlocksOf(v), os);
    var i :| 0 <= i < |scores| && scores[i] == c;
    o := os[i];
    assert o in multiset(os) && o in v.observation.categories;
  }

  /** The builder accepts every result scored from a trusted observation of publishable content. */
  lemma BuilderIsTotal(fold: string -> string, v: ValidatedObservation)
    requires Trusted(fold, v) && Publishable(fold, v.snapshot)
    ensures CategoriesKnown(v) && CanonicalSchema(Scored(v)) && Linked(BlocksOf(v), Scored(v))
  {
    hide Publishable, ObservationSchema, StandardSchema, CategoryGrounded, LinkError, CategoryInputs, ScoreCategory, CanonicalSchema;
    ScoredMeetsSchema(fold, v);
    forall c | c in Scored(v).categories
      ensures AllCite(Findings(c)) && CategoryLinked(BlocksOf(v), c)
    {
      CategoryIsLinked(fold, v, c);
    }
  }

  lemma CategoryIsLinked(fold: string -> string, v: ValidatedObservation, c: CategoryScore)
    requires Trusted(fold, v) && Publishable(fold, v.snapshot) && CategoriesKnown(v) && c in Scored(v).categories
    ensures AllCite(Findings(c)) && CategoryLinked(BlocksOf(v), c)
    ensures forall i :: i in CategoryInputs(c) ==> i.sequence in EvidenceSequences(c.evidence)
    ensures exists o :: o in v.observation.categories && Carries(c, o)
    ensures CategoryScoreSchema(c)
  {
    hide Publishable, ObservationSchema, StandardSchema, LinkError, CategoryInputs;
    ScoredMeetsSchema(fold, v);
    assert CategoryScoreSchema(c);
    SchemaCites(c);
    var o := ScoredOrigin(v, c);
    var k := Inputs(fold, v.observation, v.snapshot, v.transcript);
    assert CategoryGrounded(k.Turns(), BlocksOf(v)[o.blockId], o);
    forall i | i in CategoryInputs(c)
      ensures LinkError(BlocksOf(v)[c.blockId], c, i).None? && i.sequence in EvidenceSequences(c.evidence)
    {
      GroundedInputLinked(k.Turns(), BlocksOf(v)[o.blockId], o, c, i);
    }
  }

  // ----- what the recommendations look like

  /** The candidate `x` was made for the input `i` of the category `c`. */
  ghost predicate MadeFor(redact: string -> string, version: Version, blocks: map<string, Block>, c: CategoryScore, i: RecommendationInput, x: Candidate)
    requires AllCite(Findings(c))
  {
    && c.blockId in blocks && i in CategoryInputs(c) && blocks[c.blockId].HasCriterion(i.criterionId)
    && x == CandidateOf(redact, version, blocks[c.blockId], c, i)
  }

  /** The recommendation quotes the evidence `e` that was observed in `o`. */
  predicate Quotes(r: Recommendation, o: CategoryObservation, e: Evidence) {
    && e in o.evidence && o.blockId == r.blockId && e.sequence == r.sequence
    && r.sourceSpeaker == Some(e.speaker) && r.sourceExcerpt == Some(e.excerpt)
  }

  lemma {:induction false} CandidateOrigin(redact: string -> string, version: Version, blocks: map<string, Block>, cs: seq<CategoryScore>, x: Candidate)
    requires forall c :: c in cs ==> AllCite(Findings(c)) && CategoryLinked(blocks, c)
    requires x in AllCandidates(redact, version, blocks, cs)
    ensures exists c, i :: c in cs && MadeFor(redact, version, blocks, c, i, x)
  {
    hide MadeFor, LinkError, CategoryInputs, CandidatesOf, AllCite, CategoryLinked;
    var front, last := cs[..|cs| - 1], cs[|cs| - 1];
    assert cs == front + [last] && last in cs;
    LinkedCriteria(blocks, last);
    if x in AllCandidates(redact, version, blocks, front) {
      CandidateOrigin(redact, version, blocks, front, x);
      var c, i :| c in front && MadeFor(redact, version, blocks, c, i, x);
      assert c in cs;
    } else {
      var i := OwnCandidate(redact, version, blocks, last, x);
    }
  }

  lemma OwnCandidate(redact: string -> string, version: Version, blocks: map<string, Block>, c: CategoryScore, x: Candidate)
    returns (i: RecommendationInput)
    requires AllCite(Findings(c)) && CategoryLinked(blocks, c)
    requires forall j :: j in CategoryInputs(c) ==> blocks[c.blockId].HasCriterion(j.criterionId)
    requires x in CandidatesOf(redact, version, blocks[c.blockId], c, CategoryInputs(c))
    ensures MadeFor(redact, version, blocks, c, i, x)
  {
    hide LinkError, CandidateOf, AllCite, CategoryInputs;
    var inputs := CategoryInputs(c);
    var r := CandidatesOf(redact, version, blocks[c.blockId], c, inputs);
    var j :| 0 <= j < |r| && r[j] == x;
    i := inputs[j];
    assert i in inputs;
  }

  ghost function SortedCandidates(redact: string -> string, version: Version, snapshot: Standard, canonical: Canonical): (r: seq<Candidate>)
    requires CanonicalSchema(canonical) && Linked(BlockMap(snapshot.blocks), canonical)
    ensures Unwrap(r) == Ranked(redact, version, snapshot, canonical)
  {
    SortBy(CandidateLe, AllCandidates(redact, version, BlockMap(snapshot.blocks), canonical.categories))
  }

  /** Recommendations of equal rank stay in the order in which their inputs were read. */
  lemma TiesKeepOrder(redact: string -> string, version: Version, snapshot: Standard, canonical: Canonical, rank: ItemRank)
    requires CanonicalSchema(canonical) && Linked(BlockMap(snapshot.blocks), canonical)
    ensures var tied := (x: Candidate) => x.rank == rank;
      Filter(tied, SortedCandidates(redact, version, snapshot, canonical))
      == Filter(tied, AllCandidates(redact, version, BlockMap(snapshot.blocks), canonical.categories))
  {
    hide SortBy, CanonicalSchema, AllCandidates, CategoryLinked, ItemRankLe, TotalPreorder, BlockMap, Unwrap;
    CandidateLePreorder();
    ItemRankTotal(rank, rank);
    SortByStable(CandidateLe, (x: Candidate) => x.rank == rank,
      AllCandidates(redact, version, BlockMap(snapshot.blocks), canonical.categories));
  }

  lemma {:induction false} EachCandidate(redact: string -> string, version: Version, blocks: map<string, Block>, cs: seq<CategoryScore>,
                                         c: CategoryScore, i: RecommendationInput) returns (x: Candidate)
    requires forall d :: d in cs ==> AllCite(Findings(d)) && CategoryLinked(blocks, d)
    requires c in cs && i in CategoryInputs(c)
    ensures x in AllCandidates(redact, version, blocks, cs) && MadeFor(redact, version, blocks, c, i, x)
  {
    hide LinkError, CategoryInputs, CandidateOf, AllCite, CategoryLinked;
    var front, last := cs[..|cs| - 1], cs[|cs| - 1];
    assert cs == front + [last] && last in cs;
    LinkedCriteria(blocks, last);
    if c in front {
      x := EachCandidate(redact, version, blocks, front, c, i);
    } else {
      x := NthCandidate(redact, version, blocks, last, i);
    }
  }

  lemma NthCandidate(redact: string -> string, version: Version, blocks: map<string, Block>, c: CategoryScore, i: RecommendationInput)
    returns (x: Candidate)
    requires AllCite(Findings(c)) && CategoryLinked(blocks, c) && i in CategoryInputs(c)
    requires forall j :: j in CategoryInputs(c) ==> blocks[c.blockId].HasCriterion(j.criterionId)
    ensures x in CandidatesOf(redact, version, blocks[c.blockId], c, CategoryInputs(c)) && MadeFor(redact, version, blocks, c, i, x)
  {
    hide LinkError, CandidateOf, AllCite, CategoryInputs;
    var inputs := CategoryInputs(c);
    var k :| 0 <= k < |inputs| && inputs[k] == i;
    x := CandidatesOf(redact, version, blocks[c.blockId], c, inputs)[k];
  }

  /** Every input is recommended. */
  lemma InputRecommended(redact: string -> string, version: Version, snapshot: Standard, canonical: Canonical,
                         c: CategoryScore, i: RecommendationInput) returns (r: Recommendation)
    requires CanonicalSchema(canonical) && Linked(BlockMap(snapshot.blocks), canonical)
    requires c in canonical.categories && AllCite(Findings(c)) && i in CategoryInputs(c)
    ensures r in Ranked(redact, version, snapshot, canonical)
    ensures r.blockId == c.blockId && r.criterionId == i.criterionId && r.sequence == i.sequence
  {
    hide CandidateLe, CanonicalSchema, CategoryInputs, AllCandidates;
    var x := EachCandidate(redact, version, BlockMap(snapshot.blocks), canonical.categories, c, i);
    var sorted := SortedCandidates(redact, version, snapshot, canonical);
    assert x in multiset(sorted);
    var k :| 0 <= k < |sorted| && sorted[k] == x;
    r := Ranked(redact, version, snapshot, canonical)[k];
    BlockMapIds(snapshot.blocks);
  }

  /** What a recommendation says: the response names the criterion, its description, the need and the guidance; the
      advice gives the guidance and the criterion's evidence instructions; the explanation is the last one given for
      the criterion, or else the need. All three are made safe. */
  lemma RecommendationSays(redact: string -> string, version: Version, b: Block, c: CategoryScore, i: RecommendationInput)
    returns (k: nat, response: string, advice: string, explanation: string)
    requires b.HasCriterion(i.criterionId)
    ensures var r, criteria := CandidateOf(redact, version, b, c, i).recommendation, b.positiveBehaviors + b.violations;
      && k < |criteria| && criteria[k].id == i.criterionId && (forall j :: k < j < |criteria| ==> criteria[j].id != i.criterionId)
      && r.criterionName == Some(criteria[k].name)
      && r.response == SafeText(redact, response, SAFE_RESPONSE) && r.advice == SafeText(redact, advice, SAFE_ADVICE)
      && r.explanation == SafeText(redact, explanation, SAFE_EXPLANATION)
      && Contains(criteria[k].name, response) && Contains(criteria[k].description, response)
      && Contains(i.need, response) && Contains(b.recommendationGuidance, response)
      && Contains(b.recommendationGuidance, advice) && Contains(criteria[k].evidenceInstructions, advice)
      && (if LastExplanation(Findings(c), i.criterionId).Some? then LastExplanation(Findings(c), i.criterionId) == Some(explanation)
          else explanation == i.need)
  {
    k := LastCriterionMeaning(b.Criteria(), i.criterionId);
    var criterion := b.Criteria()[k];
    var explained := LastExplanation(Findings(c), i.criterionId);
    response := "At the referenced moment, apply " + criterion.name + ": " + criterion.description
      + " Address the identified need: " + i.need + ". " + b.recommendationGuidance;
    advice := b.recommendationGuidance + " Use this criterion's evidence instruction: " + criterion.evidenceInstructions;
    explanation := if explained.Some? then explained.value else i.need;
    hide Contains, SafeText, LastExplanation, LastCriterion, FirstEvidence;
    ResponseMentions("At the referenced moment, apply ", criterion.name, ": ", criterion.description,
      " Address the identified need: ", i.need, ". ", b.recommendationGuidance);
    AdviceMentions(b.recommendationGuidance, " Use this criterion's evidence instruction: ", criterion.evidenceInstructions);
  }

  lemma ResponseMentions(a: string, name: string, b: string, description: string, c: string, need: string, d: string, guidance: string)
    ensures var all := a + name + b + description + c + need + d + guidance;
      Contains(name, all) && Contains(description, all) && Contains(need, all) && Contains(guidance, all)
  {
    hide Contains;
    var all := a + name + b + description + c + need + d + guidance;
    Inside(a, name, b + description + c + need + d + guidance, all);
    Inside(a + name + b, description, c + need + d + guidance, all);
    Inside(a + name + b + description + c, need, d + guidance, all);
    Inside(a + name + b + description + c + need + d, guidance, "", all);
  }

  lemma AdviceMentions(guidance: string, a: string, instructions: string)
    ensures Contains(guidance, guidance + a + instructions) && Contains(instructions, guidance + a + instructions)
  {
    hide Contains;
    Inside("", guidance, a + instructions, guidance + a + instructions);
    Inside(guidance + a, instructions, "", guidance + a + instructions);
  }

  lemma Inside(before: string, part: string, after: string, whole: string)
    requires whole == before + part + after
    ensures Contains(part, whole)
  {
    assert OccursAt(part, whole, |before|);
  }

  /** A recommendation comes from an input of one category. */
  lemma RecommendationOrigin(redact: string -> string, version: Version, snapshot: Standard, canonical: Canonical, r: Recommendation)
    returns (c: CategoryScore, i: RecommendationInput, x: Candidate)
    requires CanonicalSchema(canonical) && Linked(BlockMap(snapshot.blocks), canonical)
    requires r in Ranked(redact, version, snapshot, canonical)
    ensures c in canonical.categories && AllCite(Findings(c))
    ensures MadeFor(redact, version, BlockMap(snapshot.blocks), c, i, x) && x.recommendation == r
  {
    hide CandidateLe, CandidateOf, CanonicalSchema;
    var sorted := SortedCandidates(redact, version, snapshot, canonical);
    var k :| 0 <= k < |sorted| && sorted[k].recommendation == r;
    x := sorted[k];
    assert x in multiset(sorted);
    CandidateOrigin(redact, version, BlockMap(snapshot.blocks), canonical.categories, x);
    c, i :| c in canonical.categories && MadeFor(redact, version, BlockMap(snapshot.blocks), c, i, x);
  }

  /** Each recommendation quotes the evidence it came from and fits the output schema. */
  lemma RecommendationsGrounded(fold: string -> string, redact: string -> string, version: Version, v: ValidatedObservation, r: Recommendation)
    requires Trusted(fold, v) && Publishable(fold, v.snapshot)
    requires CategoriesKnown(v) && CanonicalSchema(Scored(v)) && Linked(BlocksOf(v), Scored(v))
    requires version.number.Some? ==> 1 <= version.number.value
    requires r in Ranked(redact, version, v.snapshot, Scored(v))
    ensures RecommendationSchema(r)
    ensures exists o, e :: o in v.observation.categories && Quotes(r, o, e)
    ensures r.sequence in Indexed(v.transcript, |v.transcript|)
  {
    hide Publishable, Trusted, CategoryInputs, CanonicalSchema, CategoryScoreSchema, RecommendationSchema, Linked, Scored, Ranked;
    var c, i, x := RecommendationOrigin(redact, version, v.snapshot, Scored(v), r);
    CategoryIsLinked(fold, v, c);
    var o :| o in v.observation.categories && Carries(c, o);
    KnownBlock(fold, v, o);
    CandidateSchema(redact, version, BlocksOf(v)[c.blockId], c, i);
    var e := CandidateQuotes(redact, version, BlocksOf(v)[c.blockId], c, i);
    BlockMapIds(v.snapshot.blocks);
    assert Quotes(r, o, e);
    EvidenceInTranscript(fold, v, o, e);
  }

  lemma BlockMapIds(blocks: seq<Block>)
    ensures forall id :: id in BlockMap(blocks) ==> BlockMap(blocks)[id].id == id
  {
  }

  lemma CandidateQuotes(redact: string -> string, version: Version, b: Block, c: CategoryScore, i: RecommendationInput) returns (e: Evidence)
    requires b.HasCriterion(i.criterionId) && i.sequence in EvidenceSequences(c.evidence)
    ensures e in c.evidence && e.sequence == i.sequence
    ensures var r := CandidateOf(redact, version, b, c, i).recommendation;
      r.blockId == b.id && r.sequence == i.sequence && r.sourceSpeaker == Some(e.speaker) && r.sourceExcerpt == Some(e.excerpt)
  {
    e := FirstEvidence(c.evidence, i.sequence).value;
  }

  lemma EvidenceInTranscript(fold: string -> string, v: ValidatedObservation, o: CategoryObservation, e: Evidence)
    requires Trusted(fold, v) && o in v.observation.categories && e in o.evidence
    ensures e.sequence in Indexed(v.transcript, |v.transcript|)
  {
    hide ObservationSchema, StandardSchema;
    assert CategoryGrounded(Inputs(fold, v.observation, v.snapshot, v.transcript).Turns(), BlocksOf(v)[o.blockId], o);
  }

  lemma CandidateSchema(redact: string -> string, version: Version, b: Block, c: CategoryScore, i: RecommendationInput)
    requires BlockSchema(b) && b.HasCriterion(i.criterionId) && CategoryScoreSchema(c)
    requires i.sequence in EvidenceSequences(c.evidence)
    requires version.number.Some? ==> 1 <= version.number.value
    ensures RecommendationSchema(CandidateOf(redact, version, b, c, i).recommendation)
  {
    var criterion := LastCriterion(b.Criteria(), i.criterionId);
    assert CriterionSchema(criterion);
    var e := FirstEvidence(c.evidence, i.sequence).value;
    assert EvidenceSchema(e);
  }
}
