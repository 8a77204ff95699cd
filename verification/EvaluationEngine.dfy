/** The bounded evaluation loop around an untrusted model provider. */
module EvaluationEngine {
  import opened Rubric
  import opened Text
  import opened Sorting
  import StandardValidator
  import opened ObservationValidator
  import opened ScoreCalculator

  const MIN_AGENT_UTTERANCES := 4
  const MAX_ATTEMPTS := 3
  const OUTPUT_TOKENS := 4096
  const RETRY_OUTPUT_TOKENS := 8192

  // ----- repeated technique names

  /** The folded, stripped name of an entry; `None` for a malformed or unnamed one. */
  function NameKey(fold: string -> string, name: Option<string>): Option<string> {
    if name.Some? && fold(Strip(name.value)) != "" then Some(fold(Strip(name.value))) else None
  }

  /** No earlier entry has the key of entry `i`. */
  predicate First(keys: seq<Option<string>>, i: nat)
    requires i < |keys|
  {
    keys[i].None? || keys[i] !in keys[..i]
  }

  /** The positions of the first occurrences, in order. */
  function FirstPositions(keys: seq<Option<string>>, n: nat): (r: seq<nat>)
    requires n <= |keys|
    ensures forall k :: 0 <= k < |r| ==> r[k] < n && First(keys, r[k])
  {
    if n == 0 then [] else FirstPositions(keys, n - 1) + if First(keys, n - 1) then [n - 1] else []
  }

  function Keys<T>(key: T -> Option<string>, items: seq<T>): (r: seq<Option<string>>)
    ensures |r| == |items| && forall i :: 0 <= i < |r| ==> r[i] == key(items[i])
  {
    seq(|items|, (i: nat) requires i < |items| => key(items[i]))
  }

  function Pick<T>(items: seq<T>, positions: seq<nat>): (r: seq<T>)
    requires forall k :: 0 <= k < |positions| ==> positions[k] < |items|
    ensures |r| == |positions| && forall k :: 0 <= k < |r| ==> r[k] == items[positions[k]]
  {
    seq(|positions|, (k: nat) requires k < |positions| => items[positions[k]])
  }

  /** Keeps the first entry of every name, and every entry without one. */
  method Deduplicate<T>(key: T -> Option<string>, items: seq<T>) returns (unique: seq<T>, removed: nat)
    ensures unique == Pick(items, FirstPositions(Keys(key, items), |items|))
    ensures removed == |items| - |unique|
  {
    var seen: set<string> := {};
    var keys := Keys(key, items);
    unique, removed := [], 0;
    for i := 0 to |items|
      invariant forall s :: s in seen <==> Some(s) in keys[..i]
      invariant unique == Pick(items, FirstPositions(keys, i))
      invariant removed == i - |unique|
    {
      var k := key(items[i]);
      assert keys[..i + 1] == keys[..i] + [k];
      if k.Some? && k.value in seen {
        removed := removed + 1;
        continue;
      }
      if k.Some? {
        seen := seen + {k.value};
      }
      unique := unique + [items[i]];
    }
  }

  /** Positions stay in order, and a position is kept exactly when it is a first occurrence. */
  lemma {:induction false} FirstPositionsMeaning(keys: seq<Option<string>>, n: nat)
    requires n <= |keys|
    ensures forall j, k :: 0 <= j < k < |FirstPositions(keys, n)| ==> FirstPositions(keys, n)[j] < FirstPositions(keys, n)[k]
    ensures forall i: nat :: i in FirstPositions(keys, n) <==> i < n && First(keys, i)
  {
    if n > 0 {
      FirstPositionsMeaning(keys, n - 1);
    }
  }

  /** No two kept entries share a name. */
  lemma KeptNamesDistinct<T>(key: T -> Option<string>, items: seq<T>, i: nat, j: nat)
    requires i < j < |FirstPositions(Keys(key, items), |items|)|
    ensures var kept := Pick(items, FirstPositions(Keys(key, items), |items|));
      key(kept[i]).Some? ==> key(kept[i]) != key(kept[j])
  {
    var keys := Keys(key, items);
    FirstPositionsMeaning(keys, |items|);
    var p, q := FirstPositions(keys, |items|)[i], FirstPositions(keys, |items|)[j];
    assert p < q && keys[..q][p] == keys[p];
  }

  // ----- what a response may contain

  /** A technique entry is kept exactly when it is malformed or unnamed, or no entry before it has its name up to case and blanks. */
  lemma KeptExactly(fold: string -> string, names: seq<Option<string>>, i: nat)
    requires i < |names|
    ensures var keys := Keys((name: Option<string>) => NameKey(fold, name), names);
      i in FirstPositions(keys, |keys|) <==>
        || names[i].None? || fold(Strip(names[i].value)) == ""
        || forall j :: 0 <= j < i ==> names[j].None? || fold(Strip(names[j].value)) != fold(Strip(names[i].value))
  {
    hide Strip;
    var keys := Keys((name: Option<string>) => NameKey(fold, name), names);
    FirstPositionsMeaning(keys, |keys|);
    if keys[i].Some? && keys[i] in keys[..i] {
      var j :| 0 <= j < i && keys[..i][j] == keys[i];
    }
    if keys[i].Some? && keys[i] !in keys[..i] {
      forall j | 0 <= j < i && names[j].Some? ensures fold(Strip(names[j].value)) != fold(Strip(names[i].value)) {
        assert keys[..i][j] in keys[..i];
      }
    }
  }

  function AppliedNames(items: seq<Option<AppliedTechnique>>): seq<Option<string>> {
    Map((t: Option<AppliedTechnique>) => if t.Some? then Some(t.value.name) else None, items)
  }

  function MissedNames(items: seq<Option<MissedTechnique>>): seq<Option<string>> {
    Map((t: Option<MissedTechnique>) => if t.Some? then Some(t.value.name) else None, items)
  }

  /** The two lists are deduplicated by the names of their entries, and nothing else of the response changes. */
  lemma DeduplicatedMeaning(fold: string -> string, p: Payload)
    ensures var q, key := Deduplicated(fold, p), (name: Option<string>) => NameKey(fold, name);
      && q.core == p.core && (q.applied.Some? <==> p.applied.Some?) && (q.missed.Some? <==> p.missed.Some?)
      && (p.applied.Some? ==>
            q.applied.value == Pick(p.applied.value, FirstPositions(Keys(key, AppliedNames(p.applied.value)), |p.applied.value|)))
      && (p.missed.Some? ==>
            q.missed.value == Pick(p.missed.value, FirstPositions(Keys(key, MissedNames(p.missed.value)), |p.missed.value|)))
  {
    var key := (name: Option<string>) => NameKey(fold, name);
    if p.applied.Some? {
      assert Keys(key, AppliedNames(p.applied.value)) == Keys(AppliedKey(fold), p.applied.value);
    }
    if p.missed.Some? {
      assert Keys(key, MissedNames(p.missed.value)) == Keys(MissedKey(fold), p.missed.value);
    }
  }

  /** Parsing succeeds when both lists are there without malformed entries; it strips the names and keeps everything else. */
  lemma ParseMeaning(p: Payload)
    ensures Parse(p).Some? <==>
      && p.applied.Some? && (forall i :: 0 <= i < |p.applied.value| ==> p.applied.value[i].Some?)
      && p.missed.Some? && (forall i :: 0 <= i < |p.missed.value| ==> p.missed.value[i].Some?)
    ensures Parse(p).Some? ==>
      var o := Parse(p).value;
      && o.status == p.core.status && o.summary == p.core.summary && o.categories == p.core.categories
      && |o.applied| == |p.applied.value| && |o.missed| == |p.missed.value|
      && (forall i :: 0 <= i < |o.applied| ==>
            var t := p.applied.value[i].value;
            o.applied[i] == AppliedTechnique(Strip(t.name), t.executionType, t.description, t.sequences))
      && (forall i :: 0 <= i < |o.missed| ==>
            o.missed[i] == MissedTechnique(Strip(p.missed.value[i].value.name), p.missed.value[i].value.reason))
  {
    hide Strip;
  }

  /** A response body: technique entries are `None` when malformed, lists are `None` when missing. */
  datatype Payload = Payload(
    core: Observation, applied: Option<seq<Option<AppliedTechnique>>>, missed: Option<seq<Option<MissedTechnique>>>)

  function AppliedKey(fold: string -> string): Option<AppliedTechnique> -> Option<string> {
    (t: Option<AppliedTechnique>) => NameKey(fold, if t.Some? then Some(t.value.name) else None)
  }

  function MissedKey(fold: string -> string): Option<MissedTechnique> -> Option<string> {
    (t: Option<MissedTechnique>) => NameKey(fold, if t.Some? then Some(t.value.name) else None)
  }

  function UniqueApplied(fold: string -> string, items: seq<Option<AppliedTechnique>>): seq<Option<AppliedTechnique>> {
    Pick(items, FirstPositions(Keys(AppliedKey(fold), items), |items|))
  }

  function UniqueMissed(fold: string -> string, items: seq<Option<MissedTechnique>>): seq<Option<MissedTechnique>> {
    Pick(items, FirstPositions(Keys(MissedKey(fold), items), |items|))
  }

  function Deduplicated(fold: string -> string, p: Payload): Payload {
    p.(applied := if p.applied.Some? then Some(UniqueApplied(fold, p.applied.value)) else None,
       missed := if p.missed.Some? then Some(UniqueMissed(fold, p.missed.value)) else None)
  }

  /** Removes repeated names from both lists in place, leaving malformed entries for validation. */
  method DeduplicateTechniqueLists(fold: string -> string, p: Payload) returns (q: Payload, removed: nat)
    ensures q == Deduplicated(fold, p)
    ensures removed == (if p.applied.Some? then |p.applied.value| - |q.applied.value| else 0)
                     + (if p.missed.Some? then |p.missed.value| - |q.missed.value| else 0)
  {
    q, removed := p, 0;
    if p.applied.Some? {
      var unique, gone := Deduplicate(AppliedKey(fold), p.applied.value);
      q, removed := q.(applied := Some(unique)), removed + gone;
    }
    if p.missed.Some? {
      var unique, gone := Deduplicate(MissedKey(fold), p.missed.value);
      q, removed := q.(missed := Some(unique)), removed + gone;
    }
  }

  /** The entries of a list, unless the list is missing or one of them is malformed. */
  function Present<T>(items: Option<seq<Option<T>>>): (r: Option<seq<T>>)
    ensures r.Some? <==> items.Some? && forall i | 0 <= i < |items.value| :: items.value[i].Some?
    ensures r.Some? ==> |r.value| == |items.value| && forall i :: 0 <= i < |r.value| ==> items.value[i] == Some(r.value[i])
  {
    if items.None? || exists i | 0 <= i < |items.value| :: items.value[i].None? then None
    else
      var s := items.value;
      Some(seq(|s|, (i: nat) requires i < |s| && s[i].Some? => s[i].value))
  }

  /** Parsing strips the technique names; a missing list or a malformed entry is a schema error. */
  function Parse(p: Payload): Option<Observation> {
    var applied, missed := Present(p.applied), Present(p.missed);
    if applied.None? || missed.None? then None
    else Some(p.core.(
      applied := Map((t: AppliedTechnique) => t.(name := Strip(t.name)), applied.value),
      missed := Map((t: MissedTechnique) => t.(name := Strip(t.name)), missed.value)))
  }

  /** Case folding loses no text. */
  ghost predicate KeepsText(fold: string -> string) {
    forall s :: s != "" ==> fold(s) != ""
  }

  /** After deduplication, the schema's two uniqueness checks on technique names cannot fail. */
  lemma UniquenessChecksPass(fold: string -> string, p: Payload)
    requires KeepsText(fold)
    requires Parse(Deduplicated(fold, p)).Some?
    ensures var o := Parse(Deduplicated(fold, p)).value;
      (forall t :: t in o.applied ==> AppliedSchema(t)) ==>
      forall i, j :: 0 <= i < j < |o.applied| ==> fold(o.applied[i].name) != fold(o.applied[j].name)
    ensures var o := Parse(Deduplicated(fold, p)).value;
      (forall t :: t in o.missed ==> MissedSchema(t)) ==>
      forall i, j :: 0 <= i < j < |o.missed| ==> fold(o.missed[i].name) != fold(o.missed[j].name)
  {
    hide First, FirstPositions;
    var q, o := Deduplicated(fold, p), Parse(Deduplicated(fold, p)).value;
    if forall t :: t in o.applied ==> AppliedSchema(t) {
      forall i, j | 0 <= i < j < |o.applied| ensures fold(o.applied[i].name) != fold(o.applied[j].name) {
        KeptNamesDistinct(AppliedKey(fold), p.applied.value, i, j);
        assert o.applied[i] in o.applied && o.applied[j] in o.applied;
        assert q.applied.value[i].Some? && q.applied.value[j].Some?;
      }
    }
    if forall t :: t in o.missed ==> MissedSchema(t) {
      forall i, j | 0 <= i < j < |o.missed| ensures fold(o.missed[i].name) != fold(o.missed[j].name) {
        KeptNamesDistinct(MissedKey(fold), p.missed.value, i, j);
        assert o.missed[i] in o.missed && o.missed[j] in o.missed;
        assert q.missed.value[i].Some? && q.missed.value[j].Some?;
      }
    }
  }

  // ----- sessions too short to evaluate

  function AgentTurns(transcript: seq<Turn>, n: nat): nat
    requires n <= |transcript|
  {
    if n == 0 then 0 else AgentTurns(transcript, n - 1) + if transcript[n - 1].speaker == Some("agent") then 1 else 0
  }

  predicate TooShort(transcript: seq<Turn>) {
    AgentTurns(transcript, |transcript|) < MIN_AGENT_UTTERANCES
  }

  lemma {:induction false} AgentTurnsCount(transcript: seq<Turn>, n: nat)
    requires n <= |transcript|
    ensures AgentTurns(transcript, n) == |Filter((t: Turn) => t.speaker == Some("agent"), transcript[..n])|
  {
    if n > 0 {
      AgentTurnsCount(transcript, n - 1);
      var agent := (t: Turn) => t.speaker == Some("agent");
      assert transcript[..n] == transcript[..n - 1] + [transcript[n - 1]];
      FilterAppend(agent, transcript[..n - 1], [transcript[n - 1]]);
      assert [transcript[n - 1]][1..] == [];
      assert Filter(agent, transcript[..n]) == Filter(agent, transcript[..n - 1]) + Filter(agent, [transcript[n - 1]]);
    }
  }

  /** Too short means fewer than four turns of the agent. */
  lemma TooShortMeaning(transcript: seq<Turn>)
    ensures TooShort(transcript) <==> |Filter((t: Turn) => t.speaker == Some("agent"), transcript)| < 4
  {
    AgentTurnsCount(transcript, |transcript|);
    assert transcript[..|transcript|] == transcript;
  }

  const TOO_SHORT := "The transcript was too short for a grounded rubric evaluation."

  /** The observation recorded for a session that is too short: no scores and no findings. */
  function NothingObserved(snapshot: Standard): Observation {
    Observation(NotApplicable, TOO_SHORT,
      Map((b: Block) => CategoryObservation(b.id, None, [], [], [], [], []), snapshot.blocks), [], [])
  }

  predicate BlockIdsDistinct(s: Standard) {
    forall i, j :: 0 <= i < j < |s.blocks| ==> s.blocks[i].id != s.blocks[j].id
  }

  lemma NothingObservedAt(snapshot: Standard, c: CategoryObservation)
    requires c in NothingObserved(snapshot).categories
    ensures c.rawScore.None? && c.evidence == [] && c.strengths == c.violations == [] && c.failedCriteria == [] && c.inputs == []
    ensures exists b :: b in snapshot.blocks && b.id == c.blockId
  {
    var i :| 0 <= i < |snapshot.blocks| && NothingObserved(snapshot).categories[i] == c;
    assert snapshot.blocks[i] in snapshot.blocks;
  }

  lemma NothingObservedSchema(fold: string -> string, snapshot: Standard)
    requires StandardSchema(snapshot)
    ensures ObservationSchema(fold, NothingObserved(snapshot)) <==> snapshot.blocks != []
  {
    hide IsSlug;
    var o := NothingObserved(snapshot);
    assert |o.categories| == |snapshot.blocks|;
    forall c | c in o.categories ensures CategorySchema(c) && c.rawScore.None? {
      NothingObservedAt(snapshot, c);
    }
  }

  lemma NothingObservedGrounded(k: Inputs)
    requires k.o == NothingObserved(k.rubric)
    ensures Grounded(k) <==> BlockIdsDistinct(k.rubric)
  {
    hide BlockMap, Indexed;
    forall c | c in k.o.categories ensures c.blockId in k.Blocks() && CategoryGrounded(k.Turns(), k.Blocks()[c.blockId], c) {
      NothingObservedAt(k.rubric, c);
    }
    forall id | id in k.Blocks() ensures id in CategoryIds(k.o) {
      var i :| 0 <= i < |k.rubric.blocks| && k.rubric.blocks[i] == k.Blocks()[id];
      assert k.o.categories[i] in k.o.categories;
    }
    assert CategoryIds(k.o) == k.Blocks().Keys;
  }

  /** Exactly when the empty observation is trusted. */
  lemma ShortSessionTrusted(fold: string -> string, snapshot: Standard, transcript: seq<Turn>)
    requires StandardSchema(snapshot)
    ensures Trusted(fold, ValidatedObservation(NothingObserved(snapshot), snapshot, transcript))
      <==> snapshot.blocks != [] && BlockIdsDistinct(snapshot) && DistinctSequences(transcript)
  {
    hide Grounded, ObservationSchema;
    NothingObservedSchema(fold, snapshot);
    NothingObservedGrounded(Inputs(fold, NothingObserved(snapshot), snapshot, transcript));
  }

  /** Publishable content and a well-numbered transcript meet that condition. */
  lemma ShortSessionUsable(fold: string -> string, snapshot: Standard, transcript: seq<Turn>)
    requires StandardSchema(snapshot) && StandardValidator.Publishable(fold, snapshot) && DistinctSequences(transcript)
    ensures Usable(fold, snapshot, transcript, NothingObserved(snapshot))
  {
    hide Trusted, StandardValidator.WeightTotal, StandardValidator.SameKey;
    StandardValidator.PublishableBlocksDistinct(fold, snapshot);
    ShortSessionTrusted(fold, snapshot, transcript);
  }

  /** Whatever is produced for a short session has no points and is not a pass. */
  lemma ShortSessionScored(snapshot: Standard, transcript: seq<Turn>, result: Canonical)
    requires ScoreOf(snapshot, transcript, NothingObserved(snapshot), result)
    ensures result.status == NotApplicable && result.weightedTotal == 0.0 && !result.passed
    ensures forall c :: c in result.categories ==> c.penalizedScore.None? && c.contribution == 0.0
  {
    hide SortBy, BlockMap, Contribution, PenaltyTotal;
    var v := ValidatedObservation(NothingObserved(snapshot), snapshot, transcript);
    var cs := result.categories;
    forall i | 0 <= i < |cs| ensures cs[i].penalizedScore.None? && cs[i].contribution == 0.0 {
      assert Ordered(v)[i] in multiset(Ordered(v));
      NothingObservedAt(snapshot, Ordered(v)[i]);
    }
    NothingAddsUp(cs);
    MoneyExact(0);
  }

  lemma {:induction false} NothingAddsUp(cs: seq<CategoryScore>)
    requires forall i :: 0 <= i < |cs| ==> cs[i].contribution == 0.0
    ensures SumContributions(cs) == 0.0
  {
    if cs != [] {
      NothingAddsUp(cs[..|cs| - 1]);
    }
  }

  // ----- one response

  datatype Problem =
    | Truncated
    | NotJson
    | SchemaInvalid
    | Misnumbered(at: seq<int>)
    | Untrusted(issues: seq<ObservationValidator.Issue>)
    | Unscorable

  /** Content that is not JSON, JSON without the fields of an observation, or an object to be validated. */
  datatype Body = Garbled | WrongShape | Object(payload: Payload)

  /** What the provider answers. */
  datatype Response = Response(truncated: bool, body: Body)

  /** The observation a response amounts to. */
  function ObservationOf(fold: string -> string, r: Response): Option<Observation> {
    if r.truncated || !r.body.Object? then None else Parse(Deduplicated(fold, r.body.payload))
  }

  /** What is wrong with the observation: the first stage it fails, with exactly the defects found there. */
  ghost predicate Explains(fold: string -> string, snapshot: Standard, transcript: seq<Turn>, o: Observation, p: Problem) {
    if !(ObservationSchema(fold, o) && StandardSchema(snapshot)) then p == SchemaInvalid
    else if !DistinctSequences(transcript) then p.Misnumbered? && forall i :: i in p.at <==> RepeatsSequence(transcript, i)
    else if !Trusted(fold, ValidatedObservation(o, snapshot, transcript)) then
      p.Untrusted? && forall x :: x in p.issues <==> ObservationValidator.Defect(Inputs(fold, o, snapshot, transcript), x)
    else p == Unscorable && StandardValidator.WeightTotal(snapshot) != 100
  }

  /** The problem a response earns. */
  ghost predicate Diagnosed(fold: string -> string, snapshot: Standard, transcript: seq<Turn>, r: Response, p: Problem) {
    if r.truncated then p == Truncated
    else if r.body.Garbled? then p == NotJson
    else if ObservationOf(fold, r).None? then p == SchemaInvalid
    else Explains(fold, snapshot, transcript, ObservationOf(fold, r).value, p)
  }

  /** An observation that passes full validation against weights that can be scored. */
  ghost predicate Usable(fold: string -> string, snapshot: Standard, transcript: seq<Turn>, o: Observation) {
    && Trusted(fold, ValidatedObservation(o, snapshot, transcript))
    && StandardValidator.WeightTotal(snapshot) == 100
  }

  ghost predicate UsableResponse(fold: string -> string, snapshot: Standard, transcript: seq<Turn>, r: Response) {
    ObservationOf(fold, r).Some? && Usable(fold, snapshot, transcript, ObservationOf(fold, r).value)
  }

  /** `result` is the score of `o`. */
  ghost predicate ScoreOf(snapshot: Standard, transcript: seq<Turn>, o: Observation, result: Canonical) {
    var v := ValidatedObservation(o, snapshot, transcript);
    CategoriesKnown(v) && result == Scored(v)
  }

  lemma TrustedCategoriesKnown(fold: string -> string, v: ValidatedObservation)
    requires Trusted(fold, v)
    ensures CategoriesKnown(v)
  {
    var k := Inputs(fold, v.observation, v.snapshot, v.transcript);
    forall c | c in v.observation.categories ensures c.blockId in BlockMap(v.snapshot.blocks) {
      assert c.blockId in CategoryIds(k.o);
    }
  }

  lemma TrustedParts(fold: string -> string, v: ValidatedObservation)
    requires Trusted(fold, v)
    ensures ObservationSchema(fold, v.observation) && StandardSchema(v.snapshot) && DistinctSequences(v.transcript)
  {
  }

  /** Validation, then scoring. */
  method ValidateAndScore(fold: string -> string, snapshot: Standard, transcript: seq<Turn>, o: Observation)
    returns (r: Result<Canonical, Problem>)
    ensures r.Ok? <==> Usable(fold, snapshot, transcript, o)
    ensures r.Ok? ==> ScoreOf(snapshot, transcript, o, r.value)
    ensures r.Err? ==> Explains(fold, snapshot, transcript, o, r.error)
  {
    hide Trusted, ObservationValidator.Defect, StandardValidator.WeightTotal, Scored, ObservationSchema, StandardSchema;
    var outcome := ValidateObservation(fold, o, snapshot, transcript);
    match outcome {
      case Accepted(v) =>
        TrustedCategoriesKnown(fold, v);
        TrustedParts(fold, v);
        var scored := CalculateRubricScore(v, None);
        if scored.Err? {
          return Err(Unscorable);
        }
        return Ok(scored.value);
      case Rejected(issues) => return Err(Untrusted(issues));
      case SchemaRejected => return Err(SchemaInvalid);
      case SequencesRepeated(at) => return Err(Misnumbered(at));
    }
  }

  method HandleResponse(fold: string -> string, snapshot: Standard, transcript: seq<Turn>, response: Response)
    returns (r: Result<Canonical, Problem>)
    ensures r.Ok? <==> UsableResponse(fold, snapshot, transcript, response)
    ensures r.Ok? ==> ScoreOf(snapshot, transcript, ObservationOf(fold, response).value, r.value)
    ensures r.Err? ==> Diagnosed(fold, snapshot, transcript, response, r.error)
  {
    hide Usable, ScoreOf, ObservationValidator.Defect, ObservationSchema, StandardSchema, Trusted, Deduplicated, Parse;
    if response.truncated {
      return Err(Truncated);
    }
    if response.body.Garbled? {
      return Err(NotJson);
    }
    if response.body.WrongShape? {
      return Err(SchemaInvalid);
    }
    var payload, _ := DeduplicateTechniqueLists(fold, response.body.payload);
    var parsed := Parse(payload);
    if parsed.None? {
      return Err(SchemaInvalid);
    }
    r := ValidateAndScore(fold, snapshot, transcript, parsed.value);
  }

  // ----- the loop

  datatype Evaluation =
    | Produced(canonical: Canonical)
    | GaveUp(problem: Problem)
    | ProviderFailed
    | Refused(problem: Problem)

  /** The provider, as a function of the attempt, its token budget and the problem fed back; `None` raises. */
  type Provider = (nat, nat, Option<Problem>) -> Option<Response>

  function NextBudget(budget: nat, truncated: bool): nat {
    if !truncated then budget else if budget * 2 < RETRY_OUTPUT_TOKENS then budget * 2 else RETRY_OUTPUT_TOKENS
  }

  /** What was asked of the provider, and what it answered. */
  datatype Log = Log(budgets: seq<nat>, fed: seq<Option<Problem>>, responses: seq<Response>)

  /** Every call is answered except possibly the last, and the answers are the provider's. */
  ghost predicate Asked(provider: Provider, log: Log) {
    && |log.fed| == |log.budgets|
    && |log.budgets| - 1 <= |log.responses| <= |log.budgets| <= MAX_ATTEMPTS
    && (forall i :: 0 <= i < |log.responses| ==> provider(i, log.budgets[i], log.fed[i]) == Some(log.responses[i]))
    && (|log.responses| < |log.budgets| ==>
          var last := |log.responses|;
          provider(last, log.budgets[last], log.fed[last]) == None)
  }

  /** Call `i` follows an unusable answer, is told what was wrong with it, and may cost more only if it was cut off. */
  ghost predicate Follows(fold: string -> string, snapshot: Standard, transcript: seq<Turn>, log: Log, i: nat)
    requires 0 < i < |log.budgets| == |log.fed| && i <= |log.responses|
  {
    && !UsableResponse(fold, snapshot, transcript, log.responses[i - 1])
    && log.budgets[i] == NextBudget(log.budgets[i - 1], log.responses[i - 1].truncated)
    && log.fed[i].Some? && Diagnosed(fold, snapshot, transcript, log.responses[i - 1], log.fed[i].value)
  }

  /** The first call is told nothing, and every other follows an unusable answer. */
  ghost predicate Retried(fold: string -> string, snapshot: Standard, transcript: seq<Turn>, log: Log)
    requires |log.fed| == |log.budgets| && |log.budgets| - 1 <= |log.responses|
  {
    && (log.budgets != [] ==> log.budgets[0] == OUTPUT_TOKENS && log.fed[0] == None)
    && forall i :: 0 < i < |log.budgets| ==> Follows(fold, snapshot, transcript, log, i)
  }

  /** The log so far, before the call that will have `budget` and `problem`. */
  ghost predicate Pending(fold: string -> string, snapshot: Standard, transcript: seq<Turn>, provider: Provider, log: Log,
                          budget: nat, problem: Option<Problem>)
  {
    && Asked(provider, log) && Retried(fold, snapshot, transcript, log) && |log.responses| == |log.budgets|
    && if log.budgets == [] then budget == OUTPUT_TOKENS && problem == None
       else
         var last := log.responses[|log.responses| - 1];
         && !UsableResponse(fold, snapshot, transcript, last)
         && budget == NextBudget(log.budgets[|log.budgets| - 1], last.truncated)
         && problem.Some? && Diagnosed(fold, snapshot, transcript, last, problem.value)
  }

  /** The next call and its answer, if there is one. */
  function Called(log: Log, budget: nat, problem: Option<Problem>, answer: Option<Response>): Log {
    Log(log.budgets + [budget], log.fed + [problem], log.responses + if answer.Some? then [answer.value] else [])
  }

  lemma OneMoreCall(fold: string -> string, snapshot: Standard, transcript: seq<Turn>, provider: Provider, log: Log,
                    budget: nat, problem: Option<Problem>)
    requires Pending(fold, snapshot, transcript, provider, log, budget, problem) && |log.budgets| < MAX_ATTEMPTS
    ensures var after := Called(log, budget, problem, provider(|log.budgets|, budget, problem));
      Asked(provider, after) && Retried(fold, snapshot, transcript, after)
  {
    hide UsableResponse, Diagnosed;
    var n := |log.budgets|;
    var after := Called(log, budget, problem, provider(n, budget, problem));
    forall i | 0 < i <= n ensures Follows(fold, snapshot, transcript, after, i) {
      if i < n {
        assert Follows(fold, snapshot, transcript, log, i);
      }
    }
  }

  /** A run of calls never asks for less than the standard budget, nor for more than the retry budget. */
  lemma {:induction false} BudgetsBounded(fold: string -> string, snapshot: Standard, transcript: seq<Turn>, provider: Provider, log: Log, i: nat)
    requires Asked(provider, log) && Retried(fold, snapshot, transcript, log) && i < |log.budgets|
    ensures OUTPUT_TOKENS <= log.budgets[i] <= RETRY_OUTPUT_TOKENS
    ensures forall j :: 0 <= j <= i ==> log.budgets[j] <= log.budgets[i]
  {
    hide UsableResponse, Diagnosed;
    if i > 0 {
      BudgetsBounded(fold, snapshot, transcript, provider, log, i - 1);
      assert Follows(fold, snapshot, transcript, log, i);
    }
  }

  /** At most three calls; each is for 4096 tokens until an answer is cut off, and for 8192 from then on. */
  lemma {:induction false} BudgetNumbers(fold: string -> string, snapshot: Standard, transcript: seq<Turn>, provider: Provider, log: Log, i: nat)
    requires Asked(provider, log) && Retried(fold, snapshot, transcript, log) && i < |log.budgets|
    ensures |log.budgets| <= 3
    ensures log.budgets[i] == if exists j :: 0 <= j < i && log.responses[j].truncated then 8192 else 4096
  {
    hide UsableResponse, Diagnosed;
    if i > 0 {
      BudgetNumbers(fold, snapshot, transcript, provider, log, i - 1);
      assert Follows(fold, snapshot, transcript, log, i);
    }
  }

  /** Whatever the provider answers: bounded calls, each told what was wrong with the answer before it, and a
      result exactly when the last answer is usable, namely the score of the observation in it. */
  method EvaluateRubric(fold: string -> string, snapshot: Standard, transcript: seq<Turn>, provider: Provider)
    returns (r: Evaluation, log: Log)
    ensures Asked(provider, log) && Retried(fold, snapshot, transcript, log)
    ensures TooShort(transcript) <==> log.budgets == []
    ensures TooShort(transcript) ==> r.Produced? || r.Refused?
    ensures TooShort(transcript) ==> (r.Produced? <==> Usable(fold, snapshot, transcript, NothingObserved(snapshot)))
    ensures TooShort(transcript) && r.Produced? ==> ScoreOf(snapshot, transcript, NothingObserved(snapshot), r.canonical)
    ensures r.Refused? ==> Explains(fold, snapshot, transcript, NothingObserved(snapshot), r.problem)
    ensures !TooShort(transcript) ==> !r.Refused?
    ensures r.ProviderFailed? <==> |log.responses| < |log.budgets|
    ensures !TooShort(transcript) && !r.ProviderFailed? ==>
      && var last := log.responses[|log.responses| - 1];
      && (r.Produced? <==> UsableResponse(fold, snapshot, transcript, last))
      && (r.Produced? ==> ScoreOf(snapshot, transcript, ObservationOf(fold, last).value, r.canonical))
      && (r.GaveUp? ==> |log.responses| == 3 && Diagnosed(fold, snapshot, transcript, last, r.problem))
  {
    hide UsableResponse, Usable, ScoreOf, AgentTurns, Asked, Retried, Diagnosed, Explains;
    log := Log([], [], []);
    assert Asked(provider, log) && Retried(fold, snapshot, transcript, log) by { NoCalls(fold, snapshot, transcript, provider); }
    if TooShort(transcript) {
      var handled := ValidateAndScore(fold, snapshot, transcript, NothingObserved(snapshot));
      match handled {
        case Ok(canonical) => return Evaluation.Produced(canonical), log;
        case Err(p) => return Refused(p), log;
      }
    }
    var budget: nat := OUTPUT_TOKENS;
    var problem: Option<Problem> := None;
    for attempt := 0 to MAX_ATTEMPTS
      invariant |log.budgets| == |log.fed| == |log.responses| == attempt
      invariant attempt < MAX_ATTEMPTS ==> Pending(fold, snapshot, transcript, provider, log, budget, problem)
      invariant attempt == MAX_ATTEMPTS ==>
        && Asked(provider, log) && Retried(fold, snapshot, transcript, log) && problem.Some?
        && !UsableResponse(fold, snapshot, transcript, log.responses[MAX_ATTEMPTS - 1])
        && Diagnosed(fold, snapshot, transcript, log.responses[MAX_ATTEMPTS - 1], problem.value)
    {
      OneMoreCall(fold, snapshot, transcript, provider, log, budget, problem);
      var answer := provider(attempt, budget, problem);
      log := Called(log, budget, problem, answer);
      if answer.None? {
        return ProviderFailed, log;
      }
      var response := answer.value;
      var handled := HandleResponse(fold, snapshot, transcript, response);
      match handled {
        case Ok(canonical) => return Evaluation.Produced(canonical), log;
        case Err(p) => problem := Some(p);
      }
      if attempt < MAX_ATTEMPTS - 1 && response.truncated {
        budget := if budget * 2 < RETRY_OUTPUT_TOKENS then budget * 2 else RETRY_OUTPUT_TOKENS;
      }
    }
    return GaveUp(problem.value), log;
  }

  lemma NoCalls(fold: string -> string, snapshot: Standard, transcript: seq<Turn>, provider: Provider)
    ensures Asked(provider, Log([], [], [])) && Retried(fold, snapshot, transcript, Log([], [], []))
  {
  }
}
