/** Grounding of an AI observation in the pinned rubric and the transcript. */
module ObservationValidator {
  import opened Rubric
  import opened Text

  /** A persisted transcript entry; absent keys are `None`. */
  datatype Turn = Turn(sequence: Option<int>, speaker: Option<string>, text: Option<string>, utterance: Option<string>)
  {
    function Spoken(): string {
      if text.Some? then text.value else if utterance.Some? then utterance.value else ""
    }
  }

  /** The sequence number of entry `i`: its own, or else its position. */
  function SequenceOf(transcript: seq<Turn>, i: nat): int
    requires i < |transcript|
  {
    if transcript[i].sequence.Some? then transcript[i].sequence.value else i
  }

  function Indexed(transcript: seq<Turn>, n: nat): (m: map<int, Turn>)
    requires n <= |transcript|
  {
    if n == 0 then map[] else Indexed(transcript, n - 1)[SequenceOf(transcript, n - 1) := transcript[n - 1]]
  }

  lemma {:induction false} IndexedKeys(transcript: seq<Turn>, n: nat)
    requires n <= |transcript|
    ensures forall s :: s in Indexed(transcript, n) <==> exists i :: 0 <= i < n && SequenceOf(transcript, i) == s
  {
    if n > 0 {
      IndexedKeys(transcript, n - 1);
    }
  }

  predicate RepeatsSequence(transcript: seq<Turn>, i: int) {
    0 <= i < |transcript| && exists j | 0 <= j < i :: SequenceOf(transcript, j) == SequenceOf(transcript, i)
  }

  predicate DistinctSequences(transcript: seq<Turn>) {
    forall i | 0 <= i < |transcript| :: !RepeatsSequence(transcript, i)
  }

  method TranscriptIndex(transcript: seq<Turn>) returns (indexed: map<int, Turn>, repeated: seq<int>)
    ensures indexed == Indexed(transcript, |transcript|)
    ensures forall i :: i in repeated <==> RepeatsSequence(transcript, i)
  {
    indexed, repeated := map[], [];
    for i := 0 to |transcript|
      invariant indexed == Indexed(transcript, i)
      invariant forall j :: j in repeated <==> j < i && RepeatsSequence(transcript, j)
    {
      var sequence := SequenceOf(transcript, i);
      IndexedKeys(transcript, i);
      assert sequence in indexed <==> RepeatsSequence(transcript, i);
      if sequence in indexed {
        repeated := repeated + [i];
      }
      indexed := indexed[sequence := transcript[i]];
    }
  }

  /** Everything one validation looks at. */
  datatype Inputs = Inputs(fold: string -> string, o: Observation, rubric: Standard, transcript: seq<Turn>)
  {
    function Blocks(): map<string, Block> { BlockMap(rubric.blocks) }
    function Turns(): map<int, Turn> { Indexed(transcript, |transcript|) }
    predicate Known(c: nat) { c < |o.categories| && o.categories[c].blockId in Blocks() }
    function BlockOf(c: nat): Block requires Known(c) { Blocks()[o.categories[c].blockId] }
  }

  function CategoryIds(o: Observation): (ids: set<string>) {
    set c | c in o.categories :: c.blockId
  }

  predicate CategoriesDistinct(o: Observation) {
    forall i, j | 0 <= i < j < |o.categories| :: o.categories[i].blockId != o.categories[j].blockId
  }

  function EvidenceSequences(evidence: seq<Evidence>): set<int> {
    set e | e in evidence :: e.sequence
  }

  /** The transcript positions the findings about `id` cite. */
  function Cited(findings: seq<Finding>, id: string): set<int> {
    set f, n | f in findings && f.id == id && n in f.sequences :: n
  }

  predicate Cites(findings: seq<Finding>, id: string) {
    exists f :: f in findings && f.id == id
  }

  /** A declared criterion has a finding: as a strength, or as a declared violation. */
  predicate HasFinding(b: Block, c: CategoryObservation, id: string) {
    (b.HasCriterion(id) && Cites(c.strengths, id)) || (b.HasViolation(id) && Cites(c.violations, id))
  }

  function FindingSequences(b: Block, c: CategoryObservation, id: string): set<int> {
    (if b.HasCriterion(id) then Cited(c.strengths, id) else {}) + (if b.HasViolation(id) then Cited(c.violations, id) else {})
  }

  predicate HasInput(b: Block, c: CategoryObservation, id: string) {
    b.HasCriterion(id) && exists i :: i in c.inputs && i.criterionId == id
  }

  predicate Supported(b: Block, c: CategoryObservation, id: string) {
    HasFinding(b, c, id) || HasInput(b, c, id)
  }

  predicate SpeakerMatches(t: Turn, e: Evidence) {
    t.speaker == Some(e.speaker)
  }

  predicate ExcerptMatches(t: Turn, e: Evidence) {
    Contains(Normalize(e.excerpt), Normalize(t.Spoken()))
  }

  predicate DeclaredTechnique(k: Inputs, name: string) {
    exists b, c :: b in k.rubric.blocks && c in b.Criteria() && k.fold(c.name) == k.fold(name)
  }

  datatype Issue =
    | RepeatedCategory
    | MissingCategory(blockId: string)
    | UnknownCategory(blockId: string)
    | EvidenceTurn(category: nat, index: nat)
    | EvidenceSpeaker(category: nat, index: nat)
    | EvidenceExcerpt(category: nat, index: nat)
    | StrengthCriterion(category: nat, index: nat)
    | StrengthSequence(category: nat, index: nat, sub: nat)
    | ViolationCriterion(category: nat, index: nat)
    | ViolationSequence(category: nat, index: nat, sub: nat)
    | FailedCriterion(category: nat, index: nat)
    | InputCriterion(category: nat, index: nat)
    | InputTurn(category: nat, index: nat)
    | InputEvidence(category: nat, index: nat)
    | InputCited(category: nat, index: nat)
    | InputFinding(category: nat, index: nat)
    | FailedUnsupported(category: nat, index: nat)
    | TechniqueName(index: nat)
    | TechniqueTurn(index: nat, sub: nat)
    | MissedName(index: nat)

  predicate OnCoverage(x: Issue) { x.RepeatedCategory? || x.MissingCategory? || x.UnknownCategory? }
  predicate OnEvidence(x: Issue) { x.EvidenceTurn? || x.EvidenceSpeaker? || x.EvidenceExcerpt? }
  predicate OnStrength(x: Issue) { x.StrengthCriterion? || x.StrengthSequence? }
  predicate OnViolation(x: Issue) { x.ViolationCriterion? || x.ViolationSequence? }
  predicate OnInput(x: Issue) {
    x.InputCriterion? || x.InputTurn? || x.InputEvidence? || x.InputCited? || x.InputFinding?
  }
  predicate OnCategory(x: Issue) {
    OnEvidence(x) || OnStrength(x) || OnViolation(x) || x.FailedCriterion? || OnInput(x) || x.FailedUnsupported?
  }
  predicate OnTechnique(x: Issue) { x.TechniqueName? || x.TechniqueTurn? || x.MissedName? }

  /** What each issue means; at most one of the input issues holds of one input. */
  ghost predicate Defect(k: Inputs, x: Issue) {
    match x
    case RepeatedCategory => !CategoriesDistinct(k.o)
    case MissingCategory(id) => id in k.Blocks() && id !in CategoryIds(k.o)
    case UnknownCategory(id) => id in CategoryIds(k.o) && id !in k.Blocks()
    case EvidenceTurn(c, i) => EvidenceAt(k, c, i) && k.o.categories[c].evidence[i].sequence !in k.Turns()
    case EvidenceSpeaker(c, i) =>
      EvidenceAt(k, c, i) && (var e := k.o.categories[c].evidence[i];
        e.sequence in k.Turns() && !SpeakerMatches(k.Turns()[e.sequence], e))
    case EvidenceExcerpt(c, i) =>
      EvidenceAt(k, c, i) && (var e := k.o.categories[c].evidence[i];
        e.sequence in k.Turns() && !ExcerptMatches(k.Turns()[e.sequence], e))
    case StrengthCriterion(c, i) =>
      k.Known(c) && i < |k.o.categories[c].strengths| && !k.BlockOf(c).HasCriterion(k.o.categories[c].strengths[i].id)
    case StrengthSequence(c, i, n) =>
      k.Known(c) && i < |k.o.categories[c].strengths|
      && UnevidencedAt(k.o.categories[c].strengths[i].sequences, k.o.categories[c].evidence, n)
    case ViolationCriterion(c, i) =>
      k.Known(c) && i < |k.o.categories[c].violations| && !k.BlockOf(c).HasViolation(k.o.categories[c].violations[i].id)
    case ViolationSequence(c, i, n) =>
      k.Known(c) && i < |k.o.categories[c].violations|
      && UnevidencedAt(k.o.categories[c].violations[i].sequences, k.o.categories[c].evidence, n)
    case FailedCriterion(c, i) =>
      k.Known(c) && i < |k.o.categories[c].failedCriteria| && !k.BlockOf(c).HasCriterion(k.o.categories[c].failedCriteria[i])
    case InputCriterion(c, i) => InputAt(k, c, i) && InputVerdict(k, c, i) == Some(x)
    case InputTurn(c, i) => InputAt(k, c, i) && InputVerdict(k, c, i) == Some(x)
    case InputEvidence(c, i) => InputAt(k, c, i) && InputVerdict(k, c, i) == Some(x)
    case InputCited(c, i) => InputAt(k, c, i) && InputVerdict(k, c, i) == Some(x)
    case InputFinding(c, i) => InputAt(k, c, i) && InputVerdict(k, c, i) == Some(x)
    case FailedUnsupported(c, i) =>
      k.Known(c) && (var cat := k.o.categories[c];
        i < |cat.failedCriteria| && cat.failedCriteria[i] !in cat.failedCriteria[..i]
        && !Supported(k.BlockOf(c), cat, cat.failedCriteria[i]))
    case TechniqueName(i) => i < |k.o.applied| && !DeclaredTechnique(k, k.o.applied[i].name)
    case TechniqueTurn(i, n) =>
      i < |k.o.applied| && n < |k.o.applied[i].sequences| && k.o.applied[i].sequences[n] !in k.Turns()
    case MissedName(i) => i < |k.o.missed| && !DeclaredTechnique(k, k.o.missed[i].name)
  }

  predicate EvidenceAt(k: Inputs, c: nat, i: nat) {
    k.Known(c) && i < |k.o.categories[c].evidence|
  }

  predicate InputAt(k: Inputs, c: nat, i: nat) {
    k.Known(c) && i < |k.o.categories[c].inputs|
  }

  predicate UnevidencedAt(sequences: seq<int>, evidence: seq<Evidence>, n: nat) {
    n < |sequences| && sequences[n] !in EvidenceSequences(evidence)
  }

  /** The first rule a recommendation input breaks. */
  function InputVerdict(k: Inputs, c: nat, i: nat): (r: Option<Issue>)
    requires InputAt(k, c, i)
    ensures r.Some? ==> OnInput(r.value) && r.value.category == c && r.value.index == i
  {
    var cat, b := k.o.categories[c], k.BlockOf(c);
    var input := cat.inputs[i];
    if !b.HasCriterion(input.criterionId) then Some(InputCriterion(c, i))
    else if input.sequence !in k.Turns() then Some(InputTurn(c, i))
    else if input.sequence !in EvidenceSequences(cat.evidence) then Some(InputEvidence(c, i))
    else if HasFinding(b, cat, input.criterionId) then
      if input.sequence in FindingSequences(b, cat, input.criterionId) then None else Some(InputCited(c, i))
    else if input.criterionId in cat.failedCriteria then None
    else Some(InputFinding(c, i))
  }

  // ----- the checks, in the order the validator makes them

  method CheckCoverage(k: Inputs) returns (found: seq<Issue>)
    ensures forall x :: x in found <==> OnCoverage(x) && Defect(k, x)
  {
    hide InputVerdict;
    found := [];
    var actual := CategoryIds(k.o);
    var blocks := k.Blocks();
    if !CategoriesDistinct(k.o) {
      found := found + [RepeatedCategory];
    }
    var missing := blocks.Keys - actual;
    while missing != {}
      invariant missing <= blocks.Keys - actual
      invariant forall x :: x in found <==>
        (x.RepeatedCategory? || (x.MissingCategory? && x.blockId !in missing)) && Defect(k, x)
      decreases missing
    {
      var id :| id in missing;
      found := found + [MissingCategory(id)];
      missing := missing - {id};
    }
    var unknown := actual - blocks.Keys;
    while unknown != {}
      invariant unknown <= actual - blocks.Keys
      invariant forall x :: x in found <==>
        (x.RepeatedCategory? || x.MissingCategory? || (x.UnknownCategory? && x.blockId !in unknown)) && Defect(k, x)
      decreases unknown
    {
      var id :| id in unknown;
      found := found + [UnknownCategory(id)];
      unknown := unknown - {id};
    }
  }

  method CheckEvidence(k: Inputs, c: nat) returns (found: seq<Issue>)
    requires k.Known(c)
    ensures forall x :: x in found <==> OnEvidence(x) && x.category == c && Defect(k, x)
  {
    hide InputVerdict;
    found := [];
    var turns := k.Turns();
    var evidence := k.o.categories[c].evidence;
    for i := 0 to |evidence|
      invariant forall x :: x in found <==> OnEvidence(x) && x.category == c && x.index < i && Defect(k, x)
    {
      var e := evidence[i];
      if e.sequence !in turns {
        found := found + [EvidenceTurn(c, i)];
      } else {
        if !SpeakerMatches(turns[e.sequence], e) {
          found := found + [EvidenceSpeaker(c, i)];
        }
        if !ExcerptMatches(turns[e.sequence], e) {
          found := found + [EvidenceExcerpt(c, i)];
        }
      }
    }
  }

  /** The sequences of one finding that no evidence of its category covers. */
  method CheckSequences(k: Inputs, c: nat, i: nat, strength: bool) returns (found: seq<Issue>)
    requires k.Known(c) && i < |if strength then k.o.categories[c].strengths else k.o.categories[c].violations|
    ensures forall x :: x in found <==>
      (if strength then x.StrengthSequence? else x.ViolationSequence?) && x.category == c && x.index == i && Defect(k, x)
  {
    hide InputVerdict;
    found := [];
    var cat := k.o.categories[c];
    var sequences := if strength then cat.strengths[i].sequences else cat.violations[i].sequences;
    var known := EvidenceSequences(cat.evidence);
    for n := 0 to |sequences|
      invariant forall x :: x in found <==>
        && (if strength then x.StrengthSequence? else x.ViolationSequence?)
        && x.category == c && x.index == i && x.sub < n && Defect(k, x)
    {
      if sequences[n] !in known {
        found := found + [if strength then StrengthSequence(c, i, n) else ViolationSequence(c, i, n)];
      }
    }
  }

  /** The evidence map after the strengths, before the violations. */
  ghost predicate Collected(b: Block, strengths: seq<Finding>, violations: seq<Finding>, m: map<string, set<int>>) {
    forall id :: (id in m <==> (b.HasCriterion(id) && Cites(strengths, id)) || (b.HasViolation(id) && Cites(violations, id)))
      && (id in m ==> m[id] == (if b.HasCriterion(id) then Cited(strengths, id) else {})
                             + (if b.HasViolation(id) then Cited(violations, id) else {}))
  }

  function AddCited(m: map<string, set<int>>, id: string, sequences: seq<int>): map<string, set<int>> {
    m[id := (if id in m then m[id] else {}) + (set n | n in sequences)]
  }

  lemma CitedStep(findings: seq<Finding>, i: nat, id: string)
    requires i < |findings|
    ensures findings[..i + 1] == findings[..i] + [findings[i]]
    ensures Cites(findings[..i + 1], id) == (Cites(findings[..i], id) || findings[i].id == id)
    ensures Cited(findings[..i + 1], id)
      == Cited(findings[..i], id) + (if findings[i].id == id then set n | n in findings[i].sequences else {})
  {
    assert findings[..i + 1] == findings[..i] + [findings[i]];
    assert findings[i] in findings[..i + 1];
    assert forall f :: f in findings[..i + 1] <==> f in findings[..i] || f == findings[i];
    var more := if findings[i].id == id then set n | n in findings[i].sequences else {};
    forall n ensures n in Cited(findings[..i + 1], id) <==> n in Cited(findings[..i], id) + more {
      if n in Cited(findings[..i], id) {
        var f :| f in findings[..i] && f.id == id && n in f.sequences;
        assert f in findings[..i + 1];
      }
    }
  }

  method CheckStrength(k: Inputs, c: nat, i: nat) returns (found: seq<Issue>)
    requires k.Known(c) && i < |k.o.categories[c].strengths|
    ensures forall x :: x in found <==> OnStrength(x) && x.category == c && x.index == i && Defect(k, x)
  {
    hide InputVerdict;
    var known := k.BlockOf(c).HasCriterion(k.o.categories[c].strengths[i].id);
    var bad := CheckSequences(k, c, i, true);
    found := (if known then [] else [StrengthCriterion(c, i)]) + bad;
  }

  lemma CollectStrength(b: Block, strengths: seq<Finding>, i: nat, m: map<string, set<int>>)
    requires i < |strengths| && Collected(b, strengths[..i], [], m)
    ensures Collected(b, strengths[..i + 1], [],
      if b.HasCriterion(strengths[i].id) then AddCited(m, strengths[i].id, strengths[i].sequences) else m)
  {
    forall id { CitedStep(strengths, i, id); }
  }

  lemma FindingInside(k: Inputs, c: nat, x: Issue)
    requires k.Known(c)
    ensures OnStrength(x) && x.category == c && Defect(k, x) ==> x.index < |k.o.categories[c].strengths|
    ensures OnViolation(x) && x.category == c && Defect(k, x) ==> x.index < |k.o.categories[c].violations|
  {
    hide InputVerdict, Supported, DeclaredTechnique, UnevidencedAt, SpeakerMatches, ExcerptMatches, CategoryIds;
    hide EvidenceAt, InputAt, CategoriesDistinct, Block.HasCriterion, Block.HasViolation;
  }

  method CheckStrengths(k: Inputs, c: nat) returns (found: seq<Issue>, cited: map<string, set<int>>)
    requires k.Known(c)
    ensures forall x :: x in found <==> OnStrength(x) && x.category == c && Defect(k, x)
    ensures Collected(k.BlockOf(c), k.o.categories[c].strengths, [], cited)
  {
    hide Defect;
    forall x: Issue ensures OnStrength(x) && x.category == c && Defect(k, x) ==> x.index < |k.o.categories[c].strengths| { FindingInside(k, c, x); }
    found, cited := [], map[];
    var strengths, b := k.o.categories[c].strengths, k.BlockOf(c);
    for i := 0 to |strengths|
      invariant forall x :: x in found <==> OnStrength(x) && x.category == c && x.index < i && Defect(k, x)
      invariant Collected(b, strengths[..i], [], cited)
    {
      var issues := CheckStrength(k, c, i);
      found := found + issues;
      CollectStrength(b, strengths, i, cited);
      if b.HasCriterion(strengths[i].id) {
        cited := AddCited(cited, strengths[i].id, strengths[i].sequences);
      }
    }
    assert strengths[..|strengths|] == strengths;
  }

  method CheckViolation(k: Inputs, c: nat, i: nat) returns (found: seq<Issue>)
    requires k.Known(c) && i < |k.o.categories[c].violations|
    ensures forall x :: x in found <==> OnViolation(x) && x.category == c && x.index == i && Defect(k, x)
  {
    hide InputVerdict;
    var known := k.BlockOf(c).HasViolation(k.o.categories[c].violations[i].id);
    var bad := CheckSequences(k, c, i, false);
    found := (if known then [] else [ViolationCriterion(c, i)]) + bad;
  }

  lemma CollectViolation(b: Block, strengths: seq<Finding>, violations: seq<Finding>, i: nat, m: map<string, set<int>>)
    requires i < |violations| && Collected(b, strengths, violations[..i], m)
    ensures Collected(b, strengths, violations[..i + 1],
      if b.HasViolation(violations[i].id) then AddCited(m, violations[i].id, violations[i].sequences) else m)
  {
    forall id { CitedStep(violations, i, id); }
  }

  method CheckViolations(k: Inputs, c: nat, before: map<string, set<int>>) returns (found: seq<Issue>, cited: map<string, set<int>>)
    requires k.Known(c)
    requires Collected(k.BlockOf(c), k.o.categories[c].strengths, [], before)
    ensures forall x :: x in found <==> OnViolation(x) && x.category == c && Defect(k, x)
    ensures Collected(k.BlockOf(c), k.o.categories[c].strengths, k.o.categories[c].violations, cited)
  {
    hide Defect;
    forall x: Issue ensures OnViolation(x) && x.category == c && Defect(k, x) ==> x.index < |k.o.categories[c].violations| { FindingInside(k, c, x); }
    found, cited := [], before;
    var violations, b := k.o.categories[c].violations, k.BlockOf(c);
    for i := 0 to |violations|
      invariant forall x :: x in found <==> OnViolation(x) && x.category == c && x.index < i && Defect(k, x)
      invariant Collected(b, k.o.categories[c].strengths, violations[..i], cited)
    {
      var issues := CheckViolation(k, c, i);
      found := found + issues;
      CollectViolation(b, k.o.categories[c].strengths, violations, i, cited);
      if b.HasViolation(violations[i].id) {
        cited := AddCited(cited, violations[i].id, violations[i].sequences);
      }
    }
    assert violations[..|violations|] == violations;
  }

  method CheckFailed(k: Inputs, c: nat) returns (found: seq<Issue>)
    requires k.Known(c)
    ensures forall x :: x in found <==> x.FailedCriterion? && x.category == c && Defect(k, x)
  {
    hide InputVerdict, Supported;
    found := [];
    var cat, b := k.o.categories[c], k.BlockOf(c);
    for i := 0 to |cat.failedCriteria|
      invariant forall x :: x in found <==> x.FailedCriterion? && x.category == c && x.index < i && Defect(k, x)
    {
      if !b.HasCriterion(cat.failedCriteria[i]) {
        found := found + [FailedCriterion(c, i)];
      }
    }
  }

  method CheckInput(k: Inputs, c: nat, i: nat, evidence: set<int>, cited: map<string, set<int>>) returns (verdict: Option<Issue>)
    requires InputAt(k, c, i) && evidence == EvidenceSequences(k.o.categories[c].evidence)
    requires Collected(k.BlockOf(c), k.o.categories[c].strengths, k.o.categories[c].violations, cited)
    ensures verdict == InputVerdict(k, c, i)
  {
    var cat := k.o.categories[c];
    var input := cat.inputs[i];
    if !k.BlockOf(c).HasCriterion(input.criterionId) {
      return Some(InputCriterion(c, i));
    }
    if input.sequence !in k.Turns() {
      return Some(InputTurn(c, i));
    } else if input.sequence !in evidence {
      return Some(InputEvidence(c, i));
    } else if input.criterionId in cited && input.sequence !in cited[input.criterionId] {
      return Some(InputCited(c, i));
    } else if input.criterionId !in cited && input.criterionId !in cat.failedCriteria {
      return Some(InputFinding(c, i));
    }
    return None;
  }

  ghost predicate VerdictIs(k: Inputs, c: nat, i: nat, x: Issue) {
    InputAt(k, c, i) && InputVerdict(k, c, i) == Some(x)
  }

  lemma VerdictIsDefect(k: Inputs, c: nat, x: Issue)
    requires k.Known(c)
    ensures (exists j: nat :: j < |k.o.categories[c].inputs| && VerdictIs(k, c, j, x))
      <==> OnInput(x) && x.category == c && Defect(k, x)
  {
    hide InputVerdict, Defect;
    if OnInput(x) && x.category == c {
      InputDefect(k, c, x);
      if Defect(k, x) {
        assert VerdictIs(k, c, x.index, x);
      }
    }
  }

  method CheckInputs(k: Inputs, c: nat, cited: map<string, set<int>>) returns (found: seq<Issue>, criteria: set<string>)
    requires k.Known(c)
    requires Collected(k.BlockOf(c), k.o.categories[c].strengths, k.o.categories[c].violations, cited)
    ensures forall x :: x in found <==> OnInput(x) && x.category == c && Defect(k, x)
    ensures forall id :: id in criteria <==> HasInput(k.BlockOf(c), k.o.categories[c], id)
  {
    found, criteria := [], {};
    var cat, b := k.o.categories[c], k.BlockOf(c);
    var evidence := EvidenceSequences(cat.evidence);
    for i := 0 to |cat.inputs|
      invariant forall x :: x in found <==> exists j: nat :: j < i && VerdictIs(k, c, j, x)
      invariant forall id :: id in criteria <==> b.HasCriterion(id) && exists j :: 0 <= j < i && cat.inputs[j].criterionId == id
    {
      var verdict := CheckInput(k, c, i, evidence, cited);
      assert forall x :: VerdictIs(k, c, i, x) <==> verdict == Some(x);
      if verdict.Some? {
        found := found + [verdict.value];
      }
      if b.HasCriterion(cat.inputs[i].criterionId) {
        criteria := criteria + {cat.inputs[i].criterionId};
      }
      forall x ensures (exists j: nat :: j < i + 1 && VerdictIs(k, c, j, x))
        <==> (exists j: nat :: j < i && VerdictIs(k, c, j, x)) || VerdictIs(k, c, i, x) {
      }
    }
    forall x ensures (exists j: nat :: j < |cat.inputs| && VerdictIs(k, c, j, x)) <==> OnInput(x) && x.category == c && Defect(k, x) {
      VerdictIsDefect(k, c, x);
    }
  }

  /** `items.index(x)`. */
  function FirstIndex(items: seq<string>, x: string): (i: nat)
    requires x in items
    ensures i < |items| && items[i] == x && x !in items[..i]
  {
    if items[0] == x then 0 else
      var rest := FirstIndex(items[1..], x);
      assert items[..rest + 1] == [items[0]] + items[1..][..rest];
      1 + rest
  }

  /** The unsupported failures of a category outside `todo`, as issues. */
  ghost predicate Unsupported(k: Inputs, c: nat, todo: set<string>, found: seq<Issue>) {
    forall x :: x in found <==>
      x.FailedUnsupported? && x.category == c && Defect(k, x) && k.o.categories[c].failedCriteria[x.index] !in todo
  }

  lemma OneMoreUnsupported(k: Inputs, c: nat, todo: set<string>, found: seq<Issue>, id: string)
    requires k.Known(c) && id in k.o.categories[c].failedCriteria && id in todo
    requires !Supported(k.BlockOf(c), k.o.categories[c], id)
    requires Unsupported(k, c, todo, found)
    ensures Unsupported(k, c, todo - {id}, found + [FailedUnsupported(c, FirstIndex(k.o.categories[c].failedCriteria, id))])
  {
    hide InputVerdict, Supported;
  }

  method CheckSupport(k: Inputs, c: nat, findings: set<string>, criteria: set<string>) returns (found: seq<Issue>)
    requires k.Known(c)
    requires forall id :: id in findings <==> HasFinding(k.BlockOf(c), k.o.categories[c], id)
    requires forall id :: id in criteria <==> HasInput(k.BlockOf(c), k.o.categories[c], id)
    ensures forall x :: x in found <==> x.FailedUnsupported? && x.category == c && Defect(k, x)
  {
    hide InputVerdict;
    found := [];
    var failed := k.o.categories[c].failedCriteria;
    var todo := (set id | id in failed) - findings - criteria;
    while todo != {}
      invariant forall id :: id in todo ==> id in failed && !Supported(k.BlockOf(c), k.o.categories[c], id)
      invariant Unsupported(k, c, todo, found)
      decreases todo
    {
      var id :| id in todo;
      OneMoreUnsupported(k, c, todo, found, id);
      found := found + [FailedUnsupported(c, FirstIndex(failed, id))];
      todo := todo - {id};
    }
  }

  method CheckCategory(k: Inputs, c: nat) returns (found: seq<Issue>)
    requires k.Known(c)
    ensures forall x :: x in found <==> OnCategory(x) && x.category == c && Defect(k, x)
  {
    hide Defect;
    var evidence := CheckEvidence(k, c);
    var strengths, afterStrengths := CheckStrengths(k, c);
    var violations, cited := CheckViolations(k, c, afterStrengths);
    var failed := CheckFailed(k, c);
    var inputs, criteria := CheckInputs(k, c, cited);
    var support := CheckSupport(k, c, cited.Keys, criteria);
    found := evidence + strengths + violations + failed + inputs + support;
  }

  method CheckApplied(k: Inputs, i: nat, names: set<string>) returns (found: seq<Issue>)
    requires i < |k.o.applied| && (k.fold(k.o.applied[i].name) in names <==> DeclaredTechnique(k, k.o.applied[i].name))
    ensures forall x :: x in found <==> (x.TechniqueName? || x.TechniqueTurn?) && x.index == i && Defect(k, x)
  {
    hide InputVerdict, DeclaredTechnique;
    var turns := k.Turns();
    var t := k.o.applied[i];
    found := if k.fold(t.name) in names then [] else [TechniqueName(i)];
    for n := 0 to |t.sequences|
      invariant forall x :: x in found <==>
        (x.TechniqueName? || x.TechniqueTurn?) && Defect(k, x) && x.index == i && (x.TechniqueTurn? ==> x.sub < n)
    {
      if t.sequences[n] !in turns {
        found := found + [TechniqueTurn(i, n)];
      }
    }
  }

  method CheckTechniques(k: Inputs) returns (found: seq<Issue>)
    ensures forall x :: x in found <==> OnTechnique(x) && Defect(k, x)
  {
    hide InputVerdict;
    found := [];
    var names := set b, c | b in k.rubric.blocks && c in b.Criteria() :: k.fold(c.name);
    for i := 0 to |k.o.applied|
      invariant forall x :: x in found <==> (x.TechniqueName? || x.TechniqueTurn?) && x.index < i && Defect(k, x)
    {
      var issues := CheckApplied(k, i, names);
      found := found + issues;
    }
    for i := 0 to |k.o.missed|
      invariant forall x :: x in found <==> (OnTechnique(x) && Defect(k, x)) && (x.MissedName? ==> x.index < i)
    {
      if k.fold(k.o.missed[i].name) !in names {
        found := found + [MissedName(i)];
      }
    }
  }

  // ----- what acceptance means

  ghost predicate EvidenceGrounded(turns: map<int, Turn>, c: CategoryObservation) {
    forall e :: e in c.evidence ==>
      e.sequence in turns && SpeakerMatches(turns[e.sequence], e) && ExcerptMatches(turns[e.sequence], e)
  }

  /** Every sequence a finding cites is covered by evidence of its category. */
  ghost predicate FindingsEvidenced(findings: seq<Finding>, evidence: seq<Evidence>) {
    forall f :: f in findings ==> forall n :: n in f.sequences ==> n in EvidenceSequences(evidence)
  }

  ghost predicate StrengthsGrounded(b: Block, c: CategoryObservation) {
    FindingsEvidenced(c.strengths, c.evidence) && forall f :: f in c.strengths ==> b.HasCriterion(f.id)
  }

  ghost predicate ViolationsGrounded(b: Block, c: CategoryObservation) {
    FindingsEvidenced(c.violations, c.evidence) && forall f :: f in c.violations ==> b.HasViolation(f.id)
  }

  predicate Found(c: CategoryObservation, id: string) {
    Cites(c.strengths, id) || Cites(c.violations, id)
  }

  ghost predicate FailedGrounded(b: Block, c: CategoryObservation) {
    forall id :: id in c.failedCriteria ==>
      b.HasCriterion(id) && (Found(c, id) || exists i :: i in c.inputs && i.criterionId == id)
  }

  /** An input cites its criterion's own evidence, or some evidence for a failed criterion without findings. */
  ghost predicate InputGrounded(b: Block, c: CategoryObservation, i: RecommendationInput) {
    && b.HasCriterion(i.criterionId)
    && i.sequence in EvidenceSequences(c.evidence)
    && (if Found(c, i.criterionId)
        then i.sequence in Cited(c.strengths, i.criterionId) + Cited(c.violations, i.criterionId)
        else i.criterionId in c.failedCriteria)
  }

  /** One category's findings, judged against its block and the transcript. */
  ghost predicate CategoryGrounded(turns: map<int, Turn>, b: Block, c: CategoryObservation) {
    && EvidenceGrounded(turns, c) && StrengthsGrounded(b, c) && ViolationsGrounded(b, c) && FailedGrounded(b, c)
    && forall i :: i in c.inputs ==> InputGrounded(b, c, i)
  }

  ghost predicate Grounded(k: Inputs) {
    && CategoriesDistinct(k.o)
    && CategoryIds(k.o) == k.Blocks().Keys
    && (forall c :: c in k.o.categories ==> c.blockId in k.Blocks() && CategoryGrounded(k.Turns(), k.Blocks()[c.blockId], c))
    && (forall t :: t in k.o.applied ==> DeclaredTechnique(k, t.name) && forall n :: n in t.sequences ==> n in k.Turns())
    && (forall t :: t in k.o.missed ==> DeclaredTechnique(k, t.name))
  }

  // ----- grounding in plain terms

  /** The entry with a number is the last one that carries it; an entry without a number carries its position. */
  lemma {:induction false} IndexedMeaning(transcript: seq<Turn>, n: nat, s: int) returns (i: nat)
    requires n <= |transcript| && s in Indexed(transcript, n)
    ensures i < n && Indexed(transcript, n)[s] == transcript[i]
    ensures (if transcript[i].sequence.Some? then transcript[i].sequence.value else i) == s
    ensures forall j :: i < j < n ==> SequenceOf(transcript, j) != s
  {
    i := n - 1;
    if SequenceOf(transcript, i) != s {
      i := IndexedMeaning(transcript, n - 1, s);
    }
  }

  /** The speaker is the one quoted, and the words of the turn contain those of the excerpt. */
  ghost predicate QuotesTurn(t: Turn, e: Evidence) {
    && t.speaker == Some(e.speaker)
    && exists before: string, after: string ::
         Join(Words(if t.text.Some? then t.text.value else if t.utterance.Some? then t.utterance.value else "", []))
         == before + Join(Words(e.excerpt, [])) + after
  }

  lemma QuotesTurnExactly(t: Turn, e: Evidence)
    ensures SpeakerMatches(t, e) && ExcerptMatches(t, e) <==> QuotesTurn(t, e)
  {
    ContainsMeaning(Normalize(e.excerpt), Normalize(t.Spoken()));
  }

  predicate Declares(cs: seq<Criterion>, id: string) { exists c :: c in cs && c.id == id }

  predicate EvidenceFor(c: CategoryObservation, n: int) { exists e :: e in c.evidence && e.sequence == n }

  predicate FindingAbout(c: CategoryObservation, id: string) { exists f :: f in c.strengths + c.violations && f.id == id }

  /** A category is grounded exactly when each excerpt quotes its turn; findings are about declared criteria (violations about
      declared violations) and cite places with evidence; failed criteria are declared and have a finding or an input; and
      inputs are about declared criteria, at a place with evidence that a finding about the criterion cites, if there is one. */
  lemma CategoryGroundedPlainly(turns: map<int, Turn>, b: Block, c: CategoryObservation)
    ensures CategoryGrounded(turns, b, c) <==>
      && (forall e :: e in c.evidence ==> e.sequence in turns && QuotesTurn(turns[e.sequence], e))
      && (forall f :: f in c.strengths ==>
            Declares(b.positiveBehaviors + b.violations, f.id) && forall n :: n in f.sequences ==> EvidenceFor(c, n))
      && (forall f :: f in c.violations ==> Declares(b.violations, f.id) && forall n :: n in f.sequences ==> EvidenceFor(c, n))
      && (forall id :: id in c.failedCriteria ==>
            && Declares(b.positiveBehaviors + b.violations, id)
            && (FindingAbout(c, id) || exists i :: i in c.inputs && i.criterionId == id))
      && forall i :: i in c.inputs ==>
           && Declares(b.positiveBehaviors + b.violations, i.criterionId) && EvidenceFor(c, i.sequence)
           && (if FindingAbout(c, i.criterionId)
               then exists f :: f in c.strengths + c.violations && f.id == i.criterionId && i.sequence in f.sequences
               else i.criterionId in c.failedCriteria)
  {
    hide QuotesTurn, SpeakerMatches, ExcerptMatches;
    forall e: Evidence | e.sequence in turns
      ensures SpeakerMatches(turns[e.sequence], e) && ExcerptMatches(turns[e.sequence], e) <==> QuotesTurn(turns[e.sequence], e)
    {
      QuotesTurnExactly(turns[e.sequence], e);
    }
    forall i: RecommendationInput ensures InputGrounded(b, c, i) <==> InputPlain(b, c, i) {
      InputPlainly(b, c, i);
    }
    FailedPlainly(b, c);
    FindingsPlainly(c);
  }

  ghost predicate InputPlain(b: Block, c: CategoryObservation, i: RecommendationInput) {
    && Declares(b.positiveBehaviors + b.violations, i.criterionId) && EvidenceFor(c, i.sequence)
    && (if FindingAbout(c, i.criterionId)
        then exists f :: f in c.strengths + c.violations && f.id == i.criterionId && i.sequence in f.sequences
        else i.criterionId in c.failedCriteria)
  }

  lemma InputPlainly(b: Block, c: CategoryObservation, i: RecommendationInput)
    ensures InputGrounded(b, c, i) <==> InputPlain(b, c, i)
  {
    assert forall f :: f in c.strengths + c.violations <==> f in c.strengths || f in c.violations;
  }

  lemma FailedPlainly(b: Block, c: CategoryObservation)
    ensures FailedGrounded(b, c) <==>
      forall id :: id in c.failedCriteria ==>
        && Declares(b.positiveBehaviors + b.violations, id)
        && (FindingAbout(c, id) || exists i :: i in c.inputs && i.criterionId == id)
  {
    assert forall f :: f in c.strengths + c.violations <==> f in c.strengths || f in c.violations;
  }

  lemma FindingsPlainly(c: CategoryObservation)
    ensures forall findings: seq<Finding> :: FindingsEvidenced(findings, c.evidence) <==>
      forall f :: f in findings ==> forall n :: n in f.sequences ==> EvidenceFor(c, n)
  {
  }

  /** The technique bears the name of a behaviour or a violation of the rubric, up to case. */
  ghost predicate NamedInRubric(k: Inputs, name: string) {
    exists b, c :: b in k.rubric.blocks && c in b.positiveBehaviors + b.violations && k.fold(c.name) == k.fold(name)
  }

  /** The categories are those of the blocks. */
  ghost predicate SameBlocks(o: Observation, rubric: Standard) {
    (forall c :: c in o.categories ==> HasBlock(rubric, c.blockId)) && forall b :: b in rubric.blocks ==> HasCategory(o, b.id)
  }

  predicate HasCategory(o: Observation, id: string) { exists c :: c in o.categories && c.blockId == id }

  predicate HasBlock(rubric: Standard, id: string) { exists b :: b in rubric.blocks && b.id == id }

  lemma NamedBlock(rubric: Standard, id: string)
    ensures id in BlockMap(rubric.blocks) <==> HasBlock(rubric, id)
  {
    hide BlockMap;
  }

  lemma CoveragePlainly(k: Inputs)
    ensures CategoryIds(k.o) == k.Blocks().Keys <==> SameBlocks(k.o, k.rubric)
  {
    forall id ensures id in CategoryIds(k.o) <==> HasCategory(k.o, id) {
    }
    forall id ensures id in k.Blocks() <==> HasBlock(k.rubric, id) {
      NamedBlock(k.rubric, id);
    }
    hide BlockMap, CategoryIds;
    var ids, keys := CategoryIds(k.o), k.Blocks().Keys;
    if ids == keys {
      assert forall c :: c in k.o.categories ==> HasCategory(k.o, c.blockId) && c.blockId in keys;
      assert forall b :: b in k.rubric.blocks ==> HasBlock(k.rubric, b.id) && b.id in ids;
    }
    if SameBlocks(k.o, k.rubric) {
      forall id ensures id in ids <==> id in keys {
        SameBlocksNamed(k.o, k.rubric, id);
      }
    }
  }

  lemma SameBlocksNamed(o: Observation, rubric: Standard, id: string)
    requires SameBlocks(o, rubric)
    ensures HasCategory(o, id) <==> HasBlock(rubric, id)
  {
  }

  ghost predicate TechniquesPlain(k: Inputs) {
    && (forall t :: t in k.o.applied ==>
          NamedInRubric(k, t.name) && forall n :: n in t.sequences ==> exists i :: 0 <= i < |k.transcript| && SequenceOf(k.transcript, i) == n)
    && forall t :: t in k.o.missed ==> NamedInRubric(k, t.name)
  }

  /** An observation is grounded exactly when it has one category for each block of the rubric and no other, every category is
      grounded, and every technique is named in the rubric and cites numbers of the transcript. */
  lemma GroundedPlainly(k: Inputs)
    ensures Grounded(k) <==>
      && (forall i, j :: 0 <= i < j < |k.o.categories| ==> k.o.categories[i].blockId != k.o.categories[j].blockId)
      && SameBlocks(k.o, k.rubric)
      && (forall c :: c in k.o.categories && c.blockId in k.Blocks() ==> CategoryGrounded(k.Turns(), k.Blocks()[c.blockId], c))
      && TechniquesPlain(k)
  {
    hide CategoryGrounded, BlockMap, Indexed, SameBlocks;
    IndexedKeys(k.transcript, |k.transcript|);
    CoveragePlainly(k);
    forall name ensures DeclaredTechnique(k, name) <==> NamedInRubric(k, name) {
    }
    if CategoryIds(k.o) == k.Blocks().Keys {
      assert forall c :: c in k.o.categories ==> c.blockId in CategoryIds(k.o);
    }
  }

  lemma ViolationsAreCriteria(b: Block, id: string)
    ensures b.HasViolation(id) ==> b.HasCriterion(id)
  {
  }

  /** In a category whose findings cite declared ids, the filters of the evidence map do nothing. */
  lemma DeclaredFindings(b: Block, c: CategoryObservation, id: string)
    requires forall f :: f in c.strengths ==> b.HasCriterion(f.id)
    requires forall f :: f in c.violations ==> b.HasViolation(f.id)
    ensures HasFinding(b, c, id) <==> Cites(c.strengths, id) || Cites(c.violations, id)
    ensures FindingSequences(b, c, id) == Cited(c.strengths, id) + Cited(c.violations, id)
  {
  }

  lemma EvidenceExact(k: Inputs, c: nat)
    requires k.Known(c)
    ensures (forall x :: OnEvidence(x) && x.category == c ==> !Defect(k, x)) <==> EvidenceGrounded(k.Turns(), k.o.categories[c])
  {
    hide InputVerdict;
    var evidence := k.o.categories[c].evidence;
    if forall x :: OnEvidence(x) && x.category == c ==> !Defect(k, x) {
      forall i: nat | i < |evidence|
        ensures evidence[i].sequence in k.Turns()
        ensures SpeakerMatches(k.Turns()[evidence[i].sequence], evidence[i])
        ensures ExcerptMatches(k.Turns()[evidence[i].sequence], evidence[i])
      {
        assert !Defect(k, EvidenceTurn(c, i)) && !Defect(k, EvidenceSpeaker(c, i)) && !Defect(k, EvidenceExcerpt(c, i));
      }
    }
  }

  lemma EvidencedHere(findings: seq<Finding>, evidence: seq<Evidence>, i: nat, n: nat)
    requires FindingsEvidenced(findings, evidence) && i < |findings|
    ensures !UnevidencedAt(findings[i].sequences, evidence, n)
  {
    if n < |findings[i].sequences| {
      var f := findings[i];
      assert f in findings;
      assert forall m :: m in f.sequences ==> m in EvidenceSequences(evidence);
      assert f.sequences[n] in f.sequences;
    }
  }

  /** The citations of the findings, position by position. */
  lemma EvidencedByPosition(findings: seq<Finding>, evidence: seq<Evidence>)
    ensures FindingsEvidenced(findings, evidence)
      <==> forall i: nat, n: nat :: i < |findings| ==> !UnevidencedAt(findings[i].sequences, evidence, n)
  {
    hide EvidenceSequences;
    if FindingsEvidenced(findings, evidence) {
      forall i: nat, n: nat | i < |findings| ensures !UnevidencedAt(findings[i].sequences, evidence, n) {
        EvidencedHere(findings, evidence, i, n);
      }
    }
    if forall i: nat, n: nat :: i < |findings| ==> !UnevidencedAt(findings[i].sequences, evidence, n) {
      forall f, m | f in findings && m in f.sequences ensures m in EvidenceSequences(evidence) {
        var i :| 0 <= i < |findings| && findings[i] == f;
        var n :| 0 <= n < |f.sequences| && f.sequences[n] == m;
        assert !UnevidencedAt(findings[i].sequences, evidence, n);
      }
    }
  }

  lemma StrengthsExact(k: Inputs, c: nat)
    requires k.Known(c)
    ensures (forall x :: OnStrength(x) && x.category == c ==> !Defect(k, x)) <==> StrengthsGrounded(k.BlockOf(c), k.o.categories[c])
  {
    hide InputVerdict, UnevidencedAt, FindingsEvidenced;
    var cat := k.o.categories[c];
    EvidencedByPosition(cat.strengths, cat.evidence);
    if forall x :: OnStrength(x) && x.category == c ==> !Defect(k, x) {
      forall i: nat, n: nat | i < |cat.strengths| ensures !UnevidencedAt(cat.strengths[i].sequences, cat.evidence, n) {
        assert !Defect(k, StrengthSequence(c, i, n));
      }
      forall i: nat | i < |cat.strengths| ensures k.BlockOf(c).HasCriterion(cat.strengths[i].id) {
        assert !Defect(k, StrengthCriterion(c, i));
      }
    }
  }

  lemma ViolationsExact(k: Inputs, c: nat)
    requires k.Known(c)
    ensures (forall x :: OnViolation(x) && x.category == c ==> !Defect(k, x)) <==> ViolationsGrounded(k.BlockOf(c), k.o.categories[c])
  {
    hide InputVerdict, UnevidencedAt, FindingsEvidenced;
    var cat := k.o.categories[c];
    EvidencedByPosition(cat.violations, cat.evidence);
    if forall x :: OnViolation(x) && x.category == c ==> !Defect(k, x) {
      forall i: nat, n: nat | i < |cat.violations| ensures !UnevidencedAt(cat.violations[i].sequences, cat.evidence, n) {
        assert !Defect(k, ViolationSequence(c, i, n));
      }
      forall i: nat | i < |cat.violations| ensures k.BlockOf(c).HasViolation(cat.violations[i].id) {
        assert !Defect(k, ViolationCriterion(c, i));
      }
    }
  }

  lemma FailedSound(k: Inputs, c: nat, id: string)
    requires k.Known(c) && StrengthsGrounded(k.BlockOf(c), k.o.categories[c]) && ViolationsGrounded(k.BlockOf(c), k.o.categories[c])
    requires forall x: Issue :: (x.FailedCriterion? || x.FailedUnsupported?) && x.category == c ==> !Defect(k, x)
    requires id in k.o.categories[c].failedCriteria
    ensures k.BlockOf(c).HasCriterion(id) && (Found(k.o.categories[c], id) || HasInput(k.BlockOf(c), k.o.categories[c], id))
  {
    hide InputVerdict;
    var i := FirstIndex(k.o.categories[c].failedCriteria, id);
    assert !Defect(k, FailedCriterion(c, i)) && !Defect(k, FailedUnsupported(c, i));
    DeclaredFindings(k.BlockOf(c), k.o.categories[c], id);
  }

  lemma FailedComplete(k: Inputs, c: nat, i: nat)
    requires k.Known(c) && StrengthsGrounded(k.BlockOf(c), k.o.categories[c]) && ViolationsGrounded(k.BlockOf(c), k.o.categories[c])
    requires FailedGrounded(k.BlockOf(c), k.o.categories[c])
    ensures !Defect(k, FailedCriterion(c, i)) && !Defect(k, FailedUnsupported(c, i))
  {
    hide InputVerdict;
    var cat := k.o.categories[c];
    if i < |cat.failedCriteria| {
      assert cat.failedCriteria[i] in cat.failedCriteria;
      DeclaredFindings(k.BlockOf(c), cat, cat.failedCriteria[i]);
    }
  }

  lemma FailedExact(k: Inputs, c: nat)
    requires k.Known(c) && StrengthsGrounded(k.BlockOf(c), k.o.categories[c]) && ViolationsGrounded(k.BlockOf(c), k.o.categories[c])
    ensures (forall x: Issue :: (x.FailedCriterion? || x.FailedUnsupported?) && x.category == c ==> !Defect(k, x))
      <==> FailedGrounded(k.BlockOf(c), k.o.categories[c])
  {
    hide Defect, StrengthsGrounded, ViolationsGrounded;
    if forall x: Issue :: (x.FailedCriterion? || x.FailedUnsupported?) && x.category == c ==> !Defect(k, x) {
      forall id | id in k.o.categories[c].failedCriteria
        ensures k.BlockOf(c).HasCriterion(id) && (Found(k.o.categories[c], id) || HasInput(k.BlockOf(c), k.o.categories[c], id))
      {
        FailedSound(k, c, id);
      }
    }
    if FailedGrounded(k.BlockOf(c), k.o.categories[c]) {
      forall i: nat { FailedComplete(k, c, i); }
    }
  }

  lemma InputVerdictExact(k: Inputs, c: nat, i: nat)
    requires InputAt(k, c, i) && EvidenceGrounded(k.Turns(), k.o.categories[c])
    requires StrengthsGrounded(k.BlockOf(c), k.o.categories[c]) && ViolationsGrounded(k.BlockOf(c), k.o.categories[c])
    ensures InputVerdict(k, c, i).None? <==> InputGrounded(k.BlockOf(c), k.o.categories[c], k.o.categories[c].inputs[i])
  {
    var cat, input := k.o.categories[c], k.o.categories[c].inputs[i];
    DeclaredFindings(k.BlockOf(c), cat, input.criterionId);
    if input.sequence in EvidenceSequences(cat.evidence) {
      var e :| e in cat.evidence && e.sequence == input.sequence;
      assert e.sequence in k.Turns();
    }
  }

  lemma InputDefect(k: Inputs, c: nat, x: Issue)
    requires k.Known(c) && OnInput(x) && x.category == c
    ensures Defect(k, x) <==> x.index < |k.o.categories[c].inputs| && InputVerdict(k, c, x.index) == Some(x)
  {
    hide InputVerdict;
  }

  lemma InputsExact(k: Inputs, c: nat)
    requires k.Known(c) && EvidenceGrounded(k.Turns(), k.o.categories[c])
    requires StrengthsGrounded(k.BlockOf(c), k.o.categories[c]) && ViolationsGrounded(k.BlockOf(c), k.o.categories[c])
    ensures (forall x :: OnInput(x) && x.category == c ==> !Defect(k, x))
      <==> forall i :: i in k.o.categories[c].inputs ==> InputGrounded(k.BlockOf(c), k.o.categories[c], i)
  {
    hide Defect, InputVerdict, InputGrounded, EvidenceGrounded, StrengthsGrounded, ViolationsGrounded;
    forall i: nat | i < |k.o.categories[c].inputs| {
      InputVerdictExact(k, c, i);
    }
    forall x | OnInput(x) && x.category == c {
      InputDefect(k, c, x);
    }
    if forall x :: OnInput(x) && x.category == c ==> !Defect(k, x) {
      forall i: nat | i < |k.o.categories[c].inputs| ensures InputVerdict(k, c, i).None? {
        match InputVerdict(k, c, i)
        case None =>
        case Some(x) => InputDefect(k, c, x);
      }
    }
  }

  lemma CategoryExact(k: Inputs, c: nat)
    requires k.Known(c)
    ensures (forall x :: OnCategory(x) && x.category == c ==> !Defect(k, x))
      <==> CategoryGrounded(k.Turns(), k.BlockOf(c), k.o.categories[c])
  {
    hide Defect;
    EvidenceExact(k, c);
    StrengthsExact(k, c);
    ViolationsExact(k, c);
    if EvidenceGrounded(k.Turns(), k.o.categories[c]) && StrengthsGrounded(k.BlockOf(c), k.o.categories[c])
       && ViolationsGrounded(k.BlockOf(c), k.o.categories[c]) {
      FailedExact(k, c);
      InputsExact(k, c);
    }
  }

  lemma CoverageExact(k: Inputs)
    ensures (forall x :: OnCoverage(x) ==> !Defect(k, x)) <==> CategoriesDistinct(k.o) && CategoryIds(k.o) == k.Blocks().Keys
  {
    hide InputVerdict;
    if forall x :: OnCoverage(x) ==> !Defect(k, x) {
      assert !Defect(k, RepeatedCategory);
      forall id ensures id in k.Blocks() <==> id in CategoryIds(k.o) {
        assert !Defect(k, MissingCategory(id)) && !Defect(k, UnknownCategory(id));
      }
    }
  }

  lemma IssuesOfUnknownCategory(k: Inputs, x: Issue)
    requires OnCategory(x) && !k.Known(x.category)
    ensures !Defect(k, x)
  {
    hide InputVerdict;
  }

  /** No issue can be raised exactly when everything is grounded. */
  lemma NoDefectIsGrounded(k: Inputs)
    ensures (forall x :: !Defect(k, x)) <==> Grounded(k)
  {
    hide Defect;
    CoverageExact(k);
    TechniquesExact(k);
    if CategoryIds(k.o) == k.Blocks().Keys {
      forall c: nat | c < |k.o.categories| ensures k.Known(c) {
        assert k.o.categories[c].blockId in CategoryIds(k.o);
      }
    }
    forall c: nat | k.Known(c)
      ensures (forall x :: OnCategory(x) && x.category == c ==> !Defect(k, x))
        <==> CategoryGrounded(k.Turns(), k.BlockOf(c), k.o.categories[c])
    {
      CategoryExact(k, c);
    }
    if Grounded(k) {
      forall x ensures !Defect(k, x) {
        if OnCategory(x) && !k.Known(x.category) {
          IssuesOfUnknownCategory(k, x);
        }
      }
    }
  }

  lemma TechniquesExact(k: Inputs)
    ensures (forall x :: OnTechnique(x) ==> !Defect(k, x)) <==>
      && (forall t :: t in k.o.applied ==> DeclaredTechnique(k, t.name) && forall n :: n in t.sequences ==> n in k.Turns())
      && (forall t :: t in k.o.missed ==> DeclaredTechnique(k, t.name))
  {
    hide InputVerdict, DeclaredTechnique;
    if forall t :: t in k.o.applied ==> forall n :: n in t.sequences ==> n in k.Turns() {
      forall i: nat, n: nat | i < |k.o.applied| && n < |k.o.applied[i].sequences| ensures k.o.applied[i].sequences[n] in k.Turns() {
        var t := k.o.applied[i];
        assert t in k.o.applied;
        assert forall m :: m in t.sequences ==> m in k.Turns();
        assert t.sequences[n] in t.sequences;
      }
    }
    if forall x :: OnTechnique(x) ==> !Defect(k, x) {
      forall i: nat | i < |k.o.applied|
        ensures DeclaredTechnique(k, k.o.applied[i].name)
        ensures forall n :: n in k.o.applied[i].sequences ==> n in k.Turns()
      {
        assert !Defect(k, TechniqueName(i));
        forall n: nat | n < |k.o.applied[i].sequences| ensures k.o.applied[i].sequences[n] in k.Turns() {
          assert !Defect(k, TechniqueTurn(i, n));
        }
      }
      forall i: nat | i < |k.o.missed| ensures DeclaredTechnique(k, k.o.missed[i].name) {
        assert !Defect(k, MissedName(i));
      }
    }
  }

  /** An observation together with what it was judged against. */
  datatype ValidatedObservation = ValidatedObservation(observation: Observation, snapshot: Standard, transcript: seq<Turn>)

  datatype Outcome =
    | Accepted(value: ValidatedObservation)
    | SchemaRejected
    | SequencesRepeated(at: seq<int>)
    | Rejected(issues: seq<Issue>)

  ghost predicate Trusted(fold: string -> string, v: ValidatedObservation) {
    && ObservationSchema(fold, v.observation) && StandardSchema(v.snapshot)
    && DistinctSequences(v.transcript)
    && Grounded(Inputs(fold, v.observation, v.snapshot, v.transcript))
  }

  /** Accepts exactly the trusted observations, and reports exactly the defects of the others. */
  method ValidateObservation(fold: string -> string, o: Observation, snapshot: Standard, transcript: seq<Turn>)
    returns (r: Outcome)
    ensures r.Accepted? <==> Trusted(fold, ValidatedObservation(o, snapshot, transcript))
    ensures r.Accepted? ==> r.value == ValidatedObservation(o, snapshot, transcript)
    ensures r.SchemaRejected? <==> !(ObservationSchema(fold, o) && StandardSchema(snapshot))
    ensures r.SequencesRepeated? <==> ObservationSchema(fold, o) && StandardSchema(snapshot) && !DistinctSequences(transcript)
    ensures r.SequencesRepeated? ==> forall i :: i in r.at <==> RepeatsSequence(transcript, i)
    ensures r.Rejected? ==> r.issues != []
    ensures r.Rejected? ==> forall x :: x in r.issues <==> Defect(Inputs(fold, o, snapshot, transcript), x)
  {
    if !(ObservationSchema(fold, o) && StandardSchema(snapshot)) {
      return SchemaRejected;
    }
    var indexed, repeated := TranscriptIndex(transcript);
    assert repeated != [] ==> RepeatsSequence(transcript, repeated[0]) by {
      assert repeated != [] ==> repeated[0] in repeated;
    }
    if repeated != [] {
      return SequencesRepeated(repeated);
    }
    var k := Inputs(fold, o, snapshot, transcript);
    var issues := CollectIssues(k);
    NoDefectIsGrounded(k);
    assert issues != [] ==> issues[0] in issues;
    if issues != [] {
      return Rejected(issues);
    }
    return Accepted(ValidatedObservation(o, snapshot, transcript));
  }

  method CollectIssues(k: Inputs) returns (issues: seq<Issue>)
    ensures forall x :: x in issues <==> Defect(k, x)
  {
    issues := CheckCoverage(k);
    for c := 0 to |k.o.categories|
      invariant forall x :: x in issues <==> (OnCoverage(x) || (OnCategory(x) && x.category < c)) && Defect(k, x)
    {
      if k.Known(c) {
        var found := CheckCategory(k, c);
        issues := issues + found;
      }
    }
    var techniques := CheckTechniques(k);
    issues := issues + techniques;
  }
}
