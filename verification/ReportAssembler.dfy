/** Assembly of a session's report from its stored rows: every identity and reference is checked again. */
module ReportAssembler {
  import opened Rubric
  import opened Text
  import opened Sorting
  import opened ReportPayload
  import Coaching

  // ----- the transcript

  /** A stored transcript entry. */
  datatype Row = Row(id: int, speaker: string, text: string, time: int, sequence: int)

  predicate RowValid(r: Row) {
    Strip(r.text) != "" && 0 <= r.sequence && r.speaker in ["agent", "debtor"]
  }

  function Identity(r: Row): (string, string, int, int) { (r.speaker, r.text, r.time, r.sequence) }

  function Ids(rows: seq<Row>): seq<int> { Map((r: Row) => r.id, rows) }

  function Numbers(rows: seq<Row>): seq<int> { Map((r: Row) => r.sequence, rows) }

  /** Valid rows, with distinct ids and distinct sequence numbers. */
  ghost predicate RowsSound(rows: seq<Row>) {
    NoRepeats(Ids(rows)) && NoRepeats(Numbers(rows)) && forall r :: r in rows ==> RowValid(r)
  }

  predicate RowLe(a: Row, b: Row) { a.sequence <= b.sequence }

  /** `{entry.sequence_number: entry}`. */
  function IndexOf(rows: seq<Row>): map<int, Row> {
    if rows == [] then map[]
    else
      var last := rows[|rows| - 1];
      IndexOf(rows[..|rows| - 1])[last.sequence := last]
  }

  /** With distinct numbers the index finds every row under its number. */
  lemma {:induction false} IndexMeaning(rows: seq<Row>)
    requires NoRepeats(Numbers(rows))
    ensures forall r :: r in rows ==> r.sequence in IndexOf(rows) && IndexOf(rows)[r.sequence] == r
    ensures forall n :: n in IndexOf(rows) ==> IndexOf(rows)[n] in rows && IndexOf(rows)[n].sequence == n
  {
    if rows != [] {
      var front, last := rows[..|rows| - 1], rows[|rows| - 1];
      assert rows == front + [last];
      assert Numbers(rows)[..|front|] == Numbers(front);
      IndexMeaning(front);
      forall r | r in front ensures r.sequence != last.sequence {
        var i :| 0 <= i < |front| && front[i] == r;
        assert Numbers(rows)[i] != Numbers(rows)[|front|];
      }
    }
  }

  lemma {:induction false} SameNumbers(rows: seq<Row>, entries: seq<Row>)
    requires multiset(rows) == multiset(entries)
    ensures NoRepeats(Numbers(rows)) <==> NoRepeats(Numbers(entries))
  {
    var number := (r: Row) => r.sequence;
    MapPermutation(number, rows, entries);
    assert Numbers(rows) == Map(number, rows) && Numbers(entries) == Map(number, entries);
    hide NoRepeats;
    if NoRepeats(Numbers(rows)) {
      NoRepeatsPermutation(Numbers(rows), Numbers(entries));
    }
    if NoRepeats(Numbers(entries)) {
      NoRepeatsPermutation(Numbers(entries), Numbers(rows));
    }
  }

  /** The index does not depend on the order of the rows. */
  lemma {:induction false} SameIndex(rows: seq<Row>, entries: seq<Row>)
    requires multiset(rows) == multiset(entries) && NoRepeats(Numbers(rows)) && NoRepeats(Numbers(entries))
    ensures IndexOf(entries) == IndexOf(rows)
  {
    hide NoRepeats, IndexOf;
    IndexMeaning(rows);
    IndexMeaning(entries);
    assert forall r :: r in rows <==> r in multiset(rows);
    assert forall r :: r in entries <==> r in multiset(entries);
    var a, b := IndexOf(rows), IndexOf(entries);
    forall n ensures n in a <==> n in b {
      if n in a { assert a[n] in entries; }
      if n in b { assert b[n] in rows; }
    }
    forall n | n in a ensures a[n] == b[n] {
      assert a[n] in entries;
    }
  }

  /** Neighbours in a sorted list differ exactly when no two of its rows share a number. */
  lemma {:induction false} NeighboursDiffer(entries: seq<Row>)
    requires Sorted(RowLe, entries)
    ensures (forall i :: 0 < i < |entries| ==> entries[i - 1].sequence < entries[i].sequence) <==> NoRepeats(Numbers(entries))
  {
    var numbers := Numbers(entries);
    if forall i :: 0 < i < |entries| ==> entries[i - 1].sequence < entries[i].sequence {
      forall i, j | 0 <= i < j < |entries| ensures numbers[i] != numbers[j] {
        assert entries[j - 1].sequence < entries[j].sequence;
        assert i < j - 1 ==> RowLe(entries[i], entries[j - 1]);
      }
    }
    if NoRepeats(numbers) {
      forall i | 0 < i < |entries| ensures entries[i - 1].sequence < entries[i].sequence {
        assert numbers[i - 1] != numbers[i] && RowLe(entries[i - 1], entries[i]);
      }
    }
  }

  lemma {:induction false} RowOrder(rows: seq<Row>)
    ensures Sorted(RowLe, SortBy(RowLe, rows))
  {
    SortBySorted(RowLe, rows);
  }

  lemma {:induction false} SameIdentity(rows: seq<Row>, i: nat, j: nat)
    requires i < j < |rows| && Identity(rows[i]) == Identity(rows[j])
    ensures !NoRepeats(Numbers(rows))
  {
    assert Numbers(rows)[i] == Numbers(rows)[j];
  }

  /** Row by row: distinct ids, valid fields, and no entry twice. */
  method CheckRows(rows: seq<Row>) returns (ok: bool)
    ensures ok ==> NoRepeats(Ids(rows)) && forall r :: r in rows ==> RowValid(r)
    ensures !ok ==> !RowsSound(rows)
  {
    hide RowValid;
    var ids: set<int>, identities: set<(string, string, int, int)> := {}, {};
    for i := 0 to |rows|
      invariant forall x :: x in ids <==> exists j :: 0 <= j < i && rows[j].id == x
      invariant forall x :: x in identities <==> exists j :: 0 <= j < i && Identity(rows[j]) == x
      invariant forall j, k :: 0 <= j < k < i ==> rows[j].id != rows[k].id
      invariant forall j :: 0 <= j < i ==> RowValid(rows[j])
    {
      if rows[i].id in ids {
        var j :| 0 <= j < i && rows[j].id == rows[i].id;
        assert Ids(rows)[j] == Ids(rows)[i];
        return false;
      }
      ids := ids + {rows[i].id};
      if !RowValid(rows[i]) {
        assert rows[i] in rows;
        return false;
      }
      if Identity(rows[i]) in identities {
        var j :| 0 <= j < i && Identity(rows[j]) == Identity(rows[i]);
        SameIdentity(rows, j, i);
        return false;
      }
      identities := identities + {Identity(rows[i])};
    }
    return true;
  }

  method CheckIncreasing(entries: seq<Row>) returns (ok: bool)
    requires Sorted(RowLe, entries)
    ensures ok <==> NoRepeats(Numbers(entries))
  {
    NeighboursDiffer(entries);
    for i := 0 to |entries|
      invariant forall j :: 0 < j < i ==> entries[j - 1].sequence < entries[j].sequence
    {
      if 0 < i && entries[i - 1].sequence >= entries[i].sequence {
        return false;
      }
    }
    return true;
  }

  /** The index of the stored rows, refused exactly when they are not sound. */
  method TranscriptIndex(rows: seq<Row>) returns (index: Option<map<int, Row>>)
    ensures index.Some? <==> RowsSound(rows)
    ensures index.Some? ==> index.value == IndexOf(rows)
  {
    hide NoRepeats, SortBy, IndexOf, Sorted, RowValid;
    var ok := CheckRows(rows);
    if !ok {
      return None;
    }
    var entries := SortBy(RowLe, rows);
    RowOrder(rows);
    SameNumbers(rows, entries);
    var increasing := CheckIncreasing(entries);
    if !increasing {
      return None;
    }
    SameIndex(rows, entries);
    return Some(IndexOf(entries));
  }

  // ----- the evaluation section

  /** A reference to a transcript entry, with what it says of speaker and words if it says anything. */
  predicate Refers(index: map<int, Row>, n: int, speaker: Option<string>, excerpt: Option<string>) {
    && n in index
    && (speaker.Some? ==> speaker.value == index[n].speaker)
    && (excerpt.Some? ==> Contains(excerpt.value, index[n].text))
  }

  predicate Attested(index: map<int, Row>, e: Evidence) {
    Refers(index, e.sequence, Some(e.speaker), Some(e.excerpt))
  }

  ghost predicate CategoryRefers(index: map<int, Row>, c: CategoryScore) {
    && NoRepeats(c.failedCriteria)
    && (forall e :: e in c.evidence ==> Attested(index, e)) && NoRepeats(EvidenceKeys(c.evidence))
    && SequencesIn(c.strengths, index.Keys) && SequencesIn(c.violations, index.Keys)
    && forall i :: i in c.inputs ==> i.sequence in index
  }

  /** The explicit inputs of all categories, without their blocks. */
  function ExplicitKeys(cs: seq<CategoryScore>): seq<(string, int)> {
    if cs == [] then [] else ExplicitKeys(cs[..|cs| - 1]) + InputKeys(cs[|cs| - 1].inputs)
  }

  predicate Sourced(index: map<int, Row>, r: Recommendation) {
    Refers(index, r.sequence, r.sourceSpeaker, r.sourceExcerpt)
  }

  ghost predicate TechniquesRefer(index: map<int, Row>, applied: seq<AppliedTechnique>) {
    forall t :: t in applied ==> forall n :: n in t.sequences ==> n in index
  }

  /** All identities are distinct, and every reference finds its entry, speaker and words. */
  ghost predicate CanonicalRefers(index: map<int, Row>, canonical: Canonical) {
    && NoRepeats(BlockIdsOf(canonical.categories))
    && (forall c :: c in canonical.categories ==> CategoryRefers(index, c))
    && NoRepeats(ExplicitKeys(canonical.categories))
    && (forall r :: r in canonical.recommendations ==> r.blockId in BlockIdsOf(canonical.categories) && Sourced(index, r))
    && NoRepeats(RecommendationKeys(canonical.recommendations))
    && TechniquesRefer(index, canonical.applied)
  }

  method CheckEvidence(index: map<int, Row>, evidence: seq<Evidence>) returns (ok: bool)
    ensures ok <==> (forall e :: e in evidence ==> Attested(index, e)) && NoRepeats(EvidenceKeys(evidence))
  {
    var keys := EvidenceKeys(evidence);
    var seen: set<(int, string, string)> := {};
    for i := 0 to |evidence|
      invariant forall k :: k in seen <==> exists j :: 0 <= j < i && keys[j] == k
      invariant forall j, k :: 0 <= j < k < i ==> keys[j] != keys[k]
      invariant forall j :: 0 <= j < i ==> Attested(index, evidence[j])
    {
      if !Attested(index, evidence[i]) {
        assert evidence[i] in evidence;
        return false;
      }
      if keys[i] in seen {
        return false;
      }
      seen := seen + {keys[i]};
    }
    return true;
  }

  /** The explicit inputs of one category; `seen` holds those of the categories before it. */
  method CheckInputs(index: map<int, Row>, inputs: seq<RecommendationInput>, before: seq<(string, int)>, seen: set<(string, int)>)
    returns (ok: bool, seen': set<(string, int)>)
    requires NoRepeats(before) && forall k :: k in seen <==> k in before
    ensures ok <==> (forall i :: i in inputs ==> i.sequence in index) && NoRepeats(before + InputKeys(inputs))
    ensures ok ==> forall k :: k in seen' <==> k in before + InputKeys(inputs)
  {
    seen' := seen;
    var keys := InputKeys(inputs);
    assert before + keys[..0] == before;
    for i := 0 to |inputs|
      invariant forall k :: k in seen' <==> k in before + keys[..i]
      invariant NoRepeats(before + keys[..i])
      invariant forall j :: 0 <= j < i ==> inputs[j].sequence in index
    {
      if inputs[i].sequence !in index {
        assert inputs[i] in inputs;
        return false, seen';
      }
      OneMoreKey(before, keys, i);
      if keys[i] in seen' {
        return false, seen';
      }
      seen' := seen' + {keys[i]};
    }
    assert keys[..|inputs|] == keys;
    return true, seen';
  }

  lemma OneMoreKey<T>(before: seq<T>, keys: seq<T>, i: nat)
    requires i < |keys| && NoRepeats(before + keys[..i])
    ensures before + keys[..i + 1] == before + keys[..i] + [keys[i]]
    ensures NoRepeats(before + keys[..i + 1]) <==> keys[i] !in before + keys[..i]
    ensures keys[i] in before + keys[..i] ==> !NoRepeats(before + keys)
  {
    NoRepeatsConcat(before + keys[..i], [keys[i]]);
    assert before + keys[..i + 1] == before + keys[..i] + [keys[i]];
    assert before + keys == before + keys[..i + 1] + keys[i + 1..];
    NoRepeatsConcat(before + keys[..i + 1], keys[i + 1..]);
  }

  method CheckCategory(index: map<int, Row>, c: CategoryScore, before: seq<(string, int)>, seen: set<(string, int)>)
    returns (ok: bool, seen': set<(string, int)>)
    requires NoRepeats(before) && forall k :: k in seen <==> k in before
    ensures ok <==> CategoryRefers(index, c) && NoRepeats(before + InputKeys(c.inputs))
    ensures ok ==> forall k :: k in seen' <==> k in before + InputKeys(c.inputs)
  {
    hide Attested, NoRepeats, SequencesIn;
    seen' := seen;
    var criteriaDistinct := CheckDistinct(c.failedCriteria);
    if !criteriaDistinct {
      return false, seen';
    }
    var evidenced := CheckEvidence(index, c.evidence);
    if !evidenced {
      return false, seen';
    }
    var strengthsKnown := CheckSequencesIn(c.strengths, index.Keys);
    if !strengthsKnown {
      return false, seen';
    }
    var violationsKnown := CheckSequencesIn(c.violations, index.Keys);
    if !violationsKnown {
      return false, seen';
    }
    ok, seen' := CheckInputs(index, c.inputs, before, seen);
  }

  method CheckCategories(index: map<int, Row>, cs: seq<CategoryScore>) returns (ok: bool)
    ensures ok <==>
      NoRepeats(BlockIdsOf(cs)) && (forall c :: c in cs ==> CategoryRefers(index, c)) && NoRepeats(ExplicitKeys(cs))
  {
    hide CategoryRefers;
    var blocks: set<string>, inputs: set<(string, int)> := {}, {};
    for i := 0 to |cs|
      invariant forall id :: id in blocks <==> exists j :: 0 <= j < i && cs[j].blockId == id
      invariant forall j, k :: 0 <= j < k < i ==> cs[j].blockId != cs[k].blockId
      invariant forall j :: 0 <= j < i ==> CategoryRefers(index, cs[j])
      invariant NoRepeats(ExplicitKeys(cs[..i])) && forall k :: k in inputs <==> k in ExplicitKeys(cs[..i])
    {
      if cs[i].blockId in blocks {
        var j :| 0 <= j < i && cs[j].blockId == cs[i].blockId;
        assert BlockIdsOf(cs)[j] == BlockIdsOf(cs)[i];
        return false;
      }
      blocks := blocks + {cs[i].blockId};
      assert cs[..i + 1][..i] == cs[..i];
      ok, inputs := CheckCategory(index, cs[i], ExplicitKeys(cs[..i]), inputs);
      if !ok {
        assert cs[i] in cs;
        ExplicitPrefix(cs, i + 1);
        return;
      }
    }
    assert cs[..|cs|] == cs;
    return true;
  }

  lemma {:induction false} ExplicitPrefix(cs: seq<CategoryScore>, i: nat)
    requires i <= |cs|
    ensures NoRepeats(ExplicitKeys(cs)) ==> NoRepeats(ExplicitKeys(cs[..i]))
    decreases |cs|
  {
    if i == |cs| {
      assert cs[..i] == cs;
    } else {
      var front := cs[..|cs| - 1];
      ExplicitPrefix(front, i);
      assert front[..i] == cs[..i];
      NoRepeatsConcat(ExplicitKeys(front), InputKeys(cs[|cs| - 1].inputs));
    }
  }

  method CheckRecommendations(index: map<int, Row>, ids: seq<string>, rs: seq<Recommendation>) returns (ok: bool)
    ensures ok <==> (forall r :: r in rs ==> r.blockId in ids && Sourced(index, r)) && NoRepeats(RecommendationKeys(rs))
  {
    hide Sourced;
    var keys := RecommendationKeys(rs);
    var seen: set<(string, string, int)> := {};
    for i := 0 to |rs|
      invariant forall k :: k in seen <==> exists j :: 0 <= j < i && keys[j] == k
      invariant forall j, k :: 0 <= j < k < i ==> keys[j] != keys[k]
      invariant forall j :: 0 <= j < i ==> rs[j].blockId in ids && Sourced(index, rs[j])
    {
      if rs[i].blockId !in ids || !Sourced(index, rs[i]) {
        assert rs[i] in rs;
        return false;
      }
      if keys[i] in seen {
        return false;
      }
      seen := seen + {keys[i]};
    }
    return true;
  }

  method CheckTechniques(index: map<int, Row>, applied: seq<AppliedTechnique>) returns (ok: bool)
    ensures ok <==> TechniquesRefer(index, applied)
  {
    for i := 0 to |applied|
      invariant forall j :: 0 <= j < i ==> forall n :: n in applied[j].sequences ==> n in index
    {
      if !(forall n :: n in applied[i].sequences ==> n in index) {
        assert applied[i] in applied;
        return false;
      }
    }
    return true;
  }

  method ValidateCanonicalReferences(index: map<int, Row>, canonical: Canonical) returns (ok: bool)
    ensures ok <==> CanonicalRefers(index, canonical)
  {
    hide CategoryRefers, Sourced, TechniquesRefer, NoRepeats;
    ok := CheckCategories(index, canonical.categories);
    if ok {
      ok := CheckRecommendations(index, BlockIdsOf(canonical.categories), canonical.recommendations);
    }
    if ok {
      ok := CheckTechniques(index, canonical.applied);
    }
  }

  /** A stored evaluation with its scored outcome fields. */
  datatype StoredEvaluation = StoredEvaluation(
    tooShort: bool, canonical: Canonical, total: Option<real>, passingScore: Option<int>, passed: Option<bool>)
  {
    predicate HasOutcome() { total.Some? || passingScore.Some? || passed.Some? }
  }

  datatype Mode = TooShortMode | NotApplicableMode | CanonicalMode | LegacyMode

  /** The canonical result is well formed, has scores exactly if it was evaluated, and all its references hold. */
  ghost predicate CanonicalAccepted(index: map<int, Row>, canonical: Canonical) {
    && CanonicalSchema(canonical)
    && (forall c :: c in canonical.categories ==> (c.rawScore.Some? <==> canonical.status == Evaluated))
    && CanonicalRefers(index, canonical)
  }

  predicate OutcomeInRange(e: StoredEvaluation) {
    (e.total.Some? ==> 0.0 <= e.total.value <= 100.0) && (e.passingScore.Some? ==> Percentage(e.passingScore.value))
  }

  /** When an evaluation is shown in a section of this mode; what a legacy section demands is not part of this. */
  ghost predicate Shown(index: map<int, Row>, e: StoredEvaluation, mode: Mode) {
    match mode
    case TooShortMode => e.tooShort && e.canonical.categories == [] && !e.HasOutcome()
    case LegacyMode => !e.tooShort && e.canonical.categories == []
    case NotApplicableMode =>
      && !e.tooShort && e.canonical.categories != [] && CanonicalAccepted(index, e.canonical)
      && e.canonical.status == NotApplicable && !e.HasOutcome()
    case CanonicalMode =>
      && !e.tooShort && e.canonical.categories != [] && CanonicalAccepted(index, e.canonical)
      && e.canonical.status == Evaluated && OutcomeInRange(e)
  }

  /** The section an evaluation is shown in; `None` refuses the report. */
  method BuildEvaluation(index: map<int, Row>, e: StoredEvaluation) returns (mode: Option<Mode>)
    ensures forall m :: mode == Some(m) <==> Shown(index, e, m)
    ensures mode == Some(TooShortMode) <==>
      e.tooShort && e.canonical.categories == [] && e.total.None? && e.passingScore.None? && e.passed.None?
    ensures mode == Some(LegacyMode) <==> !e.tooShort && e.canonical.categories == []
    ensures mode == Some(NotApplicableMode) <==>
      && !e.tooShort && e.canonical.categories != [] && CanonicalAccepted(index, e.canonical)
      && e.canonical.status == NotApplicable && e.total.None? && e.passingScore.None? && e.passed.None?
    ensures mode == Some(CanonicalMode) <==>
      && !e.tooShort && e.canonical.categories != [] && CanonicalAccepted(index, e.canonical) && e.canonical.status == Evaluated
      && (e.total.Some? ==> 0.0 <= e.total.value <= 100.0) && (e.passingScore.Some? ==> 0 <= e.passingScore.value <= 100)
    ensures mode == Some(CanonicalMode) || mode == Some(NotApplicableMode) ==>
      forall c :: c in e.canonical.categories ==> (c.rawScore.Some? <==> mode == Some(CanonicalMode))
  {
    hide CanonicalSchema, CanonicalRefers;
    var canonical := e.canonical;
    if e.tooShort {
      if canonical.categories != [] || e.HasOutcome() {
        return None;
      }
      return Some(TooShortMode);
    }
    if canonical.categories == [] {
      return Some(LegacyMode);
    }
    if !CanonicalSchema(canonical) {
      return None;
    }
    if canonical.status == Evaluated && exists c :: c in canonical.categories && c.rawScore.None? {
      return None;
    }
    if canonical.status == NotApplicable && exists c :: c in canonical.categories && c.rawScore.Some? {
      return None;
    }
    var refers := ValidateCanonicalReferences(index, canonical);
    if !refers {
      return None;
    }
    if canonical.status == NotApplicable {
      return if e.HasOutcome() then None else Some(NotApplicableMode);
    }
    return if OutcomeInRange(e) then Some(CanonicalMode) else None;
  }

  // ----- the coaching section

  ghost predicate BlockRefers(index: map<int, Row>, b: Coaching.CoachingBlock) {
    BlockCoached(b) && forall r :: r in b.recommendations ==> Sourced(index, r)
  }

  ghost predicate CoachingRefers(index: map<int, Row>, blocks: seq<Coaching.CoachingBlock>) {
    NoRepeats(CoachingIds(blocks)) && forall b :: b in blocks ==> BlockRefers(index, b)
  }

  /** One block; `criteria` holds what earlier blocks named. */
  method BuildBlock(index: map<int, Row>, b: Coaching.CoachingBlock, criteria: set<(string, string)>)
    returns (ok: bool, criteria': set<(string, string)>)
    requires forall k :: k in criteria ==> k.0 != b.blockId
    ensures ok <==> BlockRefers(index, b)
    ensures forall k :: k in criteria' ==> k in criteria || k.0 == b.blockId
  {
    hide Sourced;
    criteria' := criteria;
    var rs := b.recommendations;
    var names := CriteriaOf(rs);
    for i := 0 to |rs|
      invariant forall k :: k in criteria' <==> k in criteria || (k.0 == b.blockId && exists j :: 0 <= j < i && names[j] == k.1)
      invariant forall j, k :: 0 <= j < k < i ==> names[j] != names[k]
      invariant forall j :: 0 <= j < i ==> rs[j].blockId == b.blockId && Sourced(index, rs[j])
    {
      if rs[i].blockId != b.blockId {
        assert rs[i] in rs;
        return false, criteria';
      }
      var identity := (b.blockId, rs[i].criterionId);
      if identity in criteria' {
        var j :| 0 <= j < i && names[j] == rs[i].criterionId;
        return false, criteria';
      }
      criteria' := criteria' + {identity};
      if !Sourced(index, rs[i]) {
        assert rs[i] in rs;
        return false, criteria';
      }
    }
    return true, criteria';
  }

  method BuildCoaching(index: map<int, Row>, blocks: seq<Coaching.CoachingBlock>) returns (ok: bool)
    ensures ok <==> CoachingRefers(index, blocks)
  {
    hide BlockRefers;
    var ids: set<string>, criteria: set<(string, string)> := {}, {};
    for i := 0 to |blocks|
      invariant forall id :: id in ids <==> exists j :: 0 <= j < i && blocks[j].blockId == id
      invariant forall j, k :: 0 <= j < k < i ==> blocks[j].blockId != blocks[k].blockId
      invariant forall j :: 0 <= j < i ==> BlockRefers(index, blocks[j])
      invariant forall k :: k in criteria ==> k.0 in ids
    {
      if blocks[i].blockId in ids {
        var j :| 0 <= j < i && blocks[j].blockId == blocks[i].blockId;
        assert CoachingIds(blocks)[j] == CoachingIds(blocks)[i];
        return false;
      }
      ids := ids + {blocks[i].blockId};
      ok, criteria := BuildBlock(index, blocks[i], criteria);
      if !ok {
        assert blocks[i] in blocks;
        return;
      }
    }
    return true;
  }

  // ----- the whole report

  /** What the assembler demands of a report whose evaluation is shown in this mode. */
  ghost predicate Assembles(rows: seq<Row>, e: StoredEvaluation, blocks: seq<Coaching.CoachingBlock>, items: seq<ReportItem>,
                            scenario: nat, mode: Mode)
  {
    && RowsSound(rows) && Shown(IndexOf(rows), e, mode)
    && CoachingRefers(IndexOf(rows), blocks)
    && PlanAssembled(items, e.canonical.categories, scenario)
  }

  /** The payload's own validators repeat checks that the assembler has already made. */
  lemma {:induction false} PayloadAddsNothing(index: map<int, Row>, canonical: Canonical, error: PayloadError)
    requires CanonicalRefers(index, canonical)
    ensures PayloadPasses(index.Keys, canonical, error)
  {
    hide NoRepeats, SequencesIn;
  }

  /** Nor does sorting the blocks again matter to the section's validator. */
  lemma {:induction false} SectionAddsNothing(index: map<int, Row>, blocks: seq<Coaching.CoachingBlock>)
    requires CoachingRefers(index, blocks)
    ensures CoachingAccepted(SortBy(Coaching.CoachingBlockLe, blocks))
  {
    hide SortBy, NoRepeats, BlockCoached;
    var sorted := SortBy(Coaching.CoachingBlockLe, blocks);
    var id := (b: Coaching.CoachingBlock) => b.blockId;
    MapPermutation(id, blocks, sorted);
    assert Map(id, blocks) == CoachingIds(blocks) && Map(id, sorted) == CoachingIds(sorted);
    NoRepeatsPermutation(CoachingIds(blocks), CoachingIds(sorted));
    forall b | b in sorted ensures BlockCoached(b) {
      assert b in multiset(sorted) && b in blocks && BlockRefers(index, b);
    }
  }

  /** Builds the sections and then the payload, and refuses exactly what `Assembles` does not allow. */
  method AssembleReport(rows: seq<Row>, e: StoredEvaluation, blocks: seq<Coaching.CoachingBlock>, items: seq<ReportItem>, scenario: nat)
    returns (mode: Option<Mode>)
    ensures forall m :: mode == Some(m) <==> Assembles(rows, e, blocks, items, scenario, m)
  {
    hide RowsSound, Shown, CoachingRefers, ItemsAccepted, FailedByBlock, PayloadPasses, SortBy, CoachingAccepted;
    var index := TranscriptIndex(rows);
    if index.None? {
      return None;
    }
    mode := BuildEvaluation(index.value, e);
    if mode.None? {
      return;
    }
    var coached := BuildCoaching(index.value, blocks);
    var planned := AssemblePlan(items, e.canonical.categories, scenario);
    if !coached || !planned {
      return None;
    }
    SectionAddsNothing(index.value, blocks);
    var section := ValidateCoaching(SortBy(Coaching.CoachingBlockLe, blocks));
    var plan := ValidatePlan(items);
    if section.Some? || !plan {
      return None;
    }
    if mode == Some(CanonicalMode) || mode == Some(NotApplicableMode) {
      AcceptedPasses(index.value, e, mode.value);
      var payload := ValidatePayload(index.value.Keys, e.canonical);
      if payload.Some? {
        return None;
      }
    }
  }

  lemma {:induction false} AcceptedPasses(index: map<int, Row>, e: StoredEvaluation, mode: Mode)
    requires Shown(index, e, mode) && (mode == CanonicalMode || mode == NotApplicableMode)
    ensures forall error :: PayloadPasses(index.Keys, e.canonical, error)
  {
    hide CanonicalRefers, PayloadPasses;
    forall error ensures PayloadPasses(index.Keys, e.canonical, error) {
      PayloadAddsNothing(index, e.canonical, error);
    }
  }
}
