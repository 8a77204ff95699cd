/** Aggregate validation of rubric content before publication. */
module StandardValidator {
  import opened Rubric
  import opened Sorting

  /** The five lists of names that must not repeat. */
  datatype Kind = BlockId | Category | DisplayOrder | CriterionId | ViolationId

  /** An item of a block; `item` is 0 for the block's own fields. */
  datatype Place = Place(block: nat, item: nat)

  datatype Key = Name(s: string) | Number(n: int)

  datatype Entry = Entry(key: Key, at: Place)

  datatype Issue =
    | NoBlocks
    | Duplicate(kind: Kind, at: Place)
    | CriterionReused(at: Place)
    | UnknownPenalty(at: Place)
    | WeightsTotal(total: int)

  predicate Before(a: Place, b: Place) {
    a.block < b.block || (a.block == b.block && a.item < b.item)
  }

  predicate Exists(s: Standard, kind: Kind, at: Place) {
    && at.block < |s.blocks|
    && match kind
       case CriterionId => at.item < |s.blocks[at.block].positiveBehaviors|
       case ViolationId => at.item < |s.blocks[at.block].violations|
       case _ => at.item == 0
  }

  function KeyAt(s: Standard, kind: Kind, at: Place): Key
    requires Exists(s, kind, at)
  {
    var block := s.blocks[at.block];
    match kind
    case BlockId => Name(block.id)
    case Category => Name(block.category)
    case DisplayOrder => Number(block.displayOrder)
    case CriterionId => Name(block.positiveBehaviors[at.item].id)
    case ViolationId => Name(block.violations[at.item].id)
  }

  /** `key.casefold()`; decimal digits have no case. */
  function Folded(fold: string -> string, key: Key): Key {
    match key case Name(s) => Name(fold(s)) case Number(n) => key
  }

  ghost predicate SameKey(fold: string -> string, s: Standard, kind: Kind, a: Place, kind': Kind, b: Place) {
    && Exists(s, kind, a) && Exists(s, kind', b)
    && Folded(fold, KeyAt(s, kind, a)) == Folded(fold, KeyAt(s, kind', b))
  }

  function WeightTotal(s: Standard): int {
    SumOf((b: Block) => b.weight, s.blocks)
  }

  predicate PenaltyNamed(fold: string -> string, block: Block, p: nat)
    requires p < |block.penalties|
  {
    exists v | 0 <= v < |block.violations| :: fold(block.violations[v].id) == fold(block.penalties[p].violationId)
  }

  /** What each issue means. */
  ghost predicate Defect(fold: string -> string, s: Standard, issue: Issue) {
    match issue
    case NoBlocks => s.blocks == []
    case Duplicate(kind, at) => exists e :: SameKey(fold, s, kind, e, kind, at) && Before(e, at)
    case CriterionReused(at) => exists e :: SameKey(fold, s, CriterionId, e, ViolationId, at)
    case UnknownPenalty(at) =>
      && at.block < |s.blocks| && at.item < |s.blocks[at.block].penalties|
      && !PenaltyNamed(fold, s.blocks[at.block], at.item)
    case WeightsTotal(total) => total == WeightTotal(s) && total != 100
  }

  /** Content that may be published. */
  ghost predicate Publishable(fold: string -> string, s: Standard) {
    && s.blocks != []
    && WeightTotal(s) == 100
    && (forall kind, a, b :: SameKey(fold, s, kind, a, kind, b) ==> a == b)
    && (forall a, b :: !SameKey(fold, s, CriterionId, a, ViolationId, b))
    && (forall b, p :: 0 <= b < |s.blocks| && 0 <= p < |s.blocks[b].penalties| ==>
          PenaltyNamed(fold, s.blocks[b], p))
  }

  /** `entries` lists every place of a kind in blocks before `upto` once, in reading order. */
  ghost predicate Lists(s: Standard, kind: Kind, upto: nat, entries: seq<Entry>) {
    && (forall i :: 0 <= i < |entries| ==>
          Exists(s, kind, entries[i].at) && entries[i].at.block < upto && entries[i].key == KeyAt(s, kind, entries[i].at))
    && (forall i, j :: 0 <= i < j < |entries| ==> Before(entries[i].at, entries[j].at))
    && (forall at :: Exists(s, kind, at) && at.block < upto ==> Entry(KeyAt(s, kind, at), at) in entries)
  }

  /** The entry at `d` has the same folded key as an earlier one. */
  ghost predicate Repeats(fold: string -> string, values: seq<Entry>, d: int) {
    0 <= d < |values| && exists e :: 0 <= e < d && Folded(fold, values[e].key) == Folded(fold, values[d].key)
  }

  /** The positions at which a folded key appears again; the first appearance is kept. */
  method CheckUnique(fold: string -> string, values: seq<Entry>) returns (repeated: seq<int>)
    ensures forall i :: 0 <= i < |repeated| ==> Repeats(fold, values, repeated[i])
    ensures forall d :: Repeats(fold, values, d) ==> d in repeated
  {
    repeated := [];
    var seen: map<Key, Place> := map[];
    for i := 0 to |values|
      invariant forall e :: 0 <= e < i ==> Folded(fold, values[e].key) in seen
      invariant forall k :: k in seen ==> exists e :: 0 <= e < i && Folded(fold, values[e].key) == k
      invariant forall d :: 0 <= d < |repeated| ==> Repeats(fold, values, repeated[d])
      invariant forall d :: 0 <= d < i && Repeats(fold, values, d) ==> d in repeated
    {
      var key := Folded(fold, values[i].key);
      if key in seen {
        repeated := repeated + [i];
      } else {
        seen := seen[key := values[i].at];
      }
    }
  }

  /** The issues at the repeated positions of one list. */
  function DuplicateIssues(kind: Kind, values: seq<Entry>, repeated: seq<int>): (r: seq<Issue>)
    requires forall i :: 0 <= i < |repeated| ==> 0 <= repeated[i] < |values|
  {
    seq(|repeated|, (i: nat) requires i < |repeated| => Duplicate(kind, values[repeated[i]].at))
  }

  lemma DuplicateIssuesExact(fold: string -> string, s: Standard, kind: Kind, values: seq<Entry>, repeated: seq<int>)
    requires Lists(s, kind, |s.blocks|, values)
    requires forall i :: 0 <= i < |repeated| ==> 0 <= repeated[i] < |values| && Repeats(fold, values, repeated[i])
    requires forall d :: Repeats(fold, values, d) ==> d in repeated
    ensures forall x :: x in DuplicateIssues(kind, values, repeated) <==> x.Duplicate? && x.kind == kind && Defect(fold, s, x)
  {
    var r := DuplicateIssues(kind, values, repeated);
    forall x | x in r ensures x.Duplicate? && x.kind == kind && Defect(fold, s, x) {
      var i :| 0 <= i < |r| && r[i] == x;
      RepeatIsDuplicate(fold, s, kind, values, repeated[i]);
    }
    forall x: Issue | x.Duplicate? && x.kind == kind && Defect(fold, s, x) ensures x in r {
      var d := DuplicateRepeats(fold, s, values, x);
      var i :| 0 <= i < |repeated| && repeated[i] == d;
      assert r[i] == x;
    }
  }

  lemma RepeatIsDuplicate(fold: string -> string, s: Standard, kind: Kind, values: seq<Entry>, d: int)
    requires Lists(s, kind, |s.blocks|, values) && Repeats(fold, values, d)
    ensures Defect(fold, s, Duplicate(kind, values[d].at))
  {
    var e :| 0 <= e < d && Folded(fold, values[e].key) == Folded(fold, values[d].key);
    assert SameKey(fold, s, kind, values[e].at, kind, values[d].at);
  }

  lemma DuplicateRepeats(fold: string -> string, s: Standard, values: seq<Entry>, x: Issue) returns (d: int)
    requires x.Duplicate? && Lists(s, x.kind, |s.blocks|, values) && Defect(fold, s, x)
    ensures Repeats(fold, values, d) && values[d].at == x.at
  {
    var e :| SameKey(fold, s, x.kind, e, x.kind, x.at) && Before(e, x.at);
    var i :| 0 <= i < |values| && values[i] == Entry(KeyAt(s, x.kind, e), e);
    d :| 0 <= d < |values| && values[d] == Entry(KeyAt(s, x.kind, x.at), x.at);
    assert !Before(values[d].at, values[i].at) && i != d;
  }

  function ItemCount(s: Standard, kind: Kind, b: nat): nat
    requires b < |s.blocks|
  {
    match kind
    case CriterionId => |s.blocks[b].positiveBehaviors|
    case ViolationId => |s.blocks[b].violations|
    case _ => 1
  }

  lemma ListsExtend(s: Standard, kind: Kind, b: nat, entries: seq<Entry>, more: seq<Entry>)
    requires b < |s.blocks| && Lists(s, kind, b, entries) && |more| == ItemCount(s, kind, b)
    requires forall i :: 0 <= i < |more| ==> more[i] == Entry(KeyAt(s, kind, Place(b, i)), Place(b, i))
    ensures Lists(s, kind, b + 1, entries + more)
  {
    forall at | Exists(s, kind, at) && at.block < b + 1
      ensures Entry(KeyAt(s, kind, at), at) in entries + more
    {
      if at.block == b {
        assert more[at.item] == Entry(KeyAt(s, kind, at), at);
      }
    }
  }

  method DuplicatesOf(fold: string -> string, s: Standard, kind: Kind, values: seq<Entry>) returns (found: seq<Issue>)
    requires Lists(s, kind, |s.blocks|, values)
    ensures forall x :: x in found <==> x.Duplicate? && x.kind == kind && Defect(fold, s, x)
  {
    var repeated := CheckUnique(fold, values);
    found := DuplicateIssues(kind, values, repeated);
    DuplicateIssuesExact(fold, s, kind, values, repeated);
  }

  lemma PenaltyInside(fold: string -> string, s: Standard, x: Issue)
    ensures x.UnknownPenalty? && Defect(fold, s, x) ==> x.at.block < |s.blocks|
  {
  }

  lemma ListsNothing(s: Standard)
    ensures forall kind :: Lists(s, kind, 0, [])
  {
  }

  /** The entry of one of a block's own fields. */
  lemma ListsOwn(s: Standard, kind: Kind, b: nat, entries: seq<Entry>, key: Key)
    requires b < |s.blocks| && Lists(s, kind, b, entries) && kind !in {CriterionId, ViolationId}
    requires key == KeyAt(s, kind, Place(b, 0))
    ensures Lists(s, kind, b + 1, entries + [Entry(key, Place(b, 0))])
  {
    hide Lists;
    ListsExtend(s, kind, b, entries, [Entry(key, Place(b, 0))]);
  }

  /** The entries of a block's items. */
  lemma ListsItems(s: Standard, kind: Kind, b: nat, entries: seq<Entry>, items: seq<Criterion>)
    requires b < |s.blocks| && Lists(s, kind, b, entries) && kind in {CriterionId, ViolationId}
    requires items == if kind == CriterionId then s.blocks[b].positiveBehaviors else s.blocks[b].violations
    ensures Lists(s, kind, b + 1, entries + EntriesOf(s, kind, b, items))
  {
    hide Lists;
    ListsExtend(s, kind, b, entries, EntriesOf(s, kind, b, items));
  }

  /** Reads every block once, collecting its names and its dangling penalties. */
  method CollectBlocks(fold: string -> string, s: Standard)
    returns (errors: seq<Issue>, blockIds: seq<Entry>, categories: seq<Entry>, orders: seq<Entry>, criteria: seq<Entry>, violations: seq<Entry>)
    ensures forall x :: x in errors <==> x.UnknownPenalty? && Defect(fold, s, x)
    ensures Lists(s, BlockId, |s.blocks|, blockIds) && Lists(s, Category, |s.blocks|, categories)
    ensures Lists(s, DisplayOrder, |s.blocks|, orders)
    ensures Lists(s, CriterionId, |s.blocks|, criteria) && Lists(s, ViolationId, |s.blocks|, violations)
  {
    hide Lists, Defect;
    forall x: Issue ensures x.UnknownPenalty? && Defect(fold, s, x) ==> x.at.block < |s.blocks| { PenaltyInside(fold, s, x); }
    ListsNothing(s);
    errors := [];
    blockIds, categories, orders, criteria, violations := [], [], [], [], [];
    for b := 0 to |s.blocks|
      invariant Lists(s, BlockId, b, blockIds) && Lists(s, Category, b, categories) && Lists(s, DisplayOrder, b, orders)
      invariant Lists(s, CriterionId, b, criteria) && Lists(s, ViolationId, b, violations)
      invariant forall x :: x in errors <==> x.UnknownPenalty? && x.at.block < b && Defect(fold, s, x)
    {
      var block := s.blocks[b];
      ListsOwn(s, BlockId, b, blockIds, Name(block.id));
      blockIds := blockIds + [Entry(Name(block.id), Place(b, 0))];
      ListsOwn(s, Category, b, categories, Name(block.category));
      categories := categories + [Entry(Name(block.category), Place(b, 0))];
      ListsOwn(s, DisplayOrder, b, orders, Number(block.displayOrder));
      orders := orders + [Entry(Number(block.displayOrder), Place(b, 0))];
      ListsItems(s, CriterionId, b, criteria, block.positiveBehaviors);
      criteria := criteria + EntriesOf(s, CriterionId, b, block.positiveBehaviors);
      ListsItems(s, ViolationId, b, violations, block.violations);
      violations := violations + EntriesOf(s, ViolationId, b, block.violations);
      var dangling := CheckPenalties(fold, s, b);
      errors := errors + dangling;
    }
  }

  /** The relations between blocks, criteria, violations and penalties. */
  method ValidateBlocks(fold: string -> string, s: Standard) returns (errors: seq<Issue>)
    ensures forall x :: x in errors <==> !x.NoBlocks? && !x.WeightsTotal? && Defect(fold, s, x)
  {
    hide Lists, Defect;
    var blockIds, categories, orders, criteria, violations;
    errors, blockIds, categories, orders, criteria, violations := CollectBlocks(fold, s);
    var d0 := DuplicatesOf(fold, s, BlockId, blockIds);
    var d1 := DuplicatesOf(fold, s, Category, categories);
    var d2 := DuplicatesOf(fold, s, DisplayOrder, orders);
    var d3 := DuplicatesOf(fold, s, CriterionId, criteria);
    var d4 := DuplicatesOf(fold, s, ViolationId, violations);
    var reused := CheckReused(fold, s, criteria, violations);
    errors := errors + d0 + d1 + d2 + d3 + d4 + reused;
  }

  /** The names a block adds to one of the lists. */
  function EntriesOf(s: Standard, kind: Kind, b: nat, items: seq<Criterion>): (r: seq<Entry>)
    requires b < |s.blocks|
    requires kind in {CriterionId, ViolationId}
    requires items == if kind == CriterionId then s.blocks[b].positiveBehaviors else s.blocks[b].violations
    ensures |r| == |items| && forall i :: 0 <= i < |r| ==> r[i] == Entry(KeyAt(s, kind, Place(b, i)), Place(b, i))
  {
    seq(|items|, (i: nat) requires i < |items| => Entry(Name(items[i].id), Place(b, i)))
  }

  method CheckPenalties(fold: string -> string, s: Standard, b: nat) returns (found: seq<Issue>)
    requires b < |s.blocks|
    ensures forall x :: x in found <==> x.UnknownPenalty? && x.at.block == b && Defect(fold, s, x)
  {
    found := [];
    var block := s.blocks[b];
    var known := set v | v in block.violations :: fold(v.id);
    for p := 0 to |block.penalties|
      invariant forall x :: x in found <==> x.UnknownPenalty? && x.at.block == b && x.at.item < p && Defect(fold, s, x)
    {
      if fold(block.penalties[p].violationId) !in known {
        found := found + [UnknownPenalty(Place(b, p))];
      }
    }
  }

  method CheckReused(fold: string -> string, s: Standard, criteria: seq<Entry>, violations: seq<Entry>) returns (found: seq<Issue>)
    requires Lists(s, CriterionId, |s.blocks|, criteria) && Lists(s, ViolationId, |s.blocks|, violations)
    ensures forall x :: x in found <==> x.CriterionReused? && Defect(fold, s, x)
  {
    hide PenaltyNamed, WeightTotal;
    found := [];
    var paths := set e | e in criteria :: Folded(fold, e.key);
    for i := 0 to |violations|
      invariant forall x :: x in found ==> x.CriterionReused? && Defect(fold, s, x)
      invariant forall v :: 0 <= v < i && Folded(fold, violations[v].key) in paths ==> CriterionReused(violations[v].at) in found
    {
      var key := Folded(fold, violations[i].key);
      if key in paths {
        var e :| e in criteria && Folded(fold, e.key) == key;
        assert SameKey(fold, s, CriterionId, e.at, ViolationId, violations[i].at);
        found := found + [CriterionReused(violations[i].at)];
      }
    }
    forall x: Issue | x.CriterionReused? && Defect(fold, s, x)
      ensures x in found
    {
      var v := ReusedListed(fold, s, criteria, violations, x);
      assert Folded(fold, violations[v].key) in paths;
    }
  }

  /** A reused id is found among the listed violations, and its criterion among the listed criteria. */
  lemma ReusedListed(fold: string -> string, s: Standard, criteria: seq<Entry>, violations: seq<Entry>, x: Issue) returns (v: nat)
    requires Lists(s, CriterionId, |s.blocks|, criteria) && Lists(s, ViolationId, |s.blocks|, violations)
    requires x.CriterionReused? && Defect(fold, s, x)
    ensures v < |violations| && violations[v].at == x.at
    ensures exists e :: e in criteria && Folded(fold, e.key) == Folded(fold, violations[v].key)
  {
    var e :| SameKey(fold, s, CriterionId, e, ViolationId, x.at);
    assert Entry(KeyAt(s, CriterionId, e), e) in criteria;
    v :| 0 <= v < |violations| && violations[v] == Entry(KeyAt(s, ViolationId, x.at), x.at);
  }

  /** The reported issues are exactly the defects of the content. */
  method ValidateStandard(fold: string -> string, s: Standard)
    returns (valid: bool, weightTotal: int, errors: seq<Issue>)
    ensures weightTotal == WeightTotal(s)
    ensures forall x :: x in errors <==> Defect(fold, s, x)
    ensures valid <==> Publishable(fold, s)
  {
    errors := [];
    weightTotal := WeightTotal(s);
    if s.blocks == [] {
      errors := errors + [NoBlocks];
    }
    var structural := ValidateBlocks(fold, s);
    errors := errors + structural;
    if weightTotal != 100 {
      errors := errors + [WeightsTotal(weightTotal)];
    }
    valid := errors == [];
    NoDefectIsPublishable(fold, s);
    assert errors != [] ==> errors[0] in errors;
  }

  lemma NoDefectIsPublishable(fold: string -> string, s: Standard)
    ensures (forall x :: !Defect(fold, s, x)) <==> Publishable(fold, s)
  {
    if forall x :: !Defect(fold, s, x) {
      assert !Defect(fold, s, NoBlocks) && !Defect(fold, s, WeightsTotal(WeightTotal(s)));
      forall kind, a, b | SameKey(fold, s, kind, a, kind, b) ensures a == b {
        assert !Defect(fold, s, Duplicate(kind, a)) && !Defect(fold, s, Duplicate(kind, b));
        assert SameKey(fold, s, kind, b, kind, a);
      }
      forall a, b ensures !SameKey(fold, s, CriterionId, a, ViolationId, b) {
        assert !Defect(fold, s, CriterionReused(b));
      }
      forall b, p | 0 <= b < |s.blocks| && 0 <= p < |s.blocks[b].penalties|
        ensures PenaltyNamed(fold, s.blocks[b], p)
      {
        assert !Defect(fold, s, UnknownPenalty(Place(b, p)));
      }
    }
  }

  predicate Behaviour(s: Standard, i: int, p: int) { 0 <= i < |s.blocks| && 0 <= p < |s.blocks[i].positiveBehaviors| }

  predicate Offence(s: Standard, i: int, p: int) { 0 <= i < |s.blocks| && 0 <= p < |s.blocks[i].violations| }

  ghost predicate BlocksDiffer(fold: string -> string, s: Standard) {
    forall i, j :: 0 <= i < j < |s.blocks| ==>
      && fold(s.blocks[i].id) != fold(s.blocks[j].id) && fold(s.blocks[i].category) != fold(s.blocks[j].category)
      && s.blocks[i].displayOrder != s.blocks[j].displayOrder
  }

  ghost predicate BehavioursDiffer(fold: string -> string, s: Standard) {
    forall i, p, j, q :: Behaviour(s, i, p) && Behaviour(s, j, q) && (i != j || p != q) ==>
      fold(s.blocks[i].positiveBehaviors[p].id) != fold(s.blocks[j].positiveBehaviors[q].id)
  }

  ghost predicate OffencesDiffer(fold: string -> string, s: Standard) {
    forall i, p, j, q :: Offence(s, i, p) && Offence(s, j, q) && (i != j || p != q) ==>
      fold(s.blocks[i].violations[p].id) != fold(s.blocks[j].violations[q].id)
  }

  ghost predicate KindsDiffer(fold: string -> string, s: Standard) {
    forall i, p, j, q :: Behaviour(s, i, p) && Offence(s, j, q) ==>
      fold(s.blocks[i].positiveBehaviors[p].id) != fold(s.blocks[j].violations[q].id)
  }

  ghost predicate PenaltiesOwn(fold: string -> string, s: Standard) {
    forall b: Block, p: Penalty :: b in s.blocks && p in b.penalties ==> Names(fold, b, p)
  }

  /** The penalty is for a violation of the block. */
  ghost predicate Names(fold: string -> string, b: Block, p: Penalty) {
    exists v :: v in b.violations && fold(v.id) == fold(p.violationId)
  }

  /** Content may be published exactly when there are blocks; their weights total 100; no two share an id, a category or a
      display order; no two behaviours and no two violations share an id, nor a behaviour and a violation; and every penalty
      names a violation of its own block. Texts are compared up to case. */
  lemma PublishableExactly(fold: string -> string, s: Standard)
    ensures Publishable(fold, s) <==>
      && s.blocks != [] && SumOf((b: Block) => b.weight, s.blocks) == 100
      && BlocksDiffer(fold, s) && BehavioursDiffer(fold, s) && OffencesDiffer(fold, s) && KindsDiffer(fold, s)
      && PenaltiesOwn(fold, s)
  {
    hide SameKey, BlocksDiffer, BehavioursDiffer, OffencesDiffer, KindsDiffer, PenaltyNamed, PenaltiesOwn;
    BlocksPlainly(fold, s);
    BehavioursPlainly(fold, s);
    OffencesPlainly(fold, s);
    KindsPlainly(fold, s);
    PenaltiesPlainly(fold, s);
    if forall kind, a, b :: SameKey(fold, s, kind, a, kind, b) ==> a == b {
      assert forall a, b :: SameKey(fold, s, CriterionId, a, CriterionId, b) ==> a == b;
      assert forall a, b :: SameKey(fold, s, ViolationId, a, ViolationId, b) ==> a == b;
    }
    assert WeightTotal(s) == SumOf((b: Block) => b.weight, s.blocks);
    if BlocksDiffer(fold, s) && BehavioursDiffer(fold, s) && OffencesDiffer(fold, s) {
      forall kind, a, b | SameKey(fold, s, kind, a, kind, b) ensures a == b {
        assert kind in {BlockId, Category, DisplayOrder} || kind == CriterionId || kind == ViolationId;
      }
    }
  }

  lemma PenaltyNamedPlainly(fold: string -> string, block: Block, p: nat)
    requires p < |block.penalties|
    ensures PenaltyNamed(fold, block, p) <==> Names(fold, block, block.penalties[p])
  {
    if Names(fold, block, block.penalties[p]) {
      var v :| v in block.violations && fold(v.id) == fold(block.penalties[p].violationId);
      var k :| 0 <= k < |block.violations| && block.violations[k] == v;
      assert fold(block.violations[k].id) == fold(block.penalties[p].violationId);
    }
  }

  lemma BlocksPlainly(fold: string -> string, s: Standard)
    ensures (forall kind, a, b :: kind in {BlockId, Category, DisplayOrder} && SameKey(fold, s, kind, a, kind, b) ==> a == b)
      <==> BlocksDiffer(fold, s)
  {
    if forall kind, a, b :: kind in {BlockId, Category, DisplayOrder} && SameKey(fold, s, kind, a, kind, b) ==> a == b {
      forall i, j | 0 <= i < j < |s.blocks|
        ensures fold(s.blocks[i].id) != fold(s.blocks[j].id) && fold(s.blocks[i].category) != fold(s.blocks[j].category)
        ensures s.blocks[i].displayOrder != s.blocks[j].displayOrder
      {
        assert !SameKey(fold, s, BlockId, Place(i, 0), BlockId, Place(j, 0));
        assert !SameKey(fold, s, Category, Place(i, 0), Category, Place(j, 0));
        assert !SameKey(fold, s, DisplayOrder, Place(i, 0), DisplayOrder, Place(j, 0));
      }
    }
  }

  lemma BehavioursPlainly(fold: string -> string, s: Standard)
    ensures (forall a, b :: SameKey(fold, s, CriterionId, a, CriterionId, b) ==> a == b) <==> BehavioursDiffer(fold, s)
  {
    if forall a, b :: SameKey(fold, s, CriterionId, a, CriterionId, b) ==> a == b {
      forall i, p, j, q | Behaviour(s, i, p) && Behaviour(s, j, q) && (i != j || p != q)
        ensures fold(s.blocks[i].positiveBehaviors[p].id) != fold(s.blocks[j].positiveBehaviors[q].id)
      {
        assert !SameKey(fold, s, CriterionId, Place(i, p), CriterionId, Place(j, q));
      }
    }
  }

  lemma OffencesPlainly(fold: string -> string, s: Standard)
    ensures (forall a, b :: SameKey(fold, s, ViolationId, a, ViolationId, b) ==> a == b) <==> OffencesDiffer(fold, s)
  {
    if forall a, b :: SameKey(fold, s, ViolationId, a, ViolationId, b) ==> a == b {
      forall i, p, j, q | Offence(s, i, p) && Offence(s, j, q) && (i != j || p != q)
        ensures fold(s.blocks[i].violations[p].id) != fold(s.blocks[j].violations[q].id)
      {
        assert !SameKey(fold, s, ViolationId, Place(i, p), ViolationId, Place(j, q));
      }
    }
  }

  lemma KindsPlainly(fold: string -> string, s: Standard)
    ensures (forall a, b :: !SameKey(fold, s, CriterionId, a, ViolationId, b)) <==> KindsDiffer(fold, s)
  {
    if forall a, b :: !SameKey(fold, s, CriterionId, a, ViolationId, b) {
      forall i, p, j, q | Behaviour(s, i, p) && Offence(s, j, q)
        ensures fold(s.blocks[i].positiveBehaviors[p].id) != fold(s.blocks[j].violations[q].id)
      {
        assert !SameKey(fold, s, CriterionId, Place(i, p), ViolationId, Place(j, q));
      }
    }
  }

  lemma PenaltiesPlainly(fold: string -> string, s: Standard)
    ensures (forall b, p :: 0 <= b < |s.blocks| && 0 <= p < |s.blocks[b].penalties| ==> PenaltyNamed(fold, s.blocks[b], p))
      <==> PenaltiesOwn(fold, s)
  {
    hide PenaltyNamed, Names;
    forall b: nat, p: nat | b < |s.blocks| && p < |s.blocks[b].penalties|
      ensures PenaltyNamed(fold, s.blocks[b], p) <==> Names(fold, s.blocks[b], s.blocks[b].penalties[p])
    {
      PenaltyNamedPlainly(fold, s.blocks[b], p);
    }
    if forall b, p :: 0 <= b < |s.blocks| && 0 <= p < |s.blocks[b].penalties| ==> PenaltyNamed(fold, s.blocks[b], p) {
      forall b: Block, p: Penalty | b in s.blocks && p in b.penalties ensures Names(fold, b, p) {
        var i :| 0 <= i < |s.blocks| && s.blocks[i] == b;
        var k :| 0 <= k < |b.penalties| && b.penalties[k] == p;
        assert PenaltyNamed(fold, s.blocks[i], k);
      }
    }
    if PenaltiesOwn(fold, s) {
      forall b, p | 0 <= b < |s.blocks| && 0 <= p < |s.blocks[b].penalties| ensures PenaltyNamed(fold, s.blocks[b], p) {
        assert Names(fold, s.blocks[b], s.blocks[b].penalties[p]);
      }
    }
  }

  /** Blocks of publishable content are found again under their own id. */
  lemma PublishableBlocksDistinct(fold: string -> string, s: Standard)
    requires Publishable(fold, s)
    ensures forall i, j :: 0 <= i < j < |s.blocks| ==>
      s.blocks[i].id != s.blocks[j].id && s.blocks[i].displayOrder != s.blocks[j].displayOrder
  {
    forall i, j | 0 <= i < j < |s.blocks|
      ensures s.blocks[i].id != s.blocks[j].id && s.blocks[i].displayOrder != s.blocks[j].displayOrder
    {
      assert !SameKey(fold, s, BlockId, Place(i, 0), BlockId, Place(j, 0));
      assert !SameKey(fold, s, DisplayOrder, Place(i, 0), DisplayOrder, Place(j, 0));
    }
  }
}
