/** Coaching grouped by rubric block, from the ranked recommendations. */
module Coaching {
  import opened Rubric
  import opened Sorting
  import opened Text
  import opened Recommendations

  datatype Group = Group(blockId: string, items: seq<Recommendation>)

  /** A dictionary keeps its keys in insertion order; `setdefault(id, []).append(r)`. */
  function AddToGroups(groups: seq<Group>, r: Recommendation): (out: seq<Group>)
    ensures NonEmptyGroups(groups) ==> NonEmptyGroups(out)
  {
    if groups == [] then [Group(r.blockId, [r])]
    else if groups[0].blockId == r.blockId then [Group(r.blockId, groups[0].items + [r])] + groups[1..]
    else [groups[0]] + AddToGroups(groups[1..], r)
  }

  function GroupBy(rs: seq<Recommendation>): (groups: seq<Group>)
    ensures NonEmptyGroups(groups)
  {
    if rs == [] then [] else AddToGroups(GroupBy(rs[..|rs| - 1]), rs[|rs| - 1])
  }

  function Flatten(groups: seq<Group>): seq<Recommendation> {
    if groups == [] then [] else groups[0].items + Flatten(groups[1..])
  }

  ghost predicate DistinctGroups(groups: seq<Group>) {
    forall i, j :: 0 <= i < j < |groups| ==> groups[i].blockId != groups[j].blockId
  }

  ghost predicate NonEmptyGroups(groups: seq<Group>) {
    forall i :: 0 <= i < |groups| ==> groups[i].items != []
  }

  /** The recommendations of one block, in order. */
  function OfBlock(rs: seq<Recommendation>, id: string): seq<Recommendation> {
    Filter((r: Recommendation) => r.blockId == id, rs)
  }

  /** `groups.get(id, [])`. */
  function ItemsFor(groups: seq<Group>, id: string): seq<Recommendation> {
    if groups == [] then [] else if groups[0].blockId == id then groups[0].items else ItemsFor(groups[1..], id)
  }

  /** The groups split the list by block, keeping its order inside each. */
  ghost predicate Partitions(groups: seq<Group>, rs: seq<Recommendation>) {
    && DistinctGroups(groups) && NonEmptyGroups(groups)
    && forall id :: ItemsFor(groups, id) == OfBlock(rs, id)
  }

  lemma {:induction false} ItemsOfGroup(groups: seq<Group>, i: nat)
    requires DistinctGroups(groups) && i < |groups|
    ensures ItemsFor(groups, groups[i].blockId) == groups[i].items
  {
    if i > 0 {
      ItemsOfGroup(groups[1..], i - 1);
    }
  }

  lemma {:induction false} FilterLast(rs: seq<Recommendation>, id: string, r: Recommendation)
    ensures OfBlock(rs + [r], id) == OfBlock(rs, id) + (if r.blockId == id then [r] else [])
  {
    if rs == [] {
      assert rs + [r] == [r] && [r][1..] == [];
    } else {
      FilterLast(rs[1..], id, r);
      assert (rs + [r])[1..] == rs[1..] + [r];
    }
  }

  lemma {:induction false} ItemsAfterAdd(groups: seq<Group>, r: Recommendation, id: string)
    ensures ItemsFor(AddToGroups(groups, r), id) == ItemsFor(groups, id) + (if r.blockId == id then [r] else [])
  {
    if groups != [] && groups[0].blockId != r.blockId {
      ItemsAfterAdd(groups[1..], r, id);
    }
  }

  lemma {:induction false} GroupsAfterAdd(groups: seq<Group>, r: Recommendation)
    requires DistinctGroups(groups) && NonEmptyGroups(groups)
    ensures DistinctGroups(AddToGroups(groups, r)) && NonEmptyGroups(AddToGroups(groups, r))
    ensures forall i :: 0 <= i < |AddToGroups(groups, r)| ==>
      AddToGroups(groups, r)[i].blockId == if i < |groups| then groups[i].blockId else r.blockId
    ensures |groups| <= |AddToGroups(groups, r)| <= |groups| + 1
  {
    if groups != [] && groups[0].blockId != r.blockId {
      GroupsAfterAdd(groups[1..], r);
    }
  }

  lemma {:induction false} GroupByPartitions(rs: seq<Recommendation>)
    ensures Partitions(GroupBy(rs), rs)
  {
    if rs != [] {
      var front, r := rs[..|rs| - 1], rs[|rs| - 1];
      assert rs == front + [r];
      GroupByPartitions(front);
      GroupsAfterAdd(GroupBy(front), r);
      forall id ensures ItemsFor(GroupBy(rs), id) == OfBlock(rs, id) {
        FilterLast(front, id, r);
        ItemsAfterAdd(GroupBy(front), r, id);
      }
    }
  }

  /** All recommendations of a block stand next to each other. */
  ghost predicate Contiguous(rs: seq<Recommendation>) {
    forall i, j, k :: 0 <= i <= j <= k < |rs| && rs[i].blockId == rs[k].blockId ==> rs[j].blockId == rs[i].blockId
  }

  lemma {:induction false} AddToLastOrNew(groups: seq<Group>, r: Recommendation)
    requires forall i :: 0 <= i < |groups| - 1 ==> groups[i].blockId != r.blockId
    ensures Flatten(AddToGroups(groups, r)) == Flatten(groups) + [r]
    ensures AddToGroups(groups, r) != [] && AddToGroups(groups, r)[|AddToGroups(groups, r)| - 1].blockId == r.blockId
  {
    if groups != [] && groups[0].blockId != r.blockId {
      AddToLastOrNew(groups[1..], r);
    } else if groups != [] {
      assert groups == [groups[0]];
    }
  }

  /** In a contiguous list only the last group can take the next recommendation. */
  lemma EarlierGroupsClosed(rs: seq<Recommendation>, i: nat)
    requires rs != [] && Contiguous(rs)
    requires i < |GroupBy(rs[..|rs| - 1])| - 1
    requires |rs| > 1 ==> GroupBy(rs[..|rs| - 1])[|GroupBy(rs[..|rs| - 1])| - 1].blockId == rs[|rs| - 2].blockId
    ensures GroupBy(rs[..|rs| - 1])[i].blockId != rs[|rs| - 1].blockId
  {
    var front, r := rs[..|rs| - 1], rs[|rs| - 1];
    var groups := GroupBy(front);
    GroupByPartitions(front);
    ItemsOfGroup(groups, i);
    var x := groups[i].items[0];
    assert x in OfBlock(front, groups[i].blockId);
    var p :| 0 <= p < |front| && front[p] == x;
    assert rs[p].blockId == groups[i].blockId;
    var last := rs[|rs| - 2];
    assert rs[p].blockId == r.blockId ==> last.blockId == r.blockId;
  }

  /** Grouping a contiguous list and flattening the groups gives the list back. */
  lemma {:induction false} FlattenGroupBy(rs: seq<Recommendation>)
    requires Contiguous(rs)
    ensures Flatten(GroupBy(rs)) == rs
    ensures rs != [] ==> GroupBy(rs) != [] && GroupBy(rs)[|GroupBy(rs)| - 1].blockId == rs[|rs| - 1].blockId
  {
    hide AddToGroups;
    if rs != [] {
      var front, r := rs[..|rs| - 1], rs[|rs| - 1];
      FlattenGroupBy(front);
      forall i: nat | i < |GroupBy(front)| - 1 ensures GroupBy(front)[i].blockId != r.blockId {
        EarlierGroupsClosed(rs, i);
      }
      AddToLastOrNew(GroupBy(front), r);
    }
  }

  // ----- the report

  function OrElse<T>(a: Option<T>, b: Option<T>): Option<T> { if a.Some? then a else b }

  /** A present, non-empty text. */
  function Truthy(t: Option<string>): Option<string> { if t.Some? && t.value != "" then t else None }

  /** Fills the metadata that historical recommendations may lack. */
  function Enrich(r: Recommendation, b: Option<Block>, version: Version): Recommendation {
    var category := if b.Some? then Some(b.value.category) else None;
    var named := if b.Some? && b.value.HasCriterion(r.criterionId)
      then Some(LastCriterion(b.value.Criteria(), r.criterionId).name) else None;
    r.(blockName := OrElse(Truthy(r.blockName), OrElse(Truthy(category), Some(r.blockId))),
       criterionName := OrElse(Truthy(r.criterionName), OrElse(Truthy(named), Some(r.criterionId))),
       displayOrder := OrElse(r.displayOrder, Some(if b.Some? then b.value.displayOrder else 0)),
       versionId := OrElse(r.versionId, version.id),
       versionNumber := if r.versionNumber.Some? && r.versionNumber.value != 0 then r.versionNumber else version.number)
  }

  function BlockOf(snapshot: Standard, id: string): Option<Block> {
    var blocks := BlockMap(snapshot.blocks);
    if id in blocks then Some(blocks[id]) else None
  }

  function EnrichAll(snapshot: Standard, version: Version, rs: seq<Recommendation>): (out: seq<Recommendation>)
    ensures |out| == |rs| && forall i :: 0 <= i < |rs| ==> out[i] == Enrich(rs[i], BlockOf(snapshot, rs[i].blockId), version)
  {
    seq(|rs|, (i: nat) requires i < |rs| => Enrich(rs[i], BlockOf(snapshot, rs[i].blockId), version))
  }

  datatype CoachingBlock = CoachingBlock(blockId: string, blockName: string, displayOrder: int, recommendations: seq<Recommendation>)

  datatype CoachingReport = CoachingReport(
    blocks: seq<CoachingBlock>, flattened: seq<Recommendation>, byBlock: seq<Group>, totalMistakes: nat, noMistakes: bool)

  function ToBlock(g: Group): CoachingBlock
    requires g.items != []
  {
    var name, order := Truthy(g.items[0].blockName), g.items[0].displayOrder;
    CoachingBlock(g.blockId, if name.Some? then name.value else g.blockId, if order.Some? then order.value else 0, g.items)
  }

  function ToBlocks(gs: seq<Group>): (out: seq<CoachingBlock>)
    requires NonEmptyGroups(gs)
    ensures |out| == |gs| && forall i :: 0 <= i < |gs| ==> out[i] == ToBlock(gs[i])
  {
    seq(|gs|, (i: nat) requires i < |gs| => ToBlock(gs[i]))
  }

  predicate CoachingBlockLe(a: CoachingBlock, b: CoachingBlock) {
    a.displayOrder < b.displayOrder || (a.displayOrder == b.displayOrder && StrLe(a.blockId, b.blockId))
  }

  function Report(groups: seq<Group>): CoachingReport
    requires NonEmptyGroups(groups)
  {
    var flattened := Flatten(groups);
    CoachingReport(SortBy(CoachingBlockLe, ToBlocks(groups)), flattened, groups, |flattened|, flattened == [])
  }

  lemma {:induction false} NothingLostByAdd(groups: seq<Group>, r: Recommendation)
    ensures multiset(Flatten(AddToGroups(groups, r))) == multiset(Flatten(groups)) + multiset{r}
  {
    if groups != [] {
      if groups[0].blockId == r.blockId {
        var added := [Group(r.blockId, groups[0].items + [r])] + groups[1..];
        assert AddToGroups(groups, r) == added && added[1..] == groups[1..];
      } else {
        NothingLostByAdd(groups[1..], r);
        var added := [groups[0]] + AddToGroups(groups[1..], r);
        assert AddToGroups(groups, r) == added && added[1..] == AddToGroups(groups[1..], r);
      }
    }
  }

  /** Grouping loses and repeats nothing, whatever the list. */
  lemma {:induction false} NothingLost(rs: seq<Recommendation>)
    ensures multiset(Flatten(GroupBy(rs))) == multiset(rs)
  {
    hide AddToGroups;
    if rs != [] {
      NothingLost(rs[..|rs| - 1]);
      NothingLostByAdd(GroupBy(rs[..|rs| - 1]), rs[|rs| - 1]);
      assert rs == rs[..|rs| - 1] + [rs[|rs| - 1]];
    }
  }

  lemma CoachingBlockPreorder()
    ensures TotalPreorder(CoachingBlockLe)
  {
    forall a, b ensures CoachingBlockLe(a, b) || CoachingBlockLe(b, a) { StrLeTotal(a.blockId, b.blockId); }
    forall a, b, c | CoachingBlockLe(a, b) && CoachingBlockLe(b, c) ensures CoachingBlockLe(a, c) {
      if StrLe(a.blockId, b.blockId) && StrLe(b.blockId, c.blockId) {
        StrLeTransitive(a.blockId, b.blockId, c.blockId);
      }
    }
  }

  /** The report counts the recommendations, and shows the blocks by display order, and by id within one. */
  lemma ReportMeaning(rs: seq<Recommendation>)
    ensures var report := Report(GroupBy(rs));
      && report.totalMistakes == |rs| && (report.noMistakes <==> rs == [])
      && multiset(report.flattened) == multiset(rs)
      && forall i, j :: 0 <= i < j < |report.blocks| ==>
           || report.blocks[i].displayOrder < report.blocks[j].displayOrder
           || (report.blocks[i].displayOrder == report.blocks[j].displayOrder && StrLe(report.blocks[i].blockId, report.blocks[j].blockId))
  {
    hide GroupBy, SortBy, Flatten, ToBlocks;
    NothingLost(rs);
    assert |rs| == |multiset(rs)|;
    assert |Flatten(GroupBy(rs))| == |multiset(Flatten(GroupBy(rs)))|;
    CoachingBlockPreorder();
    SortBySorted(CoachingBlockLe, ToBlocks(GroupBy(rs)));
    var blocks := Report(GroupBy(rs)).blocks;
    forall i, j | 0 <= i < j < |blocks|
      ensures blocks[i].displayOrder < blocks[j].displayOrder
        || (blocks[i].displayOrder == blocks[j].displayOrder && StrLe(blocks[i].blockId, blocks[j].blockId))
    {
      assert CoachingBlockLe(blocks[i], blocks[j]);
    }
  }

  /** A block is shown exactly if something is recommended in it: all of that, in order, under the first one's name and order. */
  lemma ReportBlocks(rs: seq<Recommendation>, id: string)
    ensures var blocks := Report(GroupBy(rs)).blocks;
      && ((exists b :: b in blocks && b.blockId == id) <==> OfBlock(rs, id) != [])
      && forall b :: b in blocks && b.blockId == id ==>
           && b.recommendations == OfBlock(rs, id) != []
           && b.displayOrder == (if OfBlock(rs, id)[0].displayOrder.Some? then OfBlock(rs, id)[0].displayOrder.value else 0)
           && b.blockName == (if OfBlock(rs, id)[0].blockName.Some? && OfBlock(rs, id)[0].blockName.value != ""
                              then OfBlock(rs, id)[0].blockName.value else id)
  {
    hide GroupBy, SortBy, Flatten, OfBlock;
    GroupByPartitions(rs);
    var groups, made, blocks := GroupBy(rs), ToBlocks(GroupBy(rs)), Report(GroupBy(rs)).blocks;
    assert forall b :: b in blocks <==> b in multiset(blocks);
    assert forall b :: b in made <==> b in multiset(made);
    forall b | b in blocks && b.blockId == id
      ensures exists i :: 0 <= i < |groups| && made[i] == b && groups[i].blockId == id && groups[i].items == OfBlock(rs, id)
    {
      var i :| 0 <= i < |made| && made[i] == b;
      ItemsOfGroup(groups, i);
    }
    if OfBlock(rs, id) != [] {
      var i := GroupWith(groups, id);
      assert made[i] in made && made[i].blockId == id;
    }
  }

  lemma {:induction false} GroupWith(groups: seq<Group>, id: string) returns (i: nat)
    requires ItemsFor(groups, id) != []
    ensures i < |groups| && groups[i].blockId == id
  {
    i := 0;
    if groups[0].blockId != id {
      i := GroupWith(groups[1..], id);
      i := i + 1;
    }
  }

  /** Enrichment keeps what is there, and takes what is missing from the block, or else from the ids. */
  lemma EnrichMeaning(r: Recommendation, b: Option<Block>, version: Version)
    ensures var e := Enrich(r, b, version);
      && e == r.(blockName := e.blockName, criterionName := e.criterionName, displayOrder := e.displayOrder,
                 versionId := e.versionId, versionNumber := e.versionNumber)
      && (r.blockName.Some? && r.blockName.value != "" ==> e.blockName == r.blockName)
      && (r.blockName.None? || r.blockName.value == "" ==>
            e.blockName == Some(if b.Some? && b.value.category != "" then b.value.category else r.blockId))
      && (r.criterionName.Some? && r.criterionName.value != "" ==> e.criterionName == r.criterionName)
      && (r.criterionName.None? || r.criterionName.value == "" ==>
            if b.Some? && b.value.HasCriterion(r.criterionId) && LastCriterion(b.value.Criteria(), r.criterionId).name != ""
            then e.criterionName == Some(LastCriterion(b.value.Criteria(), r.criterionId).name)
            else e.criterionName == Some(r.criterionId))
      && e.displayOrder == Some(if r.displayOrder.Some? then r.displayOrder.value else if b.Some? then b.value.displayOrder else 0)
      && (r.versionId.Some? ==> e.versionId == r.versionId) && (r.versionId.None? ==> e.versionId == version.id)
      && (if r.versionNumber.Some? && r.versionNumber.value != 0 then e.versionNumber == r.versionNumber
          else e.versionNumber == version.number)
  {
  }

  lemma EmptyReport(snapshot: Standard, version: Version)
    ensures Report(GroupBy(EnrichAll(snapshot, version, []))) == CoachingReport([], [], [], 0, true)
  {
    assert EnrichAll(snapshot, version, []) == [];
    assert ToBlocks([]) == [];
  }

  method GenerateRubricReport(redact: string -> string, canonical: Canonical, snapshot: Standard, version: Version)
    returns (r: Result<CoachingReport, RecommendationError>)
    requires CanonicalSchema(canonical)
    ensures canonical.status == NotApplicable ==> r == Ok(CoachingReport([], [], [], 0, true))
    ensures canonical.status == Evaluated ==> (r.Ok? <==> Linked(BlockMap(snapshot.blocks), canonical))
    ensures canonical.status == Evaluated && r.Ok? ==>
      r.value == Report(GroupBy(EnrichAll(snapshot, version, Ranked(redact, version, snapshot, canonical))))
  {
    hide GroupBy, SortBy, CoachingBlockLe, EnrichAll, CanonicalSchema, ToBlocks, Flatten;
    var built := BuildRubricRecommendations(redact, canonical, snapshot, version);
    if built.Err? {
      return Err(built.error);
    }
    var groups := GroupEnriched(snapshot, version, built.value);
    EmptyReport(snapshot, version);
    var flattened := Flatten(groups);
    var blocks := SortBy(CoachingBlockLe, ToBlocks(groups));
    r := Ok(CoachingReport(blocks, flattened, groups, |flattened|, flattened == []));
  }

  method GroupEnriched(snapshot: Standard, version: Version, rs: seq<Recommendation>) returns (groups: seq<Group>)
    ensures groups == GroupBy(EnrichAll(snapshot, version, rs))
  {
    groups := [];
    for i := 0 to |rs|
      invariant groups == GroupBy(EnrichAll(snapshot, version, rs[..i]))
    {
      var enriched := Enrich(rs[i], BlockOf(snapshot, rs[i].blockId), version);
      groups := AddToGroups(groups, enriched);
      assert EnrichAll(snapshot, version, rs[..i + 1])[..i] == EnrichAll(snapshot, version, rs[..i]);
    }
    assert rs[..|rs|] == rs;
  }
}
