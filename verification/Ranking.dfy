/** The two sort keys that rank rubric blocks and recommendations by urgency. */
module Ranking {
  import opened Text

  /** `(-gap, -penalty_total, display_order, rubric_block_id)`. */
  datatype BlockRank = BlockRank(gap: int, penalty: int, order: int, block: string)

  predicate BlockRankLe(a: BlockRank, b: BlockRank) {
    if a.gap != b.gap then a.gap > b.gap
    else if a.penalty != b.penalty then a.penalty > b.penalty
    else if a.order != b.order then a.order < b.order
    else StrLe(a.block, b.block)
  }

  /** A block's rank, then `(criterion_id, transcript_sequence_number)`. */
  datatype ItemRank = ItemRank(block: BlockRank, criterion: string, sequence: int)

  predicate ItemRankLe(a: ItemRank, b: ItemRank) {
    if a.block != b.block then BlockRankLe(a.block, b.block)
    else if a.criterion != b.criterion then StrLe(a.criterion, b.criterion)
    else a.sequence <= b.sequence
  }

  lemma BlockRankTotal(a: BlockRank, b: BlockRank)
    ensures BlockRankLe(a, b) || BlockRankLe(b, a)
  {
    StrLeTotal(a.block, b.block);
  }

  lemma BlockRankAntisymmetric(a: BlockRank, b: BlockRank)
    requires BlockRankLe(a, b) && BlockRankLe(b, a)
    ensures a == b
  {
    if a.gap == b.gap && a.penalty == b.penalty && a.order == b.order {
      StrLeAntisymmetric(a.block, b.block);
    }
  }

  lemma BlockRankTransitive(a: BlockRank, b: BlockRank, c: BlockRank)
    requires BlockRankLe(a, b) && BlockRankLe(b, c)
    ensures BlockRankLe(a, c)
  {
    if StrLe(a.block, b.block) && StrLe(b.block, c.block) {
      StrLeTransitive(a.block, b.block, c.block);
    }
  }

  lemma ItemRankTotal(a: ItemRank, b: ItemRank)
    ensures ItemRankLe(a, b) || ItemRankLe(b, a)
  {
    BlockRankTotal(a.block, b.block);
    StrLeTotal(a.criterion, b.criterion);
  }

  lemma ItemRankTransitive(a: ItemRank, b: ItemRank, c: ItemRank)
    requires ItemRankLe(a, b) && ItemRankLe(b, c)
    ensures ItemRankLe(a, c)
  {
    if a.block != b.block && b.block != c.block {
      BlockRankTransitive(a.block, b.block, c.block);
      if a.block == c.block {
        BlockRankAntisymmetric(a.block, b.block);
      }
    } else if a.block == b.block && b.block == c.block && a.criterion != b.criterion && b.criterion != c.criterion {
      StrLeTransitive(a.criterion, b.criterion, c.criterion);
      if a.criterion == c.criterion {
        StrLeAntisymmetric(a.criterion, b.criterion);
      }
    }
  }
}
