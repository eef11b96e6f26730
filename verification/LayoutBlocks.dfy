/** Which text lines the blocks of a page own. */
module LayoutBlocks {
  import opened LayoutModel

  /** Every line of every block, counted. */
  ghost function OwnedLines(blocks: seq<LayoutBlock>): multiset<int> {
    if blocks == [] then multiset{} else OwnedLines(blocks[..|blocks| - 1]) + multiset(blocks[|blocks| - 1].lines)
  }

  ghost predicate Owns(blocks: seq<LayoutBlock>, line: int) {
    exists i | 0 <= i < |blocks| :: line in blocks[i].lines
  }

  lemma {:induction false} OwnedIffCounted(blocks: seq<LayoutBlock>, line: int)
    ensures Owns(blocks, line) <==> OwnedLines(blocks)[line] > 0
  {
    if blocks != [] {
      var front, last := blocks[..|blocks| - 1], blocks[|blocks| - 1];
      OwnedIffCounted(front, line);
      if Owns(blocks, line) && line !in last.lines {
        var i :| 0 <= i < |blocks| && line in blocks[i].lines;
        assert front[i] == blocks[i];
      }
      if Owns(front, line) {
        var i :| 0 <= i < |front| && line in front[i].lines;
        assert blocks[i] == front[i];
      }
    }
  }

  /** The line is in one block, once, and in no other. */
  ghost predicate InExactlyOne(blocks: seq<LayoutBlock>, line: int) {
    exists i | 0 <= i < |blocks| :: OnlyIn(blocks, line, i)
  }

  ghost predicate OnlyIn(blocks: seq<LayoutBlock>, line: int, i: nat)
    requires i < |blocks|
  {
    && multiset(blocks[i].lines)[line] == 1
    && forall j | 0 <= j < |blocks| && j != i :: line !in blocks[j].lines
  }

  lemma OnlyInLonger(blocks: seq<LayoutBlock>, line: int, i: nat)
    requires blocks != [] && i < |blocks| - 1 && OnlyIn(blocks[..|blocks| - 1], line, i)
    requires line !in blocks[|blocks| - 1].lines
    ensures OnlyIn(blocks, line, i)
  {
    assert forall j | 0 <= j < |blocks| - 1 :: blocks[..|blocks| - 1][j] == blocks[j];
  }

  lemma OnlyInLast(blocks: seq<LayoutBlock>, line: int)
    requires blocks != [] && !Owns(blocks[..|blocks| - 1], line)
    requires multiset(blocks[|blocks| - 1].lines)[line] == 1
    ensures OnlyIn(blocks, line, |blocks| - 1)
  {
    assert forall j | 0 <= j < |blocks| - 1 :: blocks[..|blocks| - 1][j] == blocks[j];
  }

  lemma {:induction false} CountedOnce(blocks: seq<LayoutBlock>, line: int)
    requires OwnedLines(blocks)[line] == 1
    ensures InExactlyOne(blocks, line)
  {
    var last := |blocks| - 1;
    var front := blocks[..last];
    OwnedIffCounted(front, line);
    if line in blocks[last].lines {
      OnlyInLast(blocks, line);
    } else {
      CountedOnce(front, line);
      var i :| 0 <= i < |front| && OnlyIn(front, line, i);
      OnlyInLonger(blocks, line, i);
    }
  }

  lemma OwnedAppend(blocks: seq<LayoutBlock>, b: LayoutBlock)
    ensures OwnedLines(blocks + [b]) == OwnedLines(blocks) + multiset(b.lines)
  {
    assert (blocks + [b])[..|blocks|] == blocks;
  }

  /** Giving a block more lines adds just those. */
  lemma {:induction false} OwnedUpdate(blocks: seq<LayoutBlock>, i: nat, b: LayoutBlock, more: multiset<int>)
    requires i < |blocks| && multiset(b.lines) == multiset(blocks[i].lines) + more
    ensures OwnedLines(blocks[i := b]) == OwnedLines(blocks) + more
  {
    var last := |blocks| - 1;
    if i == last {
      assert blocks[i := b][..last] == blocks[..last];
    } else {
      assert blocks[..last][i] == blocks[i];
      OwnedUpdate(blocks[..last], i, b, more);
      assert blocks[i := b][..last] == blocks[..last][i := b];
      assert blocks[i := b][last] == blocks[last];
    }
  }
}
