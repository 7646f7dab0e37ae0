/** Where a chunk ends when its natural end would leave a code block open that cannot be kept whole. */
module MessageSplitCuts {
  import opened Text
  import opened MessageSplit
  import opened MessageSplitTheorems

  /** What is kept back for closing a block: a tenth of maxLen, at least 50 characters, but at most half. */
  lemma EffectiveLimitSize(maxLen: nat)
    requires maxLen >= 1
    ensures EffectiveLimit(maxLen) ==
            if maxLen >= 500 then maxLen - maxLen / 10
            else if maxLen >= 100 then maxLen - 50
            else maxLen - maxLen / 2
  {
  }

  /** The natural end leaves the block of the fence at `u` open, and no closing fence is within maxLen. */
  ghost predicate CutsBlock(content: string, maxLen: nat, u: int)
    requires 1 <= maxLen <= |content|
  {
    var end := NaturalEnd(content, maxLen);
    u >= 0 && u == LastUnclosed(content[..end]) && forall i | FenceAt(content, i) && end <= i :: maxLen < i + 3
  }

  /** The line of the fence at `u` ends at `h`; on the last line of a text, just behind the fence. */
  ghost predicate LineEnds(content: string, u: nat, h: nat) {
    u <= h <= |content| && (forall k | u <= k < h :: content[k] != '\n')
    && if h < |content| && content[h] == '\n' then true
       else h == u + 3 && forall k | h <= k < |content| :: content[k] != '\n'
  }

  lemma LineEndIsHeaderEnd(content: string, u: nat, h: nat)
    requires FenceAt(content, u) && LineEnds(content, u, h)
    ensures HeaderEnd(content, u) == h && Header(content, u) == TrimSpace(content[u..h])
  {
    if h < |content| && content[h] == '\n' {
      HeaderEndIsFirst(content, u, h);
      IndexFromIsFirst(content, u, '\n', h);
    }
  }

  lemma CutOfBlock(content: string, maxLen: nat, u: nat, h: nat)
    requires 5 <= maxLen < |content| && CutsBlock(content, maxLen, u) && LineEnds(content, u, h)
    ensures FenceAt(content, u) && HeaderEnd(content, u) == h && Header(content, u) == TrimSpace(content[u..h])
    ensures NextCut(content, maxLen) == CutInBlock(content, maxLen, NaturalEnd(content, maxLen), u)
  {
    var end := NaturalEnd(content, maxLen);
    CutCases(content, maxLen, end, u);
    LineEndIsHeaderEnd(content, u, h);
    var closing := NextClosing(content, end);
    if closing > 0 {
      assert FenceAt(content, closing - 3) && maxLen < closing;
    }
  }

  // ----- cuts through a block

  /**
   * A block with more than 20 characters behind its opening line is cut at the last line break that leaves
   * room for the closing fence, if there is one behind that line.
   */
  lemma CutsAtLineBreak(content: string, maxLen: nat, u: nat, h: nat, i: nat)
    requires 5 <= maxLen < |content| && CutsBlock(content, maxLen, u) && LineEnds(content, u, h)
    requires NaturalEnd(content, maxLen) > h + 20
    requires h < i < maxLen - 5 && maxLen - 205 <= i && content[i] == '\n'
    ensures var cut := NextCut(content, maxLen);
            && cut.reopen && cut.header == TrimSpace(content[u..h])
            && i <= cut.end < maxLen - 5 && content[cut.end] == '\n'
  {
    CutOfBlock(content, maxLen, u, h);
    LastWithinIsLast(content[..maxLen - 5], 200, IsNewline, i);
  }

  /** Without such a line break it is cut where a line break and the closing fence still fit. */
  lemma CutsAtRoom(content: string, maxLen: nat, u: nat, h: nat)
    requires 5 <= maxLen < |content| && CutsBlock(content, maxLen, u) && LineEnds(content, u, h)
    requires NaturalEnd(content, maxLen) > h + 20
    requires forall k | h < k < maxLen - 5 && maxLen - 205 <= k :: content[k] != '\n'
    ensures NextCut(content, maxLen) == Cut(maxLen - 5, true, TrimSpace(content[u..h]))
  {
    CutOfBlock(content, maxLen, u, h);
    LastWithinBounds(content[..maxLen - 5], 200, IsNewline);
  }

  /** Either way the chunk is no shorter than its natural end would make it. */
  lemma CutIsLater(content: string, maxLen: nat, u: nat, h: nat)
    requires 10 <= maxLen < |content| && CutsBlock(content, maxLen, u) && LineEnds(content, u, h)
    requires NaturalEnd(content, maxLen) > h + 20
    ensures NaturalEnd(content, maxLen) <= NextCut(content, maxLen).end <= maxLen - 5
  {
    CutOfBlock(content, maxLen, u, h);
    BetterIsLater(content, maxLen);
  }

  /** What is sent for such a cut: the text up to it without whitespace at its end, a line break and a fence. */
  lemma ReopenedChunk(content: string, cut: Cut) returns (kept: string)
    requires cut.reopen && cut.end <= |content|
    ensures Chunk(content, cut) == kept + "\n```" && kept <= content[..cut.end]
    ensures AllSpace(content[|kept|..cut.end]) && (kept != "" ==> !IsTrailing(kept[|kept| - 1]))
  {
    kept := TrimRight(content[..cut.end]);
    assert content[|kept|..cut.end] == content[..cut.end][|kept|..];
  }

  /** What is left after a cut has no whitespace at its ends. */
  lemma RestIsTrimmed(content: string, cut: Cut)
    requires cut.end <= |content|
    ensures Trimmed(Rest(content, cut))
  {
    TrimSpaceTrims(if cut.reopen then cut.header + "\n" + content[cut.end..] else content[cut.end..]);
  }

  // ----- cuts before a block

  /**
   * A block with less behind its opening line is left to the next chunk: this one ends at the last line break
   * before it.
   */
  lemma EndsBeforeBlock(content: string, maxLen: nat, u: nat, h: nat, i: nat)
    requires 5 <= maxLen < |content| && CutsBlock(content, maxLen, u) && LineEnds(content, u, h)
    requires NaturalEnd(content, maxLen) <= h + 20
    requires 0 < i < u && u - 200 <= i && content[i] == '\n'
    ensures var cut := NextCut(content, maxLen);
            !cut.reopen && i <= cut.end < u && content[cut.end] == '\n'
  {
    CutOfBlock(content, maxLen, u, h);
    LastWithinIsLast(content[..u], 200, IsNewline, i);
  }

  /** Failing that, the last blank before the block does. */
  lemma EndsAtBlankBeforeBlock(content: string, maxLen: nat, u: nat, h: nat, i: nat)
    requires 5 <= maxLen < |content| && CutsBlock(content, maxLen, u) && LineEnds(content, u, h)
    requires NaturalEnd(content, maxLen) <= h + 20
    requires 0 < i < u && u - 100 <= i && (content[i] == ' ' || content[i] == '\t')
    requires forall k | 0 < k < u && u - 200 <= k :: content[k] != '\n'
    ensures var cut := NextCut(content, maxLen);
            !cut.reopen && i <= cut.end < u && (content[cut.end] == ' ' || content[cut.end] == '\t')
  {
    CutOfBlock(content, maxLen, u, h);
    LastWithinIsLast(content[..u], 100, IsBlank, i);
  }

  /**
   * With neither, the chunk ends at the block if that is more than 20 characters into the text; otherwise
   * the block is cut through after all.
   */
  lemma EndsAtBlock(content: string, maxLen: nat, u: nat, h: nat)
    requires 5 <= maxLen < |content| && CutsBlock(content, maxLen, u) && LineEnds(content, u, h)
    requires NaturalEnd(content, maxLen) <= h + 20
    requires forall k | 0 < k < u && u - 200 <= k :: content[k] != '\n'
    requires forall k | 0 < k < u && u - 100 <= k :: content[k] != ' ' && content[k] != '\t'
    ensures NextCut(content, maxLen) ==
            if u > 20 then Cut(u, false, "") else Cut(maxLen - 5, true, TrimSpace(content[u..h]))
  {
    CutOfBlock(content, maxLen, u, h);
    LastWithinBounds(content[..u], 200, IsNewline);
    LastWithinBounds(content[..u], 100, IsBlank);
  }
}
