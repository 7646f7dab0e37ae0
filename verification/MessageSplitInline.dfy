/** Fences inside a line: without the hypothesis that fences start lines, chunks can be left unbalanced. */
module MessageSplitInline {
  import opened Text
  import opened MessageSplit
  import opened MessageSplitTheorems

  /**
   * Letters, a fence across the effective limit, letters, and a fence at the end: for maxLen 10,
   * "aaaa```bbbbb```".
   */
  ghost predicate Inline(s: string, maxLen: nat)
    requires 10 <= maxLen
  {
    var limit := EffectiveLimit(maxLen);
    |s| == limit + maxLen && forall i | 0 <= i < |s| ::
      if limit - 1 <= i < limit + 2 || limit + maxLen - 3 <= i then s[i] == '`' else s[i] != '`' && !IsSpace(s[i])
  }

  lemma InlineFenceAt(s: string, maxLen: nat, i: int)
    requires 10 <= maxLen && Inline(s, maxLen)
    ensures FenceAt(s, i) <==> i == EffectiveLimit(maxLen) - 1 || i == EffectiveLimit(maxLen) + maxLen - 3
  {
  }

  /** A text whose only fence is at `k`. */
  lemma FencesOneAt(s: string, k: nat)
    requires FenceAt(s, k) && forall i | FenceAt(s, i) :: i == k
    ensures Fences(s) == 1
  {
    FencesCut(s, k);
    assert forall i :: FenceAt(s[..k], i) ==> FenceAt(s, i);
    FencesNone(s[..k]);
    assert forall i :: FenceAt(s[k..], i) ==> FenceAt(s, k + i);
    FencesOne(s[k..]);
  }

  lemma InlineHead(s: string, maxLen: nat)
    requires 10 <= maxLen && Inline(s, maxLen)
    ensures Fences(s[..EffectiveLimit(maxLen) + maxLen - 3]) == 1 && Fences(s[..EffectiveLimit(maxLen)]) == 0
  {
    var limit := EffectiveLimit(maxLen);
    var head := s[..limit + maxLen - 3];
    forall i | FenceAt(head, i)
      ensures i == limit - 1
    {
      InlineFenceAt(s, maxLen, i);
    }
    FencesOneAt(head, limit - 1);
    forall i
      ensures !FenceAt(s[..limit], i)
    {
      InlineFenceAt(s, maxLen, i);
    }
    FencesNone(s[..limit]);
  }

  lemma InlineTail(s: string, maxLen: nat)
    requires 10 <= maxLen && Inline(s, maxLen)
    ensures Fences(s[EffectiveLimit(maxLen)..]) == 1 && Fences(s[EffectiveLimit(maxLen) + maxLen - 3..]) == 1
  {
    var limit := EffectiveLimit(maxLen);
    var tail, last := s[limit..], s[limit + maxLen - 3..];
    forall i | FenceAt(tail, i)
      ensures i == maxLen - 3
    {
      InlineFenceAt(s, maxLen, limit + i);
    }
    FencesOneAt(tail, maxLen - 3);
    FencesOne(last);
  }

  lemma InlineBalanced(s: string, maxLen: nat)
    requires 10 <= maxLen && Inline(s, maxLen)
    ensures Fences(s) == 2 && !LineStart(s)
  {
    var limit := EffectiveLimit(maxLen);
    InlineHead(s, maxLen);
    InlineTail(s, maxLen);
    InlineFenceAt(s, maxLen, limit + maxLen - 4);
    InlineFenceAt(s, maxLen, limit + maxLen - 5);
    FencesCut(s, limit + maxLen - 3);
    InlineFenceAt(s, maxLen, limit - 1);
    BeforeFence(s, limit - 1);
  }

  lemma InlineCut(s: string, maxLen: nat)
    requires 10 <= maxLen && Inline(s, maxLen)
    ensures HeadersFit(s, maxLen) && Splittable(s, maxLen)
    ensures NextCut(s, maxLen) == Cut(EffectiveLimit(maxLen), false, "")
  {
    forall u | FenceAt(s, u)
      ensures |Header(s, u)| < maxLen - 6
    {
      HeaderShape(s, u);
      assert IndexFrom(s, u, '\n') == -1;
    }
    EndsAtLimit(s, maxLen);
    InlineHead(s, maxLen);
  }

  lemma InlineRest(s: string, maxLen: nat)
    requires 10 <= maxLen && Inline(s, maxLen)
    ensures TrimSpace(s[EffectiveLimit(maxLen)..]) == s[EffectiveLimit(maxLen)..]
    ensures |s[EffectiveLimit(maxLen)..]| == maxLen
  {
    TrimSpaceFixed(s[EffectiveLimit(maxLen)..]);
  }

  lemma SplitOnce(content: string, maxLen: nat, end: nat)
    requires 1 <= maxLen < |content| && Splittable(content, maxLen)
    requires NextCut(content, maxLen) == Cut(end, false, "") && end < |content|
    requires TrimSpace(content[end..]) == content[end..] && |content[end..]| <= maxLen
    ensures Terminates(content, maxLen, 2)
    ensures Split(content, maxLen, 2) == [Piece(content[..end], false, ""), Piece(content[end..], false, "")]
  {
    assert AfterTurn(content, maxLen) == content[end..];
    assert Terminates(content[end..], maxLen, 1);
    assert Split(content[end..], maxLen, 1) == [Piece(content[end..], false, "")];
  }

  /**
   * The hypothesis on fences cannot be dropped, whatever the limit: a balanced text with fences inside a
   * line can be cut through a fence, and then a chunk is left unbalanced.
   */
  lemma InlineFenceUnbalanced(s: string, maxLen: nat)
    requires 10 <= maxLen && Inline(s, maxLen)
    ensures Balanced(s) && HeadersFit(s, maxLen) && !LineStart(s) && Terminates(s, maxLen, 2)
    ensures var pieces := Split(s, maxLen, 2); |pieces| == 2 && !Balanced(pieces[1].text)
  {
    InlineBalanced(s, maxLen);
    InlineCut(s, maxLen);
    InlineTail(s, maxLen);
    InlineRest(s, maxLen);
    SplitOnce(s, maxLen, EffectiveLimit(maxLen));
  }
}
