/** For which texts the splitting loop ends, in terms of the text alone. */
module MessageSplitEnding {
  import opened Text
  import opened MessageSplit
  import opened MessageSplitTheorems
  import opened MessageSplitTermination

  /**
   * A block the loop cannot get past: balanced text, then a fence line of at least maxLen-6 characters that
   * opens a block longer than maxLen, with no other fence within maxLen of its start.
   */
  ghost predicate BlockedAt(content: string, maxLen: nat, u: nat) {
    u <= |content| && Balanced(content[..u]) && Stuck(content[u..], maxLen)
  }

  ghost predicate Blocked(content: string, maxLen: nat) {
    exists u: nat :: BlockedAt(content, maxLen, u)
  }

  ghost predicate Ends(content: string, maxLen: nat)
    requires 5 <= maxLen
  {
    exists n: nat :: Remaining(content, maxLen, n) == []
  }

  lemma SuffixFences(content: string, u: nat, i: int)
    requires u <= |content| && u <= i
    ensures FenceAt(content, i) <==> FenceAt(content[u..], i - u)
  {
  }

  lemma SuffixHeader(content: string, u: nat)
    requires u <= |content| && FenceAt(content[u..], 0)
    ensures FenceAt(content, u) && Header(content, u) == Header(content[u..], 0)
  {
    var a, t := content[..u], content[u..];
    assert a + t == content;
    HeaderOfSuffix(a, t, 0);
  }

  /** What being blocked at `u` says about the fences of the text. */
  lemma BlockShape(content: string, maxLen: nat, u: nat)
    requires BlockedAt(content, maxLen, u)
    ensures FenceAt(content, u) && maxLen - 6 <= |Header(content, u)| && maxLen < |content| - u
    ensures forall i | u < i <= u + maxLen - 3 :: !FenceAt(content, i)
  {
    SuffixHeader(content, u);
    forall i | u < i <= u + maxLen - 3
      ensures !FenceAt(content, i)
    {
      SuffixFences(content, u, i);
    }
  }

  lemma SuffixTrimmed(content: string, u: nat)
    requires Trimmed(content) && FenceAt(content, u)
    ensures Trimmed(content[u..]) && FenceAt(content[u..], 0)
  {
    var s := content[u..];
    assert s[|s| - 1] == content[|content| - 1];
  }

  lemma BlockFrom(content: string, maxLen: nat, u: nat)
    requires 5 <= maxLen && Trimmed(content) && FenceAt(content, u) && Balanced(content[..u])
    requires maxLen - 6 <= |Header(content, u)| && maxLen < |content| - u
    requires forall i | u < i <= u + maxLen - 3 :: !FenceAt(content, i)
    ensures BlockedAt(content, maxLen, u)
  {
    SuffixTrimmed(content, u);
    SuffixHeader(content, u);
    forall i | 0 < i <= maxLen - 3
      ensures !FenceAt(content[u..], i)
    {
      SuffixFences(content, u, u + i);
    }
  }

  /** A trimmed text is blocked exactly by such a fence. */
  lemma BlockedAtIff(content: string, maxLen: nat, u: nat)
    requires 5 <= maxLen && Trimmed(content)
    ensures BlockedAt(content, maxLen, u) <==>
            && FenceAt(content, u) && Balanced(content[..u])
            && maxLen - 6 <= |Header(content, u)| && maxLen < |content| - u
            && forall i | u < i <= u + maxLen - 3 :: !FenceAt(content, i)
  {
    if BlockedAt(content, maxLen, u) {
      BlockShape(content, maxLen, u);
    } else if FenceAt(content, u) && Balanced(content[..u]) && maxLen - 6 <= |Header(content, u)|
              && maxLen < |content| - u && forall i | u < i <= u + maxLen - 3 :: !FenceAt(content, i) {
      BlockFrom(content, maxLen, u);
      assert false;
    }
  }

  // ----- a cut never passes the block

  /** A chunk that would end behind the fence line's start leaves its block open. */
  lemma OpenPast(content: string, maxLen: nat, u: nat, end: nat)
    requires LineStart(content) && BlockedAt(content, maxLen, u)
    requires u < end <= maxLen && end <= |content| && CleanAt(content, end)
    ensures LastUnclosed(content[..end]) == u
  {
    BlockShape(content, maxLen, u);
    var s := content[..end];
    assert u + 3 <= end;
    FencesCut(s, u);
    assert s[..u] == content[..u];
    OnlyFence(content, maxLen, u, end);
    NoneAfterUnclosed(s);
    var v := LastUnclosed(s);
    assert FenceAt(content, v);
    assert FenceAt(s, u);
    FenceApart(content, u);
  }

  lemma OnlyFence(content: string, maxLen: nat, u: nat, end: nat)
    requires BlockedAt(content, maxLen, u) && u + 3 <= end <= maxLen && end <= |content|
    ensures Fences(content[..end][u..]) == 1
  {
    BlockShape(content, maxLen, u);
    var s := content[..end][u..];
    forall i | FenceAt(s, i)
      ensures i == 0
    {
      FenceInSlice(content, u, end, i);
    }
    FencesOne(s);
  }

  /** A block with a long fence line is split off before it starts. */
  lemma LongFenceCut(content: string, maxLen: nat, u: nat, end: nat)
    requires 5 <= maxLen < |content| && LineStart(content) && FenceAt(content, u) && 1 < u
    requires end <= HeaderEnd(content, u) + 20
    ensures CutInBlock(content, maxLen, end, u).end <= u
  {
    var j := BreakBeforeFence(content, u);
  }

  /** When the chunk would end in the blocking block, it ends before it. */
  lemma CutBeforeBlock(content: string, maxLen: nat, u: nat)
    requires 10 <= maxLen < |content| && LineStart(content) && Trimmed(content)
    requires BlockedAt(content, maxLen, u) && 0 < u < NaturalEnd(content, maxLen)
    ensures NextCut(content, maxLen).end <= u
  {
    var end := NaturalEnd(content, maxLen);
    BlockShape(content, maxLen, u);
    assert LastUnclosed(content[..end]) == u by {
      NaturalEndClean(content, maxLen);
      OpenPast(content, maxLen, u, end);
    }
    HeaderShape(content, u);
    NoFenceAtOne(content);
    LongFenceCut(content, maxLen, u, end);
    var closing := NextClosing(content, end);
    assert closing > 0 ==> FenceAt(content, closing - 3);
  }

  /** When it would end earlier, extending or reopening an earlier block does not reach the blocking one. */
  lemma CutShortOfBlock(content: string, maxLen: nat, u: nat)
    requires 10 <= maxLen < |content| && LineStart(content)
    requires BlockedAt(content, maxLen, u) && NaturalEnd(content, maxLen) <= u
    ensures NextCut(content, maxLen).end <= u
  {
    var end := NaturalEnd(content, maxLen);
    BlockShape(content, maxLen, u);
    NaturalEndClean(content, maxLen);
    var v := LastUnclosed(content[..end]);
    if v >= 0 {
      assert FenceAt(content, v);
      NextClosingIsFirst(content, end, u);
      var closing := NextClosing(content, end);
      if closing <= maxLen {
        ClosedBefore(content, maxLen, u, end);
      } else {
        BlockCutShort(content, maxLen, end, v);
      }
    }
  }

  /** A cut for an open block is no later than the block itself or the room for its closing fence. */
  lemma BlockCutShort(content: string, maxLen: nat, end: nat, v: nat)
    requires 10 <= maxLen < |content| && LineStart(content) && FenceAt(content, v)
    ensures CutInBlock(content, maxLen, end, v).end <= Max(v, maxLen - 5)
  {
    var j := BreakBeforeFence(content, v);
  }

  /** A block left open before the blocking one is closed before it. */
  lemma ClosedBefore(content: string, maxLen: nat, u: nat, end: nat)
    requires LineStart(content) && BlockedAt(content, maxLen, u) && end <= u && CleanAt(content, end)
    requires !Balanced(content[..end])
    ensures NextClosing(content, end) <= u
  {
    BlockShape(content, maxLen, u);
    var closing := NextClosing(content, end);
    NextClosingIsFirst(content, end, u);
    FenceApart(content, u);
    if closing == u + 3 {
      forall i: int | end <= i < u - 2
        ensures !FenceAt(content, i)
      {
        if FenceAt(content, i) { NextClosingIsFirst(content, end, i); }
      }
      FencesExtend(content, end, u);
    }
  }

  lemma CutWithinBlock(content: string, maxLen: nat, u: nat)
    requires 10 <= maxLen < |content| && LineStart(content) && Trimmed(content)
    requires BlockedAt(content, maxLen, u) && 0 < u
    ensures NextCut(content, maxLen).end <= u
  {
    if u < NaturalEnd(content, maxLen) {
      CutBeforeBlock(content, maxLen, u);
    } else {
      CutShortOfBlock(content, maxLen, u);
    }
  }

  // ----- one turn neither makes nor breaks a block

  /** The text left by a plain cut: what follows the cut, without the whitespace in front. */
  lemma PlainRest(content: string, k: nat) returns (lead: string)
    requires k <= |content| && Trimmed(content)
    ensures k + |lead| <= |content| && lead == content[k..k + |lead|]
    ensures AllSpace(lead) && TrimSpace(content[k..]) == content[k + |lead|..]
  {
    var s := content[k..];
    assert s != [] ==> s[|s| - 1] == content[|content| - 1];
    assert TrimRightBy(s, IsSpace) == s;
    lead := TrimLeftParts(s);
    assert s[..|lead|] == lead && s[|lead|..] == TrimSpace(s);
  }

  lemma SliceTwice(s: string, k: nat, u: nat)
    requires k <= u <= |s|
    ensures s[..u] == s[..k] + s[k..u] && s[k..][..u - k] == s[k..u] && s[k..][u - k..] == s[u..]
  {
  }

  /** The fences of two adjacent texts add up when none lies across the seam. */
  lemma FencesAdd(a: string, b: string, s: string)
    requires s == a + b && CleanAt(s, |a|)
    ensures Fences(s) == Fences(a) + Fences(b)
  {
    FencesCut(s, |a|);
    assert s[..|a|] == a && s[|a|..] == b;
  }

  lemma FencesBetween(content: string, k: nat, u: nat)
    requires k <= u <= |content| && CleanAt(content, k)
    ensures Fences(content[..u]) == Fences(content[..k]) + Fences(content[k..u])
  {
    SliceTwice(content, k, u);
    assert forall i :: FenceAt(content[..u], i) ==> FenceAt(content, i);
    FencesAdd(content[..k], content[k..u], content[..u]);
  }

  /** Removing balanced text from the front keeps what the text is blocked by. */
  lemma BlockedBehind(content: string, maxLen: nat, k: nat, u: nat)
    requires k <= u <= |content| && CleanAt(content, k) && Balanced(content[..k])
    ensures BlockedAt(content, maxLen, u) <==> BlockedAt(content[k..], maxLen, u - k)
  {
    SliceTwice(content, k, u);
    FencesBetween(content, k, u);
    SameBlock(content, u, content[k..], u - k, maxLen);
  }

  /** Whether a text is blocked depends on what comes after the fence, and on the parity before it. */
  lemma SameBlock(a: string, u: nat, b: string, v: nat, maxLen: nat)
    requires u <= |a| && v <= |b| && a[u..] == b[v..] && (Balanced(a[..u]) <==> Balanced(b[..v]))
    ensures BlockedAt(a, maxLen, u) <==> BlockedAt(b, maxLen, v)
  {
  }

  lemma FrontBalanced(content: string, k: nat, lead: string)
    requires k <= |content| && CleanAt(content, k) && Balanced(content[..k])
    requires AllSpace(lead) && k + |lead| <= |content| && lead == content[k..k + |lead|]
    ensures Balanced(content[..k + |lead|]) && CleanAt(content, k + |lead|)
  {
    var m := k + |lead|;
    FencesBetween(content, k, m);
    FencesNone(lead);
    forall i | k <= i < m
      ensures content[i] != '`'
    {
      assert content[i] == lead[i - k];
    }
  }

  lemma PlainTurnShape(content: string, maxLen: nat) returns (m: nat)
    requires 10 <= maxLen < |content| && LineStart(content) && Trimmed(content) && !NextCut(content, maxLen).reopen
    ensures m <= |content| && CleanAt(content, m) && Balanced(content[..m])
    ensures AfterTurn(content, maxLen) == content[m..]
    ensures forall u | FenceAt(content, u) && NextCut(content, maxLen).end <= u :: m <= u
  {
    var k := NextCut(content, maxLen).end;
    CutParity(content, maxLen);
    var lead := PlainRest(content, k);
    m := k + |lead|;
    FrontBalanced(content, k, lead);
    PastLead(content, k, lead);
  }

  lemma PlainTurnKeeps(content: string, maxLen: nat)
    requires 10 <= maxLen < |content| && LineStart(content) && Trimmed(content)
    requires !NextCut(content, maxLen).reopen && !Stuck(content, maxLen)
    ensures Blocked(content, maxLen) <==> Blocked(AfterTurn(content, maxLen), maxLen)
  {
    var m := PlainTurnShape(content, maxLen);
    if u: nat :| BlockedAt(content, maxLen, u) {
      NotAtStart(content, maxLen, u);
      CutWithinBlock(content, maxLen, u);
      BlockShape(content, maxLen, u);
      BlockedBehind(content, maxLen, m, u);
    }
    if v: nat :| BlockedAt(content[m..], maxLen, v) {
      BlockedBehind(content, maxLen, m, m + v);
    }
  }

  lemma NotAtStart(content: string, maxLen: nat, u: nat)
    requires BlockedAt(content, maxLen, u) && !Stuck(content, maxLen)
    ensures u > 0
  {
    assert content[0..] == content;
  }

  /** A fence after the cut is after the whitespace that follows the cut. */
  lemma PastLead(content: string, k: nat, lead: string)
    requires k + |lead| <= |content| && lead == content[k..k + |lead|] && AllSpace(lead)
    ensures forall u | FenceAt(content, u) && k <= u :: k + |lead| <= u
  {
    forall i | k <= i < k + |lead|
      ensures content[i] != '`'
    {
      assert content[i] == lead[i - k];
    }
  }

  /** The part of a reopened text that ends after `n` characters of the old one. */
  lemma ReopenedParts(h: string, t: string, n: nat)
    requires n <= |t|
    ensures var rest, v := h + "\n" + t, |h| + 1 + n; rest[..v] == h + "\n" + t[..n] && rest[v..] == t[n..]
  {
  }

  /** Swapping an odd front for a header keeps the parity. */
  lemma ParityTrade(front: string, mid: string, cut: string, h: string, swapped: string)
    requires cut == front + mid && CleanAt(cut, |front|) && swapped == h + "\n" + mid
    requires !Balanced(front) && Fences(h) == 1
    ensures Balanced(cut) <==> Balanced(swapped)
  {
    FencesAdd(front, mid, cut);
    ReopenedFences(h, mid);
  }

  /** Reopening trades an odd number of fences in front of the cut for the header's one. */
  lemma ReopenedSame(content: string, maxLen: nat, h: string, k: nat, u: nat, rest: string, v: nat)
    requires k <= u <= |content| && CleanAt(content, k) && !Balanced(content[..k]) && Fences(h) == 1
    requires rest == h + "\n" + content[k..] && v == |h| + 1 + u - k
    ensures BlockedAt(content, maxLen, u) <==> BlockedAt(rest, maxLen, v)
  {
    SliceTwice(content, k, u);
    ReopenedParts(h, content[k..], u - k);
    var cut, swapped := content[..u], rest[..v];
    assert forall i :: FenceAt(cut, i) ==> FenceAt(content, i);
    ParityTrade(content[..k], content[k..u], cut, h, swapped);
    SameBlock(content, u, rest, v, maxLen);
  }

  lemma ReopenTurnShape(content: string, maxLen: nat) returns (o: nat)
    requires 10 <= maxLen < |content| && LineStart(content) && Trimmed(content) && NextCut(content, maxLen).reopen
    ensures var k := NextCut(content, maxLen).end;
            && k <= |content| && CleanAt(content, k) && !Balanced(content[..k])
            && FenceAt(content, o) && Fences(Header(content, o)) == 1
            && NextCut(content, maxLen) == Cut(k, true, Header(content, o))
            && AfterTurn(content, maxLen) == Header(content, o) + "\n" + content[k..]
  {
    o := ReopenShape(content, maxLen);
    CutParity(content, maxLen);
    ReopenShrinksIff(content, maxLen);
    HeaderOneFence(content, o);
  }

  lemma ReopenTurnKeeps(content: string, maxLen: nat)
    requires 10 <= maxLen < |content| && LineStart(content) && Trimmed(content)
    requires NextCut(content, maxLen).reopen && !Stuck(content, maxLen)
    ensures Blocked(content, maxLen) <==> Blocked(AfterTurn(content, maxLen), maxLen)
  {
    var o := ReopenTurnShape(content, maxLen);
    var h, k, rest := Header(content, o), NextCut(content, maxLen).end, AfterTurn(content, maxLen);
    if u: nat :| BlockedAt(content, maxLen, u) {
      NotAtStart(content, maxLen, u);
      CutWithinBlock(content, maxLen, u);
      ReopenedSame(content, maxLen, h, k, u, rest, |h| + 1 + u - k);
    }
    if v: nat :| BlockedAt(rest, maxLen, v) {
      HeaderRoomUnlessStuck(content, maxLen);
      CutInRange(content, maxLen);
      BlockPastHeader(content, maxLen, o, content[k..], v);
      ReopenedSame(content, maxLen, h, k, v - |h| - 1 + k, rest, v);
    }
  }

  /** The header of a reopened text is the header it was reopened with. */
  lemma ReopenedHeader(content: string, o: nat, t: string)
    requires FenceAt(content, o)
    ensures var h := Header(content, o); FenceAt(h + "\n" + t, 0) && Header(h + "\n" + t, 0) == h
  {
    var a, s := content[..o], content[o..];
    assert a + s == content && FenceAt(s, 0);
    HeaderOfSuffix(a, s, 0);
    GrownHeader(s, t);
  }

  /** A header that leaves room for progress is too short to block the text it leads. */
  lemma BlockPastHeader(content: string, maxLen: nat, o: nat, t: string, v: nat)
    requires LineStart(content) && FenceAt(content, o) && |Header(content, o)| + 6 < maxLen
    requires BlockedAt(Header(content, o) + "\n" + t, maxLen, v)
    ensures |Header(content, o)| < v
  {
    var h := Header(content, o);
    BlockShape(h + "\n" + t, maxLen, v);
    HeaderOneFence(content, o);
    FenceBehindHeader(h, t, v);
    ReopenedHeader(content, o, t);
  }

  /** One turn of the loop on a text that is not stuck neither makes nor breaks a block. */
  lemma TurnKeeps(content: string, maxLen: nat)
    requires 10 <= maxLen < |content| && LineStart(content) && Trimmed(content) && !Stuck(content, maxLen)
    ensures Blocked(content, maxLen) <==> Blocked(AfterTurn(content, maxLen), maxLen)
  {
    if NextCut(content, maxLen).reopen {
      ReopenTurnKeeps(content, maxLen);
    } else {
      PlainTurnKeeps(content, maxLen);
    }
  }

  // ----- the whole loop

  /** The loop ends exactly when it ends after one more turn. */
  lemma EndsAfterTurn(content: string, maxLen: nat)
    requires 5 <= maxLen
    ensures Ends(content, maxLen) <==> Ends(Turn(maxLen)(content), maxLen)
  {
    var rest := Turn(maxLen)(content);
    if n: nat :| Remaining(content, maxLen, n) == [] {
      if n == 0 {
        assert Remaining(rest, maxLen, 0) == [];
      } else {
        assert Remaining(rest, maxLen, n - 1) == [];
      }
    }
    if n: nat :| Remaining(rest, maxLen, n) == [] {
      assert Remaining(content, maxLen, n + 1) == [];
    }
  }

  lemma ShortEnds(content: string, maxLen: nat)
    requires 5 <= maxLen && |content| <= maxLen
    ensures Ends(content, maxLen) && !Blocked(content, maxLen)
  {
    EndsAfterTurn(content, maxLen);
    assert Remaining([], maxLen, 0) == [];
  }

  lemma StuckNeverEnds(content: string, maxLen: nat)
    requires Stuck(content, maxLen)
    ensures !Ends(content, maxLen)
  {
    forall n: nat
      ensures Remaining(content, maxLen, n) != []
    {
      StuckForever(content, maxLen, n);
    }
  }

  /** On a trimmed text with fences at line starts the loop ends exactly when no block blocks it. */
  lemma {:induction false} EndsIffNotBlocked(content: string, maxLen: nat)
    requires 10 <= maxLen && LineStart(content) && Trimmed(content)
    ensures Ends(content, maxLen) <==> !Blocked(content, maxLen)
    decreases |content|
  {
    if |content| <= maxLen {
      ShortEnds(content, maxLen);
    } else if Stuck(content, maxLen) {
      StuckNeverEnds(content, maxLen);
      assert content[0..] == content && BlockedAt(content, maxLen, 0);
    } else {
      TurnKeeps(content, maxLen);
      ShrinksUnlessStuck(content, maxLen);
      AfterTurnTidy(content, maxLen);
      EndsIffNotBlocked(AfterTurn(content, maxLen), maxLen);
      EndsAfterTurn(content, maxLen);
    }
  }

  /** On any text with fences at line starts: one turn trims it, and what is left then decides. */
  lemma SplitEnds(content: string, maxLen: nat)
    requires 10 <= maxLen && LineStart(content)
    ensures Ends(content, maxLen) <==> |content| <= maxLen || !Blocked(AfterTurn(content, maxLen), maxLen)
  {
    if |content| <= maxLen {
      ShortEnds(content, maxLen);
    } else {
      AfterTurnTidy(content, maxLen);
      EndsIffNotBlocked(AfterTurn(content, maxLen), maxLen);
      EndsAfterTurn(content, maxLen);
    }
  }

  // ----- the loop with its chunks

  /** The loop with its chunks ends when nothing remains. */
  lemma {:induction false} TerminatesIff(content: string, maxLen: nat, n: nat)
    requires 5 <= maxLen
    ensures Terminates(content, maxLen, n) <==> Remaining(content, maxLen, n) == []
    decreases n
  {
    if |content| <= maxLen {
      if n > 0 {
        assert Turn(maxLen)(content) == [];
        IterateFixed(Turn(maxLen), [], n - 1);
      }
    } else if n > 0 {
      TerminatesIff(AfterTurn(content, maxLen), maxLen, n - 1);
    }
  }

  /** The chunks of a text with fences at line starts are defined exactly when the text is not blocked. */
  lemma SplitTerminatesIff(content: string, maxLen: nat)
    requires 10 <= maxLen && LineStart(content)
    ensures (exists n: nat :: Terminates(content, maxLen, n))
            <==> |content| <= maxLen || !Blocked(AfterTurn(content, maxLen), maxLen)
  {
    if n: nat :| Terminates(content, maxLen, n) {
      TerminatesIff(content, maxLen, n);
    }
    if n: nat :| Remaining(content, maxLen, n) == [] {
      TerminatesIff(content, maxLen, n);
    }
    SplitEnds(content, maxLen);
  }
}
