/**
 * Why the fence lines must fit: a text that starts with a long fence line is never used up.
 */
module MessageSplitTermination {
  import opened Text
  import opened MessageSplit
  import opened MessageSplitTheorems

  ghost function Iterate(f: string -> string, s: string, n: nat): string
    decreases n
  {
    if n == 0 then s else Iterate(f, f(s), n - 1)
  }

  lemma {:induction false} IterateAdd(f: string -> string, s: string, m: nat, n: nat)
    ensures Iterate(f, s, m + n) == Iterate(f, Iterate(f, s, m), n)
    decreases m
  {
    if m > 0 {
      IterateAdd(f, f(s), m - 1, n);
    }
  }

  lemma {:induction false} IterateKeeps(f: string -> string, p: string -> bool, s: string, n: nat)
    requires p(s) && forall t | p(t) :: p(f(t)) && |f(t)| >= |t|
    ensures p(Iterate(f, s, n)) && |Iterate(f, s, n)| >= |s|
    decreases n
  {
    if n > 0 {
      IterateKeeps(f, p, f(s), n - 1);
    }
  }

  /** A step that shortens whatever is not empty, and keeps what it needs for that, ends with nothing. */
  lemma {:induction false} IterateShrinks(f: string -> string, p: string -> bool, s: string) returns (n: nat)
    requires p(s) && forall t: string {:trigger f(t)} :: p(t) && t != [] ==> p(f(t)) && |f(t)| < |t|
    ensures Iterate(f, s, n) == []
    decreases |s|
  {
    if s == [] {
      n := 0;
    } else {
      var m := IterateShrinks(f, p, f(s));
      n := m + 1;
    }
  }

  lemma {:induction false} IterateFixed(f: string -> string, s: string, n: nat)
    requires f(s) == s
    ensures Iterate(f, s, n) == s
    decreases n
  {
    if n > 0 {
      IterateFixed(f, s, n - 1);
    }
  }

  /** One turn of the loop: a text that fits is sent whole. */
  function Turn(maxLen: nat): string -> string
    requires 5 <= maxLen
  {
    content => if |content| <= maxLen then [] else AfterTurn(content, maxLen)
  }

  /** The text left after `n` turns. */
  ghost function Remaining(content: string, maxLen: nat, n: nat): string
    requires 5 <= maxLen
  {
    Iterate(Turn(maxLen), content, n)
  }

  /**
   * A trimmed text that opens with a fence line of at least maxLen-6 characters, whose block does not
   * close within the limit.
   */
  ghost predicate Stuck(content: string, maxLen: nat) {
    && 5 <= maxLen < |content| && Trimmed(content)
    && FenceAt(content, 0) && maxLen - 6 <= |Header(content, 0)|
    && forall i | 0 < i <= maxLen - 3 :: !FenceAt(content, i)
  }

  lemma RestOfReopened(content: string, u: nat, k: nat)
    requires FenceAt(content, u) && k < |content| && Trimmed(content)
    ensures var h := Header(content, u);
            TrimSpace(h + "\n" + content[k..]) == h + "\n" + content[k..]
  {
    HeaderShape(content, u);
    TrimSpaceFixed(Header(content, u) + "\n" + content[k..]);
  }

  /** A reopening cut of a trimmed text makes progress exactly when the header is shorter than what was cut. */
  lemma ReopenShrinksIff(content: string, maxLen: nat)
    requires 5 <= maxLen < |content| && Trimmed(content) && NextCut(content, maxLen).reopen
    ensures var cut := NextCut(content, maxLen);
            && cut.end <= |content|
            && AfterTurn(content, maxLen) == cut.header + "\n" + content[cut.end..]
            && (|AfterTurn(content, maxLen)| < |content| <==> |cut.header| + 1 < cut.end)
  {
    CutInRange(content, maxLen);
    var u := ReopenShape(content, maxLen);
    RestOfReopened(content, u, NextCut(content, maxLen).end);
  }

  lemma StuckCut(content: string, maxLen: nat)
    requires Stuck(content, maxLen)
    ensures NextCut(content, maxLen) == Cut(maxLen - 5, true, Header(content, 0))
  {
    var end := NaturalEnd(content, maxLen);
    NaturalEndPastFence(content, maxLen);
    HeaderShape(content, 0);
    var s := content[..end];
    assert forall i :: FenceAt(s, i) ==> FenceAt(content, i);
    FencesOne(s);
    assert LastUnclosed(s) == 0;
    assert HeaderEnd(content, 0) + 20 > maxLen;
  }

  /** One turn on a stuck text leaves a stuck text that is no shorter. */
  lemma StuckStays(content: string, maxLen: nat)
    requires Stuck(content, maxLen)
    ensures Stuck(AfterTurn(content, maxLen), maxLen) && |AfterTurn(content, maxLen)| >= |content|
  {
    StuckCut(content, maxLen);
    ReopenShrinksIff(content, maxLen);
    StuckGrown(content, maxLen);
  }

  /** The fences of a text behind a header line are the header's and the text's. */
  lemma FenceBehindHeader(h: string, t: string, i: nat)
    requires FenceAt(h + "\n" + t, i)
    ensures if i < |h| then FenceAt(h, i) else i > |h| && FenceAt(t, i - |h| - 1)
  {
    assert (h + "\n" + t)[|h|] == '\n';
  }

  lemma StuckGrown(content: string, maxLen: nat)
    requires Stuck(content, maxLen)
    ensures var rest := Header(content, 0) + "\n" + content[maxLen - 5..];
            Stuck(rest, maxLen) && |rest| >= |content|
  {
    var h, t := Header(content, 0), content[maxLen - 5..];
    HeaderShape(content, 0);
    var rest := h + "\n" + t;
    forall i | FenceAt(rest, i) && i > 0
      ensures maxLen - 3 < i
    {
      FenceBehindHeader(h, t, i);
      assert if i < |h| then FenceAt(content, i) else FenceAt(content, maxLen - 5 + i - |h| - 1);
    }
    assert FenceAt(rest, 0);
    GrownHeader(content, t);
  }

  lemma GrownHeader(content: string, t: string)
    requires FenceAt(content, 0)
    ensures var h := Header(content, 0); FenceAt(h + "\n" + t, 0) && Header(h + "\n" + t, 0) == h
  {
    var h := Header(content, 0);
    var rest := h + "\n" + t;
    HeaderShape(content, 0);
    IndexFromIsFirst(rest, 0, '\n', |h|);
    var n := IndexFrom(rest, 0, '\n');
    if n < |h| {
      HeaderEndIsFirst(content, 0, n);
    }
    assert rest[0..|h|] == h;
    TrimSpaceFixed(h);
  }

  /** The loop never ends on a stuck text: after any number of turns at least as much text is left. */
  lemma StuckForever(content: string, maxLen: nat, n: nat)
    requires Stuck(content, maxLen)
    ensures Stuck(Remaining(content, maxLen, n), maxLen) && |Remaining(content, maxLen, n)| >= |content|
  {
    forall t | Stuck(t, maxLen)
      ensures Stuck(Turn(maxLen)(t), maxLen) && |Turn(maxLen)(t)| >= |t|
    {
      StuckStays(t, maxLen);
    }
    IterateKeeps(Turn(maxLen), t => Stuck(t, maxLen), content, n);
  }

  /** A fence near the natural end would have a line break before it, at which the chunk could end. */
  lemma NoFenceAcrossEnd(content: string, maxLen: nat, i: nat)
    requires 5 <= maxLen < |content| && LineStart(content) && FenceAt(content, i) && 0 < i
    requires i < NaturalEnd(content, maxLen) < i + 3
    ensures i < 2
  {
    if 1 < i {
      BreakWithin(content, EffectiveLimit(maxLen), i);
    }
  }

  /** A trimmed text does not start with a break. */
  lemma NoFenceAtOne(content: string)
    requires Trimmed(content) && LineStart(content)
    ensures !FenceAt(content, 1)
  {
    if |content| > 1 {
      BeforeFence(content, 1);
    }
  }

  /** With fences at line starts, the last resort is taken only by a block at the very start of the text. */
  lemma LastResortShape(content: string, maxLen: nat, end: nat, u: nat)
    requires 5 <= maxLen < |content| && Trimmed(content) && LineStart(content)
    requires end == NaturalEnd(content, maxLen) && u == LastUnclosed(content[..end])
    requires NextClosing(content, end) <= 0 || NextClosing(content, end) > maxLen
    requires FenceAt(content, u) && end <= HeaderEnd(content, u) + 20
    requires CutInBlock(content, maxLen, end, u).reopen
    ensures u == 0 && forall i | 0 < i <= maxLen - 3 :: !FenceAt(content, i)
  {
    var j := BreakBeforeFence(content, u);
    NoFenceAtOne(content);
    NoneAfterUnclosed(content[..end]);
    NoneInReach(content, maxLen, end);
    forall i | FenceAt(content, i) && i > 0
      ensures maxLen - 3 < i
    {
      if i < end < i + 3 {
        NoFenceAcrossEnd(content, maxLen, i);
      }
      assert i + 3 <= end ==> FenceAt(content[..end], i);
    }
  }

  lemma HeaderRoomUnlessStuck(content: string, maxLen: nat)
    requires 5 <= maxLen < |content| && Trimmed(content) && LineStart(content) && !Stuck(content, maxLen)
    requires NextCut(content, maxLen).reopen
    ensures var cut := NextCut(content, maxLen); |cut.header| + 1 < cut.end
  {
    var end := NaturalEnd(content, maxLen);
    var u := LastUnclosed(content[..end]);
    assert FenceAt(content, u);
    HeaderShape(content, u);
    if end <= HeaderEnd(content, u) + 20 {
      LastResortShape(content, maxLen, end, u);
    } else {
      BetterIsLater(content, maxLen);
    }
  }

  /** Unless the text is stuck, one turn of the loop shortens it. */
  lemma ShrinksUnlessStuck(content: string, maxLen: nat)
    requires 5 <= maxLen < |content| && Trimmed(content) && LineStart(content) && !Stuck(content, maxLen)
    ensures |AfterTurn(content, maxLen)| < |content|
  {
    CutInRange(content, maxLen);
    if NextCut(content, maxLen).reopen {
      HeaderRoomUnlessStuck(content, maxLen);
      ReopenShrinksIff(content, maxLen);
    } else {
      TrimSpaceTrims(content[NextCut(content, maxLen).end..]);
    }
  }

  lemma FirstTurn(content: string, maxLen: nat, k: nat)
    requires 5 <= maxLen
    ensures Remaining(content, maxLen, k + 1) == Remaining(Turn(maxLen)(content), maxLen, k)
  {
  }

  /** A trimmed text with fences at line starts that never gets stuck. */
  ghost predicate Flows(content: string, maxLen: nat)
    requires 5 <= maxLen
  {
    Trimmed(content) && LineStart(content) && forall k: nat :: !Stuck(Remaining(content, maxLen, k), maxLen)
  }

  /** A turn on such a text shortens it, and what is left never gets stuck either. */
  lemma TurnFlows(content: string, maxLen: nat)
    requires 5 <= maxLen && Flows(content, maxLen) && content != []
    ensures var rest := Turn(maxLen)(content); Flows(rest, maxLen) && |rest| < |content|
  {
    var rest := Turn(maxLen)(content);
    forall k: nat
      ensures !Stuck(Remaining(rest, maxLen, k), maxLen)
    {
      FirstTurn(content, maxLen, k);
    }
    if |content| > maxLen {
      assert Remaining(content, maxLen, 0) == content;
      ShrinksUnlessStuck(content, maxLen);
      AfterTurnTidy(content, maxLen);
    }
  }

  /** If no text the loop meets is stuck, it ends. */
  lemma EndsUnlessStuck(content: string, maxLen: nat) returns (n: nat)
    requires 5 <= maxLen && Flows(content, maxLen)
    ensures Remaining(content, maxLen, n) == []
  {
    forall t: string | Flows(t, maxLen) && t != []
      ensures Flows(Turn(maxLen)(t), maxLen) && |Turn(maxLen)(t)| < |t|
    {
      TurnFlows(t, maxLen);
    }
    n := IterateShrinks(Turn(maxLen), t => Flows(t, maxLen), content);
  }

  lemma AfterTurnTidy(content: string, maxLen: nat)
    requires 5 <= maxLen < |content| && LineStart(content)
    ensures Trimmed(AfterTurn(content, maxLen)) && LineStart(AfterTurn(content, maxLen))
  {
    StepLineStart(content, maxLen);
    var cut := NextCut(content, maxLen);
    TrimSpaceTrims(if cut.reopen then cut.header + "\n" + content[cut.end..] else content[cut.end..]);
  }

  /** With fences at line starts, the loop ends exactly when no text it meets is stuck. */
  lemma SplitEndsIff(content: string, maxLen: nat)
    requires 5 <= maxLen && Trimmed(content) && LineStart(content)
    ensures (exists n: nat :: Remaining(content, maxLen, n) == [])
            <==> (forall k: nat :: !Stuck(Remaining(content, maxLen, k), maxLen))
  {
    if forall k: nat :: !Stuck(Remaining(content, maxLen, k), maxLen) {
      var n := EndsUnlessStuck(content, maxLen);
    }
    forall n: nat, k: nat | Remaining(content, maxLen, n) == []
      ensures !Stuck(Remaining(content, maxLen, k), maxLen)
    {
      if Stuck(Remaining(content, maxLen, k), maxLen) {
        StuckForever(Remaining(content, maxLen, k), maxLen, n);
        IterateAdd(Turn(maxLen), content, k, n);
        IterateAdd(Turn(maxLen), content, n, k);
        IterateFixed(Turn(maxLen), [], k);
      }
    }
  }

  /** For every limit from 9 on there is a text, with its one fence at the start of a line, that is stuck. */
  lemma StuckExists(maxLen: nat) returns (content: string)
    requires maxLen >= 9
    ensures Stuck(content, maxLen) && LineStart(content)
    ensures content == FENCE + seq(maxLen - 9, _ => 'a') + "\n" + "bbbbbb"
  {
    var h := FENCE + seq(maxLen - 9, _ => 'a');
    content := h + "\n" + "bbbbbb";
    assert forall i | 0 <= i < |h| :: content[i] == h[i];
    assert forall i | |h| < i < |content| :: content[i] == 'b';
    IndexFromIsFirst(content, 0, '\n', |h|);
    assert HeaderEnd(content, 0) == |h|;
    assert content[0..|h|] == h;
    TrimSpaceFixed(h);
    assert Opens(content, 0, 0);
  }
}
