/** What `SplitMessage` promises: bounded chunks, balanced fences, no lost text, and when it ends. */
module MessageSplitTheorems {
  import opened Text
  import opened MessageSplit

  // ----- length

  /** Every chunk is non-empty and no longer than the limit, closing fences included. */
  lemma {:induction false} ChunksBounded(content: string, maxLen: nat, n: nat)
    requires Terminates(content, maxLen, n)
    ensures forall p <- Split(content, maxLen, n) :: 0 < |p.text| <= maxLen
    decreases n
  {
    if |content| > maxLen {
      CutInRange(content, maxLen);
      ChunksBounded(AfterTurn(content, maxLen), maxLen, n - 1);
    }
  }

  // ----- where chunks end

  /** A chunk of plain text ends at the last line break near the limit, if there is one past the start. */
  lemma EndsAtNewline(content: string, maxLen: nat, i: nat)
    requires 1 <= maxLen <= |content|
    requires var limit := EffectiveLimit(maxLen); 0 < i < limit && limit - 200 <= i && content[i] == '\n'
    ensures var end := NaturalEnd(content, maxLen);
            i <= end < EffectiveLimit(maxLen) && content[end] == '\n'
  {
    LastWithinIsLast(content[..EffectiveLimit(maxLen)], 200, IsNewline, i);
  }

  /** Without such a line break it ends at the last blank near the limit. */
  lemma EndsAtBlank(content: string, maxLen: nat, i: nat)
    requires 1 <= maxLen <= |content|
    requires var limit := EffectiveLimit(maxLen);
             && 0 < i < limit && limit - 100 <= i && (content[i] == ' ' || content[i] == '\t')
             && forall k | 0 < k < limit && limit - 200 <= k :: content[k] != '\n'
    ensures var end := NaturalEnd(content, maxLen);
            i <= end < EffectiveLimit(maxLen) && (content[end] == ' ' || content[end] == '\t')
  {
    LastWithinIsLast(content[..EffectiveLimit(maxLen)], 100, IsBlank, i);
  }

  /** Without either it is as long as the limit that leaves room for a closing fence. */
  lemma EndsAtLimit(content: string, maxLen: nat)
    requires 1 <= maxLen <= |content|
    requires var limit := EffectiveLimit(maxLen);
             forall k | 0 < k < limit && limit - 200 <= k ::
               content[k] != '\n' && content[k] != ' ' && content[k] != '\t'
    ensures NaturalEnd(content, maxLen) == EffectiveLimit(maxLen)
  {
    var limit := EffectiveLimit(maxLen);
    var s := content[..limit];
    LastWithinBounds(s, 200, IsNewline);
    LastWithinBounds(s, 100, IsBlank);
  }

  lemma LastWithinBounds(s: string, window: nat, p: char -> bool)
    ensures LastWithin(s, window, p) == -1 || |s| - window <= LastWithin(s, window, p)
  {
  }

  /** A block left open at the natural end is kept whole when its closing fence is within the limit. */
  lemma BlockKeptWhole(content: string, maxLen: nat, i: nat)
    requires Splittable(content, maxLen) && maxLen < |content| && LineStart(content)
    requires NoFence(content) || 10 <= maxLen
    requires LastUnclosed(content[..NaturalEnd(content, maxLen)]) >= 0
    requires NaturalEnd(content, maxLen) <= i && i + 3 <= maxLen && FenceAt(content, i)
    ensures var cut := NextCut(content, maxLen);
            && !cut.reopen && NaturalEnd(content, maxLen) < cut.end <= i + 3
            && FenceAt(content, cut.end - 3) && Balanced(content[..cut.end])
  {
    NextClosingIsFirst(content, NaturalEnd(content, maxLen), i);
    CutParity(content, maxLen);
  }

  // ----- conservation

  /**
   * The text carried by the chunks, read from the last chunk back: closing fences that were added are
   * dropped, and so is each re-opened header, from the front of what the later chunks carry.
   */
  ghost function Recover(pieces: seq<Piece>): string {
    if pieces == [] then []
    else
      var p, later := pieces[0], Recover(pieces[1..]);
      if p.reopen && |p.text| >= 4 && |Strip(p.header)| <= |later| then
        Strip(p.text[..|p.text| - 4]) + later[|Strip(p.header)|..]
      else
        Strip(p.text) + later
  }

  /** The headers dropped by `Recover` are really there, and every reopened chunk really ends in "\n```". */
  ghost predicate Recoverable(pieces: seq<Piece>) {
    pieces == [] ||
    (var p, later := pieces[0], pieces[1..];
     && Recoverable(later)
     && (p.reopen ==>
           && |p.text| >= 4 && p.text[|p.text| - 4..] == "\n" + FENCE
           && Strip(p.header) <= Recover(later)))
  }

  lemma RecoverPlainCons(p: Piece, later: seq<Piece>)
    requires Recoverable(later) && !p.reopen
    ensures Recoverable([p] + later) && Recover([p] + later) == Strip(p.text) + Recover(later)
  {
    assert ([p] + later)[1..] == later;
  }

  lemma RecoverReopenedCons(p: Piece, later: seq<Piece>, body: string, tail: string)
    requires Recoverable(later) && p.reopen
    requires p.text == body + ("\n" + FENCE) && Recover(later) == Strip(p.header) + tail
    ensures Recoverable([p] + later) && Recover([p] + later) == Strip(body) + tail
  {
    assert ([p] + later)[1..] == later;
    assert p.text[..|p.text| - 4] == body && p.text[|p.text| - 4..] == "\n" + FENCE;
    assert Recover(later)[|Strip(p.header)|..] == tail;
  }

  lemma StripReopened(header: string, t: string)
    ensures Strip(TrimSpace(header + "\n" + t)) == Strip(header) + Strip(t)
  {
    StripTrimSpace(header + "\n" + t);
    StripJoin(header, "\n", t);
  }

  lemma RecoverPlainStep(content: string, end: nat, p: Piece, later: seq<Piece>)
    requires end <= |content| && !p.reopen && p.text == content[..end]
    requires Recoverable(later) && Recover(later) == Strip(TrimSpace(content[end..]))
    ensures Recoverable([p] + later) && Recover([p] + later) == Strip(content)
  {
    StripTrimSpace(content[end..]);
    RecoverPlainCons(p, later);
    StripConcat(content[..end], content[end..]);
    assert content[..end] + content[end..] == content;
  }

  lemma RecoverReopenedStep(content: string, end: nat, p: Piece, later: seq<Piece>)
    requires end <= |content| && p.reopen && p.text == TrimRight(content[..end]) + ("\n" + FENCE)
    requires Recoverable(later) && Recover(later) == Strip(TrimSpace(p.header + "\n" + content[end..]))
    ensures Recoverable([p] + later) && Recover([p] + later) == Strip(content)
  {
    StripReopened(p.header, content[end..]);
    RecoverReopenedCons(p, later, TrimRight(content[..end]), Strip(content[end..]));
    StripTrimRight(content[..end]);
    StripConcat(content[..end], content[end..]);
    assert content[..end] + content[end..] == content;
  }

  lemma RecoverStep(content: string, cut: Cut, later: seq<Piece>)
    requires cut.end <= |content|
    requires Recoverable(later) && Recover(later) == Strip(Rest(content, cut))
    ensures var pieces := [Piece(Chunk(content, cut), cut.reopen, cut.header)] + later;
            Recoverable(pieces) && Recover(pieces) == Strip(content)
  {
    var p := Piece(Chunk(content, cut), cut.reopen, cut.header);
    if cut.reopen {
      assert p.text == TrimRight(content[..cut.end]) + ("\n" + FENCE);
      RecoverReopenedStep(content, cut.end, p, later);
    } else {
      RecoverPlainStep(content, cut.end, p, later);
    }
  }

  /** Nothing is lost, repeated or reordered: the chunks carry the input's text, up to whitespace. */
  lemma {:induction false} SplitConserves(content: string, maxLen: nat, n: nat)
    requires Terminates(content, maxLen, n)
    ensures Recoverable(Split(content, maxLen, n))
    ensures Recover(Split(content, maxLen, n)) == Strip(content)
    decreases n
  {
    if |content| > maxLen {
      CutInRange(content, maxLen);
      var rest := AfterTurn(content, maxLen);
      SplitConserves(rest, maxLen, n - 1);
      RecoverStep(content, NextCut(content, maxLen), Split(rest, maxLen, n - 1));
    } else if content != [] {
      assert Split(content, maxLen, n)[1..] == [];
    }
  }

  ghost function Concat(texts: seq<string>): string {
    if texts == [] then [] else texts[0] + Concat(texts[1..])
  }

  lemma {:induction false} RecoverPlain(pieces: seq<Piece>)
    requires forall p <- pieces :: !p.reopen
    ensures Recover(pieces) == Strip(Concat(Texts(pieces)))
  {
    if pieces != [] {
      RecoverPlain(pieces[1..]);
      assert Texts(pieces)[1..] == Texts(pieces[1..]);
      StripConcat(pieces[0].text, Concat(Texts(pieces[1..])));
    }
  }

  lemma NoFenceTrimmed(s: string)
    requires NoFence(s)
    ensures NoFence(TrimSpace(s))
  {
    var lead, tail := TrimSpaceParts(s);
    var t := TrimSpace(s);
    forall i
      ensures !FenceAt(t, i)
    {
      assert FenceAt(t, i) ==> FenceAt(s, |lead| + i);
    }
  }

  /** Without fences a cut reopens nothing, and no fence appears. */
  lemma NoFenceStep(content: string, maxLen: nat)
    requires 1 <= maxLen < |content| && NoFence(content)
    ensures Splittable(content, maxLen) && !NextCut(content, maxLen).reopen && NoFence(AfterTurn(content, maxLen))
  {
    var end := NaturalEnd(content, maxLen);
    var u := LastUnclosed(content[..end]);
    assert u >= 0 ==> FenceAt(content, u);
    assert forall i :: FenceAt(content[end..], i) ==> FenceAt(content, end + i);
    NoFenceTrimmed(content[end..]);
  }

  lemma {:induction false} NothingReopened(content: string, maxLen: nat, n: nat)
    requires NoFence(content) && Terminates(content, maxLen, n)
    ensures forall p <- Split(content, maxLen, n) :: !p.reopen
    decreases n
  {
    if |content| > maxLen {
      NoFenceStep(content, maxLen);
      NothingReopened(AfterTurn(content, maxLen), maxLen, n - 1);
    }
  }

  /** Without fences the chunks, put together, are the input up to whitespace. */
  lemma PlainTextConcatenates(content: string, maxLen: nat, n: nat)
    requires NoFence(content) && Terminates(content, maxLen, n)
    ensures Strip(Concat(Texts(Split(content, maxLen, n)))) == Strip(content)
  {
    NothingReopened(content, maxLen, n);
    SplitConserves(content, maxLen, n);
    RecoverPlain(Split(content, maxLen, n));
  }

  // ----- fence balance

  /** A line starts at `j`, and only blanks lie between there and `i`. */
  ghost predicate Opens(s: string, j: nat, i: int) {
    j <= i <= |s| && (j == 0 || s[j - 1] == '\n') && forall k | j <= k < i :: IsBlank(s[k])
  }

  /** Every fence is at the start of a line, or only blanks are before it there. */
  ghost predicate LineStart(s: string) {
    forall i | FenceAt(s, i) :: exists j: nat :: Opens(s, j, i)
  }

  /** Such a fence has a line break or a blank before it. */
  lemma BeforeFence(s: string, i: int)
    requires 0 < i <= |s|
    ensures LineStart(s) && FenceAt(s, i) ==> IsNewline(s[i - 1]) || IsBlank(s[i - 1])
  {
    if LineStart(s) && FenceAt(s, i) {
      var j: nat :| Opens(s, j, i);
    }
  }

  predicate Balanced(s: string) {
    Fences(s) % 2 == 0
  }

  /** No fence lies across index `k`. */
  ghost predicate CleanAt(s: string, k: int) {
    !FenceAt(s, k - 1) && !FenceAt(s, k - 2)
  }

  lemma SliceShift(s: string, k: nat, d: nat)
    requires d <= k <= |s|
    ensures s[d..][..k - d] == s[..k][d..] && s[d..][k - d..] == s[k..]
    ensures forall i :: FenceAt(s[d..], i) ==> FenceAt(s, d + i)
  {
  }

  lemma {:induction false} FencesCut(s: string, k: nat)
    requires k <= |s| && CleanAt(s, k)
    ensures Fences(s) == Fences(s[..k]) + Fences(s[k..])
  {
    if k == 0 {
      assert s[0..] == s;
    } else if |s| >= 3 {
      var d := if FenceAt(s, 0) then 3 else 1;
      SliceShift(s, k, d);
      assert FenceAt(s[..k], 0) == FenceAt(s, 0);
      FencesCut(s[d..], k - d);
    }
  }

  lemma {:induction false} FencesNone(s: string)
    requires NoFence(s)
    ensures Fences(s) == 0
  {
    if |s| >= 3 {
      assert forall i :: FenceAt(s[1..], i) ==> FenceAt(s, i + 1);
      FencesNone(s[1..]);
    }
  }

  /** A text whose only fence is at its start. */
  lemma FencesOne(s: string)
    requires FenceAt(s, 0) && forall i | FenceAt(s, i) :: i == 0
    ensures Fences(s) == 1
  {
    assert forall i :: FenceAt(s[3..], i) ==> FenceAt(s, i + 3);
    FencesNone(s[3..]);
  }

  lemma FencesJoin(a: string, b: string)
    requires b != [] ==> b[0] != '`'
    ensures Fences(a + b) == Fences(a) + Fences(b)
  {
    var s := a + b;
    assert |a| < |s| ==> s[|a|] == b[0];
    FencesCut(s, |a|);
    assert s[..|a|] == a && s[|a|..] == b;
  }

  lemma FencesTrimRight(s: string, t: string)
    requires AllSpace(t)
    ensures Fences(s + t) == Fences(s)
  {
    FencesJoin(s, t);
    FencesNone(t);
  }

  lemma FencesTrimSpace(s: string)
    ensures Fences(TrimSpace(s)) == Fences(s)
  {
    var lead, tail := TrimSpaceParts(s);
    var inner := lead + TrimSpace(s);
    FencesTrimRight(inner, tail);
    FencesCut(inner, |lead|);
    FencesNone(lead);
    assert inner[..|lead|] == lead && inner[|lead|..] == TrimSpace(s);
  }

  /** Where a line opens in the part of a text from `k` on. */
  lemma OpensSuffix(s: string, t: string, k: nat, j: nat, i: int)
    requires Opens(s, j, k + i) && k + |t| <= |s| && t == s[k..k + |t|] && 0 <= i <= |t|
    ensures Opens(t, if j <= k then 0 else j - k, i)
  {
    assert forall m | 0 <= m < |t| :: t[m] == s[k + m];
  }

  lemma LineStartPart(s: string, t: string, k: nat)
    requires LineStart(s) && k + |t| <= |s| && t == s[k..k + |t|]
    ensures LineStart(t)
  {
    forall i | FenceAt(t, i)
      ensures exists j: nat :: Opens(t, j, i)
    {
      assert forall m | 0 <= m < |t| :: t[m] == s[k + m];
      assert FenceAt(s, k + i);
      var j: nat :| Opens(s, j, k + i);
      OpensSuffix(s, t, k, j, i);
    }
  }

  lemma LineStartSuffix(s: string, k: nat)
    requires k <= |s| && LineStart(s)
    ensures LineStart(s[k..])
  {
    LineStartPart(s, s[k..], k);
  }

  lemma LineStartTrimmed(s: string)
    requires LineStart(s)
    ensures LineStart(TrimSpace(s))
  {
    var lead, tail := TrimSpaceParts(s);
    LineStartPart(s, TrimSpace(s), |lead|);
  }

  /** A header holds one fence, the one it starts with. */
  lemma HeaderOneFence(content: string, u: nat)
    requires LineStart(content) && FenceAt(content, u)
    ensures var h := Header(content, u);
            FenceAt(h, 0) && (forall i | FenceAt(h, i) :: i == 0) && Fences(h) == 1 && '\n' !in h
  {
    var h := Header(content, u);
    HeaderShape(content, u);
    forall i | FenceAt(h, i)
      ensures i == 0
    {
      assert FenceAt(content, u + i);
      var j: nat :| Opens(content, j, u + i);
      if u < j { HeaderEndIsFirst(content, u, j - 1); }
    }
    forall k | 0 <= k < |h|
      ensures h[k] != '\n'
    {
      if h[k] == '\n' { HeaderEndIsFirst(content, u, u + k); }
    }
    FencesOne(h);
  }

  lemma LineStartReopened(content: string, u: nat, k: nat)
    requires LineStart(content) && FenceAt(content, u) && k <= |content|
    ensures LineStart(Header(content, u) + "\n" + content[k..])
  {
    var h := Header(content, u);
    var s := h + "\n" + content[k..];
    HeaderOneFence(content, u);
    assert s[|h|] == '\n';
    forall i | FenceAt(s, i)
      ensures exists j: nat :: Opens(s, j, i)
    {
      if i < |h| {
        assert FenceAt(h, i) && Opens(s, 0, i);
      } else {
        var t := content[k..];
        assert FenceAt(content, k + i - |h| - 1);
        var j: nat :| Opens(content, j, k + i - |h| - 1);
        OpensSuffix(content, t, k, j, i - |h| - 1);
        OpensBehind(h, t, if j <= k then 0 else j - k, i - |h| - 1);
      }
    }
  }

  lemma OpensBehind(h: string, t: string, j: nat, i: int)
    requires Opens(t, j, i)
    ensures Opens(h + "\n" + t, |h| + 1 + j, |h| + 1 + i)
  {
  }

  lemma StepLineStart(content: string, maxLen: nat)
    requires Splittable(content, maxLen) && maxLen < |content| && LineStart(content)
    ensures NextCut(content, maxLen).end <= |content|
    ensures LineStart(Rest(content, NextCut(content, maxLen)))
  {
    CutInRange(content, maxLen);
    var cut := NextCut(content, maxLen);
    if cut.reopen {
      var u := ReopenShape(content, maxLen);
      LineStartReopened(content, u, cut.end);
      LineStartTrimmed(cut.header + "\n" + content[cut.end..]);
    } else {
      LineStartSuffix(content, cut.end);
      LineStartTrimmed(content[cut.end..]);
    }
  }

  /** The natural end of a chunk is never inside a fence. */
  lemma NaturalEndClean(content: string, maxLen: nat)
    requires 1 <= maxLen < |content| && LineStart(content) && (NoFence(content) || 10 <= maxLen)
    ensures CleanAt(content, NaturalEnd(content, maxLen))
  {
    var limit := EffectiveLimit(maxLen);
    var end := NaturalEnd(content, maxLen);
    forall i: int | end - 2 <= i < end && FenceAt(content, i)
      ensures LastBreak(content[..limit]) > 0
    {
      if limit == end {
        BreakWithin(content, limit, i);
      }
    }
  }

  /** A fence that starts before a limit has a break before it in the window. */
  lemma BreakWithin(content: string, limit: nat, i: nat)
    requires LineStart(content) && FenceAt(content, i) && 1 < i < limit <= |content| && limit < i + 100
    ensures LastBreak(content[..limit]) > 0
  {
    BeforeFence(content, i);
    if IsNewline(content[i - 1]) {
      LastWithinIsLast(content[..limit], 200, IsNewline, i - 1);
    } else {
      LastWithinIsLast(content[..limit], 100, IsBlank, i - 1);
    }
  }

  /** A cut that adds nothing, at a clean place with balanced fences before it. */
  lemma PlainStep(content: string, k: nat)
    requires k <= |content| && CleanAt(content, k) && Balanced(content) && Balanced(content[..k])
    ensures Balanced(TrimSpace(content[k..]))
  {
    FencesCut(content, k);
    FencesTrimSpace(content[k..]);
  }

  lemma ClosingFences()
    ensures Fences(FENCE) == 1 && Fences("\n" + FENCE) == 1
  {
    assert ("\n" + FENCE)[1..] == FENCE;
  }

  lemma ReopenedChunkBalanced(content: string, cut: Cut)
    requires cut.reopen && cut.end <= |content| && !Balanced(content[..cut.end])
    ensures Balanced(Chunk(content, cut))
  {
    var s := content[..cut.end];
    var kept, closing := TrimRight(s), "\n" + FENCE;
    FencesTrimRight(kept, s[|kept|..]);
    assert kept + s[|kept|..] == s;
    ClosingFences();
    FencesJoin(kept, closing);
    assert Chunk(content, cut) == kept + closing;
  }

  lemma ReopenedFences(h: string, t: string)
    ensures Fences(h + "\n" + t) == Fences(h) + Fences(t)
  {
    FencesJoin(h, "\n" + t);
    FencesCut("\n" + t, 1);
    assert ("\n" + t)[1..] == t;
    assert h + "\n" + t == h + ("\n" + t);
  }

  lemma ReopenedRestFences(content: string, u: nat, k: nat)
    requires LineStart(content) && FenceAt(content, u) && k <= |content|
    ensures Fences(TrimSpace(Header(content, u) + "\n" + content[k..])) == 1 + Fences(content[k..])
  {
    HeaderOneFence(content, u);
    FencesTrimSpace(Header(content, u) + "\n" + content[k..]);
    ReopenedFences(Header(content, u), content[k..]);
  }

  lemma ReopenedRestBalanced(content: string, u: nat, k: nat)
    requires LineStart(content) && FenceAt(content, u) && k <= |content| && CleanAt(content, k)
    requires Balanced(content) && !Balanced(content[..k])
    ensures Balanced(TrimSpace(Header(content, u) + "\n" + content[k..]))
  {
    assert Fences(content) == Fences(content[..k]) + Fences(content[k..]) by { FencesCut(content, k); }
    ReopenedRestFences(content, u, k);
  }

  lemma FenceInSlice(s: string, a: nat, b: nat, i: int)
    requires a <= b <= |s|
    ensures FenceAt(s[..b][a..], i) ==> FenceAt(s, a + i) && a + i + 3 <= b
  {
  }

  /** Fences before `k` are those before `end` when none starts between the two. */
  lemma FencesExtend(content: string, end: nat, k: nat)
    requires end <= k <= |content| && CleanAt(content, end)
    requires forall i | end <= i < k - 2 :: !FenceAt(content, i)
    ensures Fences(content[..k]) == Fences(content[..end])
  {
    var s := content[..k];
    FencesCut(s, end);
    assert s[..end] == content[..end];
    forall i
      ensures !FenceAt(s[end..], i)
    {
      FenceInSlice(content, end, k, i);
    }
    FencesNone(s[end..]);
  }

  /** Fences that start lines do not overlap. */
  lemma FenceApart(content: string, i: nat)
    requires LineStart(content) && FenceAt(content, i)
    ensures CleanAt(content, i) && CleanAt(content, i + 3)
  {
    if i > 0 {
      BeforeFence(content, i);
    }
    BeforeFence(content, i + 1);
    BeforeFence(content, i + 2);
  }

  /** Extending a chunk to the next fence closes the block it would have left open. */
  lemma ExtendStep(content: string, end: nat, closing: int)
    requires end <= |content| && CleanAt(content, end) && closing == NextClosing(content, end) > 0
    requires CleanAt(content, closing - 3)
    ensures Fences(content[..closing]) == Fences(content[..end]) + 1
  {
    var s := content[..closing];
    forall i: int | end <= i < closing - 5
      ensures !FenceAt(content, i)
    {
      if FenceAt(content, i) { NextClosingIsFirst(content, end, i); }
    }
    FencesExtend(content, end, closing - 3);
    FencesCut(s, closing - 3);
    assert s[..closing - 3] == content[..closing - 3];
    assert s[closing - 3..] == FENCE;
    ClosingFences();
  }

  /** With fences at line starts, a block is always split off within the blanks before it, or at their line break. */
  lemma BreakBeforeFence(content: string, u: nat) returns (j: nat)
    requires LineStart(content) && FenceAt(content, u)
    ensures Opens(content, j, u)
    ensures var b := LastBreak(content[..u]); (u > 1 ==> b > 0) && (b > 0 ==> j - 1 <= b < u)
  {
    j :| Opens(content, j, u);
    var s := content[..u];
    LastWithinBounds(s, 200, IsNewline);
    if u > 1 {
      if j < u {
        LastWithinIsLast(s, 100, IsBlank, u - 1);
      } else {
        LastWithinIsLast(s, 200, IsNewline, u - 1);
      }
      if 0 < j && u - 200 <= j - 1 {
        LastWithinIsLast(s, 200, IsNewline, j - 1);
      }
    }
  }

  /** Nothing is cut off a fence by a cut in the blanks before it. */
  lemma BlanksClean(content: string, j: nat, u: nat, k: nat)
    requires Opens(content, j, u) && FenceAt(content, u) && j - 1 <= k <= u
    ensures CleanAt(content, k) && forall i | k <= i < u :: !FenceAt(content, i)
  {
    assert k < u ==> content[k] != '`';
    assert j < u ==> content[u - 1] != '`';
  }

  /** No fence starts between the natural end and maxLen-3 when no closing fence is within reach. */
  lemma NoneInReach(content: string, maxLen: nat, end: nat)
    requires end <= |content| && (NextClosing(content, end) <= 0 || NextClosing(content, end) > maxLen)
    ensures forall i | FenceAt(content, i) && end <= i :: maxLen - 3 < i
  {
    forall i | FenceAt(content, i) && end <= i
      ensures maxLen - 3 < i
    {
      NextClosingIsFirst(content, end, i);
    }
  }

  /** A reopening cut at or after the natural end has the same fences before it, and is in none itself. */
  lemma ReopenCutClean(content: string, maxLen: nat, end: nat, k: nat)
    requires end <= k <= maxLen - 5 && maxLen < |content| && CleanAt(content, end)
    requires forall i | FenceAt(content, i) && end <= i :: maxLen - 3 < i
    ensures CleanAt(content, k) && Fences(content[..k]) == Fences(content[..end])
  {
    FencesExtend(content, end, k);
  }

  lemma BlockCutParity(content: string, maxLen: nat, end: nat, u: nat)
    requires 10 <= maxLen < |content| && LineStart(content)
    requires end == NaturalEnd(content, maxLen) && u == LastUnclosed(content[..end])
    requires NextClosing(content, end) <= 0 || NextClosing(content, end) > maxLen
    requires FenceAt(content, u)
    ensures var cut := CutInBlock(content, maxLen, end, u);
            && cut.end <= |content| && CleanAt(content, cut.end)
            && (Balanced(content[..cut.end]) <==> !cut.reopen)
  {
    var cut := CutInBlock(content, maxLen, end, u);
    if cut.reopen {
      NaturalEndClean(content, maxLen);
      BetterIsLater(content, maxLen);
      NoneInReach(content, maxLen, end);
      ReopenCutClean(content, maxLen, end, cut.end);
    } else {
      var j := BreakBeforeFence(content, u);
      BlanksClean(content, j, u, cut.end);
      FencesExtend(content, cut.end, u);
      assert content[..end][..u] == content[..u];
    }
  }

  lemma ClosedParity(content: string, end: nat, closing: int)
    requires end <= |content| && LineStart(content) && CleanAt(content, end) && !Balanced(content[..end])
    requires closing == NextClosing(content, end) > 0
    ensures CleanAt(content, closing) && Balanced(content[..closing])
  {
    FenceApart(content, closing - 3);
    ExtendStep(content, end, closing);
  }

  lemma CutCases(content: string, maxLen: nat, end: nat, u: int)
    requires Splittable(content, maxLen) && maxLen < |content|
    requires end == NaturalEnd(content, maxLen) && u == LastUnclosed(content[..end])
    ensures u < 0 ==> NextCut(content, maxLen) == Cut(end, false, "")
    ensures u >= 0 ==>
      && FenceAt(content, u)
      && var closing := NextClosing(content, end);
         NextCut(content, maxLen) == if 0 < closing <= maxLen then Cut(closing, false, "")
                                     else CutInBlock(content, maxLen, end, u)
  {
  }

  /** Exactly the reopening cuts leave a block open; no cut is inside a fence. */
  lemma CutParity(content: string, maxLen: nat)
    requires 1 <= maxLen < |content| && LineStart(content) && (NoFence(content) || 10 <= maxLen)
    ensures var cut := NextCut(content, maxLen);
            && cut.end <= |content| && CleanAt(content, cut.end)
            && (Balanced(content[..cut.end]) <==> !cut.reopen)
  {
    NaturalEndClean(content, maxLen);
    var end := NaturalEnd(content, maxLen);
    var u := LastUnclosed(content[..end]);
    CutCases(content, maxLen, end, u);
    if u >= 0 {
      var closing := NextClosing(content, end);
      if 0 < closing <= maxLen {
        ClosedParity(content, end, closing);
      } else {
        BlockCutParity(content, maxLen, end, u);
      }
    }
  }

  lemma StepBalanced(content: string, maxLen: nat)
    requires 1 <= maxLen < |content| && LineStart(content) && Balanced(content)
    requires NoFence(content) || 10 <= maxLen
    ensures var cut := NextCut(content, maxLen);
            cut.end <= |content| && Balanced(Chunk(content, cut)) && Balanced(Rest(content, cut))
  {
    var cut := NextCut(content, maxLen);
    CutParity(content, maxLen);
    if cut.reopen {
      var u := ReopenShape(content, maxLen);
      ReopenedChunkBalanced(content, cut);
      ReopenedRestBalanced(content, u, cut.end);
    } else {
      PlainStep(content, cut.end);
    }
  }

  /** When the input's fences are balanced and start lines, every chunk has balanced fences. */
  lemma {:induction false} ChunksBalanced(content: string, maxLen: nat, n: nat)
    requires Terminates(content, maxLen, n) && (NoFence(content) || 10 <= maxLen)
    requires LineStart(content) && Balanced(content)
    ensures forall p <- Split(content, maxLen, n) :: Balanced(p.text)
    decreases n
  {
    if |content| > maxLen {
      StepBalanced(content, maxLen);
      StepLineStart(content, maxLen);
      if NoFence(content) {
        NoFenceStep(content, maxLen);
      }
      ChunksBalanced(AfterTurn(content, maxLen), maxLen, n - 1);
    }
  }

  // ----- reopened headers

  lemma TrimRightKeepsHead(s: string, k: nat)
    requires 0 < k <= |s| && !IsSpace(s[k - 1])
    ensures k <= |TrimRight(s)| && s[..k] <= TrimRight(s)
  {
    var r := TrimRight(s);
    assert s[..k] == r[..k];
  }

  /** A second fence, or a line break, is past a header that leads the text. */
  lemma PastHeader(rest: string, h: string)
    requires LineStart(rest) && FenceAt(rest, 0) && h <= rest && '\n' !in h
    ensures forall i | 0 <= i < |rest| && rest[i] == '\n' :: |h| <= i
    ensures forall i | FenceAt(rest, i) && i > 0 :: |h| < i
  {
    assert forall i | 0 <= i < |h| :: rest[i] == h[i];
    forall i | FenceAt(rest, i) && i > 0
      ensures |h| < i
    {
      var j: nat :| Opens(rest, j, i);
    }
  }

  lemma ExtendedPastHeader(rest: string, end: nat, h: string)
    requires LineStart(rest) && FenceAt(rest, 0) && h <= rest && '\n' !in h
    requires 3 <= end <= |rest| && LastUnclosed(rest[..end]) < 0
    ensures |h| <= end
  {
    PastHeader(rest, h);
    var s := rest[..end];
    if forall i | FenceAt(s, i) :: i == 0 {
      FencesOne(s);
    } else {
      var i :| FenceAt(s, i) && i != 0;
      assert FenceAt(rest, i);
    }
  }

  lemma BlockCutPastHeader(rest: string, maxLen: nat, end: nat, u: nat, h: string)
    requires LineStart(rest) && FenceAt(rest, 0) && h <= rest && '\n' !in h && h == Header(rest, 0)
    requires 10 <= maxLen < |rest| && |h| < maxLen - 6 && FenceAt(rest, u)
    requires end == NaturalEnd(rest, maxLen)
    ensures |h| <= CutInBlock(rest, maxLen, end, u).end <= |rest|
  {
    PastHeader(rest, h);
    HeaderShape(rest, 0);
    var j := BreakBeforeFence(rest, u);
    BetterIsLater(rest, maxLen);
  }

  lemma NaturalEndPastFence(rest: string, maxLen: nat)
    requires FenceAt(rest, 0) && 5 <= maxLen < |rest|
    ensures 3 <= NaturalEnd(rest, maxLen)
  {
    assert forall i | 0 <= i < 3 :: rest[i] == '`';
  }

  lemma CutPastHeader(rest: string, maxLen: nat, h: string)
    requires LineStart(rest) && FenceAt(rest, 0) && h <= rest && '\n' !in h && h == Header(rest, 0)
    requires 10 <= maxLen < |rest| && |h| < maxLen - 6
    ensures |h| <= NextCut(rest, maxLen).end <= |rest|
  {
    CutInRange(rest, maxLen);
    PastHeader(rest, h);
    NaturalEndPastFence(rest, maxLen);
    var end := NaturalEnd(rest, maxLen);
    var u := LastUnclosed(rest[..end]);
    if u < 0 {
      ExtendedPastHeader(rest, end, h);
    } else {
      assert FenceAt(rest, u);
      if NextClosing(rest, end) <= 0 || NextClosing(rest, end) > maxLen {
        BlockCutPastHeader(rest, maxLen, end, u, h);
      }
    }
  }

  /** The chunk cut from a text that starts with a header holds the whole header. */
  lemma ChunkKeepsHeader(rest: string, cut: Cut, h: string)
    requires h <= rest && h != [] && !IsSpace(h[|h| - 1]) && |h| <= cut.end <= |rest|
    ensures h <= Chunk(rest, cut)
  {
    assert h == rest[..cut.end][..|h|];
    TrimRightKeepsHead(rest[..cut.end], |h|);
  }

  /** The text left after reopening a block starts with the block's header, as a fence line of its own. */
  lemma RestStartsWithHeader(content: string, u: nat, k: nat)
    requires LineStart(content) && FenceAt(content, u) && k <= |content|
    ensures var h := Header(content, u);
            var rest := TrimSpace(h + "\n" + content[k..]);
            h <= rest && FenceAt(rest, 0) && '\n' !in h && (|h| < |rest| ==> Header(rest, 0) == h)
  {
    var h := Header(content, u);
    var s := h + "\n" + content[k..];
    var rest := TrimSpace(s);
    HeaderShape(content, u);
    HeaderOneFence(content, u);
    TrimSpaceKeepsHead(s, |h|);
    assert h == s[..|h|] == rest[..|h|];
    assert FenceAt(rest, 0);
    if |rest| > |h| {
      assert rest[|h|] == s[|h|] == '\n';
      IndexFromIsFirst(rest, 0, '\n', |h|);
      assert rest[0..|h|] == h;
    }
    TrimSpaceFixed(h);
  }

  /** The first chunk of a text that starts with a header holds the whole header. */
  lemma LeadingHeaderKept(rest: string, h: string, maxLen: nat, n: nat)
    requires LineStart(rest) && FenceAt(rest, 0) && h <= rest && '\n' !in h && h != "" && !IsSpace(h[|h| - 1])
    requires 10 <= maxLen && |h| < maxLen - 6 && (|h| < |rest| ==> h == Header(rest, 0))
    requires Terminates(rest, maxLen, n)
    ensures var pieces := Split(rest, maxLen, n); pieces != [] && h <= pieces[0].text
  {
    if |rest| > maxLen {
      CutPastHeader(rest, maxLen, h);
      ChunkKeepsHeader(rest, NextCut(rest, maxLen), h);
    }
  }

  lemma HeaderEndsPlain(content: string, u: nat)
    requires FenceAt(content, u)
    ensures var h := Header(content, u); h != "" && !IsSpace(h[|h| - 1])
  {
    HeaderShape(content, u);
  }

  lemma RestLineStart(content: string, u: nat, k: nat)
    requires LineStart(content) && FenceAt(content, u) && k <= |content|
    ensures LineStart(TrimSpace(Header(content, u) + "\n" + content[k..]))
  {
    LineStartReopened(content, u, k);
    LineStartTrimmed(Header(content, u) + "\n" + content[k..]);
  }

  lemma FirstChunkKeepsHeader(content: string, u: nat, k: nat, maxLen: nat, n: nat)
    requires LineStart(content) && FenceAt(content, u) && k <= |content|
    requires 10 <= maxLen && |Header(content, u)| < maxLen - 6
    requires Terminates(TrimSpace(Header(content, u) + "\n" + content[k..]), maxLen, n)
    ensures var h := Header(content, u);
            var pieces := Split(TrimSpace(h + "\n" + content[k..]), maxLen, n);
            pieces != [] && h <= pieces[0].text
  {
    var h := Header(content, u);
    HeaderEndsPlain(content, u);
    RestStartsWithHeader(content, u, k);
    RestLineStart(content, u, k);
    LeadingHeaderKept(TrimSpace(h + "\n" + content[k..]), h, maxLen, n);
  }

  /** A chunk closed by an added fence is followed by a chunk that starts with the block's own header. */
  ghost predicate HeadersLead(pieces: seq<Piece>) {
    forall k | 0 <= k < |pieces| && pieces[k].reopen ::
      k + 1 < |pieces| && FENCE <= pieces[k].header <= pieces[k + 1].text
  }

  lemma HeadersLeadCons(p: Piece, later: seq<Piece>)
    requires HeadersLead(later)
    requires p.reopen ==> later != [] && FENCE <= p.header <= later[0].text
    ensures HeadersLead([p] + later)
  {
  }

  lemma HeaderStartsFence(content: string, u: nat)
    requires FenceAt(content, u)
    ensures FENCE <= Header(content, u)
  {
    HeaderShape(content, u);
    var h := Header(content, u);
    assert h[..3] == content[u..u + 3] == FENCE;
  }

  lemma NextPieceLeads(content: string, u: nat, cut: Cut, maxLen: nat, n: nat)
    requires 10 <= maxLen && LineStart(content) && FenceAt(content, u) && |Header(content, u)| < maxLen - 6
    requires cut == Cut(cut.end, true, Header(content, u)) && cut.end <= |content|
    requires Terminates(Rest(content, cut), maxLen, n)
    ensures var later := Split(Rest(content, cut), maxLen, n);
            later != [] && FENCE <= cut.header <= later[0].text
  {
    HeaderStartsFence(content, u);
    FirstChunkKeepsHeader(content, u, cut.end, maxLen, n);
  }

  lemma {:induction false} HeaderLeadsNextChunk(content: string, maxLen: nat, n: nat)
    requires 1 <= maxLen && HeadersFit(content, maxLen) && LineStart(content) && Terminates(content, maxLen, n)
    ensures HeadersLead(Split(content, maxLen, n))
    decreases n
  {
    if |content| > maxLen {
      StepShrinks(content, maxLen);
      HeadersStillFit(content, maxLen);
      StepLineStart(content, maxLen);
      var cut, rest := NextCut(content, maxLen), AfterTurn(content, maxLen);
      HeaderLeadsNextChunk(rest, maxLen, n - 1);
      if cut.reopen {
        var u := ReopenShape(content, maxLen);
        HeadersNeedRoom(content, maxLen);
        NextPieceLeads(content, u, cut, maxLen, n - 1);
      }
      HeadersLeadCons(Piece(Chunk(content, cut), cut.reopen, cut.header), Split(rest, maxLen, n - 1));
    }
  }
}
