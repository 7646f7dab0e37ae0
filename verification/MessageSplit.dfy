/**
 * Cutting a long Markdown message into chunks of bounded length without leaving a code fence open.
 *
 * `NextCut` is one turn of the source's loop and `Split` the whole loop; the method `SplitMessage` is
 * the loop itself. The theorems about `Split` are in the module `MessageSplitTheorems`.
 */
module MessageSplit {
  import opened Text

  const FENCE := "```"

  predicate IsNewline(c: char) { c == '\n' }

  predicate IsBlank(c: char) { c == ' ' || c == '\t' }

  /** Three backquotes at index `i`. */
  predicate FenceAt(s: string, i: int) {
    0 <= i && i + 2 < |s| && s[i] == '`' && s[i + 1] == '`' && s[i + 2] == '`'
  }

  /** The number of fences, read from the left without overlap. */
  function Fences(s: string): nat {
    if |s| < 3 then 0
    else if FenceAt(s, 0) then 1 + Fences(s[3..])
    else Fences(s[1..])
  }

  ghost predicate NoFence(s: string) {
    forall i :: !FenceAt(s, i)
  }

  /**
   * Scans from `i` with the fence `open` still unclosed (-1 if none) and returns the fence left unclosed.
   */
  function ScanUnclosed(text: string, i: nat, open: int): (u: int)
    requires i <= |text| && (open == -1 || FenceAt(text, open))
    ensures u == -1 || FenceAt(text, u)
    ensures u >= 0 ==> u == open || i <= u
    decreases |text| - i
  {
    if i == |text| then open
    else if FenceAt(text, i) then ScanUnclosed(text, i + 3, if open < 0 then i else -1)
    else ScanUnclosed(text, i + 1, open)
  }

  /** A fence is left open exactly when the number of fences is odd. */
  lemma {:induction false} ScanParity(text: string, i: nat, open: int)
    requires i <= |text| && (open == -1 || FenceAt(text, open))
    ensures ScanUnclosed(text, i, open) == -1 <==> Fences(text[i..]) % 2 == if open < 0 then 0 else 1
    decreases |text| - i
  {
    if i < |text| {
      var d := if FenceAt(text, i) then 3 else 1;
      assert text[i..][d..] == text[i + d..];
      ScanParity(text, i + d, if d == 1 then open else if open < 0 then i else -1);
    }
  }

  /** The fences before the one left open are balanced. */
  lemma {:induction false} ScanBefore(text: string, i: nat, open: int)
    requires i <= |text| && open < i && (open == -1 || FenceAt(text, open))
    ensures var u := ScanUnclosed(text, i, open);
            u >= i ==> Fences(text[i..u]) % 2 == if open < 0 then 0 else 1
    decreases |text| - i
  {
    if i < |text| {
      var d := if FenceAt(text, i) then 3 else 1;
      ScanBefore(text, i + d, if d == 1 then open else if open < 0 then i else -1);
      var u := ScanUnclosed(text, i, open);
      if u >= i + d {
        assert text[i..u][d..] == text[i + d..u];
      }
    }
  }

  /** No fence comes after the one left open. */
  lemma {:induction false} ScanAfter(text: string, i: nat, open: int)
    requires i <= |text| && open < i && (open == -1 || FenceAt(text, open))
    ensures var u := ScanUnclosed(text, i, open);
            u >= 0 ==> forall k | k >= (if u == open then i else u + 3) :: !FenceAt(text, k)
    decreases |text| - i
  {
    if i < |text| {
      var d := if FenceAt(text, i) then 3 else 1;
      ScanAfter(text, i + d, if d == 1 then open else if open < 0 then i else -1);
    }
  }

  /** The opening fence with no closing fence after it, or -1. */
  function LastUnclosed(text: string): (u: int)
    ensures u == -1 <==> Fences(text) % 2 == 0
    ensures u >= 0 ==> FenceAt(text, u) && Fences(text[..u]) % 2 == 0
  {
    ScanParity(text, 0, -1);
    ScanBefore(text, 0, -1);
    assert text[0..] == text;
    var u := ScanUnclosed(text, 0, -1);
    assert u >= 0 ==> text[0..u] == text[..u];
    u
  }

  lemma NoneAfterUnclosed(text: string)
    ensures LastUnclosed(text) >= 0 ==> forall k | k >= LastUnclosed(text) + 3 :: !FenceAt(text, k)
  {
    ScanAfter(text, 0, -1);
  }

  /** The index just past the first fence that starts at or after `start`, or -1. */
  function NextClosing(text: string, start: nat): (c: int)
    requires start <= |text|
    ensures c == -1 || (start + 3 <= c <= |text| && FenceAt(text, c - 3))
    decreases |text| - start
  {
    if start == |text| then -1
    else if FenceAt(text, start) then start + 3
    else NextClosing(text, start + 1)
  }

  lemma {:induction false} NextClosingIsFirst(text: string, start: nat, i: nat)
    requires start <= i && FenceAt(text, i)
    ensures 0 < NextClosing(text, start) <= i + 3
    decreases i - start
  {
    if start < i {
      NextClosingIsFirst(text, start + 1, i);
    }
  }

  function LastWithin(s: string, window: nat, p: char -> bool): (r: int)
    ensures r == -1 || (0 <= r < |s| && p(s[r]))
  {
    LastIndex(s, Max(|s| - window, 0), p)
  }

  lemma LastWithinIsLast(s: string, window: nat, p: char -> bool, i: nat)
    requires |s| - window <= i < |s| && p(s[i])
    ensures i <= LastWithin(s, window, p)
  {
    LastIndexIsLast(s, Max(|s| - window, 0), p, i);
  }

  function LastNewline(s: string): int { LastWithin(s, 200, IsNewline) }

  function LastBlank(s: string): int { LastWithin(s, 100, IsBlank) }

  /** A line break near the end of `s`, or failing that a blank; not positive when there is neither. */
  function LastBreak(s: string): (r: int)
    ensures r < |s|
    ensures r > 0 ==> IsNewline(s[r]) || IsBlank(s[r])
  {
    var n := LastNewline(s);
    if n > 0 then n else LastBlank(s)
  }

  /** The length that leaves room for closing a code block. */
  function EffectiveLimit(maxLen: nat): (e: nat)
    requires maxLen >= 1
    ensures 1 <= e <= maxLen
    ensures maxLen >= 10 ==> 5 <= e <= maxLen - 5
  {
    var buffer := Min(Max(maxLen / 10, 50), maxLen / 2);
    Max(maxLen - buffer, maxLen / 2)
  }

  /** Where the opening line of the fence at `u` ends. */
  function HeaderEnd(content: string, u: nat): (h: int)
    requires FenceAt(content, u)
    ensures u + 3 <= h <= |content|
  {
    var n := IndexFrom(content, u, '\n');
    if n == -1 then u + 3 else
      assert content[u] != '\n' && content[u + 1] != '\n' && content[u + 2] != '\n';
      n
  }

  lemma HeaderEndIsFirst(content: string, u: nat, i: nat)
    requires FenceAt(content, u) && u <= i < |content| && content[i] == '\n'
    ensures HeaderEnd(content, u) <= i
  {
    IndexFromIsFirst(content, u, '\n', i);
  }

  /** The opening line of the fence at `u`, such as "```go". */
  function Header(content: string, u: nat): string
    requires FenceAt(content, u)
  {
    TrimSpace(content[u..HeaderEnd(content, u)])
  }

  /** Every fence line leaves room for at least one more character next to it and the closing fence. */
  ghost predicate HeadersFit(content: string, maxLen: nat) {
    forall u | FenceAt(content, u) :: |Header(content, u)| < maxLen - 6
  }

  /**
   * Where the next chunk ends. A `reopen` cut goes through a code block: the chunk gets a closing fence
   * and the remaining text starts again with `header`.
   */
  datatype Cut = Cut(end: nat, reopen: bool, header: string)

  /**
   * What the source's slicing demands: a text with a fence may be cut at maxLen-5.
   */
  ghost predicate Splittable(content: string, maxLen: nat) {
    1 <= maxLen && (NoFence(content) || 5 <= maxLen)
  }

  /** The end of the next chunk when code fences are ignored. */
  function NaturalEnd(content: string, maxLen: nat): (e: nat)
    requires 1 <= maxLen <= |content|
    ensures 1 <= e <= EffectiveLimit(maxLen)
  {
    var limit := EffectiveLimit(maxLen);
    var e := LastBreak(content[..limit]);
    if e > 0 then e else limit
  }

  /** The cut for a chunk that would end inside the block opened at `u`, when its closing fence is too far away. */
  function CutInBlock(content: string, maxLen: nat, end: nat, u: nat): (cut: Cut)
    requires 5 <= maxLen < |content| && FenceAt(content, u)
  {
    var headerEnd := HeaderEnd(content, u);
    var header := Header(content, u);
    if end > headerEnd + 20 then
      var better := LastNewline(content[..maxLen - 5]);
      Cut(if better > headerEnd then better else maxLen - 5, true, header)
    else
      var before := LastBreak(content[..u]);
      if before > 0 then Cut(before, false, "")
      else if u > 20 then Cut(u, false, "")
      else Cut(maxLen - 5, true, header)
  }

  function NextCut(content: string, maxLen: nat): (cut: Cut)
    requires Splittable(content, maxLen) && maxLen < |content|
  {
    var end := NaturalEnd(content, maxLen);
    var u := LastUnclosed(content[..end]);
    if u < 0 then Cut(end, false, "")
    else
      assert FenceAt(content, u);
      var closing := NextClosing(content, end);
      if 0 < closing <= maxLen then Cut(closing, false, "")
      else CutInBlock(content, maxLen, end, u)
  }

  /** The chunk sent for a cut. */
  function Chunk(content: string, cut: Cut): string
    requires cut.end <= |content|
  {
    if cut.reopen then TrimRight(content[..cut.end]) + "\n" + FENCE else content[..cut.end]
  }

  /** The text left to split after a cut. */
  function Rest(content: string, cut: Cut): string
    requires cut.end <= |content|
  {
    if cut.reopen then TrimSpace(cut.header + "\n" + content[cut.end..]) else TrimSpace(content[cut.end..])
  }

  lemma CutInRange(content: string, maxLen: nat)
    requires Splittable(content, maxLen) && maxLen < |content|
    ensures var cut := NextCut(content, maxLen);
            cut.end <= maxLen && (cut.end == 0 ==> cut.reopen) && (cut.reopen ==> cut.end + 5 <= maxLen)
  {
    var end := NaturalEnd(content, maxLen);
    var u := LastUnclosed(content[..end]);
    if u >= 0 {
      assert FenceAt(content, u);
    }
  }

  /** A line break found within maxLen-5 is no earlier than the natural end of the chunk. */
  lemma BetterIsLater(content: string, maxLen: nat)
    requires 10 <= maxLen < |content|
    ensures var better := LastNewline(content[..maxLen - 5]);
            better <= 0 || NaturalEnd(content, maxLen) <= better
  {
    var limit := EffectiveLimit(maxLen);
    var better := LastNewline(content[..maxLen - 5]);
    var natural := LastNewline(content[..limit]);
    if 0 < better < limit {
      LastWithinIsLast(content[..limit], 200, IsNewline, better);
      if better < natural {
        LastWithinIsLast(content[..maxLen - 5], 200, IsNewline, natural);
      }
    }
  }

  /**
   * A cut that reopens a block ends more than 20 characters past the block's header, or is the last
   * resort: at maxLen-5, with the block opening at most 20 characters into the text.
   */
  lemma ReopenShape(content: string, maxLen: nat) returns (u: nat)
    requires Splittable(content, maxLen) && maxLen < |content| && NextCut(content, maxLen).reopen
    ensures FenceAt(content, u)
    ensures var cut := NextCut(content, maxLen);
            && cut.header == Header(content, u)
            && (cut.end == maxLen - 5 || cut.end > HeaderEnd(content, u) + 20)
            && (cut.end > HeaderEnd(content, u) + 20 || u <= 20)
  {
    var end := NaturalEnd(content, maxLen);
    u := LastUnclosed(content[..end]);
    assert FenceAt(content, u);
    if end > HeaderEnd(content, u) + 20 {
      BetterIsLater(content, maxLen);
    }
  }

  /** A cut into a text whose fence lines fit always moves forward. */
  lemma StepShrinks(content: string, maxLen: nat)
    requires 1 <= maxLen < |content| && HeadersFit(content, maxLen)
    ensures Splittable(content, maxLen)
    ensures var cut := NextCut(content, maxLen); cut.end <= maxLen && |Rest(content, cut)| < |content|
  {
    HeadersNeedRoom(content, maxLen);
    CutInRange(content, maxLen);
    var cut := NextCut(content, maxLen);
    if cut.reopen {
      var u := ReopenShape(content, maxLen);
      HeaderShape(content, u);
      TrimSpaceTrims(cut.header + "\n" + content[cut.end..]);
    } else {
      TrimSpaceTrims(content[cut.end..]);
    }
  }

  /** A header keeps the opening fence, is trimmed, and is no longer than its line. */
  lemma HeaderShape(content: string, u: nat)
    requires FenceAt(content, u)
    ensures var h := Header(content, u);
            Trimmed(h) && 3 <= |h| <= HeaderEnd(content, u) - u && h == content[u..u + |h|]
  {
    var line := content[u..HeaderEnd(content, u)];
    TrimSpaceKeepsHead(line, 3);
    TrimSpaceTrims(line);
    assert Header(content, u) == line[..|Header(content, u)|];
  }

  /** A fence line that fits needs a limit of at least 10. */
  lemma HeadersNeedRoom(content: string, maxLen: nat)
    requires 1 <= maxLen && HeadersFit(content, maxLen)
    ensures NoFence(content) || 10 <= maxLen
    ensures Splittable(content, maxLen)
  {
    if u :| FenceAt(content, u) {
      HeaderShape(content, u);
    }
  }

  /** The fences of the remaining text are fences of the old text, with the same lines, or lie in the header. */
  lemma HeadersStillFit(content: string, maxLen: nat)
    requires 1 <= maxLen < |content| && HeadersFit(content, maxLen) && Splittable(content, maxLen)
    requires NextCut(content, maxLen).end <= |content|
    ensures HeadersFit(Rest(content, NextCut(content, maxLen)), maxLen)
  {
    var cut := NextCut(content, maxLen);
    if cut.reopen {
      var u := ReopenShape(content, maxLen);
      HeadersFitSuffix(content, cut.end, maxLen);
      HeadersFitJoined(cut.header, content[cut.end..], maxLen);
      HeadersFitTrimmed(cut.header + "\n" + content[cut.end..], maxLen);
    } else {
      HeadersFitSuffix(content, cut.end, maxLen);
      HeadersFitTrimmed(content[cut.end..], maxLen);
    }
  }

  /** The header of a fence depends only on the text from that fence on. */
  lemma HeaderOfSuffix(a: string, s: string, i: nat)
    requires FenceAt(s, i)
    ensures FenceAt(a + s, |a| + i) && Header(a + s, |a| + i) == Header(s, i)
  {
    IndexFromShift(a, s, i, '\n');
    assert (a + s)[|a| + i..|a| + HeaderEnd(s, i)] == s[i..HeaderEnd(s, i)];
  }

  lemma {:induction false} IndexFromShift(a: string, s: string, i: nat, c: char)
    requires i <= |s|
    ensures IndexFrom(a + s, |a| + i, c) == if IndexFrom(s, i, c) < 0 then -1 else |a| + IndexFrom(s, i, c)
    decreases |s| - i
  {
    if i < |s| && s[i] != c {
      IndexFromShift(a, s, i + 1, c);
    }
  }

  lemma HeadersFitSuffix(content: string, k: nat, maxLen: nat)
    requires k <= |content| && HeadersFit(content, maxLen)
    ensures HeadersFit(content[k..], maxLen)
  {
    var a, s := content[..k], content[k..];
    assert a + s == content;
    forall u | FenceAt(s, u)
      ensures |Header(s, u)| < maxLen - 6
    {
      HeaderOfSuffix(a, s, u);
    }
  }

  /** Cutting a text short leaves the fence lines that still end in it as they are. */
  lemma HeaderOfPrefix(s: string, t: string, u: nat)
    requires FenceAt(s, u)
    ensures FenceAt(s + t, u)
    ensures var n := IndexFrom(s, u, '\n');
            if n >= 0 then Header(s, u) == Header(s + t, u) else |Header(s, u)| == 3
  {
    var n := IndexFrom(s, u, '\n');
    if n >= 0 {
      HeaderEndIsFirst(s + t, u, n);
      var k := IndexFrom(s + t, u, '\n');
      IndexFromIsFirst(s + t, u, '\n', n);
      IndexFromIsFirst(s, u, '\n', k);
      assert (s + t)[u..n] == s[u..n];
    } else {
      HeaderShape(s, u);
    }
  }

  /** Cutting a text short can only shorten its fence lines. */
  lemma HeadersFitPrefix(s: string, t: string, maxLen: nat)
    requires HeadersFit(s + t, maxLen)
    ensures HeadersFit(s, maxLen)
  {
    forall u | FenceAt(s, u)
      ensures |Header(s, u)| < maxLen - 6
    {
      HeaderOfPrefix(s, t, u);
      HeaderShape(s + t, u);
    }
  }

  lemma HeadersFitTrimmed(s: string, maxLen: nat)
    requires HeadersFit(s, maxLen)
    ensures HeadersFit(TrimSpace(s), maxLen)
  {
    var lead, tail := TrimSpaceParts(s);
    assert s == lead + (TrimSpace(s) + tail);
    assert s[|lead|..] == TrimSpace(s) + tail;
    HeadersFitSuffix(s, |lead|, maxLen);
    HeadersFitPrefix(TrimSpace(s), tail, maxLen);
  }

  lemma HeaderInFirstLine(line: string, t: string, i: nat)
    requires FenceAt(line + "\n" + t, i) && i <= |line|
    ensures |Header(line + "\n" + t, i)| <= |line|
  {
    var s := line + "\n" + t;
    assert s[|line|] == '\n';
    HeaderShape(s, i);
    HeaderEndIsFirst(s, i, |line|);
  }

  lemma HeaderPastFirstLine(line: string, t: string, i: nat)
    requires FenceAt(line + "\n" + t, i) && |line| < i
    ensures FenceAt(t, i - |line| - 1) && Header(line + "\n" + t, i) == Header(t, i - |line| - 1)
  {
    FenceInSuffix(line + "\n", t, i);
    HeaderOfSuffix(line + "\n", t, i - |line| - 1);
  }

  lemma HeadersFitJoined(line: string, t: string, maxLen: nat)
    requires |line| < maxLen - 6 && HeadersFit(t, maxLen)
    ensures HeadersFit(line + "\n" + t, maxLen)
  {
    forall i | FenceAt(line + "\n" + t, i)
      ensures |Header(line + "\n" + t, i)| < maxLen - 6
    {
      if i <= |line| {
        HeaderInFirstLine(line, t, i);
      } else {
        HeaderPastFirstLine(line, t, i);
      }
    }
  }

  lemma FenceInSuffix(a: string, s: string, i: nat)
    requires FenceAt(a + s, i) && |a| <= i
    ensures FenceAt(s, i - |a|)
  {
  }

  /** The text left after one turn of the loop on a text that is too long. */
  function AfterTurn(content: string, maxLen: nat): string
    requires Splittable(content, maxLen) && maxLen < |content|
  {
    CutInRange(content, maxLen);
    Rest(content, NextCut(content, maxLen))
  }

  /** The loop ends within `n` turns, and its slices are in range until then. */
  ghost predicate Terminates(content: string, maxLen: nat, n: nat)
    decreases n
  {
    content == [] ||
    (n > 0 &&
     (|content| <= maxLen || (Splittable(content, maxLen) && Terminates(AfterTurn(content, maxLen), maxLen, n - 1))))
  }

  /** When all fence lines fit, the loop ends. */
  lemma {:induction false} HeadersFitTerminates(content: string, maxLen: nat, n: nat)
    requires 1 <= maxLen && HeadersFit(content, maxLen) && |content| <= n
    ensures Terminates(content, maxLen, n)
    decreases |content|
  {
    if |content| > maxLen {
      StepShrinks(content, maxLen);
      HeadersStillFit(content, maxLen);
      HeadersFitTerminates(AfterTurn(content, maxLen), maxLen, n - 1);
    }
  }

  /** A chunk and how it was cut. */
  datatype Piece = Piece(text: string, reopen: bool, header: string)

  /** The whole loop, of at most `n` turns: every chunk, with the header that was re-opened after it. */
  function Split(content: string, maxLen: nat, n: nat): seq<Piece>
    requires Terminates(content, maxLen, n)
    decreases n
  {
    if content == [] then []
    else if |content| <= maxLen then [Piece(content, false, "")]
    else
      CutInRange(content, maxLen);
      var cut := NextCut(content, maxLen);
      [Piece(Chunk(content, cut), cut.reopen, cut.header)] + Split(AfterTurn(content, maxLen), maxLen, n - 1)
  }

  /** How many turns are allowed makes no difference. */
  lemma {:induction false} SplitUnique(content: string, maxLen: nat, m: nat, n: nat)
    requires Terminates(content, maxLen, m) && Terminates(content, maxLen, n)
    ensures Split(content, maxLen, m) == Split(content, maxLen, n)
    decreases m
  {
    if |content| > maxLen && content != [] {
      SplitUnique(AfterTurn(content, maxLen), maxLen, m - 1, n - 1);
    }
  }

  function Texts(pieces: seq<Piece>): seq<string> {
    seq(|pieces|, i requires 0 <= i < |pieces| => pieces[i].text)
  }

  lemma TextsCons(p: Piece, later: seq<Piece>)
    ensures Texts([p] + later) == [p.text] + Texts(later)
  {
  }

  /** One turn of the loop sends one chunk. */
  lemma TextsStep(content: string, maxLen: nat, n: nat)
    requires maxLen < |content| && Terminates(content, maxLen, n)
    ensures n > 0 && Splittable(content, maxLen) && NextCut(content, maxLen).end <= |content|
    ensures Terminates(AfterTurn(content, maxLen), maxLen, n - 1)
    ensures Texts(Split(content, maxLen, n))
         == [Chunk(content, NextCut(content, maxLen))] + Texts(Split(AfterTurn(content, maxLen), maxLen, n - 1))
  {
    CutInRange(content, maxLen);
    var cut := NextCut(content, maxLen);
    TextsCons(Piece(Chunk(content, cut), cut.reopen, cut.header), Split(AfterTurn(content, maxLen), maxLen, n - 1));
  }
}
