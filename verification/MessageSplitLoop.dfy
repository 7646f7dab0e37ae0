/** The splitter as the source writes it: loops over indices, proved against `MessageSplit`. */
module MessageSplitLoop {
  import opened Text
  import opened MessageSplit
  import Parts = MessageSplitParts
  import Theorems = MessageSplitTheorems

  method FindLastUnclosedCodeBlock(text: string) returns (u: int)
    ensures u == LastUnclosed(text)
  {
    var inCodeBlock, lastOpenIdx := false, -1;
    var i := 0;
    while i < |text|
      invariant 0 <= i <= |text| && -1 <= lastOpenIdx < |text|
      invariant inCodeBlock ==> FenceAt(text, lastOpenIdx)
      invariant LastUnclosed(text) == ScanUnclosed(text, i, if inCodeBlock then lastOpenIdx else -1)
    {
      if i + 2 < |text| && text[i] == '`' && text[i + 1] == '`' && text[i + 2] == '`' {
        if !inCodeBlock {
          lastOpenIdx := i;
        }
        inCodeBlock := !inCodeBlock;
        i := i + 2;
      }
      i := i + 1;
    }
    u := if inCodeBlock then lastOpenIdx else -1;
  }

  method FindNextClosingCodeBlock(text: string, startIdx: nat) returns (c: int)
    requires startIdx <= |text|
    ensures c == NextClosing(text, startIdx)
  {
    for i := startIdx to |text|
      invariant NextClosing(text, startIdx) == NextClosing(text, i)
    {
      if i + 2 < |text| && text[i] == '`' && text[i + 1] == '`' && text[i + 2] == '`' {
        return i + 3;
      }
    }
    return -1;
  }

  method FindLastNewline(s: string, searchWindow: nat) returns (r: int)
    ensures r == LastWithin(s, searchWindow, IsNewline)
  {
    var searchStart := Max(|s| - searchWindow, 0);
    var i := |s| - 1;
    assert s[..|s|] == s;
    while i >= searchStart
      invariant searchStart - 1 <= i < |s|
      invariant LastWithin(s, searchWindow, IsNewline) == LastIndex(s[..i + 1], searchStart, IsNewline)
    {
      assert s[..i + 1][..i] == s[..i];
      if s[i] == '\n' {
        return i;
      }
      i := i - 1;
    }
    return -1;
  }

  method FindLastSpace(s: string, searchWindow: nat) returns (r: int)
    ensures r == LastWithin(s, searchWindow, IsBlank)
  {
    var searchStart := Max(|s| - searchWindow, 0);
    var i := |s| - 1;
    assert s[..|s|] == s;
    while i >= searchStart
      invariant searchStart - 1 <= i < |s|
      invariant LastWithin(s, searchWindow, IsBlank) == LastIndex(s[..i + 1], searchStart, IsBlank)
    {
      assert s[..i + 1][..i] == s[..i];
      if s[i] == ' ' || s[i] == '\t' {
        return i;
      }
      i := i - 1;
    }
    return -1;
  }

  /** The cut of one turn of the loop, computed with the helpers above. */
  method FindCut(content: string, maxLen: nat) returns (cut: Cut)
    requires Splittable(content, maxLen) && maxLen < |content|
    ensures cut == NextCut(content, maxLen)
  {
    var codeBlockBuffer := Max(maxLen / 10, 50);
    codeBlockBuffer := Min(codeBlockBuffer, maxLen / 2);
    var effectiveLimit := Max(maxLen - codeBlockBuffer, maxLen / 2);
    assert effectiveLimit == EffectiveLimit(maxLen);
    var msgEnd := FindLastNewline(content[..effectiveLimit], 200);
    if msgEnd <= 0 {
      msgEnd := FindLastSpace(content[..effectiveLimit], 100);
    }
    if msgEnd <= 0 {
      msgEnd := effectiveLimit;
    }
    var unclosedIdx := FindLastUnclosedCodeBlock(content[..msgEnd]);
    if unclosedIdx >= 0 {
      assert FenceAt(content, unclosedIdx);
      var closingIdx := FindNextClosingCodeBlock(content, msgEnd);
      if closingIdx > 0 && closingIdx <= maxLen {
        msgEnd := closingIdx;
      } else {
        cut := FindCutInBlock(content, maxLen, msgEnd, unclosedIdx);
        return;
      }
    }
    return Cut(msgEnd, false, "");
  }

  method FindCutInBlock(content: string, maxLen: nat, end: nat, unclosedIdx: nat) returns (cut: Cut)
    requires 5 <= maxLen < |content| && FenceAt(content, unclosedIdx)
    ensures cut == CutInBlock(content, maxLen, end, unclosedIdx)
  {
    var headerEnd := IndexFrom(content, unclosedIdx, '\n');
    if headerEnd == -1 {
      headerEnd := unclosedIdx + 3;
    }
    var header := TrimSpace(content[unclosedIdx..headerEnd]);
    if end > headerEnd + 20 {
      var innerLimit := maxLen - 5;
      var betterEnd := FindLastNewline(content[..innerLimit], 200);
      return Cut(if betterEnd > headerEnd then betterEnd else innerLimit, true, header);
    }
    var newEnd := FindLastNewline(content[..unclosedIdx], 200);
    if newEnd <= 0 {
      newEnd := FindLastSpace(content[..unclosedIdx], 100);
    }
    if newEnd > 0 {
      return Cut(newEnd, false, "");
    } else if unclosedIdx > 20 {
      return Cut(unclosedIdx, false, "");
    }
    return Cut(maxLen - 5, true, header);
  }

  /** What is appended to the messages for a cut, and the content that is left. */
  method TakeCut(content: string, cut: Cut) returns (message: string, rest: string)
    requires cut.end <= |content|
    ensures message == Chunk(content, cut) && rest == Rest(content, cut)
  {
    if cut.reopen {
      message := TrimRight(content[..cut.end]) + "\n```";
      rest := TrimSpace(cut.header + "\n" + content[cut.end..]);
    } else {
      message := content[..cut.end];
      rest := TrimSpace(content[cut.end..]);
    }
  }

  /** One turn of the loop on a text that is too long. */
  method NextMessage(content: string, maxLen: nat, ghost n: nat) returns (message: string, rest: string)
    requires maxLen < |content| && Terminates(content, maxLen, n)
    ensures n > 0 && Terminates(rest, maxLen, n - 1)
    ensures Texts(Split(content, maxLen, n)) == [message] + Texts(Split(rest, maxLen, n - 1))
  {
    TextsStep(content, maxLen, n);
    var cut := FindCut(content, maxLen);
    message, rest := TakeCut(content, cut);
  }

  lemma LastText(content: string, maxLen: nat, n: nat)
    requires Terminates(content, maxLen, n) && 0 < |content|
    ensures |content| <= maxLen ==> Texts(Split(content, maxLen, n)) == [content]
  {
  }

  lemma PassOn(messages: seq<string>, message: string, later: seq<string>)
    ensures messages + ([message] + later) == messages + [message] + later
  {
  }

  /** `n` bounds the number of turns; what is sent does not depend on it. */
  method SplitMessage(text: string, maxLen: nat, ghost n: nat) returns (messages: seq<string>)
    requires Terminates(text, maxLen, n)
    ensures messages == Texts(Split(text, maxLen, n))
    ensures Promises(text, maxLen, messages)
  {
    messages := [];
    var content := text;
    ghost var left, todo := n, Texts(Split(text, maxLen, n));
    while |content| > 0
      invariant Terminates(content, maxLen, left)
      invariant todo == Texts(Split(content, maxLen, left))
      invariant messages + todo == Texts(Split(text, maxLen, n))
      decreases left
    {
      LastText(content, maxLen, left);
      if |content| <= maxLen {
        messages, todo := messages + [content], [];
        break;
      }
      var message;
      message, content := NextMessage(content, maxLen, left);
      left := left - 1;
      PassOn(messages, message, Texts(Split(content, maxLen, left)));
      messages, todo := messages + [message], Texts(Split(content, maxLen, left));
    }
    assert todo == [];
    PromisesHold(text, maxLen, n);
  }

  /**
   * What the messages promise: a text that fits is sent as it is; they are bounded, balanced for proper
   * Markdown, and consecutive parts of plain text.
   */
  ghost predicate Promises(text: string, maxLen: nat, messages: seq<string>) {
    && (forall m <- messages :: 0 < |m| <= maxLen) && (0 < |text| <= maxLen ==> messages == [text])
    && (Theorems.LineStart(text) && Theorems.Balanced(text) && (NoFence(text) || 10 <= maxLen) ==>
          forall m <- messages :: Theorems.Balanced(m))
    && (NoFence(text) ==> Parts.Consecutive(text, messages))
  }

  lemma BoundedTexts(pieces: seq<Piece>, maxLen: nat)
    requires forall p <- pieces :: 0 < |p.text| <= maxLen
    ensures forall m <- Texts(pieces) :: 0 < |m| <= maxLen
  {
    forall i | 0 <= i < |pieces|
      ensures 0 < |Texts(pieces)[i]| <= maxLen
    {
      assert pieces[i] in pieces;
    }
  }

  lemma BalancedTexts(pieces: seq<Piece>)
    requires forall p <- pieces :: Theorems.Balanced(p.text)
    ensures forall m <- Texts(pieces) :: Theorems.Balanced(m)
  {
    forall i | 0 <= i < |pieces|
      ensures Theorems.Balanced(Texts(pieces)[i])
    {
      assert pieces[i] in pieces;
    }
  }

  lemma PromisesHold(text: string, maxLen: nat, n: nat)
    requires Terminates(text, maxLen, n)
    ensures Promises(text, maxLen, Texts(Split(text, maxLen, n)))
  {
    if text != "" {
      LastText(text, maxLen, n);
    }
    Theorems.ChunksBounded(text, maxLen, n);
    BoundedTexts(Split(text, maxLen, n), maxLen);
    if Theorems.LineStart(text) && Theorems.Balanced(text) && (NoFence(text) || 10 <= maxLen) {
      Theorems.ChunksBalanced(text, maxLen, n);
      BalancedTexts(Split(text, maxLen, n));
    }
    if NoFence(text) {
      Parts.PlainChunksConsecutive(text, maxLen, n);
    }
  }
}
