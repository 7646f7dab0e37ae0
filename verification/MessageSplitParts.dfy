/** The chunks of a message are its parts: whitespace is dropped only where the text is cut. */
module MessageSplitParts {
  import opened Text
  import opened MessageSplit
  import opened MessageSplitTheorems

  /** Only whitespace lies between two indices. */
  ghost predicate Gap(s: string, from: nat, to: nat) {
    from <= to <= |s| && AllSpace(s[from..to])
  }

  /** A chunk without the closing fence that was added to it. */
  function Body(p: Piece): string {
    if p.reopen && |p.text| >= 4 then p.text[..|p.text| - 4] else p.text
  }

  /** What the later chunks carry after a chunk: the text from `k` on, behind the header that was reopened. */
  function Onward(p: Piece, content: string, k: nat): string
    requires k <= |content|
  {
    if p.reopen then p.header + "\n" + content[k..] else content[k..]
  }

  /**
   * The chunks follow one another in the text with nothing but whitespace between them, except that a cut
   * through a block adds a closing fence to the chunk and puts the block's header in front of what follows.
   */
  ghost predicate Carried(content: string, pieces: seq<Piece>)
    decreases |pieces|
  {
    if pieces == [] then AllSpace(content)
    else
      var p := pieces[0];
      && (p.reopen ==> p.text == Body(p) + "\n" + FENCE)
      && Body(p) <= content
      && exists k: nat :: Gap(content, |Body(p)|, k) && Carried(Onward(p, content, k), pieces[1..])
  }

  lemma GapTail(s: string, t: string, from: nat, to: nat)
    requires Gap(s, from, to)
    ensures Gap(s + t, from, to)
  {
    assert (s + t)[from..to] == s[from..to];
  }

  lemma OnwardTail(p: Piece, content: string, tail: string, k: nat)
    requires k <= |content|
    ensures Onward(p, content + tail, k) == Onward(p, content, k) + tail
  {
    assert (content + tail)[k..] == content[k..] + tail;
  }

  lemma CarriedCons(content: string, p: Piece, k: nat, later: seq<Piece>)
    requires (p.reopen ==> p.text == Body(p) + "\n" + FENCE) && Body(p) <= content
    requires Gap(content, |Body(p)|, k) && Carried(Onward(p, content, k), later)
    ensures Carried(content, [p] + later)
  {
    assert ([p] + later)[1..] == later;
  }

  lemma {:induction false} CarriedTail(content: string, tail: string, pieces: seq<Piece>)
    requires Carried(content, pieces) && AllSpace(tail)
    ensures Carried(content + tail, pieces)
    decreases |pieces|
  {
    if pieces != [] {
      var p, later := pieces[0], pieces[1..];
      var k: nat :| Gap(content, |Body(p)|, k) && Carried(Onward(p, content, k), later);
      CarriedTail(Onward(p, content, k), tail, later);
      GapTail(content, tail, |Body(p)|, k);
      OnwardTail(p, content, tail, k);
      CarriedCons(content + tail, p, k, later);
      assert pieces == [p] + later;
    }
  }

  lemma TrimmedGap(content: string, end: nat)
    requires end <= |content|
    ensures var body := TrimRight(content[..end]); body <= content && Gap(content, |body|, end)
  {
    var body := TrimRight(content[..end]);
    assert content[|body|..end] == content[..end][|body|..];
  }

  lemma ReopenedOnward(header: string, t: string) returns (tail: string)
    requires header != "" && !IsSpace(header[0])
    ensures AllSpace(tail) && header + "\n" + t == TrimSpace(header + "\n" + t) + tail
  {
    var onward := header + "\n" + t;
    var kept := TrimRightBy(onward, IsSpace);
    TrimSpaceKeepsHead(onward, 1);
    tail := onward[|TrimSpace(onward)|..];
    assert kept[0] == onward[0];
  }

  lemma PlainOnward(content: string, end: nat) returns (k: nat, tail: string)
    requires end <= |content|
    ensures Gap(content, end, k) && AllSpace(tail) && content[k..] == TrimSpace(content[end..]) + tail
  {
    var onward, lead := content[end..], [];
    lead, tail := TrimSpaceParts(onward);
    k := end + |lead|;
    assert onward[..|lead|] == lead && onward[|lead|..] == TrimSpace(onward) + tail;
    assert content[end..k] == onward[..|lead|] && content[k..] == onward[|lead|..];
  }

  lemma ReopenedBody(body: string, header: string)
    ensures Body(Piece(body + "\n" + FENCE, true, header)) == body
  {
    assert (body + "\n" + FENCE)[..|body|] == body;
  }

  lemma CarriedReopened(content: string, end: nat, header: string, later: seq<Piece>)
    requires end <= |content| && header != "" && !IsSpace(header[0])
    requires Carried(TrimSpace(header + "\n" + content[end..]), later)
    ensures Carried(content, [Piece(TrimRight(content[..end]) + "\n" + FENCE, true, header)] + later)
  {
    var body := TrimRight(content[..end]);
    TrimmedGap(content, end);
    ReopenedBody(body, header);
    var tail := ReopenedOnward(header, content[end..]);
    CarriedTail(TrimSpace(header + "\n" + content[end..]), tail, later);
    CarriedCons(content, Piece(body + "\n" + FENCE, true, header), end, later);
  }

  lemma CarriedPlain(content: string, end: nat, header: string, later: seq<Piece>)
    requires end <= |content| && Carried(TrimSpace(content[end..]), later)
    ensures Carried(content, [Piece(content[..end], false, header)] + later)
  {
    var k, tail := PlainOnward(content, end);
    CarriedTail(TrimSpace(content[end..]), tail, later);
    CarriedCons(content, Piece(content[..end], false, header), k, later);
  }

  /** Whitespace is dropped only where the text is cut; everything else is sent, once and in order. */
  lemma {:induction false} ChunksCarryText(content: string, maxLen: nat, n: nat)
    requires Terminates(content, maxLen, n)
    ensures Carried(content, Split(content, maxLen, n))
    decreases n
  {
    if |content| > maxLen {
      CutInRange(content, maxLen);
      var cut, later := NextCut(content, maxLen), Split(AfterTurn(content, maxLen), maxLen, n - 1);
      ChunksCarryText(AfterTurn(content, maxLen), maxLen, n - 1);
      if cut.reopen {
        var u := ReopenShape(content, maxLen);
        HeaderShape(content, u);
        CarriedReopened(content, cut.end, cut.header, later);
      } else {
        CarriedPlain(content, cut.end, cut.header, later);
      }
    } else if content != [] {
      CarriedCons(content, Piece(content, false, ""), |content|, []);
    }
  }

  /** The texts follow one another in `content`, with nothing but whitespace between and after them. */
  ghost predicate Consecutive(content: string, texts: seq<string>)
    decreases |texts|
  {
    if texts == [] then AllSpace(content)
    else
      texts[0] <= content && exists k: nat :: Gap(content, |texts[0]|, k) && Consecutive(content[k..], texts[1..])
  }

  lemma {:induction false} CarriedPlainly(content: string, pieces: seq<Piece>)
    requires Carried(content, pieces) && forall p <- pieces :: !p.reopen
    ensures Consecutive(content, Texts(pieces))
    decreases |pieces|
  {
    if pieces != [] {
      var p := pieces[0];
      var k: nat :| Gap(content, |Body(p)|, k) && Carried(Onward(p, content, k), pieces[1..]);
      CarriedPlainly(content[k..], pieces[1..]);
      assert Texts(pieces)[1..] == Texts(pieces[1..]);
    }
  }

  /** The chunks of a text without fences are consecutive parts of it, separated by whitespace only. */
  lemma PlainChunksConsecutive(content: string, maxLen: nat, n: nat)
    requires NoFence(content) && Terminates(content, maxLen, n)
    ensures Consecutive(content, Texts(Split(content, maxLen, n)))
  {
    NothingReopened(content, maxLen, n);
    ChunksCarryText(content, maxLen, n);
    CarriedPlainly(content, Split(content, maxLen, n));
  }
}
