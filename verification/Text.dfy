/** Helpers shared by all models, among them Go's string functions over single-byte characters. */
module Text {

  datatype Option<+T> = None | Some(value: T)

  function Min(a: int, b: int): int { if a < b then a else b }

  function Max(a: int, b: int): int { if a < b then b else a }

  /** The ASCII characters `unicode.IsSpace` accepts. */
  predicate IsSpace(c: char) {
    c == ' ' || c == '\t' || c == '\n' || c == '\r' || c == '\U{0B}' || c == '\U{0C}'
  }

  ghost predicate AllSpace(s: string) {
    forall i | 0 <= i < |s| :: IsSpace(s[i])
  }

  /** The cut set " \t\n\r" that the splitter passes to `strings.TrimRight`. */
  predicate IsTrailing(c: char) {
    c == ' ' || c == '\t' || c == '\n' || c == '\r'
  }

  function TrimLeft(s: string): (r: string)
    ensures r != [] ==> !IsSpace(r[0])
  {
    if s != [] && IsSpace(s[0]) then TrimLeft(s[1..]) else s
  }

  /** Drops the trailing characters that satisfy `drop`. */
  function TrimRightBy(s: string, drop: char -> bool): (r: string)
    ensures r <= s && (forall i | |r| <= i < |s| :: drop(s[i]))
    ensures r != [] ==> !drop(r[|r| - 1])
  {
    if s != [] && drop(s[|s| - 1]) then
      var r := TrimRightBy(s[..|s| - 1], drop);
      assert forall i | 0 <= i < |s| - 1 :: s[..|s| - 1][i] == s[i];
      r
    else s
  }

  /** `strings.TrimSpace` */
  function TrimSpace(s: string): string {
    TrimLeft(TrimRightBy(s, IsSpace))
  }

  /** `strings.TrimRight(s, " \t\n\r")` */
  function TrimRight(s: string): string {
    TrimRightBy(s, IsTrailing)
  }

  lemma TrimLeftParts(s: string) returns (lead: string)
    ensures s == lead + TrimLeft(s) && AllSpace(lead)
  {
    if s != [] && IsSpace(s[0]) {
      var l := TrimLeftParts(s[1..]);
      lead := [s[0]] + l;
    } else {
      lead := [];
    }
  }

  /** Trimming only removes whitespace, and only at the two ends. */
  lemma TrimSpaceParts(s: string) returns (lead: string, tail: string)
    ensures s == lead + TrimSpace(s) + tail && AllSpace(lead) && AllSpace(tail)
    ensures TrimSpace(s) != [] ==> !IsSpace(TrimSpace(s)[0]) && !IsSpace(TrimSpace(s)[|TrimSpace(s)| - 1])
  {
    var kept := TrimRightBy(s, IsSpace);
    lead := TrimLeftParts(kept);
    tail := s[|kept|..];
    var t := TrimSpace(s);
    if t != [] {
      assert kept[|kept| - 1] == t[|t| - 1];
    }
  }

  /** A text that neither starts nor ends with whitespace. */
  predicate Trimmed(s: string) {
    s != [] ==> !IsSpace(s[0]) && !IsSpace(s[|s| - 1])
  }

  lemma TrimSpaceFixed(s: string)
    requires Trimmed(s)
    ensures TrimSpace(s) == s
  {
  }

  /** A text that starts with a non-space keeps its head when trimmed, up to any other non-space. */
  lemma TrimSpaceKeepsHead(s: string, k: nat)
    requires 0 < k <= |s| && !IsSpace(s[0]) && !IsSpace(s[k - 1])
    ensures TrimSpace(s) <= s && k <= |TrimSpace(s)|
  {
    var r := TrimRightBy(s, IsSpace);
    assert r[0] == s[0];
  }

  lemma TrimSpaceTrims(s: string)
    ensures Trimmed(TrimSpace(s)) && |TrimSpace(s)| <= |s|
    ensures forall c <- TrimSpace(s) :: c in s
  {
    var lead, tail := TrimSpaceParts(s);
  }

  /** Nothing is left of a text exactly when it is all whitespace. */
  lemma TrimSpaceEmptyIff(s: string)
    ensures TrimSpace(s) == "" <==> AllSpace(s)
  {
    var lead, tail := TrimSpaceParts(s);
    var t := TrimSpace(s);
    if t != "" {
      assert s[|lead|] == t[0];
    } else {
      assert s == lead + tail;
    }
  }

  function ToLowerChar(c: char): char {
    if 'A' <= c <= 'Z' then c - 'A' + 'a' else c
  }

  /** `strings.ToLower` */
  function ToLower(s: string): (r: string)
    ensures |r| == |s| && forall i | 0 <= i < |s| :: r[i] == ToLowerChar(s[i])
  {
    seq(|s|, i requires 0 <= i < |s| => ToLowerChar(s[i]))
  }

  /** The same character, or the two cases of one letter. */
  predicate SameLetter(c: char, d: char) {
    c == d || ('A' <= c <= 'Z' && d as int == c as int + 32) || ('A' <= d <= 'Z' && c as int == d as int + 32)
  }

  lemma SameLetterIff(c: char, d: char)
    ensures ToLowerChar(c) == ToLowerChar(d) <==> SameLetter(c, d)
  {
  }

  ghost predicate SameLetters(s: string, t: string) {
    |s| == |t| && forall i | 0 <= i < |s| :: SameLetter(s[i], t[i])
  }

  /** Two texts are folded to the same one exactly when they differ in the case of letters at most. */
  lemma ToLowerFoldsIff(s: string, t: string)
    ensures ToLower(s) == ToLower(t) <==> SameLetters(s, t)
  {
    var a, b := ToLower(s), ToLower(t);
    if |s| == |t| {
      forall i | 0 <= i < |s|
        ensures a[i] == b[i] <==> SameLetter(s[i], t[i])
      {
        SameLetterIff(s[i], t[i]);
      }
    }
  }

  /** Folding leaves no upper-case letter, and changes nothing else. */
  lemma ToLowerIsLower(s: string)
    ensures SameLetters(ToLower(s), s) && forall i | 0 <= i < |s| :: !('A' <= ToLower(s)[i] <= 'Z')
  {
    ToLowerFoldsIff(ToLower(s), s);
    assert ToLower(ToLower(s)) == ToLower(s);
  }

  /** The characters of `s` that are not whitespace, in order. */
  function Strip(s: string): string {
    if s == [] then []
    else if IsSpace(s[0]) then Strip(s[1..])
    else [s[0]] + Strip(s[1..])
  }

  lemma {:induction false} StripConcat(a: string, b: string)
    ensures Strip(a + b) == Strip(a) + Strip(b)
  {
    if a == [] {
      assert a + b == b;
    } else {
      StripConcat(a[1..], b);
      assert (a + b)[1..] == a[1..] + b && (a + b)[0] == a[0];
    }
  }

  lemma StripJoin(a: string, space: string, b: string)
    requires AllSpace(space)
    ensures Strip(a + space + b) == Strip(a) + Strip(b)
  {
    StripConcat(a + space, b);
    StripConcat(a, space);
    StripSpace(space);
    assert Strip(a) + [] == Strip(a);
  }

  lemma {:induction false} StripSpace(s: string)
    requires AllSpace(s)
    ensures Strip(s) == []
  {
    if s != [] {
      StripSpace(s[1..]);
    }
  }

  lemma StripTrimSpace(s: string)
    ensures Strip(TrimSpace(s)) == Strip(s)
  {
    var lead, tail := TrimSpaceParts(s);
    StripConcat(lead + TrimSpace(s), tail);
    StripConcat(lead, TrimSpace(s));
    StripSpace(lead);
    StripSpace(tail);
  }

  lemma StripTrimRight(s: string)
    ensures Strip(TrimRight(s)) == Strip(s)
  {
    var t := TrimRight(s);
    StripSpace(s[|t|..]);
    StripConcat(t, s[|t|..]);
    assert s == t + s[|t|..];
  }

  /** The last index at or after `lo` whose character satisfies `p`, or -1. */
  function LastIndex(s: string, lo: nat, p: char -> bool): (r: int)
    ensures r == -1 || (lo <= r < |s| && p(s[r]))
  {
    if |s| <= lo then -1
    else if p(s[|s| - 1]) then |s| - 1
    else LastIndex(s[..|s| - 1], lo, p)
  }

  lemma {:induction false} LastIndexIsLast(s: string, lo: nat, p: char -> bool, i: nat)
    requires lo <= i < |s| && p(s[i])
    ensures i <= LastIndex(s, lo, p)
  {
    if !p(s[|s| - 1]) {
      LastIndexIsLast(s[..|s| - 1], lo, p, i);
    }
  }

  /** The first index at or after `lo` whose character is `c`, or -1. */
  function IndexFrom(s: string, lo: nat, c: char): (r: int)
    requires lo <= |s|
    ensures r == -1 || (lo <= r < |s| && s[r] == c)
    decreases |s| - lo
  {
    if lo == |s| then -1 else if s[lo] == c then lo else IndexFrom(s, lo + 1, c)
  }

  lemma {:induction false} IndexFromIsFirst(s: string, lo: nat, c: char, i: nat)
    requires lo <= i < |s| && s[i] == c
    ensures lo <= IndexFrom(s, lo, c) <= i
    decreases |s| - lo
  {
    if s[lo] != c {
      IndexFromIsFirst(s, lo + 1, c, i);
    }
  }

  function Digit(n: nat): char
    requires n < 10
  {
    '0' + n as char
  }

  /** `%d` of a number that is not negative. */
  function Decimal(n: nat): (r: string)
    ensures r != [] && forall c <- r :: '0' <= c <= '9'
  {
    if n < 10 then [Digit(n)] else Decimal(n / 10) + [Digit(n % 10)]
  }
}
