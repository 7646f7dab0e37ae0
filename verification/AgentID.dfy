/** Agent and account ids and how they are normalized. */
module AgentID {
  import opened Text

  const DEFAULT_AGENT := "main"
  const DEFAULT_ACCOUNT := "default"
  const MAX_ID := 64

  predicate IsAlnum(c: char) { 'a' <= c <= 'z' || '0' <= c <= '9' }

  predicate IsIdChar(c: char) { IsAlnum(c) || c == '_' || c == '-' }

  ghost predicate IdChars(s: string) {
    forall i | 0 <= i < |s| :: IsIdChar(s[i])
  }

  predicate AllIdChars(s: string)
    ensures AllIdChars(s) <==> IdChars(s)
  {
    s == [] || (AllIdChars(s[..|s| - 1]) && IsIdChar(s[|s| - 1]))
  }

  /** Matches `^[a-z0-9][a-z0-9_-]{0,63}$`. */
  predicate ValidID(s: string) {
    0 < |s| <= MAX_ID && IsAlnum(s[0]) && AllIdChars(s)
  }

  function DropInvalid(s: string): (r: string)
    ensures |r| <= |s| && (s != [] && !IsIdChar(s[0]) ==> |r| < |s|)
  {
    if s != [] && !IsIdChar(s[0]) then DropInvalid(s[1..]) else s
  }

  /** Replaces each run of other characters by one dash. */
  function Collapse(s: string): (r: string)
    ensures IdChars(r)
    decreases |s|
  {
    if s == [] then []
    else if IsIdChar(s[0]) then [s[0]] + Collapse(s[1..])
    else ['-'] + Collapse(DropInvalid(s))
  }

  function DropLeadingDashes(s: string): (r: string)
    ensures IdChars(s) ==> IdChars(r)
    ensures r != [] ==> r[0] != '-'
  {
    if s != [] && s[0] == '-' then DropLeadingDashes(s[1..]) else s
  }

  function DropTrailingDashes(s: string): string {
    TrimRightBy(s, c => c == '-')
  }

  /** An id with each run of other characters replaced, and without dashes at its ends. */
  function Cleaned(lower: string): string {
    DropTrailingDashes(DropLeadingDashes(Collapse(lower)))
  }

  function Sanitized(lower: string, default: string): string {
    var result := Cleaned(lower);
    var short := if |result| > MAX_ID then result[..MAX_ID] else result;
    if short == "" then default else short
  }

  function NormalizeID(id: string, default: string): string {
    var trimmed := TrimSpace(id);
    if trimmed == "" then default
    else
      var lower := ToLower(trimmed);
      if ValidID(lower) then lower else Sanitized(lower, default)
  }

  function NormalizeAgentID(id: string): string { NormalizeID(id, DEFAULT_AGENT) }

  function NormalizeAccountID(id: string): string { NormalizeID(id, DEFAULT_ACCOUNT) }

  /** Case and outer whitespace make no difference, and a blank id becomes the default. */
  lemma NormalizeFoldsCase(a: string, b: string, default: string)
    ensures SameLetters(TrimSpace(a), TrimSpace(b)) ==> NormalizeID(a, default) == NormalizeID(b, default)
    ensures AllSpace(a) ==> NormalizeID(a, default) == default
  {
    ToLowerFoldsIff(TrimSpace(a), TrimSpace(b));
    TrimSpaceEmptyIff(a);
  }

  /** A proper id: up to 64 id characters, the first of which is not a dash. */
  ghost predicate ProperID(s: string) {
    0 < |s| <= MAX_ID && IdChars(s) && s[0] != '-'
  }

  lemma NormalizedIsProper(id: string, default: string)
    requires ProperID(default)
    ensures ProperID(NormalizeID(id, default))
  {
    var lower := ToLower(TrimSpace(id));
    var result := Cleaned(lower);
    assert result <= DropLeadingDashes(Collapse(lower));
  }

  lemma {:induction false} CollapseFixed(s: string)
    requires IdChars(s)
    ensures Collapse(s) == s
  {
    if s != [] {
      CollapseFixed(s[1..]);
    }
  }

  lemma ProperIsPlain(s: string)
    requires ProperID(s)
    ensures Trimmed(s) && TrimSpace(s) == s && ToLower(s) == s && ':' !in s
  {
    assert Trimmed(s);
    TrimSpaceFixed(s);
    assert ToLower(s) == s;
  }

  /**
   * Normalizing a proper id again leaves it alone, unless it starts with an underscore and ends with a
   * dash: only then are the dashes at its end cut off once more.
   */
  lemma NormalizeAgainIff(s: string, default: string)
    requires ProperID(s)
    ensures NormalizeID(s, default) == s <==> !(s[0] == '_' && s[|s| - 1] == '-')
  {
    ProperIsPlain(s);
    if !IsAlnum(s[0]) {
      CollapseFixed(s);
      assert DropLeadingDashes(s) == s;
      var r := DropTrailingDashes(s);
      if s[|s| - 1] == '-' {
        assert |r| < |s|;
      }
    }
  }

  /** The cut at 64 characters leaves a dash at the end of an id that starts with an underscore. */
  predicate CutAtDash(id: string) {
    var cleaned := Cleaned(ToLower(TrimSpace(id)));
    |cleaned| > MAX_ID && cleaned[0] == '_' && cleaned[MAX_ID - 1] == '-'
  }

  lemma CleanedEnds(lower: string)
    ensures var c := Cleaned(lower); c != "" ==> c[|c| - 1] != '-'
  {
  }

  /** What is normalized starts with an underscore and ends with a dash exactly for ids cut at a dash. */
  lemma CutAtDashShows(id: string, default: string)
    requires ValidID(default)
    ensures var n := NormalizeID(id, default); n != "" && (n[0] == '_' && n[|n| - 1] == '-' <==> CutAtDash(id))
  {
    var lower := ToLower(TrimSpace(id));
    NormalizedIsProper(id, default);
    CleanedEnds(lower);
    if ValidID(lower) {
      ValidIsClean(lower);
    }
  }

  /** A valid id is not changed by cleaning, except for dashes at its end. */
  lemma ValidIsClean(s: string)
    requires ValidID(s)
    ensures |Cleaned(s)| <= MAX_ID
  {
    CollapseFixed(s);
  }

  /** Normalizing is idempotent exactly for the ids that are not cut at a dash. */
  lemma NormalizeIdempotentIff(id: string)
    ensures NormalizeAgentID(NormalizeAgentID(id)) == NormalizeAgentID(id) <==> !CutAtDash(id)
  {
    NormalizedIsProper(id, DEFAULT_AGENT);
    CutAtDashShows(id, DEFAULT_AGENT);
    NormalizeAgainIff(NormalizeAgentID(id), DEFAULT_AGENT);
  }

  /** There are such ids: cutting at 64 characters can leave a dash at the end. */
  lemma NormalizeNotIdempotent(id: string)
    requires |id| == 65 && id[0] == '_' && id[63] == '-' && id[64] == 'b'
    requires forall i | 0 < i < 63 :: id[i] == 'a'
    ensures NormalizeAgentID(id) == id[..64] && NormalizeAgentID(id[..64]) != id[..64]
  {
    assert IdChars(id);
    assert Trimmed(id);
    TrimSpaceFixed(id);
    assert ToLower(id) == id;
    CollapseFixed(id);
    NormalizeAgainIff(id[..64], DEFAULT_AGENT);
  }

  /** The characters that normalizing keeps: letters, digits and underscores. */
  function Letters(s: string): string {
    if s == [] then []
    else if IsIdChar(s[0]) && s[0] != '-' then [s[0]] + Letters(s[1..])
    else Letters(s[1..])
  }

  lemma {:induction false} LettersConcat(a: string, b: string)
    ensures Letters(a + b) == Letters(a) + Letters(b)
  {
    if a == [] {
      assert a + b == b;
    } else {
      LettersConcat(a[1..], b);
      assert (a + b)[1..] == a[1..] + b && (a + b)[0] == a[0];
    }
  }

  lemma {:induction false} LettersOfInvalid(s: string)
    ensures Letters(DropInvalid(s)) == Letters(s)
  {
    if s != [] && !IsIdChar(s[0]) {
      LettersOfInvalid(s[1..]);
    }
  }

  lemma {:induction false} LettersOfCollapse(s: string)
    ensures Letters(Collapse(s)) == Letters(s)
    decreases |s|
  {
    if s != [] {
      if IsIdChar(s[0]) {
        LettersOfCollapse(s[1..]);
        assert ([s[0]] + Collapse(s[1..]))[1..] == Collapse(s[1..]);
      } else {
        LettersOfCollapse(DropInvalid(s));
        LettersOfInvalid(s);
        assert (['-'] + Collapse(DropInvalid(s)))[1..] == Collapse(DropInvalid(s));
      }
    }
  }

  lemma {:induction false} LettersOfLeadingDashes(s: string)
    ensures Letters(DropLeadingDashes(s)) == Letters(s)
  {
    if s != [] && s[0] == '-' {
      LettersOfLeadingDashes(s[1..]);
    }
  }

  lemma {:induction false} LettersOfDashes(s: string)
    requires forall i | 0 <= i < |s| :: s[i] == '-'
    ensures Letters(s) == []
  {
    if s != [] {
      LettersOfDashes(s[1..]);
    }
  }

  lemma LettersOfTrailingDashes(s: string)
    ensures Letters(DropTrailingDashes(s)) == Letters(s)
  {
    var r := DropTrailingDashes(s);
    assert s == r + s[|r|..];
    LettersConcat(r, s[|r|..]);
    LettersOfDashes(s[|r|..]);
  }

  lemma LettersOfPrefix(r: string, s: string)
    requires r <= s
    ensures Letters(r) <= Letters(s)
  {
    assert s == r + s[|r|..];
    LettersConcat(r, s[|r|..]);
  }

  /** Two texts that do not meet inside a run of other characters are rewritten separately. */
  lemma {:induction false} CollapseConcat(a: string, b: string)
    requires a == [] || b == [] || IsIdChar(a[|a| - 1]) || IsIdChar(b[0])
    ensures Collapse(a + b) == Collapse(a) + Collapse(b)
    decreases |a|
  {
    if a == [] {
      assert a + b == b;
    } else if IsIdChar(a[0]) {
      assert (a + b)[1..] == a[1..] + b;
      CollapseConcat(a[1..], b);
    } else {
      DropInvalidConcat(a, b);
      CollapseConcat(DropInvalid(a), b);
    }
  }

  lemma {:induction false} DropInvalidConcat(a: string, b: string)
    requires a != [] && (b == [] || IsIdChar(a[|a| - 1]) || IsIdChar(b[0]))
    ensures DropInvalid(a + b) == DropInvalid(a) + b
    ensures DropInvalid(a) != [] ==> DropInvalid(a)[|DropInvalid(a)| - 1] == a[|a| - 1]
  {
    if !IsIdChar(a[0]) {
      assert (a + b)[1..] == a[1..] + b;
      if |a| > 1 {
        DropInvalidConcat(a[1..], b);
      } else {
        assert a[1..] + b == b;
      }
    }
  }

  /** A run of other characters becomes one dash. */
  lemma RunIsOneDash(s: string)
    requires s != [] && forall i | 0 <= i < |s| :: !IsIdChar(s[i])
    ensures Collapse(s) == "-"
  {
    InvalidVanish(s);
  }

  lemma {:induction false} InvalidVanish(s: string)
    requires forall i | 0 <= i < |s| :: !IsIdChar(s[i])
    ensures DropInvalid(s) == []
  {
    if s != [] {
      InvalidVanish(s[1..]);
    }
  }

  /**
   * Normalizing keeps the letters, digits and underscores in order, all of them if the result is not cut at
   * 64 characters; an id without any becomes the default.
   */
  lemma NormalizeKeepsLetters(id: string, default: string)
    ensures var letters, n := Letters(ToLower(TrimSpace(id))), NormalizeID(id, default);
            if letters == [] then n == default
            else Letters(n) <= letters && (|n| < MAX_ID ==> Letters(n) == letters)
  {
    var lower := ToLower(TrimSpace(id));
    if TrimSpace(id) != "" && !ValidID(lower) {
      var c := Collapse(lower);
      var d := DropLeadingDashes(c);
      var result := Cleaned(lower);
      LettersOfCollapse(lower);
      LettersOfLeadingDashes(c);
      LettersOfTrailingDashes(d);
      if |result| > MAX_ID {
        LettersOfPrefix(result[..MAX_ID], result);
      }
      assert d != [] ==> IsIdChar(d[0]);
    }
  }

  lemma LettersHead(s: string)
    requires ProperID(s)
    ensures Letters(s) != [] && Letters(s)[0] == s[0]
  {
  }

  lemma SameHead(r: string, s: string)
    requires r <= s && r != []
    ensures s != [] && r[0] == s[0]
  {
  }

  lemma ValidIff(n: string, letters: string)
    requires ProperID(n) && letters != [] && Letters(n) <= letters
    ensures ValidID(n) <==> letters[0] != '_'
  {
    LettersHead(n);
    SameHead(Letters(n), letters);
  }

  /** The result has the documented format exactly when the first letter, digit or underscore is no underscore. */
  lemma NormalizedIsValidIff(id: string)
    ensures var letters := Letters(ToLower(TrimSpace(id)));
            ValidID(NormalizeAgentID(id)) <==> letters == [] || letters[0] != '_'
  {
    var letters := Letters(ToLower(TrimSpace(id)));
    NormalizeKeepsLetters(id, DEFAULT_AGENT);
    if letters != [] {
      NormalizedIsProper(id, DEFAULT_AGENT);
      ValidIff(NormalizeAgentID(id), letters);
    }
  }
}
