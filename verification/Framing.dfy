/** The Content-Length framing written to and read from the core process. */
module Framing {
  import opened Text

  const PREFIX := "Content-Length:"
  const BLANK := "\r\n"

  /** The largest value of Go's 64-bit int. */
  const MAX_INT := 0x7fff_ffff_ffff_ffff

  // ----- writing

  function HeaderLine(n: nat): string {
    PREFIX + " " + Decimal(n) + BLANK
  }

  function Encode(body: string): string {
    HeaderLine(|body|) + BLANK + body
  }

  function EncodeAll(bodies: seq<string>): string {
    if bodies == [] then [] else Encode(bodies[0]) + EncodeAll(bodies[1..])
  }

  // ----- reading

  /** The length of the line at the start of the stream, newline included; `None` if it is not complete. */
  function LineLength(s: string): (r: Option<nat>)
    ensures r.Some? ==> 0 < r.value <= |s| && s[r.value - 1] == '\n'
  {
    var n := IndexFrom(s, 0, '\n');
    if n < 0 then None else Some(n + 1)
  }

  /** A line with its line break. */
  ghost predicate IsLine(line: string) {
    line != [] && line[|line| - 1] == '\n' && forall i | 0 <= i < |line| - 1 :: line[i] != '\n'
  }

  predicate IsDigit(c: char) { '0' <= c <= '9' }

  /** The value of a string of decimal digits; `None` if it is empty or has other characters. */
  function DigitsValue(s: string): Option<nat> {
    if s == [] || !IsDigit(s[|s| - 1]) then None
    else
      var last: nat := s[|s| - 1] as int - '0' as int;
      if |s| == 1 then Some(last)
      else match DigitsValue(s[..|s| - 1])
           case None => None
           case Some(n) => Some(10 * n + last)
  }

  /** `strconv.Atoi` */
  function Atoi(s: string): Option<int> {
    var negative := s != [] && s[0] == '-';
    var digits := if s != [] && (s[0] == '-' || s[0] == '+') then s[1..] else s;
    match DigitsValue(digits)
    case None => None
    case Some(n) =>
      if negative then (if n <= MAX_INT + 1 then Some(0 - n as int) else None)
      else (if n <= MAX_INT then Some(n) else None)
  }

  /** The length a header line announces, if it is a Content-Length line with a number. */
  function Announced(line: string): Option<int> {
    var header := TrimSpace(line);
    if PREFIX <= header then Atoi(TrimSpace(header[|PREFIX|..])) else None
  }

  /** One turn of the reading loop: the end of the stream, a negative length, a skipped line, or a frame. */
  datatype Next = Stop | Crash | Skip(rest: string) | Frame(body: string, rest: string)

  function NextFrame(s: string): (next: Next)
    ensures next.Skip? || next.Frame? ==> |next.rest| < |s|
  {
    match LineLength(s)
    case None => Stop
    case Some(n) =>
      var rest := s[n..];
      match Announced(s[..n])
      case None => Skip(rest)
      case Some(length) =>
        match LineLength(rest)
        case None => Stop
        case Some(m) =>
          var content := rest[m..];
          if length < 0 then Crash
          else if |content| < length then Stop
          else Frame(content[..length], content[length..])
  }

  /** How reading a stream ends: at its end, or with the run-time error that a negative length causes. */
  datatype Read = AtEnd(bodies: seq<string>) | Panics(bodies: seq<string>)

  /** What is read when `bodies` come first. */
  function After(bodies: seq<string>, r: Read): Read {
    r.(bodies := bodies + r.bodies)
  }

  lemma AfterAfter(a: seq<string>, b: seq<string>, r: Read)
    ensures After(a, After(b, r)) == After(a + b, r)
  {
    assert a + (b + r.bodies) == a + b + r.bodies;
  }

  /** Repeats a turn until the stream ends. */
  function ReadWith(next: string -> Next, s: string): Read
    decreases |s|
  {
    match next(s)
    case Stop => AtEnd([])
    case Crash => Panics([])
    case Skip(rest) => if |rest| < |s| then ReadWith(next, rest) else AtEnd([])
    case Frame(body, rest) => if |rest| < |s| then After([body], ReadWith(next, rest)) else AtEnd([])
  }

  /** The bodies the reading loop extracts. Lines that announce no length are skipped. */
  function ReadAll(s: string): Read {
    ReadWith(NextFrame, s)
  }

  // ----- round trip

  lemma {:induction false} DecimalValue(n: nat)
    ensures DigitsValue(Decimal(n)) == Some(n) && (Decimal(n)[0] == '0' ==> Decimal(n) == "0")
  {
    if n >= 10 {
      DecimalValue(n / 10);
      var r := Decimal(n);
      assert r[..|r| - 1] == Decimal(n / 10) && r[|r| - 1] == Digit(n % 10);
    }
  }

  lemma AtoiDecimal(n: nat)
    ensures Atoi(Decimal(n)) == if n <= MAX_INT then Some(n) else None
    ensures 0 < n <= MAX_INT + 1 ==> Atoi("-" + Decimal(n)) == Some(0 - n as int)
  {
    DecimalValue(n);
    assert Decimal(n)[0] in Decimal(n);
    assert ("-" + Decimal(n))[1..] == Decimal(n);
  }

  lemma TrimAround(lead: string, s: string, tail: string)
    requires AllSpace(lead) && AllSpace(tail) && s != [] && Trimmed(s)
    ensures TrimSpace(lead + s + tail) == s
  {
    TrimRightAround(lead + s, tail);
    TrimLeftAround(lead, s);
  }

  lemma {:induction false} TrimLeftAround(lead: string, s: string)
    requires AllSpace(lead) && s != [] && !IsSpace(s[0])
    ensures TrimLeft(lead + s) == s
  {
    if lead == [] {
      assert lead + s == s;
    } else {
      assert (lead + s)[1..] == lead[1..] + s;
      TrimLeftAround(lead[1..], s);
    }
  }

  lemma {:induction false} TrimRightAround(s: string, tail: string)
    requires AllSpace(tail) && s != [] && !IsSpace(s[|s| - 1])
    ensures TrimRightBy(s + tail, IsSpace) == s
  {
    if tail == [] {
      assert s + tail == s;
    } else {
      var n := |tail| - 1;
      assert (s + tail)[..|s + tail| - 1] == s + tail[..n];
      TrimRightAround(s, tail[..n]);
    }
  }

  lemma DecimalTrimmed(n: nat)
    ensures Trimmed(Decimal(n)) && forall i | 0 <= i < |Decimal(n)| :: IsDigit(Decimal(n)[i])
  {
    var r := Decimal(n);
    assert forall i | 0 <= i < |r| :: r[i] in r;
  }

  lemma AnnouncedText(t: string)
    requires t != "" && Trimmed(t)
    ensures Announced(PREFIX + " " + t + BLANK) == Atoi(t)
  {
    var header := PREFIX + " " + t;
    assert header[|header| - 1] == t[|t| - 1];
    TrimAround([], header, BLANK);
    assert [] + header + BLANK == PREFIX + " " + t + BLANK;
    assert header[|PREFIX|..] == " " + t + [];
    TrimAround(" ", t, []);
  }

  /** A header line announces its number, unless that is larger than an int. */
  lemma AnnouncedHeader(n: nat)
    ensures Announced(HeaderLine(n)) == if n <= MAX_INT then Some(n) else None
  {
    DecimalTrimmed(n);
    AnnouncedText(Decimal(n));
    AtoiDecimal(n);
  }

  lemma LineLengthOf(line: string, rest: string)
    requires IsLine(line)
    ensures LineLength(line + rest) == Some(|line|)
    ensures (line + rest)[..|line|] == line && (line + rest)[|line|..] == rest
  {
    var s := line + rest;
    assert s[|line| - 1] == '\n';
    IndexFromIsFirst(s, 0, '\n', |line| - 1);
    assert forall i | 0 <= i < |line| :: s[i] == line[i];
  }

  lemma HeadIsLine(t: string)
    requires forall i | 0 <= i < |t| :: t[i] != '\n'
    ensures IsLine(PREFIX + " " + t + BLANK)
  {
    var line := PREFIX + " " + t + BLANK;
    assert forall i | 0 <= i < 15 :: line[i] == PREFIX[i];
    assert forall i | 16 <= i < 16 + |t| :: line[i] == t[i - 16];
  }

  lemma HeaderIsLine(n: nat)
    ensures IsLine(HeaderLine(n))
  {
    DecimalTrimmed(n);
    HeadIsLine(Decimal(n));
  }

  /** Reading takes one frame off the front of a stream. */
  lemma ReadFrame(body: string, rest: string)
    requires |body| <= MAX_INT
    ensures NextFrame(Encode(body) + rest) == Frame(body, rest)
  {
    var line, tail := HeaderLine(|body|), BLANK + (body + rest);
    var s := line + tail;
    assert Encode(body) + rest == s;
    HeaderIsLine(|body|);
    LineLengthOf(line, tail);
    AnnouncedHeader(|body|);
    LineLengthOf(BLANK, body + rest);
    assert (body + rest)[..|body|] == body && (body + rest)[|body|..] == rest;
  }

  /** A turn takes a written frame off the front of any stream. */
  ghost predicate TakesFrames(next: string -> Next, bodies: seq<string>) {
    forall b, rest | b in bodies :: next(Encode(b) + rest) == Frame(b, rest)
  }

  lemma {:induction false} FramesRead(next: string -> Next, bodies: seq<string>, rest: string)
    requires TakesFrames(next, bodies)
    ensures ReadWith(next, EncodeAll(bodies) + rest) == After(bodies, ReadWith(next, rest))
  {
    if bodies == [] {
      assert EncodeAll(bodies) + rest == rest;
    } else {
      var later := EncodeAll(bodies[1..]) + rest;
      FramesRead(next, bodies[1..], rest);
      assert EncodeAll(bodies) + rest == Encode(bodies[0]) + later;
      assert bodies[0] in bodies;
      AfterAfter([bodies[0]], bodies[1..], ReadWith(next, rest));
      assert [bodies[0]] + bodies[1..] == bodies;
    }
  }

  lemma FramesAreTaken(bodies: seq<string>)
    requires forall b <- bodies :: |b| <= MAX_INT
    ensures TakesFrames(NextFrame, bodies)
  {
    forall b, rest | b in bodies
      ensures NextFrame(Encode(b) + rest) == Frame(b, rest)
    {
      ReadFrame(b, rest);
    }
  }

  /** Whatever bytes the bodies hold, reading what was written gives the bodies back. */
  lemma FramesRoundTrip(bodies: seq<string>, rest: string)
    requires forall b <- bodies :: |b| <= MAX_INT
    ensures ReadAll(EncodeAll(bodies) + rest) == After(bodies, ReadAll(rest))
  {
    FramesAreTaken(bodies);
    FramesRead(NextFrame, bodies, rest);
  }

  /** Lines that announce no length, between frames, are passed over. */
  lemma JunkLinesSkipped(junk: string, rest: string)
    requires IsLine(junk) && Announced(junk) == None
    ensures ReadAll(junk + rest) == ReadAll(rest)
  {
    LineLengthOf(junk, rest);
  }

  /** A length that is larger than an int is passed over, as if there were none. */
  lemma TooLargeSkipped(n: nat, rest: string)
    requires n > MAX_INT
    ensures ReadAll(HeaderLine(n) + rest) == ReadAll(rest)
  {
    HeaderIsLine(n);
    AnnouncedHeader(n);
    JunkLinesSkipped(HeaderLine(n), rest);
  }

  /** A negative length, with a line behind it, is a run-time error that ends the reading. */
  lemma NegativeLengthPanics(n: nat, line: string, rest: string)
    requires 0 < n <= MAX_INT + 1 && IsLine(line)
    ensures ReadAll(PREFIX + " " + ("-" + Decimal(n)) + BLANK + (line + rest)) == Panics([])
  {
    var t := "-" + Decimal(n);
    var header := PREFIX + " " + t + BLANK;
    DecimalTrimmed(n);
    assert forall i | 1 <= i < |t| :: t[i] == Decimal(n)[i - 1] && IsDigit(t[i]);
    assert t[0] == '-' && Trimmed(t);
    AnnouncedText(t);
    AtoiDecimal(n);
    HeadIsLine(t);
    LineLengthOf(header, line + rest);
    LineLengthOf(line, rest);
  }

  // ----- streams that break off

  lemma NoLine(s: string)
    requires forall i | 0 <= i < |s| :: s[i] != '\n'
    ensures LineLength(s) == None
  {
  }

  lemma PartialHeader(n: nat, k: nat)
    requires k < |HeaderLine(n)|
    ensures NextFrame(HeaderLine(n)[..k]) == Stop
  {
    HeaderIsLine(n);
    NoLine(HeaderLine(n)[..k]);
  }

  /** A complete header line followed by less than a blank line and the body. */
  lemma PartialRest(n: nat, tail: string)
    requires n <= MAX_INT && |tail| < 2 + n && (if |tail| < 2 then tail == BLANK[..|tail|] else tail[..2] == BLANK)
    ensures NextFrame(HeaderLine(n) + tail) == Stop
  {
    HeaderIsLine(n);
    LineLengthOf(HeaderLine(n), tail);
    AnnouncedHeader(n);
    if |tail| < 2 {
      NoLine(tail);
    } else {
      assert tail == BLANK + tail[2..];
      LineLengthOf(BLANK, tail[2..]);
    }
  }

  /** A frame that is not complete gives no body. */
  lemma PartialFrame(body: string, k: nat)
    requires |body| <= MAX_INT && k < |Encode(body)|
    ensures NextFrame(Encode(body)[..k]) == Stop
  {
    var line, tail := HeaderLine(|body|), BLANK + body;
    assert Encode(body) == line + tail;
    if k < |line| {
      assert (line + tail)[..k] == line[..k];
      PartialHeader(|body|, k);
    } else {
      var cut := tail[..k - |line|];
      assert (line + tail)[..k] == line + cut;
      assert |cut| < 2 ==> cut == BLANK[..|cut|];
      assert |cut| >= 2 ==> cut[..2] == BLANK;
      PartialRest(|body|, cut);
    }
  }

  /** A turn stops at a frame that is not complete. */
  ghost predicate StopsInFrames(next: string -> Next, bodies: seq<string>) {
    next([]) == Stop && forall b, k | b in bodies && 0 <= k < |Encode(b)| :: next(Encode(b)[..k]) == Stop
  }

  lemma {:induction false} CutFramesRead(next: string -> Next, bodies: seq<string>, k: nat)
    requires TakesFrames(next, bodies) && StopsInFrames(next, bodies) && k <= |EncodeAll(bodies)|
    ensures var r := ReadWith(next, EncodeAll(bodies)[..k]); r.AtEnd? && r.bodies <= bodies
  {
    var s := EncodeAll(bodies)[..k];
    if bodies == [] {
      assert s == [];
    } else {
      assert bodies[0] in bodies;
      var first, rest := Encode(bodies[0]), EncodeAll(bodies[1..]);
      if k < |first| {
        assert s == first[..k];
      } else {
        assert s == first + rest[..k - |first|];
        CutFramesRead(next, bodies[1..], k - |first|);
        assert bodies == [bodies[0]] + bodies[1..];
      }
    }
  }

  /** A stream of frames cut off anywhere gives a prefix of the bodies, and stops at its end. */
  lemma CutStreamGivesPrefix(bodies: seq<string>, k: nat)
    requires (forall b <- bodies :: |b| <= MAX_INT) && k <= |EncodeAll(bodies)|
    ensures var r := ReadAll(EncodeAll(bodies)[..k]); r.AtEnd? && r.bodies <= bodies
  {
    FramesAreTaken(bodies);
    forall b, n | b in bodies && 0 <= n < |Encode(b)|
      ensures NextFrame(Encode(b)[..n]) == Stop
    {
      PartialFrame(b, n);
    }
    NoLine([]);
    CutFramesRead(NextFrame, bodies, k);
  }

  // ----- more header lines

  function Joined(lines: seq<string>): string {
    if lines == [] then [] else lines[0] + Joined(lines[1..])
  }

  /** What the reader finds behind the line it takes for the blank one: the other header lines and the blank line. */
  function Leftover(extra: seq<string>): string
    requires extra != []
  {
    Joined(extra[1..]) + BLANK
  }

  /** A frame with more header lines after its Content-Length line. */
  function EncodeWith(extra: seq<string>, body: string): string {
    HeaderLine(|body|) + Joined(extra) + BLANK + body
  }

  /** The text consists of repetitions of `p`, the last of which may be incomplete. */
  ghost predicate Repeats(s: string, p: string)
    requires p != []
  {
    forall i | 0 <= i < |s| :: s[i] == p[i % |p|]
  }

  lemma ModBack(i: nat, m: nat)
    requires 0 < m <= i
    ensures (i - m) % m == i % m
  {
    var q, r := i / m, i % m;
    assert i - m == (q - 1) * m + r;
    QuotientUnique(i - m, m, q - 1, r);
  }

  lemma MulBounds(d: int, m: nat)
    ensures d >= 1 ==> d * m >= m
    ensures d <= -1 ==> d * m + m <= 0
  {
  }

  lemma QuotientUnique(n: nat, m: nat, q: int, r: nat)
    requires 0 < m && r < m && n == q * m + r
    ensures n % m == r
  {
    var d := n / m - q;
    assert n == m * (n / m) + n % m;
    assert d * m == r - n % m;
    MulBounds(d, m);
  }

  lemma ModSmall(i: nat, m: nat)
    requires i < m
    ensures i % m == i
  {
  }

  /** The characters of a text that was put in front of another. */
  lemma ShiftedAt(p: string, body: string, i: nat)
    requires i < |body|
    ensures (p + body)[i] == if i < |p| then p[i] else body[i - |p|]
  {
  }

  lemma {:induction false} ShiftRepeats(p: string, body: string, i: nat)
    requires p != [] && i < |body| && (p + body)[..|body|] == body
    ensures body[i] == p[i % |p|]
    decreases i
  {
    assert (p + body)[i] == (p + body)[..|body|][i];
    ShiftedAt(p, body, i);
    if i >= |p| {
      ShiftRepeats(p, body, i - |p|);
      ModBack(i, |p|);
    } else {
      ModSmall(i, |p|);
    }
  }

  lemma RepeatsAt(p: string, body: string, i: nat)
    requires p != [] && Repeats(body, p) && i < |body|
    ensures (p + body)[i] == body[i]
  {
    ShiftedAt(p, body, i);
    if i < |p| {
      ModSmall(i, |p|);
    } else {
      ModBack(i, |p|);
    }
  }

  /** Text put in front of a body leaves its first |body| characters as they were exactly if the body repeats it. */
  lemma ShiftedIff(p: string, body: string)
    requires p != []
    ensures (p + body)[..|body|] == body <==> Repeats(body, p)
  {
    if (p + body)[..|body|] == body {
      forall i | 0 <= i < |body|
        ensures body[i] == p[i % |p|]
      {
        ShiftRepeats(p, body, i);
      }
    }
    if Repeats(body, p) {
      var shifted := (p + body)[..|body|];
      forall i | 0 <= i < |body|
        ensures shifted[i] == body[i]
      {
        RepeatsAt(p, body, i);
      }
    }
  }

  /** With more header lines the reader takes the first of them for the blank line and starts reading there. */
  lemma ExtraLinesRead(extra: seq<string>, body: string, rest: string)
    requires extra != [] && IsLine(extra[0]) && |body| <= MAX_INT
    ensures var shifted := Leftover(extra) + body + rest;
            NextFrame(EncodeWith(extra, body) + rest) == Frame(shifted[..|body|], shifted[|body|..])
  {
    var tail := Leftover(extra) + body + rest;
    var line := HeaderLine(|body|);
    assert EncodeWith(extra, body) + rest == line + (extra[0] + tail);
    HeaderIsLine(|body|);
    AnnouncedHeader(|body|);
    LineLengthOf(line, extra[0] + tail);
    LineLengthOf(extra[0], tail);
  }

  lemma ShiftedBody(p: string, body: string, rest: string)
    ensures (p + body + rest)[..|body|] == (p + body)[..|body|]
    ensures |(p + body + rest)[|body|..]| == |p| + |rest|
  {
  }

  /**
   * With more header lines a body is read correctly exactly if it consists of repetitions of the lines
   * behind the first extra one, the blank line included; with one extra line, of "\r\n". Even then the
   * stream is not left where the next frame starts: the last bytes of the body are still to be read.
   */
  lemma ExtraLinesReadIff(extra: seq<string>, body: string, rest: string)
    requires extra != [] && IsLine(extra[0]) && |body| <= MAX_INT
    ensures var next := NextFrame(EncodeWith(extra, body) + rest);
            && next.Frame? && (next.body == body <==> Repeats(body, Leftover(extra)))
            && |next.rest| == |Leftover(extra)| + |rest| && next.rest != rest
  {
    ExtraLinesRead(extra, body, rest);
    ShiftedBody(Leftover(extra), body, rest);
    ShiftedIff(Leftover(extra), body);
  }

  lemma RepeatsHead(s: string, p: string)
    requires s != [] && p != []
    ensures Repeats(s, p) ==> s[0] == p[0]
  {
    assert 0 % |p| == 0;
  }

  /** With a second header line every body that does not start with a carriage return, as JSON does not, is misread. */
  lemma SecondHeaderMisread(second: string, body: string, rest: string)
    requires IsLine(second) && |body| <= MAX_INT && body != [] && body[0] != '\r'
    ensures var next := NextFrame(EncodeWith([second], body) + rest); next.Frame? && next.body != body
  {
    ExtraLinesReadIff([second], body, rest);
    assert Leftover([second]) == BLANK;
    RepeatsHead(body, BLANK);
  }

  lemma {:induction false} LinesSkipped(lines: seq<string>, s: string)
    requires forall l <- lines :: IsLine(l) && Announced(l) == None
    ensures ReadAll(Joined(lines) + s) == ReadAll(s)
  {
    if lines == [] {
      assert Joined(lines) + s == s;
    } else {
      LinesSkipped(lines[1..], s);
      assert Joined(lines) + s == lines[0] + (Joined(lines[1..]) + s);
      JunkLinesSkipped(lines[0], Joined(lines[1..]) + s);
    }
  }

  /** Header lines before Content-Length do no harm: the frame behind them is read. */
  lemma EarlierLinesSkipped(lines: seq<string>, body: string, rest: string)
    requires |body| <= MAX_INT && forall l <- lines :: IsLine(l) && Announced(l) == None
    ensures ReadAll(Joined(lines) + (Encode(body) + rest)) == After([body], ReadAll(rest))
  {
    LinesSkipped(lines, Encode(body) + rest);
    assert EncodeAll([body]) == Encode(body);
    FramesRoundTrip([body], rest);
  }

  // ----- the loop

  class CoreProxy {
    /** What has been written to the core. */
    var stdin: string

    constructor ()
      ensures stdin == ""
    {
      stdin := "";
    }

    method SendRequest(data: string)
      modifies this
      ensures stdin == old(stdin) + Encode(data)
      ensures stdin == old(stdin) + "Content-Length: " + Decimal(|data|) + "\r\n\r\n" + data
    {
      var header := "Content-Length: " + Decimal(|data|) + "\r\n\r\n";
      stdin := stdin + header;
      stdin := stdin + data;
      assert header == HeaderLine(|data|) + BLANK;
    }
  }

  /** Reads up to one frame, as the body of the loop does. */
  method ReadNext(s: string) returns (next: Next)
    ensures next == NextFrame(s)
  {
    var n := LineLength(s);
    if n.None? {
      return Stop;
    }
    var header := TrimSpace(s[..n.value]);
    var rest := s[n.value..];
    if !(PREFIX <= header) {
      return Skip(rest);
    }
    var lengthStr := TrimSpace(header[|PREFIX|..]);
    var contentLength := Atoi(lengthStr);
    if contentLength.None? {
      return Skip(rest);
    }
    var m := LineLength(rest);
    if m.None? {
      return Stop;
    }
    var content := rest[m.value..];
    if contentLength.value < 0 {
      return Crash;
    }
    if |content| < contentLength.value {
      return Stop;
    }
    return Frame(content[..contentLength.value], content[contentLength.value..]);
  }

  method ReadResponses(stdout: string) returns (result: Read)
    ensures result == ReadAll(stdout)
  {
    var s := stdout;
    var bodies := [];
    while true
      invariant ReadAll(stdout) == After(bodies, ReadAll(s))
      decreases |s|
    {
      var next := ReadNext(s);
      match next {
        case Stop => return AtEnd(bodies);
        case Crash => return Panics(bodies);
        case Skip(rest) => s := rest;
        case Frame(body, rest) =>
          AfterAfter(bodies, [body], ReadAll(rest));
          bodies := bodies + [body];
          s := rest;
      }
    }
  }
}
