/** The probe of one address: reply bytes arrive in chunks, are cut into lines, and drive a small
    dialogue machine. Chunks are modelled as the text they decode to. */
module SmtpProbe {
  import opened Strings

  // ---- Cutting the stream into lines ----

  datatype Cutting = Cutting(lines: seq<string>, rest: string)

  /** One more character in front of the first piece. */
  function AddChar(c: char, cut: Cutting): Cutting {
    if cut.lines == [] then Cutting([], [c] + cut.rest)
    else Cutting([[c] + cut.lines[0]] + cut.lines[1..], cut.rest)
  }

  function AddLine(cut: Cutting): Cutting {
    Cutting([""] + cut.lines, cut.rest)
  }

  predicate StartsWithBreak(s: string) {
    |s| >= 2 && s[0] == '\r' && s[1] == '\n'
  }

  /** `buffer.split('\r\n')` with the unfinished last piece taken off. */
  function Cut(s: string): (cut: Cutting)
    ensures cut.lines != [] ==> |s| >= 2
  {
    if s == "" then Cutting([], "")
    else if StartsWithBreak(s) then AddLine(Cut(s[2..]))
    else AddChar(s[0], Cut(s[1..]))
  }

  lemma {:induction false} NoLineNoCut(s: string)
    requires Cut(s).lines == []
    ensures Cut(s).rest == s
  {
    if s == "" {
    } else {
      NoLineNoCut(s[1..]);
    }
  }

  function Then(a: Cutting, b: Cutting): Cutting {
    Cutting(a.lines + b.lines, b.rest)
  }

  lemma AddLineThen(a: Cutting, b: Cutting)
    ensures AddLine(Then(a, b)) == Then(AddLine(a), b)
  {
  }

  lemma AddCharThen(c: char, a: Cutting, b: Cutting)
    requires a.lines != []
    ensures AddChar(c, Then(a, b)) == Then(AddChar(c, a), b)
  {
    assert (a.lines + b.lines)[1..] == a.lines[1..] + b.lines;
  }

  predicate CutsInPieces(a: string, b: string) {
    Cut(a + b) == Then(Cut(a), Cut(Cut(a).rest + b))
  }

  lemma NoLineInPieces(a: string, b: string)
    requires Cut(a).lines == []
    ensures CutsInPieces(a, b)
  {
    NoLineNoCut(a);
    assert [] + Cut(a + b).lines == Cut(a + b).lines;
  }

  lemma BreakInPieces(a: string, b: string)
    requires StartsWithBreak(a) && CutsInPieces(a[2..], b)
    ensures CutsInPieces(a, b)
  {
    var t := Cut(a[2..]);
    assert (a + b)[2..] == a[2..] + b;
    AddLineThen(t, Cut(t.rest + b));
  }

  lemma CutChar(s: string, t: string)
    requires s != "" && !StartsWithBreak(s) && s[1..] == t
    ensures Cut(s) == AddChar(s[0], Cut(t))
  {
  }

  lemma LinesNeedTwo(s: string)
    requires Cut(s).lines != []
    ensures |s| >= 2
  {
  }

  lemma CharInPieces(a: string, b: string)
    requires a != "" && !StartsWithBreak(a) && Cut(a[1..]).lines != [] && CutsInPieces(a[1..], b)
    ensures CutsInPieces(a, b)
  {
    var x := a[1..];
    var t := Cut(x);
    var u := Cut(t.rest + b);
    LinesNeedTwo(x);
    CutChar(a, x);
    CutChar(a + b, x + b);
    AddCharThen(a[0], t, u);
  }

  /** Cutting what was left over together with the next text finds the lines the whole text has, even
      when a line end is split between the two. */
  lemma {:induction false} CutInPieces(a: string, b: string)
    ensures Cut(a + b) == Then(Cut(a), Cut(Cut(a).rest + b))
  {
    if Cut(a).lines == [] {
      NoLineInPieces(a, b);
    } else if StartsWithBreak(a) {
      CutInPieces(a[2..], b);
      BreakInPieces(a, b);
    } else {
      CutChar(a, a[1..]);
      CutInPieces(a[1..], b);
      CharInPieces(a, b);
    }
  }

  /** The lines, each with its line end. */
  function Spell(lines: seq<string>): string {
    if lines == [] then "" else lines[0] + "\r\n" + Spell(lines[1..])
  }

  function Whole(cut: Cutting): string {
    Spell(cut.lines) + cut.rest
  }

  lemma WholeAddLine(cut: Cutting)
    ensures Whole(AddLine(cut)) == "\r\n" + Whole(cut)
  {
    assert ([""] + cut.lines)[1..] == cut.lines;
    assert Spell([""] + cut.lines) == "" + "\r\n" + Spell(cut.lines);
  }

  lemma WholeAddChar(c: char, cut: Cutting)
    ensures Whole(AddChar(c, cut)) == [c] + Whole(cut)
  {
    if cut.lines != [] {
      assert ([[c] + cut.lines[0]] + cut.lines[1..])[1..] == cut.lines[1..];
      assert [c] + cut.lines[0] + "\r\n" == [c] + (cut.lines[0] + "\r\n");
    }
  }

  lemma {:induction false} CutSpells(s: string)
    ensures Whole(Cut(s)) == s
  {
    if s == "" {
    } else if StartsWithBreak(s) {
      CutSpells(s[2..]);
      WholeAddLine(Cut(s[2..]));
      assert s == "\r\n" + s[2..];
    } else {
      CutSpells(s[1..]);
      WholeAddChar(s[0], Cut(s[1..]));
      assert s == [s[0]] + s[1..];
    }
  }

  /** No line end anywhere in the piece. */
  predicate NoBreak(piece: string) {
    forall i :: 0 <= i < |piece| ==> !StartsWithBreak(piece[i..])
  }

  predicate NoBreaks(cut: Cutting) {
    NoBreak(cut.rest) && forall l :: l in cut.lines ==> NoBreak(l)
  }

  function FirstPiece(cut: Cutting): string {
    if cut.lines == [] then cut.rest else cut.lines[0]
  }

  lemma FirstPieceStarts(s: string)
    ensures var p := FirstPiece(Cut(s)); p != "" ==> s != "" && p[0] == s[0]
  {
    CutSpells(s);
  }

  lemma NoBreakAfterChar(c: char, piece: string)
    requires NoBreak(piece) && !(c == '\r' && piece != "" && piece[0] == '\n')
    ensures NoBreak([c] + piece)
  {
    forall i | 0 <= i < |piece| + 1 ensures !StartsWithBreak(([c] + piece)[i..]) {
      if i > 0 {
        assert ([c] + piece)[i..] == piece[i - 1..];
      }
    }
  }

  lemma NoBreaksAddChar(c: char, cut: Cutting)
    requires NoBreaks(cut) && !(c == '\r' && FirstPiece(cut) != "" && FirstPiece(cut)[0] == '\n')
    ensures NoBreaks(AddChar(c, cut))
  {
    NoBreakAfterChar(c, FirstPiece(cut));
  }

  lemma {:induction false} CutHasNoBreaks(s: string)
    ensures NoBreaks(Cut(s))
  {
    if s == "" {
    } else if StartsWithBreak(s) {
      CutHasNoBreaks(s[2..]);
    } else {
      CutHasNoBreaks(s[1..]);
      FirstPieceStarts(s[1..]);
      NoBreaksAddChar(s[0], Cut(s[1..]));
    }
  }

  lemma NoBreakTail(piece: string)
    requires piece != "" && NoBreak(piece)
    ensures NoBreak(piece[1..]) && !StartsWithBreak(piece)
  {
    assert piece[0..] == piece;
    forall i | 0 <= i < |piece| - 1 ensures !StartsWithBreak(piece[1..][i..]) {
      assert piece[1..][i..] == piece[i + 1..];
    }
  }

  lemma {:induction false} CutRest(piece: string)
    requires NoBreak(piece)
    ensures Cut(piece) == Cutting([], piece)
  {
    if piece == "" {
    } else {
      NoBreakTail(piece);
      CutRest(piece[1..]);
    }
  }

  /** A line is cut at its own end and no earlier. */
  lemma {:induction false} CutLine(line: string, t: string)
    requires NoBreak(line)
    ensures Cut(line + "\r\n" + t) == Cutting([line] + Cut(t).lines, Cut(t).rest)
  {
    var s := line + "\r\n" + t;
    if line == "" {
      assert s[2..] == t;
    } else {
      NoBreakTail(line);
      CutLine(line[1..], t);
      assert s[1..] == line[1..] + "\r\n" + t;
      assert !StartsWithBreak(s);
      assert [s[0]] + line[1..] == line;
    }
  }

  lemma {:induction false} CutWhole(lines: seq<string>, rest: string)
    requires NoBreaks(Cutting(lines, rest))
    ensures Cut(Spell(lines) + rest) == Cutting(lines, rest)
    decreases |lines|
  {
    if lines == [] {
      CutRest(rest);
      assert Spell(lines) + rest == rest;
    } else {
      var t := Spell(lines[1..]) + rest;
      CutWhole(lines[1..], rest);
      CutLine(lines[0], t);
      assert Spell(lines) + rest == lines[0] + "\r\n" + t;
    }
  }

  /** The cut is the one way to write the text as lines with their ends and a rest, with no line end inside
      any of the pieces. */
  lemma CutIsTheSplit(s: string, cut: Cutting)
    ensures Whole(cut) == s && NoBreaks(cut) <==> cut == Cut(s)
  {
    CutSpells(s);
    CutHasNoBreaks(s);
    if Whole(cut) == s && NoBreaks(cut) {
      CutWhole(cut.lines, cut.rest);
    }
  }

  // ---- Reply lines ----

  datatype Code = NaN | Num(value: int)

  predicate IsDigit(c: char) {
    '0' <= c <= '9'
  }

  /** The value of the leading digits of `s`, after `acc`. */
  function LeadingDigits(s: string, acc: nat): nat {
    if s != "" && IsDigit(s[0]) then LeadingDigits(s[1..], 10 * acc + (s[0] as int - '0' as int)) else acc
  }

  function Unsigned(s: string): Code {
    if s != "" && IsDigit(s[0]) then Num(LeadingDigits(s, 0)) else NaN
  }

  /** `parseInt(s, 10)`: leading white space, a sign, then digits; the rest is ignored. */
  function ParseInt(s: string): Code {
    if s == "" then NaN
    else if IsSpace(s[0]) then ParseInt(s[1..])
    else if s[0] == '+' then Unsigned(s[1..])
    else if s[0] == '-' then
      var u := Unsigned(s[1..]);
      if u.NaN? then NaN else Num(-u.value)
    else Unsigned(s)
  }

  function FirstThree(line: string): string {
    if |line| <= 3 then line else line[..3]
  }

  /** The last line of a reply: the code is followed by a space or by nothing (section 4.2.1 of RFC 5321). */
  predicate IsFinal(line: string) {
    |line| == 3 || (|line| > 3 && line[3] == ' ')
  }

  function Digit(c: char): int {
    c as int - '0' as int
  }

  lemma DigitsOfThree(s: string)
    requires |s| <= 3 && s != "" && IsDigit(s[0])
    ensures LeadingDigits(s, 0) ==
      if |s| >= 2 && IsDigit(s[1]) then
        if |s| == 3 && IsDigit(s[2]) then 100 * Digit(s[0]) + 10 * Digit(s[1]) + Digit(s[2])
        else 10 * Digit(s[0]) + Digit(s[1])
      else Digit(s[0])
  {
    var a := Digit(s[0]);
    assert LeadingDigits(s, 0) == LeadingDigits(s[1..], a);
    if |s| >= 2 {
      assert s[1..][0] == s[1] && s[1..][1..] == s[2..];
      if IsDigit(s[1]) {
        var b := 10 * a + Digit(s[1]);
        assert LeadingDigits(s[1..], a) == LeadingDigits(s[2..], b);
        if |s| == 3 {
          assert s[2..][0] == s[2] && s[2..][1..] == "";
          assert IsDigit(s[2]) ==> LeadingDigits(s[2..], b) == LeadingDigits("", 10 * b + Digit(s[2]));
        }
      }
    }
  }

  lemma {:induction false} ShorterIsSmaller(s: string)
    requires |s| <= 2
    ensures ParseInt(s).Num? ==> ParseInt(s).value < 100
  {
    if s == "" {
    } else {
      if IsDigit(s[0]) {
        DigitsOfThree(s);
      } else if |s| == 2 && IsDigit(s[1]) {
        DigitsOfThree(s[1..]);
      }
      if IsSpace(s[0]) {
        ShorterIsSmaller(s[1..]);
      }
    }
  }

  /** Three characters read as a number of three digits exactly when they are three digits. */
  lemma CodeIsThreeDigits(s: string, n: int)
    requires |s| == 3 && n >= 100
    ensures ParseInt(s) == Num(n) <==>
      IsDigit(s[0]) && IsDigit(s[1]) && IsDigit(s[2])
      && n == 100 * Digit(s[0]) + 10 * Digit(s[1]) + Digit(s[2])
  {
    if IsDigit(s[0]) {
      DigitsOfThree(s);
    } else if IsSpace(s[0]) {
      ShorterIsSmaller(s[1..]);
    } else if IsDigit(s[1]) {
      DigitsOfThree(s[1..]);
    }
  }

  // ---- The dialogue machine ----

  datatype Step = Banner | Ehlo | MailFrom | RcptTo

  datatype Command = EHLO | MAIL | RCPT | QUIT

  datatype Trouble =
    NoTrouble | BadBanner(code: Code) | MailFromRejected(code: Code) | TimedOut | SocketFailed(message: string)

  datatype ProbeResult = ProbeResult(connected: bool, accepted: bool, greylisted: bool, error: Trouble)

  datatype Verdict = Open | Settled(result: ProbeResult)

  datatype Session = Session(step: Step, accepted: bool, greylisted: bool, verdict: Verdict, sent: seq<Command>)

  const FRESH := Session(Banner, false, false, Open, [])

  /** Only the first verdict counts; it hangs up. */
  function Settle(s: Session, r: ProbeResult): Session {
    if s.verdict.Settled? then s else s.(verdict := Settled(r), sent := s.sent + [QUIT])
  }

  function Send(s: Session, c: Command, next: Step): Session {
    s.(step := next, sent := s.sent + [c])
  }

  /** One final reply line. Lines that arrive after the verdict still move the machine. */
  function OnCode(s: Session, code: Code): Session {
    match s.step
    case Banner =>
      if code == Num(220) then Send(s, EHLO, Ehlo)
      else Settle(s, ProbeResult(true, false, false, BadBanner(code)))
    case Ehlo =>
      if code == Num(250) then Send(s, MAIL, MailFrom) else s
    case MailFrom =>
      if code == Num(250) then Send(s, RCPT, RcptTo)
      else Settle(s, ProbeResult(true, false, false, MailFromRejected(code)))
    case RcptTo =>
      var t := if code == Num(250) || code == Num(251) then s.(accepted := true)
               else if code.Num? && 400 <= code.value < 500 then s.(greylisted := true)
               else s;
      Settle(t, ProbeResult(true, t.accepted, t.greylisted, NoTrouble))
  }

  function OnLine(s: Session, line: string): Session {
    if line == "" || !IsFinal(line) then s else OnCode(s, ParseInt(FirstThree(line)))
  }

  function OnLines(s: Session, lines: seq<string>): Session
    decreases |lines|
  {
    if lines == [] then s else OnLines(OnLine(s, lines[0]), lines[1..])
  }

  datatype Conn = Conn(buffer: string, session: Session)

  /** One `data` event. */
  function Feed(c: Conn, chunk: string): Conn {
    var cut := Cut(c.buffer + chunk);
    Conn(cut.rest, OnLines(c.session, cut.lines))
  }

  function FeedAll(c: Conn, chunks: seq<string>): Conn
    decreases |chunks|
  {
    if chunks == [] then c else FeedAll(Feed(c, chunks[0]), chunks[1..])
  }

  function Flatten(chunks: seq<string>): string {
    if chunks == [] then "" else chunks[0] + Flatten(chunks[1..])
  }

  // ---- The probe object ----

  class Probe {
    var buffer: string
    var step: Step
    var accepted: bool
    var greylisted: bool
    var verdict: Verdict
    var sent: seq<Command>

    ghost function State(): Conn
      reads this
    {
      Conn(buffer, Session(step, accepted, greylisted, verdict, sent))
    }

    constructor ()
      ensures State() == Conn("", FRESH)
    {
      buffer, step, accepted, greylisted, verdict, sent := "", Banner, false, false, Open, [];
    }

    method SettleWith(result: ProbeResult)
      modifies this`verdict, this`sent
      ensures State().session == Settle(old(State().session), result)
    {
      if verdict.Settled? {
        return;
      }
      verdict, sent := Settled(result), sent + [QUIT];
    }

    method HandleLine(line: string)
      modifies this
      ensures State() == Conn(old(buffer), OnLine(old(State().session), line))
      ensures Silent(line) ==> State() == old(State())
      ensures forall n :: n >= 100 && Says(line, n) ==> State().session == OnCode(old(State().session), Num(n))
    {
      if Silent(line) {
        SilentLine(State().session, line);
      } else {
        SpeakingLine(State().session, line);
      }
      if line == "" || !IsFinal(line) {
        return;
      }
      var code := ParseInt(FirstThree(line));
      match step {
        case Banner =>
          if code == Num(220) {
            step, sent := Ehlo, sent + [EHLO];
          } else {
            SettleWith(ProbeResult(true, false, false, BadBanner(code)));
          }
        case Ehlo =>
          if code == Num(250) {
            step, sent := MailFrom, sent + [MAIL];
          }
        case MailFrom =>
          if code == Num(250) {
            step, sent := RcptTo, sent + [RCPT];
          } else {
            SettleWith(ProbeResult(true, false, false, MailFromRejected(code)));
          }
        case RcptTo =>
          if code == Num(250) || code == Num(251) {
            accepted := true;
          } else if code.Num? && 400 <= code.value < 500 {
            greylisted := true;
          }
          SettleWith(ProbeResult(true, accepted, greylisted, NoTrouble));
      }
    }

    method OnData(chunk: string)
      modifies this
      ensures State() == Feed(old(State()), chunk)
      ensures old(State()) == Conn("", FRESH) ==> SettledBy(Cut(chunk).lines, verdict)
    {
      var cut := Cut(buffer + chunk);
      var lines := cut.lines;
      buffer := cut.rest;
      ghost var start := State().session;
      for i := 0 to |lines|
        invariant buffer == cut.rest
        invariant OnLines(State().session, lines[i..]) == OnLines(start, lines)
      {
        assert lines[i..][1..] == lines[i + 1..];
        HandleLine(lines[i]);
      }
      if old(State()) == Conn("", FRESH) {
        FirstFeedSettles(chunk);
      }
    }

    method OnTimeout()
      modifies this
      ensures State() == Conn(old(buffer), Settle(old(State().session), ProbeResult(false, false, false, TimedOut)))
    {
      SettleWith(ProbeResult(false, false, false, TimedOut));
    }

    method OnError(message: string)
      modifies this
      ensures State()
        == Conn(old(buffer), Settle(old(State().session), ProbeResult(false, false, false, SocketFailed(message))))
    {
      SettleWith(ProbeResult(false, false, false, SocketFailed(message)));
    }
  }

  // ---- Chunk boundaries do not matter ----

  lemma {:induction false} OnLinesConcat(s: Session, a: seq<string>, b: seq<string>)
    ensures OnLines(s, a + b) == OnLines(OnLines(s, a), b)
    decreases |a|
  {
    if a == [] {
      assert a + b == b;
    } else {
      OnLinesConcat(OnLine(s, a[0]), a[1..], b);
      assert (a + b)[1..] == a[1..] + b;
    }
  }

  lemma FeedInPieces(c: Conn, a: string, b: string)
    ensures Feed(c, a + b) == Feed(Feed(c, a), b)
  {
    var first := Cut(c.buffer + a);
    CutInPieces(c.buffer + a, b);
    assert c.buffer + a + b == c.buffer + (a + b);
    OnLinesConcat(c.session, first.lines, Cut(first.rest + b).lines);
  }

  lemma {:induction false} FeedAllIsFeed(c: Conn, chunks: seq<string>)
    requires chunks != []
    ensures FeedAll(c, chunks) == Feed(c, Flatten(chunks))
    decreases |chunks|
  {
    if |chunks| == 1 {
      assert chunks[0] + "" == chunks[0];
    } else {
      FeedAllIsFeed(Feed(c, chunks[0]), chunks[1..]);
      FeedInPieces(c, chunks[0], Flatten(chunks[1..]));
    }
  }

  /** However the same text is cut into chunks, buffer, dialogue, commands and verdict are the same. */
  lemma ChunkingIsIrrelevant(a: seq<string>, b: seq<string>)
    requires Flatten(a) == Flatten(b)
    ensures FeedAll(Conn("", FRESH), a) == FeedAll(Conn("", FRESH), b)
  {
    FeedsText(a);
    FeedsText(b);
  }

  /** The state after any chunks is that of the whole text: its unfinished last piece in the buffer, and
      its complete lines handled in order. */
  lemma FeedsText(chunks: seq<string>)
    ensures var cut := Cut(Flatten(chunks));
      FeedAll(Conn("", FRESH), chunks) == Conn(cut.rest, OnLines(FRESH, cut.lines))
  {
    if chunks != [] {
      FeedAllIsFeed(Conn("", FRESH), chunks);
      assert "" + Flatten(chunks) == Flatten(chunks);
    }
  }

  // ---- What the verdict means ----

  /** The codes of the final reply lines. */
  function Codes(lines: seq<string>): seq<Code> {
    if lines == [] then []
    else (if lines[0] != "" && IsFinal(lines[0]) then [ParseInt(FirstThree(lines[0]))] else []) + Codes(lines[1..])
  }

  function OnCodes(s: Session, codes: seq<Code>): Session {
    if codes == [] then s else OnCode(OnCodes(s, codes[..|codes| - 1]), codes[|codes| - 1])
  }

  lemma {:induction false} OnCodesFromFront(s: Session, code: Code, codes: seq<Code>)
    ensures OnCodes(s, [code] + codes) == OnCodes(OnCode(s, code), codes)
  {
    var all := [code] + codes;
    if codes == [] {
      assert all[..|all| - 1] == [];
    } else {
      assert all[..|all| - 1] == [code] + codes[..|codes| - 1];
      OnCodesFromFront(s, code, codes[..|codes| - 1]);
    }
  }

  /** Only the codes of the final lines matter. */
  lemma {:induction false} LinesAreCodes(s: Session, lines: seq<string>)
    ensures OnLines(s, lines) == OnCodes(s, Codes(lines))
    decreases |lines|
  {
    if lines == [] {
    } else {
      LinesAreCodes(OnLine(s, lines[0]), lines[1..]);
      if lines[0] != "" && IsFinal(lines[0]) {
        OnCodesFromFront(s, ParseInt(FirstThree(lines[0])), Codes(lines[1..]));
      } else {
        assert [] + Codes(lines[1..]) == Codes(lines[1..]);
      }
    }
  }

  /** None of the codes from the second on, up to `n`, is 250. */
  predicate NotGreeted(codes: seq<Code>, n: int) {
    forall j :: 1 <= j < n && j < |codes| ==> codes[j] != Num(250)
  }

  /** The replies so far are what brings an undecided dialogue to `step`. */
  predicate InProgress(codes: seq<Code>, step: Step) {
    var n := |codes|;
    match step
    case Banner => n == 0
    case Ehlo => n >= 1 && codes[0] == Num(220) && NotGreeted(codes, n)
    case MailFrom => n >= 2 && codes[0] == Num(220) && NotGreeted(codes, n - 1) && codes[n - 1] == Num(250)
    case RcptTo =>
      n >= 3 && codes[0] == Num(220) && NotGreeted(codes, n - 2) && codes[n - 2] == codes[n - 1] == Num(250)
  }

  /** The verdict a reply brings at a step, if any. */
  function Outcome(step: Step, code: Code): Verdict {
    match step
    case Banner => if code == Num(220) then Open else Settled(ProbeResult(true, false, false, BadBanner(code)))
    case Ehlo => Open
    case MailFrom => if code == Num(250) then Open else Settled(ProbeResult(true, false, false, MailFromRejected(code)))
    case RcptTo =>
      Settled(ProbeResult(true, code == Num(250) || code == Num(251),
                          code.Num? && 400 <= code.value < 500, NoTrouble))
  }

  function CommandsBefore(step: Step): seq<Command> {
    match step
    case Banner => []
    case Ehlo => [EHLO]
    case MailFrom => [EHLO, MAIL]
    case RcptTo => [EHLO, MAIL, RCPT]
  }

  predicate Undecided(s: Session, codes: seq<Code>) {
    InProgress(codes, s.step) && s == Session(s.step, false, false, Open, CommandsBefore(s.step))
  }

  predicate Decides(codes: seq<Code>, n: nat, step: Step, v: Verdict) {
    n < |codes| && InProgress(codes[..n], step) && v.Settled? && Outcome(step, codes[n]) == v
  }

  ghost predicate DecidedBy(codes: seq<Code>, s: Session) {
    exists n: nat, step :: Decides(codes, n, step, s.verdict) && CommandsBefore(step) + [QUIT] <= s.sent
  }

  lemma CodeOnUndecided(codes: seq<Code>, code: Code, s: Session)
    requires Undecided(s, codes)
    ensures var t := OnCode(s, code);
      if t.verdict.Open? then Undecided(t, codes + [code]) else DecidedBy(codes + [code], t)
  {
    var t := OnCode(s, code);
    assert (codes + [code])[..|codes|] == codes;
    if t.verdict.Settled? {
      assert Decides(codes + [code], |codes|, s.step, t.verdict);
    }
  }

  lemma DecidesStays(codes: seq<Code>, code: Code, n: nat, step: Step, v: Verdict)
    requires Decides(codes, n, step, v)
    ensures Decides(codes + [code], n, step, v)
  {
    assert (codes + [code])[..n] == codes[..n];
  }

  lemma SentGrows(s: Session, code: Code)
    requires s.verdict.Settled?
    ensures OnCode(s, code).verdict == s.verdict && s.sent <= OnCode(s, code).sent
  {
  }

  lemma CodeOnDecided(codes: seq<Code>, code: Code, s: Session)
    requires s.verdict.Settled? && DecidedBy(codes, s)
    ensures OnCode(s, code).verdict == s.verdict && DecidedBy(codes + [code], OnCode(s, code))
  {
    var n: nat, step :| Decides(codes, n, step, s.verdict) && CommandsBefore(step) + [QUIT] <= s.sent;
    DecidesStays(codes, code, n, step, s.verdict);
    SentGrows(s, code);
  }

  /** Before a verdict, exactly the commands whose expected replies have come have been sent. */
  lemma {:induction false} UndecidedOrDecided(codes: seq<Code>)
    ensures var s := OnCodes(FRESH, codes);
      if s.verdict.Open? then Undecided(s, codes) else DecidedBy(codes, s)
  {
    if codes == [] {
    } else {
      var m := |codes| - 1;
      var before := OnCodes(FRESH, codes[..m]);
      UndecidedOrDecided(codes[..m]);
      assert codes[..m] + [codes[m]] == codes;
      if before.verdict.Open? {
        CodeOnUndecided(codes[..m], codes[m], before);
      } else {
        CodeOnDecided(codes[..m], codes[m], before);
      }
    }
  }

  lemma {:induction false} InProgressIsUndecided(codes: seq<Code>, step: Step)
    requires InProgress(codes, step)
    ensures Undecided(OnCodes(FRESH, codes), codes) && OnCodes(FRESH, codes).step == step
  {
    if codes == [] {
    } else {
      var m := |codes| - 1;
      var earlier :=
        if step == RcptTo then MailFrom else if step == MailFrom then Ehlo else if m == 0 then Banner else Ehlo;
      assert InProgress(codes[..m], earlier);
      InProgressIsUndecided(codes[..m], earlier);
    }
  }

  lemma {:induction false} VerdictStays(codes: seq<Code>, n: nat)
    requires n <= |codes| && OnCodes(FRESH, codes[..n]).verdict.Settled?
    ensures OnCodes(FRESH, codes).verdict == OnCodes(FRESH, codes[..n]).verdict
    decreases |codes|
  {
    if n < |codes| {
      assert codes[..|codes| - 1][..n] == codes[..n];
      VerdictStays(codes[..|codes| - 1], n);
    } else {
      assert codes[..n] == codes;
    }
  }

  lemma DecidesSettles(codes: seq<Code>, n: nat, step: Step, v: Verdict)
    requires Decides(codes, n, step, v)
    ensures OnCodes(FRESH, codes).verdict == v
  {
    InProgressIsUndecided(codes[..n], step);
    assert codes[..n + 1][..n] == codes[..n];
    VerdictStays(codes, n + 1);
  }

  /** A probe settles on a result exactly when some reply ends an undecided dialogue with that result. */
  lemma SettledIff(codes: seq<Code>, v: Verdict)
    requires v.Settled?
    ensures OnCodes(FRESH, codes).verdict == v <==> exists n: nat, step :: Decides(codes, n, step, v)
  {
    UndecidedOrDecided(codes);
    if n: nat, step :| Decides(codes, n, step, v) {
      DecidesSettles(codes, n, step, v);
    }
  }

  // ---- The server's text, as it is spelled ----

  const DIGITS: string := "0123456789"

  /** A line that ends no reply: too short, or its fourth character is no space. */
  predicate Silent(line: string) {
    |line| < 3 || (|line| > 3 && line[3] != ' ')
  }

  /** A line that ends a reply with the code of its three digits. */
  predicate Says(line: string, n: int) {
    && !Silent(line) && IsDigit(line[0]) && IsDigit(line[1]) && IsDigit(line[2])
    && n == 100 * Digit(line[0]) + 10 * Digit(line[1]) + Digit(line[2])
  }

  predicate SaysTemporary(line: string) {
    !Silent(line) && line[0] == '4' && IsDigit(line[1]) && IsDigit(line[2])
  }

  lemma SilentLine(s: Session, line: string)
    requires Silent(line)
    ensures OnLine(s, line) == s && Codes([line]) == []
  {
  }

  lemma SpeakingLine(s: Session, line: string)
    requires !Silent(line)
    ensures OnLine(s, line) == OnCode(s, ParseInt(line[..3])) && Codes([line]) == [ParseInt(line[..3])]
    ensures forall n :: n >= 100 ==> (Says(line, n) <==> ParseInt(line[..3]) == Num(n))
    ensures SaysTemporary(line) <==> ParseInt(line[..3]).Num? && 400 <= ParseInt(line[..3]).value < 500
  {
    assert |line| == 3 ==> line[..3] == line;
    var code := ParseInt(line[..3]);
    forall n | n >= 100 ensures Says(line, n) <==> code == Num(n) {
      CodeIsThreeDigits(line[..3], n);
    }
    if SaysTemporary(line) {
      assert Says(line, 400 + 10 * Digit(line[1]) + Digit(line[2]));
    }
  }

  lemma CutOneLine(line: string)
    requires NoBreak(line)
    ensures Cut(line + "\r\n") == Cutting([line], "") && "" + (line + "\r\n") == line + "\r\n"
  {
    CutLine(line, "");
    assert line + "\r\n" + "" == line + "\r\n";
  }

  lemma DigitsHaveNoBreak(a: char, b: char, c: char, t: string)
    requires IsDigit(a) && IsDigit(b) && IsDigit(c) && NoBreak(t)
    ensures NoBreak([a, b, c]) && NoBreak([a, b, c] + " " + t)
  {
    NoBreakAfterChar(' ', t);
    NoBreakAfterChar(c, [' '] + t);
    NoBreakAfterChar(b, [c] + ([' '] + t));
    NoBreakAfterChar(a, [b] + ([c] + ([' '] + t)));
    assert [a, b, c] + " " + t == [a] + ([b] + ([c] + ([' '] + t)));
  }

  /** A line that ends a reply acts as the code it says. */
  lemma ReplyActs(s: Session, line: string, n: int)
    requires NoBreak(line) && Says(line, n) && n >= 100
    ensures Feed(Conn("", s), line + "\r\n") == Conn("", OnCode(s, Num(n)))
  {
    CutOneLine(line);
    SpeakingLine(s, line);
    assert OnLines(s, [line]) == OnLine(s, line);
  }

  lemma DigitOf(a: nat)
    requires a < 10
    ensures IsDigit(DIGITS[a]) && Digit(DIGITS[a]) == a
  {
  }

  /** Three digits, alone or before a space and any text, act as the number they spell. */
  lemma SpelledReply(s: Session, a: nat, b: nat, c: nat, t: string)
    requires 0 < a < 10 && b < 10 && c < 10 && NoBreak(t)
    ensures var code := [DIGITS[a], DIGITS[b], DIGITS[c]];
      && Feed(Conn("", s), code + "\r\n") == Conn("", OnCode(s, Num(100 * a + 10 * b + c)))
      && Feed(Conn("", s), code + " " + t + "\r\n") == Conn("", OnCode(s, Num(100 * a + 10 * b + c)))
  {
    DigitOf(a);
    DigitOf(b);
    DigitOf(c);
    SpelledChars(s, DIGITS[a], DIGITS[b], DIGITS[c], t);
  }

  lemma SpelledChars(s: Session, a: char, b: char, c: char, t: string)
    requires IsDigit(a) && IsDigit(b) && IsDigit(c) && Digit(a) > 0 && NoBreak(t)
    ensures var n := 100 * Digit(a) + 10 * Digit(b) + Digit(c);
      && Feed(Conn("", s), [a, b, c] + "\r\n") == Conn("", OnCode(s, Num(n)))
      && Feed(Conn("", s), [a, b, c] + " " + t + "\r\n") == Conn("", OnCode(s, Num(n)))
  {
    var n := 100 * Digit(a) + 10 * Digit(b) + Digit(c);
    DigitsHaveNoBreak(a, b, c, t);
    ReplyActs(s, [a, b, c], n);
    ReplyActs(s, [a, b, c] + " " + t, n);
  }

  /** A line that ends no reply, as one whose code a hyphen follows, changes nothing. */
  lemma SpelledSilence(s: Session, line: string)
    requires NoBreak(line) && (|line| < 3 || (|line| >= 4 && line[3] != ' '))
    ensures Feed(Conn("", s), line + "\r\n") == Conn("", s)
  {
    CutOneLine(line);
    SilentLine(s, line);
    assert OnLines(s, [line]) == OnLine(s, line);
  }

  /** A banner of one line is answered with EHLO; a first line that announces more is not. */
  lemma FirstLine(t: string)
    requires NoBreak(t)
    ensures FeedAll(Conn("", FRESH), ["220 " + t + "\r\n"]).session.sent == [EHLO]
    ensures FeedAll(Conn("", FRESH), ["220-" + t + "\r\n"]).session.sent == []
  {
    var more := "220-" + t;
    SpelledReply(FRESH, 2, 2, 0, t);
    assert [DIGITS[2], DIGITS[2], DIGITS[0]] + " " + t == "220 " + t;
    NoBreakAfterChar('-', t);
    NoBreakAfterChar('0', ['-'] + t);
    NoBreakAfterChar('2', ['0'] + (['-'] + t));
    NoBreakAfterChar('2', ['2'] + (['0'] + (['-'] + t)));
    assert more == ['2'] + (['2'] + (['0'] + (['-'] + t)));
    SpelledSilence(FRESH, more);
  }

  /** Nothing but lines that end no reply. */
  predicate AllSilent(lines: seq<string>) {
    forall i :: 0 <= i < |lines| ==> Silent(lines[i])
  }

  predicate NeverSays(lines: seq<string>, n: int) {
    forall i :: 0 <= i < |lines| ==> !Says(lines[i], n)
  }

  predicate GreetedAt(lines: seq<string>, i: nat) {
    i < |lines| && AllSilent(lines[..i]) && Says(lines[i], 220) && NeverSays(lines[i + 1..], 250)
  }

  /** The first reply was 220, and no reply since was 250. */
  ghost predicate Greeted(lines: seq<string>) {
    exists i: nat :: GreetedAt(lines, i)
  }

  ghost predicate MailSentAt(lines: seq<string>, i: nat) {
    i < |lines| && Greeted(lines[..i]) && Says(lines[i], 250) && AllSilent(lines[i + 1..])
  }

  /** Then came a 250, and no reply since. */
  ghost predicate MailSent(lines: seq<string>) {
    exists i: nat :: MailSentAt(lines, i)
  }

  ghost predicate RcptSentAt(lines: seq<string>, i: nat) {
    i < |lines| && MailSent(lines[..i]) && Says(lines[i], 250) && AllSilent(lines[i + 1..])
  }

  /** Then another 250, and no reply since. */
  ghost predicate RcptSent(lines: seq<string>) {
    exists i: nat :: RcptSentAt(lines, i)
  }

  /** The lines bring an undecided dialogue to `step`. */
  ghost predicate Brings(lines: seq<string>, step: Step) {
    match step
    case Banner => AllSilent(lines)
    case Ehlo => Greeted(lines)
    case MailFrom => MailSent(lines)
    case RcptTo => RcptSent(lines)
  }

  lemma OneMoreSilent(lines: seq<string>, l: string)
    ensures AllSilent(lines + [l]) <==> AllSilent(lines) && Silent(l)
  {
    assert forall i :: 0 <= i < |lines| ==> (lines + [l])[i] == lines[i];
    assert (lines + [l])[|lines|] == l;
  }

  lemma OneMoreNever(lines: seq<string>, l: string, n: int)
    ensures NeverSays(lines + [l], n) <==> NeverSays(lines, n) && !Says(l, n)
  {
    assert forall i :: 0 <= i < |lines| ==> (lines + [l])[i] == lines[i];
    assert (lines + [l])[|lines|] == l;
  }

  lemma GreetedAtStays(lines: seq<string>, l: string, i: nat)
    requires i <= |lines|
    ensures GreetedAt(lines + [l], i) <==>
      if i < |lines| then GreetedAt(lines, i) && !Says(l, 250) else AllSilent(lines) && Says(l, 220)
  {
    var all := lines + [l];
    assert all[..i] == lines[..i] && lines[..|lines|] == lines;
    if i < |lines| {
      assert all[i + 1..] == lines[i + 1..] + [l];
      OneMoreNever(lines[i + 1..], l, 250);
    } else {
      assert all[i + 1..] == [];
    }
  }

  lemma OneMoreGreeted(lines: seq<string>, l: string)
    ensures Greeted(lines + [l]) <==> (Greeted(lines) && !Says(l, 250)) || (AllSilent(lines) && Says(l, 220))
  {
    if i: nat :| GreetedAt(lines, i) {
      GreetedAtStays(lines, l, i);
    }
    GreetedAtStays(lines, l, |lines|);
    if i: nat :| GreetedAt(lines + [l], i) {
      GreetedAtStays(lines, l, i);
    }
  }

  lemma MailSentAtStays(lines: seq<string>, l: string, i: nat)
    requires i <= |lines|
    ensures MailSentAt(lines + [l], i) <==>
      if i < |lines| then MailSentAt(lines, i) && Silent(l) else Greeted(lines) && Says(l, 250)
  {
    var all := lines + [l];
    assert all[..i] == lines[..i] && lines[..|lines|] == lines;
    if i < |lines| {
      assert all[i + 1..] == lines[i + 1..] + [l];
      OneMoreSilent(lines[i + 1..], l);
    } else {
      assert all[i + 1..] == [];
    }
  }

  lemma OneMoreMailSent(lines: seq<string>, l: string)
    ensures MailSent(lines + [l]) <==> (MailSent(lines) && Silent(l)) || (Greeted(lines) && Says(l, 250))
  {
    if i: nat :| MailSentAt(lines, i) {
      MailSentAtStays(lines, l, i);
    }
    MailSentAtStays(lines, l, |lines|);
    if i: nat :| MailSentAt(lines + [l], i) {
      MailSentAtStays(lines, l, i);
    }
  }

  lemma RcptSentAtStays(lines: seq<string>, l: string, i: nat)
    requires i <= |lines|
    ensures RcptSentAt(lines + [l], i) <==>
      if i < |lines| then RcptSentAt(lines, i) && Silent(l) else MailSent(lines) && Says(l, 250)
  {
    var all := lines + [l];
    assert all[..i] == lines[..i] && lines[..|lines|] == lines;
    if i < |lines| {
      assert all[i + 1..] == lines[i + 1..] + [l];
      OneMoreSilent(lines[i + 1..], l);
    } else {
      assert all[i + 1..] == [];
    }
  }

  lemma OneMoreRcptSent(lines: seq<string>, l: string)
    ensures RcptSent(lines + [l]) <==> (RcptSent(lines) && Silent(l)) || (MailSent(lines) && Says(l, 250))
  {
    if i: nat :| RcptSentAt(lines, i) {
      RcptSentAtStays(lines, l, i);
    }
    RcptSentAtStays(lines, l, |lines|);
    if i: nat :| RcptSentAt(lines + [l], i) {
      RcptSentAtStays(lines, l, i);
    }
  }

  lemma {:induction false} CodesConcat(a: seq<string>, b: seq<string>)
    ensures Codes(a + b) == Codes(a) + Codes(b)
    decreases |a|
  {
    if a == [] {
      assert a + b == b;
    } else {
      CodesConcat(a[1..], b);
      assert (a + b)[1..] == a[1..] + b;
    }
  }

  /** How one more code moves an undecided dialogue. */
  lemma OneMoreInProgress(codes: seq<Code>, x: Code)
    ensures !InProgress(codes + [x], Banner)
    ensures InProgress(codes + [x], Ehlo) <==>
      (InProgress(codes, Ehlo) && x != Num(250)) || (InProgress(codes, Banner) && x == Num(220))
    ensures InProgress(codes + [x], MailFrom) <==> InProgress(codes, Ehlo) && x == Num(250)
    ensures InProgress(codes + [x], RcptTo) <==> InProgress(codes, MailFrom) && x == Num(250)
  {
    var all := codes + [x];
    assert forall i :: 0 <= i < |codes| ==> all[i] == codes[i];
    assert all[|codes|] == x;
  }

  /** The replies of the text bring the dialogue where the lines say. */
  lemma {:induction false} BringsIsProgress(lines: seq<string>, step: Step)
    ensures Brings(lines, step) <==> InProgress(Codes(lines), step)
    decreases |lines|
  {
    if lines == [] {
    } else {
      var n := |lines| - 1;
      var before, l := lines[..n], lines[n];
      assert lines == before + [l];
      CodesConcat(before, [l]);
      BringsIsProgress(before, Banner);
      BringsIsProgress(before, Ehlo);
      BringsIsProgress(before, MailFrom);
      BringsIsProgress(before, RcptTo);
      OneMoreSilent(before, l);
      OneMoreGreeted(before, l);
      OneMoreMailSent(before, l);
      OneMoreRcptSent(before, l);
      if Silent(l) {
        SilentLine(FRESH, l);
        assert Codes(before) + [] == Codes(before);
      } else {
        SpeakingLine(FRESH, l);
        OneMoreInProgress(Codes(before), ParseInt(l[..3]));
      }
    }
  }

  /** The reply `line` after `before` ends the dialogue with `v`. */
  ghost predicate Ends(before: seq<string>, line: string, v: Verdict) {
    && !Silent(line)
    && (|| (AllSilent(before) && !Says(line, 220)
            && v == Settled(ProbeResult(true, false, false, BadBanner(ParseInt(line[..3])))))
        || (MailSent(before) && !Says(line, 250)
            && v == Settled(ProbeResult(true, false, false, MailFromRejected(ParseInt(line[..3])))))
        || (RcptSent(before)
            && v == Settled(ProbeResult(true, Says(line, 250) || Says(line, 251), SaysTemporary(line), NoTrouble))))
  }
  ghost predicate EndsAt(lines: seq<string>, r: nat, v: Verdict) {
    r < |lines| && Ends(lines[..r], lines[r], v)
  }

  /** A verdict by a code, and by the line that code is read from. */
  lemma EndsIsDecides(before: seq<string>, line: string, v: Verdict)
    requires !Silent(line)
    ensures v.Settled? && (exists step :: InProgress(Codes(before), step) && Outcome(step, ParseInt(line[..3])) == v)
       <==> Ends(before, line, v)
  {
    SpeakingLine(FRESH, line);
    BringsIsProgress(before, Banner);
    BringsIsProgress(before, MailFrom);
    BringsIsProgress(before, RcptTo);
    var code := ParseInt(line[..3]);
    if AllSilent(before) {
      assert InProgress(Codes(before), Banner) && Outcome(Banner, code).Settled? == !Says(line, 220);
    }
    if MailSent(before) {
      assert InProgress(Codes(before), MailFrom) && Outcome(MailFrom, code).Settled? == !Says(line, 250);
    }
    if RcptSent(before) {
      assert InProgress(Codes(before), RcptTo);
    }
  }

  lemma {:induction false} LineOfCode(lines: seq<string>, n: nat) returns (r: nat)
    requires n < |Codes(lines)|
    ensures r < |lines| && !Silent(lines[r]) && Codes(lines[..r]) == Codes(lines)[..n]
    ensures Codes(lines)[n] == ParseInt(lines[r][..3])
    decreases |lines|
  {
    var m := |lines| - 1;
    assert lines == lines[..m] + [lines[m]];
    CodesConcat(lines[..m], [lines[m]]);
    if n < |Codes(lines[..m])| {
      r := LineOfCode(lines[..m], n);
      assert lines[..m][..r] == lines[..r];
    } else {
      r := m;
      if Silent(lines[m]) {
        SilentLine(FRESH, lines[m]);
        assert false;
      } else {
        SpeakingLine(FRESH, lines[m]);
      }
    }
  }

  lemma CodeOfLine(lines: seq<string>, r: nat) returns (n: nat)
    requires r < |lines| && !Silent(lines[r])
    ensures n < |Codes(lines)| && Codes(lines)[..n] == Codes(lines[..r])
    ensures Codes(lines)[n] == ParseInt(lines[r][..3])
  {
    n := |Codes(lines[..r])|;
    assert lines == lines[..r] + ([lines[r]] + lines[r + 1..]);
    CodesConcat(lines[..r], [lines[r]] + lines[r + 1..]);
    CodesConcat([lines[r]], lines[r + 1..]);
    SpeakingLine(FRESH, lines[r]);
  }

  /** The lines settle the probe on a result exactly when one of them ends the dialogue with it. */
  lemma SettledByLines(lines: seq<string>, v: Verdict)
    requires v.Settled?
    ensures OnLines(FRESH, lines).verdict == v <==> exists r: nat :: EndsAt(lines, r, v)
  {
    var codes := Codes(lines);
    LinesAreCodes(FRESH, lines);
    SettledIff(codes, v);
    if n: nat, step :| Decides(codes, n, step, v) {
      var r := LineOfCode(lines, n);
      EndsIsDecides(lines[..r], lines[r], v);
      assert EndsAt(lines, r, v);
    }
    if r: nat :| EndsAt(lines, r, v) {
      var n := CodeOfLine(lines, r);
      EndsIsDecides(lines[..r], lines[r], v);
      var step :| InProgress(Codes(lines[..r]), step) && Outcome(step, ParseInt(lines[r][..3])) == v;
      assert Decides(codes, n, step, v);
    }
  }

  /** `verdict` is what the lines settle the probe on, and open only if they do not. */
  ghost predicate SettledBy(lines: seq<string>, verdict: Verdict) {
    if verdict.Settled? then exists r: nat :: EndsAt(lines, r, verdict)
    else forall r: nat, v :: !EndsAt(lines, r, v)
  }

  lemma FirstFeedSettles(chunk: string)
    ensures SettledBy(Cut(chunk).lines, Feed(Conn("", FRESH), chunk).session.verdict)
  {
    assert "" + chunk == chunk;
    var verdict := OnLines(FRESH, Cut(chunk).lines).verdict;
    if verdict.Settled? {
      SettledByLines(Cut(chunk).lines, verdict);
    } else {
      forall r: nat, v ensures !EndsAt(Cut(chunk).lines, r, v) {
        if EndsAt(Cut(chunk).lines, r, v) {
          SettledByLines(Cut(chunk).lines, v);
        }
      }
    }
  }

  /** The whole probe, from the bytes on: however the text comes in chunks, once it is written as lines and a
      rest, the probe settles on a result exactly when one of its lines ends the dialogue with it. */
  lemma SettledByText(chunks: seq<string>, lines: seq<string>, rest: string, v: Verdict)
    requires Flatten(chunks) == Spell(lines) + rest && NoBreaks(Cutting(lines, rest)) && v.Settled?
    ensures FeedAll(Conn("", FRESH), chunks).session.verdict == v <==> exists r: nat :: EndsAt(lines, r, v)
  {
    FeedsText(chunks);
    CutWhole(lines, rest);
    SettledByLines(lines, v);
  }

  /** And until then each command follows the reply that calls for it. */
  lemma CommandsByText(chunks: seq<string>, lines: seq<string>, rest: string)
    requires Flatten(chunks) == Spell(lines) + rest && NoBreaks(Cutting(lines, rest))
    ensures var s := FeedAll(Conn("", FRESH), chunks).session;
      && (AllSilent(lines) ==> s.verdict.Open? && s.sent == [])
      && (Greeted(lines) ==> s.verdict.Open? && s.sent == [EHLO])
      && (MailSent(lines) ==> s.verdict.Open? && s.sent == [EHLO, MAIL])
      && (RcptSent(lines) ==> s.verdict.Open? && s.sent == [EHLO, MAIL, RCPT])
  {
    FeedsText(chunks);
    CutWhole(lines, rest);
    LinesAreCodes(FRESH, lines);
    forall step | Brings(lines, step)
      ensures var s := OnCodes(FRESH, Codes(lines)); s.step == step && Undecided(s, Codes(lines))
    {
      BringsIsProgress(lines, step);
      InProgressIsUndecided(Codes(lines), step);
    }
    assert AllSilent(lines) ==> Brings(lines, Banner);
    assert Greeted(lines) ==> Brings(lines, Ehlo);
    assert MailSent(lines) ==> Brings(lines, MailFrom);
    assert RcptSent(lines) ==> Brings(lines, RcptTo);
  }

  const ACCEPTED := Settled(ProbeResult(true, true, false, NoTrouble))

  /** The address is accepted exactly when the text greets with 220, then answers 250 some time, then 250, and
      then 250 or 251, each at the end of a reply. */
  lemma AcceptedIff(chunks: seq<string>, lines: seq<string>, rest: string)
    requires Flatten(chunks) == Spell(lines) + rest && NoBreaks(Cutting(lines, rest))
    ensures var v := FeedAll(Conn("", FRESH), chunks).session.verdict;
      v.Settled? && v.result.accepted <==>
        exists r: nat :: r < |lines| && RcptSent(lines[..r]) && (Says(lines[r], 250) || Says(lines[r], 251))
  {
    var v := FeedAll(Conn("", FRESH), chunks).session.verdict;
    if v.Settled? {
      SettledByText(chunks, lines, rest, v);
    }
    SettledByText(chunks, lines, rest, ACCEPTED);
    if r: nat :| r < |lines| && RcptSent(lines[..r]) && (Says(lines[r], 250) || Says(lines[r], 251)) {
      assert EndsAt(lines, r, ACCEPTED);
    }
  }

  // ---- Falling back over MX hosts ----

  datatype HostResult = HostResult(checked: bool, relayUnreachable: bool, detail: string)

  const MAX_MX_ATTEMPTS: nat := 3

  /** The hosts tried, in order: at most three, up to the first definitive or relay-down answer; `probe` is
      the answer of each attempt. */
  predicate IsLastTried(hosts: seq<string>, probe: (string, nat) -> HostResult, i: nat) {
    && i < |hosts| && i < 3
    && (forall j :: 0 <= j < i ==> Goes(probe(hosts[j], j)))
    && (!Goes(probe(hosts[i], i)) || i + 1 == |hosts| || i + 1 == 3)
  }

  /** The answer sends the caller on to the next host. */
  predicate Goes(r: HostResult) {
    !r.checked && !r.relayUnreachable
  }

  method SmtpProbeWithFallback(mxHosts: seq<string>, probe: (string, nat) -> HostResult, noHosts: HostResult)
    returns (r: HostResult)
    ensures if mxHosts == [] then r == noHosts
            else exists i: nat :: IsLastTried(mxHosts, probe, i) && r == probe(mxHosts[i], i)
  {
    var hosts := if |mxHosts| <= MAX_MX_ATTEMPTS then mxHosts else mxHosts[..MAX_MX_ATTEMPTS];
    var last := noHosts;
    for i := 0 to |hosts|
      invariant forall j :: 0 <= j < i ==> Goes(probe(hosts[j], j))
      invariant last == if i == 0 then noHosts else probe(hosts[i - 1], i - 1)
    {
      var result := probe(hosts[i], i);
      if result.checked {
        assert IsLastTried(mxHosts, probe, i);
        return result;
      }
      last := result;
      if result.relayUnreachable {
        assert IsLastTried(mxHosts, probe, i);
        return last;
      }
    }
    if mxHosts != [] {
      assert IsLastTried(mxHosts, probe, |hosts| - 1);
    }
    return last;
  }
}
