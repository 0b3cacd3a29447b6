/** `checkSyntax` against a restricted form of the mailbox grammar of section 4.1.2 of RFC 5321. */
module EmailSyntax {
  import opened Strings
  import opened Domain

  const MAX_EMAIL_LENGTH: nat := 254
  const MAX_LOCAL_LENGTH: nat := 64
  const MAX_DOMAIN_LENGTH: nat := 253

  datatype Failure =
    | Empty | TooLong | NonAscii | MissingAtSign | SeveralAtSigns | EmptyLocal | EmptyDomain
    | LocalTooLong | UnmatchedQuote | EmptyQuotes | BadEscape | UnescapedQuote | ControlCharacter
    | QuoteOutside | LeadingDot | TrailingDot | ConsecutiveDots | BadLocalCharacter
    | AddressLiteral | DomainTooLong | SingleLabel | BadLabel | BadTld

  datatype SyntaxResult = Valid | Invalid(reason: Failure)

  // ---- The grammar ----

  predicate IsLetter(c: char) {
    'a' <= c <= 'z' || 'A' <= c <= 'Z'
  }

  predicate IsDigit(c: char) {
    '0' <= c <= '9'
  }

  /** atext of RFC 5321. */
  predicate IsAtext(c: char) {
    IsLetter(c) || IsDigit(c) || c in "!#$%&'*+-/=?^_`{|}~"
  }

  predicate IsPrintable(c: char) {
    ' ' <= c <= '~'
  }

  predicate IsAtom(s: string) {
    s != "" && forall i :: 0 <= i < |s| ==> IsAtext(s[i])
  }

  predicate AllAtoms(parts: seq<string>) {
    forall p :: p in parts ==> IsAtom(p)
  }

  /** Dot-string = Atom *("." Atom) */
  ghost predicate IsDotString(s: string) {
    exists atoms :: |atoms| >= 1 && AllAtoms(atoms) && s == Join(atoms, '.')
  }

  /** QcontentSMTP = qtextSMTP / quoted-pairSMTP */
  datatype Qcontent = Qtext(c: char) | QuotedPair(c: char) {
    predicate Ok() {
      IsPrintable(c) && (Qtext? ==> c != '\\' && c != '"')
    }

    function Text(): string {
      if Qtext? then [c] else ['\\', c]
    }
  }

  predicate AllOk(items: seq<Qcontent>) {
    forall q :: q in items ==> q.Ok()
  }

  function Render(items: seq<Qcontent>): string {
    if items == [] then "" else items[0].Text() + Render(items[1..])
  }

  /** Quoted-string = DQUOTE 1*QcontentSMTP DQUOTE */
  ghost predicate IsQuotedString(s: string) {
    exists items :: items != [] && AllOk(items) && s == "\"" + Render(items) + "\""
  }

  ghost predicate IsLocalPart(s: string) {
    |s| <= 64 && (IsDotString(s) || IsQuotedString(s))
  }

  predicate IsLetDigHyphen(c: char) {
    IsLetter(c) || IsDigit(c) || c == '-'
  }

  /** sub-domain: letters, digits and inner hyphens. */
  predicate IsLabel(s: string) {
    && 1 <= |s| <= 63
    && s[0] != '-' && s[|s| - 1] != '-'
    && forall i :: 0 <= i < |s| ==> IsLetDigHyphen(s[i])
  }

  predicate IsTld(s: string) {
    |s| >= 2 && forall i :: 0 <= i < |s| ==> IsLetter(s[i])
  }

  predicate AreLabels(labels: seq<string>) {
    |labels| >= 2 && (forall l :: l in labels ==> IsLabel(l)) && IsTld(labels[|labels| - 1])
  }

  /** Two labels or more under an alphabetic top-level domain, a final dot allowed. */
  ghost predicate IsHost(s: string) {
    && |s| <= 253
    && exists labels :: AreLabels(labels) && (s == Join(labels, '.') || s == Join(labels, '.') + ".")
  }

  ghost predicate SplitsAs(address: string, local: string, host: string) {
    address == local + "@" + host && IsLocalPart(local) && IsHost(host)
  }

  ghost predicate IsMailbox(address: string) {
    |address| <= 254 && exists local, host :: SplitsAs(address, local, host)
  }

  // ---- Dot-strings ----

  predicate HasDoubleDot(s: string) {
    |s| >= 2 && (s[..2] == ".." || HasDoubleDot(s[1..]))
  }

  predicate EndsWithDot(s: string) {
    s != "" && s[|s| - 1] == '.'
  }

  predicate NoneEmpty(parts: seq<string>) {
    forall i :: 0 <= i < |parts| ==> parts[i] != ""
  }

  /** Empty parts are what the three rules about dots forbid. */
  lemma {:induction false} DotRules(s: string)
    ensures Split(s, '.')[0] == "" <==> s == "" || s[0] == '.'
    ensures NoneEmpty(Split(s, '.')[1..]) <==> !HasDoubleDot(s) && !EndsWithDot(s)
  {
    if s == "" {
    } else {
      var t := s[1..];
      DotRules(t);
      var rest := Split(t, '.');
      assert EndsWithDot(s) <==> if t == "" then s[0] == '.' else EndsWithDot(t);
      assert HasDoubleDot(s) <==> (t != "" && s[0] == '.' && t[0] == '.') || HasDoubleDot(t);
      if s[0] == '.' {
        assert Split(s, '.')[1..] == rest;
        assert rest == [rest[0]] + rest[1..];
        assert NoneEmpty(rest) <==> rest[0] != "" && NoneEmpty(rest[1..]);
      } else {
        assert Split(s, '.')[1..] == rest[1..];
      }
    }
  }

  predicate AllAtextOrDot(s: string) {
    forall i :: 0 <= i < |s| ==> IsAtext(s[i]) || s[i] == '.'
  }

  predicate AllAtext(s: string) {
    forall i :: 0 <= i < |s| ==> IsAtext(s[i])
  }

  predicate AllPartsAtext(parts: seq<string>) {
    forall i :: 0 <= i < |parts| ==> AllAtext(parts[i])
  }

  lemma AtextFront(c: char, s: string)
    ensures AllAtext([c] + s) <==> IsAtext(c) && AllAtext(s)
  {
    var t := [c] + s;
    assert t[0] == c;
    assert forall i :: 0 <= i < |s| ==> s[i] == t[i + 1];
  }

  lemma PartsFront(p: string, parts: seq<string>)
    ensures AllPartsAtext([p] + parts) <==> AllAtext(p) && AllPartsAtext(parts)
  {
    var t := [p] + parts;
    assert t[0] == p;
    assert forall i :: 0 <= i < |parts| ==> parts[i] == t[i + 1];
  }

  lemma AtextOrDotFront(s: string)
    requires s != ""
    ensures AllAtextOrDot(s) <==> (IsAtext(s[0]) || s[0] == '.') && AllAtextOrDot(s[1..])
  {
    assert forall i :: 0 <= i < |s| - 1 ==> s[1..][i] == s[i + 1];
  }

  lemma {:induction false} PartsOfAtext(s: string)
    ensures AllAtextOrDot(s) <==> AllPartsAtext(Split(s, '.'))
  {
    if s == "" {
    } else {
      var rest := Split(s[1..], '.');
      AtextOrDotFront(s);
      PartsOfAtext(s[1..]);
      if s[0] == '.' {
        PartsFront("", rest);
      } else {
        PartsFront(rest[0], rest[1..]);
        assert rest == [rest[0]] + rest[1..];
        AtextFront(s[0], rest[0]);
        PartsFront([s[0]] + rest[0], rest[1..]);
      }
    }
  }

  predicate ObeysDotRules(s: string) {
    s != "" && s[0] != '.' && !EndsWithDot(s) && !HasDoubleDot(s) && AllAtextOrDot(s)
  }

  lemma NoneEmptyFront(parts: seq<string>)
    requires |parts| >= 1
    ensures NoneEmpty(parts) <==> parts[0] != "" && NoneEmpty(parts[1..])
  {
    assert forall i :: 0 <= i < |parts| - 1 ==> parts[1..][i] == parts[i + 1];
  }

  lemma AtomsAreNonemptyAtext(parts: seq<string>)
    ensures AllAtoms(parts) <==> NoneEmpty(parts) && AllPartsAtext(parts)
  {
    if AllAtoms(parts) {
      forall i | 0 <= i < |parts| ensures parts[i] != "" && AllAtext(parts[i]) {
        assert IsAtom(parts[i]);
      }
    }
  }

  lemma DotRulesIffAtoms(s: string)
    ensures ObeysDotRules(s) <==> AllAtoms(Split(s, '.'))
  {
    var parts := Split(s, '.');
    DotRules(s);
    PartsOfAtext(s);
    NoneEmptyFront(parts);
    AtomsAreNonemptyAtext(parts);
  }

  lemma NotAtext()
    ensures !IsAtext('.') && !IsAtext('"') && !IsAtext('@')
  {
  }

  lemma AtextIsAscii(c: char)
    requires IsAtext(c)
    ensures c <= '~'
  {
  }

  lemma AtomHasNoDot(p: string)
    requires IsAtom(p)
    ensures '.' !in p
  {
    NotAtext();
  }

  lemma AtomsSplitBack(atoms: seq<string>)
    requires |atoms| >= 1 && AllAtoms(atoms)
    ensures Split(Join(atoms, '.'), '.') == atoms
  {
    forall p | p in atoms ensures '.' !in p {
      AtomHasNoDot(p);
    }
    SplitJoin(atoms, '.');
  }

  lemma DotStringIff(s: string)
    ensures IsDotString(s) <==> ObeysDotRules(s)
  {
    DotRulesIffAtoms(s);
    JoinSplit(s, '.');
    if IsDotString(s) {
      var atoms :| |atoms| >= 1 && AllAtoms(atoms) && s == Join(atoms, '.');
      AtomsSplitBack(atoms);
    }
  }

  // ---- Quoted strings ----

  /** What the scanner accepts from a position on. */
  predicate Scans(s: string) {
    if s == "" then true
    else if s[0] == '\\' then |s| >= 2 && IsPrintable(s[1]) && Scans(s[2..])
    else s[0] != '"' && IsPrintable(s[0]) && Scans(s[1..])
  }

  lemma {:induction false} ScansRendered(items: seq<Qcontent>)
    requires AllOk(items)
    ensures Scans(Render(items))
  {
    if items == [] {
    } else {
      var q, rest := items[0], Render(items[1..]);
      assert q in items;
      ScansRendered(items[1..]);
      assert Render(items) == q.Text() + rest;
      assert Render(items)[|q.Text()|..] == rest;
    }
  }

  lemma {:induction false} ParseScanned(s: string) returns (items: seq<Qcontent>)
    requires Scans(s)
    ensures AllOk(items) && Render(items) == s
  {
    if s == "" {
      items := [];
    } else if s[0] == '\\' {
      var rest := ParseScanned(s[2..]);
      items := [QuotedPair(s[1])] + rest;
      assert items[1..] == rest;
      assert s == ['\\', s[1]] + s[2..];
    } else {
      var rest := ParseScanned(s[1..]);
      items := [Qtext(s[0])] + rest;
      assert items[1..] == rest;
      assert s == [s[0]] + s[1..];
    }
  }

  lemma RenderIsNonempty(items: seq<Qcontent>)
    ensures Render(items) == "" <==> items == []
  {
    if items != [] {
      assert |items[0].Text()| >= 1;
    }
  }

  /** Quoted content has one reading only. */
  lemma {:induction false} RenderIsInjective(a: seq<Qcontent>, b: seq<Qcontent>)
    requires AllOk(a) && AllOk(b) && Render(a) == Render(b)
    ensures a == b
  {
    RenderIsNonempty(a);
    RenderIsNonempty(b);
    if a == [] {
    } else {
      assert a[0] in a && b[0] in b;
      assert Render(a)[0] == a[0].Text()[0] && Render(b)[0] == b[0].Text()[0];
      assert a[0].QuotedPair? ==> Render(a)[1] == a[0].c;
      assert b[0].QuotedPair? ==> Render(b)[1] == b[0].c;
      assert Render(a)[|a[0].Text()|..] == Render(a[1..]);
      assert Render(b)[|b[0].Text()|..] == Render(b[1..]);
      RenderIsInjective(a[1..], b[1..]);
      assert a == [a[0]] + a[1..] && b == [b[0]] + b[1..];
    }
  }

  lemma QuotedIsScanned(items: seq<Qcontent>)
    requires items != [] && AllOk(items)
    ensures var s := "\"" + Render(items) + "\"";
      |s| > 2 && s[0] == '"' && s[|s| - 1] == '"' && Scans(s[1..|s| - 1])
  {
    ScansRendered(items);
    RenderIsNonempty(items);
    var s := "\"" + Render(items) + "\"";
    assert s[1..|s| - 1] == Render(items);
  }

  lemma ScannedIsQuoted(s: string)
    requires |s| > 2 && s[0] == '"' && s[|s| - 1] == '"' && Scans(s[1..|s| - 1])
    ensures IsQuotedString(s)
  {
    var items := ParseScanned(s[1..|s| - 1]);
    RenderIsNonempty(items);
    assert s == "\"" + Render(items) + "\"";
  }

  lemma QuotedStringIff(s: string)
    ensures IsQuotedString(s) <==>
      |s| > 2 && s[0] == '"' && s[|s| - 1] == '"' && Scans(s[1..|s| - 1])
  {
    if IsQuotedString(s) {
      var items: seq<Qcontent> :| items != [] && AllOk(items) && s == "\"" + Render(items) + "\"";
      QuotedIsScanned(items);
    } else if |s| > 2 && s[0] == '"' && s[|s| - 1] == '"' && Scans(s[1..|s| - 1]) {
      ScannedIsQuoted(s);
    }
  }

  // ---- What the reasons say ----

  predicate LocalFault(reason: Failure, s: string) {
    match reason
    case EmptyLocal => s == ""
    case LocalTooLong => |s| > MAX_LOCAL_LENGTH
    case UnmatchedQuote => s != "" && s[0] == '"' && s[|s| - 1] != '"'
    case EmptyQuotes => s == "\"" || s == "\"\""
    case BadEscape => s != "" && s[0] == '"' && '\\' in s
    case UnescapedQuote => |s| > 2 && s[0] == '"' && '"' in s[1..|s| - 1]
    case ControlCharacter => s != "" && s[0] == '"' && exists i :: 0 <= i < |s| && !IsPrintable(s[i])
    case QuoteOutside => s != "" && s[0] != '"' && '"' in s
    case LeadingDot => s != "" && s[0] == '.'
    case TrailingDot => EndsWithDot(s)
    case ConsecutiveDots => HasDoubleDot(s)
    case BadLocalCharacter => !AllAtextOrDot(s)
    case _ => false
  }

  predicate HostFault(reason: Failure, s: string) {
    var labels := Split(StripDot(s), '.');
    match reason
    case AddressLiteral => s != "" && s[0] == '[' && s[|s| - 1] == ']'
    case DomainTooLong => |s| > MAX_DOMAIN_LENGTH
    case EmptyDomain => s == "" || s == "."
    case SingleLabel => |labels| == 1
    case BadLabel => exists i :: 0 <= i < |labels| && !IsLabel(labels[i])
    case BadTld => (forall l :: l in labels ==> IsLabel(l)) && !IsTld(labels[|labels| - 1])
    case _ => false
  }

  /** The reason is true of the address. */
  predicate Explains(reason: Failure, s: string) {
    var at := LastIndexOf(s, '@');
    match reason
    case Empty => s == ""
    case TooLong => |s| > MAX_EMAIL_LENGTH
    case NonAscii => !IsAscii(s)
    case MissingAtSign => '@' !in s
    case SeveralAtSigns => CountChar(s, '@') > 1 && s[0] != '"'
    case _ => at >= 0 && (LocalFault(reason, s[..at]) || HostFault(reason, s[at + 1..]))
  }

  /** The loop over the characters between the quotes. */
  method ScanQuoted(inner: string) returns (r: SyntaxResult)
    ensures r.Valid? <==> Scans(inner)
    ensures r.Invalid? ==>
      match r.reason
      case BadEscape => '\\' in inner
      case UnescapedQuote => '"' in inner
      case ControlCharacter => exists i :: 0 <= i < |inner| && !IsPrintable(inner[i])
      case _ => false
  {
    var i := 0;
    while i < |inner|
      invariant 0 <= i <= |inner|
      invariant Scans(inner) == Scans(inner[i..])
    {
      var ch := inner[i];
      if ch == '\\' {
        i := i + 1;
        if i == |inner| || inner[i] as int < 32 || inner[i] as int > 126 {
          return Invalid(BadEscape);
        }
        assert inner[i - 1..][2..] == inner[i + 1..];
        i := i + 1;
        continue;
      }
      if ch == '"' {
        return Invalid(UnescapedQuote);
      }
      if ch as int < 32 || ch as int > 126 {
        return Invalid(ControlCharacter);
      }
      assert inner[i..][1..] == inner[i + 1..];
      i := i + 1;
    }
    return Valid;
  }

  lemma DotStringHasNone(s: string)
    requires IsDotString(s)
    ensures '"' !in s && '@' !in s
  {
    DotStringIff(s);
    NotAtext();
  }

  lemma QuotedStringStarts(s: string)
    requires IsQuotedString(s)
    ensures s != "" && s[0] == '"'
  {
    var items: seq<Qcontent> :| items != [] && AllOk(items) && s == "\"" + Render(items) + "\"";
  }

  lemma NotBothForms(s: string)
    ensures IsDotString(s) ==> '"' !in s && '@' !in s
    ensures IsQuotedString(s) ==> s != "" && s[0] == '"'
  {
    if IsDotString(s) {
      DotStringHasNone(s);
    }
    if IsQuotedString(s) {
      QuotedStringStarts(s);
    }
  }

  method ValidateLocal(local: string) returns (r: SyntaxResult)
    ensures r.Valid? <==> IsLocalPart(local)
    ensures r.Invalid? ==> LocalFault(r.reason, local)
  {
    DotStringIff(local);
    QuotedStringIff(local);
    NotBothForms(local);
    if |local| == 0 {
      return Invalid(EmptyLocal);
    }
    if |local| > MAX_LOCAL_LENGTH {
      return Invalid(LocalTooLong);
    }
    if local[0] == '"' {
      if local[|local| - 1] != '"' {
        return Invalid(UnmatchedQuote);
      }
      if |local| <= 2 {
        return Invalid(EmptyQuotes);
      }
      var inner := local[1..|local| - 1];
      assert forall i :: 0 <= i < |inner| ==> inner[i] == local[i + 1];
      r := ScanQuoted(inner);
      return;
    }
    if '"' in local {
      return Invalid(QuoteOutside);
    }
    if local[0] == '.' {
      return Invalid(LeadingDot);
    }
    if EndsWithDot(local) {
      return Invalid(TrailingDot);
    }
    if HasDoubleDot(local) {
      return Invalid(ConsecutiveDots);
    }
    if !AllAtextOrDot(local) {
      return Invalid(BadLocalCharacter);
    }
    return Valid;
  }

  // ---- Hosts ----

  lemma {:induction false} JoinLast(parts: seq<string>)
    requires |parts| >= 1 && parts[|parts| - 1] != ""
    ensures var j, last := Join(parts, '.'), parts[|parts| - 1];
      j != "" && j[|j| - 1] == last[|last| - 1]
  {
    if |parts| <= 1 {
    } else {
      JoinLast(parts[1..]);
    }
  }

  lemma LabelsAreHost(labels: seq<string>)
    requires AreLabels(labels)
    ensures var j := Join(labels, '.');
      && Split(j, '.') == labels && j != ""
      && !EndsWithDot(j) && j[0] != '[' && '@' !in j
      && !IsSpace(j[0]) && !IsSpace(j[|j| - 1])
  {
    var j := Join(labels, '.');
    forall l | l in labels ensures '.' !in l && '@' !in l {
      assert IsLabel(l);
    }
    SplitJoin(labels, '.');
    JoinLast(labels);
    assert labels[0] in labels && IsLabel(labels[0]);
    assert j[0] == labels[0][0];
    JoinLacks(labels, '@');
  }

  lemma {:induction false} JoinLacks(parts: seq<string>, c: char)
    requires c != '.' && forall p :: p in parts ==> c !in p
    ensures c !in Join(parts, '.')
  {
    if |parts| <= 1 {
    } else {
      JoinLacks(parts[1..], c);
    }
  }

  lemma HostHasLabels(s: string)
    requires IsHost(s)
    ensures AreLabels(Split(StripDot(s), '.'))
    ensures s != "" && s[0] != '[' && '@' !in s && !IsSpace(s[0]) && !IsSpace(s[|s| - 1])
  {
    var labels :| AreLabels(labels) && (s == Join(labels, '.') || s == Join(labels, '.') + ".");
    LabelsAreHost(labels);
    assert StripDot(s) == Join(labels, '.');
  }

  lemma LabelsMakeHost(s: string)
    requires |s| <= MAX_DOMAIN_LENGTH && AreLabels(Split(StripDot(s), '.'))
    ensures IsHost(s)
  {
    JoinSplit(StripDot(s), '.');
    assert s == StripDot(s) || s == StripDot(s) + ".";
  }

  lemma HostIff(s: string)
    ensures IsHost(s) <==> |s| <= MAX_DOMAIN_LENGTH && AreLabels(Split(StripDot(s), '.'))
    ensures IsHost(s) ==> s != "" && s[0] != '[' && '@' !in s && !IsSpace(s[0]) && !IsSpace(s[|s| - 1])
  {
    if IsHost(s) {
      HostHasLabels(s);
    } else if |s| <= MAX_DOMAIN_LENGTH && AreLabels(Split(StripDot(s), '.')) {
      LabelsMakeHost(s);
    }
  }

  /** The loop over the labels. */
  method CheckLabels(labels: seq<string>) returns (ok: bool)
    ensures ok <==> forall i :: 0 <= i < |labels| ==> IsLabel(labels[i])
  {
    for i := 0 to |labels|
      invariant forall j :: 0 <= j < i ==> IsLabel(labels[j])
    {
      if !IsLabel(labels[i]) {
        return false;
      }
    }
    return true;
  }

  method ValidateDomain(domain: string) returns (r: SyntaxResult)
    ensures r.Valid? <==> IsHost(domain)
    ensures r.Invalid? ==> HostFault(r.reason, domain)
  {
    HostIff(domain);
    if domain != "" && domain[0] == '[' && domain[|domain| - 1] == ']' {
      return Invalid(AddressLiteral);
    }
    if |domain| > MAX_DOMAIN_LENGTH {
      return Invalid(DomainTooLong);
    }
    var normalized := StripDot(domain);
    if |normalized| == 0 {
      return Invalid(EmptyDomain);
    }
    var labels := Split(normalized, '.');
    if |labels| < 2 {
      return Invalid(SingleLabel);
    }
    var ok := CheckLabels(labels);
    if !ok {
      return Invalid(BadLabel);
    }
    if !IsTld(labels[|labels| - 1]) {
      return Invalid(BadTld);
    }
    return Valid;
  }

  // ---- The whole address ----

  function CountChar(s: string, c: char): nat {
    multiset(s)[c]
  }

  lemma AroundTheLastAt(local: string, host: string)
    requires '@' !in host
    ensures var s := local + "@" + host;
      LastIndexOf(s, '@') == |local| && s[..|local|] == local && s[|local| + 1..] == host
  {
    LastIndexOfSplit(local, host, '@');
  }

  lemma OneAtUnlessQuoted(local: string, host: string)
    requires IsLocalPart(local) && IsHost(host)
    ensures local != "" && host != ""
    ensures local[0] != '"' ==> CountChar(local + "@" + host, '@') == 1
  {
    HostIff(host);
    DotStringIff(local);
    QuotedStringIff(local);
    NotBothForms(local);
    assert multiset(local + "@" + host) == multiset(local) + multiset{'@'} + multiset(host);
  }

  lemma MailboxHasOneSplit(local: string, host: string)
    requires IsLocalPart(local) && IsHost(host)
    ensures var s := local + "@" + host;
      && LastIndexOf(s, '@') == |local| > 0
      && s[..|local|] == local && s[|local| + 1..] == host && host != ""
  {
    HostIff(host);
    OneAtUnlessQuoted(local, host);
    AroundTheLastAt(local, host);
  }

  lemma MailboxIsAscii(local: string, host: string)
    requires IsLocalPart(local) && IsHost(host)
    ensures IsAscii(local + "@" + host)
  {
    HostIsAscii(host);
    LocalIsAscii(local);
  }

  lemma {:induction false} JoinIsAscii(parts: seq<string>)
    requires forall p, i :: p in parts && 0 <= i < |p| ==> p[i] <= '~'
    ensures forall i :: 0 <= i < |Join(parts, '.')| ==> Join(parts, '.')[i] <= '~'
  {
    if |parts| <= 1 {
    } else {
      JoinIsAscii(parts[1..]);
    }
  }

  lemma HostIsAscii(host: string)
    requires IsHost(host)
    ensures forall i :: 0 <= i < |host| ==> host[i] <= '~'
  {
    var labels :| AreLabels(labels) && (host == Join(labels, '.') || host == Join(labels, '.') + ".");
    forall p, i | p in labels && 0 <= i < |p| ensures p[i] <= '~' {
      assert IsLabel(p);
    }
    JoinIsAscii(labels);
  }

  lemma {:induction false} ScannedIsAscii(s: string)
    requires Scans(s)
    ensures forall i :: 0 <= i < |s| ==> s[i] <= '~'
  {
    if s == "" {
    } else {
      ScannedIsAscii(if s[0] == '\\' then s[2..] else s[1..]);
    }
  }

  lemma DotStringIsAscii(local: string)
    requires IsDotString(local)
    ensures forall i :: 0 <= i < |local| ==> local[i] <= '~'
  {
    DotStringIff(local);
    forall i | 0 <= i < |local| ensures local[i] <= '~' {
      if local[i] != '.' {
        AtextIsAscii(local[i]);
      }
    }
  }

  lemma QuotedStringIsAscii(local: string)
    requires IsQuotedString(local)
    ensures forall i :: 0 <= i < |local| ==> local[i] <= '~'
  {
    QuotedStringIff(local);
    var inner := local[1..|local| - 1];
    ScannedIsAscii(inner);
    assert forall i :: 1 <= i < |local| - 1 ==> local[i] == inner[i - 1];
  }

  lemma LocalIsAscii(local: string)
    requires IsLocalPart(local)
    ensures forall i :: 0 <= i < |local| ==> local[i] <= '~'
  {
    if IsDotString(local) {
      DotStringIsAscii(local);
    } else {
      QuotedStringIsAscii(local);
    }
  }

  predicate IsAscii(s: string) {
    forall i :: 0 <= i < |s| ==> s[i] <= '\U{007F}'
  }

  /** The mailbox's parts lie around the last at-sign. */
  lemma MailboxIff(s: string)
    ensures var at := LastIndexOf(s, '@');
      IsMailbox(s) <==> |s| <= MAX_EMAIL_LENGTH && at >= 0 && SplitsAs(s, s[..at], s[at + 1..])
  {
    if IsMailbox(s) {
      var local, host :| SplitsAs(s, local, host);
      MailboxHasOneSplit(local, host);
    }
  }

  /** A mailbox passes every check made before its parts are read. */
  lemma MailboxPassesScreens(s: string)
    requires IsMailbox(s)
    ensures IsAscii(s) && 0 < LastIndexOf(s, '@') < |s| - 1 && (s[0] != '"' ==> CountChar(s, '@') == 1)
  {
    var local, host :| SplitsAs(s, local, host);
    MailboxHasOneSplit(local, host);
    OneAtUnlessQuoted(local, host);
    MailboxIsAscii(local, host);
  }

  /** Exactly the mailboxes of the grammar are accepted, after white space at the ends is dropped; a rejection
      comes with a reason that is true of the address. */
  method CheckSyntax(email: string) returns (r: SyntaxResult)
    ensures r.Valid? <==> IsMailbox(Trim(email))
    ensures r.Invalid? ==> Explains(r.reason, Trim(email))
  {
    var trimmed := Trim(email);
    MailboxIff(trimmed);
    if IsMailbox(trimmed) {
      MailboxPassesScreens(trimmed);
    }
    if |trimmed| == 0 {
      return Invalid(Empty);
    }
    if |trimmed| > MAX_EMAIL_LENGTH {
      return Invalid(TooLong);
    }
    if !IsAscii(trimmed) {
      return Invalid(NonAscii);
    }
    var atCount := CountChar(trimmed, '@');
    if atCount == 0 {
      return Invalid(MissingAtSign);
    }
    if atCount > 1 && trimmed[0] != '"' {
      return Invalid(SeveralAtSigns);
    }
    var at := LastIndexOf(trimmed, '@');
    if at == 0 {
      return Invalid(EmptyLocal);
    }
    if at == |trimmed| - 1 {
      return Invalid(EmptyDomain);
    }
    assert at >= 0 by {
      assert '@' in multiset(trimmed);
    }
    assert trimmed == trimmed[..at] + "@" + trimmed[at + 1..];
    r := ValidateLocal(trimmed[..at]);
    if !r.Valid? {
      return;
    }
    r := ValidateDomain(trimmed[at + 1..]);
  }

  /** However many at-signs the quotes hide, an address has one local part and one host. */
  lemma SplitIsUnique(s: string, local: string, host: string, local': string, host': string)
    requires SplitsAs(s, local, host) && SplitsAs(s, local', host')
    ensures local == local' && host == host'
  {
    MailboxHasOneSplit(local, host);
    MailboxHasOneSplit(local', host');
  }

  lemma StripLower(s: string)
    ensures StripDot(ToLower(s)) == ToLower(StripDot(s))
  {
  }

  lemma AroundPadded(pre: string, local: string, host: string, post: string)
    requires '@' !in host && AllSpace(post)
    ensures var email := pre + (local + "@" + host) + post;
      var at := LastIndexOf(email, '@');
      at >= 0 && email[..at] == pre + local && email[at + 1..] == host + post
  {
    assert '@' !in host + post;
    assert pre + (local + "@" + host) + post == (pre + local) + "@" + (host + post);
    AroundTheLastAt(pre + local, host + post);
  }

  lemma FirstCharacter(pre: string, s: string, post: string)
    requires AllSpace(pre) && s != "" && Trimmed(s)
    ensures pre == "" <==> !IsSpace((pre + s + post)[0])
  {
  }

  lemma NormalizedHost(host: string, post: string)
    requires host != "" && Trimmed(host) && AllSpace(post)
    ensures NormalizeDomain(host + post) == ToLower(StripDot(host))
  {
    TrimPadded("", host, post);
    assert "" + host + post == host + post;
    StripLower(host);
  }

  lemma LoweredPrefix(pre: string, local: string)
    ensures ToLower(pre + local) == ToLower(local) <==> pre == ""
  {
    if pre == "" {
      assert pre + local == local;
    } else {
      assert |ToLower(pre + local)| > |ToLower(local)|;
    }
  }

  /** `extractDomain` recovers the host of the address as it was typed, lower-cased and without a final
      dot. `extractLocal` does not trim: it recovers the local part unless white space precedes it. */
  lemma ExtractionRecovers(email: string, local: string, host: string)
    requires email != "" && SplitsAs(Trim(email), local, host)
    ensures ExtractDomain(email) == Extracted(ToLower(StripDot(host)))
    ensures ExtractLocal(email) == Extracted(ToLower(local)) <==> !IsSpace(email[0])
  {
    HostIff(host);
    var pre, post := TrimCuts(email);
    AroundPadded(pre, local, host, post);
    FirstCharacter(pre, local + "@" + host, post);
    NormalizedHost(host, post);
    LoweredPrefix(pre, local);
  }

  lemma ShortLocal()
    ensures IsLocalPart("a")
  {
    DotStringIff("a");
  }

  lemma ShortHost()
    ensures IsHost("b.co")
  {
    var labels := ["b", "co"];
    assert IsLabel("b") && IsLabel("co") && IsTld("co");
    assert labels[1..] == ["co"];
    assert Join(labels, '.') == "b" + "." + "co" == "b.co";
    assert AreLabels(labels);
  }

  lemma PaddedSplits()
    ensures SplitsAs(Trim(" a@b.co"), "a", "b.co")
  {
    TrimPadded(" ", "a@b.co", "");
    assert " " + "a@b.co" + "" == " a@b.co";
    assert "a@b.co" == "a" + "@" + "b.co";
    ShortLocal();
    ShortHost();
  }

  lemma PaddedExtracts()
    ensures ExtractLocal(" a@b.co") == Extracted(" a")
  {
    assert " a@b.co" == " a" + "@" + "b.co";
    AroundTheLastAt(" a", "b.co");
    assert ToLower(" a") == " a";
  }

  /** An address with white space in front, whose local part is not recovered. */
  lemma PaddedLocalIsMissed()
    ensures SplitsAs(Trim(" a@b.co"), "a", "b.co")
    ensures ExtractLocal(" a@b.co") == Extracted(" a") != Extracted(ToLower("a"))
  {
    PaddedSplits();
    PaddedExtracts();
    assert |ToLower("a")| == 1;
  }

  lemma LabelsHaveNoSpace(labels: seq<string>)
    requires AreLabels(labels)
    ensures HasNoSpace(Join(labels, '.'))
  {
    forall l, i | l in labels && 0 <= i < |l| ensures !IsSpace(l[i]) {
      assert IsLabel(l);
      assert IsLetDigHyphen(l[i]);
    }
    JoinHasNoSpace(labels);
  }

  lemma HostHasNoSpace(host: string)
    requires IsHost(host)
    ensures HasNoSpace(host) && host != ""
  {
    var labels :| AreLabels(labels) && (host == Join(labels, '.') || host == Join(labels, '.') + ".");
    LabelsAreHost(labels);
    LabelsHaveNoSpace(labels);
  }

  lemma HostEndsWell(host: string)
    requires IsHost(host)
    ensures !(|host| >= 2 && host[|host| - 2..] == "..")
  {
    var labels :| AreLabels(labels) && (host == Join(labels, '.') || host == Join(labels, '.') + ".");
    LabelsAreHost(labels);
    var j := Join(labels, '.');
    assert j[|j| - 1] != '.';
    if |host| >= 2 {
      assert host[|host| - 2..][0] == host[|host| - 2] && host[|host| - 2..][1] == host[|host| - 1];
    }
  }

  lemma {:induction false} JoinHasNoSpace(parts: seq<string>)
    requires forall p, i :: p in parts && 0 <= i < |p| ==> !IsSpace(p[i])
    ensures HasNoSpace(Join(parts, '.'))
  {
    if |parts| <= 1 {
    } else {
      JoinHasNoSpace(parts[1..]);
    }
  }

  /** On every host the syntax check accepts, the registrable domain is its own registrable domain. */
  lemma RegistrableIdempotentOnHosts(host: string)
    requires IsHost(host)
    ensures GetRegistrableDomain(GetRegistrableDomain(host)) == GetRegistrableDomain(host)
  {
    HostHasNoSpace(host);
    HostEndsWell(host);
    TrimIsIdentity(host);
    IdempotentUnlessDoubleDot(host);
  }
}
