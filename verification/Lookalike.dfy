/** Typosquat detection against the major mailbox providers. */
module Lookalike {
  import opened Strings
  import opened EditDistance

  const PROTECTED_DOMAINS: seq<string> := [
    "gmail.com", "googlemail.com", "yahoo.com", "yahoo.co.uk", "yahoo.co.in",
    "outlook.com", "hotmail.com", "live.com", "msn.com",
    "icloud.com", "me.com", "mac.com",
    "aol.com", "protonmail.com", "proton.me", "gmx.com", "gmx.de",
    "zoho.com", "yandex.com", "yandex.ru", "mail.com", "mail.ru",
    "fastmail.com", "rediffmail.com", "qq.com", "163.com", "126.com",
    "naver.com", "daum.net", "comcast.net", "verizon.net", "att.net"]

  const NESTING_BRANDS: set<string> := {
    "gmail", "googlemail", "yahoo", "outlook", "hotmail", "icloud",
    "protonmail", "yandex", "rediffmail", "fastmail"}

  /** Look-alike characters and what they impersonate, in the order the object's keys are visited. */
  const HOMOGLYPHS: seq<(char, char)> := [
    ('0', 'o'), ('1', 'l'), ('3', 'e'), ('5', 's'), ('!', 'i'), ('|', 'l'), ('@', 'a'), ('$', 's')]

  datatype Reason = EditDistanceMatch | HomoglyphMatch | SubdomainNesting

  datatype LookalikeResult = NotLookalike | Lookalike(impersonates: string, reason: Reason)

  // ---- Homoglyph normalisation ----

  /** What one character is read as. */
  function Glyph(c: char): char {
    match c
    case '0' => 'o'
    case '1' | '|' => 'l'
    case '!' => 'i'
    case '5' | '$' => 's'
    case '3' => 'e'
    case '@' => 'a'
    case _ => c
  }

  /** The first `k` replacements of the table, applied one after the other. */
  function GlyphUpTo(k: nat, c: char): char
    requires k <= |HOMOGLYPHS|
  {
    if k == 0 then c
    else
      var d := GlyphUpTo(k - 1, c);
      if d == HOMOGLYPHS[k - 1].0 then HOMOGLYPHS[k - 1].1 else d
  }

  /** No replacement feeds a later one: the order of the table does not matter. */
  lemma ReplacementsDoNotChain(c: char)
    ensures GlyphUpTo(|HOMOGLYPHS|, c) == Glyph(c)
  {
    assert GlyphUpTo(1, c) == if c == '0' then 'o' else c;
    assert GlyphUpTo(2, c) == if c == '0' then 'o' else if c == '1' then 'l' else c;
    assert GlyphUpTo(4, c) == if c in "0135" then Glyph(c) else c;
    assert GlyphUpTo(6, c) == if c in "0135!|" then Glyph(c) else c;
  }

  lemma JoinPrepend(c: char, parts: seq<string>, from: char, to: char)
    requires |parts| >= 1
    ensures Join(Prepend(c, parts, from), to) == [if c == from then to else c] + Join(parts, to)
  {
    if c == from {
      assert ([""] + parts)[1..] == parts;
    } else {
      assert ([[c] + parts[0]] + parts[1..])[1..] == parts[1..];
    }
  }

  /** `s.split(from).join(to)` replaces every occurrence of a character. */
  lemma {:induction false} SplitJoinReplaces(s: string, from: char, to: char)
    ensures Join(Split(s, from), to) == seq(|s|, i requires 0 <= i < |s| => if s[i] == from then to else s[i])
  {
    if s == "" {
    } else {
      SplitJoinReplaces(s[1..], from, to);
      JoinPrepend(s[0], Split(s[1..], from), from, to);
    }
  }

  /** Replaces every occurrence of the pair `xy`, from the left and without overlap. */
  function ReplacePair(s: string, x: char, y: char, to: char): string {
    if |s| < 2 then s
    else if s[0] == x && s[1] == y then [to] + ReplacePair(s[2..], x, y, to)
    else [s[0]] + ReplacePair(s[1..], x, y, to)
  }

  /** The string a reader sees: single characters, then `rn` as `m`, then `vv` as `w`. */
  function Skeleton(s: string): string {
    var glyphs := seq(|s|, i requires 0 <= i < |s| => Glyph(LowerChar(s[i])));
    ReplacePair(ReplacePair(glyphs, 'r', 'n', 'm'), 'v', 'v', 'w')
  }

  method NormalizeHomoglyphs(s: string) returns (out: string)
    ensures out == Skeleton(s)
  {
    out := ToLower(s);
    for k := 0 to |HOMOGLYPHS|
      invariant |out| == |s|
      invariant forall i :: 0 <= i < |s| ==> out[i] == GlyphUpTo(k, LowerChar(s[i]))
    {
      SplitJoinReplaces(out, HOMOGLYPHS[k].0, HOMOGLYPHS[k].1);
      out := Join(Split(out, HOMOGLYPHS[k].0), HOMOGLYPHS[k].1);
    }
    forall i | 0 <= i < |s| ensures out[i] == Glyph(LowerChar(s[i])) {
      ReplacementsDoNotChain(LowerChar(s[i]));
    }
    assert out == seq(|s|, i requires 0 <= i < |s| => Glyph(LowerChar(s[i])));
    out := ReplacePair(out, 'r', 'n', 'm');
    out := ReplacePair(out, 'v', 'v', 'w');
  }

  // ---- The three tests ----

  /** `labels.slice(-n)`. */
  function LastLabels(labels: seq<string>, n: nat): seq<string> {
    if n >= |labels| then labels else labels[|labels| - n..]
  }

  /** A distinctive brand is one of the labels, but the domain is not under the brand's own domain. */
  predicate Nests(lower: string, protected: string, brands: set<string>) {
    var labels := Split(lower, '.');
    var parts := Split(protected, '.');
    parts[0] in brands && Join(LastLabels(labels, |parts|), '.') != protected && parts[0] in labels
  }

  function Threshold(protected: string): nat {
    if |protected| <= 8 then 1 else 2
  }

  /** Few enough edits turn the domain into the protected one. */
  ghost predicate WithinThreshold(lower: string, protected: string) {
    exists script :: Transforms(script, lower, protected) && |script| <= if |protected| <= 8 then 1 else 2
  }

  ghost predicate Resembles(lower: string, protected: string) {
    WithinThreshold(lower, protected) || Skeleton(lower) == protected
  }

  /** `i` is the first protected domain the domain nests (all of them passed when `i` is the length). */
  ghost predicate IsFirstNesting(lower: string, domains: seq<string>, brands: set<string>, i: nat) {
    && i <= |domains|
    && (forall j :: 0 <= j < i ==> !Nests(lower, domains[j], brands))
    && (i < |domains| ==> Nests(lower, domains[i], brands))
  }

  ghost predicate IsFirstResembling(lower: string, domains: seq<string>, i: nat) {
    && i <= |domains|
    && (forall j :: 0 <= j < i ==> !Resembles(lower, domains[j]))
    && (i < |domains| ==> Resembles(lower, domains[i]))
  }

  /** What `checkLookalike` answers: the first nested brand, else the first resembled domain. */
  ghost predicate IsVerdict(lower: string, domains: seq<string>, brands: set<string>, r: LookalikeResult) {
    if lower in domains then r == NotLookalike
    else exists i: nat ::
      IsFirstNesting(lower, domains, brands, i) && IsVerdictAfterNesting(lower, domains, i, r)
  }

  ghost predicate IsVerdictAfterNesting(lower: string, domains: seq<string>, i: nat, r: LookalikeResult) {
    if i < |domains| then r == Lookalike(domains[i], SubdomainNesting)
    else exists k: nat :: IsFirstResembling(lower, domains, k) && r == Resemblance(lower, domains, k)
  }

  ghost function Resemblance(lower: string, domains: seq<string>, k: nat): LookalikeResult {
    if k >= |domains| then NotLookalike
    else Lookalike(domains[k], if WithinThreshold(lower, domains[k]) then EditDistanceMatch else HomoglyphMatch)
  }

  /** A short distance is the same as a short script. */
  lemma ThresholdByDistance(lower: string, protected: string, d: nat)
    requires IsEditDistance(lower, protected, d)
    ensures d <= Threshold(protected) <==> WithinThreshold(lower, protected)
  {
  }

  method Check(domain: string, domains: seq<string>, brands: set<string>) returns (r: LookalikeResult)
    ensures IsVerdict(ToLower(domain), domains, brands, r)
  {
    var lower := ToLower(domain);
    if lower in domains {
      return NotLookalike;
    }
    for i := 0 to |domains|
      invariant forall j :: 0 <= j < i ==> !Nests(lower, domains[j], brands)
    {
      if Nests(lower, domains[i], brands) {
        assert IsFirstNesting(lower, domains, brands, i);
        return Lookalike(domains[i], SubdomainNesting);
      }
    }
    assert IsFirstNesting(lower, domains, brands, |domains|);
    r := FirstResemblance(lower, domains);
  }

  /** The last loop of `checkLookalike`: edit distance, then homoglyphs, domain by domain. */
  method FirstResemblance(lower: string, domains: seq<string>) returns (r: LookalikeResult)
    requires lower !in domains
    ensures exists k: nat :: IsFirstResembling(lower, domains, k) && r == Resemblance(lower, domains, k)
  {
    var normalized := NormalizeHomoglyphs(lower);
    for i := 0 to |domains|
      invariant forall j :: 0 <= j < i ==> !Resembles(lower, domains[j])
    {
      var near := IsNear(lower, domains[i]);
      if near {
        assert IsFirstResembling(lower, domains, i);
        return Lookalike(domains[i], EditDistanceMatch);
      }
      if normalized == domains[i] && lower != domains[i] {
        assert IsFirstResembling(lower, domains, i);
        return Lookalike(domains[i], HomoglyphMatch);
      }
    }
    assert IsFirstResembling(lower, domains, |domains|);
    return NotLookalike;
  }

  /** `rawDist > 0 && rawDist <= threshold`. */
  method IsNear(lower: string, protected: string) returns (near: bool)
    requires lower != protected
    ensures near <==> WithinThreshold(lower, protected)
  {
    var rawDist := Levenshtein(lower, protected);
    ThresholdByDistance(lower, protected, rawDist);
    DifferentStringsAreApart(lower, protected, rawDist);
    near := rawDist > 0 && rawDist <= Threshold(protected);
  }

  lemma DifferentStringsAreApart(a: string, b: string, d: nat)
    requires IsEditDistance(a, b, d) && a != b
    ensures d > 0
  {
    EditDistanceIsDist(a, b, d);
    ZeroIffEqual(a, b);
  }

  method CheckLookalike(domain: string) returns (r: LookalikeResult)
    ensures IsVerdict(ToLower(domain), PROTECTED_DOMAINS, NESTING_BRANDS, r)
  {
    r := Check(domain, PROTECTED_DOMAINS, NESTING_BRANDS);
  }

  /** Flagged exactly when the domain is not protected and nests, or resembles, a protected one. */
  lemma FlaggedIff(lower: string, domains: seq<string>, brands: set<string>, r: LookalikeResult)
    requires IsVerdict(lower, domains, brands, r)
    ensures r.Lookalike? <==>
      lower !in domains && exists p :: p in domains && (Nests(lower, p, brands) || Resembles(lower, p))
  {
    if lower !in domains {
      var i: nat :| IsFirstNesting(lower, domains, brands, i) && IsVerdictAfterNesting(lower, domains, i, r);
      if i < |domains| {
        assert domains[i] in domains;
      } else {
        var k: nat :| IsFirstResembling(lower, domains, k) && r == Resemblance(lower, domains, k);
        if k < |domains| {
          assert domains[k] in domains;
        }
      }
    }
  }

  // ---- Nesting, as the names are spelled ----

  /** The name opens with this label. */
  ghost predicate OpensWith(name: string, word: string) {
    '.' !in word && (name == word || exists rest :: name == word + "." + rest)
  }

  predicate BetweenDots(x: string, y: string) {
    (x == "" || x[|x| - 1] == '.') && (y == "" || y[0] == '.')
  }

  /** The label stands in the name, between dots or at an end. */
  ghost predicate StandsIn(word: string, name: string) {
    exists x, y :: name == x + word + y && BetweenDots(x, y)
  }

  /** The name is the other one, or below it. */
  ghost predicate IsUnder(name: string, other: string) {
    name == other || exists sub :: name == sub + "." + other
  }

  lemma FirstPart(name: string, word: string)
    requires OpensWith(name, word)
    ensures Split(name, '.')[0] == word
  {
    SplitWithoutSep(word, '.');
    if rest :| name == word + "." + rest {
      SplitAtSep(word, rest, '.');
    }
  }

  lemma JoinAround(labels: seq<string>, i: nat) returns (x: string, y: string)
    requires i < |labels|
    ensures Join(labels, '.') == x + labels[i] + y && BetweenDots(x, y)
  {
    x := if i == 0 then "" else Join(labels[..i], '.') + ".";
    y := if i + 1 == |labels| then "" else "." + Join(labels[i + 1..], '.');
    assert labels == labels[..i] + labels[i..] && labels[i..] == [labels[i]] + labels[i + 1..];
    if i > 0 {
      JoinConcat(labels[..i], labels[i..], '.');
    }
    if i + 1 < |labels| {
      JoinConcat([labels[i]], labels[i + 1..], '.');
    }
  }

  lemma WordInFront(word: string, y: string)
    requires '.' !in word && BetweenDots("", y)
    ensures Split(word + y, '.')[0] == word
  {
    SplitWithoutSep(word, '.');
    if y == "" {
      assert word + y == word;
    } else {
      SplitAtSep(word, y[1..], '.');
      assert word + y == word + "." + y[1..];
    }
  }

  lemma WordAround(x: string, word: string, y: string)
    requires '.' !in word && BetweenDots(x, y)
    ensures word in Split(x + word + y, '.')
  {
    var tail := word + y;
    WordInFront(word, y);
    assert word in Split(tail, '.');
    if x == "" {
      assert x + word + y == tail;
    } else {
      var front := x[..|x| - 1];
      SplitAtSep(front, tail, '.');
      assert x == front + ".";
      assert x + word + y == front + "." + tail;
    }
  }

  lemma StandsInIff(word: string, name: string)
    requires '.' !in word
    ensures word in Split(name, '.') <==> StandsIn(word, name)
  {
    JoinSplit(name, '.');
    if word in Split(name, '.') {
      var i: nat :| i < |Split(name, '.')| && Split(name, '.')[i] == word;
      var x, y := JoinAround(Split(name, '.'), i);
    }
    if x, y :| name == x + word + y && BetweenDots(x, y) {
      WordAround(x, word, y);
    }
  }

  lemma UnderIff(name: string, other: string)
    ensures Join(LastLabels(Split(name, '.'), |Split(other, '.')|), '.') == other <==> IsUnder(name, other)
  {
    var labels, parts := Split(name, '.'), Split(other, '.');
    JoinSplit(name, '.');
    JoinSplit(other, '.');
    if |parts| < |labels| {
      var k := |labels| - |parts|;
      assert labels == labels[..k] + labels[k..];
      JoinConcat(labels[..k], labels[k..], '.');
    }
    if sub :| name == sub + "." + other {
      SplitAtSep(sub, other, '.');
      assert (Split(sub, '.') + parts)[|Split(sub, '.')|..] == parts;
    }
  }

  /** A name nests a protected one exactly when the protected one opens with a distinctive brand, the brand stands
      in the name as a word, and the name is not under the protected one. */
  lemma NestsIff(name: string, protected: string, brand: string, brands: set<string>)
    requires OpensWith(protected, brand)
    ensures Nests(name, protected, brands) <==>
      brand in brands && StandsIn(brand, name) && !IsUnder(name, protected)
  {
    FirstPart(protected, brand);
    StandsInIff(brand, name);
    UnderIff(name, protected);
  }

  // ---- Disguises ----

  predicate PairAt(s: string, i: nat, x: char, y: char) {
    i + 1 < |s| && s[i] == x && s[i + 1] == y
  }

  ghost predicate HasPair(s: string, x: char, y: char) {
    exists i: nat :: PairAt(s, i, x, y)
  }

  lemma NoPairInTail(s: string, x: char, y: char)
    requires s != "" && !HasPair(s, x, y)
    ensures !HasPair(s[1..], x, y)
  {
    forall i: nat ensures !PairAt(s[1..], i, x, y) {
      assert !PairAt(s, i + 1, x, y);
    }
  }

  lemma {:induction false} NoPairNoChange(s: string, x: char, y: char, to: char)
    requires !HasPair(s, x, y)
    ensures ReplacePair(s, x, y, to) == s
  {
    if |s| < 2 {
    } else {
      assert !PairAt(s, 0, x, y);
      NoPairInTail(s, x, y);
      NoPairNoChange(s[1..], x, y, to);
    }
  }

  lemma NoPairInFront(s: string, t: string, x: char, y: char, to: char)
    requires |s| >= 2 && !PairAt(s, 0, x, y) && s[1..] == t
    ensures ReplacePair(s, x, y, to) == [s[0]] + ReplacePair(t, x, y, to)
  {
  }

  /** The first pair is replaced, and what follows it is treated the same way. */
  lemma {:induction false} FirstPairIsReplaced(a: string, b: string, x: char, y: char, to: char)
    requires !HasPair(a + [x], x, y)
    ensures ReplacePair(a + [x, y] + b, x, y, to) == a + [to] + ReplacePair(b, x, y, to)
  {
    var s := a + [x, y] + b;
    if a == "" {
      assert s[2..] == b;
    } else {
      NoPairInTail(a + [x], x, y);
      assert (a + [x])[1..] == a[1..] + [x];
      assert !PairAt(a + [x], 0, x, y);
      assert (a + [x])[1] == s[1] && (a + [x])[0] == s[0];
      FirstPairIsReplaced(a[1..], b, x, y, to);
      NoPairInFront(s, a[1..] + [x, y] + b, x, y, to);
      assert a == [a[0]] + a[1..];
    }
  }

  /** Lower-case letters and dots. */
  predicate IsPlain(s: string) {
    forall i :: 0 <= i < |s| ==> 'a' <= s[i] <= 'z' || s[i] == '.'
  }

  /** Nothing in the name reads as something else. */
  ghost predicate ReadsAsItself(s: string) {
    IsPlain(s) && !HasPair(s, 'r', 'n') && !HasPair(s, 'v', 'v')
  }

  lemma SkeletonOfPlain(s: string)
    requires IsPlain(s)
    ensures Skeleton(s) == ReplacePair(ReplacePair(s, 'r', 'n', 'm'), 'v', 'v', 'w')
  {
    assert seq(|s|, i requires 0 <= i < |s| => Glyph(LowerChar(s[i]))) == s;
  }

  /** A name that reads as itself with one letter spelled another way: a digit or sign for a letter, `rn` for
      `m`, or `vv` for `w`. */
  predicate Disguises(name: string, p: string, a: string, b: string) {
    || (p == a + "m" + b && name == a + "rn" + b)
    || (p == a + "w" + b && name == a + "vv" + b && (a != "" ==> a[|a| - 1] != 'v'))
    || (p == a + "o" + b && name == a + "0" + b)
    || (p == a + "l" + b && (name == a + "1" + b || name == a + "|" + b))
    || (p == a + "e" + b && name == a + "3" + b)
    || (p == a + "s" + b && (name == a + "5" + b || name == a + "$" + b))
    || (p == a + "i" + b && name == a + "!" + b)
    || (p == a + "a" + b && name == a + "@" + b)
  }

  lemma RnReadsAsM(a: string, b: string)
    requires ReadsAsItself(a + "m" + b)
    ensures Skeleton(a + "rn" + b) == a + "m" + b
  {
    var p := a + "m" + b;
    var name := a + ['r', 'n'] + b;
    Around(a, 'm', b);
    assert IsPlain(name);
    SkeletonOfPlain(name);
    FirstPairIsReplaced(a, b, 'r', 'n', 'm');
    NoPairNoChange(b, 'r', 'n', 'm');
    NoPairNoChange(p, 'v', 'v', 'w');
    assert a + ['m'] + b == p && a + "rn" + b == name;
  }

  lemma VvReadsAsW(a: string, b: string)
    requires ReadsAsItself(a + "w" + b) && (a != "" ==> a[|a| - 1] != 'v')
    ensures Skeleton(a + "vv" + b) == a + "w" + b
  {
    var p := a + "w" + b;
    var name := a + ['v', 'v'] + b;
    Around(a, 'w', b);
    assert IsPlain(name);
    SkeletonOfPlain(name);
    forall i: nat ensures !PairAt(name, i, 'r', 'n') {
      if i < |a| {
        assert !PairAt(a, i, 'r', 'n');
      } else if i >= |a| + 2 {
        assert !PairAt(b, i - |a| - 2, 'r', 'n');
      }
    }
    NoPairNoChange(name, 'r', 'n', 'm');
    FirstPairIsReplaced(a, b, 'v', 'v', 'w');
    NoPairNoChange(b, 'v', 'v', 'w');
    assert a + ['w'] + b == p && a + "vv" + b == name;
  }

  /** What stands on either side of a letter reads as itself too, also before `r`, and before `v` unless it ends
      in `v`. */
  lemma Around(a: string, c: char, b: string)
    requires ReadsAsItself(a + [c] + b)
    ensures ReadsAsItself(a) && ReadsAsItself(b) && !HasPair(a + ['r'], 'r', 'n')
    ensures (a != "" ==> a[|a| - 1] != 'v') ==> !HasPair(a + ['v'], 'v', 'v')
  {
    var p := a + [c] + b;
    assert forall i :: 0 <= i < |a| ==> p[i] == a[i];
    assert forall i :: 0 <= i < |b| ==> b[i] == p[|a| + 1 + i];
    forall i: nat ensures !PairAt(a, i, 'r', 'n') && !PairAt(a, i, 'v', 'v') {
      assert !PairAt(p, i, 'r', 'n') && !PairAt(p, i, 'v', 'v');
    }
    forall i: nat ensures !PairAt(b, i, 'r', 'n') && !PairAt(b, i, 'v', 'v') {
      assert !PairAt(p, |a| + 1 + i, 'r', 'n') && !PairAt(p, |a| + 1 + i, 'v', 'v');
    }
    forall i: nat ensures !PairAt(a + ['r'], i, 'r', 'n') {
      assert !PairAt(a, i, 'r', 'n');
    }
    if a != "" ==> a[|a| - 1] != 'v' {
      forall i: nat ensures !PairAt(a + ['v'], i, 'v', 'v') {
        assert !PairAt(a, i, 'v', 'v');
      }
    }
  }

  lemma SignReadsAsLetter(a: string, g: char, b: string)
    requires !('a' <= g <= 'z') && g != '.' && LowerChar(g) == g && ReadsAsItself(a + [Glyph(g)] + b)
    ensures Skeleton(a + [g] + b) == a + [Glyph(g)] + b
  {
    var p, name := a + [Glyph(g)] + b, a + [g] + b;
    forall i | 0 <= i < |name| ensures Glyph(LowerChar(name[i])) == p[i] {
      assert i != |a| ==> name[i] == p[i];
    }
    assert seq(|name|, i requires 0 <= i < |name| => Glyph(LowerChar(name[i]))) == p;
    NoPairNoChange(p, 'r', 'n', 'm');
    NoPairNoChange(p, 'v', 'v', 'w');
  }

  lemma DisguiseReadsAs(name: string, p: string, a: string, b: string)
    requires ReadsAsItself(p) && Disguises(name, p, a, b)
    ensures Skeleton(name) == p
  {
    if p == a + "m" + b && name == a + "rn" + b {
      RnReadsAsM(a, b);
    } else if p == a + "w" + b && name == a + "vv" + b {
      VvReadsAsW(a, b);
    } else {
      SignReadsAsLetter(a, name[|a|], b);
    }
  }

  /** No disguise gets through: whatever reads as a protected domain in one of these ways is flagged. */
  lemma EveryDisguiseIsFlagged(name: string, p: string, a: string, b: string, domains: seq<string>,
                               brands: set<string>, r: LookalikeResult)
    requires IsVerdict(name, domains, brands, r) && name !in domains && p in domains
    requires ReadsAsItself(p) && Disguises(name, p, a, b)
    ensures r.Lookalike?
  {
    DisguiseReadsAs(name, p, a, b);
    assert Resembles(name, p);
    FlaggedIff(name, domains, brands, r);
  }

  /** No typo gets through, whichever edits produced it. */
  lemma EveryTypoIsFlagged(script: seq<Edit>, lower: string, p: string, domains: seq<string>, brands: set<string>,
                           r: LookalikeResult)
    requires IsVerdict(lower, domains, brands, r) && lower !in domains && p in domains
    requires Transforms(script, lower, p) && |script| <= if |p| <= 8 then 1 else 2
    ensures r.Lookalike?
  {
    assert Resembles(lower, p);
    FlaggedIff(lower, domains, brands, r);
  }
}
