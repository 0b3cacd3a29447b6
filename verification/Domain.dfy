/** Domain extraction, normalisation and registrable domains. */
module Domain {
  import opened Strings

  datatype Extraction = Extracted(value: string) | NoAtSign

  /** `s.replace(/\.$/, '')`: one trailing dot goes. */
  function StripDot(s: string): string {
    if s != "" && s[|s| - 1] == '.' then s[..|s| - 1] else s
  }

  function NormalizeDomain(domain: string): string {
    StripDot(ToLower(Trim(domain)))
  }

  function ExtractDomain(email: string): Extraction {
    var at := LastIndexOf(email, '@');
    if at == -1 then NoAtSign else Extracted(NormalizeDomain(email[at + 1..]))
  }

  function ExtractLocal(email: string): Extraction {
    var at := LastIndexOf(email, '@');
    if at == -1 then NoAtSign else Extracted(ToLower(email[..at]))
  }

  const KNOWN_TWO_PART_TLDS: set<string> := {
    "co.uk", "me.uk", "org.uk", "ltd.uk", "plc.uk", "net.uk", "sch.uk",
    "ac.uk", "gov.uk", "nhs.uk", "police.uk", "mod.uk",
    "com.au", "net.au", "org.au", "edu.au", "gov.au", "asn.au", "id.au",
    "com.br", "net.br", "org.br", "gov.br", "edu.br", "mil.br",
    "co.in", "net.in", "org.in", "gov.in", "ac.in", "nic.in",
    "co.jp", "ne.jp", "or.jp", "ac.jp", "go.jp", "ad.jp", "ed.jp",
    "co.nz", "net.nz", "org.nz", "govt.nz", "ac.nz", "school.nz",
    "co.za", "net.za", "org.za", "gov.za", "ac.za", "web.za",
    "com.sg", "net.sg", "org.sg", "gov.sg", "edu.sg",
    "com.hk", "net.hk", "org.hk", "gov.hk", "edu.hk", "idv.hk",
    "com.ar", "net.ar", "org.ar", "gov.ar", "edu.ar",
    "com.mx", "net.mx", "org.mx", "gob.mx", "edu.mx",
    "co.ke", "net.ke", "org.ke", "go.ke", "ac.ke",
    "co.tz", "net.tz", "org.tz", "go.tz", "ac.tz",
    "com.pk", "net.pk", "org.pk", "gov.pk", "edu.pk",
    "com.co", "net.co", "org.co", "gov.co", "edu.co"}

  /** `labels.slice(-n).join('.')`. */
  function Tail(labels: seq<string>, n: nat): string
    requires n <= |labels|
  {
    Join(labels[|labels| - n..], '.')
  }

  /** The registrable domain, for any table of two-part top-level domains. */
  function Registrable(domain: string, tlds: set<string>): string {
    var normalized := NormalizeDomain(domain);
    var labels := Split(normalized, '.');
    if |labels| <= 2 then normalized
    else if Tail(labels, 2) in tlds then Tail(labels, 3)
    else Tail(labels, 2)
  }

  function GetRegistrableDomain(domain: string): string {
    Registrable(domain, KNOWN_TWO_PART_TLDS)
  }

  // ---- Normal forms ----

  predicate IsLower(s: string) {
    ToLower(s) == s
  }

  /** Nothing left for `normalizeDomain` to remove. */
  predicate CleanEnds(s: string) {
    Trimmed(s) && (s != "" ==> s[|s| - 1] != '.')
  }

  lemma TrimShortens(s: string)
    ensures |Trim(s)| <= |s|
    ensures Trim(s) == s <==> Trimmed(s)
    ensures !Trimmed(s) ==> |Trim(s)| < |s|
  {
    var pre, post := TrimCuts(s);
    if Trimmed(s) {
      TrimIsIdentity(s);
    } else {
      assert pre == "" && post == "" ==> pre + Trim(s) + post == Trim(s);
    }
  }

  lemma NormalIffCleanEnds(s: string)
    requires IsLower(s)
    ensures NormalizeDomain(s) == s <==> CleanEnds(s)
    ensures NormalizeDomain(s) != s ==> |NormalizeDomain(s)| < |s|
  {
    TrimShortens(s);
  }

  lemma NormalIsLower(domain: string)
    ensures IsLower(NormalizeDomain(domain))
  {
    var t := Trim(domain);
    assert forall c :: LowerChar(LowerChar(c)) == LowerChar(c);
    var n := NormalizeDomain(domain);
    forall i | 0 <= i < |n| ensures LowerChar(n[i]) == n[i] {
      assert n[i] == LowerChar(t[i]);
    }
    assert ToLower(n) == n;
  }

  lemma TailIsSuffix(s: string, n: nat)
    requires 1 <= n <= |Split(s, '.')|
    ensures var t := Tail(Split(s, '.'), n);
      |t| <= |s| && t == s[|s| - |t|..] && Split(t, '.') == Split(s, '.')[|Split(s, '.')| - n..]
  {
    var labels := Split(s, '.');
    var k := |labels| - n;
    JoinSplit(s, '.');
    SplitPartsLackSep(s, '.');
    SplitJoin(labels[k..], '.');
    if k > 0 {
      assert labels == labels[..k] + labels[k..];
      JoinConcat(labels[..k], labels[k..], '.');
    } else {
      assert labels[0..] == labels;
    }
  }

  lemma SuffixIsLower(s: string, t: string)
    requires IsLower(s) && |t| <= |s| && t == s[|s| - |t|..]
    ensures IsLower(t)
  {
    forall i | 0 <= i < |t| ensures LowerChar(t[i]) == t[i] {
      assert t[i] == s[|s| - |t| + i] == ToLower(s)[|s| - |t| + i];
    }
    assert ToLower(t) == t;
  }

  /** The registrable domain is a lower-case suffix of the normalised domain. */
  lemma RegistrableIsSuffix(domain: string, tlds: set<string>)
    ensures var n := NormalizeDomain(domain);
      var r := Registrable(domain, tlds);
      IsLower(r) && |r| <= |n| && r == n[|n| - |r|..]
  {
    var n := NormalizeDomain(domain);
    NormalIsLower(domain);
    var labels := Split(n, '.');
    if |labels| <= 2 {
      return;
    }
    if Tail(labels, 2) in tlds {
      TailIsSuffix(n, 3);
      SuffixIsLower(n, Tail(labels, 3));
    } else {
      TailIsSuffix(n, 2);
      SuffixIsLower(n, Tail(labels, 2));
    }
  }

  /** It has two labels, or three below a two-part top-level domain, when there are that many. */
  lemma RegistrableLabels(domain: string, tlds: set<string>)
    requires |Split(NormalizeDomain(domain), '.')| > 2
    ensures var r := Registrable(domain, tlds);
      if |Split(r, '.')| == 3 then Tail(Split(r, '.'), 2) in tlds else |Split(r, '.')| == 2 && r !in tlds
  {
    var n := NormalizeDomain(domain);
    var labels := Split(n, '.');
    TailIsSuffix(n, 2);
    TailIsSuffix(n, 3);
    assert labels[|labels| - 3..][1..] == labels[|labels| - 2..];
  }

  lemma RegistrableFixed(r: string, tlds: set<string>)
    requires NormalizeDomain(r) == r
    requires |Split(r, '.')| <= 2 || (|Split(r, '.')| == 3 && Tail(Split(r, '.'), 2) in tlds)
    ensures Registrable(r, tlds) == r
  {
    if |Split(r, '.')| == 3 {
      assert Split(r, '.')[0..] == Split(r, '.');
      JoinSplit(r, '.');
    }
  }

  lemma FixedIffCleanEnds(domain: string, tlds: set<string>)
    ensures var r := Registrable(domain, tlds);
      Registrable(r, tlds) == r <==> CleanEnds(r)
  {
    var r := Registrable(domain, tlds);
    RegistrableIsSuffix(domain, tlds);
    NormalIffCleanEnds(r);
    if CleanEnds(r) {
      if |Split(NormalizeDomain(domain), '.')| > 2 {
        RegistrableLabels(domain, tlds);
      }
      RegistrableFixed(r, tlds);
    } else {
      RegistrableIsSuffix(r, tlds);
    }
  }

  /** A name that ends in a dot with another dot or white space before it. */
  predicate EndsBadly(name: string) {
    |name| >= 2 && name[|name| - 1] == '.' && (name[|name| - 2] == '.' || IsSpace(name[|name| - 2]))
  }

  /** How many labels are kept of a name that has more than two. */
  function Kept(labels: seq<string>, tlds: set<string>): nat
    requires |labels| > 2
  {
    if Tail(labels, 2) in tlds then 3 else 2
  }

  /** White space opens the first label that is kept, and a label that is dropped stands before it. */
  predicate CutsBeforeSpace(labels: seq<string>, tlds: set<string>) {
    |labels| > 2 &&
    var first := labels[|labels| - Kept(labels, tlds)];
    first != "" && IsSpace(first[0])
  }

  lemma LowerKeepsSpace(c: char)
    ensures IsSpace(LowerChar(c)) <==> IsSpace(c)
    ensures LowerChar(c) == '.' <==> c == '.'
  {
  }

  /** The end of the normalised name, from the name as typed. */
  lemma NormalEnds(domain: string)
    ensures var t, n := Trim(domain), NormalizeDomain(domain);
      && (n != "" ==> t != "" && !IsSpace(n[0]))
      && (EndsBadly(t) <==> n != "" && (n[|n| - 1] == '.' || IsSpace(n[|n| - 1])))
  {
    var t, n := Trim(domain), NormalizeDomain(domain);
    var pre, post := TrimCuts(domain);
    if n != "" {
      LowerKeepsSpace(t[0]);
      LowerKeepsSpace(t[|n| - 1]);
      assert n[0] == LowerChar(t[0]) && n[|n| - 1] == LowerChar(t[|n| - 1]);
    }
  }

  lemma JoinStarts(parts: seq<string>)
    requires |parts| >= 2
    ensures var j := Join(parts, '.'); j != "" && j[0] == if parts[0] != "" then parts[0][0] else '.'
  {
  }

  /** The end of the registrable domain, from the labels it is cut from. */
  lemma RegistrableEnds(domain: string, tlds: set<string>)
    ensures var n, r := NormalizeDomain(domain), Registrable(domain, tlds);
      (r == "" <==> n == "") && (n != "" ==> r[|r| - 1] == n[|n| - 1])
  {
    RegistrableIsSuffix(domain, tlds);
    var labels := Split(NormalizeDomain(domain), '.');
    if |labels| > 2 {
      JoinStarts(labels[|labels| - Kept(labels, tlds)..]);
    }
  }

  /** And its start. */
  lemma RegistrableStarts(domain: string, tlds: set<string>)
    requires NormalizeDomain(domain) != "" && Registrable(domain, tlds) != ""
    ensures IsSpace(Registrable(domain, tlds)[0]) <==> CutsBeforeSpace(Split(NormalizeDomain(domain), '.'), tlds)
  {
    var labels := Split(NormalizeDomain(domain), '.');
    NormalEnds(domain);
    if |labels| > 2 {
      JoinStarts(labels[|labels| - Kept(labels, tlds)..]);
    }
  }

  /** A second application changes nothing exactly when the trimmed name does not end in a dot after another
      dot or white space, and is not cut just before white space. */
  lemma RegistrableIdempotentIff(domain: string, tlds: set<string>)
    ensures var r := Registrable(domain, tlds);
      Registrable(r, tlds) == r <==>
        !EndsBadly(Trim(domain)) && !CutsBeforeSpace(Split(NormalizeDomain(domain), '.'), tlds)
  {
    FixedIffCleanEnds(domain, tlds);
    RegistrableEnds(domain, tlds);
    NormalEnds(domain);
    if NormalizeDomain(domain) == "" {
      SplitWithoutSep("", '.');
    } else {
      RegistrableStarts(domain, tlds);
    }
  }

  predicate HasNoSpace(s: string) {
    forall i :: 0 <= i < |s| ==> !IsSpace(s[i])
  }

  lemma PartsHaveNoSpace(n: string, tlds: set<string>)
    requires HasNoSpace(n)
    ensures !CutsBeforeSpace(Split(n, '.'), tlds)
  {
    var labels := Split(n, '.');
    if |labels| > 2 {
      var k := Kept(labels, tlds);
      JoinStarts(labels[|labels| - k..]);
      TailIsSuffix(n, k);
      var t := Tail(labels, k);
      assert t[0] == n[|n| - |t|];
    }
  }

  /** Without white space inside the name, only two dots at the end make a difference. */
  lemma IdempotentUnlessDoubleDot(domain: string)
    requires HasNoSpace(Trim(domain))
    ensures var t, r := Trim(domain), GetRegistrableDomain(domain);
      GetRegistrableDomain(r) == r <==> !(|t| >= 2 && t[|t| - 2..] == "..")
  {
    var t, n := Trim(domain), NormalizeDomain(domain);
    forall i | 0 <= i < |n| ensures !IsSpace(n[i]) {
      LowerKeepsSpace(t[i]);
      assert n[i] == LowerChar(t[i]);
    }
    PartsHaveNoSpace(n, KNOWN_TWO_PART_TLDS);
    RegistrableIdempotentIff(domain, KNOWN_TWO_PART_TLDS);
  }

  /** Two trailing dots survive one application. */
  lemma NotIdempotentOnDoubleDot()
    ensures GetRegistrableDomain("a..") == "a." && GetRegistrableDomain("a.") == "a"
  {
    assert Trim("a..") == "a.." && Trim("a.") == "a.";
    assert ToLower("a..") == "a.." && ToLower("a.") == "a.";
    assert "a.."[..2] == "a." && "a."[..1] == "a";
    SplitWithoutSep("a", '.');
    SplitWithoutSep("", '.');
    SplitAtSep("a", "", '.');
    assert "a" + "." + "" == "a.";
  }

  /** The last labels of a subdomain are the last labels of the domain above it. */
  lemma LastLabelsShared(sub: string, host: string, n: nat)
    requires n <= |Split(host, '.')|
    ensures |Split(sub + "." + host, '.')| > |Split(host, '.')|
    ensures Tail(Split(sub + "." + host, '.'), n) == Tail(Split(host, '.'), n)
  {
    var inner := Split(host, '.');
    SplitAtSep(sub, host, '.');
    assert (Split(sub, '.') + inner)[|Split(sub, '.')| + |inner| - n..] == inner[|inner| - n..];
  }

  lemma StableBelow(sub: string, host: string, tlds: set<string>)
    requires NormalizeDomain(host) == host
    requires NormalizeDomain(sub + "." + host) == sub + "." + host
    requires |Split(host, '.')| >= 2 && !(|Split(host, '.')| == 2 && host in tlds)
    ensures Registrable(sub + "." + host, tlds) == Registrable(host, tlds)
  {
    var inner := Split(host, '.');
    LastLabelsShared(sub, host, 2);
    if |inner| >= 3 {
      LastLabelsShared(sub, host, 3);
    } else {
      JoinSplit(host, '.');
      assert inner[0..] == inner;
    }
  }

  lemma UnstableBelow(sub: string, host: string, tlds: set<string>)
    requires NormalizeDomain(host) == host
    requires NormalizeDomain(sub + "." + host) == sub + "." + host
    requires |Split(host, '.')| == 1 || (|Split(host, '.')| == 2 && host in tlds)
    ensures |Split(Registrable(sub + "." + host, tlds), '.')| > |Split(host, '.')|
  {
    var full := sub + "." + host;
    var inner := Split(host, '.');
    var labels := Split(full, '.');
    SplitAtSep(sub, host, '.');
    if |labels| > 2 {
      TailIsSuffix(full, 2);
      TailIsSuffix(full, 3);
    }
    if |inner| == 2 {
      assert labels[|labels| - 2..] == inner;
      JoinSplit(host, '.');
    }
  }

  /** Every subdomain of `host` shares its registrable domain exactly when `host` itself has two labels
      or more and is not a two-part top-level domain. */
  lemma SubdomainStableIff(sub: string, host: string, tlds: set<string>)
    requires NormalizeDomain(host) == host
    requires NormalizeDomain(sub + "." + host) == sub + "." + host
    ensures Registrable(sub + "." + host, tlds) == Registrable(host, tlds)
      <==> |Split(host, '.')| >= 2 && !(|Split(host, '.')| == 2 && host in tlds)
  {
    if |Split(host, '.')| >= 2 && !(|Split(host, '.')| == 2 && host in tlds) {
      StableBelow(sub, host, tlds);
    } else {
      UnstableBelow(sub, host, tlds);
    }
  }
}
