/** The disposable-domain blocklist: the file the refresh job prints, the loader that reads it back,
    and the lookup. */
module Blocklist {
  import opened Strings
  import opened Domain

  const LOCAL_ADDITIONS: seq<string> := [
    "mailsac.com", "mailsac.org", "maildrop.cc", "tempmail.com", "tempmail.net", "temp-mail.io"]

  /** A line as both sides read it. */
  function Entry(line: string): string {
    ToLower(Trim(line))
  }

  predicate IsEntry(e: string) {
    e != "" && e[0] != '#'
  }

  predicate IsWildcard(e: string) {
    |e| >= 2 && e[..2] == "*."
  }

  /** Every entry of a text. */
  function Entries(text: string): set<string> {
    set line | line in Split(text, '\n') && IsEntry(Entry(line)) :: Entry(line)
  }

  function Merged(upstream: string): set<string> {
    Entries(upstream) + set e | e in LOCAL_ADDITIONS
  }

  // ---- Entries are stable ----

  lemma EntryIsStable(line: string)
    ensures Entry(Entry(line)) == Entry(line)
    ensures '\n' !in line ==> '\n' !in Entry(line)
  {
    var t := Trim(line);
    var pre, post := TrimCuts(line);
    LowerIsIdempotent(t);
    assert forall c :: IsSpace(LowerChar(c)) == IsSpace(c);
    TrimIsIdentity(ToLower(t));
    if '\n' in Entry(line) {
      var i :| 0 <= i < |t| && ToLower(t)[i] == '\n';
      assert t[i] == '\n';
      assert line[|pre| + i] == '\n';
    }
  }

  lemma StableWhenClean(e: string)
    requires IsLower(e) && Trimmed(e)
    ensures Entry(e) == e
  {
    TrimIsIdentity(e);
  }

  predicate PlainDomain(e: string) {
    e != "" && forall i :: 0 <= i < |e| ==> 'a' <= e[i] <= 'z' || e[i] in ".-"
  }

  lemma PlainIsStable(e: string)
    requires PlainDomain(e)
    ensures IsEntry(e) && Entry(e) == e && '\n' !in e
  {
    assert ToLower(e) == e;
    StableWhenClean(e);
  }

  lemma LocalAdditionsArePlain()
    ensures forall e :: e in LOCAL_ADDITIONS ==> PlainDomain(e)
  {
    forall e | e in LOCAL_ADDITIONS ensures PlainDomain(e) {
      assert e in ["mailsac.com", "mailsac.org", "maildrop.cc"] ||
             e in ["tempmail.com", "tempmail.net", "temp-mail.io"];
    }
  }

  lemma EntriesAreStable(text: string, e: string)
    requires e in Entries(text)
    ensures IsEntry(e) && Entry(e) == e && '\n' !in e
  {
    var line :| line in Split(text, '\n') && IsEntry(Entry(line)) && Entry(line) == e;
    SplitPartsLackSep(text, '\n');
    EntryIsStable(line);
  }

  lemma MergedAreStable(upstream: string, e: string)
    requires e in Merged(upstream)
    ensures IsEntry(e) && Entry(e) == e && '\n' !in e
  {
    if e in Entries(upstream) {
      EntriesAreStable(upstream, e);
    } else {
      LocalAdditionsArePlain();
      PlainIsStable(e);
    }
  }

  // ---- The printer ----

  /** Dictionary order, as `sort` compares strings. */
  predicate Less(a: string, b: string) {
    b != "" && (a == "" || a[0] < b[0] || (a[0] == b[0] && Less(a[1..], b[1..])))
  }

  lemma {:induction false} LessIsTotal(a: string, b: string)
    ensures a == b || Less(a, b) || Less(b, a)
  {
    if a != "" && b != "" && a[0] == b[0] {
      LessIsTotal(a[1..], b[1..]);
      assert a == [a[0]] + a[1..] && b == [b[0]] + b[1..];
    }
  }

  lemma {:induction false} LessIsTransitive(a: string, b: string, c: string)
    requires Less(a, b) && Less(b, c)
    ensures Less(a, c)
  {
    if a != "" && a[0] == b[0] == c[0] {
      LessIsTransitive(a[1..], b[1..], c[1..]);
    }
  }

  predicate Ascending(s: seq<string>) {
    forall i, j :: 0 <= i < j < |s| ==> Less(s[i], s[j])
  }

  /** Adds an element to an ascending list, unless it is there already. */
  function InsertSorted(e: string, s: seq<string>): seq<string> {
    if s == [] || Less(e, s[0]) then [e] + s
    else if e == s[0] then s
    else [s[0]] + InsertSorted(e, s[1..])
  }

  /** `[...new Set(items)].sort()`. */
  function SortedDistinct(items: seq<string>): seq<string> {
    if items == [] then [] else InsertSorted(items[0], SortedDistinct(items[1..]))
  }

  lemma {:induction false} InsertSortedInserts(e: string, s: seq<string>)
    requires Ascending(s)
    ensures Ascending(InsertSorted(e, s))
    ensures forall x :: x in InsertSorted(e, s) <==> x == e || x in s
  {
    if s == [] {
    } else if Less(e, s[0]) {
      forall i | 0 < i < |s| ensures Less(e, s[i]) {
        LessIsTransitive(e, s[0], s[i]);
      }
    } else if e != s[0] {
      LessIsTotal(e, s[0]);
      var r := InsertSorted(e, s[1..]);
      InsertSortedInserts(e, s[1..]);
      forall i | 0 <= i < |r| ensures Less(s[0], r[i]) {
        assert r[i] in r;
        if r[i] != e {
          var k :| 0 <= k < |s[1..]| && s[1..][k] == r[i];
          assert s[k + 1] == r[i];
        }
      }
      assert forall x :: x in s <==> x == s[0] || x in s[1..];
    }
  }

  /** The printed list: each element once, in order. */
  lemma {:induction false} SortedDistinctSorts(items: seq<string>)
    ensures Ascending(SortedDistinct(items))
    ensures forall x :: x in SortedDistinct(items) <==> x in items
  {
    if items == [] {
    } else {
      SortedDistinctSorts(items[1..]);
      InsertSortedInserts(items[0], SortedDistinct(items[1..]));
      assert forall x :: x in items <==> x == items[0] || x in items[1..];
    }
  }

  /** `split('\n').map(...).filter(...)` over the fetched text. */
  function UpstreamDomains(lines: seq<string>): seq<string> {
    if lines == [] then []
    else (if IsEntry(Entry(lines[0])) then [Entry(lines[0])] else []) + UpstreamDomains(lines[1..])
  }

  lemma {:induction false} UpstreamDomainsAreEntries(lines: seq<string>)
    ensures forall x :: x in UpstreamDomains(lines) <==> exists l :: l in lines && IsEntry(Entry(l)) && Entry(l) == x
  {
    if lines == [] {
    } else {
      UpstreamDomainsAreEntries(lines[1..]);
      forall x
        ensures x in UpstreamDomains(lines) <==> exists l :: l in lines && IsEntry(Entry(l)) && Entry(l) == x
      {
        if exists l :: l in lines && IsEntry(Entry(l)) && Entry(l) == x {
          var l :| l in lines && IsEntry(Entry(l)) && Entry(l) == x;
          assert l == lines[0] || l in lines[1..];
        }
      }
    }
  }

  const TITLE_LINE: string := "# Continuum \U{2014} " + "disposable email " + "domain blocklist"
  const FORMAT_LINE: string := "# Format: " + "one domain per line, " + "lowercase"
  const SOURCE_LINE: string :=
    "# Source: https://github.com/" + "disposable-email-domains/" + "disposable-email-domains"

  function Header(stamp: string): seq<string> {
    [TITLE_LINE, FORMAT_LINE, "# Updated: " + stamp, SOURCE_LINE]
  }

  function Sorted(upstream: string): seq<string> {
    SortedDistinct(UpstreamDomains(Split(upstream, '\n')) + LOCAL_ADDITIONS)
  }

  /** The text `refreshDisposableList` writes; `stamp` is the time of the refresh. */
  function FileContent(upstream: string, stamp: string): string {
    Join(Header(stamp) + [""], '\n') + Join(Sorted(upstream), '\n') + "\n"
  }

  lemma SortedIsMerged(upstream: string)
    ensures Ascending(Sorted(upstream)) && Sorted(upstream) != []
    ensures forall x :: x in Sorted(upstream) <==> x in Merged(upstream)
  {
    var domains := UpstreamDomains(Split(upstream, '\n'));
    SortedDistinctSorts(domains + LOCAL_ADDITIONS);
    UpstreamDomainsAreEntries(Split(upstream, '\n'));
    assert LOCAL_ADDITIONS[0] in domains + LOCAL_ADDITIONS;
  }

  // ---- The reader ----

  datatype Option<T> = None | Some(value: T)

  function ExactOf(entries: set<string>): set<string> {
    set e | e in entries && !IsWildcard(e)
  }

  /** Wildcards are kept without their "*.". */
  function WildcardsOf(entries: set<string>): set<string> {
    set e | e in entries && IsWildcard(e) :: e[2..]
  }

  /** Entries among the first lines of a file. */
  function EntriesOfLines(lines: seq<string>): set<string> {
    set line | line in lines && IsEntry(Entry(line)) :: Entry(line)
  }

  lemma NextLine(lines: seq<string>, i: nat)
    requires i < |lines|
    ensures var line := Entry(lines[i]);
      && ExactOf(EntriesOfLines(lines[..i + 1]))
         == ExactOf(EntriesOfLines(lines[..i])) + (if IsEntry(line) && !IsWildcard(line) then {line} else {})
      && WildcardsOf(EntriesOfLines(lines[..i + 1]))
         == WildcardsOf(EntriesOfLines(lines[..i])) + (if IsEntry(line) && IsWildcard(line) then {line[2..]} else {})
  {
    var line := Entry(lines[i]);
    assert lines[..i + 1] == lines[..i] + [lines[i]];
    assert EntriesOfLines(lines[..i + 1])
        == EntriesOfLines(lines[..i]) + if IsEntry(line) then {line} else {};
  }

  /** The loader's module state. */
  class Loader {
    var exact: set<string>
    var wildcard: set<string>
    var loadAttempted: bool

    constructor ()
      ensures !loadAttempted && exact == {} && wildcard == {}
    {
      exact, wildcard, loadAttempted := {}, {}, false;
    }

    /** `readBlocklistFromDisk`; a missing or unreadable file empties both sets. */
    method Read(file: Option<string>)
      modifies this`exact, this`wildcard
      ensures var entries := if file.Some? then Entries(file.value) else {};
        exact == ExactOf(entries) && wildcard == WildcardsOf(entries)
    {
      if file.None? {
        exact, wildcard := {}, {};
        return;
      }
      var lines := Split(file.value, '\n');
      var ex: set<string>, wild: set<string> := {}, {};
      for i := 0 to |lines|
        invariant ex == ExactOf(EntriesOfLines(lines[..i]))
        invariant wild == WildcardsOf(EntriesOfLines(lines[..i]))
      {
        var line := Entry(lines[i]);
        NextLine(lines, i);
        if !IsEntry(line) {
          continue;
        }
        if IsWildcard(line) {
          wild := wild + {line[2..]};
        } else {
          ex := ex + {line};
        }
      }
      assert lines[..|lines|] == lines;
      exact, wildcard := ex, wild;
    }

    /** `loadDisposableList`: only the first call reads the file. */
    method Load(file: Option<string>)
      modifies this
      ensures loadAttempted
      ensures old(loadAttempted) ==> exact == old(exact) && wildcard == old(wildcard)
      ensures !old(loadAttempted) ==>
        var entries := if file.Some? then Entries(file.value) else {};
        exact == ExactOf(entries) && wildcard == WildcardsOf(entries)
    {
      if !loadAttempted {
        loadAttempted := true;
        Read(file);
      }
    }

    /** `isDisposableDomain` on the loaded sets. */
    method IsDisposable(domain: string) returns (b: bool)
      ensures b <==> exact != {} && Listed(domain, exact, wildcard, KNOWN_TWO_PART_TLDS)
    {
      if exact == {} {
        return false;
      }
      b := Lookup(domain, exact, wildcard, KNOWN_TWO_PART_TLDS);
    }
  }

  method Lookup(domain: string, exact: set<string>, wildcard: set<string>, tlds: set<string>) returns (b: bool)
    ensures b <==> Listed(domain, exact, wildcard, tlds)
  {
    var normalized := NormalizeDomain(domain);
    var registrable := Registrable(normalized, tlds);
    if normalized in exact {
      return true;
    }
    if registrable != normalized && registrable in exact {
      return true;
    }
    if |wildcard| > 0 {
      var labels := Split(normalized, '.');
      for i := 1 to |labels|
        invariant forall j :: 1 <= j < i ==> Join(labels[j..], '.') !in wildcard
      {
        if Join(labels[i..], '.') in wildcard {
          SuffixIsParent(normalized, i);
          return true;
        }
      }
      NoSuffixNoWildcard(normalized, wildcard);
    }
    return false;
  }

  /** What the list says of a domain: it, its registrable domain, or a parent under a wildcard is listed. */
  ghost predicate Listed(domain: string, exact: set<string>, wildcard: set<string>, tlds: set<string>) {
    var n := NormalizeDomain(domain);
    n in exact || Registrable(n, tlds) in exact || UnderWildcard(n, wildcard)
  }

  ghost predicate UnderWildcard(n: string, wildcard: set<string>) {
    exists w, sub :: w in wildcard && n == sub + "." + w
  }

  lemma SuffixIsParent(n: string, i: nat)
    requires 1 <= i < |Split(n, '.')|
    ensures var labels := Split(n, '.');
      n == Join(labels[..i], '.') + "." + Join(labels[i..], '.')
  {
    var labels := Split(n, '.');
    JoinSplit(n, '.');
    assert labels == labels[..i] + labels[i..];
    JoinConcat(labels[..i], labels[i..], '.');
  }

  lemma ParentIsSuffix(sub: string, w: string) returns (k: nat)
    ensures var labels := Split(sub + "." + w, '.');
      1 <= k < |labels| && Join(labels[k..], '.') == w
  {
    k := |Split(sub, '.')|;
    SplitAtSep(sub, w, '.');
    JoinSplit(w, '.');
    assert (Split(sub, '.') + Split(w, '.'))[k..] == Split(w, '.');
  }

  lemma NoSuffixNoWildcard(n: string, wildcard: set<string>)
    requires forall j :: 1 <= j < |Split(n, '.')| ==> Join(Split(n, '.')[j..], '.') !in wildcard
    ensures !UnderWildcard(n, wildcard)
  {
    if UnderWildcard(n, wildcard) {
      var w, sub :| w in wildcard && n == sub + "." + w;
      var k := ParentIsSuffix(sub, w);
    }
  }

  // ---- Writing, then reading ----

  lemma HashLineIsComment(line: string)
    requires line != "" && line[0] == '#'
    ensures !IsEntry(Entry(line))
  {
    var pre, post := TrimCuts(line);
    assert line == Trim(line) + post;
    assert !IsSpace('#');
  }

  predicate IsCommentLine(l: string) {
    l != "" && l[0] == '#' && '\n' !in l
  }

  lemma CommentFromParts(a: string, b: string, c: string)
    requires IsCommentLine(a) && '\n' !in b && '\n' !in c
    ensures IsCommentLine(a + b + c)
  {
  }

  lemma TitleIsComment()
    ensures IsCommentLine(TITLE_LINE)
  {
    CommentFromParts("# Continuum \U{2014} ", "disposable email ", "domain blocklist");
  }

  lemma FormatIsComment()
    ensures IsCommentLine(FORMAT_LINE)
  {
    CommentFromParts("# Format: ", "one domain per line, ", "lowercase");
  }

  lemma SourceIsComment()
    ensures IsCommentLine(SOURCE_LINE)
  {
    CommentFromParts("# Source: https://github.com/", "disposable-email-domains/", "disposable-email-domains");
  }

  lemma HeaderLines(stamp: string)
    requires '\n' !in stamp
    ensures forall l :: l in Header(stamp) ==> '\n' !in l && !IsEntry(Entry(l))
  {
    TitleIsComment();
    FormatIsComment();
    SourceIsComment();
    assert IsCommentLine("# Updated: " + stamp);
    forall l | l in Header(stamp) ensures '\n' !in l && !IsEntry(Entry(l)) {
      assert IsCommentLine(l);
      HashLineIsComment(l);
    }
  }

  lemma NoLineBreaks(upstream: string, stamp: string)
    requires '\n' !in stamp
    ensures forall l :: l in Header(stamp) + Sorted(upstream) + [""] ==> '\n' !in l
  {
    HeaderLines(stamp);
    SortedIsMerged(upstream);
    forall l | l in Header(stamp) + Sorted(upstream) + [""] ensures '\n' !in l {
      if l in Sorted(upstream) {
        MergedAreStable(upstream, l);
      }
    }
  }

  /** An empty last line prints as a line break. */
  lemma JoinThenBreak(lines: seq<string>)
    requires |lines| >= 1
    ensures Join(lines + [""], '\n') == Join(lines, '\n') + "\n"
  {
    JoinConcat(lines, [""], '\n');
    assert Join(lines, '\n') + "\n" + "" == Join(lines, '\n') + "\n";
  }

  /** Three blocks of lines, the last one empty, printed one after the other. */
  lemma JoinBlocks(h: seq<string>, s: seq<string>)
    requires |h| >= 1 && |s| >= 1
    ensures Join(h + [""], '\n') + Join(s, '\n') + "\n" == Join(h + s + [""], '\n')
  {
    JoinThenBreak(h);
    JoinThenBreak(h + s);
    JoinConcat(h, s, '\n');
  }

  lemma FileLines(upstream: string, stamp: string)
    requires '\n' !in stamp
    ensures Split(FileContent(upstream, stamp), '\n') == Header(stamp) + Sorted(upstream) + [""]
  {
    SortedIsMerged(upstream);
    NoLineBreaks(upstream, stamp);
    JoinBlocks(Header(stamp), Sorted(upstream));
    SplitJoin(Header(stamp) + Sorted(upstream) + [""], '\n');
  }

  /** Reading the printed file back gives exactly the merged entries: nothing lost, nothing added. */
  lemma ReadBack(upstream: string, stamp: string)
    requires '\n' !in stamp
    ensures Entries(FileContent(upstream, stamp)) == Merged(upstream)
  {
    var lines := Split(FileContent(upstream, stamp), '\n');
    FileLines(upstream, stamp);
    SortedIsMerged(upstream);
    HeaderLines(stamp);
    assert Entry("") == "";
    forall e | e in Merged(upstream) ensures e in Entries(FileContent(upstream, stamp)) {
      MergedAreStable(upstream, e);
      assert e in lines;
    }
    forall e | e in Entries(FileContent(upstream, stamp)) ensures e in Merged(upstream) {
      var line :| line in lines && IsEntry(Entry(line)) && Entry(line) == e;
      assert line in Sorted(upstream);
      MergedAreStable(upstream, line);
    }
  }

  /** The refresh job followed by a reload. */
  method RefreshAndReload(loader: Loader, upstream: string, stamp: string)
    requires '\n' !in stamp
    modifies loader
    ensures loader.exact == ExactOf(Merged(upstream)) && loader.wildcard == WildcardsOf(Merged(upstream))
  {
    ReadBack(upstream, stamp);
    loader.Read(Some(FileContent(upstream, stamp)));
  }

  /** The merged list always holds an exact entry. */
  lemma SomeEntryIsExact(upstream: string)
    ensures ExactOf(Merged(upstream)) != {}
  {
    var e := LOCAL_ADDITIONS[0];
    assert e == "mailsac.com" && e[..2][0] == 'm';
    assert e in LOCAL_ADDITIONS;
    assert e in ExactOf(Merged(upstream));
  }

  /** From the fetched text to the answer: after a refresh and reload a domain is disposable exactly when the
      merged list says so; the early exit is out of the way. */
  method DisposableAfterRefresh(loader: Loader, upstream: string, stamp: string, domain: string) returns (b: bool)
    requires '\n' !in stamp
    modifies loader
    ensures b <==>
      Listed(domain, ExactOf(Merged(upstream)), WildcardsOf(Merged(upstream)), KNOWN_TWO_PART_TLDS)
  {
    SomeEntryIsExact(upstream);
    RefreshAndReload(loader, upstream, stamp);
    b := loader.IsDisposable(domain);
  }

  /** Every entry of the merged list is in lower case, with no white space around it. */
  lemma MergedIsLower(upstream: string, e: string)
    requires e in Merged(upstream)
    ensures e != "" && !IsSpace(e[0]) && !IsSpace(e[|e| - 1])
    ensures forall i :: 0 <= i < |e| ==> !('A' <= e[i] <= 'Z')
  {
    MergedAreStable(upstream, e);
    StableIsTrimmedLower(e);
  }

  lemma LowerHasNoCapitals(e: string)
    requires ToLower(e) == e
    ensures forall i :: 0 <= i < |e| ==> !('A' <= e[i] <= 'Z')
  {
    forall i | 0 <= i < |e| ensures !('A' <= e[i] <= 'Z') {
      assert ToLower(e)[i] == LowerChar(e[i]);
    }
  }

  lemma StableIsTrimmedLower(e: string)
    requires Entry(e) == e
    ensures Trimmed(e) && forall i :: 0 <= i < |e| ==> !('A' <= e[i] <= 'Z')
  {
    var pre, post := TrimCuts(e);
    SameLength(e, pre, Trim(e), post);
    LowerHasNoCapitals(e);
  }

  lemma SameLength(whole: string, pre: string, middle: string, post: string)
    requires whole == pre + middle + post && |middle| == |whole|
    ensures middle == whole
  {
  }

  /** Whatever the case it is listed in, and whatever white space and line ends surround it, a domain that a line
      of the fetched text lists is disposable after a refresh and reload, in any case it is asked for. */
  method ListedIsDisposable(loader: Loader, upstream: string, stamp: string, pre: string, listed: string,
                            post: string, domain: string) returns (b: bool)
    requires '\n' !in stamp && pre + listed + post in Split(upstream, '\n') && AllSpace(pre) && AllSpace(post)
    requires listed != "" && !IsSpace(listed[0]) && !IsSpace(listed[|listed| - 1])
    requires listed[0] != '#' && listed[0] != '*' && listed[|listed| - 1] != '.'
    requires ToLower(domain) == ToLower(listed)
    modifies loader
    ensures b
  {
    ListedIsMerged(upstream, pre, listed, post);
    NormalOf(listed, domain);
    b := DisposableAfterRefresh(loader, upstream, stamp, domain);
  }

  /** And a line that lists `*.` before a domain makes every name below that domain disposable. */
  method WildcardIsDisposable(loader: Loader, upstream: string, stamp: string, pre: string, listed: string,
                              post: string, sub: string, domain: string) returns (b: bool)
    requires '\n' !in stamp && pre + "*." + listed + post in Split(upstream, '\n') && AllSpace(pre) && AllSpace(post)
    requires listed != "" && !IsSpace(listed[|listed| - 1]) && listed[|listed| - 1] != '.'
    requires (sub != "" ==> !IsSpace(sub[0])) && ToLower(domain) == ToLower(sub + "." + listed)
    modifies loader
    ensures b
  {
    WildcardCovers(upstream, pre, listed, post, sub, domain);
    b := DisposableAfterRefresh(loader, upstream, stamp, domain);
  }

  lemma LowerConcat(a: string, b: string)
    ensures ToLower(a + b) == ToLower(a) + ToLower(b)
  {
  }

  lemma LineIsMerged(upstream: string, pre: string, listed: string, post: string)
    requires pre + listed + post in Split(upstream, '\n') && AllSpace(pre) && AllSpace(post)
    requires Trimmed(listed) && IsEntry(ToLower(listed))
    ensures ToLower(listed) in Merged(upstream)
  {
    TrimPadded(pre, listed, post);
    assert Entry(pre + listed + post) == ToLower(listed);
  }

  lemma FallsUnder(n: string, sub: string, w: string, wildcard: set<string>)
    requires w in wildcard && n == sub + "." + w
    ensures UnderWildcard(n, wildcard)
  {
  }

  lemma WildcardCovers(upstream: string, pre: string, listed: string, post: string, sub: string, domain: string)
    requires pre + "*." + listed + post in Split(upstream, '\n') && AllSpace(pre) && AllSpace(post)
    requires listed != "" && !IsSpace(listed[|listed| - 1]) && listed[|listed| - 1] != '.'
    requires (sub != "" ==> !IsSpace(sub[0])) && ToLower(domain) == ToLower(sub + "." + listed)
    ensures UnderWildcard(NormalizeDomain(domain), WildcardsOf(Merged(upstream)))
  {
    var name, w := sub + "." + listed, ToLower(listed);
    WildcardIsMerged(upstream, pre, listed, post);
    assert name[|name| - 1] == listed[|listed| - 1] && name[0] == if sub == "" then '.' else sub[0];
    NormalOf(name, domain);
    LowerConcat(sub + ".", listed);
    LowerConcat(sub, ".");
    assert ToLower(".") == ".";
    FallsUnder(NormalizeDomain(domain), ToLower(sub), w, WildcardsOf(Merged(upstream)));
  }

  lemma WildcardIsMerged(upstream: string, pre: string, listed: string, post: string)
    requires pre + "*." + listed + post in Split(upstream, '\n') && AllSpace(pre) && AllSpace(post)
    requires listed != "" && !IsSpace(listed[|listed| - 1])
    ensures ToLower(listed) in WildcardsOf(Merged(upstream))
  {
    var entry, w := "*." + listed, ToLower(listed);
    assert pre + entry + post == pre + "*." + listed + post;
    LowerConcat("*.", listed);
    assert ToLower("*.") == "*.";
    assert ToLower(entry) == "*." + w;
    assert entry[|entry| - 1] == listed[|listed| - 1];
    LineIsMerged(upstream, pre, entry, post);
    assert ToLower(entry)[2..] == w;
  }

  lemma ListedIsMerged(upstream: string, pre: string, listed: string, post: string)
    requires pre + listed + post in Split(upstream, '\n') && AllSpace(pre) && AllSpace(post)
    requires Trimmed(listed) && listed != "" && listed[0] != '#' && listed[0] != '*'
    ensures ToLower(listed) in ExactOf(Merged(upstream))
  {
    var e := ToLower(listed);
    assert e[0] == LowerChar(listed[0]);
    LineIsMerged(upstream, pre, listed, post);
    if |e| >= 2 {
      assert e[..2][0] != '*';
    }
  }

  lemma NormalOf(listed: string, domain: string)
    requires Trimmed(listed) && listed != "" && listed[|listed| - 1] != '.' && ToLower(domain) == ToLower(listed)
    ensures NormalizeDomain(domain) == ToLower(listed)
  {
    assert |domain| == |listed| && forall i :: 0 <= i < |domain| ==> LowerChar(domain[i]) == LowerChar(listed[i]) by {
      assert forall i :: 0 <= i < |domain| ==> ToLower(domain)[i] == ToLower(listed)[i];
    }
    assert forall c :: IsSpace(LowerChar(c)) == IsSpace(c);
    assert IsSpace(domain[0]) == IsSpace(LowerChar(domain[0])) == IsSpace(listed[0]);
    assert Trimmed(domain);
    TrimIsIdentity(domain);
  }

  // ---- What listing a domain does ----

  /** A listed registrable domain of two labels or more, not itself a two-part top-level domain, takes
      every subdomain with it. */
  lemma ListingCoversSubdomains(sub: string, host: string, exact: set<string>, wildcard: set<string>,
                                tlds: set<string>)
    requires host in exact && Registrable(host, tlds) == host
    requires NormalizeDomain(host) == host
    requires NormalizeDomain(sub + "." + host) == sub + "." + host
    requires |Split(host, '.')| >= 2 && !(|Split(host, '.')| == 2 && host in tlds)
    ensures Listed(host, exact, wildcard, tlds) && Listed(sub + "." + host, exact, wildcard, tlds)
  {
    SubdomainStableIff(sub, host, tlds);
  }

  /** Alone on the list, a top-level domain of one or two parts takes no subdomain with it. */
  lemma ListingATldCoversOnlyItself(sub: string, host: string, tlds: set<string>)
    requires NormalizeDomain(host) == host
    requires NormalizeDomain(sub + "." + host) == sub + "." + host
    requires |Split(host, '.')| == 1 || (|Split(host, '.')| == 2 && host in tlds)
    ensures !Listed(sub + "." + host, {host}, {}, tlds)
  {
    UnstableBelow(sub, host, tlds);
    assert |sub + "." + host| > |host|;
  }

  /** The documented order of checks is met except when only wildcards are loaded. */
  lemma WildcardsNeedAnExactEntry(domain: string, exact: set<string>, wildcard: set<string>, tlds: set<string>)
    ensures (exact != {} && Listed(domain, exact, wildcard, tlds)) == Listed(domain, exact, wildcard, tlds)
      <==> exact != {} || !UnderWildcard(NormalizeDomain(domain), wildcard)
  {
  }

  /** A list of one wildcard says yes to a subdomain, and the lookup's early exit says no. */
  lemma WildcardAloneIsMissed(tlds: set<string>)
    ensures Listed("a.b.c", {}, {"b.c"}, tlds) && UnderWildcard(NormalizeDomain("a.b.c"), {"b.c"})
  {
    var n := "a.b.c";
    TrimIsIdentity(n);
    assert ToLower(n) == n;
    assert n == "a" + "." + "b.c";
    assert "b.c" in {"b.c"};
  }
}
