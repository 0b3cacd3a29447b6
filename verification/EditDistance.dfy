/** The two-row Levenshtein distance, proved to be the length of a shortest edit script. */
module EditDistance {

  /** One edit at a position: what `levenshtein` counts. */
  datatype Edit = Insert(at: nat, c: char) | Delete(at: nat) | Substitute(at: nat, c: char)

  predicate Applies(e: Edit, s: string) {
    match e
    case Insert(at, _) => at <= |s|
    case Delete(at) => at < |s|
    case Substitute(at, _) => at < |s|
  }

  function Apply(e: Edit, s: string): string
    requires Applies(e, s)
  {
    match e
    case Insert(at, c) => s[..at] + [c] + s[at..]
    case Delete(at) => s[..at] + s[at + 1..]
    case Substitute(at, c) => s[..at] + [c] + s[at + 1..]
  }

  /** Performing the edits of `script` one after the other turns `a` into `b`. */
  predicate Transforms(script: seq<Edit>, a: string, b: string) {
    if script == [] then a == b
    else Applies(script[0], a) && Transforms(script[1..], Apply(script[0], a), b)
  }

  /** `d` is the length of a shortest script from `a` to `b`. */
  ghost predicate IsEditDistance(a: string, b: string, d: nat) {
    && (exists script :: Transforms(script, a, b) && |script| == d)
    && (forall script :: Transforms(script, a, b) ==> d <= |script|)
  }

  function Min3(x: nat, y: nat, z: nat): (m: nat)
    ensures m <= x && m <= y && m <= z && (m == x || m == y || m == z)
  {
    if x <= y && x <= z then x else if y <= z then y else z
  }

  function Init(s: string): string
    requires s != ""
  {
    s[..|s| - 1]
  }

  function Cost(x: char, y: char): nat {
    if x == y then 0 else 1
  }

  /** The recurrence the table is filled by. */
  function Dist(a: string, b: string): nat
    decreases |a| + |b|
  {
    if a == "" then |b|
    else if b == "" then |a|
    else Min3(Dist(Init(a), b) + 1, Dist(a, Init(b)) + 1,
              Dist(Init(a), Init(b)) + Cost(a[|a| - 1], b[|b| - 1]))
  }

  // ---- The recurrence is a metric ----

  lemma {:induction false} DistAtLeastLengthGap(a: string, b: string)
    ensures Dist(a, b) >= |a| - |b| && Dist(a, b) >= |b| - |a|
    decreases |a| + |b|
  {
    if a == "" || b == "" {
    } else {
      DistAtLeastLengthGap(Init(a), b);
      DistAtLeastLengthGap(a, Init(b));
      DistAtLeastLengthGap(Init(a), Init(b));
    }
  }

  lemma {:induction false} DistAtMostSum(a: string, b: string)
    ensures Dist(a, b) <= |a| + |b|
    decreases |a| + |b|
  {
    if a == "" || b == "" {
    } else {
      DistAtMostSum(Init(a), b);
    }
  }

  lemma {:induction false} Triangle(a: string, b: string, c: string)
    ensures Dist(a, c) <= Dist(a, b) + Dist(b, c)
    decreases |a| + |b| + |c|
  {
    if a == "" || c == "" {
      DistAtLeastLengthGap(a, b);
      DistAtLeastLengthGap(b, c);
    } else if b == "" {
      DistAtMostSum(a, c);
    } else {
      Triangle(Init(a), b, c);
      Triangle(a, b, Init(c));
      Triangle(a, Init(b), c);
      Triangle(a, Init(b), Init(c));
      Triangle(Init(a), Init(b), c);
      Triangle(Init(a), Init(b), Init(c));
    }
  }

  lemma {:induction false} Symmetric(a: string, b: string)
    ensures Dist(a, b) == Dist(b, a)
    decreases |a| + |b|
  {
    if a == "" || b == "" {
    } else {
      Symmetric(Init(a), b);
      Symmetric(a, Init(b));
      Symmetric(Init(a), Init(b));
    }
  }

  lemma {:induction false} ZeroIffEqual(a: string, b: string)
    ensures Dist(a, b) == 0 <==> a == b
    decreases |a| + |b|
  {
    if a == "" || b == "" {
    } else {
      ZeroIffEqual(Init(a), Init(b));
      assert a == Init(a) + [a[|a| - 1]] && b == Init(b) + [b[|b| - 1]];
    }
  }

  // ---- No script is shorter ----

  lemma {:induction false} CommonSuffix(a: string, b: string, w: string)
    ensures Dist(a + w, b + w) <= Dist(a, b)
    decreases |w|
  {
    if w == "" {
      assert a + w == a && b + w == b;
    } else {
      CommonSuffix(a, b, w[..|w| - 1]);
      assert Init(a + w) == a + w[..|w| - 1] && Init(b + w) == b + w[..|w| - 1];
    }
  }

  lemma StepBound(a: string, b: string)
    ensures a != "" ==> Dist(a, b) <= Dist(Init(a), b) + 1
    ensures b != "" ==> Dist(a, b) <= Dist(a, Init(b)) + 1
    ensures a != "" && b != "" ==> Dist(a, b) <= Dist(Init(a), Init(b)) + 1
  {
  }

  lemma DropLast(s: string, x: string)
    requires |x| == 1
    ensures Init(s + x) == s
  {
  }

  lemma LastCharacters(p: string, x: string, y: string)
    requires |x| <= 1 && |y| <= 1
    ensures Dist(p + x, p + y) <= 1
  {
    ZeroIffEqual(p, p);
    StepBound(p + x, p + y);
    if x == "" {
      assert p + x == p;
    } else {
      DropLast(p, x);
    }
    if y == "" {
      assert p + y == p;
    } else {
      DropLast(p, y);
    }
  }

  /** Strings that agree but for at most one character each, at the same place. */
  lemma OneDifference(p: string, x: string, y: string, w: string)
    requires |x| <= 1 && |y| <= 1
    ensures Dist(p + x + w, p + y + w) <= 1
  {
    LastCharacters(p, x, y);
    CommonSuffix(p + x, p + y, w);
  }

  lemma OneEditCostsOne(e: Edit, s: string)
    requires Applies(e, s)
    ensures Dist(s, Apply(e, s)) <= 1
  {
    var p := s[..e.at];
    if e.Insert? {
      OneDifference(p, "", [e.c], s[e.at..]);
      assert s == p + "" + s[e.at..];
    } else {
      var x, w := [s[e.at]], s[e.at + 1..];
      assert s == p + x + w;
      if e.Delete? {
        OneDifference(p, x, "", w);
        assert p + "" + w == p + w;
      } else {
        OneDifference(p, x, [e.c], w);
      }
    }
  }

  lemma {:induction false} NoShorterScript(script: seq<Edit>, a: string, b: string)
    requires Transforms(script, a, b)
    ensures Dist(a, b) <= |script|
  {
    if script == [] {
      ZeroIffEqual(a, b);
    } else {
      var next := Apply(script[0], a);
      OneEditCostsOne(script[0], a);
      NoShorterScript(script[1..], next, b);
      Triangle(a, next, b);
    }
  }

  // ---- Some script is that short ----

  lemma CutUnderSuffix(a: string, w: string, i: nat)
    requires i <= |a|
    ensures (a + w)[..i] == a[..i] && (a + w)[i..] == a[i..] + w
  {
  }

  lemma Regroup(x: string, y: string, z: string, w: string)
    ensures x + y + (z + w) == x + y + z + w
    ensures x + (z + w) == x + z + w
  {
  }

  lemma EditUnderSuffix(e: Edit, a: string, w: string)
    requires Applies(e, a)
    ensures Applies(e, a + w) && Apply(e, a + w) == Apply(e, a) + w
  {
    CutUnderSuffix(a, w, e.at);
    match e
    case Insert(at, c) => Regroup(a[..at], [c], a[at..], w);
    case Delete(at) =>
      CutUnderSuffix(a, w, at + 1);
      Regroup(a[..at], "", a[at + 1..], w);
    case Substitute(at, c) =>
      CutUnderSuffix(a, w, at + 1);
      Regroup(a[..at], [c], a[at + 1..], w);
  }

  /** Edits inside a prefix leave what follows it alone. */
  lemma {:induction false} ScriptUnderSuffix(script: seq<Edit>, a: string, b: string, w: string)
    requires Transforms(script, a, b)
    ensures Transforms(script, a + w, b + w)
  {
    if script == [] {
    } else {
      var e := script[0];
      ScriptUnderSuffix(script[1..], Apply(e, a), b, w);
      EditUnderSuffix(e, a, w);
    }
  }

  lemma {:induction false} ScriptThenEdit(script: seq<Edit>, a: string, b: string, e: Edit)
    requires Transforms(script, a, b) && Applies(e, b)
    ensures Transforms(script + [e], a, Apply(e, b))
  {
    if script == [] {
      assert (script + [e])[1..] == [];
    } else {
      ScriptThenEdit(script[1..], Apply(script[0], a), b, e);
      assert (script + [e])[1..] == script[1..] + [e];
    }
  }

  lemma DeleteLast(a: string)
    requires a != ""
    ensures Applies(Delete(|a| - 1), a) && Apply(Delete(|a| - 1), a) == Init(a)
  {
  }

  lemma InsertLast(b: string)
    requires b != ""
    ensures var e := Insert(|b| - 1, b[|b| - 1]);
      Applies(e, Init(b)) && Apply(e, Init(b)) == b
  {
  }

  lemma InitThenLast(s: string)
    requires s != ""
    ensures Init(s) + [s[|s| - 1]] == s
  {
  }

  /** A script between the initial parts, extended to the last characters. */
  lemma ExtendBySubstitution(rest: seq<Edit>, a: string, b: string) returns (script: seq<Edit>)
    requires a != "" && b != "" && Transforms(rest, Init(a), Init(b))
    ensures Transforms(script, a, b)
    ensures |script| == |rest| + Cost(a[|a| - 1], b[|b| - 1])
  {
    var x, y := a[|a| - 1], b[|b| - 1];
    ScriptUnderSuffix(rest, Init(a), Init(b), [x]);
    InitThenLast(a);
    InitThenLast(b);
    if x == y {
      script := rest;
    } else {
      var e := Substitute(|b| - 1, y);
      SubstituteLast(b, x);
      ScriptThenEdit(rest, a, Init(b) + [x], e);
      script := rest + [e];
    }
  }

  lemma SubstituteLast(b: string, x: char)
    requires b != ""
    ensures var e := Substitute(|b| - 1, b[|b| - 1]);
      Applies(e, Init(b) + [x]) && Apply(e, Init(b) + [x]) == b
  {
  }

  lemma {:induction false} ShortestScript(a: string, b: string) returns (script: seq<Edit>)
    ensures Transforms(script, a, b) && |script| == Dist(a, b)
    decreases |a| + |b|
  {
    if a == "" && b == "" {
      script := [];
    } else if b == "" || (a != "" && Dist(a, b) == Dist(Init(a), b) + 1) {
      DeleteLast(a);
      var rest := ShortestScript(Init(a), b);
      script := [Delete(|a| - 1)] + rest;
      assert script[1..] == rest;
    } else if a == "" || Dist(a, b) == Dist(a, Init(b)) + 1 {
      var rest := ShortestScript(a, Init(b));
      var e := Insert(|b| - 1, b[|b| - 1]);
      InsertLast(b);
      ScriptThenEdit(rest, a, Init(b), e);
      script := rest + [e];
    } else {
      var rest := ShortestScript(Init(a), Init(b));
      script := ExtendBySubstitution(rest, a, b);
    }
  }

  lemma DistIsEditDistance(a: string, b: string)
    ensures IsEditDistance(a, b, Dist(a, b))
  {
    var script := ShortestScript(a, b);
    forall s | Transforms(s, a, b) ensures Dist(a, b) <= |s| {
      NoShorterScript(s, a, b);
    }
  }

  lemma EditDistanceIsDist(a: string, b: string, d: nat)
    requires IsEditDistance(a, b, d)
    ensures d == Dist(a, b)
  {
    var script := ShortestScript(a, b);
    var s :| Transforms(s, a, b) && |s| == d;
    NoShorterScript(s, a, b);
  }

  /** Symmetry, identity of indiscernibles and the triangle inequality of the computed distance. */
  lemma EditDistanceIsAMetric(a: string, b: string, c: string, ab: nat, ba: nat, bc: nat, ac: nat)
    requires IsEditDistance(a, b, ab) && IsEditDistance(b, a, ba)
    requires IsEditDistance(b, c, bc) && IsEditDistance(a, c, ac)
    ensures ab == ba
    ensures ab == 0 <==> a == b
    ensures ac <= ab + bc
  {
    EditDistanceIsDist(a, b, ab);
    EditDistanceIsDist(b, a, ba);
    EditDistanceIsDist(b, c, bc);
    EditDistanceIsDist(a, c, ac);
    Symmetric(a, b);
    ZeroIffEqual(a, b);
    Triangle(a, b, c);
  }

  // ---- The two-row table ----

  /** Entry `j` of row `i`: the distance of two prefixes. */
  function Cell(a: string, b: string, i: nat, j: nat): nat
    requires i <= |a| && j <= |b|
  {
    Dist(a[..i], b[..j])
  }

  lemma RowStep(a: string, b: string, i: nat, j: nat)
    requires 0 < i <= |a| && 0 < j <= |b|
    ensures Cell(a, b, i, j)
         == Min3(Cell(a, b, i - 1, j) + 1, Cell(a, b, i, j - 1) + 1,
                 Cell(a, b, i - 1, j - 1) + Cost(a[i - 1], b[j - 1]))
  {
    assert Init(a[..i]) == a[..i - 1] && Init(b[..j]) == b[..j - 1];
  }

  /** One pass of the inner loop: from the row of `a[..i - 1]` to the row of `a[..i]`. */
  method FillRow(a: string, b: string, i: nat, prev: array<nat>, curr: array<nat>)
    requires 0 < i <= |a| && prev != curr
    requires prev.Length == curr.Length == |b| + 1
    requires forall j :: 0 <= j <= |b| ==> prev[j] == Cell(a, b, i - 1, j)
    modifies curr
    ensures forall j :: 0 <= j <= |b| ==> curr[j] == Cell(a, b, i, j)
  {
    curr[0] := i;
    assert b[..0] == "";
    for j := 1 to |b| + 1
      invariant forall k :: 0 <= k < j ==> curr[k] == Cell(a, b, i, k)
    {
      RowStep(a, b, i, j);
      curr[j] := Min3(prev[j] + 1, curr[j - 1] + 1, prev[j - 1] + Cost(a[i - 1], b[j - 1]));
    }
  }

  /** The two rows, swapped after every pass. */
  method TwoRows(a: string, b: string) returns (d: nat)
    ensures d == Dist(a, b)
  {
    var m, n := |a|, |b|;
    var prev := new nat[n + 1];
    var curr := new nat[n + 1];
    for j := 0 to n + 1
      invariant forall k :: 0 <= k < j ==> prev[k] == k
    {
      prev[j] := j;
    }
    assert a[..0] == "";
    for i := 1 to m + 1
      invariant prev != curr && fresh(prev) && fresh(curr) && prev.Length == curr.Length == n + 1
      invariant forall j :: 0 <= j <= n ==> prev[j] == Cell(a, b, i - 1, j)
    {
      FillRow(a, b, i, prev, curr);
      prev, curr := curr, prev;
    }
    assert a[..m] == a && b[..n] == b;
    return prev[n];
  }

  /** For every pair of strings: the length of a shortest script of insertions, deletions and
      substitutions from one to the other. */
  method Levenshtein(a: string, b: string) returns (d: nat)
    ensures IsEditDistance(a, b, d)
  {
    DistIsEditDistance(a, b);
    if |a| == 0 {
      return |b|;
    }
    if |b| == 0 {
      return |a|;
    }
    d := TwoRows(a, b);
  }
}
