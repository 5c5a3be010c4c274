/** The fuzzy contact match: the two-row edit distance, its recursive definition,
    and its meaning as a least number of single-byte edits. */
module Levenshtein {
  import opened Bytes

  type Text = seq<byte>

  function Min(x: int, y: int): int {
    if x < y then x else y
  }

  function Min3(x: int, y: int, z: int): int {
    Min(x, Min(y, z))
  }

  function Init(s: Text): Text
    requires s != []
  {
    s[..|s| - 1]
  }

  function Last(s: Text): byte
    requires s != []
  {
    s[|s| - 1]
  }

  function Cost(c: byte, d: byte): nat {
    if c == d then 0 else 1
  }

  /** The textbook recursion on prefixes. */
  function Distance(a: Text, b: Text): (n: nat)
    decreases |a| + |b|
  {
    if a == [] then |b|
    else if b == [] then |a|
    else Min3(Distance(Init(a), b) + 1, Distance(a, Init(b)) + 1, Distance(Init(a), Init(b)) + Cost(Last(a), Last(b)))
  }

  // ---- Edits ----

  /** One insertion, deletion or replacement of a byte, or no change. */
  ghost predicate OneEdit(s: Text, t: Text) {
    || s == t
    || (exists i :: 0 <= i < |t| && s == t[..i] + t[i + 1..])
    || (exists i :: 0 <= i < |s| && t == s[..i] + s[i + 1..])
    || (|s| == |t| && exists i :: 0 <= i < |s| && s[..i] == t[..i] && s[i + 1..] == t[i + 1..])
  }

  /** b is reached from a by the intermediate Texts of path, an edit at a time. */
  ghost predicate EditPath(path: seq<Text>, a: Text, b: Text) {
    && path != []
    && path[0] == a
    && path[|path| - 1] == b
    && forall k :: 0 < k < |path| ==> OneEdit(path[k - 1], path[k])
  }

  /** b can be reached from a in n edits. */
  ghost predicate Reachable(a: Text, b: Text, n: nat) {
    exists path :: EditPath(path, a, b) && |path| == n + 1
  }

  // ---- The distance is a metric ----

  lemma {:induction false} LengthBound(a: Text, b: Text)
    ensures |a| - |b| <= Distance(a, b) <= |a| + |b|
    ensures |b| - |a| <= Distance(a, b)
    decreases |a| + |b|
  {
    if a != [] && b != [] {
      LengthBound(Init(a), b);
      LengthBound(a, Init(b));
      LengthBound(Init(a), Init(b));
    }
  }

  lemma {:induction false} DistanceZero(a: Text, b: Text)
    ensures Distance(a, b) == 0 <==> a == b
    decreases |a| + |b|
  {
    if a != [] && b != [] {
      DistanceZero(Init(a), Init(b));
      assert a == Init(a) + [Last(a)] && b == Init(b) + [Last(b)];
    }
  }

  lemma {:induction false} Symmetric(a: Text, b: Text)
    ensures Distance(a, b) == Distance(b, a)
    decreases |a| + |b|
  {
    if a != [] && b != [] {
      Symmetric(Init(a), b);
      Symmetric(a, Init(b));
      Symmetric(Init(a), Init(b));
    }
  }

  lemma {:induction false} Triangle(a: Text, b: Text, c: Text)
    ensures Distance(a, c) <= Distance(a, b) + Distance(b, c)
    decreases |a| + |b| + |c|
  {
    LengthBound(b, c);
    LengthBound(a, b);
    if a != [] && c != [] {
      if b == [] {
        LengthBound(a, c);
      } else {
        Triangle(Init(a), b, c);
        Triangle(a, b, Init(c));
        Triangle(a, Init(b), c);
        Triangle(a, Init(b), Init(c));
        Triangle(Init(a), Init(b), c);
        Triangle(Init(a), Init(b), Init(c));
      }
    }
  }

  // ---- One edit moves the distance by at most one ----

  lemma {:induction false} DeleteOne(t: Text, i: nat)
    requires i < |t|
    ensures Distance(t[..i] + t[i + 1..], t) <= 1
    decreases |t|
  {
    var s := t[..i] + t[i + 1..];
    if i == |t| - 1 {
      assert s == Init(t);
      DistanceZero(s, s);
    } else {
      assert Init(s) == Init(t)[..i] + Init(t)[i + 1..];
      assert Last(s) == Last(t);
      DeleteOne(Init(t), i);
    }
  }

  lemma {:induction false} ReplaceOne(s: Text, t: Text, i: nat)
    requires |s| == |t| && i < |s| && s[..i] == t[..i] && s[i + 1..] == t[i + 1..]
    ensures Distance(s, t) <= 1
    decreases |s|
  {
    if i == |s| - 1 {
      DistanceZero(Init(s), Init(t));
    } else {
      assert Init(s)[i + 1..] == s[i + 1..][..|s| - i - 2] == Init(t)[i + 1..];
      assert Last(s) == s[i + 1..][|s| - i - 2] == Last(t);
      ReplaceOne(Init(s), Init(t), i);
    }
  }

  lemma OneEditOneStep(s: Text, t: Text)
    requires OneEdit(s, t)
    ensures Distance(s, t) <= 1
  {
    if s == t {
      DistanceZero(s, t);
    } else if i :| 0 <= i < |t| && s == t[..i] + t[i + 1..] {
      DeleteOne(t, i);
    } else if i :| 0 <= i < |s| && t == s[..i] + s[i + 1..] {
      DeleteOne(s, i);
      Symmetric(s, t);
    } else {
      var i :| 0 <= i < |s| && s[..i] == t[..i] && s[i + 1..] == t[i + 1..];
      ReplaceOne(s, t, i);
    }
  }

  /** No sequence of edits is shorter than the distance. */
  lemma {:induction false} PathsAreLong(path: seq<Text>, a: Text, b: Text)
    requires EditPath(path, a, b)
    ensures Distance(a, b) <= |path| - 1
    decreases |path|
  {
    if |path| == 1 {
      DistanceZero(a, b);
    } else {
      var tail := path[1..];
      assert forall k :: 0 < k < |tail| ==> tail[k - 1] == path[k] && tail[k] == path[k + 1];
      OneEditOneStep(path[0], path[1]);
      PathsAreLong(tail, path[1], b);
      Triangle(a, path[1], b);
    }
  }

  // ---- A sequence of edits of exactly that length ----

  /** The same edits on Texts that end alike. */
  function Extended(path: seq<Text>, c: byte): (r: seq<Text>)
    ensures |r| == |path| && forall k :: 0 <= k < |path| ==> r[k] == path[k] + [c]
  {
    seq(|path|, k requires 0 <= k < |path| => path[k] + [c])
  }

  lemma OneEditExtended(s: Text, t: Text, c: byte)
    requires OneEdit(s, t)
    ensures OneEdit(s + [c], t + [c])
  {
    if s != t {
      if i :| 0 <= i < |t| && s == t[..i] + t[i + 1..] {
        assert s + [c] == (t + [c])[..i] + (t + [c])[i + 1..];
      } else if i :| 0 <= i < |s| && t == s[..i] + s[i + 1..] {
        assert t + [c] == (s + [c])[..i] + (s + [c])[i + 1..];
      } else {
        var i :| 0 <= i < |s| && s[..i] == t[..i] && s[i + 1..] == t[i + 1..];
        assert (s + [c])[..i] == (t + [c])[..i];
        assert (s + [c])[i + 1..] == s[i + 1..] + [c] == (t + [c])[i + 1..];
      }
    }
  }

  lemma PathExtended(path: seq<Text>, a: Text, b: Text, c: byte)
    requires EditPath(path, a, b)
    ensures EditPath(Extended(path, c), a + [c], b + [c])
  {
    var r := Extended(path, c);
    forall k | 0 < k < |r| ensures OneEdit(r[k - 1], r[k]) {
      OneEditExtended(path[k - 1], path[k], c);
    }
  }

  lemma PathThen(path: seq<Text>, a: Text, b: Text, c: Text)
    requires EditPath(path, a, b) && OneEdit(b, c)
    ensures EditPath(path + [c], a, c)
  {
    hide OneEdit;
  }

  lemma PathOfOne(a: Text)
    ensures EditPath([a], a, a)
  {
  }

  lemma PathFrom(path: seq<Text>, a: Text, b: Text, c: Text)
    requires EditPath(path, b, c) && OneEdit(a, b)
    ensures EditPath([a] + path, a, c)
  {
    hide OneEdit;
    var r := [a] + path;
    forall k | 0 < k < |r| ensures OneEdit(r[k - 1], r[k]) {
      assert r[k] == path[k - 1];
      assert k > 1 ==> r[k - 1] == path[k - 2];
    }
  }

  lemma DropLast(s: Text)
    requires s != []
    ensures s == Init(s) + [Last(s)] && OneEdit(s, Init(s)) && OneEdit(Init(s), s)
  {
    var i := |s| - 1;
    assert Init(s) == s[..i] + s[i + 1..];
  }

  lemma SwapLast(s: Text, c: byte, d: byte)
    ensures OneEdit(s + [c], s + [d])
  {
    var i := |s|;
    assert (s + [c])[..i] == (s + [d])[..i] && (s + [c])[i + 1..] == (s + [d])[i + 1..];
  }

  lemma {:induction false} ShortPath(a: Text, b: Text) returns (path: seq<Text>)
    ensures EditPath(path, a, b) && |path| == Distance(a, b) + 1
    decreases |a| + |b|
  {
    hide OneEdit, EditPath;
    if a == [] && b == [] {
      path := [a];
      PathOfOne(a);
    } else if a == [] || (b != [] && Distance(a, b) == Distance(a, Init(b)) + 1) {
      DropLast(b);
      path := ShortPath(a, Init(b));
      PathThen(path, a, Init(b), b);
      path := path + [b];
    } else if b == [] || Distance(a, b) == Distance(Init(a), b) + 1 {
      DropLast(a);
      var rest := ShortPath(Init(a), b);
      PathFrom(rest, a, Init(a), b);
      path := [a] + rest;
    } else {
      DropLast(a);
      DropLast(b);
      var rest := ShortPath(Init(a), Init(b));
      PathExtended(rest, Init(a), Init(b), Last(a));
      path := Extended(rest, Last(a));
      if Last(a) != Last(b) {
        SwapLast(Init(b), Last(a), Last(b));
        PathThen(path, a, Init(b) + [Last(a)], b);
        path := path + [b];
      }
    }
  }

  /** The distance is the least number of edits: n edits are enough exactly when
      the distance is at most n. */
  lemma DistanceIsLeastEdits(a: Text, b: Text, n: nat)
    ensures Reachable(a, b, n) <==> Distance(a, b) <= n
  {
    if Reachable(a, b, n) {
      var path :| EditPath(path, a, b) && |path| == n + 1;
      PathsAreLong(path, a, b);
    }
    if Distance(a, b) <= n {
      var path := ShortPath(a, b);
      Padded(path, a, b, n + 1 - |path|);
    }
  }

  /** Steps without a change lengthen a path. */
  lemma {:induction false} Padded(path: seq<Text>, a: Text, b: Text, extra: nat)
    requires EditPath(path, a, b)
    ensures Reachable(a, b, |path| - 1 + extra)
    decreases extra
  {
    if extra > 0 {
      PathThen(path, a, b, b);
      Padded(path + [b], a, b, extra - 1);
    }
  }

  // ---- The program ----

  method LevenshteinDistance(a: Text, b: Text) returns (n: nat)
    ensures n == Distance(a, b)
  {
    hide Distance, Cost;
    EmptySide(a);
    EmptySide(b);
    if a == b {
      DistanceZero(a, b);
      return 0;
    }
    var la, lb := |a|, |b|;
    if la == 0 { return lb; }
    if lb == 0 { return la; }
    var prev := new nat[lb + 1];
    var curr := new nat[lb + 1];
    for j := 0 to lb + 1
      invariant forall k :: 0 <= k < j ==> prev[k] == k
    {
      prev[j] := j;
    }
    assert a[..0] == [];
    forall j | 0 <= j <= lb ensures Distance([], b[..j]) == j { EmptySide(b[..j]); }
    for i := 1 to la + 1
      invariant fresh(prev) && fresh(curr) && prev != curr
      invariant prev.Length == curr.Length == lb + 1
      invariant forall j :: 0 <= j <= lb ==> prev[j] == Distance(a[..i - 1], b[..j])
    {
      curr[0] := i;
      assert b[..0] == [];
      EmptySide(a[..i]);
      for j := 1 to lb + 1
        invariant forall k :: 0 <= k <= lb ==> prev[k] == Distance(a[..i - 1], b[..k])
        invariant forall k :: 0 <= k < j ==> curr[k] == Distance(a[..i], b[..k])
      {
        var cost := 1;
        if a[i - 1] == b[j - 1] { cost := 0; }
        CostIs(a[i - 1], b[j - 1]);
        PrefixStep(a, b, i, j);
        curr[j] := Min3(prev[j] + 1, curr[j - 1] + 1, prev[j - 1] + cost);
      }
      prev, curr := curr, prev;
    }
    assert a[..la] == a && b[..lb] == b;
    return prev[lb];
  }

  lemma EmptySide(s: Text)
    ensures Distance([], s) == |s| && Distance(s, []) == |s|
  {
  }

  lemma CostIs(c: byte, d: byte)
    ensures Cost(c, d) == if c == d then 0 else 1
  {
  }

  lemma PrefixStep(a: Text, b: Text, i: nat, j: nat)
    requires 0 < i <= |a| && 0 < j <= |b|
    ensures Distance(a[..i], b[..j])
         == Min3(Distance(a[..i - 1], b[..j]) + 1, Distance(a[..i], b[..j - 1]) + 1,
                 Distance(a[..i - 1], b[..j - 1]) + Cost(a[i - 1], b[j - 1]))
  {
    assert Init(a[..i]) == a[..i - 1] && Init(b[..j]) == b[..j - 1];
  }

  function FuzzyEditThreshold(n: nat): (t: nat)
    ensures t <= 2 && (t == 0 <==> n <= 2) && (t == 2 <==> n >= 6)
  {
    if n <= 2 then 0 else if n <= 5 then 1 else 2
  }

  /** A query word matches a name word that it starts, or that lies within the
      allowed number of edits. */
  ghost predicate WordMatches(qw: Text, nw: Text) {
    qw <= nw || (|qw| > 2 && Reachable(qw, nw, FuzzyEditThreshold(|qw|)))
  }

  method AnyNameWordFuzzyMatches(qw: Text, nameWords: seq<Text>) returns (found: bool)
    ensures found <==> exists nw :: nw in nameWords && WordMatches(qw, nw)
  {
    hide Reachable;
    var threshold := FuzzyEditThreshold(|qw|);
    for i := 0 to |nameWords|
      invariant forall k :: 0 <= k < i ==> !WordMatches(qw, nameWords[k])
    {
      var nw := nameWords[i];
      DistanceIsLeastEdits(qw, nw, threshold);
      if qw <= nw {
        assert WordMatches(qw, nw);
        return true;
      }
      if threshold > 0 {
        var n := LevenshteinDistance(qw, nw);
        if n <= threshold {
          assert WordMatches(qw, nw);
          return true;
        }
      }
    }
    return false;
  }

  /** A match is symmetric up to the threshold: a name word reached from the query
      leads back to it in as many edits. */
  lemma MatchesBack(a: Text, b: Text, n: nat)
    ensures Reachable(a, b, n) <==> Reachable(b, a, n)
  {
    DistanceIsLeastEdits(a, b, n);
    DistanceIsLeastEdits(b, a, n);
    Symmetric(a, b);
  }
}
