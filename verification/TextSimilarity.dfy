/**
  Text similarity by edit distance, and the choice of a best candidate.

  Strings are taken after trimming and lower-casing, and arithmetic is over the reals.
 */
module TextSimilarity {
  import opened Arithmetic
  import opened Wrappers

  function Init(s: string): string
    requires s != ""
  {
    s[..|s| - 1]
  }

  function Last(s: string): char
    requires s != ""
  {
    s[|s| - 1]
  }

  // ---------------------------------------------------------------- edit scripts

  /** One edit: delete, insert or replace a single character. */
  datatype Edit = Delete(at: nat) | Insert(at: nat, c: char) | Replace(at: nat, c: char)

  predicate Applies(s: string, e: Edit) { if e.Insert? then e.at <= |s| else e.at < |s| }

  function Apply(s: string, e: Edit): string
    requires Applies(s, e)
  {
    match e
    case Delete(at) => s[..at] + s[at + 1..]
    case Insert(at, c) => s[..at] + [c] + s[at..]
    case Replace(at, c) => s[at := c]
  }

  predicate Transforms(s: string, script: seq<Edit>, t: string)
    decreases |script|
  {
    if script == [] then s == t
    else Applies(s, script[0]) && Transforms(Apply(s, script[0]), script[1..], t)
  }

  // ---------------------------------------------------------------- the distance

  /** The recursive edit distance, on last characters. */
  function Distance(s: string, t: string): nat
    decreases |s| + |t|
  {
    if s == "" then |t|
    else if t == "" then |s|
    else
      var cost := if Last(s) == Last(t) then 0 else 1;
      Min(Min(Distance(Init(s), t) + 1, Distance(s, Init(t)) + 1), Distance(Init(s), Init(t)) + cost)
  }

  lemma {:induction false} DistanceIsSymmetric(s: string, t: string)
    ensures Distance(s, t) == Distance(t, s)
    decreases |s| + |t|
  {
    if s != "" && t != "" {
      DistanceIsSymmetric(Init(s), t);
      DistanceIsSymmetric(s, Init(t));
      DistanceIsSymmetric(Init(s), Init(t));
    }
  }

  lemma {:induction false} DistanceToSelf(s: string)
    ensures Distance(s, s) == 0
  {
    if s != "" { DistanceToSelf(Init(s)); }
  }

  lemma {:induction false} ZeroMeansEqual(s: string, t: string)
    requires Distance(s, t) == 0
    ensures s == t
    decreases |s| + |t|
  {
    if s != "" && t != "" {
      ZeroMeansEqual(Init(s), Init(t));
      assert s == Init(s) + [Last(s)] && t == Init(t) + [Last(t)];
    }
  }

  lemma {:induction false} DistanceIsBounded(s: string, t: string)
    ensures Max(|s|, |t|) - Min(|s|, |t|) <= Distance(s, t) <= Max(|s|, |t|)
    decreases |s| + |t|
  {
    if s != "" && t != "" {
      DistanceIsBounded(Init(s), t);
      DistanceIsBounded(s, Init(t));
      DistanceIsBounded(Init(s), Init(t));
    }
  }

  /** Dropping the last character changes the distance by at most one. */
  lemma {:induction false} DropLastChangesByOne(s: string, t: string)
    requires s != ""
    ensures Distance(Init(s), t) - 1 <= Distance(s, t) <= Distance(Init(s), t) + 1
    decreases |s| + |t|
  {
    if t != "" { DropLastChangesByOne(s, Init(t)); }
  }

  /** The inequality that makes the distance a metric. */
  lemma {:induction false} TriangleInequality(a: string, b: string, c: string)
    ensures Distance(a, c) <= Distance(a, b) + Distance(b, c)
    decreases |a| + |b| + |c|
  {
    if a == "" || b == "" || c == "" {
      DistanceIsBounded(a, b);
      DistanceIsBounded(b, c);
      DistanceIsBounded(a, c);
    } else {
      TriangleInequality(Init(a), b, c);
      TriangleInequality(a, b, Init(c));
      TriangleInequality(Init(a), Init(b), Init(c));
      TriangleInequality(Init(a), Init(b), c);
      TriangleInequality(a, Init(b), Init(c));
      TriangleInequality(a, Init(b), c);
    }
  }

  // ---------------------------------------------------------------- the shortest script

  lemma {:induction false} TransformsInTwoParts(s: string, a: seq<Edit>, u: string, b: seq<Edit>, t: string)
    requires Transforms(s, a, u) && Transforms(u, b, t)
    ensures Transforms(s, a + b, t)
    decreases |a|
  {
    if a == [] {
      assert a + b == b;
    } else {
      TransformsInTwoParts(Apply(s, a[0]), a[1..], u, b, t);
      assert (a + b)[1..] == a[1..] + b;
    }
  }

  lemma PrependEdit(s: string, e: Edit, rest: seq<Edit>, t: string)
    requires Applies(s, e) && Transforms(Apply(s, e), rest, t)
    ensures Transforms(s, [e] + rest, t)
  {
    assert ([e] + rest)[1..] == rest;
  }

  lemma AppendEdit(s: string, most: seq<Edit>, u: string, e: Edit)
    requires Transforms(s, most, u) && Applies(u, e)
    ensures Transforms(s, most + [e], Apply(u, e))
  {
    assert [e][1..] == [] && Transforms(Apply(u, e), [], Apply(u, e));
    TransformsInTwoParts(s, most, u, [e], Apply(u, e));
  }

  lemma EditWithSuffix(s: string, e: Edit, x: string)
    requires Applies(s, e)
    ensures Applies(s + x, e) && Apply(s + x, e) == Apply(s, e) + x
  {
    assert (s + x)[..e.at] == s[..e.at];
    match e
    case Delete(at) => assert (s + x)[at + 1..] == s[at + 1..] + x;
    case Insert(at, c) => assert (s + x)[at..] == s[at..] + x;
    case Replace(at, c) =>
  }

  lemma {:induction false} TransformsWithSuffix(s: string, a: seq<Edit>, t: string, x: string)
    requires Transforms(s, a, t)
    ensures Transforms(s + x, a, t + x)
    decreases |a|
  {
    if a != [] {
      TransformsWithSuffix(Apply(s, a[0]), a[1..], t, x);
      EditWithSuffix(s, a[0], x);
    }
  }

  lemma DeleteLast(s: string, rest: seq<Edit>, t: string)
    requires s != "" && Transforms(Init(s), rest, t)
    ensures Transforms(s, [Delete(|s| - 1)] + rest, t)
  {
    assert Apply(s, Delete(|s| - 1)) == Init(s);
    PrependEdit(s, Delete(|s| - 1), rest, t);
  }

  lemma InsertLast(s: string, most: seq<Edit>, t: string)
    requires t != "" && Transforms(s, most, Init(t))
    ensures Transforms(s, most + [Insert(|t| - 1, Last(t))], t)
  {
    assert Apply(Init(t), Insert(|t| - 1, Last(t))) == t;
    AppendEdit(s, most, Init(t), Insert(|t| - 1, Last(t)));
  }

  lemma KeepLast(s: string, most: seq<Edit>, t: string)
    requires s != "" && t != "" && Transforms(Init(s), most, Init(t))
    ensures Transforms(Init(s) + [Last(t)], most, t)
  {
    var u, v, x := Init(s), Init(t), [Last(t)];
    assert v + x == t;
    TransformsWithSuffix(u, most, v, x);
  }

  lemma ReplaceLast(s: string, most: seq<Edit>, t: string)
    requires s != "" && t != "" && Transforms(Init(s), most, Init(t))
    ensures Transforms(s, [Replace(|s| - 1, Last(t))] + most, t)
  {
    KeepLast(s, most, t);
    assert Apply(s, Replace(|s| - 1, Last(t))) == Init(s) + [Last(t)];
    PrependEdit(s, Replace(|s| - 1, Last(t)), most, t);
  }

  /** A shortest script, built from the way the recursion reaches its minimum. */
  function Script(s: string, t: string): (script: seq<Edit>)
    ensures |script| == Distance(s, t)
    decreases |s| + |t|
  {
    if s == "" && t == "" then []
    else if s != "" && Distance(s, t) == Distance(Init(s), t) + 1 then [Delete(|s| - 1)] + Script(Init(s), t)
    else if t != "" && Distance(s, t) == Distance(s, Init(t)) + 1 then
      Script(s, Init(t)) + [Insert(|t| - 1, Last(t))]
    else if Last(s) == Last(t) then Script(Init(s), Init(t))
    else [Replace(|s| - 1, Last(t))] + Script(Init(s), Init(t))
  }

  lemma {:induction false} ScriptTransforms(s: string, t: string)
    ensures Transforms(s, Script(s, t), t)
    decreases |s| + |t|
  {
    if s == "" && t == "" {
    } else if s != "" && Distance(s, t) == Distance(Init(s), t) + 1 {
      ScriptTransforms(Init(s), t);
      DeleteLast(s, Script(Init(s), t), t);
    } else if t != "" && Distance(s, t) == Distance(s, Init(t)) + 1 {
      ScriptTransforms(s, Init(t));
      InsertLast(s, Script(s, Init(t)), t);
    } else {
      ScriptTransforms(Init(s), Init(t));
      KeepLast(s, Script(Init(s), Init(t)), t);
      ReplaceLast(s, Script(Init(s), Init(t)), t);
      assert s == Init(s) + [Last(s)];
    }
  }

  lemma {:induction false} CommonSuffixAddsNothing(a: string, b: string, x: string)
    ensures Distance(a + x, b + x) <= Distance(a, b)
  {
    if x == "" {
      assert a + x == a && b + x == b;
    } else {
      CommonSuffixAddsNothing(a, b, Init(x));
      assert Init(a + x) == a + Init(x) && Init(b + x) == b + Init(x);
    }
  }

  lemma InitOfOneMore(p: string, c: char)
    ensures Init(p + [c]) == p && Last(p + [c]) == c
  {
  }

  lemma OneMoreCostsOne(p: string, c: char)
    ensures Distance(p + [c], p) <= 1 && Distance(p, p + [c]) <= 1
  {
    InitOfOneMore(p, c);
    DistanceToSelf(p);
    DropLastChangesByOne(p + [c], p);
    DistanceIsSymmetric(p + [c], p);
  }

  lemma OtherLastCostsOne(p: string, c: char, d: char)
    ensures Distance(p + [c], p + [d]) <= 1
  {
    InitOfOneMore(p, c);
    InitOfOneMore(p, d);
    DistanceToSelf(p);
  }

  lemma DeletingCostsOne(p: string, c: char, x: string)
    ensures Distance(p + [c] + x, p + x) <= 1
  {
    OneMoreCostsOne(p, c);
    CommonSuffixAddsNothing(p + [c], p, x);
  }

  lemma InsertingCostsOne(p: string, c: char, x: string)
    ensures Distance(p + x, p + [c] + x) <= 1
  {
    OneMoreCostsOne(p, c);
    CommonSuffixAddsNothing(p, p + [c], x);
  }

  lemma ReplacingCostsOne(p: string, c: char, d: char, x: string)
    ensures Distance(p + [c] + x, p + [d] + x) <= 1
  {
    OtherLastCostsOne(p, c, d);
    CommonSuffixAddsNothing(p + [c], p + [d], x);
  }

  /** The two sides of an edit, around the place it changes. */
  lemma EditAround(s: string, e: Edit)
    requires Applies(s, e)
    ensures e.Delete? ==> s == s[..e.at] + [s[e.at]] + s[e.at + 1..] && Apply(s, e) == s[..e.at] + s[e.at + 1..]
    ensures e.Insert? ==> s == s[..e.at] + s[e.at..] && Apply(s, e) == s[..e.at] + [e.c] + s[e.at..]
    ensures e.Replace? ==>
              s == s[..e.at] + [s[e.at]] + s[e.at + 1..] && Apply(s, e) == s[..e.at] + [e.c] + s[e.at + 1..]
  {
  }

  lemma OneEditCostsOne(s: string, e: Edit)
    requires Applies(s, e)
    ensures Distance(s, Apply(s, e)) <= 1
  {
    EditAround(s, e);
    match e
    case Delete(at) => DeletingCostsOne(s[..at], s[at], s[at + 1..]);
    case Insert(at, c) => InsertingCostsOne(s[..at], c, s[at..]);
    case Replace(at, c) => ReplacingCostsOne(s[..at], s[at], c, s[at + 1..]);
  }

  lemma {:induction false} NoScriptIsShorter(s: string, script: seq<Edit>, t: string)
    requires Transforms(s, script, t)
    ensures Distance(s, t) <= |script|
    decreases |script|
  {
    if script == [] {
      DistanceToSelf(s);
    } else {
      var u := Apply(s, script[0]);
      NoScriptIsShorter(u, script[1..], t);
      OneEditCostsOne(s, script[0]);
      TriangleInequality(s, u, t);
    }
  }

  /** The distance is the length of the shortest edit script: one of that length exists, and none is shorter. */
  lemma DistanceIsShortestScript(s: string, t: string)
    ensures Transforms(s, Script(s, t), t) && |Script(s, t)| == Distance(s, t)
    ensures forall script :: Transforms(s, script, t) ==> Distance(s, t) <= |script|
  {
    ScriptTransforms(s, t);
    forall other | Transforms(s, other, t) ensures Distance(s, t) <= |other| { NoScriptIsShorter(s, other, t); }
  }

  // ---------------------------------------------------------------- the table

  /** The entry of row `i` and column `j`. */
  function Entry(s: string, t: string, i: nat, j: nat): nat
    requires i <= |s| && j <= |t|
  {
    if i == 0 then j
    else if j == 0 then i
    else
      var cost := if s[i - 1] == t[j - 1] then 0 else 1;
      Min(Min(Entry(s, t, i - 1, j) + 1, Entry(s, t, i, j - 1) + 1), Entry(s, t, i - 1, j - 1) + cost)
  }

  /** An entry is the distance of the two prefixes it stands for. */
  lemma {:induction false} EntryIsDistance(u: string, s: string, v: string, t: string)
    requires s <= u && t <= v
    ensures Entry(u, v, |s|, |t|) == Distance(s, t)
    decreases |s| + |t|
  {
    if s != "" && t != "" {
      EntryIsDistance(u, Init(s), v, t);
      EntryIsDistance(u, s, v, Init(t));
      EntryIsDistance(u, Init(s), v, Init(t));
    }
  }

  ghost predicate RowIsFilled(dp: array2<int>, s: string, t: string, i: nat, columns: nat)
    requires i < dp.Length0 == |s| + 1 && columns <= dp.Length1 == |t| + 1
    reads dp
  {
    forall j :: 0 <= j < columns ==> dp[i, j] == Entry(s, t, i, j)
  }

  method FillTable(str1: string, str2: string) returns (corner: int)
    ensures corner == Entry(str1, str2, |str1|, |str2|)
  {
    var m, n := |str1|, |str2|;
    var dp := new int[m + 1, n + 1]((_, _) => 0);
    for i := 0 to m + 1
      invariant forall k :: 0 <= k < i ==> dp[k, 0] == k
    {
      dp[i, 0] := i;
    }
    for j := 0 to n + 1
      invariant forall k :: 0 <= k <= m ==> dp[k, 0] == k
      invariant forall k :: 0 <= k < j ==> dp[0, k] == k
    {
      dp[0, j] := j;
    }
    for i := 1 to m + 1
      invariant forall k :: 0 <= k <= m ==> dp[k, 0] == k
      invariant RowIsFilled(dp, str1, str2, i - 1, n + 1)
    {
      for j := 1 to n + 1
        invariant forall k :: 0 <= k <= m ==> dp[k, 0] == k
        invariant RowIsFilled(dp, str1, str2, i - 1, n + 1)
        invariant RowIsFilled(dp, str1, str2, i, j)
      {
        var cost := if str1[i - 1] == str2[j - 1] then 0 else 1;
        var del, ins, sub := dp[i - 1, j] + 1, dp[i, j - 1] + 1, dp[i - 1, j - 1] + cost;
        dp[i, j] := Min(Min(del, ins), sub);
      }
    }
    corner := dp[m, n];
  }

  method EditDistance(str1: string, str2: string) returns (distance: int)
    ensures distance == Distance(str1, str2)
  {
    distance := FillTable(str1, str2);
    EntryIsDistance(str1, str1, str2, str2);
  }

  // ---------------------------------------------------------------- similarity

  predicate OccursAt(s: string, t: string, i: nat) { i + |t| <= |s| && s[i..i + |t|] == t }

  predicate Includes(s: string, t: string) { exists i :: 0 <= i <= |s| && OccursAt(s, t, i) }

  predicate Contained(s: string, t: string) { Includes(s, t) || Includes(t, s) }

  function Ratio(s: string, t: string): real
    requires s != "" || t != ""
  {
    Min(|s|, |t|) as real / Max(|s|, |t|) as real
  }

  function ContainmentScore(s: string, t: string): real
    requires s != "" || t != ""
  {
    RealMin(1.0, 0.8 + 0.2 * Ratio(s, t))
  }

  function DistanceScore(s: string, t: string): real
    requires s != "" || t != ""
  {
    RealMax(0.0, 1.0 - Distance(s, t) as real / Max(|s|, |t|) as real)
  }

  function RealMin(a: real, b: real): real { if a <= b then a else b }

  function RealMax(a: real, b: real): real { if a <= b then b else a }

  /** The score of two normalised strings. */
  function Similarity(s: string, t: string): real {
    if s == t then 1.0
    else if s == "" || t == "" then 0.0
    else if Contained(s, t) then ContainmentScore(s, t)
    else DistanceScore(s, t)
  }

  method CalculateTextSimilarity(norm: string -> string, a: string, b: string) returns (score: real)
    ensures score == Similarity(norm(a), norm(b))
  {
    var str1, str2 := norm(a), norm(b);
    if str1 == str2 { return 1.0; }
    if str1 == "" || str2 == "" { return 0.0; }
    var minLen, maxLen := Min(|str1|, |str2|), Max(|str1|, |str2|);
    if Includes(str1, str2) || Includes(str2, str1) {
      return RealMin(1.0, 0.8 + 0.2 * (minLen as real / maxLen as real));
    }
    var distance := EditDistance(str1, str2);
    return RealMax(0.0, 1.0 - distance as real / maxLen as real);
  }

  /** Dividing by a positive number keeps order. */
  lemma FractionOrder(a: real, b: real, d: real)
    requires d > 0.0
    ensures a <= b <==> a / d <= b / d
    ensures a < b <==> a / d < b / d
    ensures d / d == 1.0 && 0.0 / d == 0.0
  {
  }

  lemma FractionBounds(lo: nat, hi: nat, d: nat)
    requires 0 < hi && hi - lo <= d <= hi
    ensures var f := d as real / hi as real;
            0.0 <= f <= 1.0 && (f == 0.0 <==> d == 0) && 1.0 - f <= lo as real / hi as real
  {
    var h := hi as real;
    FractionOrder(0.0, d as real, h);
    FractionOrder(d as real, h, h);
    FractionOrder(h - lo as real, d as real, h);
    assert (h - lo as real) / h == h / h - lo as real / h;
  }

  lemma RatioRange(s: string, t: string)
    requires s != "" || t != ""
    ensures 0.0 <= Ratio(s, t) <= 1.0
    ensures Ratio(s, t) == 1.0 <==> |s| == |t|
  {
    var lo, hi := Min(|s|, |t|) as real, Max(|s|, |t|) as real;
    FractionOrder(0.0, lo, hi);
    FractionOrder(lo, hi, hi);
  }

  lemma DistanceFractionRange(s: string, t: string)
    requires s != "" || t != ""
    ensures var f := Distance(s, t) as real / Max(|s|, |t|) as real;
            && 0.0 <= f <= 1.0 && (f == 0.0 <==> Distance(s, t) == 0) && 1.0 - f <= Ratio(s, t)
  {
    DistanceIsBounded(s, t);
    FractionBounds(Min(|s|, |t|), Max(|s|, |t|), Distance(s, t));
  }

  lemma SimilarityIsSymmetric(s: string, t: string)
    ensures Similarity(s, t) == Similarity(t, s)
  {
    DistanceIsSymmetric(s, t);
  }

  lemma IncludedWithEqualLength(s: string, t: string)
    requires Includes(s, t)
    ensures |t| <= |s| && (|s| == |t| ==> s == t)
  {
    var i :| 0 <= i <= |s| && OccursAt(s, t, i);
    assert s[0..|s|] == s;
  }

  /** A score lies between 0 and 1 and is 1 exactly for equal strings. */
  lemma SimilarityRange(s: string, t: string)
    ensures 0.0 <= Similarity(s, t) <= 1.0
    ensures Similarity(s, t) == 1.0 <==> s == t
  {
    if s != t && s != "" && t != "" {
      if Contained(s, t) {
        RatioRange(s, t);
        if Includes(s, t) { IncludedWithEqualLength(s, t); } else { IncludedWithEqualLength(t, s); }
      } else {
        DistanceFractionRange(s, t);
        if Distance(s, t) == 0 { ZeroMeansEqual(s, t); }
      }
    }
  }

  /** For one pair of strings, containment never scores below the edit distance. */
  lemma ContainmentScoresHigher(s: string, t: string)
    requires s != "" && t != ""
    ensures DistanceScore(s, t) <= ContainmentScore(s, t)
  {
    RatioRange(s, t);
    DistanceFractionRange(s, t);
  }

  // ---------------------------------------------------------------- choosing a candidate

  datatype Confidence = High | Medium | Low

  /** A scored node: its position in the snapshot and its score. */
  datatype Match = Match(score: real, at: nat)

  predicate Before(a: Match, b: Match) { a.score > b.score || (a.score == b.score && a.at < b.at) }

  predicate Ordered(ms: seq<Match>) { forall i, j :: 0 <= i < j < |ms| ==> Before(ms[i], ms[j]) }

  /** Descending by score; equal scores keep their order, as the newcomer has the highest position. */
  function InsertMatch(ms: seq<Match>, m: Match): seq<Match> {
    if ms == [] || ms[0].score < m.score then [m] + ms else [ms[0]] + InsertMatch(ms[1..], m)
  }

  lemma {:induction false} InsertKeepsOrder(ms: seq<Match>, m: Match)
    requires Ordered(ms) && forall x :: x in ms ==> x.at < m.at
    ensures Ordered(InsertMatch(ms, m))
    ensures forall x :: x in InsertMatch(ms, m) <==> x in ms || x == m
  {
    if ms != [] && ms[0].score >= m.score {
      assert ms == [ms[0]] + ms[1..];
      InsertKeepsOrder(ms[1..], m);
      assert forall x :: x in ms[1..] ==> Before(ms[0], x);
    }
  }

  predicate Qualifies(scores: seq<real>, threshold: real, i: int) {
    0 <= i < |scores| && scores[i] >= threshold
  }

  /** `i` is the earliest best qualifying node, and every other qualifying node trails by the margin. */
  ghost predicate Chosen(scores: seq<real>, threshold: real, margin: real, i: int) {
    && Qualifies(scores, threshold, i)
    && forall j :: Qualifies(scores, threshold, j) && j != i ==>
         && scores[i] - scores[j] >= margin
         && (if j < i then scores[j] < scores[i] else scores[j] <= scores[i])
  }

  method FindAdaptiveTarget(scores: seq<real>, minThreshold: real, scoreMargin: real)
    returns (best: Option<nat>, confidence: Confidence)
    ensures best.Some? ==> Chosen(scores, minThreshold, scoreMargin, best.value)
    ensures best.None? ==> forall i :: !Chosen(scores, minThreshold, scoreMargin, i)
    ensures best.Some? ==>
              confidence == (if scores[best.value] >= 0.8 then High
                             else if scores[best.value] >= 0.7 then Medium
                             else Low)
  {
    confidence := Low;
    var scored: seq<Match> := [];
    for i := 0 to |scores|
      invariant Ordered(scored)
      invariant forall x :: x in scored <==>
                  x.at < i && Qualifies(scores, minThreshold, x.at) && x.score == scores[x.at]
    {
      if scores[i] >= minThreshold {
        InsertKeepsOrder(scored, Match(scores[i], i));
        scored := InsertMatch(scored, Match(scores[i], i));
      }
    }
    forall j | Qualifies(scores, minThreshold, j) ensures Match(scores[j], j) in scored {}
    if |scored| == 0 { return None, Low; }
    var m := scored[0];
    assert m in scored;
    if |scored| > 1 {
      assert scored[1] in scored && Before(m, scored[1]);
      if m.score - scored[1].score < scoreMargin {
        assert Qualifies(scores, minThreshold, m.at) && Qualifies(scores, minThreshold, scored[1].at);
        return None, Low;
      }
    }
    confidence := if m.score >= 0.8 then High else if m.score >= 0.7 then Medium else Low;
    forall j | Qualifies(scores, minThreshold, j) && j != m.at
      ensures scores[m.at] - scores[j] >= scoreMargin && Before(m, Match(scores[j], j))
    {
      var k :| 0 <= k < |scored| && scored[k] == Match(scores[j], j);
      assert k >= 1 && (k == 1 || Before(scored[1], scored[k]));
    }
    return Some(m.at), confidence;
  }

  // ---------------------------------------------------------------- what the scores are

  /** Inclusion: the one string is the other with something before and something after it. */
  lemma IncludesMeansSurrounded(s: string, t: string)
    ensures Includes(s, t) <==> exists a, b :: s == a + t + b
  {
    if Includes(s, t) {
      var i :| 0 <= i <= |s| && OccursAt(s, t, i);
      assert s == s[..i] + t + s[i + |t|..];
    }
    if exists a, b :: s == a + t + b {
      var a, b :| s == a + t + b;
      assert s[|a|..|a| + |t|] == t;
      assert OccursAt(s, t, |a|);
    }
  }

  /** Inclusion scores four fifths and a fifth of the length ratio; the cap never shows. */
  lemma ContainmentScoreIsExact(s: string, t: string)
    requires s != "" && t != ""
    ensures ContainmentScore(s, t) == 0.8 + 0.2 * (Min(|s|, |t|) as real / Max(|s|, |t|) as real)
  {
    RatioRange(s, t);
  }

  /** Otherwise the score is the share of the longer string that need not be edited; the floor never shows. */
  lemma DistanceScoreIsExact(s: string, t: string)
    requires s != "" && t != ""
    ensures DistanceScore(s, t) == 1.0 - Distance(s, t) as real / Max(|s|, |t|) as real
  {
    DistanceFractionRange(s, t);
  }

  /** Equal strings score 1, an empty one 0; the other two scores are for inclusion and for the rest. */
  lemma ScoresByCase(s: string, t: string)
    ensures Similarity(s, t) ==
            if s == t then 1.0
            else if |s| * |t| == 0 then 0.0
            else if (exists a, b :: s == a + t + b) || (exists a, b :: t == a + s + b) then ContainmentScore(s, t)
            else DistanceScore(s, t)
  {
    IncludesMeansSurrounded(s, t);
    IncludesMeansSurrounded(t, s);
  }
}
