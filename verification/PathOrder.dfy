/** server/mux.go: the order in which routes are registered. */
module PathOrder {
  import opened Text
  import opened Collections
  import opened Sorting

  predicate IsParamSegment(segment: string) {
    HasPrefix(segment, "{") && HasSuffix(segment, "}")
  }

  function Segments(pattern: string): (r: seq<string>)
    ensures |r| > 0
  {
    Split(TrimPrefix(pattern, "/"), '/')
  }

  predicate IsWildcard(segments: seq<string>)
    requires |segments| > 0
  {
    segments[|segments| - 1] == "**"
  }

  /** The verdict of the loop over the segments, from the k-th on: None if it runs to the end. */
  function BySegments(a: seq<string>, b: seq<string>, k: nat): Verdict
    requires k <= |a| == |b|
    decreases |a| - k
  {
    if k == |a| then Undecided
    else if !IsParamSegment(a[k]) && IsParamSegment(b[k]) then Before
    else if IsParamSegment(a[k]) && !IsParamSegment(b[k]) then After
    else BySegments(a, b, k + 1)
  }

  datatype Verdict = Before | After | Undecided

  /** Whether pattern p has to be registered before pattern q. */
  predicate Less(p: string, q: string) {
    var a, b := Segments(p), Segments(q);
    if !IsWildcard(a) && IsWildcard(b) then true
    else if IsWildcard(a) && !IsWildcard(b) then false
    else if |a| > |b| then true
    else if |a| < |b| then false
    else
      match BySegments(a, b, 0)
      case Before => true
      case After => false
      case Undecided => LexLess(p, q)
  }

  // ---------- The order ----------

  lemma {:induction false} SegmentsOpposite(a: seq<string>, b: seq<string>, k: nat)
    requires k <= |a| == |b|
    ensures BySegments(a, b, k) == Before <==> BySegments(b, a, k) == After
    ensures BySegments(a, b, k) == Undecided <==> BySegments(b, a, k) == Undecided
    decreases |a| - k
  {
    if k < |a| {
      SegmentsOpposite(a, b, k + 1);
    }
  }

  /** Segments decide as the kinds of the first differing pair do, so they compose. */
  lemma {:induction false} SegmentsCompose(a: seq<string>, b: seq<string>, c: seq<string>, k: nat)
    requires k <= |a| == |b| == |c|
    requires BySegments(a, b, k) != After && BySegments(b, c, k) != After
    ensures BySegments(a, c, k) ==
      if BySegments(a, b, k) == Undecided && BySegments(b, c, k) == Undecided then Undecided else Before
    decreases |a| - k
  {
    if k < |a| && IsParamSegment(a[k]) == IsParamSegment(b[k]) == IsParamSegment(c[k]) {
      SegmentsCompose(a, b, c, k + 1);
    }
  }

  lemma LessIrreflexive(p: string)
    ensures !Less(p, p)
  {
    SegmentsOpposite(Segments(p), Segments(p), 0);
    LexIrreflexive(p);
  }

  lemma LessTransitive(p: string, q: string, r: string)
    requires Less(p, q) && Less(q, r)
    ensures Less(p, r)
  {
    var a, b, c := Segments(p), Segments(q), Segments(r);
    if |a| == |b| == |c| && IsWildcard(a) == IsWildcard(b) == IsWildcard(c) {
      SegmentsCompose(a, b, c, 0);
      if BySegments(a, c, 0) == Undecided {
        LexTransitive(p, q, r);
      }
    }
  }

  lemma LessTotal(p: string, q: string)
    ensures p == q || Less(p, q) || Less(q, p)
  {
    if |Segments(p)| == |Segments(q)| {
      SegmentsOpposite(Segments(p), Segments(q), 0);
    }
    LexTotal(p, q);
  }

  // ---------- What the order means ----------

  /** The first position at which exactly one of two patterns has a parameter. */
  ghost predicate FirstKindDiffers(a: seq<string>, b: seq<string>, k: nat) {
    && k < |a| == |b| && IsParamSegment(a[k]) != IsParamSegment(b[k])
    && forall i :: 0 <= i < k ==> IsParamSegment(a[i]) == IsParamSegment(b[i])
  }

  lemma {:induction false} SegmentsDecide(a: seq<string>, b: seq<string>, j: nat, k: nat)
    requires FirstKindDiffers(a, b, k) && j <= k
    ensures BySegments(a, b, j) == if IsParamSegment(b[k]) then Before else After
    decreases k - j
  {
    if j < k {
      SegmentsDecide(a, b, j + 1, k);
    }
  }

  /** Wildcards come last; of two patterns that are alike in that, the longer one comes first;
      of two as long, the one with a static segment where they first differ in kind. */
  lemma LessMeans(p: string, q: string, k: nat)
    ensures var a, b := Segments(p), Segments(q);
            && (IsWildcard(a) != IsWildcard(b) ==> (Less(p, q) <==> IsWildcard(b)))
            && (IsWildcard(a) == IsWildcard(b) && |a| != |b| ==> (Less(p, q) <==> |a| > |b|))
            && (IsWildcard(a) == IsWildcard(b) && FirstKindDiffers(a, b, k) ==> (Less(p, q) <==> IsParamSegment(b[k])))
  {
    var a, b := Segments(p), Segments(q);
    if FirstKindDiffers(a, b, k) {
      SegmentsDecide(a, b, 0, k);
    }
  }

  // ---------- What it means for the texts of the patterns ----------

  /** The segments are the texts between the slashes. */
  lemma SegmentsOf(parts: seq<string>)
    requires parts != [] && forall part <- parts :: '/' !in part
    ensures Segments("/" + Join(parts, '/')) == parts
  {
    var p := "/" + Join(parts, '/');
    assert TrimPrefix(p, "/") == Join(parts, '/');
    SplitJoin(parts, '/');
  }

  lemma SegmentCount(p: string)
    requires HasPrefix(p, "/")
    ensures |Segments(p)| == Count(p, '/')
  {
    JoinSplit(TrimPrefix(p, "/"), '/');
    assert p[1..] == TrimPrefix(p, "/");
  }

  lemma {:induction false} JoinEnds(parts: seq<string>, sep: char)
    requires |parts| > 1
    ensures HasSuffix(Join(parts, sep), [sep] + parts[|parts| - 1])
  {
    var rest, all := Join(parts[1..], sep), Join(parts, sep);
    assert all == parts[0] + [sep] + rest;
    if |parts| > 2 {
      JoinEnds(parts[1..], sep);
      assert parts[1..][|parts| - 2] == parts[|parts| - 1];
      SuffixOfEnd(parts[0] + [sep], rest, [sep] + parts[|parts| - 1]);
    } else {
      assert rest == parts[1];
      assert all[|all| - |[sep] + parts[1]|..] == [sep] + parts[1];
    }
  }

  lemma SuffixOfEnd(a: string, b: string, suffix: string)
    ensures HasSuffix(b, suffix) ==> HasSuffix(a + b, suffix)
    ensures HasSuffix(a + b, suffix) && |b| >= |suffix| ==> HasSuffix(b, suffix)
  {
    if |b| >= |suffix| {
      assert (a + b)[|a + b| - |suffix|..] == b[|b| - |suffix|..];
    }
  }

  lemma LastPartIff(t: string)
    ensures IsWildcard(Split(t, '/')) <==> t == "**" || HasSuffix(t, "/**")
  {
    var parts := Split(t, '/');
    SplitWhole("**", '/');
    if HasSuffix(t, "/**") {
      var before := t[..|t| - 3];
      assert t == before + "/" + "**";
      SplitAppend(before, "**", '/');
    }
    JoinSplit(t, '/');
    if IsWildcard(parts) && |parts| > 1 {
      JoinEnds(parts, '/');
      assert "/" + "**" == "/**";
    }
  }

  lemma SlashBefore(t: string)
    ensures HasSuffix("/" + t, "/**") <==> t == "**" || HasSuffix(t, "/**")
  {
    var p := "/" + t;
    if |t| >= 3 {
      assert p[|p| - 3..] == t[|t| - 3..];
    } else if |t| == 2 {
      assert p[0..] == p && p[1..] == t && "/**"[1..] == "**";
    }
  }

  /** A wildcard pattern ends in a slash and two asterisks, or is these two asterisks only. */
  lemma WildcardIff(p: string)
    ensures IsWildcard(Segments(p)) <==> p == "**" || HasSuffix(p, "/**")
  {
    var t := TrimPrefix(p, "/");
    LastPartIff(t);
    if HasPrefix(p, "/") {
      assert p == "/" + t && p[0] == '/';
      SlashBefore(t);
    }
  }

  lemma WildcardsComeLast(p: string, q: string)
    requires HasSuffix(p, "/**") && !HasSuffix(q, "/**") && q != "**"
    ensures Less(q, p) && !Less(p, q)
  {
    WildcardIff(p);
    WildcardIff(q);
  }

  /** Of two patterns that both are wildcards or both are none, that with more slashes comes first. */
  lemma LongerComesFirst(p: string, q: string)
    requires HasPrefix(p, "/") && HasPrefix(q, "/") && (HasSuffix(p, "/**") <==> HasSuffix(q, "/**"))
    requires Count(p, '/') > Count(q, '/')
    ensures Less(p, q) && !Less(q, p)
  {
    WildcardIff(p);
    WildcardIff(q);
    SegmentCount(p);
    SegmentCount(q);
  }

  ghost predicate InBraces(segment: string) {
    exists name :: segment == "{" + name + "}"
  }

  /** A parameter is a text in braces. */
  lemma ParamIff(segment: string)
    ensures IsParamSegment(segment) <==> InBraces(segment)
  {
    if IsParamSegment(segment) {
      assert segment[0] == '{' && segment[|segment| - 1..][0] == '}';
      var name := segment[1..|segment| - 1];
      assert segment == "{" + name + "}";
    }
  }

  /** Segments of patterns that are alike in number and wildcards. */
  ghost predicate Comparable(a: seq<string>, b: seq<string>) {
    && |a| == |b| > 0 && (a[|a| - 1] == "**" <==> b[|b| - 1] == "**")
    && (forall part <- a + b :: '/' !in part)
  }

  /** Where two patterns of the same length first differ in having a parameter, the one without
      comes first. */
  lemma StaticComesFirst(a: seq<string>, b: seq<string>, k: nat)
    requires Comparable(a, b) && k < |a| && !InBraces(a[k]) && InBraces(b[k])
    requires forall i :: 0 <= i < k ==> (InBraces(a[i]) <==> InBraces(b[i]))
    ensures var p, q := "/" + Join(a, '/'), "/" + Join(b, '/'); Less(p, q) && !Less(q, p)
  {
    BracesAreParams(a, b);
    SegmentsOf(a);
    SegmentsOf(b);
    SegmentsDecide(a, b, 0, k);
    SegmentsDecide(b, a, 0, k);
  }

  lemma BracesAreParams(a: seq<string>, b: seq<string>)
    ensures forall i :: 0 <= i < |a| ==> (InBraces(a[i]) <==> IsParamSegment(a[i]))
    ensures forall i :: 0 <= i < |b| ==> (InBraces(b[i]) <==> IsParamSegment(b[i]))
  {
    forall s
      ensures InBraces(s) <==> IsParamSegment(s)
    {
      ParamIff(s);
    }
  }

  /** Patterns with parameters at the same places are compared as texts. */
  lemma AlikeByText(a: seq<string>, b: seq<string>)
    requires Comparable(a, b) && forall i :: 0 <= i < |a| ==> (InBraces(a[i]) <==> InBraces(b[i]))
    ensures var p, q := "/" + Join(a, '/'), "/" + Join(b, '/'); Less(p, q) <==> LexLess(p, q)
  {
    BracesAreParams(a, b);
    SegmentsOf(a);
    SegmentsOf(b);
    SegmentsAlike(a, b, 0);
  }

  lemma {:induction false} SegmentsAlike(a: seq<string>, b: seq<string>, k: nat)
    requires k <= |a| == |b| && forall i :: 0 <= i < |a| ==> (IsParamSegment(a[i]) <==> IsParamSegment(b[i]))
    ensures BySegments(a, b, k) == Undecided
    decreases |a| - k
  {
    if k < |a| {
      SegmentsAlike(a, b, k + 1);
    }
  }

  // ---------- Sorting ----------

  lemma LessIsStrictOrder()
    ensures StrictOrder(Less)
  {
    forall p
      ensures !Less(p, p)
    {
      LessIrreflexive(p);
    }
    forall p, q
      ensures p == q || Less(p, q) || Less(q, p)
    {
      LessTotal(p, q);
    }
    forall p, q, r | Less(p, q) && Less(q, r)
      ensures Less(p, r)
    {
      LessTransitive(p, q, r);
    }
  }

  /** The same patterns have one order only. */
  lemma OrderIsUnique(a: seq<string>, b: seq<string>)
    requires Sorted(Less, a) && Sorted(Less, b) && multiset(a) == multiset(b)
    ensures a == b
  {
    LessIsStrictOrder();
    SortedIsUnique(Less, a, b);
  }

  /** sort.Slice by this order. The outcome depends on the patterns only, not on their order. */
  method SortPathPatterns(pathPatterns: seq<string>) returns (sorted: seq<string>)
    ensures Sorted(Less, sorted) && multiset(sorted) == multiset(pathPatterns)
    ensures forall other :: Sorted(Less, other) && multiset(other) == multiset(pathPatterns) ==> sorted == other
  {
    LessIsStrictOrder();
    sorted := Sort(Less, pathPatterns);
    forall other | Sorted(Less, other) && multiset(other) == multiset(pathPatterns)
      ensures sorted == other
    {
      OrderIsUnique(sorted, other);
    }
  }

  /** The patterns of the routes, in whatever order the map is iterated: the result is the one
      sorted list of them. */
  method SortedPathPatterns(routes: set<string>) returns (sorted: seq<string>)
    ensures Lists(Less, sorted, routes)
    ensures forall other :: Lists(Less, other, routes) ==> sorted == other
  {
    var pathPatterns := Enumerate(routes);
    sorted := SortPathPatterns(pathPatterns);
    LessIsStrictOrder();
    SortedLists(Less, pathPatterns, sorted, routes);
    forall other | Lists(Less, other, routes)
      ensures sorted == other
    {
      OneList(Less, sorted, other, routes);
    }
  }
}
