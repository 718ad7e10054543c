/**
 The list behind -force_key_frames: times and "chapters" entries between commas, collected
 into an array that is resized for every chapters entry, then sorted.
 */
module ForcedKeyframes {
  /** parse_time_or_die with the rescaling to the encoder's time base, and the chapter starts. */
  datatype Env = Env(time: string -> int, chapters: seq<int>)

  const CHAPTERS := "chapters"

  // ------------------------------------------------------------------------------ entries

  /** The text up to the first comma. */
  function First(s: string): string {
    if s == "" || s[0] == ',' then "" else [s[0]] + First(s[1..])
  }

  lemma {:induction false} FirstIsPrefix(s: string)
    ensures |First(s)| <= |s| && First(s) == s[..|First(s)|] && (|First(s)| < |s| ==> s[|First(s)|] == ',')
    ensures forall i :: 0 <= i < |First(s)| ==> s[i] != ','
  {
    if s != "" && s[0] != ',' {
      FirstIsPrefix(s[1..]);
      assert s == [s[0]] + s[1..];
      forall i | 0 <= i < |First(s)| ensures s[i] != ',' {
        if i > 0 {
          assert s[i] == s[1..][i - 1];
        }
      }
    }
  }

  function Entries(s: string): seq<string>
    decreases |s|
  {
    FirstIsPrefix(s);
    var e := First(s);
    if |e| == |s| then [e] else [e] + Entries(s[|e| + 1..])
  }

  function Commas(s: string): nat { if s == "" then 0 else (if s[0] == ',' then 1 else 0) + Commas(s[1..]) }

  lemma {:induction false} CommasSkip(s: string)
    ensures |First(s)| <= |s| && Commas(s) == if |First(s)| == |s| then 0 else 1 + Commas(s[|First(s)| + 1..])
  {
    FirstIsPrefix(s);
    if s != "" && s[0] != ',' {
      CommasSkip(s[1..]);
      if |First(s)| < |s| {
        assert s[1..][|First(s[1..])| + 1..] == s[|First(s)| + 1..];
      }
    } else if s != "" {
      assert s[|First(s)| + 1..] == s[1..];
    }
  }

  /** One entry more than commas: what the first pass over the text counts. */
  lemma {:induction false} EntriesCounted(s: string)
    ensures |Entries(s)| == Commas(s) + 1
    decreases |s|
  {
    CommasSkip(s);
    FirstIsPrefix(s);
    if |First(s)| < |s| {
      EntriesCounted(s[|First(s)| + 1..]);
    }
  }

  /** The entries, with a comma between any two. */
  function Joined(es: seq<string>): string {
    if es == [] then "" else if |es| == 1 then es[0] else es[0] + "," + Joined(es[1..])
  }

  /** The text is its entries joined by commas, and no entry holds a comma. */
  lemma {:induction false} EntriesJoin(s: string)
    ensures Joined(Entries(s)) == s && forall i :: 0 <= i < |Entries(s)| ==> ',' !in Entries(s)[i]
    decreases |s|
  {
    FirstIsPrefix(s);
    var e := First(s);
    if |e| < |s| {
      var rest := Entries(s[|e| + 1..]);
      EntriesJoin(s[|e| + 1..]);
      assert ([e] + rest)[1..] == rest;
      assert s == s[..|e|] + [s[|e|]] + s[|e| + 1..];
    } else {
      assert e == s;
    }
  }

  predicate IsChapters(e: string) { CHAPTERS <= e }

  function Shifted(starts: seq<int>, t: int): (r: seq<int>)
    ensures |r| == |starts|
  {
    seq(|starts|, j requires 0 <= j < |starts| => starts[j] + t)
  }

  /** The times one entry asks for. */
  function Times(env: Env, e: string): seq<int> {
    if IsChapters(e) then Shifted(env.chapters, if |e| > |CHAPTERS| then env.time(e[|CHAPTERS|..]) else 0)
    else [env.time(e)]
  }

  /** A plain entry is one time; a chapters entry is every chapter start, moved by what follows the word. */
  lemma TimesOfEntry(env: Env, text: string, j: nat)
    ensures Times(env, "chapters") == env.chapters
    ensures text != "" && j < |env.chapters| ==>
      var ts := Times(env, "chapters" + text);
      |ts| == |env.chapters| && ts[j] == env.chapters[j] + env.time(text)
    ensures !("chapters" <= text) ==> Times(env, text) == [env.time(text)]
  {
    var e := "chapters" + text;
    assert e[..8] == "chapters" && e[8..] == text;
  }

  function AllTimes(env: Env, es: seq<string>): seq<int> {
    if es == [] then [] else Times(env, es[0]) + AllTimes(env, es[1..])
  }

  lemma {:induction false} AllTimesSnoc(env: Env, es: seq<string>, e: string)
    ensures AllTimes(env, es + [e]) == AllTimes(env, es) + Times(env, e)
  {
    if es == [] {
      assert es + [e] == [e];
      assert [e][1..] == [];
    } else {
      assert (es + [e])[1..] == es[1..] + [e];
      AllTimesSnoc(env, es[1..], e);
    }
  }

  // ------------------------------------------------------------------------------ sorting

  /** What qsort with compare_int64 produces: the sorted arrangement, unique for numbers. */
  function Insert(x: int, s: seq<int>): seq<int> {
    if s == [] || x <= s[0] then [x] + s else [s[0]] + Insert(x, s[1..])
  }

  function Sort(s: seq<int>): seq<int> { if s == [] then [] else Insert(s[0], Sort(s[1..])) }

  ghost predicate Sorted(s: seq<int>) { forall i, j :: 0 <= i < j < |s| ==> s[i] <= s[j] }

  lemma {:induction false} InsertKeepsElements(x: int, s: seq<int>)
    ensures multiset(Insert(x, s)) == multiset(s) + multiset{x}
    ensures forall y :: y in Insert(x, s) ==> y == x || y in s
  {
    if s != [] && x > s[0] {
      InsertKeepsElements(x, s[1..]);
      assert s == [s[0]] + s[1..];
    } else {
      assert multiset([x] + s) == multiset{x} + multiset(s);
    }
  }

  lemma {:induction false} InsertSorts(x: int, s: seq<int>)
    requires Sorted(s)
    ensures Sorted(Insert(x, s))
  {
    if s != [] && x > s[0] {
      var r := Insert(x, s[1..]);
      InsertSorts(x, s[1..]);
      InsertKeepsElements(x, s[1..]);
      forall j | 0 <= j < |r| ensures s[0] <= r[j] {
        assert r[j] in r;
      }
    }
  }

  lemma {:induction false} SortSorts(s: seq<int>)
    ensures Sorted(Sort(s)) && multiset(Sort(s)) == multiset(s) && |Sort(s)| == |s|
  {
    if s != [] {
      var t := Sort(s[1..]);
      SortSorts(s[1..]);
      InsertSorts(s[0], t);
      InsertKeepsElements(s[0], t);
      assert s == [s[0]] + s[1..];
      assert multiset(s) == multiset([s[0]]) + multiset(s[1..]);
    }
  }

  lemma SameLength(a: seq<int>, b: seq<int>)
    requires multiset(a) == multiset(b)
    ensures |a| == |b|
  {
    assert |multiset(a)| == |a| && |multiset(b)| == |b|;
  }

  lemma WithoutFirst(a: seq<int>)
    requires a != []
    ensures multiset(a[1..]) == multiset(a) - multiset{a[0]}
  {
    assert a == [a[0]] + a[1..];
  }

  lemma SameFirst(a: seq<int>, b: seq<int>)
    requires Sorted(a) && Sorted(b) && multiset(a) == multiset(b) && a != [] && b != []
    ensures a[0] == b[0]
  {
    assert a[0] in multiset(b) && b[0] in multiset(a);
    assert a[0] in b && b[0] in a;
  }

  /** Any sorted arrangement of the same numbers is that one, whatever algorithm found it. */
  lemma {:induction false} SortedUnique(a: seq<int>, b: seq<int>)
    requires Sorted(a) && Sorted(b) && multiset(a) == multiset(b)
    ensures a == b
    decreases |a|
  {
    SameLength(a, b);
    if a != [] {
      SameFirst(a, b);
      WithoutFirst(a);
      WithoutFirst(b);
      SortedUnique(a[1..], b[1..]);
      assert a == [a[0]] + a[1..] && b == [b[0]] + b[1..];
    }
  }

  // ---------------------------------------------------------------- parse_forced_key_frames

  /** av_realloc_f: the old contents as far as both sizes reach. */
  method Realloc(a: array<int>, n: nat, ghost keep: nat) returns (r: array<int>)
    requires keep <= a.Length && keep <= n
    ensures fresh(r) && r.Length == n && r[..keep] == a[..keep]
  {
    r := new int[n](i requires 0 <= i reads a => if i < a.Length then a[i] else 0);
    assert r[..keep] == a[..keep];
  }

  /** Append the chapters of one entry. */
  method AddChapters(pts: array<int>, index: nat, starts: seq<int>, t: int) returns (index': nat)
    requires index + |starts| <= pts.Length
    modifies pts
    ensures index' == index + |starts| && pts[..index'] == old(pts[..index]) + Shifted(starts, t)
  {
    index' := index;
    for j := 0 to |starts|
      invariant index' == index + j && index' <= pts.Length
      invariant pts[..index'] == old(pts[..index]) + Shifted(starts, t)[..j]
    {
      pts[index'] := starts[j] + t;
      index' := index' + 1;
      assert pts[..index'] == pts[..index + j] + [starts[j] + t];
    }
  }

  /** The first pass: one more than the commas. */
  method CountEntries(kf: string) returns (n: nat)
    ensures n == |Entries(kf)|
  {
    EntriesCounted(kf);
    n := 1;
    for i := 0 to |kf|
      invariant n == 1 + Commas(kf) - Commas(kf[i..])
    {
      assert kf[i..][1..] == kf[i + 1..];
      if kf[i] == ',' {
        n := n + 1;
      }
    }
  }

  /** One entry: resize for chapters, append. `room` entries are still to come after it. */
  method AddEntry(env: Env, pts: array<int>, index: nat, e: string, ghost room: nat)
    returns (pts': array<int>, index': nat)
    requires index + 1 + room == pts.Length
    modifies pts
    ensures pts' == pts || fresh(pts')
    ensures index' + room == pts'.Length && pts'[..index'] == old(pts[..index]) + Times(env, e)
  {
    if IsChapters(e) {
      pts' := Realloc(pts, pts.Length + |env.chapters| - 1, index);
      var t := if |e| > |CHAPTERS| then env.time(e[|CHAPTERS|..]) else 0;
      index' := AddChapters(pts', index, env.chapters, t);
    } else {
      assert index < pts.Length;
      pts' := pts;
      pts'[index] := env.time(e);
      index' := index + 1;
    }
  }

  lemma {:induction false} NextEntry(p: string, seen: seq<string>)
    ensures var n := |First(p)|; n <= |p| && First(p) == p[..n]
    ensures var n := |First(p)|;
      seen + Entries(p) == (seen + [First(p)]) + (if n < |p| then Entries(p[n + 1..]) else [])
  {
    FirstIsPrefix(p);
  }

  /** strchr(p, ','), as an offset; the length when there is none. */
  method Strchr(p: string) returns (i: nat)
    ensures i == |First(p)|
  {
    FirstIsPrefix(p);
    i := 0;
    while i < |p| && p[i] != ','
      invariant i <= |First(p)|
    {
      i := i + 1;
    }
  }

  /**
   The array is exactly full at the end (the assertions inside and after the loop hold), and
   holds every time asked for, in order.
   */
  method ParseForcedKeyFrames(env: Env, kf: string) returns (forcedKfPts: seq<int>, forcedKfCount: nat)
    ensures forcedKfPts == Sort(AllTimes(env, Entries(kf)))
    ensures forcedKfCount == |forcedKfPts| && Sorted(forcedKfPts)
    ensures multiset(forcedKfPts) == multiset(AllTimes(env, Entries(kf)))
  {
    var n := CountEntries(kf);
    var index, p := 0, kf;
    var pts := new int[n];
    ghost var seen: seq<string> := [];
    for i := 0 to n
      invariant fresh(pts) && 0 <= index && index + (n - i) == pts.Length
      invariant |seen| == i && seen + (if i < n then Entries(p) else []) == Entries(kf)
      invariant pts[..index] == AllTimes(env, seen)
    {
      NextEntry(p, seen);
      EntriesCounted(p);
      var next := Strchr(p);
      var e := p[..next];
      AllTimesSnoc(env, seen, e);
      pts, index := AddEntry(env, pts, index, e, n - i - 1);
      seen := seen + [e];
      p := if next < |p| then p[next + 1..] else "";
    }
    assert seen == Entries(kf);
    assert index == pts.Length && pts[..index] == pts[..];
    SortSorts(pts[..]);
    return Sort(pts[..]), pts.Length;
  }
}
