/** Baseline learning for the anomaly checks (app/anomaly-checks/src/baseline.ts, detectors.ts, config.ts). Metrics and
    thresholds are exact numbers. */
module Baseline {
  import opened Wrappers

  datatype Kind = Confidence | Volume | Contradiction | Scope | Sentiment

  const KINDS: seq<Kind> := [Confidence, Volume, Contradiction, Scope, Sentiment]

  datatype Comparator = AtMost | AtLeast

  datatype Threshold = Threshold(bar: real, comparator: Comparator, hard: bool)

  datatype Thresholds = Thresholds(of: map<Kind, Threshold>, learning: bool)

  /** A threshold for every kind. */
  predicate Complete(c: Thresholds) { forall kind: Kind :: kind in c.of }

  // ---------------------------------------------------------------- nearest rank

  function Insert(x: real, sorted: seq<real>): seq<real> {
    if |sorted| == 0 || x <= sorted[0] then [x] + sorted else [sorted[0]] + Insert(x, sorted[1..])
  }

  function Sort(samples: seq<real>): (sorted: seq<real>)
    ensures |sorted| == |samples|
  {
    if |samples| == 0 then [] else InsertLength(samples[0], Sort(samples[1..])); Insert(samples[0], Sort(samples[1..]))
  }

  lemma {:induction false} InsertLength(x: real, sorted: seq<real>)
    ensures |Insert(x, sorted)| == |sorted| + 1
  {
    if |sorted| > 0 && x > sorted[0] { InsertLength(x, sorted[1..]); }
  }

  function Min(a: nat, b: nat): nat { if a <= b then a else b }

  function Max(a: nat, b: nat): nat { if a >= b then a else b }

  /** The rank of the 5th percentile for confidence, of the 95th for the rest, rounded up and kept in 1..n. */
  function Rank(kind: Kind, n: nat): (rank: nat)
    requires n > 0
    ensures 1 <= rank <= n
  {
    Min(n, Max(1, if kind == Confidence then (n + 19) / 20 else (19 * n + 19) / 20))
  }

  lemma RankBounds(kind: Kind, n: nat)
    requires n > 0
    ensures var rank := Rank(kind, n);
      && (kind == Confidence ==> 20 * (rank - 1) < n <= 20 * rank)
      && (kind != Confidence ==> 20 * (n - rank) <= n < 20 * (n - (rank - 1)))
  {
  }

  function ComputeBaseline(kind: Kind, samples: seq<real>): Option<real> {
    if |samples| == 0 then None else Some(Sort(samples)[Rank(kind, |samples|) - 1])
  }

  function CountAbove(samples: seq<real>, x: real): nat {
    if |samples| == 0 then 0 else (if samples[0] > x then 1 else 0) + CountAbove(samples[1..], x)
  }

  function CountBelow(samples: seq<real>, x: real): nat {
    if |samples| == 0 then 0 else (if samples[0] < x then 1 else 0) + CountBelow(samples[1..], x)
  }

  ghost predicate Ordered(s: seq<real>) { forall i, j :: 0 <= i <= j < |s| ==> s[i] <= s[j] }

  lemma {:induction false} InsertSorts(x: real, s: seq<real>)
    requires Ordered(s)
    ensures Ordered(Insert(x, s)) && (forall y :: y in Insert(x, s) <==> y == x || y in s)
    ensures forall b :: CountAbove(Insert(x, s), b) == CountAbove([x] + s, b) && CountBelow(Insert(x, s), b) == CountBelow([x] + s, b)
  {
    if |s| > 0 && x > s[0] {
      InsertSorts(x, s[1..]);
      var rest := Insert(x, s[1..]);
      assert Insert(x, s) == [s[0]] + rest;
      assert s == [s[0]] + s[1..];
      forall b ensures CountAbove([s[0]] + rest, b) == CountAbove([x] + s, b) && CountBelow([s[0]] + rest, b) == CountBelow([x] + s, b) {
        assert ([s[0]] + rest)[1..] == rest && ([x] + s)[1..] == s && ([x] + s[1..])[1..] == s[1..];
      }
      hide Insert, CountAbove, CountBelow;
      forall i, j | 0 <= i <= j < |[s[0]] + rest| ensures ([s[0]] + rest)[i] <= ([s[0]] + rest)[j] {
        if i == 0 && j > 0 { assert rest[j - 1] in rest; }
      }
    } else {
      hide CountAbove, CountBelow;
      assert |s| > 0 ==> s[0] in s;
    }
  }

  lemma {:induction false} SortSorts(s: seq<real>)
    ensures Ordered(Sort(s)) && (forall y :: y in Sort(s) <==> y in s)
    ensures forall b :: CountAbove(Sort(s), b) == CountAbove(s, b) && CountBelow(Sort(s), b) == CountBelow(s, b)
  {
    if |s| > 0 {
      SortSorts(s[1..]);
      InsertSorts(s[0], Sort(s[1..]));
      assert s == [s[0]] + s[1..];
      assert ([s[0]] + Sort(s[1..]))[1..] == Sort(s[1..]);
      hide Ordered, Insert;
    }
  }

  /** In a sorted list, what lies strictly above or below an element. */
  lemma {:induction false} CountSorted(s: seq<real>, x: real, n: nat)
    requires Ordered(s) && n <= |s|
    ensures (forall i :: 0 <= i < n ==> s[i] <= x) ==> CountAbove(s, x) <= |s| - n
    ensures (forall i :: n <= i < |s| ==> s[i] > x) ==> CountAbove(s, x) >= |s| - n
    ensures (forall i :: n <= i < |s| ==> s[i] >= x) ==> CountBelow(s, x) <= n
    ensures (forall i :: 0 <= i < n ==> s[i] < x) ==> CountBelow(s, x) >= n
  {
    if |s| > 0 {
      var t := s[1..];
      if n > 0 {
        CountSorted(t, x, n - 1);
        assert forall i :: 0 <= i < n - 1 ==> t[i] == s[i + 1];
        assert forall i :: n - 1 <= i < |t| ==> t[i] == s[i + 1];
      } else {
        CountSorted(t, x, 0);
        assert forall i :: 0 <= i < |t| ==> t[i] == s[i + 1];
      }
    }
  }

  /** The value is acceptable as a high baseline: at most one sample in twenty lies strictly above it. */
  predicate HighEnough(samples: seq<real>, x: real) { 20 * CountAbove(samples, x) <= |samples| }

  /** The value is acceptable as a low baseline: fewer than one sample in twenty lie strictly below it. */
  predicate LowEnough(samples: seq<real>, x: real) { 20 * CountBelow(samples, x) < |samples| }

  lemma RankCounts(s: seq<real>, rank: nat)
    requires Ordered(s) && 1 <= rank <= |s|
    ensures CountAbove(s, s[rank - 1]) <= |s| - rank && CountBelow(s, s[rank - 1]) <= rank - 1
    ensures forall x :: x < s[rank - 1] ==> CountAbove(s, x) >= |s| - (rank - 1)
    ensures forall x :: x > s[rank - 1] ==> CountBelow(s, x) >= rank
  {
    hide CountAbove, CountBelow;
    CountSorted(s, s[rank - 1], rank);
    CountSorted(s, s[rank - 1], rank - 1);
    forall x | x < s[rank - 1] ensures CountAbove(s, x) >= |s| - (rank - 1) { CountSorted(s, x, rank - 1); }
    forall x | x > s[rank - 1] ensures CountBelow(s, x) >= rank { CountSorted(s, x, rank); }
  }

  /** THE BASELINE IS EXACT. It is a sample: for confidence the greatest one with fewer than 5% of the samples strictly
      below it, otherwise the least one with at most 5% strictly above it. */
  lemma BaselineExact(kind: Kind, samples: seq<real>)
    requires |samples| > 0
    ensures var b := ComputeBaseline(kind, samples).value;
      && b in samples
      && (kind != Confidence ==> HighEnough(samples, b) && forall x :: x in samples && HighEnough(samples, x) ==> b <= x)
      && (kind == Confidence ==> LowEnough(samples, b) && forall x :: x in samples && LowEnough(samples, x) ==> x <= b)
  {
    var s, n := Sort(samples), |samples|;
    var rank := Rank(kind, n);
    var b := s[rank - 1];
    SortSorts(samples);
    assert b in s;
    RankBounds(kind, n);
    hide Sort, CountAbove, CountBelow, Rank;
    RankCounts(s, rank);
    hide Ordered;
  }

  /** HOW OFTEN HISTORY WOULD HAVE FIRED. A check fires at its bar too, so more than 5% of the samples (for confidence, at
      least 5%) reach the baseline computed from them, and all of them when they are all equal. */
  lemma HistoryReachesBaseline(kind: Kind, samples: seq<real>)
    requires |samples| > 0
    ensures var b := ComputeBaseline(kind, samples).value;
      && (kind != Confidence ==> 20 * (|samples| - CountBelow(samples, b)) > |samples|)
      && (kind == Confidence ==> 20 * (|samples| - CountAbove(samples, b)) >= |samples|)
  {
    var s, n := Sort(samples), |samples|;
    SortSorts(samples);
    RankBounds(kind, n);
    hide Sort, CountAbove, CountBelow, Rank;
    RankCounts(s, Rank(kind, n));
    hide Ordered;
  }

  /** ORDER DOES NOT MATTER: the same samples in any order give the same baseline. */
  lemma BaselineIgnoresOrder(kind: Kind, a: seq<real>, b: seq<real>)
    requires multiset(a) == multiset(b)
    ensures ComputeBaseline(kind, a) == ComputeBaseline(kind, b)
  {
    SameMembers(a, b);
    forall x ensures CountAbove(a, x) == CountAbove(b, x) && CountBelow(a, x) == CountBelow(b, x) { SameCounts(a, b, x); }
    hide CountAbove, CountBelow;
    if |a| > 0 {
      BaselineExact(kind, a);
      BaselineExact(kind, b);
      hide ComputeBaseline;
    }
  }

  lemma SameMembers(a: seq<real>, b: seq<real>)
    requires multiset(a) == multiset(b)
    ensures |a| == |b| && forall x :: x in a <==> x in b
  {
    assert |a| == |multiset(a)| && |b| == |multiset(b)|;
    assert forall x :: x in a <==> x in multiset(a);
    assert forall x :: x in b <==> x in multiset(b);
  }

  lemma {:induction false} SameCounts(a: seq<real>, b: seq<real>, x: real)
    requires multiset(a) == multiset(b)
    ensures CountAbove(a, x) == CountAbove(b, x) && CountBelow(a, x) == CountBelow(b, x)
  {
    if |a| == 0 {
      assert |b| == |multiset(b)| == 0;
    } else {
      assert a[0] in multiset(b);
      var i :| 0 <= i < |b| && b[i] == a[0];
      var rest := b[..i] + b[i + 1..];
      WithoutOne(a, b, i);
      SameCounts(a[1..], rest, x);
      CountWithout(b, i, x);
    }
  }

  lemma WithoutOne(a: seq<real>, b: seq<real>, i: nat)
    requires multiset(a) == multiset(b) && |a| > 0 && i < |b| && b[i] == a[0]
    ensures multiset(a[1..]) == multiset(b[..i] + b[i + 1..])
  {
    assert a == [a[0]] + a[1..] && b == b[..i] + [b[i]] + b[i + 1..];
    assert multiset(a[1..]) == multiset(a) - multiset{a[0]};
    assert multiset(b[..i] + b[i + 1..]) == multiset(b) - multiset{b[i]};
  }

  lemma {:induction false} CountWithout(b: seq<real>, i: nat, x: real)
    requires i < |b|
    ensures CountAbove(b, x) == CountAbove(b[..i] + b[i + 1..], x) + if b[i] > x then 1 else 0
    ensures CountBelow(b, x) == CountBelow(b[..i] + b[i + 1..], x) + if b[i] < x then 1 else 0
  {
    if i == 0 {
      assert b[..0] + b[1..] == b[1..];
    } else {
      CountWithout(b[1..], i - 1, x);
      assert (b[..i] + b[i + 1..])[1..] == b[1..][..i - 1] + b[1..][i..];
    }
  }

  // ---------------------------------------------------------------- the detectors

  datatype Observation = Observation(confidence: real, actions: real, conflicts: nat, scope: real, sentiment: real)

  function Metric(kind: Kind, obs: Observation): real {
    match kind
    case Confidence => obs.confidence
    case Volume => obs.actions
    case Contradiction => obs.conflicts as real
    case Scope => obs.scope
    case Sentiment => obs.sentiment
  }

  predicate Fires(metric: real, t: Threshold) { if t.comparator == AtMost then metric <= t.bar else metric >= t.bar }

  datatype Flag = Flag(kind: Kind, metric: real, bar: real, live: bool)

  function Check(kind: Kind, obs: Observation, t: Threshold): Option<Flag> {
    if Fires(Metric(kind, obs), t) then Some(Flag(kind, Metric(kind, obs), t.bar, kind == Contradiction)) else None
  }

  /** The kinds that fire on an observation. */
  function Firing(obs: Observation, c: Thresholds): set<Kind>
    requires Complete(c)
  {
    set kind: Kind | kind in KINDS && Fires(Metric(kind, obs), c.of[kind])
  }

  function FlagKinds(flags: seq<Flag>): set<Kind> { set f | f in flags :: f.kind }

  predicate FlagOf(f: Flag, obs: Observation, c: Thresholds)
    requires Complete(c)
  {
    Check(f.kind, obs, c.of[f.kind]) == Some(f)
  }

  function Checked(kind: Kind, obs: Observation, c: Thresholds): seq<Flag>
    requires Complete(c)
  {
    var flag := Check(kind, obs, c.of[kind]);
    if flag.Some? then [flag.value] else []
  }

  /** What the checks of the first n kinds give, in the fixed order. */
  function CheckedUpTo(obs: Observation, c: Thresholds, n: nat): seq<Flag>
    requires Complete(c) && n <= |KINDS|
  {
    if n == 0 then [] else CheckedUpTo(obs, c, n - 1) + Checked(KINDS[n - 1], obs, c)
  }

  function AllChecked(obs: Observation, c: Thresholds): seq<Flag>
    requires Complete(c)
  {
    CheckedUpTo(obs, c, |KINDS|)
  }

  method RunAllDetectors(obs: Observation, c: Thresholds) returns (flags: seq<Flag>)
    requires Complete(c)
    ensures flags == AllChecked(obs, c)
  {
    hide Check;
    flags := [];
    var confidence := Check(Confidence, obs, c.of[Confidence]);
    if confidence.Some? { flags := flags + [confidence.value]; }
    assert flags == CheckedUpTo(obs, c, 1);
    var volume := Check(Volume, obs, c.of[Volume]);
    if volume.Some? { flags := flags + [volume.value]; }
    assert flags == CheckedUpTo(obs, c, 2);
    var contradiction := Check(Contradiction, obs, c.of[Contradiction]);
    if contradiction.Some? { flags := flags + [contradiction.value]; }
    assert flags == CheckedUpTo(obs, c, 3);
    var scope := Check(Scope, obs, c.of[Scope]);
    if scope.Some? { flags := flags + [scope.value]; }
    assert flags == CheckedUpTo(obs, c, 4);
    var sentiment := Check(Sentiment, obs, c.of[Sentiment]);
    if sentiment.Some? { flags := flags + [sentiment.value]; }
    assert flags == CheckedUpTo(obs, c, 5);
  }

  /** The flags are exactly those that fire of the kinds before place n, one each, in the fixed order. */
  ghost predicate InOrder(flags: seq<Flag>, obs: Observation, c: Thresholds, n: nat)
    requires Complete(c)
  {
    && (forall f :: f in flags <==> FlagOf(f, obs, c) && Place(f.kind) < n)
    && (forall i, j :: 0 <= i < j < |flags| ==> Place(flags[i].kind) < Place(flags[j].kind))
  }

  lemma CheckNext(flags: seq<Flag>, obs: Observation, c: Thresholds, kind: Kind)
    requires Complete(c) && InOrder(flags, obs, c, Place(kind))
    ensures InOrder(flags + Checked(kind, obs, c), obs, c, Place(kind) + 1)
  {
    var one := Checked(kind, obs, c);
    assert forall f :: f in one <==> FlagOf(f, obs, c) && f.kind == kind;
    assert forall k: Kind :: Place(k) == Place(kind) <==> k == kind;
    hide FlagOf, Checked, Place;
  }

  /** EVERY FLAG THAT FIRED, once each, in the fixed order. */
  lemma FlagsExact(obs: Observation, c: Thresholds)
    requires Complete(c)
    ensures InOrder(AllChecked(obs, c), obs, c, |KINDS|)
    ensures FlagKinds(AllChecked(obs, c)) == Firing(obs, c)
  {
    UpToInOrder(obs, c, |KINDS|);
    KindsFire(obs, c);
  }

  lemma {:induction false} UpToInOrder(obs: Observation, c: Thresholds, n: nat)
    requires Complete(c) && n <= |KINDS|
    ensures InOrder(CheckedUpTo(obs, c, n), obs, c, n)
  {
    if n > 0 {
      UpToInOrder(obs, c, n - 1);
      assert Place(KINDS[n - 1]) == n - 1;
      CheckNext(CheckedUpTo(obs, c, n - 1), obs, c, KINDS[n - 1]);
      hide InOrder, Checked;
    }
  }

  lemma KindsFire(obs: Observation, c: Thresholds)
    requires Complete(c) && InOrder(AllChecked(obs, c), obs, c, |KINDS|)
    ensures FlagKinds(AllChecked(obs, c)) == Firing(obs, c)
  {
    hide AllChecked;
    forall kind: Kind ensures kind in FlagKinds(AllChecked(obs, c)) <==> kind in Firing(obs, c) {
      if kind in Firing(obs, c) {
        assert Check(kind, obs, c.of[kind]).value in AllChecked(obs, c);
      }
    }
  }

  function Place(kind: Kind): nat {
    match kind
    case Confidence => 0
    case Volume => 1
    case Contradiction => 2
    case Scope => 3
    case Sentiment => 4
  }
}
