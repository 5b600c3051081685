/** What the comparisons of `Joins` are, as a relation between experiments and with how often each is reported. */
module JoinLaws {
  import opened Text
  import opened Joins

  // ---------------------------------------------------------------- the relational join

  /** The sides stand in the order the comparison names them in. */
  predicate Ordered(side: Side, x: string, y: string) {
    if side == Protocols then x == "grpc" && y == "http" else Less(x, y)
  }

  predicate SameGroup(side: Side, a: Experiment, b: Experiment) {
    a.model == b.model && Middle(side, a) == Middle(side, b) && a.workerType == b.workerType
  }

  function Alike(e: Experiment): Experiment -> bool {
    (f: Experiment) => f.model == e.model && f.protocol == e.protocol && f.runtime == e.runtime
        && f.workerType == e.workerType
  }

  /** `e` is the last experiment with its model, protocol, runtime and worker type. */
  ghost predicate Recorded(exps: seq<Experiment>, e: Experiment) {
    IsLast(exps, |exps|, Alike(e), e)
  }

  /** The join, stated without keys, dictionaries or order of iteration. */
  ghost predicate Joined(side: Side, exps: seq<Experiment>, m: Match) {
    && Recorded(exps, m.a) && Recorded(exps, m.b)
    && SameGroup(side, m.a, m.b) && Ordered(side, Label(side, m.a), Label(side, m.b))
    && m.runA in m.a.runs && Comparable(m.runA, m.runB, m.b.runs)
  }

  /** Different groups have different keys. */
  ghost predicate KeysFaithful(side: Side, exps: seq<Experiment>) {
    forall a, b :: a in exps && b in exps && Key(side, a) == Key(side, b) ==> SameGroup(side, a, b)
  }

  /** Two error-free runs of one setup, the second the last of its setup. */
  ghost predicate Comparable(x: Run, y: Run, runs: seq<Run>) {
    x.errorRate == 0.0 && y.errorRate == 0.0 && IsLast(runs, |runs|, Setup(x.scenario, x.concurrency), y)
  }

  lemma PartnerIff(x: Run, runs: seq<Run>, y: Run)
    ensures Partner(x, runs) == Some(y) <==> Comparable(x, y, runs)
  {
    LastWhereIff(runs, |runs|, Setup(x.scenario, x.concurrency), y);
  }

  // ---------------------------------------------------------------- counting what is reported

  /** How often `m` occurs. */
  ghost function Count<T>(s: seq<T>, m: T): nat {
    if s == [] then 0 else Count(s[..|s| - 1], m) + if s[|s| - 1] == m then 1 else 0
  }

  lemma {:induction false} CountSum<T>(a: seq<T>, b: seq<T>, m: T)
    ensures Count(a + b, m) == Count(a, m) + Count(b, m)
  {
    if b == [] {
      assert a + b == a;
    } else {
      assert (a + b)[..|a + b| - 1] == a + b[..|b| - 1];
      CountSum(a, b[..|b| - 1], m);
    }
  }

  lemma CountOne<T>(x: T, m: T)
    ensures Count([x], m) == if x == m then 1 else 0
  {
    assert [x][..0] == [];
  }

  lemma {:induction false} CountNone<T>(s: seq<T>, m: T)
    ensures Count(s, m) == 0 <==> m !in s
  {
    if s == [] {
    } else {
      CountNone(s[..|s| - 1], m);
      assert s == s[..|s| - 1] + [s[|s| - 1]];
    }
  }

  function LastMatch(a: Experiment, b: Experiment, x: Run): seq<Match> {
    var y := Partner(x, b.runs);
    if y.Some? then [Match(a, b, x, y.value)] else []
  }

  lemma LastMatchCount(a: Experiment, b: Experiment, x: Run, m: Match)
    ensures Count(LastMatch(a, b, x), m)
            == if m.a == a && m.b == b && Comparable(m.runA, m.runB, b.runs) && x == m.runA then 1 else 0
  {
    PartnerIff(x, b.runs, m.runB);
    var y := Partner(x, b.runs);
    if y.Some? {
      CountOne(Match(a, b, x, y.value), m);
    }
  }

  lemma CountNext<T>(s: seq<T>, n: nat, m: T)
    requires n < |s|
    ensures Count(s[..n + 1], m) == Count(s[..n], m) + if s[n] == m then 1 else 0
  {
    assert s[..n + 1][..n] == s[..n];
  }

  lemma MatchesNext(a: Experiment, b: Experiment, n: nat, m: Match)
    requires n < |a.runs|
    ensures Count(Matches(a, b, n + 1), m) == Count(Matches(a, b, n), m) + Count(LastMatch(a, b, a.runs[n]), m)
  {
    assert Matches(a, b, n + 1) == Matches(a, b, n) + LastMatch(a, b, a.runs[n]);
    CountSum(Matches(a, b, n), LastMatch(a, b, a.runs[n]), m);
  }

  /** Each run is reported as often as it occurs in the first experiment, with its partner in the second. */
  lemma {:induction false} MatchesCount(a: Experiment, b: Experiment, n: nat, m: Match)
    requires n <= |a.runs|
    ensures Count(Matches(a, b, n), m)
            == if m.a == a && m.b == b && Comparable(m.runA, m.runB, b.runs) then Count(a.runs[..n], m.runA) else 0
  {
    if n == 0 {
    } else {
      MatchesCount(a, b, n - 1, m);
      MatchesNext(a, b, n - 1, m);
      LastMatchCount(a, b, a.runs[n - 1], m);
      CountNext(a.runs, n - 1, m.runA);
    }
  }

  /** The two sides of a match, as found under two names of a key. */
  ghost predicate Sides(side: Side, exps: seq<Experiment>, key: string, x: string, y: string, m: Match) {
    && IsLast(exps, |exps|, Cell(side, key, x), m.a) && IsLast(exps, |exps|, Cell(side, key, y), m.b)
    && Comparable(m.runA, m.runB, m.b.runs)
  }

  lemma BetweenCount(side: Side, exps: seq<Experiment>, key: string, x: string, y: string, m: Match)
    ensures Count(Between(side, exps, key, x, y), m)
            == if Sides(side, exps, key, x, y, m) then Count(m.a.runs, m.runA) else 0
  {
    LastWhereIff(exps, |exps|, Cell(side, key, x), m.a);
    LastWhereIff(exps, |exps|, Cell(side, key, y), m.b);
    var a, b := LastWhere(exps, |exps|, Cell(side, key, x)), LastWhere(exps, |exps|, Cell(side, key, y));
    if a.Some? && b.Some? {
      MatchesCount(a.value, b.value, |a.value.runs|, m);
      assert a.value.runs[..|a.value.runs|] == a.value.runs;
    }
  }

  /** `f` gives `m` for no other pair than `x` and `y`. */
  ghost predicate OnlyAt<T>(f: (string, string) -> seq<T>, m: T, x: string, y: string) {
    forall u, v :: (u != x || v != y) ==> Count(f(u, v), m) == 0
  }

  ghost predicate Distinct(names: seq<string>) {
    forall i, j :: 0 <= i < j < |names| ==> names[i] != names[j]
  }

  lemma {:induction false} RowCount<T>(names: seq<string>, i: nat, n: nat, f: (string, string) -> seq<T>, m: T,
                                       x: string, y: string)
    requires i < n <= |names| && Distinct(names) && OnlyAt(f, m, x, y)
    ensures Count(Row(names, i, n, f), m) == if names[i] == x && y in names[i + 1..n] then Count(f(x, y), m) else 0
    decreases n
  {
    if n == i + 1 {
    } else {
      RowCount(names, i, n - 1, f, m, x, y);
      CountSum(Row(names, i, n - 1, f), f(names[i], names[n - 1]), m);
      assert names[i + 1..n] == names[i + 1..n - 1] + [names[n - 1]];
      assert forall k :: i + 1 <= k < n - 1 ==> names[k] == names[i + 1..n - 1][k - i - 1];
    }
  }

  lemma FullRowCount<T>(names: seq<string>, i: nat, f: (string, string) -> seq<T>, m: T, x: string, y: string)
    requires i < |names| && Distinct(names) && OnlyAt(f, m, x, y)
    ensures Count(Row(names, i, |names|, f), m) == if names[i] == x && y in names[i + 1..] then Count(f(x, y), m) else 0
  {
    RowCount(names, i, |names|, f, m, x, y);
    assert names[i + 1..|names|] == names[i + 1..];
  }

  /** A pair of names in this order, the first among the first `n`. */
  ghost predicate PairIn(names: seq<string>, n: nat, x: string, y: string) {
    exists p :: 0 <= p < n && p < |names| && names[p] == x && y in names[p + 1..]
  }

  lemma PairInNext(names: seq<string>, n: nat, x: string, y: string)
    requires n < |names| && Distinct(names)
    ensures PairIn(names, n + 1, x, y) <==> PairIn(names, n, x, y) || (names[n] == x && y in names[n + 1..])
    ensures names[n] == x ==> !PairIn(names, n, x, y)
  {
    if PairIn(names, n, x, y) {
      var p :| 0 <= p < n && p < |names| && names[p] == x && y in names[p + 1..];
    }
  }

  lemma {:induction false} RowsCount<T>(names: seq<string>, n: nat, f: (string, string) -> seq<T>, m: T, x: string,
                                        y: string)
    requires n <= |names| && Distinct(names) && OnlyAt(f, m, x, y)
    ensures Count(Rows(names, n, f), m) == if PairIn(names, n, x, y) then Count(f(x, y), m) else 0
  {
    if n == 0 {
    } else {
      RowsCount(names, n - 1, f, m, x, y);
      RowsCountNext(names, n - 1, f, m, x, y);
    }
  }

  lemma RowsCountNext<T>(names: seq<string>, p: nat, f: (string, string) -> seq<T>, m: T, x: string, y: string)
    requires p < |names| && Distinct(names) && OnlyAt(f, m, x, y)
    requires Count(Rows(names, p, f), m) == if PairIn(names, p, x, y) then Count(f(x, y), m) else 0
    ensures Count(Rows(names, p + 1, f), m) == if PairIn(names, p + 1, x, y) then Count(f(x, y), m) else 0
  {
    var rows, row := Rows(names, p, f), Row(names, p, |names|, f);
    assert Rows(names, p + 1, f) == rows + row;
    CountSum(rows, row, m);
    FullRowCount(names, p, f, m, x, y);
    PairInNext(names, p, x, y);
  }

  lemma {:induction false} GatherCount<T>(keys: seq<string>, n: nat, f: string -> seq<T>, m: T, key: string)
    requires n <= |keys| && Distinct(keys) && forall k :: k != key ==> Count(f(k), m) == 0
    ensures Count(Gather(keys, n, f), m) == if key in keys[..n] then Count(f(key), m) else 0
  {
    if n == 0 {
    } else {
      GatherCount(keys, n - 1, f, m, key);
      CountSum(Gather(keys, n - 1, f), f(keys[n - 1]), m);
      assert keys[..n] == keys[..n - 1] + [keys[n - 1]];
      assert keys[n - 1] !in keys[..n - 1];
    }
  }

  lemma {:induction false} KeysDistinct(side: Side, exps: seq<Experiment>, n: nat)
    requires n <= |exps|
    ensures Distinct(Keys(side, exps, n))
  {
    if n == 0 {
    } else {
      KeysDistinct(side, exps, n - 1);
    }
  }

  lemma OrderedPair(names: set<string>, x: string, y: string) returns (p: nat, q: nat)
    requires x in names && y in names && Less(x, y)
    ensures p < q < |Sorted(names)| && Sorted(names)[p] == x && Sorted(names)[q] == y
  {
    SortedNames(names);
    p :| 0 <= p < |Sorted(names)| && Sorted(names)[p] == x;
    q :| 0 <= q < |Sorted(names)| && Sorted(names)[q] == y;
    LessTotal(x, y);
    LessTotal(x, x);
  }

  lemma {:induction false} KeysIff(side: Side, exps: seq<Experiment>, n: nat, k: string)
    requires n <= |exps|
    ensures k in Keys(side, exps, n) <==> exists i :: 0 <= i < n && Key(side, exps[i]) == k
  {
    if n == 0 {
    } else {
      KeysIff(side, exps, n - 1, k);
    }
  }

  lemma PairInSorted(names: set<string>, x: string, y: string)
    ensures PairIn(Sorted(names), |Sorted(names)|, x, y) <==> x in names && y in names && Less(x, y)
    ensures Distinct(Sorted(names))
  {
    var s := Sorted(names);
    SortedNames(names);
    forall i, j | 0 <= i < j < |s|
      ensures s[i] != s[j]
    {
      LessTotal(s[i], s[j]);
    }
    if x in names && y in names && Less(x, y) {
      var p, q := OrderedPair(names, x, y);
      assert s[p + 1..][q - p - 1] == y;
    }
  }

  lemma SidesNamed(side: Side, exps: seq<Experiment>, key: string, x: string, y: string, m: Match)
    requires Sides(side, exps, key, x, y, m)
    ensures Label(side, m.a) == x && Label(side, m.b) == y && Key(side, m.a) == key && Key(side, m.b) == key
    ensures m.a in exps && m.b in exps
  {
  }

  lemma RuntimesCount(exps: seq<Experiment>, key: string, m: Match)
    ensures Count(InGroup(Runtimes, exps)(key), m)
            == if Less(m.a.runtime, m.b.runtime) && Sides(Runtimes, exps, key, m.a.runtime, m.b.runtime, m)
               then Count(m.a.runs, m.runA) else 0
  {
    var names, f := Names(Runtimes, exps, key), Pairing(Runtimes, exps, key);
    forall u, v | u != m.a.runtime || v != m.b.runtime
      ensures Count(f(u, v), m) == 0
    {
      BetweenCount(Runtimes, exps, key, u, v, m);
    }
    PairInSorted(names, m.a.runtime, m.b.runtime);
    RowsCount(Sorted(names), |Sorted(names)|, f, m, m.a.runtime, m.b.runtime);
    BetweenCount(Runtimes, exps, key, m.a.runtime, m.b.runtime, m);
    if Sides(Runtimes, exps, key, m.a.runtime, m.b.runtime, m) {
      SidesNamed(Runtimes, exps, key, m.a.runtime, m.b.runtime, m);
      assert m.a.runtime in names && m.b.runtime in names;
    }
  }

  lemma InGroupCount(side: Side, exps: seq<Experiment>, key: string, m: Match)
    ensures Count(InGroup(side, exps)(key), m)
            == if Ordered(side, Label(side, m.a), Label(side, m.b))
                  && Sides(side, exps, key, Label(side, m.a), Label(side, m.b), m)
               then Count(m.a.runs, m.runA) else 0
  {
    if side == Protocols {
      BetweenCount(side, exps, key, "grpc", "http", m);
    } else {
      RuntimesCount(exps, key, m);
    }
  }

  /** The join as the keys see it: experiments meet when their keys are the same text. */
  ghost predicate JoinedByKey(side: Side, exps: seq<Experiment>, m: Match) {
    && IsLast(exps, |exps|, Cell(side, Key(side, m.a), Label(side, m.a)), m.a)
    && IsLast(exps, |exps|, Cell(side, Key(side, m.b), Label(side, m.b)), m.b)
    && Key(side, m.a) == Key(side, m.b) && Ordered(side, Label(side, m.a), Label(side, m.b))
    && m.runA in m.a.runs && Comparable(m.runA, m.runB, m.b.runs)
  }

  /**
   * What is reported, for every list of experiments: a match of two last experiments that share a key, as often as
   * its run occurs in the first of them.
   */
  lemma ComparisonsCount(side: Side, exps: seq<Experiment>, m: Match)
    ensures Count(Comparisons(side, exps), m) == if JoinedByKey(side, exps, m) then Count(m.a.runs, m.runA) else 0
  {
    var keys, key := Keys(side, exps, |exps|), Key(side, m.a);
    var x, y := Label(side, m.a), Label(side, m.b);
    forall k | k != key
      ensures Count(InGroup(side, exps)(k), m) == 0
    {
      InGroupCount(side, exps, k, m);
    }
    KeysDistinct(side, exps, |exps|);
    GatherCount(keys, |keys|, InGroup(side, exps), m, key);
    InGroupCount(side, exps, key, m);
    KeysIff(side, exps, |exps|, key);
    assert keys[..|keys|] == keys;
    CountNone(m.a.runs, m.runA);
    if Sides(side, exps, key, x, y, m) {
      SidesNamed(side, exps, key, x, y, m);
    }
  }

  lemma ComparisonsByKey(side: Side, exps: seq<Experiment>, m: Match)
    ensures m in Comparisons(side, exps) <==> JoinedByKey(side, exps, m)
  {
    ComparisonsCount(side, exps, m);
    CountNone(Comparisons(side, exps), m);
    CountNone(m.a.runs, m.runA);
  }

  // ---------------------------------------------------------------- when the comparisons are the join

  ghost predicate LastInCell(side: Side, exps: seq<Experiment>, e: Experiment) {
    IsLast(exps, |exps|, Cell(side, Key(side, e), Label(side, e)), e)
  }

  /** No two experiments of different groups meet under one key. */
  ghost predicate NoForeignPair(side: Side, exps: seq<Experiment>) {
    forall m :: JoinedByKey(side, exps, m) ==> SameGroup(side, m.a, m.b)
  }

  /** No experiment of the join is overwritten by a later one of another group with its key and name. */
  ghost predicate NoneShadowed(side: Side, exps: seq<Experiment>) {
    forall m :: Joined(side, exps, m) ==> LastInCell(side, exps, m.a) && LastInCell(side, exps, m.b)
  }

  lemma LastInCellRecorded(side: Side, exps: seq<Experiment>, e: Experiment)
    requires LastInCell(side, exps, e)
    ensures Recorded(exps, e)
  {
    var i: nat :| LastAt(exps, |exps|, Cell(side, Key(side, e), Label(side, e)), i) && exps[i] == e;
    assert LastAt(exps, |exps|, Alike(e), i);
  }

  /** A reported pair of different groups is not in the join: the first kind of damage. */
  lemma ForeignPairReported(side: Side, exps: seq<Experiment>, m: Match)
    ensures m in Comparisons(side, exps) && !Joined(side, exps, m)
            <==> JoinedByKey(side, exps, m) && !SameGroup(side, m.a, m.b)
  {
    ComparisonsByKey(side, exps, m);
    if JoinedByKey(side, exps, m) {
      LastInCellRecorded(side, exps, m.a);
      LastInCellRecorded(side, exps, m.b);
    }
  }

  /** A pair of the join with an overwritten side is not reported: the second kind. */
  lemma ShadowedPairLost(side: Side, exps: seq<Experiment>, m: Match)
    ensures m !in Comparisons(side, exps) && Joined(side, exps, m)
            <==> Joined(side, exps, m) && !(LastInCell(side, exps, m.a) && LastInCell(side, exps, m.b))
  {
    ComparisonsByKey(side, exps, m);
  }

  /** For every list: the comparisons are exactly the join if and only if keys do neither kind of damage. */
  lemma ComparisonsAreJoinIff(side: Side, exps: seq<Experiment>)
    ensures (forall m :: m in Comparisons(side, exps) <==> Joined(side, exps, m))
            <==> NoForeignPair(side, exps) && NoneShadowed(side, exps)
  {
    forall m
      ensures (m in Comparisons(side, exps) <==> Joined(side, exps, m))
              <==> && (JoinedByKey(side, exps, m) ==> SameGroup(side, m.a, m.b))
                   && (Joined(side, exps, m) ==> LastInCell(side, exps, m.a) && LastInCell(side, exps, m.b))
    {
      ForeignPairReported(side, exps, m);
      ShadowedPairLost(side, exps, m);
      ComparisonsByKey(side, exps, m);
    }
  }

  /** Keys that tell all groups apart do no damage. */
  lemma FaithfulKeysJoin(side: Side, exps: seq<Experiment>, m: Match)
    requires KeysFaithful(side, exps)
    ensures m in Comparisons(side, exps) <==> Joined(side, exps, m)
  {
    ComparisonsByKey(side, exps, m);
    RecordedInCell(side, exps, m.a);
    RecordedInCell(side, exps, m.b);
    if JoinedByKey(side, exps, m) {
      assert m.a in exps && m.b in exps;
    }
  }

  lemma SamePredicate<T>(s: seq<T>, p: T -> bool, q: T -> bool, y: T)
    requires forall x :: x in s ==> p(x) == q(x)
    ensures IsLast(s, |s|, p, y) <==> IsLast(s, |s|, q, y)
  {
    assert forall i: nat :: LastAt(s, |s|, p, i) <==> LastAt(s, |s|, q, i);
  }

  lemma RecordedInCell(side: Side, exps: seq<Experiment>, e: Experiment)
    requires KeysFaithful(side, exps)
    ensures IsLast(exps, |exps|, Cell(side, Key(side, e), Label(side, e)), e) <==> Recorded(exps, e)
  {
    if e in exps {
      SamePredicate(exps, Cell(side, Key(side, e), Label(side, e)), Alike(e), e);
    }
  }

  predicate BarFree(s: string) {
    '|' !in s
  }

  lemma SplitAtBar(a: string, rest: string, b: string, tail: string)
    requires BarFree(a) && BarFree(b) && a + ("|" + rest) == b + ("|" + tail)
    ensures a == b && rest == tail
  {
    var s, t := a + ("|" + rest), b + ("|" + tail);
    assert s[|a|] == '|' && t[|b|] == '|';
    assert |a| == |b|;
    assert a == s[..|a|] && b == t[..|b|];
    assert rest == s[|a| + 1..] && tail == t[|b| + 1..];
  }

  /** Names without a bar make keys faithful, whatever the worker types are. */
  lemma BarFreeKeysFaithful(side: Side, exps: seq<Experiment>)
    requires forall e :: e in exps ==> BarFree(e.model) && BarFree(Middle(side, e))
    ensures KeysFaithful(side, exps)
  {
    forall a, b | a in exps && b in exps && Key(side, a) == Key(side, b) ensures SameGroup(side, a, b) {
      SplitAtBar(a.model, Middle(side, a) + ("|" + a.workerType), b.model, Middle(side, b) + ("|" + b.workerType));
      SplitAtBar(Middle(side, a), a.workerType, Middle(side, b), b.workerType);
    }
  }
}
