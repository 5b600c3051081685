/**
 * Matching benchmark runs across protocols and across runtimes. Experiments and
 * runs are indexed by dictionaries, in which a later entry replaces an earlier
 * one; the results are compared with the relational join of the experiments.
 */
module Joins {
  import opened Text

  datatype Run = Run(scenario: string, concurrency: int, errorRate: real, metrics: seq<real>)
  datatype Experiment = Experiment(model: string, protocol: string, runtime: string, workerType: string, runs: seq<Run>)

  /** A comparison point; its labels are those of the first experiment and run. */
  datatype Match = Match(a: Experiment, b: Experiment, runA: Run, runB: Run)

  /** What the two sides of a comparison differ in. */
  datatype Side = Protocols | Runtimes

  type Group = map<string, Experiment>

  // ---------------------------------------------------------------- last entry wins

  function LastWhere<T>(s: seq<T>, n: nat, p: T -> bool): Option<T>
    requires n <= |s|
  {
    if n == 0 then None else if p(s[n - 1]) then Some(s[n - 1]) else LastWhere(s, n - 1, p)
  }

  ghost predicate LastAt<T>(s: seq<T>, n: nat, p: T -> bool, i: nat)
    requires n <= |s|
  {
    i < n && p(s[i]) && forall j :: i < j < n ==> !p(s[j])
  }

  ghost predicate IsLast<T>(s: seq<T>, n: nat, p: T -> bool, y: T)
    requires n <= |s|
  {
    exists i: nat :: LastAt(s, n, p, i) && s[i] == y
  }

  lemma {:induction false} LastWhereIff<T>(s: seq<T>, n: nat, p: T -> bool, y: T)
    requires n <= |s|
    ensures LastWhere(s, n, p) == Some(y) <==> IsLast(s, n, p, y)
  {
    if n == 0 {
    } else {
      if p(s[n - 1]) {
        assert LastAt(s, n, p, n - 1);
      } else {
        LastWhereIff(s, n - 1, p, y);
        assert forall i: nat :: LastAt(s, n, p, i) <==> LastAt(s, n - 1, p, i);
      }
    }
  }

  // ---------------------------------------------------------------- runs

  function Setup(scenario: string, concurrency: int): Run -> bool {
    (r: Run) => r.scenario == scenario && r.concurrency == concurrency
  }

  function Partner(x: Run, runs: seq<Run>): Option<Run> {
    var y := LastWhere(runs, |runs|, Setup(x.scenario, x.concurrency));
    if y.Some? && x.errorRate == 0.0 && y.value.errorRate == 0.0 then y else None
  }

  function Matches(a: Experiment, b: Experiment, n: nat): seq<Match>
    requires n <= |a.runs|
  {
    if n == 0 then []
    else
      var y := Partner(a.runs[n - 1], b.runs);
      Matches(a, b, n - 1) + if y.Some? then [Match(a, b, a.runs[n - 1], y.value)] else []
  }

  method MatchRuns(a: Experiment, b: Experiment) returns (ms: seq<Match>)
    ensures ms == Matches(a, b, |a.runs|)
  {
    var index: map<(string, int), Run> := map[];
    for i := 0 to |b.runs|
      invariant forall s, c ::
                  LastWhere(b.runs, i, Setup(s, c)) == if (s, c) in index then Some(index[(s, c)]) else None
    {
      index := index[(b.runs[i].scenario, b.runs[i].concurrency) := b.runs[i]];
    }
    ms := [];
    for i := 0 to |a.runs|
      invariant ms == Matches(a, b, i)
    {
      var x := a.runs[i];
      assert LastWhere(b.runs, |b.runs|, Setup(x.scenario, x.concurrency)).Some?
          <==> (x.scenario, x.concurrency) in index;
      if (x.scenario, x.concurrency) in index {
        var y := index[(x.scenario, x.concurrency)];
        if x.errorRate == 0.0 && y.errorRate == 0.0 {
          ms := ms + [Match(a, b, x, y)];
        }
      }
    }
  }

  // ---------------------------------------------------------------- groups

  function Middle(side: Side, e: Experiment): string {
    if side == Protocols then e.runtime else e.protocol
  }

  function Label(side: Side, e: Experiment): string {
    if side == Protocols then e.protocol else e.runtime
  }

  function Key(side: Side, e: Experiment): string {
    e.model + ("|" + (Middle(side, e) + ("|" + e.workerType)))
  }

  /** The keys in the order of their first experiment. */
  function Keys(side: Side, exps: seq<Experiment>, n: nat): seq<string>
    requires n <= |exps|
  {
    if n == 0 then []
    else
      var before, k := Keys(side, exps, n - 1), Key(side, exps[n - 1]);
      if k in before then before else before + [k]
  }

  function Cell(side: Side, key: string, name: string): Experiment -> bool {
    (e: Experiment) => Key(side, e) == key && Label(side, e) == name
  }

  /** `g` holds the last experiment of every name under `key`. */
  ghost predicate IsGroup(side: Side, exps: seq<Experiment>, n: nat, key: string, g: Group)
    requires n <= |exps|
  {
    forall name :: LastWhere(exps, n, Cell(side, key, name)) == if name in g then Some(g[name]) else None
  }

  /** The group under a key, empty if there is none yet. */
  function GroupAt(groups: map<string, Group>, key: string): Group {
    if key in groups then groups[key] else map[]
  }

  function Recording(side: Side, groups: map<string, Group>, e: Experiment): map<string, Group> {
    groups[Key(side, e) := GroupAt(groups, Key(side, e))[Label(side, e) := e]]
  }

  lemma GroupStep(side: Side, exps: seq<Experiment>, n: nat, groups: map<string, Group>, key: string)
    requires n < |exps| && IsGroup(side, exps, n, key, GroupAt(groups, key))
    ensures IsGroup(side, exps, n + 1, key, GroupAt(Recording(side, groups, exps[n]), key))
  {
  }

  ghost predicate SameKeys(order: seq<string>, groups: map<string, Group>) {
    forall k :: k in order <==> k in groups
  }

  lemma SameKeysMore(order: seq<string>, groups: map<string, Group>, key: string, g: Group)
    requires SameKeys(order, groups)
    ensures SameKeys(if key in groups then order else order + [key], groups[key := g])
  {
  }

  lemma GroupsStep(side: Side, exps: seq<Experiment>, n: nat, groups: map<string, Group>)
    requires n < |exps| && forall k :: IsGroup(side, exps, n, k, GroupAt(groups, k))
    ensures forall k :: IsGroup(side, exps, n + 1, k, GroupAt(Recording(side, groups, exps[n]), k))
  {
    forall k
      ensures IsGroup(side, exps, n + 1, k, GroupAt(Recording(side, groups, exps[n]), k))
    {
      GroupStep(side, exps, n, groups, k);
    }
  }

  method GroupExperiments(side: Side, exps: seq<Experiment>) returns (order: seq<string>, groups: map<string, Group>)
    ensures order == Keys(side, exps, |exps|) && SameKeys(order, groups)
    ensures forall k :: k in groups ==> IsGroup(side, exps, |exps|, k, groups[k])
  {
    order, groups := [], map[];
    for i := 0 to |exps|
      invariant order == Keys(side, exps, i) && SameKeys(order, groups)
      invariant forall k :: IsGroup(side, exps, i, k, GroupAt(groups, k))
    {
      var e := exps[i];
      GroupsStep(side, exps, i, groups);
      SameKeysMore(order, groups, Key(side, e), GroupAt(groups, Key(side, e))[Label(side, e) := e]);
      if Key(side, e) !in groups {
        order := order + [Key(side, e)];
      }
      groups := Recording(side, groups, e);
    }
    assert forall k :: k in groups ==> GroupAt(groups, k) == groups[k];
  }

  // ---------------------------------------------------------------- sorted names

  /** The order of strings by code points. */
  predicate Less(a: string, b: string) {
    b != "" && (a == "" || if a[0] == b[0] then Less(a[1..], b[1..]) else a[0] < b[0])
  }

  lemma {:induction false} LessTotal(a: string, b: string)
    ensures Less(a, b) || Less(b, a) || a == b
    ensures !(Less(a, b) && Less(b, a)) && !Less(a, a)
  {
    if a == "" {
    } else {
      LessTotal(a[1..], if b == "" then "" else b[1..]);
      if b != "" && a[0] == b[0] && a[1..] == b[1..] {
        assert a == [a[0]] + a[1..] && b == [b[0]] + b[1..];
      }
    }
  }

  lemma {:induction false} LessTransitive(a: string, b: string, c: string)
    requires Less(a, b) && Less(b, c)
    ensures Less(a, c)
  {
    if a != "" && a[0] == b[0] && b[0] == c[0] {
      LessTransitive(a[1..], b[1..], c[1..]);
    }
  }

  predicate Smallest(names: set<string>, x: string) {
    x in names && forall y :: y in names ==> y == x || Less(x, y)
  }

  lemma {:induction false} SmallestExists(names: set<string>)
    requires names != {}
    ensures exists x :: Smallest(names, x)
  {
    var x :| x in names;
    var rest := names - {x};
    if rest == {} {
      assert names == {x};
      assert Smallest(names, x);
    } else {
      SmallestExists(rest);
      var y :| Smallest(rest, y);
      LessTotal(x, y);
      if Less(x, y) {
        forall z | z in rest && z != y ensures Less(x, z) {
          LessTransitive(x, y, z);
        }
        assert Smallest(names, x);
      } else {
        assert Smallest(names, y);
      }
    }
  }

  lemma SmallestUnique(names: set<string>, x: string, y: string)
    requires Smallest(names, x) && Smallest(names, y)
    ensures x == y
  {
    LessTotal(x, y);
  }

  function First(names: set<string>): (x: string)
    requires names != {}
    ensures x in names
  {
    SmallestExists(names);
    assert forall x, y :: Smallest(names, x) && Smallest(names, y) ==> x == y by {
      forall x, y | Smallest(names, x) && Smallest(names, y) ensures x == y {
        SmallestUnique(names, x, y);
      }
    }
    var x :| x in names && Smallest(names, x);
    x
  }

  function Sorted(names: set<string>): seq<string> {
    if names == {} then [] else [First(names)] + Sorted(names - {First(names)})
  }

  /** `Sorted` lists exactly the names, each once, in increasing order. */
  lemma {:induction false} SortedNames(names: set<string>)
    ensures forall x :: x in Sorted(names) <==> x in names
    ensures forall i, j :: 0 <= i < j < |Sorted(names)| ==> Less(Sorted(names)[i], Sorted(names)[j])
  {
    if names == {} {
    } else {
      SmallestExists(names);
      var x, rest := First(names), names - {First(names)};
      assert Smallest(names, x);
      SortedNames(rest);
      assert forall y :: y in Sorted(rest) ==> Less(x, y);
    }
  }

  // ---------------------------------------------------------------- comparisons

  /** The matches of the experiments last recorded under two names of a group. */
  function Between(side: Side, exps: seq<Experiment>, key: string, x: string, y: string): seq<Match> {
    var a, b := LastWhere(exps, |exps|, Cell(side, key, x)), LastWhere(exps, |exps|, Cell(side, key, y));
    if a.Some? && b.Some? then Matches(a.value, b.value, |a.value.runs|) else []
  }

  /** What `f` gives for name `i` and each of the first `n` names after it, in order. */
  function Row<T>(names: seq<string>, i: nat, n: nat, f: (string, string) -> seq<T>): seq<T>
    requires i < n <= |names|
    decreases n
  {
    if n == i + 1 then [] else Row(names, i, n - 1, f) + f(names[i], names[n - 1])
  }

  /** What `f` gives for the pairs above the diagonal in the first `n` rows. */
  function Rows<T>(names: seq<string>, n: nat, f: (string, string) -> seq<T>): seq<T>
    requires n <= |names|
  {
    if n == 0 then [] else Rows(names, n - 1, f) + Row(names, n - 1, |names|, f)
  }

  function Triangle<T>(names: seq<string>, f: (string, string) -> seq<T>): seq<T> {
    Rows(names, |names|, f)
  }

  /** What `f` gives for the first `n` keys, in order. */
  function Gather<T>(keys: seq<string>, n: nat, f: string -> seq<T>): seq<T>
    requires n <= |keys|
  {
    if n == 0 then [] else Gather(keys, n - 1, f) + f(keys[n - 1])
  }

  function Pairing(side: Side, exps: seq<Experiment>, key: string): (string, string) -> seq<Match> {
    (x: string, y: string) => Between(side, exps, key, x, y)
  }

  function Names(side: Side, exps: seq<Experiment>, key: string): set<string> {
    set e | e in exps && Key(side, e) == key :: Label(side, e)
  }

  function InGroup(side: Side, exps: seq<Experiment>): string -> seq<Match> {
    (key: string) =>
      if side == Protocols then Between(side, exps, key, "grpc", "http")
      else Triangle(Sorted(Names(side, exps, key)), Pairing(side, exps, key))
  }

  function Comparisons(side: Side, exps: seq<Experiment>): seq<Match> {
    var keys := Keys(side, exps, |exps|);
    Gather(keys, |keys|, InGroup(side, exps))
  }

  lemma {:induction false} LastWhereSome<T>(s: seq<T>, n: nat, p: T -> bool)
    requires n <= |s|
    ensures LastWhere(s, n, p).Some? <==> exists i :: 0 <= i < n && p(s[i])
  {
    if n == 0 {
    } else {
      LastWhereSome(s, n - 1, p);
    }
  }

  lemma NamesOfGroup(side: Side, exps: seq<Experiment>, key: string, g: Group)
    requires IsGroup(side, exps, |exps|, key, g)
    ensures g.Keys == Names(side, exps, key)
  {
    forall name ensures name in g <==> name in Names(side, exps, key) {
      LastWhereSome(exps, |exps|, Cell(side, key, name));
      assert LastWhere(exps, |exps|, Cell(side, key, name)) == if name in g then Some(g[name]) else None;
    }
  }

  method CompareProtocols(exps: seq<Experiment>, key: string, g: Group) returns (ms: seq<Match>)
    requires IsGroup(Protocols, exps, |exps|, key, g)
    ensures ms == InGroup(Protocols, exps)(key)
  {
    ms := [];
    if "grpc" in g && "http" in g {
      ms := MatchRuns(g["grpc"], g["http"]);
    }
  }

  lemma FewNames<T>(names: set<string>, f: (string, string) -> seq<T>)
    requires |names| < 2
    ensures Triangle(Sorted(names), f) == []
  {
    if names != {} {
      var rest := names - {First(names)};
      assert |rest| == 0;
      assert rest == {};
      assert Sorted(names) == [First(names)];
      assert Rows(Sorted(names), 0, f) == [] && Row(Sorted(names), 0, 1, f) == [];
    }
  }

  method CompareRuntimes(exps: seq<Experiment>, key: string, g: Group) returns (ms: seq<Match>)
    requires IsGroup(Runtimes, exps, |exps|, key, g)
    ensures ms == InGroup(Runtimes, exps)(key)
  {
    NamesOfGroup(Runtimes, exps, key, g);
    ms := MatchSorted(g, Pairing(Runtimes, exps, key));
  }

  ghost predicate PairFits(g: Group, f: (string, string) -> seq<Match>, x: string, y: string) {
    x in g && y in g ==> f(x, y) == Matches(g[x], g[y], |g[x].runs|)
  }

  /** `f` gives the matches of any two experiments of the group. */
  ghost predicate Pairs(g: Group, f: (string, string) -> seq<Match>) {
    forall x, y :: PairFits(g, f, x, y)
  }

  method MatchSorted(g: Group, ghost f: (string, string) -> seq<Match>) returns (ms: seq<Match>)
    requires Pairs(g, f)
    ensures ms == Triangle(Sorted(g.Keys), f)
  {
    if |g| < 2 {
      FewNames(g.Keys, f);
      return [];
    }
    SortedNames(g.Keys);
    ms := MatchRows(g, Sorted(g.Keys), f);
  }

  method MatchRows(g: Group, names: seq<string>, ghost f: (string, string) -> seq<Match>) returns (ms: seq<Match>)
    requires Pairs(g, f) && forall k :: 0 <= k < |names| ==> names[k] in g
    ensures ms == Triangle(names, f)
  {
    ms := [];
    for i := 0 to |names|
      invariant ms == Rows(names, i, f)
    {
      var row := MatchRow(g, names, i, f);
      ms := ms + row;
    }
  }

  method MatchRow(g: Group, names: seq<string>, i: nat, ghost f: (string, string) -> seq<Match>)
    returns (ms: seq<Match>)
    requires Pairs(g, f) && i < |names| && forall k :: 0 <= k < |names| ==> names[k] in g
    ensures ms == Row(names, i, |names|, f)
  {
    ms := [];
    for j := i + 1 to |names|
      invariant ms == Row(names, i, j, f)
    {
      var found := MatchRuns(g[names[i]], g[names[j]]);
      assert PairFits(g, f, names[i], names[j]);
      ms := ms + found;
    }
  }

  ghost predicate Expected(side: Side, exps: seq<Experiment>, f: string -> seq<Match>, key: string) {
    f(key) == InGroup(side, exps)(key)
  }

  method CompareGroup(side: Side, exps: seq<Experiment>, key: string, g: Group, ghost f: string -> seq<Match>)
    returns (ms: seq<Match>)
    requires IsGroup(side, exps, |exps|, key, g) && Expected(side, exps, f, key)
    ensures ms == f(key)
  {
    if side == Protocols {
      ms := CompareProtocols(exps, key, g);
    } else {
      ms := CompareRuntimes(exps, key, g);
    }
  }

  method CompareGroups(side: Side, exps: seq<Experiment>, order: seq<string>, groups: map<string, Group>,
                       ghost f: string -> seq<Match>)
    returns (ms: seq<Match>)
    requires forall k :: k in order ==> k in groups
    requires forall k :: k in groups ==> IsGroup(side, exps, |exps|, k, groups[k])
    requires forall k :: Expected(side, exps, f, k)
    ensures ms == Gather(order, |order|, f)
  {
    ms := [];
    for i := 0 to |order|
      invariant ms == Gather(order, i, f)
    {
      var found := CompareGroup(side, exps, order[i], groups[order[i]], f);
      ms := ms + found;
    }
  }

  method BuildComparisons(exps: seq<Experiment>) returns (ms: seq<Match>)
    ensures ms == Comparisons(Protocols, exps)
  {
    var order, groups := GroupExperiments(Protocols, exps);
    ms := CompareGroups(Protocols, exps, order, groups, InGroup(Protocols, exps));
  }

  method BuildRuntimeComparisons(exps: seq<Experiment>) returns (ms: seq<Match>)
    ensures ms == Comparisons(Runtimes, exps)
  {
    var order, groups := GroupExperiments(Runtimes, exps);
    ms := CompareGroups(Runtimes, exps, order, groups, InGroup(Runtimes, exps));
  }
}
