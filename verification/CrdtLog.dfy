/** The operation log of a replica: appending, compacting and merging. */
module CrdtLog {
  import opened CrdtView

  const AUTO_COMPACT_THRESHOLD: nat := 10_000

  /** How many operations are left when a log has to be cut. */
  const KEPT: nat := AUTO_COMPACT_THRESHOLD * 3 / 4

  lemma LatestSnoc(log: seq<Operation>, op: Operation)
    ensures Latest(log + [op]) == Update(Latest(log), op)
    ensures Ops(log + [op]) == Ops(log) + {op}
  {
    assert (log + [op])[..|log|] == log;
  }

  /** `c` holds the operations of a view, each once. */
  ghost predicate Lists(c: seq<Operation>, view: View) {
    && (forall i :: 0 <= i < |c| ==> c[i].key in view && view[c[i].key] == c[i])
    && (forall i, j :: 0 <= i < j < |c| ==> c[i].key != c[j].key)
    && (forall k :: k in view ==> view[k] in c)
  }

  ghost predicate Sorted(c: seq<Operation>) {
    forall i, j :: 0 <= i < j < |c| ==> !c[j].version.Before(c[i].version)
  }

  lemma ListsInit(c: seq<Operation>, view: View)
    requires Lists(c, view) && c != []
    ensures Lists(c[..|c| - 1], view - {c[|c| - 1].key})
  {
    var init, last := c[..|c| - 1], c[|c| - 1];
    forall k | k in view - {last.key}
      ensures view[k] in init
    {
      var i :| 0 <= i < |c| && c[i] == view[k];
      assert init[i] == c[i];
    }
  }

  lemma {:induction false} ListedLatest(c: seq<Operation>, view: View)
    requires Lists(c, view)
    ensures Latest(c) == view && |c| == |view|
  {
    if c == [] {
      assert view == map[];
    } else {
      var last := c[|c| - 1];
      ListsInit(c, view);
      ListedLatest(c[..|c| - 1], view - {last.key});
      assert view == (view - {last.key})[last.key := last];
    }
  }

  lemma ListedView(c: seq<Operation>, view: View)
    requires Lists(c, view)
    ensures Latest(c) == view && |c| == |view| && Ops(c) == view.Values
  {
    ListedLatest(c, view);
    forall op
      ensures op in Ops(c) <==> op in view.Values
    {
      if op in view.Values {
        var k :| k in view && view[k] == op;
        assert view[k] in c;
      }
    }
  }

  lemma {:induction false} LatestBound(log: seq<Operation>)
    ensures |Latest(log)| <= |log|
  {
    if log == [] {
    } else {
      LatestBound(log[..|log| - 1]);
      var view, op := Latest(log[..|log| - 1]), log[|log| - 1];
      assert Update(view, op).Keys <= view.Keys + {op.key};
      assert view.Keys + {op.key} == if op.key in view then view.Keys else view.Keys + {op.key};
    }
  }

  // ---------------------------------------------------------------- compaction

  method LatestOperationsByKey(log: seq<Operation>) returns (view: View)
    ensures view == Latest(log)
  {
    view := map[];
    for i := 0 to |log|
      invariant view == Latest(log[..i])
    {
      var op := log[i];
      assert log[..i + 1] == log[..i] + [op];
      LatestSnoc(log[..i], op);
      if !(op.key in view && !view[op.key].version.Before(op.version)) {
        view := view[op.key := op];
      }
    }
    assert log[..|log|] == log;
  }

  method Earliest(view: View, keys: set<string>) returns (k: string)
    requires keys <= view.Keys && keys != {}
    ensures k in keys && forall j :: j in keys ==> !view[j].version.Before(view[k].version)
  {
    k :| k in keys;
    var rest := keys - {k};
    while rest != {}
      invariant rest <= keys && k in keys
      invariant forall j :: j in keys && j !in rest ==> !view[j].version.Before(view[k].version)
    {
      var j :| j in rest;
      if view[j].version.Before(view[k].version) {
        k := j;
      }
      rest := rest - {j};
    }
  }

  /** `c` lists the view except for the keys in `rest`, all of which are later. */
  ghost predicate ListsBut(c: seq<Operation>, view: View, rest: set<string>) {
    && rest <= view.Keys && Sorted(c)
    && Lists(c, view - rest)
    && (forall i, k :: 0 <= i < |c| && k in rest ==> !view[k].version.Before(c[i].version))
  }

  lemma ListsNext(c: seq<Operation>, view: View, rest: set<string>, k: string)
    requires ListsBut(c, view, rest) && k in rest
    requires forall j :: j in rest ==> !view[j].version.Before(view[k].version)
    ensures ListsBut(c + [view[k]], view, rest - {k})
  {
    var done, left := view - rest, view - (rest - {k});
    assert left == done[k := view[k]];
    ListsMore(c, done, view[k]);
  }

  lemma ListsMore(c: seq<Operation>, view: View, op: Operation)
    requires Lists(c, view) && op.key !in view
    ensures Lists(c + [op], view[op.key := op])
  {
    var d, more := c + [op], view[op.key := op];
    forall k | k in more
      ensures more[k] in d
    {
      if k == op.key {
        assert d[|c|] == op;
      } else {
        var i :| 0 <= i < |c| && c[i] == view[k];
        assert d[i] == c[i];
      }
    }
  }

  /** Keeps the latest operation of every key, in order of versions. */
  method Compact(log: seq<Operation>) returns (c: seq<Operation>)
    ensures Lists(c, Latest(log)) && Sorted(c)
  {
    var view := LatestOperationsByKey(log);
    var rest := view.Keys;
    c := [];
    assert view - rest == map[];
    while rest != {}
      invariant ListsBut(c, view, rest)
    {
      var k := Earliest(view, rest);
      ListsNext(c, view, rest, k);
      c, rest := c + [view[k]], rest - {k};
    }
    assert view - {} == view;
  }

  // ---------------------------------------------------------------- appending

  /** The log keeps room for the key: no operation has to be dropped. */
  predicate HasRoom(view: View, key: string) {
    |view.Keys + {key}| <= AUTO_COMPACT_THRESHOLD
  }

  /** `kept` are the latest `n` operations of `all`. */
  ghost predicate IsCut(kept: View, all: View, n: nat) {
    && |kept| == n
    && (forall k :: k in kept ==> k in all && kept[k] == all[k])
    && (forall j, k :: j in kept && k in all && k !in kept ==> !kept[j].version.Before(all[k].version))
  }

  /** What a log amounts to once an operation has been appended: all of it, or what was not cut off. */
  ghost predicate Appended(before: View, op: Operation, after: View) {
    if HasRoom(before, op.key) then after == Update(before, op) else IsCut(after, Update(before, op), KEPT)
  }

  /** The part of a view that is listed from an index on. */
  ghost function Listed(c: seq<Operation>, all: View, from: nat): View
    requires from <= |c|
  {
    map k | k in all && all[k] in c[from..] :: all[k]
  }

  lemma TailListed(c: seq<Operation>, all: View, from: nat)
    requires Lists(c, all) && from <= |c|
    ensures Lists(c[from..], Listed(c, all, from))
  {
    var tail, kept := c[from..], Listed(c, all, from);
    forall i | 0 <= i < |tail|
      ensures tail[i].key in kept && kept[tail[i].key] == tail[i]
    {
      assert tail[i] == c[from + i] && tail[i] in tail;
    }
    forall i, j | 0 <= i < j < |tail|
      ensures tail[i].key != tail[j].key
    {
      assert tail[i] == c[from + i] && tail[j] == c[from + j];
    }
  }

  lemma TailIsLater(c: seq<Operation>, all: View, from: nat, j: string, k: string)
    requires Lists(c, all) && Sorted(c) && from <= |c| && j in all && k in all
    requires all[j] in c[from..] && all[k] !in c[from..]
    ensures !all[j].version.Before(all[k].version)
  {
    var p :| 0 <= p < |c| - from && c[from..][p] == all[j];
    var q :| 0 <= q < |c| && c[q] == all[k];
    if q >= from {
      assert c[from..][q - from] == all[k];
    }
    assert c[from + p] == all[j];
  }

  /** The end of a sorted list of a view is a cut of it. */
  lemma TailIsCut(c: seq<Operation>, all: View, from: nat)
    requires Lists(c, all) && Sorted(c) && from <= |c|
    ensures IsCut(Latest(c[from..]), all, |c| - from)
  {
    var kept := Listed(c, all, from);
    TailListed(c, all, from);
    ListedLatest(c[from..], kept);
    forall j, k | j in kept && k in all && k !in kept
      ensures !kept[j].version.Before(all[k].version)
    {
      TailIsLater(c, all, from, j, k);
    }
  }

  lemma CompactedLog(log: seq<Operation>, c: seq<Operation>)
    requires Lists(c, Latest(log))
    ensures Latest(c) == Latest(log) && |c| == |Latest(log)| && Ops(c) <= Ops(log)
  {
    ListedView(c, Latest(log));
    LatestIsView(log);
  }

  /** The last `keep` operations of a compacted log. */
  method CutOff(log: seq<Operation>, c: seq<Operation>, keep: nat) returns (next: seq<Operation>)
    requires Lists(c, Latest(log)) && Sorted(c) && keep <= |c|
    ensures Ops(next) <= Ops(c) && IsCut(Latest(next), Latest(log), keep)
  {
    var from := |c| - keep;
    TailIsCut(c, Latest(log), from);
    next := c[from..];
  }

  /** Brings a log within a limit: compacts it, and cuts it if that is not enough. */
  method Shrink(log: seq<Operation>, limit: nat, keep: nat) returns (next: seq<Operation>)
    requires keep <= limit
    ensures Ops(next) <= Ops(log)
    ensures |log| <= limit ==> next == log
    ensures if |Latest(log)| <= limit then Latest(next) == Latest(log) else IsCut(Latest(next), Latest(log), keep)
  {
    LatestBound(log);
    next := log;
    if |log| > limit {
      var c := Compact(log);
      CompactedLog(log, c);
      next := c;
      if |c| > limit {
        next := CutOff(log, c, keep);
      }
    }
  }

  /** Appends an operation; beyond the threshold the log is compacted, and cut if there is no room for its keys. */
  method Append(log: seq<Operation>, op: Operation) returns (next: seq<Operation>)
    ensures Ops(next) <= Ops(log) + {op}
    ensures Appended(Latest(log), op, Latest(next))
    ensures Latest(next) == Latest(log + [op]) <==> HasRoom(Latest(log), op.key)
  {
    LatestSnoc(log, op);
    next := Shrink(log + [op], AUTO_COMPACT_THRESHOLD, KEPT);
    ghost var view := Latest(log + [op]);
    assert view.Keys == Latest(log).Keys + {op.key} && |view| == |view.Keys|;
  }

  // ---------------------------------------------------------------- merging

  predicate SeenIn(log: seq<Operation>, version: Version) {
    exists op :: op in log && op.version == version
  }

  /** The local log and those of the first `n` other operations whose version had not been seen by then. */
  ghost function Merged(local: seq<Operation>, other: seq<Operation>, n: nat): seq<Operation>
    requires n <= |other|
  {
    if n == 0 then local
    else
      var before := Merged(local, other, n - 1);
      if SeenIn(before, other[n - 1].version) then before else before + [other[n - 1]]
  }

  method MergeLogs(local: seq<Operation>, other: seq<Operation>) returns (merged: seq<Operation>)
    ensures merged == Merged(local, other, |other|)
  {
    merged := local;
    var seen := set op | op in local :: op.version;
    for i := 0 to |other|
      invariant merged == Merged(local, other, i)
      invariant forall v :: v in seen <==> SeenIn(merged, v)
    {
      if other[i].version !in seen {
        seen := seen + {other[i].version};
        merged := merged + [other[i]];
      }
    }
  }

  lemma {:induction false} MergedSeen(local: seq<Operation>, other: seq<Operation>, n: nat, v: Version)
    requires n <= |other|
    ensures SeenIn(Merged(local, other, n), v) <==> SeenIn(local, v) || SeenIn(other[..n], v)
  {
    if n == 0 {
    } else {
      MergedSeen(local, other, n - 1, v);
      MergedSeen(local, other, n - 1, other[n - 1].version);
      assert other[..n] == other[..n - 1] + [other[n - 1]];
    }
  }

  /** An operation is merged from the other log exactly at its first place, and only if it is unseen there. */
  lemma {:induction false} MergedIff(local: seq<Operation>, other: seq<Operation>, n: nat, op: Operation)
    requires n <= |other|
    ensures op in Merged(local, other, n) <==> op in local || exists i :: TakenAt(local, other, n, op, i)
  {
    if n == 0 {
    } else {
      MergedIff(local, other, n - 1, op);
      MergedSeen(local, other, n - 1, other[n - 1].version);
      var m := n - 1;
      if i :| TakenAt(local, other, m, op, i) {
        assert TakenAt(local, other, n, op, i);
      } else if TakenAt(local, other, n, op, n - 1) {
        assert (Merged(local, other, n - 1) + [op])[|Merged(local, other, n - 1)|] == op;
      } else {
        assert forall i :: TakenAt(local, other, n, op, i) ==> TakenAt(local, other, n - 1, op, i);
      }
    }
  }

  ghost predicate TakenAt(local: seq<Operation>, other: seq<Operation>, n: nat, op: Operation, i: int) {
    0 <= i < n <= |other| && other[i] == op && !SeenIn(local, op.version) && !SeenIn(other[..i], op.version)
  }

  /** Another operation stands where the version of `other[i]` is first seen. */
  ghost predicate Shadowed(local: seq<Operation>, other: seq<Operation>, i: nat)
    requires i < |other|
  {
    && other[i] !in local && other[i] !in other[..i]
    && (SeenIn(local, other[i].version) || SeenIn(other[..i], other[i].version))
  }

  lemma MergedWithin(local: seq<Operation>, other: seq<Operation>)
    ensures Ops(Merged(local, other, |other|)) <= Ops(local) + Ops(other)
  {
    forall op | op in Merged(local, other, |other|)
      ensures op in Ops(local) + Ops(other)
    {
      MergedIff(local, other, |other|, op);
    }
  }

  /** Merging keeps every operation exactly if none of the other log is shadowed. */
  lemma MergedAllIff(local: seq<Operation>, other: seq<Operation>)
    ensures Ops(Merged(local, other, |other|)) == Ops(local) + Ops(other)
            <==> forall i :: 0 <= i < |other| ==> !Shadowed(local, other, i)
  {
    var merged := Merged(local, other, |other|);
    MergedWithin(local, other);
    if i :| 0 <= i < |other| && Shadowed(local, other, i) {
      MergedIff(local, other, |other|, other[i]);
      assert forall j :: i < j <= |other| ==> other[i] in other[..j];
      assert other[i] in Ops(other) && other[i] !in merged;
    } else {
      forall op | op in Ops(local) + Ops(other)
        ensures op in merged
      {
        MergedIff(local, other, |other|, op);
        if op !in local {
          var i := FirstPlace(other, op);
          assert !Shadowed(local, other, i);
          assert TakenAt(local, other, |other|, op, i);
        }
      }
    }
  }

  lemma {:induction false} FirstPlace(log: seq<Operation>, op: Operation) returns (i: nat)
    requires op in log
    ensures i < |log| && log[i] == op && op !in log[..i]
  {
    if op in log[..|log| - 1] {
      i := FirstPlace(log[..|log| - 1], op);
      assert log[..|log| - 1][..i] == log[..i];
    } else {
      i := |log| - 1;
    }
  }

  lemma MergedCoherent(local: seq<Operation>, other: seq<Operation>)
    requires Coherent(Ops(local) + Ops(other))
    ensures Ops(Merged(local, other, |other|)) == Ops(local) + Ops(other)
  {
    forall i | 0 <= i < |other|
      ensures !Shadowed(local, other, i)
    {
      if Shadowed(local, other, i) {
        var op :| (op in local || op in other[..i]) && op.version == other[i].version;
      }
    }
    MergedAllIff(local, other);
  }

  lemma MergedView(local: seq<Operation>, other: seq<Operation>)
    requires Coherent(Ops(local) + Ops(other))
    ensures Latest(Merged(local, other, |other|)) == Join(Latest(local), Latest(other))
  {
    var merged := Merged(local, other, |other|);
    MergedCoherent(local, other);
    LatestIsView(local);
    LatestIsView(other);
    LatestIsView(merged);
    JoinIsView(Latest(local), Ops(local), Latest(other), Ops(other));
    ViewUnique(Latest(merged), Join(Latest(local), Latest(other)), Ops(merged));
  }
}
