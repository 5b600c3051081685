/**
 * Two writes under one stamp. Handles of one replica share its store and its log but count on copies of its clock, and
 * a clock at its end no longer moves, so the next operations of both carry one version.
 */
module CrdtClones {
  import opened Text
  import opened CrdtView
  import opened CrdtLog
  import opened CrdtMap

  /** The stamp comes after everything in the view. */
  predicate After(stamp: Version, view: View) {
    forall k :: k in view ==> view[k].version.Before(stamp)
  }

  /** A clock that has witnessed the view gives such a stamp, until it reaches its end. */
  lemma NextIsAfter(view: View, clock: nat, id: ReplicaId)
    requires ViewWithin(view, clock)
    ensures clock < U64_MAX ==> After(Version(NextTick(clock), id), view)
  {
  }

  // ---------------------------------------------------------------- at the replica

  /** A stamp that is not exceeded stays within the log, however much is cut off. */
  lemma NewestKept(kept: View, all: View, n: nat, stamp: Version, newest: set<string>)
    requires IsCut(kept, all, n) && newest <= all.Keys && |newest| < n
    requires forall k :: k in newest ==> all[k].version == stamp
    requires forall k :: k in all && k !in newest ==> all[k].version.Before(stamp)
    ensures newest <= kept.Keys
  {
    if k :| k in newest && k !in kept {
      forall j | j in kept
        ensures j in newest
      {
        assert !kept[j].version.Before(all[k].version);
      }
      SubsetSize(kept.Keys, newest);
    }
  }

  /** The operations at `newest`, all of one stamp that nothing exceeds, outlast an append of that stamp. */
  lemma AppendKeepsNewest(before: View, op: Operation, after: View, newest: set<string>)
    requires Appended(before, op, after) && newest <= before.Keys && |newest| <= 1 && op.key !in newest
    requires forall k :: k in before ==> before[k].version == op.version || before[k].version.Before(op.version)
    requires forall k :: k in before ==> (k in newest <==> before[k].version == op.version)
    ensures op.key in after && after[op.key] == op
    ensures forall k :: k in newest ==> k in after && after[k] == before[k]
    ensures forall k :: k in after && k != op.key ==> k in before && after[k] == before[k]
  {
    var all := Update(before, op);
    if !HasRoom(before, op.key) {
      NewestKept(after, all, KEPT, op.version, newest + {op.key});
    }
  }

  lemma BothLogged(before: View, a: Operation, b: Operation, after: View)
    requires a.version == b.version && a.key != b.key && Appended(before, b, after)
    requires a.key in before && before[a.key] == a
    requires forall k :: k in before && k != a.key ==> before[k].version.Before(a.version)
    ensures a.key in after && after[a.key] == a && b.key in after && after[b.key] == b && !Coherent(after.Values)
  {
    AppendKeepsNewest(before, b, after, {a.key});
    assert a in after.Values && b in after.Values;
  }

  /**
   * Two insertions under one stamp. At one key the second is ignored. At two keys both are shown and logged, and the
   * log holds two operations of one version.
   */
  lemma TwoUnderOneStamp(n0: Node, n1: Node, clock: nat, n2: Node, a: Operation, b: Operation)
    requires a.Insert? && b.Insert? && a.version == b.version && NextTick(clock) == NextTick(n0.clock)
    requires After(a.version, n0.shown) && After(a.version, n0.log)
    requires Writes(n0, a, n1) && Writes(n1.(clock := clock), b, n2)
    ensures a.key == b.key ==> n2 == n1 && n2.shown[a.key] == a
    ensures a.key != b.key ==>
              && a.key in n2.shown && n2.shown[a.key] == a && b.key in n2.shown && n2.shown[b.key] == b
              && a.key in n2.log && n2.log[a.key] == a && b.key in n2.log && n2.log[b.key] == b
              && !Coherent(n2.log.Values)
  {
    AppendKeepsNewest(n0.log, a, n1.log, {});
    if a.key != b.key {
      assert n1.shown == n0.shown[a.key := a];
      assert Records(n1.shown, b);
      BothLogged(n1.log, a, b, n2.log);
    }
  }

  // ---------------------------------------------------------------- at a peer

  /** Of two different operations with one unseen version a merge takes at most one, wherever they stand. */
  lemma AtMostOneTaken(local: seq<Operation>, other: seq<Operation>, a: Operation, b: Operation)
    requires a != b && a.version == b.version && !SeenIn(local, a.version)
    ensures var merged := Merged(local, other, |other|); !(a in merged && b in merged)
  {
    MergedIff(local, other, |other|, a);
    MergedIff(local, other, |other|, b);
  }

  /** What a merge newly shows is among the merged operations. */
  lemma ShownIsMerged(local: seq<Operation>, shown: View, merged: seq<Operation>, op: Operation)
    requires var after := MergedShown(shown, Latest(merged), FreshKeys(local, Latest(merged)));
             op.key in after && after[op.key] == op
    ensures op in merged || (op.key in shown && shown[op.key] == op)
  {
    LatestIsView(merged);
    if Arrives(shown, Latest(merged), FreshKeys(local, Latest(merged)), op.key) {
      assert Latest(merged)[op.key] in Ops(merged);
    }
  }

  /**
   * So the replica shows two insertions under one stamp, and no peer that has neither seen the stamp nor shows either
   * comes to show both by merging the replica's log: the two disagree although nothing was cut.
   */
  lemma PeerShowsOne(n0: Node, n1: Node, clock: nat, n2: Node, a: Operation, b: Operation,
                     local: seq<Operation>, shown: View, other: seq<Operation>)
    requires a.Insert? && b.Insert? && a.version == b.version && a.key != b.key
    requires NextTick(clock) == NextTick(n0.clock) && After(a.version, n0.shown) && After(a.version, n0.log)
    requires Writes(n0, a, n1) && Writes(n1.(clock := clock), b, n2) && Lists(other, n2.log)
    requires !SeenIn(local, a.version) && forall k :: k in shown ==> shown[k].version != a.version
    ensures n2.shown[a.key] == a && n2.shown[b.key] == b
    ensures var joined := Latest(Merged(local, other, |other|));
            var after := MergedShown(shown, joined, FreshKeys(local, joined));
            !(a.key in after && after[a.key] == a && b.key in after && after[b.key] == b)
  {
    TwoUnderOneStamp(n0, n1, clock, n2, a, b);
    var merged := Merged(local, other, |other|);
    var after := MergedShown(shown, Latest(merged), FreshKeys(local, Latest(merged)));
    if a.key in after && after[a.key] == a && b.key in after && after[b.key] == b {
      ShownIsMerged(local, shown, merged, a);
      ShownIsMerged(local, shown, merged, b);
      AtMostOneTaken(local, other, a, b);
    }
  }

  /** What a peer newly shows of a key unknown to it is what the merged log lists. */
  lemma OnlyListed(log: View, local: seq<Operation>, shown: View, other: seq<Operation>, k: string)
    requires Lists(other, log) && k in log && k !in shown && k !in Latest(local)
    ensures var joined := Latest(Merged(local, other, |other|));
            var after := MergedShown(shown, joined, FreshKeys(local, joined));
            k in after ==> after[k] == log[k]
  {
    var merged := Merged(local, other, |other|);
    var after := MergedShown(shown, Latest(merged), FreshKeys(local, Latest(merged)));
    if k in after {
      ShownIsMerged(local, shown, merged, after[k]);
      MergedWithin(local, other);
      LatestIsView(local);
      assert after[k] in Ops(merged) && after[k] in Ops(local) + Ops(other);
    }
  }

  /** In particular: two handles cloned from a replica in any valid state insert at two keys, and a peer merges. */
  lemma ClonesDisagree(n0: Node, n1: Node, n2: Node, id: ReplicaId, k1: string, v1: Value, k2: string, v2: Value,
                       local: seq<Operation>, shown: View, other: seq<Operation>)
    requires ViewWithin(n0.shown, n0.clock) && ViewWithin(n0.log, n0.clock) && n0.clock < U64_MAX && k1 != k2
    requires var stamp := Version(NextTick(n0.clock), id);
             && Writes(n0, Insert(k1, v1, stamp), n1) && Writes(n1.(clock := n0.clock), Insert(k2, v2, stamp), n2)
             && !SeenIn(local, stamp) && forall k :: k in shown ==> shown[k].version != stamp
    requires Lists(other, n2.log) && k1 !in shown && k2 !in shown && k1 !in Latest(local) && k2 !in Latest(local)
    ensures k1 in Contents(n2.shown) && k2 in Contents(n2.shown)
    ensures var joined := Latest(Merged(local, other, |other|));
            var after := MergedShown(shown, joined, FreshKeys(local, joined));
            !(k1 in after && k2 in after)
  {
    var stamp := Version(NextTick(n0.clock), id);
    var a, b := Insert(k1, v1, stamp), Insert(k2, v2, stamp);
    NextIsAfter(n0.shown, n0.clock, id);
    NextIsAfter(n0.log, n0.clock, id);
    PeerShowsOne(n0, n1, n0.clock, n2, a, b, local, shown, other);
    TwoUnderOneStamp(n0, n1, n0.clock, n2, a, b);
    OnlyListed(n2.log, local, shown, other, k1);
    OnlyListed(n2.log, local, shown, other, k2);
  }
}
