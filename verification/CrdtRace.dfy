/**
 * One replica whose merges take their time: a merge joins the logs under the lock and then applies what was new, one
 * operation at a time, while other calls on the same map go on. Local writes and single applications are the atomic
 * steps; which of them come in between is open.
 */
module CrdtRace {
  import opened CrdtView
  import opened CrdtLog
  import opened CrdtMap
  import opened CrdtCluster

  /** A node, and the operations that merges have logged and are still to apply. */
  datatype Race = Race(node: Node, pending: set<Operation>)

  /** `again` are keys that a merge takes up although they are not new, because its look at the log was out of date. */
  datatype Move =
    | Write(op: Operation, after: Node)
    | Forget(expired: set<string>)
    | Advance(clock: nat)
    | Begin(message: View, again: set<string>)
    | Apply(op: Operation)

  /** Room in the log and on the clock are as for a replica whose log is not cut. */
  ghost predicate CanMove(s: Race, m: Move) {
    match m
    case Write(op, after) =>
      && s.node.clock < U64_MAX && op.version.timestamp == s.node.clock + 1
      && HasRoom(s.node.log, op.key) && Writes(s.node, op, after)
    case Advance(clock) => s.node.clock <= clock <= U64_MAX
    case Apply(op) => op in s.pending
    case _ => true
  }

  /** What a merge that has joined the logs will apply. */
  function Due(log: View, joined: View, again: set<string>): set<Operation> {
    set k | k in joined && (k in NewKeys(log, joined) || k in again) :: joined[k]
  }

  function Later(clock: nat, timestamp: nat): nat {
    if clock < timestamp then timestamp else clock
  }

  ghost function Moved(s: Race, m: Move): Race {
    match m
    case Write(_, after) => s.(node := after)
    case Forget(expired) => s.(node := s.node.(shown := Forgotten(s.node.shown, expired)))
    case Advance(clock) => s.(node := s.node.(clock := clock))
    case Begin(message, again) =>
      var joined := Join(s.node.log, message);
      Race(s.node.(log := joined), s.pending + Due(s.node.log, joined, again))
    case Apply(op) =>
      Race(s.node.(shown := Applied(s.node.shown, op), clock := Later(s.node.clock, op.version.timestamp)),
           s.pending - {op})
  }

  ghost predicate CanRace(s: Race, moves: seq<Move>)
    decreases |moves|
  {
    moves != [] ==> CanMove(s, moves[0]) && CanRace(Moved(s, moves[0]), moves[1..])
  }

  ghost function Raced(s: Race, moves: seq<Move>): Race
    decreases |moves|
  {
    if moves == [] then s else Raced(Moved(s, moves[0]), moves[1..])
  }

  // ---------------------------------------------------------------- what every move keeps

  /** All operations are drawn from one set, in which versions identify them. */
  ghost predicate Drawn(view: View, ops: set<Operation>) {
    forall k :: k in view ==> view[k] in ops
  }

  ghost predicate MoveDrawn(m: Move, ops: set<Operation>) {
    match m
    case Write(op, _) => op in ops
    case Begin(message, _) => Drawn(message, ops)
    case _ => true
  }

  ghost predicate MovesDrawn(moves: seq<Move>, ops: set<Operation>) {
    forall i :: 0 <= i < |moves| ==> MoveDrawn(moves[i], ops)
  }

  /** Nothing shown or pending comes after what is logged, and the clock has witnessed what is not pending. */
  ghost predicate Ahead(s: Race, k: string) {
    && (k in s.node.shown ==> k in s.node.log && !s.node.log[k].version.Before(s.node.shown[k].version))
    && (k in s.node.log && s.node.log[k] !in s.pending ==> s.node.log[k].version.timestamp <= s.node.clock)
  }

  ghost predicate PendingLogged(s: Race) {
    forall q :: q in s.pending ==> q.key in s.node.log && !s.node.log[q.key].version.Before(q.version)
  }

  ghost predicate Sound(s: Race, ops: set<Operation>) {
    && Coherent(ops) && Drawn(s.node.shown, ops) && Drawn(s.node.log, ops) && s.pending <= ops
    && PendingLogged(s) && forall k :: Ahead(s, k)
  }

  /** A key is shown as logged, or will be once its latest operation has been applied. */
  predicate OnCourse(s: Race, k: string) {
    (k in s.node.log && s.node.log[k] in s.pending) || InStepAt(s.node.shown, s.node.log, k)
  }

  /** An insertion is applied where a later removal has been logged, applied or skipped, and forgotten. */
  predicate Overtaken(s: Race, m: Move, k: string) {
    && m.Apply? && m.op.key == k && m.op.Insert? && k !in s.node.shown
    && k in s.node.log && s.node.log[k] != m.op && s.node.log[k] !in s.pending
  }

  // ---------------------------------------------------------------- one move

  lemma MovedAhead(s: Race, m: Move, ops: set<Operation>, k: string)
    requires Sound(s, ops) && CanMove(s, m)
    ensures Ahead(Moved(s, m), k)
  {
    assert Ahead(s, k);
    if m.Apply? && m.op.key == k {
      VersionsTotal(m.op.version, s.node.log[k].version);
    }
  }

  lemma MovedDrawn(s: Race, m: Move, ops: set<Operation>)
    requires Sound(s, ops) && CanMove(s, m) && MoveDrawn(m, ops)
    ensures var next := Moved(s, m);
            && Drawn(next.node.shown, ops) && Drawn(next.node.log, ops) && next.pending <= ops && PendingLogged(next)
  {
    if m.Begin? {
      BeginPending(s, m.message, m.again, ops);
    }
  }

  lemma BeginPending(s: Race, message: View, again: set<string>, ops: set<Operation>)
    requires Drawn(s.node.log, ops) && Drawn(message, ops) && s.pending <= ops && PendingLogged(s)
    ensures var next := Moved(s, Begin(message, again));
            Drawn(next.node.log, ops) && next.pending <= ops && PendingLogged(next)
  {
    var joined := Join(s.node.log, message);
    forall q | q in s.pending + Due(s.node.log, joined, again)
      ensures q in ops && q.key in joined && !joined[q.key].version.Before(q.version)
    {
    }
  }

  lemma MovedSound(s: Race, m: Move, ops: set<Operation>)
    requires Sound(s, ops) && CanMove(s, m) && MoveDrawn(m, ops)
    ensures Sound(Moved(s, m), ops)
  {
    MovedDrawn(s, m, ops);
    forall k
      ensures Ahead(Moved(s, m), k)
    {
      MovedAhead(s, m, ops, k);
    }
  }

  lemma ApplyAt(s: Race, op: Operation, ops: set<Operation>, k: string)
    requires op in s.pending && Sound(s, ops) && OnCourse(s, k)
    ensures OnCourse(Moved(s, Apply(op)), k) <==> !Overtaken(s, Apply(op), k)
  {
    assert Ahead(s, k);
    if op.key == k {
      VersionsTotal(op.version, s.node.log[k].version);
    }
  }

  lemma WriteAt(s: Race, op: Operation, after: Node, k: string)
    requires CanMove(s, Write(op, after)) && Ahead(s, k) && OnCourse(s, k)
    ensures OnCourse(s.(node := after), k)
  {
  }

  lemma BeginAt(s: Race, message: View, again: set<string>, k: string)
    requires OnCourse(s, k)
    ensures OnCourse(Moved(s, Begin(message, again)), k)
  {
  }

  /** Every move keeps a key on course, except an application that is overtaken. */
  lemma CourseIff(s: Race, m: Move, ops: set<Operation>, k: string)
    requires Sound(s, ops) && CanMove(s, m) && OnCourse(s, k)
    ensures OnCourse(Moved(s, m), k) <==> !Overtaken(s, m, k)
  {
    match m
    case Write(op, after) =>
      assert Ahead(s, k);
      WriteAt(s, op, after, k);
    case Begin(message, again) => BeginAt(s, message, again, k);
    case Apply(op) => ApplyAt(s, op, ops, k);
    case _ =>
  }

  // ---------------------------------------------------------------- every interleaving

  ghost predicate CourseThroughout(s: Race, moves: seq<Move>, k: string)
    decreases |moves|
  {
    OnCourse(s, k) && (moves != [] ==> CourseThroughout(Moved(s, moves[0]), moves[1..], k))
  }

  ghost predicate NeverOvertaken(s: Race, moves: seq<Move>, k: string)
    decreases |moves|
  {
    moves != [] ==> !Overtaken(s, moves[0], k) && NeverOvertaken(Moved(s, moves[0]), moves[1..], k)
  }

  lemma {:induction false} RaceIff(s: Race, moves: seq<Move>, ops: set<Operation>, k: string)
    requires Sound(s, ops) && OnCourse(s, k) && CanRace(s, moves) && MovesDrawn(moves, ops)
    ensures CourseThroughout(s, moves, k) <==> NeverOvertaken(s, moves, k)
    ensures NeverOvertaken(s, moves, k) ==> OnCourse(Raced(s, moves), k)
    decreases |moves|
  {
    if moves == [] {
    } else {
      MovedSound(s, moves[0], ops);
      CourseIff(s, moves[0], ops, k);
      if !Overtaken(s, moves[0], k) {
        RaceIff(Moved(s, moves[0]), moves[1..], ops, k);
      }
    }
  }

  const QUIET := Race(EMPTY, {})

  /**
   * However the steps of merges, local writes, the clock and the collection of tombstones interleave: a key is shown
   * as logged, or has its latest operation pending, at every point, exactly if no application is overtaken.
   */
  lemma InterleavedMergesIff(moves: seq<Move>, ops: set<Operation>, k: string)
    requires Coherent(ops) && CanRace(QUIET, moves) && MovesDrawn(moves, ops)
    ensures CourseThroughout(QUIET, moves, k) <==> NeverOvertaken(QUIET, moves, k)
  {
    RaceIff(QUIET, moves, ops, k);
  }

  /** So once nothing is pending, readers see what the log amounts to. */
  lemma SettledReads(moves: seq<Move>, ops: set<Operation>)
    requires Coherent(ops) && CanRace(QUIET, moves) && MovesDrawn(moves, ops) && Raced(QUIET, moves).pending == {}
    requires forall k :: NeverOvertaken(QUIET, moves, k)
    ensures var node := Raced(QUIET, moves).node; Reads(node) == Contents(node.log)
  {
    var end := Raced(QUIET, moves);
    forall k
      ensures InStepAt(end.node.shown, end.node.log, k)
    {
      assert NeverOvertaken(QUIET, moves, k);
      RaceIff(QUIET, moves, ops, k);
    }
    InStepReads(end.node);
  }

  // ---------------------------------------------------------------- one merge at a time

  /** No merge begins before the last is through, and no tombstone is collected where one has work pending. */
  predicate Calm(s: Race, m: Move) {
    match m
    case Begin(_, _) => s.pending == {}
    case Forget(expired) => forall q :: q in s.pending ==> q.key !in expired
    case _ => true
  }

  ghost predicate CalmThroughout(s: Race, moves: seq<Move>)
    decreases |moves|
  {
    moves != [] ==> Calm(s, moves[0]) && CalmThroughout(Moved(s, moves[0]), moves[1..])
  }

  /** What is pending is its key's latest operation, unless something later is shown. */
  ghost predicate InTurn(s: Race, q: Operation) {
    q.key in s.node.log
    && (s.node.log[q.key] == q || (q.key in s.node.shown && q.version.Before(s.node.shown[q.key].version)))
  }

  ghost predicate AllInTurn(s: Race) {
    forall q :: q in s.pending ==> InTurn(s, q)
  }

  lemma WriteInTurn(s: Race, op: Operation, after: Node, q: Operation)
    requires CanMove(s, Write(op, after)) && InTurn(s, q)
    ensures InTurn(s.(node := after), q)
  {
    VersionsTotal(op.version, q.version);
  }

  lemma ApplyInTurn(s: Race, op: Operation, q: Operation)
    requires InTurn(s, op) && InTurn(s, q) && Ahead(s, q.key) && PendingLogged(s) && op in s.pending && q in s.pending
    requires op != q && (op.version == q.version ==> op == q)
    ensures InTurn(Moved(s, Apply(op)), q)
  {
    if op.key == q.key {
      VersionsTotal(op.version, q.version);
    }
  }

  lemma BeginInTurn(s: Race, message: View, again: set<string>, q: Operation)
    requires s.pending == {} && q in Moved(s, Begin(message, again)).pending
    ensures InTurn(Moved(s, Begin(message, again)), q)
  {
  }

  lemma CalmInTurn(s: Race, m: Move, ops: set<Operation>, q: Operation)
    requires Sound(s, ops) && CanMove(s, m) && Calm(s, m) && AllInTurn(s) && q in Moved(s, m).pending
    ensures InTurn(Moved(s, m), q)
  {
    match m
    case Write(op, after) => WriteInTurn(s, op, after, q);
    case Apply(op) =>
      assert InTurn(s, op) && InTurn(s, q) && Ahead(s, q.key);
      ApplyInTurn(s, op, q);
    case Begin(message, again) => BeginInTurn(s, message, again, q);
    case Forget(_) => assert InTurn(s, q);
    case Advance(_) => assert InTurn(s, q);
  }

  lemma {:induction false} CalmNeverOvertaken(s: Race, moves: seq<Move>, ops: set<Operation>, k: string)
    requires Sound(s, ops) && AllInTurn(s) && CanRace(s, moves) && MovesDrawn(moves, ops) && CalmThroughout(s, moves)
    ensures NeverOvertaken(s, moves, k)
    decreases |moves|
  {
    if moves == [] {
    } else {
      var next := Moved(s, moves[0]);
      MovedSound(s, moves[0], ops);
      forall q | q in next.pending
        ensures InTurn(next, q)
      {
        CalmInTurn(s, moves[0], ops, q);
      }
      CalmNeverOvertaken(next, moves[1..], ops, k);
    }
  }

  /** Merges one at a time, with local writes at any point in between, leave readers in step with the log. */
  lemma CalmRunsSettle(moves: seq<Move>, ops: set<Operation>)
    requires Coherent(ops) && CanRace(QUIET, moves) && MovesDrawn(moves, ops) && CalmThroughout(QUIET, moves)
    requires Raced(QUIET, moves).pending == {}
    ensures var node := Raced(QUIET, moves).node; Reads(node) == Contents(node.log)
  {
    forall k
      ensures NeverOvertaken(QUIET, moves, k)
    {
      CalmNeverOvertaken(QUIET, moves, ops, k);
    }
    SettledReads(moves, ops);
  }

  // ---------------------------------------------------------------- a merge that nothing disturbs

  function Applies(ops: seq<Operation>): seq<Move> {
    if ops == [] then [] else [Apply(ops[0])] + Applies(ops[1..])
  }

  lemma FirstMove(s: Race, m: Move, rest: seq<Move>)
    ensures Raced(s, [m] + rest) == Raced(Moved(s, m), rest)
    ensures CanRace(s, [m] + rest) <==> CanMove(s, m) && CanRace(Moved(s, m), rest)
  {
    assert ([m] + rest)[1..] == rest;
  }

  lemma {:induction false} AppliedFirst(shown: View, ops: seq<Operation>, n: nat)
    requires 1 <= n <= |ops|
    ensures AppliedAll(shown, ops, n) == AppliedAll(Applied(shown, ops[0]), ops[1..], n - 1)
  {
    if n == 1 {
      assert AppliedAll(shown, ops, 0) == shown;
    } else {
      AppliedFirst(shown, ops, n - 1);
    }
  }

  lemma {:induction false} AppliesRun(s: Race, ops: seq<Operation>)
    requires s.pending == Ops(ops) && DistinctKeys(ops)
    ensures CanRace(s, Applies(ops))
    ensures var end := Raced(s, Applies(ops));
            end.pending == {} && end.node.log == s.node.log && end.node.shown == AppliedAll(s.node.shown, ops, |ops|)
    decreases |ops|
  {
    if ops == [] {
    } else {
      assert ops == [ops[0]] + ops[1..] && ops[0] in Ops(ops);
      assert ops[0] !in ops[1..];
      FirstMove(s, Apply(ops[0]), Applies(ops[1..]));
      assert Ops(ops) - {ops[0]} == Ops(ops[1..]);
      assert DistinctKeys(ops[1..]) by {
        assert forall i :: 0 <= i < |ops[1..]| ==> ops[1..][i] == ops[i + 1];
      }
      AppliesRun(Moved(s, Apply(ops[0])), ops[1..]);
      AppliedFirst(s.node.shown, ops, |ops|);
    }
  }

  lemma DueOps(log: View, joined: View, ops: seq<Operation>)
    requires FromView(ops, joined) && KeysOf(ops, |ops|) == NewKeys(log, joined)
    ensures {} + Due(log, joined, {}) == Ops(ops)
  {
    forall op
      ensures op in Due(log, joined, {}) <==> op in Ops(ops)
    {
      if op in Due(log, joined, {}) {
        assert op.key in KeysOf(ops, |ops|);
      }
      if op in ops {
        assert op.key in KeysOf(ops, |ops|);
      }
    }
  }

  /** Left alone, a merge ends with the log and the entries that the contract of the map's `Merge` states. */
  lemma UndisturbedMerge(node: Node, message: View, ops: seq<Operation>)
    requires DistinctKeys(ops) && FromView(ops, Join(node.log, message))
    requires KeysOf(ops, |ops|) == NewKeys(node.log, Join(node.log, message))
    ensures var joined := Join(node.log, message);
            var end := Raced(Race(node, {}), [Begin(message, {})] + Applies(ops));
            && CanRace(Race(node, {}), [Begin(message, {})] + Applies(ops))
            && end.pending == {} && end.node.log == joined
            && end.node.shown == MergedShown(node.shown, joined, NewKeys(node.log, joined))
  {
    var joined := Join(node.log, message);
    var begun := Moved(Race(node, {}), Begin(message, {}));
    DueOps(node.log, joined, ops);
    FirstMove(Race(node, {}), Begin(message, {}), Applies(ops));
    AppliesRun(begun, ops);
    AppliedAllIs(node.shown, joined, ops, |ops|);
  }

  // ---------------------------------------------------------------- two merges at a time

  /** A merge that brings one operation, newer than what is logged. */
  function Bring(op: Operation): Move {
    Begin(map[op.key := op], {})
  }

  function Brought(s: Race, op: Operation): Race {
    Race(s.node.(log := s.node.log[op.key := op]), s.pending + {op})
  }

  /** One merge brings an insertion, a second the removal that came after it, and the second is through first. */
  function RemovalFirst(insertion: Operation, removal: Operation): seq<Move> {
    [Bring(insertion)] + ([Bring(removal)] + ([Apply(removal)] + ([Apply(insertion)] + [])))
  }

  lemma BeginNew(s: Race, op: Operation)
    requires op.key in s.node.log ==> s.node.log[op.key].version.Before(op.version)
    ensures Moved(s, Bring(op)) == Brought(s, op)
  {
    var joined := Join(s.node.log, map[op.key := op]);
    assert joined == s.node.log[op.key := op];
    assert Due(s.node.log, joined, {}) == {op};
  }

  lemma BringFirst(s: Race, op: Operation, rest: seq<Move>)
    requires op.key in s.node.log ==> s.node.log[op.key].version.Before(op.version)
    ensures Raced(s, [Bring(op)] + rest) == Raced(Brought(s, op), rest)
    ensures CanRace(s, [Bring(op)] + rest) <==> CanRace(Brought(s, op), rest)
  {
    FirstMove(s, Bring(op), rest);
    BeginNew(s, op);
  }

  lemma BothApplied(s: Race, insertion: Operation, removal: Operation)
    requires insertion.Insert? && removal.Remove? && insertion.key == removal.key && insertion.key !in s.node.shown
    requires insertion in s.pending && removal in s.pending
    ensures var moves := [Apply(removal)] + ([Apply(insertion)] + []);
            var end := Raced(s, moves);
            && CanRace(s, moves) && end.pending == s.pending - {removal} - {insertion}
            && end.node.log == s.node.log && end.node.shown == s.node.shown[insertion.key := insertion]
  {
    FirstMove(s, Apply(removal), [Apply(insertion)] + []);
    FirstMove(Moved(s, Apply(removal)), Apply(insertion), []);
  }

  lemma BothBrought(s: Race, insertion: Operation, removal: Operation)
    requires insertion.key == removal.key && insertion !in s.pending && removal !in s.pending
    ensures var two := Brought(Brought(s, insertion), removal);
            && two.node == s.node.(log := s.node.log[removal.key := removal])
            && two.pending - {removal} - {insertion} == s.pending && insertion in two.pending && removal in two.pending
  {
    assert s.node.log[insertion.key := insertion][removal.key := removal] == s.node.log[removal.key := removal];
    assert s.pending + {insertion} + {removal} - {removal} - {insertion} == s.pending;
  }

  lemma RemovalFirstRuns(s: Race, insertion: Operation, removal: Operation)
    requires insertion.key == removal.key && insertion.version.Before(removal.version) && insertion.key !in s.node.log
    ensures var two, rest := Brought(Brought(s, insertion), removal), [Apply(removal)] + ([Apply(insertion)] + []);
            && Raced(s, RemovalFirst(insertion, removal)) == Raced(two, rest)
            && (CanRace(s, RemovalFirst(insertion, removal)) <==> CanRace(two, rest))
  {
    var rest := [Apply(removal)] + ([Apply(insertion)] + []);
    BringFirst(s, insertion, [Bring(removal)] + rest);
    BringFirst(Brought(s, insertion), removal, rest);
  }

  /**
   * Wherever a map has neither logged nor shown the key: the entry is shown in the end, although the log says that it
   * was removed and nothing of it is pending.
   */
  lemma MergesOvertake(s: Race, insertion: Operation, removal: Operation)
    requires insertion.Insert? && removal.Remove? && insertion.key == removal.key
    requires insertion.version.Before(removal.version) && insertion !in s.pending && removal !in s.pending
    requires insertion.key !in s.node.shown && insertion.key !in s.node.log
    ensures CanRace(s, RemovalFirst(insertion, removal))
    ensures var end := Raced(s, RemovalFirst(insertion, removal));
            && end.pending == s.pending && end.node.log == s.node.log[removal.key := removal]
            && end.node.shown == s.node.shown[insertion.key := insertion]
  {
    RemovalFirstRuns(s, insertion, removal);
    BothBrought(s, insertion, removal);
    BothApplied(Brought(Brought(s, insertion), removal), insertion, removal);
  }
}
