/** The cursor successor graph: opaque post ids ordered only by observed base-to-successor edges. */
module Cursors {
  import opened Basics

  /** Per channel: the acknowledged cursor, a number for every id seen, and the edges. */
  datatype Table = Table(
    cursors: map<string, string>,
    versions: map<string, map<string, U64>>,
    successors: map<string, map<string, string>>)

  /** The graph of one channel; an absent inner map reads as an empty one. */
  datatype Line = Line(versions: map<string, U64>, successors: map<string, string>)

  function LineOf(t: Table, channelID: string): Line {
    Line(if channelID in t.versions then t.versions[channelID] else map[],
         if channelID in t.successors then t.successors[channelID] else map[])
  }

  function CursorOf(t: Table, channelID: string): string {
    if channelID in t.cursors then t.cursors[channelID] else ""
  }

  /** The number of an id; unknown ids, and the empty base, count as 0. */
  function Version(l: Line, id: string): U64 {
    if id in l.versions then l.versions[id] else 0
  }

  function WithLine(t: Table, channelID: string, l: Line): Table {
    t.(versions := t.versions[channelID := l.versions], successors := t.successors[channelID := l.successors])
  }

  lemma WithLineTwice(t: Table, channelID: string, l: Line, m: Line)
    ensures WithLine(WithLine(t, channelID, l), channelID, m) == WithLine(t, channelID, m)
  {
  }

  /** RecordCursor on values. */
  function Record(t: Table, channelID: string, base: string, candidate: string): (Table, bool) {
    if channelID == "" || candidate == "" || base == candidate then (t, false)
    else
      var l := LineOf(t, channelID);
      if base in l.successors then (WithLine(t, channelID, l), l.successors[base] == candidate)
      else if candidate in l.versions then (WithLine(t, channelID, l), false)
      else
        (WithLine(t, channelID, Link(l, base, candidate)), true)
  }

  /** A new edge: an unknown base becomes a head, and the candidate gets the number after its base. */
  function Link(l: Line, base: string, candidate: string): Line {
    var rooted := if base != "" && base !in l.versions then l.versions[base := 0] else l.versions;
    Line(rooted[candidate := Increment(Version(l, base))], l.successors[base := candidate])
  }

  /** AdvanceCursor on values. */
  function Advance(t: Table, channelID: string, candidate: string): (Table, bool) {
    if channelID == "" || candidate == "" then (t, false)
    else
      var current, successors := CursorOf(t, channelID), LineOf(t, channelID).successors;
      if current == candidate then (t, false)
      else if current !in successors || successors[current] != candidate then (t, false)
      else (t.(cursors := t.cursors[channelID := candidate]), true)
  }

  predicate Edge(l: Line, x: string, y: string) {
    x in l.successors && l.successors[x] == y
  }

  /** Disjoint chains, numbered from their heads: the representation invariant of one channel. */
  ghost predicate Sound(l: Line) {
    && "" !in l.versions
    && |l.successors| < U64_LIMIT
    && (forall x, y | Edge(l, x, y) ::
          (x == "" || x in l.versions) && y in l.versions && l.versions[y] == Version(l, x) + 1)
    && (forall w, x, y | Edge(l, w, y) && Edge(l, x, y) :: w == x)
    && (forall y | y in l.versions :: l.versions[y] <= |l.successors|)
  }

  /** Only heads are numbered 0: every other id has a predecessor. */
  ghost predicate Headed(l: Line) {
    forall y | y in l.versions && l.versions[y] > 0 :: exists x :: Edge(l, x, y)
  }

  /** Edges and numbers, once recorded, stay. */
  predicate Extends(l: Line, m: Line) {
    && (forall x | x in l.successors :: x in m.successors && m.successors[x] == l.successors[x])
    && (forall x | x in l.versions :: x in m.versions && m.versions[x] == l.versions[x])
  }

  lemma LinkExtends(l: Line, base: string, candidate: string)
    requires base !in l.successors && candidate !in l.versions
    ensures Extends(l, Link(l, base, candidate)) && |Link(l, base, candidate).successors| == |l.successors| + 1
  {
  }

  lemma RecordGrowsLine(t: Table, channelID: string, base: string, candidate: string, other: string)
    ensures var (u, ok) := Record(t, channelID, base, candidate);
            var l, m := LineOf(t, other), LineOf(u, other);
            && Extends(l, m) && u.cursors == t.cursors
            && (other != channelID ==> m == l)
            && |m.successors| <= |l.successors| + 1
            && (other == channelID && ok ==> Edge(m, base, candidate))
  {
    RecordLinksOrNothing(t, channelID, base, candidate);
    var l := LineOf(t, channelID);
    if base !in l.successors && candidate !in l.versions {
      LinkExtends(l, base, candidate);
    }
  }

  lemma RecordLinksOrNothing(t: Table, channelID: string, base: string, candidate: string)
    ensures var l, m := LineOf(t, channelID), LineOf(Record(t, channelID, base, candidate).0, channelID);
            m == l || (m == Link(l, base, candidate)
                       && base !in l.successors && candidate !in l.versions && candidate != "" && candidate != base)
  {
  }

  lemma LinkEdges(l: Line, base: string, candidate: string, x: string, y: string)
    requires base !in l.successors
    ensures Edge(Link(l, base, candidate), x, y) <==> Edge(l, x, y) || (x == base && y == candidate)
  {
  }

  lemma LinkKeepsSound(l: Line, base: string, candidate: string)
    requires Sound(l) && |l.successors| + 1 < U64_LIMIT
    requires base !in l.successors && candidate !in l.versions && candidate != "" && candidate != base
    ensures Sound(Link(l, base, candidate))
  {
    var m := Link(l, base, candidate);
    assert |m.successors| == |l.successors| + 1;
    assert Version(l, base) <= |l.successors|;
    forall x, y | Edge(m, x, y)
      ensures (x == "" || x in m.versions) && y in m.versions && m.versions[y] == Version(m, x) + 1
    {
      LinkEdges(l, base, candidate, x, y);
    }
    forall w, x, y | Edge(m, w, y) && Edge(m, x, y) ensures w == x {
      LinkEdges(l, base, candidate, w, y);
      LinkEdges(l, base, candidate, x, y);
    }
  }

  lemma LinkKeepsHeaded(l: Line, base: string, candidate: string)
    requires Headed(l) && base !in l.successors && candidate !in l.versions
    ensures Headed(Link(l, base, candidate))
  {
    var m := Link(l, base, candidate);
    forall y | y in m.versions && m.versions[y] > 0 ensures exists x :: Edge(m, x, y) {
      if y == candidate {
        assert Edge(m, base, y);
      } else {
        var x :| Edge(l, x, y);
        assert Edge(m, x, y);
      }
    }
  }

  /** True is returned exactly when the edge stands afterwards, and that is unless it would be a second
      successor of its base or lead to an id already numbered. */
  lemma RecordReportsTheEdge(t: Table, channelID: string, base: string, candidate: string)
    requires Sound(LineOf(t, channelID))
    ensures var (u, ok) := Record(t, channelID, base, candidate);
            var l := LineOf(t, channelID);
            && (ok <==> channelID != "" && Edge(LineOf(u, channelID), base, candidate))
            && (ok <==> channelID != "" && candidate != "" && candidate != base
                        && (Edge(l, base, candidate) || (base !in l.successors && candidate !in l.versions)))
  {
  }

  // ---- Runs of records and acknowledgements ----

  datatype Op =
    | RecordOp(channelID: string, base: string, candidate: string)
    | AckOp(channelID: string, candidate: string)

  function Step(t: Table, op: Op): (Table, bool) {
    match op
    case RecordOp(ch, base, candidate) => Record(t, ch, base, candidate)
    case AckOp(ch, candidate) => Advance(t, ch, candidate)
  }

  function RunOps(t: Table, ops: seq<Op>): Table {
    if ops == [] then t else Step(RunOps(t, ops[..|ops| - 1]), ops[|ops| - 1]).0
  }

  /** In every reachable state a channel is a set of disjoint acyclic chains; nothing recorded is ever
      changed; and a version never exceeds the number of edges, so it cannot wrap before 2^64 records. */
  lemma {:induction false} LinesStaySound(t: Table, ops: seq<Op>, channelID: string)
    requires Sound(LineOf(t, channelID)) && |LineOf(t, channelID).successors| + |ops| < U64_LIMIT
    ensures var l, m := LineOf(t, channelID), LineOf(RunOps(t, ops), channelID);
            && Sound(m) && Extends(l, m) && |m.successors| <= |l.successors| + |ops|
            && (Headed(l) ==> Headed(m))
  {
    if ops != [] {
      var init, last := ops[..|ops| - 1], ops[|ops| - 1];
      LinesStaySound(t, init, channelID);
      StepKeepsLine(RunOps(t, init), last, channelID);
    }
  }

  lemma StepKeepsLine(t: Table, op: Op, channelID: string)
    requires Sound(LineOf(t, channelID)) && |LineOf(t, channelID).successors| + 1 < U64_LIMIT
    ensures var l, m := LineOf(t, channelID), LineOf(Step(t, op).0, channelID);
            && Sound(m) && Extends(l, m) && |m.successors| <= |l.successors| + 1
            && (Headed(l) ==> Headed(m))
  {
    if op.RecordOp? {
      RecordGrowsLine(t, op.channelID, op.base, op.candidate, channelID);
      if op.channelID == channelID {
        var l, m := LineOf(t, channelID), LineOf(Step(t, op).0, channelID);
        RecordLinksOrNothing(t, channelID, op.base, op.candidate);
        if m != l {
          LinkKeepsSound(l, op.base, op.candidate);
          if Headed(l) {
            LinkKeepsHeaded(l, op.base, op.candidate);
          }
        }
      }
    }
  }

  /** From a table that knows no edges, with any cursors. */
  lemma ReachableLinesAreSound(t: Table, ops: seq<Op>, channelID: string)
    requires t.versions == map[] && t.successors == map[] && |ops| < U64_LIMIT
    ensures Sound(LineOf(RunOps(t, ops), channelID)) && Headed(LineOf(RunOps(t, ops), channelID))
  {
    LinesStaySound(t, ops, channelID);
  }

  // ---- The numbers agree with the graph ----

  /** `n` edges forward. */
  function Walk(l: Line, x: string, n: nat): Option<string> {
    if n == 0 then Some(x)
    else
      match Walk(l, x, n - 1)
      case None => None
      case Some(y) => if y in l.successors then Some(l.successors[y]) else None
  }

  predicate Reaches(l: Line, x: string, y: string, n: nat) {
    Walk(l, x, n) == Some(y)
  }

  /** A path along edges, each taken in either direction. */
  predicate IsLink(l: Line, path: seq<string>) {
    path != [] && forall i | 0 <= i < |path| - 1 :: Edge(l, path[i], path[i + 1]) || Edge(l, path[i + 1], path[i])
  }

  ghost predicate OnOneChain(l: Line, x: string, y: string) {
    exists path :: IsLink(l, path) && path[0] == x && path[|path| - 1] == y
  }

  lemma {:induction false} WalkRaisesVersion(l: Line, x: string, y: string, n: nat)
    requires Sound(l) && Reaches(l, x, y, n)
    ensures Version(l, y) == Version(l, x) + n
    decreases n
  {
    if n > 0 {
      WalkRaisesVersion(l, x, Walk(l, x, n - 1).value, n - 1);
    }
  }

  lemma {:induction false} WalkContinues(l: Line, z: string, x: string, i: nat, n: nat)
    requires Reaches(l, z, x, i)
    ensures Walk(l, x, n) == Walk(l, z, i + n)
  {
    if n > 0 {
      WalkContinues(l, z, x, i, n - 1);
    }
  }

  lemma {:induction false} CommonAncestor(l: Line, path: seq<string>) returns (z: string, i: nat, j: nat)
    requires Sound(l) && IsLink(l, path)
    ensures Reaches(l, z, path[0], i) && Reaches(l, z, path[|path| - 1], j)
  {
    if |path| == 1 {
      z, i, j := path[0], 0, 0;
    } else {
      var init, y, w := path[..|path| - 1], path[|path| - 2], path[|path| - 1];
      z, i, j := CommonAncestor(l, init);
      if Edge(l, y, w) {
        j := j + 1;
      } else if j > 0 {
        assert Walk(l, z, j - 1).Some? && Edge(l, Walk(l, z, j - 1).value, y);
        j := j - 1;
      } else {
        assert z == y;
        assert Reaches(l, w, y, 1) by { assert Walk(l, w, 0) == Some(w); }
        WalkContinues(l, w, y, 1, i);
        z, i := w, i + 1;
      }
    }
  }

  /** On one chain, the integer order is the graph order: `y` lies `n` edges after `x` exactly when its
      number is greater by `n`. */
  lemma VersionsIndexReachability(l: Line, x: string, y: string, n: nat)
    requires Sound(l) && OnOneChain(l, x, y)
    ensures Reaches(l, x, y, n) <==> Version(l, y) == Version(l, x) + n
  {
    var path :| IsLink(l, path) && path[0] == x && path[|path| - 1] == y;
    var z, i, j := CommonAncestor(l, path);
    WalkRaisesVersion(l, z, x, i);
    WalkRaisesVersion(l, z, y, j);
    WalkContinues(l, z, x, i, n);
    if Reaches(l, x, y, n) {
      WalkRaisesVersion(l, x, y, n);
    }
  }

  /** Every id's number is its distance from the head of its chain. */
  lemma {:induction false} VersionIsDepth(l: Line, y: string) returns (head: string)
    requires Sound(l) && Headed(l) && y in l.versions
    ensures Reaches(l, head, y, l.versions[y]) && Version(l, head) == 0
    ensures forall x :: !Edge(l, x, head)
    decreases Version(l, y)
  {
    if l.versions[y] == 0 {
      head := y;
    } else {
      var x :| Edge(l, x, y);
      if x in l.versions {
        head := VersionIsDepth(l, x);
      } else {
        head := x;
      }
    }
  }

  lemma ChainsAreAcyclic(l: Line, x: string, n: nat)
    requires Sound(l) && Reaches(l, x, x, n)
    ensures n == 0
  {
    WalkRaisesVersion(l, x, x, n);
  }

  // ---- The cursor's walk ----

  /** The values the cursor takes over a run, one more for every acknowledgement accepted. */
  function Trace(t: Table, ops: seq<Op>, channelID: string): seq<string> {
    if ops == [] then [CursorOf(t, channelID)]
    else
      var init, last := ops[..|ops| - 1], ops[|ops| - 1];
      var trace := Trace(t, init, channelID);
      if last.AckOp? && last.channelID == channelID && Step(RunOps(t, init), last).1
      then trace + [last.candidate]
      else trace
  }

  predicate FollowsEdges(l: Line, path: seq<string>) {
    forall i | 0 <= i < |path| - 1 :: Edge(l, path[i], path[i + 1])
  }

  lemma {:induction false} PathVersions(l: Line, path: seq<string>, i: nat, j: nat)
    requires Sound(l) && FollowsEdges(l, path) && i <= j < |path|
    ensures Version(l, path[j]) == Version(l, path[i]) + j - i
  {
    if i < j {
      PathVersions(l, path, i, j - 1);
      assert Edge(l, path[j - 1], path[j - 1 + 1]);
    }
  }

  lemma {:induction false} TraceFollowsEdges(t: Table, ops: seq<Op>, channelID: string)
    requires Sound(LineOf(t, channelID)) && |LineOf(t, channelID).successors| + |ops| < U64_LIMIT
    ensures var trace, u := Trace(t, ops, channelID), RunOps(t, ops);
            && trace != [] && trace[0] == CursorOf(t, channelID) && trace[|trace| - 1] == CursorOf(u, channelID)
            && FollowsEdges(LineOf(u, channelID), trace)
  {
    if ops != [] {
      var init, last := ops[..|ops| - 1], ops[|ops| - 1];
      TraceFollowsEdges(t, init, channelID);
      TraceStep(RunOps(t, init), last, Trace(t, init, channelID), channelID);
    }
  }

  lemma TraceStep(t: Table, op: Op, trace: seq<string>, channelID: string)
    requires trace != [] && trace[|trace| - 1] == CursorOf(t, channelID) && FollowsEdges(LineOf(t, channelID), trace)
    ensures var (u, ok) := Step(t, op);
            var l := LineOf(u, channelID);
            if op.AckOp? && op.channelID == channelID && ok
            then CursorOf(u, channelID) == op.candidate && FollowsEdges(l, trace + [op.candidate])
            else CursorOf(u, channelID) == CursorOf(t, channelID) && FollowsEdges(l, trace)
  {
  }

  /** Whatever the interleaving of records and acknowledgements: every accepted acknowledgement moves the
      cursor along one edge, no value comes twice, and there are at most as many as recorded edges. */
  lemma CursorNeverMovesBack(t: Table, ops: seq<Op>, channelID: string)
    requires Sound(LineOf(t, channelID)) && |LineOf(t, channelID).successors| + |ops| < U64_LIMIT
    ensures var trace, l := Trace(t, ops, channelID), LineOf(RunOps(t, ops), channelID);
            && FollowsEdges(l, trace)
            && (forall i, j | 0 <= i < j < |trace| :: trace[i] != trace[j])
            && |trace| - 1 <= |l.successors|
  {
    var trace, l := Trace(t, ops, channelID), LineOf(RunOps(t, ops), channelID);
    LinesStaySound(t, ops, channelID);
    TraceFollowsEdges(t, ops, channelID);
    forall i, j | 0 <= i < j < |trace| ensures trace[i] != trace[j] {
      PathVersions(l, trace, i, j);
    }
    PathVersions(l, trace, 0, |trace| - 1);
  }

  /** An acknowledgement is accepted exactly when it names the successor of the current cursor; then the
      cursor moves there and nothing else changes. */
  lemma AcksFollowOneEdge(t: Table, channelID: string, candidate: string)
    requires Sound(LineOf(t, channelID))
    ensures var (u, ok) := Advance(t, channelID, candidate);
            && (ok <==> channelID != "" && Edge(LineOf(t, channelID), CursorOf(t, channelID), candidate))
            && (ok ==> CursorOf(u, channelID) == candidate)
            && (!ok ==> u == t)
            && (forall other | other != channelID :: CursorOf(u, other) == CursorOf(t, other))
            && (forall other :: LineOf(u, other) == LineOf(t, other))
  {
  }

  lemma PathsNeverReturn(l: Line, path: seq<string>, x: string)
    requires Sound(l) && FollowsEdges(l, path) && x in path
    ensures !Edge(l, path[|path| - 1], x)
  {
    var i :| 0 <= i < |path| && path[i] == x;
    PathVersions(l, path, i, |path| - 1);
  }

  /** An id the cursor has already taken never moves it again. */
  lemma {:induction false} TakenIdsNeverMove(t: Table, ops: seq<Op>, channelID: string, candidate: string)
    requires Sound(LineOf(t, channelID)) && |LineOf(t, channelID).successors| + |ops| < U64_LIMIT
    requires candidate in Trace(t, ops, channelID)
    ensures Advance(RunOps(t, ops), channelID, candidate) == (RunOps(t, ops), false)
  {
    var u := RunOps(t, ops);
    assert !Edge(LineOf(u, channelID), CursorOf(u, channelID), candidate) by {
      LinesStaySound(t, ops, channelID);
      TraceFollowsEdges(t, ops, channelID);
      PathsNeverReturn(LineOf(u, channelID), Trace(t, ops, channelID), candidate);
    }
    NoEdgeNoMove(u, channelID, candidate);
  }

  lemma {:induction false} ExtensionsKeepWalks(l: Line, m: Line, x: string, n: nat)
    requires Extends(l, m) && Walk(l, x, n).Some?
    ensures Walk(m, x, n) == Walk(l, x, n)
  {
    if n > 0 {
      ExtensionsKeepWalks(l, m, x, n - 1);
    }
  }

  /** Nor does any id behind it: whatever lay on the way to the cursor in some state never moves it in a
      later one, also when the cursor was loaded already on its way. */
  lemma {:induction false} PassedIdsNeverMove(t: Table, ops: seq<Op>, channelID: string, passed: string, n: nat)
    requires Sound(LineOf(t, channelID)) && |LineOf(t, channelID).successors| + |ops| < U64_LIMIT
    requires Reaches(LineOf(t, channelID), passed, CursorOf(t, channelID), n)
    ensures Advance(RunOps(t, ops), channelID, passed) == (RunOps(t, ops), false)
  {
    var u, trace := RunOps(t, ops), Trace(t, ops, channelID);
    var m := LineOf(u, channelID);
    assert !Edge(m, CursorOf(u, channelID), passed) by {
      LinesStaySound(t, ops, channelID);
      TraceFollowsEdges(t, ops, channelID);
      ExtensionsKeepWalks(LineOf(t, channelID), m, passed, n);
      WalkRaisesVersion(m, passed, trace[0], n);
      PathVersions(m, trace, 0, |trace| - 1);
    }
    NoEdgeNoMove(u, channelID, passed);
  }

  lemma NoEdgeNoMove(t: Table, channelID: string, candidate: string)
    requires !Edge(LineOf(t, channelID), CursorOf(t, channelID), candidate)
    ensures Advance(t, channelID, candidate) == (t, false)
  {
  }
}
