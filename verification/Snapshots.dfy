/** The state file as a value, and what loading it does. */
module Snapshots {
  import opened Basics
  import opened Projections
  import Activity
  import Cursors
  import Items
  import Revisions
  import Text

  datatype Snapshot = Snapshot(
    projection: Projection,
    table: Cursors.Table,
    activity: Activity.Index,
    watch: seq<string>,
    lastCheck: string)

  const FRESH := Snapshot(EMPTY, Cursors.Table(map[], map[], map[]), map[], [], "")

  /** The least number at or above the revision and every stamp. */
  ghost predicate IsCeiling(p: Projection, revision: U64) {
    && p.revision <= revision
    && (forall ch | ch in p.pendingRevision :: p.pendingRevision[ch] <= revision)
    && (revision == p.revision || exists ch :: ch in p.pendingRevision && p.pendingRevision[ch] == revision)
  }

  lemma {:induction false} CeilingExists(p: Projection, keys: set<string>) returns (revision: U64)
    requires keys <= p.pendingRevision.Keys
    ensures p.revision <= revision
    ensures forall ch | ch in keys :: p.pendingRevision[ch] <= revision
    ensures revision == p.revision || exists ch :: ch in keys && p.pendingRevision[ch] == revision
    decreases keys
  {
    if keys == {} {
      revision := p.revision;
    } else {
      var ch :| ch in keys;
      revision := CeilingExists(p, keys - {ch});
      revision := if revision < p.pendingRevision[ch] then p.pendingRevision[ch] else revision;
    }
  }

  lemma HasCeiling(p: Projection)
    ensures exists revision: U64 :: IsCeiling(p, revision)
  {
    var revision := CeilingExists(p, p.pendingRevision.Keys);
    assert IsCeiling(p, revision);
  }

  ghost function Ceiling(p: Projection): (revision: U64)
    ensures IsCeiling(p, revision)
  {
    HasCeiling(p);
    var revision: U64 :| IsCeiling(p, revision);
    revision
  }

  predicate Keeps(channelID: string, item: Items.CheckItem) {
    Items.ValidPending(item) && !Text.Blank(channelID)
  }

  /** What LoadState does to the projection it has decoded. */
  ghost function Normalise(p: Projection): Projection {
    p.(revision := Ceiling(p),
       pending := map ch | ch in p.pending && Keeps(ch, p.pending[ch]) :: p.pending[ch])
  }

  /** LoadState, given the decoded file or its absence. */
  ghost function Load(file: Option<Snapshot>): Snapshot {
    match file
    case None => FRESH
    case Some(s) => s.(projection := Normalise(s.projection))
  }

  /** Every pending item can be shown and reached. */
  predicate Anchored(p: Projection) {
    forall ch | ch in p.pending :: Keeps(ch, p.pending[ch])
  }

  lemma NormaliseEstablishes(p: Projection)
    ensures Revisions.RevisionsBounded(Normalise(p)) && Anchored(Normalise(p))
    ensures Normalise(p).pendingResolvedAt == p.pendingResolvedAt && Normalise(p).pendingRevision == p.pendingRevision
    ensures forall ch | ch in p.pending :: Keeps(ch, p.pending[ch]) <==> ch in Normalise(p).pending
  {
  }

  /** What loading keeps of a decoded file: everything but the revision, which rises to the stamps, and the pending
      items that cannot be shown or reached. The others stay as they are. */
  lemma LoadKeepsTheFile(s: Snapshot)
    ensures var l := Load(Some(s));
            && l.table == s.table && l.activity == s.activity && l.watch == s.watch && l.lastCheck == s.lastCheck
            && l.projection.pendingResolvedAt == s.projection.pendingResolvedAt
            && l.projection.pendingRevision == s.projection.pendingRevision
            && IsCeiling(s.projection, l.projection.revision)
            && (forall ch :: ch in l.projection.pending
                  <==> ch in s.projection.pending && Text.Written(ch) && Items.Reachable(s.projection.pending[ch]))
            && (forall ch | ch in l.projection.pending :: l.projection.pending[ch] == s.projection.pending[ch])
  {
    forall ch | ch in s.projection.pending
      ensures Keeps(ch, s.projection.pending[ch]) <==> Text.Written(ch) && Items.Reachable(s.projection.pending[ch])
    {
      Text.WrittenOrBlank(ch);
      Items.ValidIsReachable(s.projection.pending[ch]);
    }
  }

  /** Without a file there is nothing: no cursor, no activity, no watch, no item, revision 0. */
  lemma NoFileIsEmpty(channelID: string)
    ensures var l := Load(None);
            && Cursors.CursorOf(l.table, channelID) == "" && l.activity == map[] && l.watch == [] && l.lastCheck == ""
            && l.table == Cursors.Table(map[], map[], map[])
            && SlotOf(l.projection, channelID) == SlotOf(EMPTY, channelID)
            && l.projection.pending == map[] && l.projection.pendingResolvedAt == map[]
            && l.projection.revision == 0 && l.projection.pendingRevision == map[]
  {
  }

  /** Loading changes nothing exactly when the stamps are bounded and the pending items anchored. */
  lemma NormaliseFixesExactly(p: Projection)
    ensures Normalise(p) == p <==> Revisions.RevisionsBounded(p) && Anchored(p)
  {
  }

  lemma NormaliseIsIdempotent(p: Projection)
    ensures Normalise(Normalise(p)) == Normalise(p)
  {
  }

  lemma {:induction false} RunsStayAnchored(p: Projection, es: seq<Event>)
    requires Anchored(p)
    ensures Anchored(Run(p, es))
  {
    if es != [] {
      RunsStayAnchored(p, es[..|es| - 1]);
    }
  }

  /** A loaded state, after any run short of the counter wrapping, loads back as itself. */
  lemma LoadAfterSaveIsIdentity(file: Option<Snapshot>, es: seq<Event>)
    requires var p := Load(file).projection; p.revision + AcceptedCount(p, es) < U64_LIMIT
    ensures var s := Load(file).(projection := Run(Load(file).projection, es));
            Load(Some(s)) == s
  {
    var p := Load(file).projection;
    if file.Some? {
      NormaliseEstablishes(file.value.projection);
    }
    Revisions.StampsStaySound(p, es);
    RunsStayAnchored(p, es);
    NormaliseFixesExactly(Run(p, es));
  }
}
