/** The State record and the operations that update it in place. */
module StateObject {
  import opened Basics
  import opened Items
  import opened Merging
  import opened Projections
  import opened Snapshots
  import Activity
  import Cursors
  import Sorting
  import Text

  class State {
    var cursors: map<string, string>
    var cursorVersions: map<string, map<string, U64>>
    var cursorSuccessors: map<string, map<string, string>>
    var activity: map<string, Stamp>
    var watch: seq<string>
    var pending: map<string, CheckItem>
    var revision: U64
    var pendingRevision: map<string, U64>
    var pendingResolvedAt: map<string, Stamp>
    var lastCheck: string

    function View(): Projection
      reads this`pending, this`revision, this`pendingRevision, this`pendingResolvedAt
    {
      Projection(pending, pendingResolvedAt, revision, pendingRevision)
    }

    function Table(): Cursors.Table
      reads this`cursors, this`cursorVersions, this`cursorSuccessors
    {
      Cursors.Table(cursors, cursorVersions, cursorSuccessors)
    }

    function Value(): Snapshot
      reads this
    {
      Snapshot(View(), Table(), activity, watch, lastCheck)
    }

    /** LoadState: the decoded file, normalised, or an empty state when there is none. */
    constructor Load(file: Option<Snapshot>)
      ensures Value() == Snapshots.Load(file)
    {
      var s := if file.Some? then file.value else FRESH;
      cursors, cursorVersions, cursorSuccessors := s.table.cursors, s.table.versions, s.table.successors;
      activity, watch, lastCheck := s.activity, s.watch, s.lastCheck;
      pending, pendingResolvedAt := s.projection.pending, s.projection.pendingResolvedAt;
      revision, pendingRevision := s.projection.revision, s.projection.pendingRevision;
      new;
      RaiseRevision();
      DropUnanchored();
      if file.None? {
        NormaliseFixesExactly(EMPTY);
      }
    }

    method RaiseRevision()
      modifies this`revision
      ensures revision == Ceiling(old(View()))
    {
      ghost var p := View();
      var rest := pendingRevision.Keys;
      while rest != {}
        invariant rest <= pendingRevision.Keys
        invariant p.revision <= revision
        invariant forall ch | ch in pendingRevision && ch !in rest :: pendingRevision[ch] <= revision
        invariant revision == p.revision || exists ch :: ch in pendingRevision && pendingRevision[ch] == revision
        decreases rest
      {
        var ch :| ch in rest;
        if pendingRevision[ch] > revision {
          revision := pendingRevision[ch];
        }
        rest := rest - {ch};
      }
      assert IsCeiling(p, revision);
    }

    method DropUnanchored()
      modifies this`pending
      ensures pending == map ch | ch in old(pending) && Keeps(ch, old(pending)[ch]) :: old(pending)[ch]
    {
      var rest := pending.Keys;
      while rest != {}
        invariant rest <= pending.Keys <= old(pending).Keys
        invariant forall ch | ch in pending :: pending[ch] == old(pending)[ch]
        invariant forall ch | ch in old(pending) && ch !in rest :: ch in pending <==> Keeps(ch, old(pending)[ch])
        decreases rest
      {
        var ch :| ch in rest;
        if !ValidPending(pending[ch]) || Text.Blank(ch) {
          pending := pending - {ch};
        }
        rest := rest - {ch};
      }
    }

    method TouchPending(channelID: string)
      modifies this`revision, this`pendingRevision
      ensures View() == Touch(old(View()), channelID)
    {
      revision := Increment(revision);
      pendingRevision := pendingRevision[channelID := revision];
    }

    method ApplyPending(item: CheckItem, now: Reading) returns (accepted: bool)
      modifies this`pending, this`revision, this`pendingRevision, this`pendingResolvedAt
      ensures (View(), accepted) == Apply(old(View()), item, now)
    {
      var ch := item.channelID;
      if ch == "" {
        return false;
      }
      if item.own {
        if ch in pending && CompareItems(item, pending[ch]) <= 0 {
          return false;
        }
        if ch in pendingResolvedAt && pendingResolvedAt[ch] != Empty
           && CompareItemToResolution(item, pendingResolvedAt[ch], "") <= 0 {
          return false;
        }
        pending := pending - {ch};
        var resolvedAt := item.createdAt;
        if resolvedAt == Empty {
          resolvedAt := now;
        }
        pendingResolvedAt := pendingResolvedAt[ch := resolvedAt];
        TouchPending(ch);
        return true;
      }
      if item.addressed && ValidPending(item) {
        if ch in pendingResolvedAt && pendingResolvedAt[ch] != Empty
           && CompareItemToResolution(item, pendingResolvedAt[ch], "") <= 0 {
          return false;
        }
        if ch in pending && CompareItems(item, pending[ch]) <= 0 {
          return false;
        }
        pending := pending[ch := item];
        pendingResolvedAt := pendingResolvedAt - {ch};
        TouchPending(ch);
        return true;
      }
      return false;
    }

    method MergePending(items: seq<CheckItem>, clock: Clock) returns (accepted: seq<CheckItem>)
      modifies this`pending, this`revision, this`pendingRevision, this`pendingResolvedAt
      ensures (View(), accepted) == Merge(old(View()), items, clock)
    {
      var byChannel, order := Group(items);
      accepted := [];
      for c := 0 to |order|
        invariant (View(), accepted) == MergeChannels(old(View()), items, order[..c], clock)
      {
        MergeOneMore(old(View()), items, order, c, clock);
        var ch := order[c];
        assert ch in byChannel;
        var batch := Sorting.StableSort(byChannel[ch]);
        var more := MergeBatch(batch, clock(ch));
        accepted := accepted + more;
      }
      assert order[..|order|] == order;
    }

    /** The inner loop of MergePending: one channel's batch, already sorted. */
    method MergeBatch(batch: seq<CheckItem>, now: Reading) returns (accepted: seq<CheckItem>)
      modifies this`pending, this`revision, this`pendingRevision, this`pendingResolvedAt
      ensures (View(), accepted) == Drain(old(View()), batch, now)
    {
      accepted := [];
      for i := 0 to |batch|
        invariant (View(), accepted) == Drain(old(View()), batch[..i], now)
      {
        DrainOneMore(old(View()), batch, i, now);
        var item := batch[i];
        if item.own || item.addressed {
          var ok := ApplyPending(item, now);
          if ok {
            accepted := accepted + [item];
          }
          continue;
        }
        accepted := accepted + [item];
      }
      assert batch[..|batch|] == batch;
    }

    method RecordCursor(channelID: string, base: string, candidate: string) returns (recorded: bool)
      modifies this`cursorVersions, this`cursorSuccessors
      ensures (Table(), recorded) == Cursors.Record(old(Table()), channelID, base, candidate)
    {
      if channelID == "" || candidate == "" || base == candidate {
        return false;
      }
      ghost var t := Table();
      var versions := if channelID in cursorVersions then cursorVersions[channelID] else map[];
      var successors := if channelID in cursorSuccessors then cursorSuccessors[channelID] else map[];
      StoreLine(channelID, versions, successors);
      if base in successors {
        return successors[base] == candidate;
      }
      if candidate in versions {
        return false;
      }
      var baseVersion := if base in versions then versions[base] else 0;
      if base != "" && base !in versions {
        versions := versions[base := 0];
      }
      versions := versions[candidate := Increment(baseVersion)];
      successors := successors[base := candidate];
      assert Cursors.Line(versions, successors) == Cursors.Link(Cursors.LineOf(t, channelID), base, candidate);
      Cursors.WithLineTwice(t, channelID, Cursors.LineOf(t, channelID), Cursors.Line(versions, successors));
      StoreLine(channelID, versions, successors);
      return true;
    }

    /** Stores the inner maps of one channel back: Go maps are shared by reference, these are values. */
    method StoreLine(channelID: string, versions: map<string, U64>, successors: map<string, string>)
      modifies this`cursorVersions, this`cursorSuccessors
      ensures Table() == Cursors.WithLine(old(Table()), channelID, Cursors.Line(versions, successors))
    {
      cursorVersions := cursorVersions[channelID := versions];
      cursorSuccessors := cursorSuccessors[channelID := successors];
    }

    method AdvanceCursor(channelID: string, candidate: string) returns (advanced: bool)
      modifies this`cursors
      ensures (Table(), advanced) == Cursors.Advance(old(Table()), channelID, candidate)
    {
      if channelID == "" || candidate == "" {
        return false;
      }
      var current := if channelID in cursors then cursors[channelID] else "";
      if current == candidate {
        return false;
      }
      var successors := if channelID in cursorSuccessors then cursorSuccessors[channelID] else map[];
      if current !in successors || successors[current] != candidate {
        return false;
      }
      cursors := cursors[channelID := candidate];
      return true;
    }

    method RecordActivity(channelID: string, candidate: Stamp) returns (recorded: bool)
      modifies this`activity
      ensures (activity, recorded) == Activity.Record(old(activity), channelID, candidate)
    {
      if Text.Blank(channelID) || Activity.BlankStamp(candidate) {
        return false;
      }
      if !candidate.At? {
        return false;
      }
      var current := if channelID in activity then activity[channelID] else Empty;
      if current != Empty {
        if current.At? && !(candidate.instant > current.instant) {
          return false;
        }
      }
      activity := activity[channelID := Activity.Canonical(candidate.instant)];
      return true;
    }
  }

  /** The grouping loop of MergePending. */
  method Group(items: seq<CheckItem>) returns (byChannel: map<string, seq<CheckItem>>, order: seq<string>)
    ensures order == Channels(items)
    ensures forall i, j | 0 <= i < j < |order| :: order[i] != order[j] && OccursBefore(items, order[i], order[j])
    ensures byChannel.Keys == set ch | ch in order
    ensures forall ch | ch in byChannel :: byChannel[ch] == OfChannel(items, ch)
  {
    byChannel, order := map[], [];
    for i := 0 to |items|
      invariant order == Channels(items[..i])
      invariant byChannel.Keys == set ch | ch in order
      invariant forall ch | ch in byChannel :: byChannel[ch] == OfChannel(items[..i], ch)
      invariant forall ch | ch !in byChannel :: OfChannel(items[..i], ch) == []
    {
      assert items[..i + 1][..i] == items[..i];
      var ch := items[i].channelID;
      if ch !in byChannel {
        order := order + [ch];
        byChannel := byChannel[ch := []];
      }
      byChannel := byChannel[ch := byChannel[ch] + [items[i]]];
    }
    assert items[..|items|] == items;
    ChannelsCorrect(items);
    forall i, j | 0 <= i < j < |order| ensures OccursBefore(items, order[i], order[j]) {
      ChannelsInOrder(items, i, j);
    }
  }
}
