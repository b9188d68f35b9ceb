/** The accepted list a merge returns, and its independence of the order within the batch. */
module MergeOutput {
  import opened Basics
  import opened Frontiers
  import opened Items
  import opened Merging
  import opened Projections
  import opened Sequences
  import opened Sorting

  /** What one channel's sorted batch lets through, seen from its slot alone. */
  function DrainSlot(slot: Slot, channelID: string, batch: seq<CheckItem>, now: Reading): seq<CheckItem> {
    if batch == [] then []
    else
      var init, last := batch[..|batch| - 1], batch[|batch| - 1];
      var accepted := DrainSlot(slot, channelID, init, now);
      var before := RunSlot(slot, channelID, Calls(init, now));
      if Touching(last) && !(Significant(last) && Below(Mark(before), Key(last))) then accepted
      else accepted + [last]
  }

  lemma {:induction false} DrainIsPerChannel(p: Projection, channelID: string, batch: seq<CheckItem>, now: Reading)
    requires forall i | i in batch :: i.channelID == channelID
    ensures Drain(p, batch, now).1 == DrainSlot(SlotOf(p, channelID), channelID, batch, now)
  {
    if batch != [] {
      var init, last := batch[..|batch| - 1], batch[|batch| - 1];
      assert last in batch;
      DrainIsPerChannel(p, channelID, init, now);
      DrainIsRun(p, init, now);
      RunIsPerChannel(p, channelID, Calls(init, now));
      FrontierRefinement(Drain(p, init, now).0, last, now);
    }
  }

  lemma {:induction false} DrainSlotWithin(slot: Slot, channelID: string, batch: seq<CheckItem>, now: Reading)
    ensures forall i | i in DrainSlot(slot, channelID, batch, now) :: i in batch
    ensures forall i | i in DrainSlot(slot, channelID, batch, now) && Touching(i) :: Significant(i)
  {
    if batch != [] {
      DrainSlotWithin(slot, channelID, batch[..|batch| - 1], now);
      assert batch == batch[..|batch| - 1] + [batch[|batch| - 1]];
    }
  }

  predicate TouchingIncrease(s: seq<CheckItem>) {
    forall i, j | 0 <= i < j < |s| && Touching(s[i]) && Touching(s[j]) :: CompareItems(s[i], s[j]) < 0
  }

  /** What a batch has accepted lies strictly below the next item that rises above the frontier. */
  lemma {:induction false} AcceptedLiesBelow(
      slot: Slot, channelID: string, batch: seq<CheckItem>, now: Reading, item: CheckItem, next: CheckItem)
    requires item in batch && item.channelID == channelID && Significant(item)
    requires Below(Mark(RunSlot(slot, channelID, Calls(batch, now))), Key(next))
    ensures CompareItems(item, next) < 0
  {
    var mark := Mark(RunSlot(slot, channelID, Calls(batch, now)));
    var k :| 0 <= k < |batch| && batch[k] == item;
    assert Calls(batch, now)[k] == Event(item, now);
    assert Event(item, now) in Calls(batch, now);
    RunRaisesFrontier(slot, channelID, Calls(batch, now));
    AtMostTransitive(Key(item), mark, Key(next)) by { BelowTotal(mark, Key(next)); }
    CompareItemsIsKeyOrder(item, next);
  }

  lemma TouchingAppend(s: seq<CheckItem>, x: CheckItem)
    requires TouchingIncrease(s)
    requires Touching(x) ==> forall i | 0 <= i < |s| && Touching(s[i]) :: CompareItems(s[i], x) < 0
    ensures TouchingIncrease(s + [x])
  {
  }

  lemma {:induction false} DrainSlotOrdered(slot: Slot, channelID: string, batch: seq<CheckItem>, now: Reading)
    requires Ordered(batch) && forall i | i in batch :: i.channelID == channelID
    ensures Ordered(DrainSlot(slot, channelID, batch, now))
    ensures TouchingIncrease(DrainSlot(slot, channelID, batch, now))
  {
    if batch != [] {
      var init, last := batch[..|batch| - 1], batch[|batch| - 1];
      assert batch == init + [last];
      DrainSlotOrdered(slot, channelID, init, now);
      DrainSlotWithin(slot, channelID, init, now);
      var accepted := DrainSlot(slot, channelID, init, now);
      var before := RunSlot(slot, channelID, Calls(init, now));
      if !Touching(last) || (Significant(last) && Below(Mark(before), Key(last))) {
        forall i | 0 <= i < |accepted|
          ensures CompareItems(accepted[i], last) <= 0
          ensures Touching(accepted[i]) && Touching(last) ==> CompareItems(accepted[i], last) < 0
        {
          assert accepted[i] in accepted;
          assert accepted[i] in init;
          if Touching(accepted[i]) && Touching(last) {
            AcceptedLiesBelow(slot, channelID, init, now, accepted[i], last);
          }
        }
        OrderedAppend(accepted, last);
        TouchingAppend(accepted, last);
      }
    }
  }

  function Unaddressed(): CheckItem -> bool {
    (item: CheckItem) => !Touching(item)
  }

  lemma {:induction false} DrainSlotKeepsOthers(slot: Slot, channelID: string, batch: seq<CheckItem>, now: Reading)
    ensures Filter(Unaddressed(), DrainSlot(slot, channelID, batch, now)) == Filter(Unaddressed(), batch)
  {
    if batch != [] {
      var init, last := batch[..|batch| - 1], batch[|batch| - 1];
      DrainSlotKeepsOthers(slot, channelID, init, now);
      FilterConcat(Unaddressed(), DrainSlot(slot, channelID, init, now), [last]);
      assert [last][..0] == [];
    }
  }

  // ---- From one channel to the whole batch ----

  /** What a merge accepts in one channel depends on that channel's slot and items only. */
  function AcceptedIn(p: Projection, items: seq<CheckItem>, clock: Clock, channelID: string): seq<CheckItem> {
    DrainSlot(SlotOf(p, channelID), channelID, StableSort(OfChannel(items, channelID)), clock(channelID))
  }

  function Concat(p: Projection, items: seq<CheckItem>, clock: Clock, channels: seq<string>): seq<CheckItem> {
    if channels == [] then []
    else Concat(p, items, clock, channels[..|channels| - 1]) + AcceptedIn(p, items, clock, channels[|channels| - 1])
  }

  lemma {:induction false} ScheduleLeavesOthers(
      p: Projection, items: seq<CheckItem>, channels: seq<string>, clock: Clock, channelID: string)
    requires channelID !in channels
    ensures SlotOf(MergeChannels(p, items, channels, clock).0, channelID) == SlotOf(p, channelID)
  {
    var es := Schedule(items, channels, clock);
    MergeIsRun(p, items, channels, clock);
    RunIsPerChannel(p, channelID, es);
    forall e | e in es ensures e.item.channelID != channelID {
      ScheduleMembers(items, channels, clock, e);
    }
    RunSlotElsewhere(SlotOf(p, channelID), channelID, es);
  }

  lemma {:induction false} RunSlotElsewhere(slot: Slot, channelID: string, es: seq<Event>)
    requires forall e | e in es :: e.item.channelID != channelID
    ensures RunSlot(slot, channelID, es) == slot
  {
    if es != [] {
      assert es[|es| - 1] in es;
      RunSlotElsewhere(slot, channelID, es[..|es| - 1]);
    }
  }

  lemma {:induction false} MergeConcatenates(p: Projection, items: seq<CheckItem>, channels: seq<string>, clock: Clock)
    requires forall i, j | 0 <= i < j < |channels| :: channels[i] != channels[j]
    ensures MergeChannels(p, items, channels, clock).1 == Concat(p, items, clock, channels)
  {
    if channels != [] {
      var init, ch := channels[..|channels| - 1], channels[|channels| - 1];
      MergeConcatenates(p, items, init, clock);
      ScheduleLeavesOthers(p, items, init, clock, ch);
      var batch := StableSort(OfChannel(items, ch));
      forall i | i in batch ensures i.channelID == ch { SortedBatchMembers(items, ch, i); }
      DrainIsPerChannel(MergeChannels(p, items, init, clock).0, ch, batch, clock(ch));
    }
  }

  lemma AcceptedInWithin(p: Projection, items: seq<CheckItem>, clock: Clock, channelID: string)
    ensures forall i | i in AcceptedIn(p, items, clock, channelID) :: i in items && i.channelID == channelID
  {
    var batch := StableSort(OfChannel(items, channelID));
    DrainSlotWithin(SlotOf(p, channelID), channelID, batch, clock(channelID));
    forall i | i in batch ensures i in items && i.channelID == channelID { SortedBatchMembers(items, channelID, i); }
  }

  lemma {:induction false} AcceptedOfChannel(
      p: Projection, items: seq<CheckItem>, clock: Clock, ch: string, channelID: string)
    ensures OfChannel(AcceptedIn(p, items, clock, ch), channelID)
            == if ch == channelID then AcceptedIn(p, items, clock, ch) else []
  {
    AcceptedInWithin(p, items, clock, ch);
    FilterAll(OnChannel(channelID), AcceptedIn(p, items, clock, ch));
  }

  lemma {:induction false} OfChannelAppend(xs: seq<CheckItem>, ys: seq<CheckItem>, ch: string, channelID: string)
    requires OfChannel(ys, channelID) == if ch == channelID then ys else []
    requires ch == channelID ==> OfChannel(xs, channelID) == []
    ensures OfChannel(xs + ys, channelID) == if ch == channelID then ys else OfChannel(xs, channelID)
  {
    FilterConcat(OnChannel(channelID), xs, ys);
  }

  lemma {:induction false} ConcatOfChannel(
      p: Projection, items: seq<CheckItem>, clock: Clock, channels: seq<string>, channelID: string)
    requires forall i, j | 0 <= i < j < |channels| :: channels[i] != channels[j]
    ensures OfChannel(Concat(p, items, clock, channels), channelID)
            == if channelID in channels then AcceptedIn(p, items, clock, channelID) else []
  {
    if channels != [] {
      var init, ch := channels[..|channels| - 1], channels[|channels| - 1];
      assert channelID in channels <==> channelID in init || channelID == ch by { assert channels == init + [ch]; }
      assert ch !in init;
      ConcatOfChannel(p, items, clock, init, channelID);
      AcceptedOfChannel(p, items, clock, ch, channelID);
      OfChannelAppend(Concat(p, items, clock, init), AcceptedIn(p, items, clock, ch), ch, channelID);
    }
  }

  lemma NothingElsewhere(p: Projection, items: seq<CheckItem>, clock: Clock, channelID: string)
    requires channelID !in Channels(items)
    ensures AcceptedIn(p, items, clock, channelID) == []
  {
  }

  lemma MergeAcceptsPerChannel(p: Projection, items: seq<CheckItem>, clock: Clock, channelID: string)
    ensures OfChannel(Merge(p, items, clock).1, channelID) == AcceptedIn(p, items, clock, channelID)
  {
    ChannelsCorrect(items);
    MergeConcatenates(p, items, Channels(items), clock);
    ConcatOfChannel(p, items, clock, Channels(items), channelID);
    if channelID !in Channels(items) {
      NothingElsewhere(p, items, clock, channelID);
    }
  }

  /** The items of `s`, channel by channel. */
  function GroupedBy(s: seq<CheckItem>, channels: seq<string>): seq<CheckItem> {
    if channels == [] then []
    else GroupedBy(s, channels[..|channels| - 1]) + OfChannel(s, channels[|channels| - 1])
  }

  lemma {:induction false} ConcatIsGrouped(p: Projection, items: seq<CheckItem>, clock: Clock, channels: seq<string>)
    ensures Concat(p, items, clock, channels) == GroupedBy(Merge(p, items, clock).1, channels)
  {
    if channels != [] {
      ConcatIsGrouped(p, items, clock, channels[..|channels| - 1]);
      MergeAcceptsPerChannel(p, items, clock, channels[|channels| - 1]);
    }
  }

  lemma EqualByChannelCounts(s: seq<CheckItem>, t: seq<CheckItem>)
    requires forall ch :: multiset(OfChannel(s, ch)) == multiset(OfChannel(t, ch))
    ensures multiset(s) == multiset(t)
  {
    forall x ensures multiset(s)[x] == multiset(t)[x] {
      FilterCounts(OnChannel(x.channelID), s, x);
      FilterCounts(OnChannel(x.channelID), t, x);
      assert multiset(OfChannel(s, x.channelID)) == multiset(OfChannel(t, x.channelID));
    }
  }

  lemma OthersOfChannel(p: Projection, items: seq<CheckItem>, clock: Clock, channelID: string)
    ensures var others := OfChannel(Filter(Unaddressed(), Merge(p, items, clock).1), channelID);
            && others == Filter(Unaddressed(), StableSort(OfChannel(items, channelID)))
            && SameRuns(others, OfChannel(Filter(Unaddressed(), items), channelID))
            && multiset(others) == multiset(OfChannel(Filter(Unaddressed(), items), channelID))
  {
    var accepted, given := Merge(p, items, clock).1, OfChannel(items, channelID);
    var sorted := StableSort(given);
    FilterCommutes(OnChannel(channelID), Unaddressed(), accepted);
    FilterCommutes(OnChannel(channelID), Unaddressed(), items);
    MergeAcceptsPerChannel(p, items, clock, channelID);
    DrainSlotKeepsOthers(SlotOf(p, channelID), channelID, sorted, clock(channelID));
    StableSortCorrect(given);
    forall k
      ensures Filter(HasKey(k), Filter(Unaddressed(), sorted)) == Filter(HasKey(k), Filter(Unaddressed(), given))
    {
      FilterCommutes(HasKey(k), Unaddressed(), sorted);
      FilterCommutes(HasKey(k), Unaddressed(), given);
      assert Filter(HasKey(k), sorted) == Filter(HasKey(k), given);
    }
    forall x ensures multiset(Filter(Unaddressed(), sorted))[x] == multiset(Filter(Unaddressed(), given))[x] {
      FilterCounts(Unaddressed(), sorted, x);
      FilterCounts(Unaddressed(), given, x);
    }
    assert multiset(Filter(Unaddressed(), sorted)) == multiset(Filter(Unaddressed(), given));
  }

  lemma {:induction false} ConcatMembers(
      p: Projection, items: seq<CheckItem>, clock: Clock, channels: seq<string>, i: CheckItem)
    requires i in Concat(p, items, clock, channels)
    ensures i.channelID in channels
  {
    var init, ch := channels[..|channels| - 1], channels[|channels| - 1];
    if i in Concat(p, items, clock, init) {
      ConcatMembers(p, items, clock, init, i);
    } else {
      AcceptedInWithin(p, items, clock, ch);
    }
  }

  /** Accepted items of different channels come in the order of their channels. */
  lemma {:induction false} ConcatFollowsChannels(
      p: Projection, items: seq<CheckItem>, clock: Clock, channels: seq<string>, i: nat, j: nat)
    returns (a: nat, b: nat)
    requires var s := Concat(p, items, clock, channels); i < j < |s| && s[i].channelID != s[j].channelID
    ensures var s := Concat(p, items, clock, channels);
            a < b < |channels| && channels[a] == s[i].channelID && channels[b] == s[j].channelID
  {
    var init, ch := channels[..|channels| - 1], channels[|channels| - 1];
    var done, more := Concat(p, items, clock, init), AcceptedIn(p, items, clock, ch);
    if j < |done| {
      a, b := ConcatFollowsChannels(p, items, clock, init, i, j);
    } else {
      AcceptedInWithin(p, items, clock, ch);
      assert forall k | |done| <= k < |done + more| :: (done + more)[k] in more;
      assert done[i] in done;
      ConcatMembers(p, items, clock, init, done[i]);
      a :| 0 <= a < |init| && init[a] == done[i].channelID;
      b := |init|;
    }
  }

  /** Of two accepted items on different channels, the one whose channel occurs first in the batch comes first. */
  lemma {:induction false} AcceptedFollowsFirstOccurrence(
      p: Projection, items: seq<CheckItem>, clock: Clock, i: nat, j: nat)
    requires var s := Merge(p, items, clock).1; i < j < |s| && s[i].channelID != s[j].channelID
    ensures var s := Merge(p, items, clock).1; OccursBefore(items, s[i].channelID, s[j].channelID)
  {
    ChannelsCorrect(items);
    MergeConcatenates(p, items, Channels(items), clock);
    var a, b := ConcatFollowsChannels(p, items, clock, Channels(items), i, j);
    ChannelsInOrder(items, a, b);
  }

  /** The accepted list: grouped by channel in order of first occurrence, each channel sorted, its own and
      addressed items strictly increasing and none of them invented. */
  lemma AcceptedListIsOrdered(p: Projection, items: seq<CheckItem>, clock: Clock)
    ensures var accepted := Merge(p, items, clock).1;
            && accepted == GroupedBy(accepted, Channels(items))
            && (forall i, j | 0 <= i < j < |accepted| && accepted[i].channelID != accepted[j].channelID ::
                  OccursBefore(items, accepted[i].channelID, accepted[j].channelID))
            && (forall ch :: Ordered(OfChannel(accepted, ch)) && TouchingIncrease(OfChannel(accepted, ch)))
            && (forall i | i in accepted :: i in items && (Touching(i) ==> Significant(i)))
  {
    var accepted := Merge(p, items, clock).1;
    ChannelsCorrect(items);
    MergeConcatenates(p, items, Channels(items), clock);
    ConcatIsGrouped(p, items, clock, Channels(items));
    forall i, j | 0 <= i < j < |accepted| && accepted[i].channelID != accepted[j].channelID
      ensures OccursBefore(items, accepted[i].channelID, accepted[j].channelID)
    {
      AcceptedFollowsFirstOccurrence(p, items, clock, i, j);
    }
    forall ch ensures Ordered(OfChannel(accepted, ch)) && TouchingIncrease(OfChannel(accepted, ch)) {
      MergeAcceptsPerChannel(p, items, clock, ch);
      StableSortCorrect(OfChannel(items, ch));
      forall i | i in StableSort(OfChannel(items, ch)) ensures i.channelID == ch { SortedBatchMembers(items, ch, i); }
      DrainSlotOrdered(SlotOf(p, ch), ch, StableSort(OfChannel(items, ch)), clock(ch));
    }
    forall i | i in accepted ensures i in items && (Touching(i) ==> Significant(i)) {
      var ch := i.channelID;
      MergeAcceptsPerChannel(p, items, clock, ch);
      FilterCounts(OnChannel(ch), accepted, i);
      AcceptedInWithin(p, items, clock, ch);
      DrainSlotWithin(SlotOf(p, ch), ch, StableSort(OfChannel(items, ch)), clock(ch));
    }
  }

  /** Every item that is neither own nor addressed comes out as often as it went in, and items of one
      channel that compare equal keep their order. */
  lemma OthersPassThrough(p: Projection, items: seq<CheckItem>, clock: Clock)
    ensures var others, given := Filter(Unaddressed(), Merge(p, items, clock).1), Filter(Unaddressed(), items);
            && multiset(others) == multiset(given)
            && forall ch :: SameRuns(OfChannel(others, ch), OfChannel(given, ch))
  {
    var others, given := Filter(Unaddressed(), Merge(p, items, clock).1), Filter(Unaddressed(), items);
    forall ch
      ensures SameRuns(OfChannel(others, ch), OfChannel(given, ch))
      ensures multiset(OfChannel(others, ch)) == multiset(OfChannel(given, ch))
    {
      OthersOfChannel(p, items, clock, ch);
    }
    EqualByChannelCounts(others, given);
  }

  // ---- Order within a batch ----

  lemma PermutedChannels(xs: seq<CheckItem>, ys: seq<CheckItem>, channelID: string)
    requires multiset(xs) == multiset(ys) && Antisymmetric(OfChannel(xs, channelID))
    ensures StableSort(OfChannel(xs, channelID)) == StableSort(OfChannel(ys, channelID))
  {
    forall x ensures multiset(OfChannel(xs, channelID))[x] == multiset(OfChannel(ys, channelID))[x] {
      FilterCounts(OnChannel(channelID), xs, x);
      FilterCounts(OnChannel(channelID), ys, x);
    }
    assert multiset(OfChannel(xs, channelID)) == multiset(OfChannel(ys, channelID));
    PermutationsSortAlike(OfChannel(xs, channelID), OfChannel(ys, channelID));
  }

  lemma SlotAfterMerge(p: Projection, items: seq<CheckItem>, clock: Clock, channelID: string)
    ensures SlotOf(Merge(p, items, clock).0, channelID)
            == RunSlot(SlotOf(p, channelID), channelID,
                       Calls(StableSort(OfChannel(items, channelID)), clock(channelID)))
  {
    ChannelsCorrect(items);
    SlotAfterChannels(p, items, Channels(items), clock, channelID);
    if channelID !in Channels(items) {
      forall i | i in items ensures i.channelID != channelID {}
      FilterAll(OnChannel(channelID), items);
    }
  }

  lemma {:induction false} SlotAfterChannels(
      p: Projection, items: seq<CheckItem>, channels: seq<string>, clock: Clock, channelID: string)
    requires forall i, j | 0 <= i < j < |channels| :: channels[i] != channels[j]
    ensures SlotOf(MergeChannels(p, items, channels, clock).0, channelID)
            == if channelID in channels
               then RunSlot(SlotOf(p, channelID), channelID,
                            Calls(StableSort(OfChannel(items, channelID)), clock(channelID)))
               else SlotOf(p, channelID)
  {
    if channelID !in channels {
      ScheduleLeavesOthers(p, items, channels, clock, channelID);
    } else {
      var init, ch := channels[..|channels| - 1], channels[|channels| - 1];
      assert channels == init + [ch];
      SlotAfterChannels(p, items, init, clock, channelID);
      var q, batch := MergeChannels(p, items, init, clock).0, StableSort(OfChannel(items, ch));
      DrainIsRun(q, batch, clock(ch));
      RunIsPerChannel(q, channelID, Calls(batch, clock(ch)));
      if ch != channelID {
        forall e | e in Calls(batch, clock(ch)) ensures e.item.channelID != channelID {
          SortedBatchMembers(items, ch, e.item);
        }
        RunSlotElsewhere(SlotOf(q, channelID), channelID, Calls(batch, clock(ch)));
      }
    }
  }

  lemma PermutedInChannel(p: Projection, xs: seq<CheckItem>, ys: seq<CheckItem>, clock: Clock, channelID: string)
    requires multiset(xs) == multiset(ys) && Antisymmetric(OfChannel(xs, channelID))
    ensures OfChannel(Merge(p, xs, clock).1, channelID) == OfChannel(Merge(p, ys, clock).1, channelID)
    ensures SlotOf(Merge(p, xs, clock).0, channelID) == SlotOf(Merge(p, ys, clock).0, channelID)
  {
    PermutedChannels(xs, ys, channelID);
    MergeAcceptsPerChannel(p, xs, clock, channelID);
    MergeAcceptsPerChannel(p, ys, clock, channelID);
    SlotAfterMerge(p, xs, clock, channelID);
    SlotAfterMerge(p, ys, clock, channelID);
  }

  lemma {:induction false} EqualChannelsCountAlike(s: seq<CheckItem>, t: seq<CheckItem>, test: CheckItem -> bool)
    requires forall ch :: OfChannel(s, ch) == OfChannel(t, ch)
    ensures |Filter(test, s)| == |Filter(test, t)|
  {
    EqualByChannelCounts(s, t);
    forall x ensures multiset(Filter(test, s))[x] == multiset(Filter(test, t))[x] {
      FilterCounts(test, s, x);
      FilterCounts(test, t, x);
    }
    assert multiset(Filter(test, s)) == multiset(Filter(test, t));
    assert |multiset(Filter(test, s))| == |Filter(test, s)|;
    assert |multiset(Filter(test, t))| == |Filter(test, t)|;
  }

  /** If within each channel only identical items compare equal, the order of the batch changes neither
      the projection, nor the revision, nor what each channel accepts. */
  lemma OrderInBatchIsIrrelevant(p: Projection, xs: seq<CheckItem>, ys: seq<CheckItem>, clock: Clock)
    requires multiset(xs) == multiset(ys)
    requires forall ch :: Antisymmetric(OfChannel(xs, ch))
    ensures var (q, acceptedX), (r, acceptedY) := Merge(p, xs, clock), Merge(p, ys, clock);
            && q.pending == r.pending && q.pendingResolvedAt == r.pendingResolvedAt && q.revision == r.revision
            && forall ch :: OfChannel(acceptedX, ch) == OfChannel(acceptedY, ch)
  {
    forall ch
      ensures OfChannel(Merge(p, xs, clock).1, ch) == OfChannel(Merge(p, ys, clock).1, ch)
      ensures SlotOf(Merge(p, xs, clock).0, ch) == SlotOf(Merge(p, ys, clock).0, ch)
    {
      PermutedInChannel(p, xs, ys, clock, ch);
    }
    SlotsDetermineMaps(Merge(p, xs, clock).0, Merge(p, ys, clock).0);
    EqualChannelsCountRevisions(p, xs, ys, clock);
  }

  lemma EqualChannelsCountRevisions(p: Projection, xs: seq<CheckItem>, ys: seq<CheckItem>, clock: Clock)
    requires forall ch :: OfChannel(Merge(p, xs, clock).1, ch) == OfChannel(Merge(p, ys, clock).1, ch)
    ensures Merge(p, xs, clock).0.revision == Merge(p, ys, clock).0.revision
  {
    EqualChannelsCountAlike(Merge(p, xs, clock).1, Merge(p, ys, clock).1, IsTouching());
    MergeCountsRevisions(p, xs, clock);
    MergeCountsRevisions(p, ys, clock);
  }

  lemma SlotsDetermineMaps(q: Projection, r: Projection)
    requires forall ch :: SlotOf(q, ch) == SlotOf(r, ch)
    ensures q.pending == r.pending && q.pendingResolvedAt == r.pendingResolvedAt
  {
    forall ch
      ensures ch in q.pending <==> ch in r.pending
      ensures ch in q.pending ==> q.pending[ch] == r.pending[ch]
      ensures ch in q.pendingResolvedAt <==> ch in r.pendingResolvedAt
      ensures ch in q.pendingResolvedAt ==> q.pendingResolvedAt[ch] == r.pendingResolvedAt[ch]
    {
      assert SlotOf(q, ch) == SlotOf(r, ch);
    }
    assert q.pending == r.pending;
    assert q.pendingResolvedAt == r.pendingResolvedAt;
  }

  lemma {:induction false} RunCountsRevisions(p: Projection, es: seq<Event>)
    ensures Run(p, es).revision == Plus(p.revision, AcceptedCount(p, es))
  {
    PlusOneMore(p.revision, 0);
    if es != [] {
      var init, last := es[..|es| - 1], es[|es| - 1];
      RunCountsRevisions(p, init);
      PlusOneMore(p.revision, AcceptedCount(p, init));
      FrontierRefinement(Run(p, init), last.item, last.now);
    }
  }

  /** A merge advances the revision once, modulo 2^64, for every own or addressed item it accepts. */
  lemma MergeCountsRevisions(p: Projection, items: seq<CheckItem>, clock: Clock)
    ensures var (q, accepted) := Merge(p, items, clock);
            q.revision == Plus(p.revision, |Filter(IsTouching(), accepted)|)
  {
    MergeRuns(p, items, clock);
    RunCountsRevisions(p, Schedule(items, Channels(items), clock));
  }

  lemma MergeRuns(p: Projection, items: seq<CheckItem>, clock: Clock)
    ensures var es := Schedule(items, Channels(items), clock);
            && Merge(p, items, clock).0 == Run(p, es)
            && |Filter(IsTouching(), Merge(p, items, clock).1)| == AcceptedCount(p, es)
  {
    MergeIsRun(p, items, Channels(items), clock);
  }
}
