/** MergePending: one batch of check events against the projection, channel by channel. */
module Merging {
  import opened Convergence
  import opened Items
  import opened Projections
  import opened Sequences
  import opened Sorting
  import Frontiers

  /** The clock during one merge. Only an own post without a stamp reads it, and a channel accepts at most
      one such post (ClockIsReadOncePerChannel), so one reading per channel is all a merge can see. */
  type Clock = string -> Reading

  function OnChannel(channelID: string): CheckItem -> bool {
    (item: CheckItem) => item.channelID == channelID
  }

  function OfChannel(items: seq<CheckItem>, channelID: string): seq<CheckItem> {
    Filter(OnChannel(channelID), items)
  }

  /** The channels of a batch, in order of first occurrence. */
  function Channels(items: seq<CheckItem>): seq<string> {
    if items == [] then []
    else
      var rest, ch := Channels(items[..|items| - 1]), items[|items| - 1].channelID;
      if ch in rest then rest else rest + [ch]
  }

  predicate Touching(item: CheckItem) {
    item.own || item.addressed
  }

  /** A sorted batch of one channel, item by item: own and addressed items go through Apply. */
  function Drain(p: Projection, batch: seq<CheckItem>, now: Reading): (Projection, seq<CheckItem>) {
    if batch == [] then (p, [])
    else
      var (q, accepted) := Drain(p, batch[..|batch| - 1], now);
      var last := batch[|batch| - 1];
      if Touching(last) then
        var (r, ok) := Apply(q, last, now);
        (r, if ok then accepted + [last] else accepted)
      else (q, accepted + [last])
  }

  function MergeChannels(p: Projection, items: seq<CheckItem>, channels: seq<string>, clock: Clock)
    : (Projection, seq<CheckItem>)
  {
    if channels == [] then (p, [])
    else
      var (q, accepted) := MergeChannels(p, items, channels[..|channels| - 1], clock);
      var ch := channels[|channels| - 1];
      var (r, more) := Drain(q, StableSort(OfChannel(items, ch)), clock(ch));
      (r, accepted + more)
  }

  lemma {:induction false} MergeOneMore(
      p: Projection, items: seq<CheckItem>, channels: seq<string>, c: nat, clock: Clock)
    requires c < |channels|
    ensures var (q, accepted) := MergeChannels(p, items, channels[..c], clock);
            var (r, more) := Drain(q, StableSort(OfChannel(items, channels[c])), clock(channels[c]));
            MergeChannels(p, items, channels[..c + 1], clock) == (r, accepted + more)
  {
    assert channels[..c + 1][..c] == channels[..c];
  }

  lemma {:induction false} DrainOneMore(p: Projection, batch: seq<CheckItem>, i: nat, now: Reading)
    requires i < |batch|
    ensures var (q, accepted) := Drain(p, batch[..i], now);
            var (r, ok) := Apply(q, batch[i], now);
            Drain(p, batch[..i + 1], now)
            == if !Touching(batch[i]) then (q, accepted + [batch[i]])
               else (r, if ok then accepted + [batch[i]] else accepted)
  {
    assert batch[..i + 1][..i] == batch[..i];
  }

  function Merge(p: Projection, items: seq<CheckItem>, clock: Clock): (Projection, seq<CheckItem>) {
    MergeChannels(p, items, Channels(items), clock)
  }

  // ---- A merge is a run ----

  function Calls(batch: seq<CheckItem>, now: Reading): seq<Event> {
    seq(|batch|, i requires 0 <= i < |batch| => Event(batch[i], now))
  }

  function Schedule(items: seq<CheckItem>, channels: seq<string>, clock: Clock): seq<Event> {
    if channels == [] then []
    else
      var ch := channels[|channels| - 1];
      Schedule(items, channels[..|channels| - 1], clock) + Calls(StableSort(OfChannel(items, ch)), clock(ch))
  }

  function IsTouching(): CheckItem -> bool {
    (item: CheckItem) => Touching(item)
  }

  lemma {:induction false} DrainIsRun(p: Projection, batch: seq<CheckItem>, now: Reading)
    ensures Drain(p, batch, now).0 == Run(p, Calls(batch, now))
    ensures Filter(IsTouching(), Drain(p, batch, now).1) == AcceptedItems(p, Calls(batch, now))
  {
    if batch != [] {
      var init, last := batch[..|batch| - 1], batch[|batch| - 1];
      DrainIsRun(p, init, now);
      assert Calls(batch, now)[..|batch| - 1] == Calls(init, now);
      FilterConcat(IsTouching(), Drain(p, init, now).1, [last]);
      assert [last][..0] == [];
    }
  }

  lemma {:induction false} AcceptedItemsConcat(p: Projection, xs: seq<Event>, ys: seq<Event>)
    ensures AcceptedItems(p, xs + ys) == AcceptedItems(p, xs) + AcceptedItems(Run(p, xs), ys)
  {
    if ys == [] {
      assert xs + ys == xs;
    } else {
      AcceptedItemsConcat(p, xs, ys[..|ys| - 1]);
      ConcatLast(xs, ys);
      RunConcat(p, xs, ys[..|ys| - 1]);
    }
  }

  /** The merge is the run of its schedule, and of the own and addressed items it returns exactly those the
      run accepts, in that order. */
  lemma {:induction false} MergeIsRun(p: Projection, items: seq<CheckItem>, channels: seq<string>, clock: Clock)
    ensures var (q, accepted), es := MergeChannels(p, items, channels, clock), Schedule(items, channels, clock);
            && q == Run(p, es) && Filter(IsTouching(), accepted) == AcceptedItems(p, es)
            && |Filter(IsTouching(), accepted)| == AcceptedCount(p, es)
  {
    if channels != [] {
      var init, ch := channels[..|channels| - 1], channels[|channels| - 1];
      MergeIsRun(p, items, init, clock);
      var (q, accepted) := MergeChannels(p, items, init, clock);
      var batch := StableSort(OfChannel(items, ch));
      DrainIsRun(q, batch, clock(ch));
      RunConcat(p, Schedule(items, init, clock), Calls(batch, clock(ch)));
      AcceptedItemsConcat(p, Schedule(items, init, clock), Calls(batch, clock(ch)));
      FilterConcat(IsTouching(), accepted, Drain(q, batch, clock(ch)).1);
    }
    AcceptedItemsAreCounted(p, Schedule(items, channels, clock));
  }

  lemma {:induction false} ChannelsCorrect(items: seq<CheckItem>)
    ensures forall ch :: ch in Channels(items) <==> exists item :: item in items && item.channelID == ch
    ensures forall i, j | 0 <= i < j < |Channels(items)| :: Channels(items)[i] != Channels(items)[j]
  {
    if items != [] {
      var init, last := items[..|items| - 1], items[|items| - 1];
      ChannelsCorrect(init);
      assert items == init + [last];
    }
  }

  /** Channel `c` occurs in the batch before the first item of channel `d`. */
  ghost predicate OccursBefore(items: seq<CheckItem>, c: string, d: string) {
    exists k :: 0 <= k < |items| && items[k].channelID == c && NotWithin(items, k, d)
  }

  predicate NotWithin(items: seq<CheckItem>, k: nat, d: string)
    requires k < |items|
  {
    forall m | 0 <= m <= k :: items[m].channelID != d
  }

  /** The channels come in order of first occurrence. */
  lemma {:induction false} ChannelsInOrder(items: seq<CheckItem>, i: nat, j: nat)
    requires i < j < |Channels(items)|
    ensures OccursBefore(items, Channels(items)[i], Channels(items)[j])
  {
    var init, last := items[..|items| - 1], items[|items| - 1];
    var rest, c, d := Channels(init), Channels(items)[i], Channels(items)[j];
    ChannelsCorrect(init);
    if j < |rest| {
      ChannelsInOrder(init, i, j);
      var k :| 0 <= k < |init| && init[k].channelID == c && NotWithin(init, k, d);
      assert NotWithin(items, k, d);
    } else {
      assert c in rest && d !in rest;
      var item :| item in init && item.channelID == c;
      var k :| 0 <= k < |init| && init[k] == item;
      forall m | 0 <= m <= k ensures items[m].channelID != d { assert items[m] in init; }
      assert items[k].channelID == c && NotWithin(items, k, d);
    }
  }

  lemma SortedBatchMembers(items: seq<CheckItem>, channelID: string, item: CheckItem)
    ensures item in StableSort(OfChannel(items, channelID)) <==> item in items && item.channelID == channelID
  {
    StableSortCorrect(OfChannel(items, channelID));
    FilterCounts(OnChannel(channelID), items, item);
    var batch := StableSort(OfChannel(items, channelID));
    assert item in batch <==> item in multiset(batch);
  }

  lemma {:induction false} ScheduleMembers(items: seq<CheckItem>, channels: seq<string>, clock: Clock, e: Event)
    ensures e in Schedule(items, channels, clock) <==>
            e.item in items && e.item.channelID in channels && e.now == clock(e.item.channelID)
  {
    if channels != [] {
      var init, ch := channels[..|channels| - 1], channels[|channels| - 1];
      ScheduleMembers(items, init, clock, e);
      assert channels == init + [ch];
      var batch := StableSort(OfChannel(items, ch));
      SortedBatchMembers(items, ch, e.item);
      assert e in Calls(batch, clock(ch)) <==> e.item in batch && e.now == clock(ch) by {
        if e.item in batch && e.now == clock(ch) {
          var i :| 0 <= i < |batch| && batch[i] == e.item;
          assert Calls(batch, clock(ch))[i] == e;
        }
      }
    }
  }

  function ItemsIn(es: seq<Event>): seq<CheckItem> {
    seq(|es|, i requires 0 <= i < |es| => es[i].item)
  }

  lemma ItemsInAppend(es: seq<Event>, batch: seq<CheckItem>, now: Reading)
    ensures ItemsIn(es + Calls(batch, now)) == ItemsIn(es) + batch
  {
  }

  lemma {:induction false} BatchCounts(items: seq<CheckItem>, channelID: string, x: CheckItem)
    ensures multiset(StableSort(OfChannel(items, channelID)))[x]
            == if x.channelID == channelID then multiset(items)[x] else 0
  {
    StableSortCorrect(OfChannel(items, channelID));
    FilterCounts(OnChannel(channelID), items, x);
  }

  lemma {:induction false} ScheduleCounts(items: seq<CheckItem>, channels: seq<string>, clock: Clock, x: CheckItem)
    requires forall i, j | 0 <= i < j < |channels| :: channels[i] != channels[j]
    ensures multiset(ItemsIn(Schedule(items, channels, clock)))[x]
            == if x.channelID in channels then multiset(items)[x] else 0
  {
    if channels != [] {
      var init, ch := channels[..|channels| - 1], channels[|channels| - 1];
      var batch := StableSort(OfChannel(items, ch));
      ScheduleCounts(items, init, clock, x);
      assert x.channelID in channels <==> x.channelID in init || x.channelID == ch by {
        assert channels == init + [ch];
      }
      assert ch !in init;
      BatchCounts(items, ch, x);
      ItemsInAppend(Schedule(items, init, clock), batch, clock(ch));
    }
  }

  /** Every item of the batch is offered, as often as the batch holds it. */
  lemma {:induction false} ScheduleIsPermutation(items: seq<CheckItem>, clock: Clock)
    ensures multiset(ItemsIn(Schedule(items, Channels(items), clock))) == multiset(items)
  {
    ChannelsCorrect(items);
    forall x ensures multiset(ItemsIn(Schedule(items, Channels(items), clock)))[x] == multiset(items)[x] {
      ScheduleCounts(items, Channels(items), clock, x);
      assert x in items <==> x in multiset(items);
    }
  }

  // ---- Convergence of batches ----

  datatype Batch = Batch(items: seq<CheckItem>, clock: Clock)

  function BatchEffects(b: Batch, channelID: string): set<Effect> {
    set item | item in b.items && Concerns(item, channelID) :: EffectOf(Event(item, b.clock(channelID)))
  }

  function AllEffects(bs: seq<Batch>, channelID: string): set<Effect> {
    if bs == [] then {} else AllEffects(bs[..|bs| - 1], channelID) + BatchEffects(bs[|bs| - 1], channelID)
  }

  /** The projection after the batches, one merge each. */
  function MergeAll(p: Projection, bs: seq<Batch>): Projection {
    if bs == [] then p
    else
      var last := bs[|bs| - 1];
      Merge(MergeAll(p, bs[..|bs| - 1]), last.items, last.clock).0
  }

  function FullSchedule(b: Batch): seq<Event> {
    Schedule(b.items, Channels(b.items), b.clock)
  }

  function AllEvents(bs: seq<Batch>): seq<Event> {
    if bs == [] then [] else AllEvents(bs[..|bs| - 1]) + FullSchedule(bs[|bs| - 1])
  }

  lemma {:induction false} MergeAllIsRun(p: Projection, bs: seq<Batch>)
    ensures MergeAll(p, bs) == Run(p, AllEvents(bs))
  {
    if bs != [] {
      var init, last := bs[..|bs| - 1], bs[|bs| - 1];
      MergeAllIsRun(p, init);
      MergeIsRun(MergeAll(p, init), last.items, Channels(last.items), last.clock);
      RunConcat(p, AllEvents(init), FullSchedule(last));
    }
  }

  lemma ScheduleEffects(b: Batch, channelID: string)
    ensures EffectsOf(FullSchedule(b), channelID) == BatchEffects(b, channelID)
  {
    ChannelsCorrect(b.items);
    forall x ensures x in EffectsOf(FullSchedule(b), channelID) <==> x in BatchEffects(b, channelID) {
      if x in EffectsOf(FullSchedule(b), channelID) {
        var e :| e in FullSchedule(b) && Concerns(e.item, channelID) && EffectOf(e) == x;
        ScheduleMembers(b.items, Channels(b.items), b.clock, e);
        assert e == Event(e.item, b.clock(channelID));
      }
      if x in BatchEffects(b, channelID) {
        var item :| item in b.items && Concerns(item, channelID) && EffectOf(Event(item, b.clock(channelID))) == x;
        ScheduleMembers(b.items, Channels(b.items), b.clock, Event(item, b.clock(channelID)));
      }
    }
  }

  lemma {:induction false} AllEventsEffects(bs: seq<Batch>, channelID: string)
    ensures EffectsOf(AllEvents(bs), channelID) == AllEffects(bs, channelID)
  {
    if bs != [] {
      var init, last := bs[..|bs| - 1], bs[|bs| - 1];
      AllEventsEffects(init, channelID);
      ScheduleEffects(last, channelID);
      EffectsOfConcat(AllEvents(init), FullSchedule(last), channelID);
    }
  }

  lemma {:induction false} EffectsOfConcat(xs: seq<Event>, ys: seq<Event>, channelID: string)
    ensures EffectsOf(xs + ys, channelID) == EffectsOf(xs, channelID) + EffectsOf(ys, channelID)
  {
    forall e ensures e in xs + ys <==> e in xs || e in ys {}
  }

  /** However the events are split into batches, ordered and repeated, and whatever the clock said each time,
      a channel ends the same, and ends settled by the greatest event. */
  lemma {:induction false} BatchConvergence(p: Projection, these: seq<Batch>, those: seq<Batch>, channelID: string)
    requires KeysOf(AllEffects(these, channelID)) == KeysOf(AllEffects(those, channelID))
    requires Determined(AllEffects(these, channelID) + AllEffects(those, channelID))
    ensures SlotOf(MergeAll(p, these), channelID) == SlotOf(MergeAll(p, those), channelID)
    ensures Settles(SlotOf(p, channelID), AllEffects(these, channelID), SlotOf(MergeAll(p, these), channelID))
  {
    MergeAllIsRun(p, these);
    MergeAllIsRun(p, those);
    AllEventsEffects(these, channelID);
    AllEventsEffects(those, channelID);
    EventsConverge(p, AllEvents(these), AllEvents(those), channelID);
    KeysOfUnion(AllEffects(these, channelID), AllEffects(those, channelID));
    PartIsDetermined(AllEffects(these, channelID) + AllEffects(those, channelID), AllEffects(these, channelID));
    EventsSettle(p, AllEvents(these), channelID);
  }

  /** The clock has no part in the keys. */
  lemma {:induction false} BatchKeys(b: Batch, channelID: string)
    ensures KeysOf(BatchEffects(b, channelID)) == set i | i in b.items && Concerns(i, channelID) :: Frontiers.Key(i)
  {
    forall i | i in b.items && Concerns(i, channelID) ensures Frontiers.Key(i) in KeysOf(BatchEffects(b, channelID)) {
      assert EffectOf(Event(i, b.clock(channelID))) in BatchEffects(b, channelID);
    }
  }

  lemma {:induction false} OneBatch(p: Projection, x: Batch, channelID: string)
    ensures MergeAll(p, [x]) == Merge(p, x.items, x.clock).0
    ensures AllEffects([x], channelID) == BatchEffects(x, channelID)
  {
    assert [x][..0] == [];
    assert AllEffects([x], channelID) == AllEffects([], channelID) + BatchEffects(x, channelID);
    assert MergeAll(p, [x]) == Merge(MergeAll(p, []), x.items, x.clock).0;
  }

  lemma {:induction false} OneThenAnother(p: Projection, x: Batch, y: Batch, channelID: string)
    ensures MergeAll(p, [x, y]) == Merge(Merge(p, x.items, x.clock).0, y.items, y.clock).0
    ensures AllEffects([x, y], channelID) == BatchEffects(x, channelID) + BatchEffects(y, channelID)
  {
    assert [x, y][..1] == [x];
    OneBatch(p, x, channelID);
  }

  lemma {:induction false} SplitKeys(a: Batch, b: Batch, both: Batch, channelID: string)
    requires both.items == a.items + b.items || both.items == b.items + a.items
    ensures KeysOf(BatchEffects(a, channelID) + BatchEffects(b, channelID)) == KeysOf(BatchEffects(both, channelID))
  {
    BatchKeys(a, channelID);
    BatchKeys(b, channelID);
    BatchKeys(both, channelID);
    var x, y := BatchEffects(a, channelID), BatchEffects(b, channelID);
    KeysOfUnion(x, y);
    forall i ensures i in both.items <==> i in a.items || i in b.items {}
  }

  /** A then B, B then A, or both in one call, each under its own clock. */
  lemma {:induction false} TwoBatchesCommute(
      p: Projection, a: seq<CheckItem>, b: seq<CheckItem>,
      clockA: Clock, clockB: Clock, clockB': Clock, clockA': Clock, clock: Clock, channelID: string)
    requires Determined(
               (BatchEffects(Batch(a, clockA), channelID) + BatchEffects(Batch(b, clockB), channelID))
               + (BatchEffects(Batch(b, clockB'), channelID) + BatchEffects(Batch(a, clockA'), channelID))
               + BatchEffects(Batch(a + b, clock), channelID))
    ensures var ab := Merge(Merge(p, a, clockA).0, b, clockB).0;
            var ba := Merge(Merge(p, b, clockB').0, a, clockA').0;
            SlotOf(ab, channelID) == SlotOf(ba, channelID) == SlotOf(Merge(p, a + b, clock).0, channelID)
  {
    var x, y, y', x' := Batch(a, clockA), Batch(b, clockB), Batch(b, clockB'), Batch(a, clockA');
    var both := Batch(a + b, clock);
    OneThenAnother(p, x, y, channelID);
    OneThenAnother(p, y', x', channelID);
    OneBatch(p, both, channelID);
    SplitKeys(x, y, both, channelID);
    SplitKeys(y', x', both, channelID);
    var these, those, joint :=
      AllEffects([x, y], channelID), AllEffects([y', x'], channelID), AllEffects([both], channelID);
    assert KeysOf(these + joint) == KeysOf(these + those + joint) == KeysOf(those + joint) by {
      KeysOfUnion(these, joint);
      KeysOfUnion(those, joint);
      KeysOfUnion(these + those, joint);
      KeysOfUnion(these, those);
    }
    PartIsDetermined(these + those + joint, these + joint);
    PartIsDetermined(these + those + joint, those + joint);
    BatchConvergence(p, [x, y], [both], channelID);
    BatchConvergence(p, [y', x'], [both], channelID);
  }

  /** The items of a channel that count, over all batches. */
  function BatchItems(bs: seq<Batch>, channelID: string): set<CheckItem> {
    if bs == [] then {}
    else BatchItems(bs[..|bs| - 1], channelID) + (set item | item in bs[|bs| - 1].items && Concerns(item, channelID))
  }

  lemma {:induction false} AllEventsMembers(bs: seq<Batch>, e: Event)
    ensures e in AllEvents(bs) <==> exists b :: b in bs && e in FullSchedule(b)
  {
    if bs != [] {
      var init, last := bs[..|bs| - 1], bs[|bs| - 1];
      AllEventsMembers(init, e);
      assert bs == init + [last];
    }
  }

  lemma ScheduleItems(b: Batch, channelID: string)
    ensures ItemsOf(FullSchedule(b), channelID) == set item | item in b.items && Concerns(item, channelID)
  {
    ChannelsCorrect(b.items);
    forall i ensures i in ItemsOf(FullSchedule(b), channelID) <==> i in b.items && Concerns(i, channelID) {
      ScheduleMembers(b.items, Channels(b.items), b.clock, Event(i, b.clock(i.channelID)));
      if e :| e in FullSchedule(b) && Concerns(e.item, channelID) && e.item == i {
        ScheduleMembers(b.items, Channels(b.items), b.clock, e);
      }
    }
  }

  lemma {:induction false} AllEventsItems(bs: seq<Batch>, channelID: string)
    ensures ItemsOf(AllEvents(bs), channelID) == BatchItems(bs, channelID)
  {
    if bs != [] {
      var init, last := bs[..|bs| - 1], bs[|bs| - 1];
      AllEventsItems(init, channelID);
      ScheduleItems(last, channelID);
      forall e ensures e in AllEvents(bs) <==> e in AllEvents(init) || e in FullSchedule(last) {}
    }
  }

  /** The ordinary case: stamps that parse, equal instants meaning the same event. Then the set of a
      channel's events decides its slot, whatever the batches and the clocks. */
  lemma {:induction false} BatchesOfDistinctInstantsConverge(
      p: Projection, these: seq<Batch>, those: seq<Batch>, channelID: string)
    requires BatchItems(these, channelID) == BatchItems(those, channelID)
    requires InstantsNameEvents(BatchItems(these, channelID))
    ensures SlotOf(MergeAll(p, these), channelID) == SlotOf(MergeAll(p, those), channelID)
    ensures Settles(SlotOf(p, channelID), AllEffects(these, channelID), SlotOf(MergeAll(p, these), channelID))
  {
    MergeAllIsRun(p, these);
    MergeAllIsRun(p, those);
    AllEventsItems(these, channelID);
    AllEventsItems(those, channelID);
    AllEventsEffects(these, channelID);
    DistinctInstantsConverge(p, AllEvents(these), AllEvents(those), channelID);
  }

  /** Replay: a batch merged once is never accepted again, whatever was merged before and since. */
  lemma {:induction false} MergedBatchIsNotReplayed(
      p: Projection, before: seq<Batch>, b: Batch, since: seq<Batch>, clock: Clock)
    ensures var q := MergeAll(p, before + [b] + since);
            var (r, accepted) := Merge(q, b.items, clock);
            r == q && Filter(IsTouching(), accepted) == []
  {
    var bs := before + [b] + since;
    var again := FullSchedule(Batch(b.items, clock));
    forall e | e in again ensures exists d :: d in AllEvents(bs) && d.item == e.item {
      ScheduleMembers(b.items, Channels(b.items), clock, e);
      var d := Event(e.item, b.clock(e.item.channelID));
      ScheduleMembers(b.items, Channels(b.items), b.clock, d);
      assert d in FullSchedule(b);
      assert bs[|before|] == b;
      AllEventsMembers(bs, d);
      assert d.item == e.item;
    }
    MergeAllIsRun(p, bs);
    ReplayIsRejected(p, AllEvents(bs), again);
    MergeIsRun(MergeAll(p, bs), b.items, Channels(b.items), clock);
  }
}
