/** The pending projection: one unanswered item or one resolution stamp per channel. */
module Projections {
  import opened Basics
  import opened Frontiers
  import opened Items
  import Text

  datatype Projection = Projection(
    pending: map<string, CheckItem>,
    pendingResolvedAt: map<string, Stamp>,
    revision: U64,
    pendingRevision: map<string, U64>)

  const EMPTY := Projection(map[], map[], 0, map[])

  function SlotOf(p: Projection, channelID: string): Slot {
    Slot(Lookup(p.pending, channelID), Lookup(p.pendingResolvedAt, channelID))
  }

  function FrontierOf(p: Projection, channelID: string): Frontier {
    Mark(SlotOf(p, channelID))
  }

  /** A map read in Go: the zero value when the key is absent. */
  function ResolvedAt(p: Projection, channelID: string): Stamp {
    if channelID in p.pendingResolvedAt then p.pendingResolvedAt[channelID] else Empty
  }

  function Touch(p: Projection, channelID: string): Projection {
    var next := Increment(p.revision);
    p.(revision := next, pendingRevision := p.pendingRevision[channelID := next])
  }

  predicate BeatsPending(p: Projection, item: CheckItem) {
    item.channelID in p.pending ==> CompareItems(item, p.pending[item.channelID]) > 0
  }

  predicate BeatsResolution(p: Projection, item: CheckItem) {
    var resolvedAt := ResolvedAt(p, item.channelID);
    resolvedAt != Empty ==> CompareItemToResolution(item, resolvedAt, "") > 0
  }

  /** The stamp under which an own post resolves its channel: the clock's when it carries none. */
  function ResolutionStamp(item: CheckItem, now: Reading): Stamp {
    if item.createdAt == Empty then now else item.createdAt
  }

  /** ApplyPending on values: the new projection, and whether the item was accepted. */
  function Apply(p: Projection, item: CheckItem, now: Reading): (Projection, bool) {
    var ch := item.channelID;
    if ch == "" then (p, false)
    else if item.own then
      if BeatsPending(p, item) && BeatsResolution(p, item) then
        (Touch(p.(pending := p.pending - {ch},
                  pendingResolvedAt := p.pendingResolvedAt[ch := ResolutionStamp(item, now)]), ch), true)
      else (p, false)
    else if item.addressed && ValidPending(item) then
      if BeatsResolution(p, item) && BeatsPending(p, item) then
        (Touch(p.(pending := p.pending[ch := item],
                  pendingResolvedAt := p.pendingResolvedAt - {ch}), ch), true)
      else (p, false)
    else (p, false)
  }

  /** The items that can change a channel at all. */
  predicate Significant(item: CheckItem) {
    item.channelID != "" && (item.own || (item.addressed && ValidPending(item)))
  }

  /** What a channel holds once the item has been accepted. */
  function Outcome(item: CheckItem, now: Reading): Slot {
    if item.own then Slot(None, Some(ResolutionStamp(item, now))) else Slot(Some(item), None)
  }

  /** An accepted item leaves its channel at or above the item's own place. */
  lemma OutcomeCoversKey(item: CheckItem, now: Reading)
    ensures AtMost(Key(item), Mark(Outcome(item, now)))
  {
    BelowTotal(Key(item), Key(item));
  }

  /** Acceptance is exactly "strictly above the frontier", and it decides everything else. */
  lemma FrontierRefinement(p: Projection, item: CheckItem, now: Reading)
    ensures var (q, ok) := Apply(p, item, now);
            var ch := item.channelID;
            && (ok <==> Significant(item) && Below(FrontierOf(p, ch), Key(item)))
            && (ok ==> SlotOf(q, ch) == Outcome(item, now) && Below(FrontierOf(p, ch), FrontierOf(q, ch)))
            && (ok ==> q.revision == Increment(p.revision) && q.pendingRevision == p.pendingRevision[ch := q.revision])
            && (!ok ==> q == p)
            && (forall other | other != ch :: SlotOf(q, other) == SlotOf(p, other))
  {
    var (q, ok) := Apply(p, item, now);
    var ch := item.channelID;
    AboveMark(SlotOf(p, ch), Key(item));
    if ch in p.pending {
      CompareItemsIsKeyOrder(p.pending[ch], item);
    } else {
      BelowTotal(Nothing, Key(item));
    }
    if ResolvedAt(p, ch) != Empty {
      ComparedToResolution(item, ResolvedAt(p, ch));
    }
    if ok {
      OutcomeCoversKey(item, now);
      BelowTotal(FrontierOf(p, ch), Key(item));
      AtMostTransitive(FrontierOf(p, ch), Key(item), FrontierOf(q, ch));
    }
  }

  /** What an accepted post leaves in its channel: an own post a resolution, stamped as the post is or, where it
      carries no stamp, as the clock reads; an addressed post itself. Never both. */
  lemma AcceptedPostIsStored(p: Projection, item: CheckItem, now: Reading)
    requires Apply(p, item, now).1
    ensures var q, ch := Apply(p, item, now).0, item.channelID;
            if item.own then
              && ch !in q.pending && ch in q.pendingResolvedAt
              && (item.createdAt == Empty ==> q.pendingResolvedAt[ch] == now)
              && (item.createdAt != Empty ==> q.pendingResolvedAt[ch] == item.createdAt)
            else ch in q.pending && q.pending[ch] == item && ch !in q.pendingResolvedAt
  {
  }

  /** One call of ApplyPending: the item, and what the clock would say. */
  datatype Event = Event(item: CheckItem, now: Reading)

  /** The projection after a run of calls. */
  function Run(p: Projection, es: seq<Event>): Projection {
    if es == [] then p
    else
      var last := es[|es| - 1];
      Apply(Run(p, es[..|es| - 1]), last.item, last.now).0
  }

  /** The items of the run that were accepted, in order. */
  function AcceptedItems(p: Projection, es: seq<Event>): seq<CheckItem> {
    if es == [] then []
    else
      var init, last := es[..|es| - 1], es[|es| - 1];
      AcceptedItems(p, init) + (if Apply(Run(p, init), last.item, last.now).1 then [last.item] else [])
  }

  lemma {:induction false} AcceptedItemsAreCounted(p: Projection, es: seq<Event>)
    ensures |AcceptedItems(p, es)| == AcceptedCount(p, es)
  {
    if es != [] {
      AcceptedItemsAreCounted(p, es[..|es| - 1]);
    }
  }

  /** How many calls of the run were accepted. */
  function AcceptedCount(p: Projection, es: seq<Event>): nat {
    if es == [] then 0
    else
      var last := es[|es| - 1];
      AcceptedCount(p, es[..|es| - 1]) + (if Apply(Run(p, es[..|es| - 1]), last.item, last.now).1 then 1 else 0)
  }

  lemma {:induction false} RunConcat(p: Projection, xs: seq<Event>, ys: seq<Event>)
    ensures Run(p, xs + ys) == Run(Run(p, xs), ys)
    ensures AcceptedCount(p, xs + ys) == AcceptedCount(p, xs) + AcceptedCount(Run(p, xs), ys)
  {
    if ys == [] {
      assert xs + ys == xs;
    } else {
      RunConcat(p, xs, ys[..|ys| - 1]);
      assert (xs + ys)[..|xs + ys| - 1] == xs + ys[..|ys| - 1];
    }
  }

  /** One channel's view of one call. */
  function ApplySlot(slot: Slot, channelID: string, e: Event): Slot {
    if e.item.channelID == channelID && Significant(e.item) && Below(Mark(slot), Key(e.item))
    then Outcome(e.item, e.now)
    else slot
  }

  function RunSlot(slot: Slot, channelID: string, es: seq<Event>): Slot {
    if es == [] then slot
    else ApplySlot(RunSlot(slot, channelID, es[..|es| - 1]), channelID, es[|es| - 1])
  }

  /** Channels do not influence one another, nor does the revision counter influence them. */
  lemma {:induction false} RunIsPerChannel(p: Projection, channelID: string, es: seq<Event>)
    ensures SlotOf(Run(p, es), channelID) == RunSlot(SlotOf(p, channelID), channelID, es)
  {
    if es != [] {
      var init, last := es[..|es| - 1], es[|es| - 1];
      RunIsPerChannel(p, channelID, init);
      FrontierRefinement(Run(p, init), last.item, last.now);
    }
  }

  /** No run ever lowers a frontier, and after a run every item it offered lies at or below it. */
  lemma {:induction false} RunRaisesFrontier(slot: Slot, channelID: string, es: seq<Event>)
    ensures AtMost(Mark(slot), Mark(RunSlot(slot, channelID, es)))
    ensures forall e | e in es && e.item.channelID == channelID && Significant(e.item) ::
              AtMost(Key(e.item), Mark(RunSlot(slot, channelID, es)))
  {
    if es == [] {
      BelowTotal(Mark(slot), Mark(slot));
    } else {
      var init, last := es[..|es| - 1], es[|es| - 1];
      RunRaisesFrontier(slot, channelID, init);
      var mid, end := RunSlot(slot, channelID, init), RunSlot(slot, channelID, es);
      OutcomeCoversKey(last.item, last.now);
      BelowTotal(Mark(mid), Key(last.item));
      BelowTotal(Mark(mid), Mark(mid));
      if mid != end {
        AtMostTransitive(Mark(mid), Key(last.item), Mark(end));
      }
      AtMostTransitive(Mark(slot), Mark(mid), Mark(end));
      forall e | e in es && e.item.channelID == channelID && Significant(e.item)
        ensures AtMost(Key(e.item), Mark(end))
      {
        if e in init {
          AtMostTransitive(Key(e.item), Mark(mid), Mark(end));
        } else {
          assert e == last;
        }
      }
    }
  }

  /** Events that do not lie above the frontiers are all rejected: the projection stays as it is. */
  lemma {:induction false} RejectedBelowFrontier(p: Projection, es: seq<Event>)
    requires forall e | e in es && Significant(e.item) :: AtMost(Key(e.item), FrontierOf(p, e.item.channelID))
    ensures Run(p, es) == p && AcceptedCount(p, es) == 0
  {
    if es != [] {
      var init, last := es[..|es| - 1], es[|es| - 1];
      assert last in es && forall e | e in init :: e in es;
      RejectedBelowFrontier(p, init);
      FrontierRefinement(p, last.item, last.now);
    }
  }

  /** Events whose items have all been offered before are all rejected: the projection stays as it is. */
  lemma {:induction false} ReplayIsRejected(p: Projection, before: seq<Event>, again: seq<Event>)
    requires forall e | e in again :: exists b :: b in before && b.item == e.item
    ensures Run(Run(p, before), again) == Run(p, before)
    ensures AcceptedCount(Run(p, before), again) == 0
  {
    var q := Run(p, before);
    forall e | e in again && Significant(e.item) ensures AtMost(Key(e.item), FrontierOf(q, e.item.channelID)) {
      var b :| b in before && b.item == e.item;
      RunIsPerChannel(p, e.item.channelID, before);
      RunRaisesFrontier(SlotOf(p, e.item.channelID), e.item.channelID, before);
    }
    RejectedBelowFrontier(q, again);
  }

  /** After an own post without a stamp has been accepted, its channel accepts no second one: within one
      run each channel reads the clock at most once. */
  lemma ClockIsReadOncePerChannel(p: Projection, first: Event, between: seq<Event>, second: Event)
    requires first.item.own && second.item.own && first.item.createdAt == second.item.createdAt == Empty
    requires first.item.channelID == second.item.channelID
    requires Apply(p, first.item, first.now).1
    ensures !Apply(Run(Apply(p, first.item, first.now).0, between), second.item, second.now).1
  {
    var q, ch := Apply(p, first.item, first.now).0, first.item.channelID;
    FrontierRefinement(p, first.item, first.now);
    RunIsPerChannel(q, ch, between);
    RunRaisesFrontier(SlotOf(q, ch), ch, between);
    AtMostTransitive(Key(second.item), FrontierOf(q, ch), FrontierOf(Run(q, between), ch));
    FrontierRefinement(Run(q, between), second.item, second.now);
  }

  /** An own post whose stamp is there but does not parse closes its channel for good. */
  lemma UnreadableOwnPostCloses(p: Projection, first: Event, between: seq<Event>, later: Event)
    requires first.item.own && first.item.createdAt != Empty && !first.item.createdAt.At?
    requires first.item.channelID == later.item.channelID
    requires Apply(p, first.item, first.now).1
    ensures !Apply(Run(Apply(p, first.item, first.now).0, between), later.item, later.now).1
  {
    var q, ch := Apply(p, first.item, first.now).0, first.item.channelID;
    FrontierRefinement(p, first.item, first.now);
    RunIsPerChannel(q, ch, between);
    RunRaisesFrontier(SlotOf(q, ch), ch, between);
    AtMostTransitive(Key(later.item), FrontierOf(q, ch), FrontierOf(Run(q, between), ch));
    FrontierRefinement(Run(q, between), later.item, later.now);
  }

  /** The instant up to which an own post answers its channel. */
  function AnsweredUpTo(post: Event): int
    requires post.item.createdAt == Empty || post.item.createdAt.At?
  {
    if post.item.createdAt == Empty then post.now.instant else post.item.createdAt.instant
  }

  /** An accepted own post answers everything up to its own instant, or without a stamp up to the moment it was
      seen: no item of the channel stamped so is ever accepted again. */
  lemma {:induction false} AnsweredIsAnswered(p: Projection, own: Event, between: seq<Event>, later: Event)
    requires own.item.own && (own.item.createdAt == Empty || own.item.createdAt.At?)
    requires Apply(p, own.item, own.now).1
    requires later.item.channelID == own.item.channelID && later.item.createdAt.At?
    requires later.item.createdAt.instant <= AnsweredUpTo(own)
    ensures !Apply(Run(Apply(p, own.item, own.now).0, between), later.item, later.now).1
  {
    var q, ch := Apply(p, own.item, own.now).0, own.item.channelID;
    AcceptedPostIsStored(p, own.item, own.now);
    assert FrontierOf(q, ch) == Resolved(AnsweredUpTo(own));
    RunIsPerChannel(q, ch, between);
    RunRaisesFrontier(SlotOf(q, ch), ch, between);
    AtMostTransitive(Key(later.item), FrontierOf(q, ch), FrontierOf(Run(q, between), ch));
    FrontierRefinement(Run(q, between), later.item, later.now);
  }

  /** And nothing beyond: an addressed post with a later stamp, if it comes next and can be reached, is pending
      again. */
  lemma {:induction false} LaterQuestionReopens(p: Projection, own: Event, asked: Event)
    requires own.item.own && (own.item.createdAt == Empty || own.item.createdAt.At?)
    requires Apply(p, own.item, own.now).1
    requires !asked.item.own && asked.item.addressed && asked.item.channelID == own.item.channelID
    requires Reachable(asked.item)
    requires asked.item.createdAt.At? && asked.item.createdAt.instant > AnsweredUpTo(own)
    ensures var (r, ok) := Apply(Apply(p, own.item, own.now).0, asked.item, asked.now);
            ok && SlotOf(r, asked.item.channelID) == Slot(Some(asked.item), None)
  {
    var q, ch := Apply(p, own.item, own.now).0, own.item.channelID;
    AcceptedPostIsStored(p, own.item, own.now);
    assert FrontierOf(q, ch) == Resolved(AnsweredUpTo(own));
    ValidIsReachable(asked.item);
    FrontierRefinement(q, asked.item, asked.now);
    AcceptedPostIsStored(q, asked.item, asked.now);
  }

  /** In a channel that holds nothing an addressed post is accepted exactly when its channel, the way to reach
      it and its own id can all be read. */
  lemma FirstQuestionIsPending(p: Projection, item: CheckItem, now: Reading)
    requires SlotOf(p, item.channelID) == EMPTY_SLOT && !item.own && item.addressed
    ensures var (q, ok) := Apply(p, item, now);
            && (ok <==> Reachable(item))
            && SlotOf(q, item.channelID) == Slot(if ok then Some(item) else None, None)
  {
    ValidIsReachable(item);
    BelowTotal(Nothing, Key(item));
    FrontierRefinement(p, item, now);
  }

  /** And every pending item is one that was offered, under its own channel, addressed, not an own post, and
      with those three readable. */
  lemma {:induction false} PendingItemsWereAsked(es: seq<Event>, channelID: string)
    requires channelID in Run(EMPTY, es).pending
    ensures var item := Run(EMPTY, es).pending[channelID];
            && (exists e :: e in es && e.item == item)
            && item.channelID == channelID && item.addressed && !item.own
            && Reachable(item)
  {
    var init, last := es[..|es| - 1], es[|es| - 1];
    var p, q := Run(EMPTY, init), Run(EMPTY, es);
    assert last in es;
    if channelID in p.pending && p.pending[channelID] == q.pending[channelID] {
      PendingItemsWereAsked(init, channelID);
    } else {
      ValidIsReachable(last.item);
    }
  }

  /** An own post leaves its channel without a pending item exactly when there was none or it lies above
      the frontier. */
  lemma OwnPostClosesExactly(p: Projection, item: CheckItem, now: Reading)
    requires item.own && item.channelID != ""
    ensures var ch := item.channelID;
            ch !in Apply(p, item, now).0.pending <==> ch !in p.pending || Below(FrontierOf(p, ch), Key(item))
  {
    FrontierRefinement(p, item, now);
  }

  /** So an own post need not close: one older than the pending item is rejected and the item stays. */
  lemma OlderOwnPostDoesNotClose(now: Reading)
    ensures exists asked: Event, own: Event ::
              && own.item.own && own.item.channelID == asked.item.channelID == "c"
              && var p := Run(EMPTY, [asked]);
                 p.pending == map["c" := asked.item] && Apply(p, own.item, own.now) == (p, false)
  {
    var asked := Event(CheckItem("c", "r", "b", false, true, At(6, Utc), ""), now);
    var own := Event(CheckItem("c", "r", "a", true, false, At(5, Utc), ""), now);
    assert !Text.IsSpace("c"[0]) && !Text.IsSpace("r"[0]) && !Text.IsSpace("b"[0]);
    assert [asked][..0] == [];
    assert Run(EMPTY, [asked]) == Apply(EMPTY, asked.item, now).0;
    assert Run(EMPTY, [asked]).pending == map["c" := asked.item];
    assert CompareItems(own.item, asked.item) < 0;
  }
}
