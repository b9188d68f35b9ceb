/** Revision stamps: a channel whose stamp has not changed has not changed. */
module Revisions {
  import opened Basics
  import opened Projections
  import Items

  predicate RevisionsBounded(p: Projection) {
    forall ch | ch in p.pendingRevision :: p.pendingRevision[ch] <= p.revision
  }

  predicate RevisionsDistinct(p: Projection) {
    forall c, d | c in p.pendingRevision && d in p.pendingRevision && c != d ::
      p.pendingRevision[c] != p.pendingRevision[d]
  }

  /** Short of the counter wrapping, the revision counts the accepted events, stamps stay below it,
      and stamps that were distinct stay distinct. */
  lemma {:induction false} StampsStaySound(p: Projection, es: seq<Event>)
    requires RevisionsBounded(p) && p.revision + AcceptedCount(p, es) < U64_LIMIT
    ensures Run(p, es).revision == p.revision + AcceptedCount(p, es)
    ensures RevisionsBounded(Run(p, es))
    ensures RevisionsDistinct(p) ==> RevisionsDistinct(Run(p, es))
  {
    if es != [] {
      var init, last := es[..|es| - 1], es[|es| - 1];
      StampsStaySound(p, init);
      FrontierRefinement(Run(p, init), last.item, last.now);
    }
  }

  /** Over a run a channel either keeps its stamp and its slot, or carries a stamp above every earlier one. */
  lemma {:induction false} StampMovesWithSlot(p: Projection, es: seq<Event>, channelID: string)
    requires RevisionsBounded(p) && p.revision + AcceptedCount(p, es) < U64_LIMIT
    ensures var q := Run(p, es);
            || (SlotOf(q, channelID) == SlotOf(p, channelID)
                && Lookup(q.pendingRevision, channelID) == Lookup(p.pendingRevision, channelID))
            || (channelID in q.pendingRevision && q.pendingRevision[channelID] > p.revision)
  {
    if es != [] {
      var init, last := es[..|es| - 1], es[|es| - 1];
      StampMovesWithSlot(p, init, channelID);
      StampsStaySound(p, init);
      FrontierRefinement(Run(p, init), last.item, last.now);
    }
  }

  /** Equal stamps, or none, at two points of a run mean an equal slot. */
  lemma EqualStampsMeanEqualSlots(p: Projection, first: seq<Event>, later: seq<Event>, channelID: string)
    requires RevisionsBounded(p) && p.revision + AcceptedCount(p, first + later) < U64_LIMIT
    requires Lookup(Run(p, first).pendingRevision, channelID)
             == Lookup(Run(p, first + later).pendingRevision, channelID)
    ensures SlotOf(Run(p, first), channelID) == SlotOf(Run(p, first + later), channelID)
  {
    RunConcat(p, first, later);
    StampsStaySound(p, first);
    StampMovesWithSlot(Run(p, first), later, channelID);
  }

  /** Each channel is pending or resolved but not both, resolutions carry a stamp, and every pending item
      is anchored and filed under its own channel. */
  predicate Exclusive(p: Projection) {
    && p.pending.Keys !! p.pendingResolvedAt.Keys
    && (forall ch | ch in p.pendingResolvedAt :: p.pendingResolvedAt[ch] != Items.Empty)
    && (forall ch | ch in p.pending :: Items.ValidPending(p.pending[ch]) && p.pending[ch].channelID == ch)
  }

  lemma {:induction false} RunsStayExclusive(p: Projection, es: seq<Event>)
    requires Exclusive(p)
    ensures Exclusive(Run(p, es))
  {
    if es != [] {
      RunsStayExclusive(p, es[..|es| - 1]);
    }
  }
}
