/** When does the order of events not matter? Exactly when no event shadows a greatest event of its
    channel with a different outcome. */
module Convergence {
  import opened Frontiers
  import opened Items
  import opened Projections
  import Text

  /** What an event can do to its channel, with everything that makes no difference removed. */
  datatype Effect = Effect(key: Frontier, outcome: Slot)

  function EffectOf(e: Event): Effect {
    Effect(Key(e.item), Outcome(e.item, e.now))
  }

  predicate Concerns(item: CheckItem, channelID: string) {
    item.channelID == channelID && Significant(item)
  }

  function EffectsOf(es: seq<Event>, channelID: string): set<Effect> {
    set e | e in es && Concerns(e.item, channelID) :: EffectOf(e)
  }

  predicate Greatest(effects: set<Effect>, z: Effect) {
    z in effects && forall y | y in effects :: AtMost(y.key, z.key)
  }

  /** Once `x` has been accepted, `z` no longer can be. */
  predicate Shadows(x: Effect, z: Effect) {
    AtMost(z.key, Mark(x.outcome))
  }

  /** The events of a channel settle it alike in every order. A caller can check this on the events alone. */
  predicate Determined(effects: set<Effect>) {
    forall x, z | x in effects && z in effects && Greatest(effects, z) && Shadows(x, z) :: x.outcome == z.outcome
  }

  /** The slot the events leave, said without any order: the outcome of a greatest event, or nothing new. */
  ghost predicate Settles(slot: Slot, effects: set<Effect>, final: Slot) {
    if exists e :: e in effects && Below(Mark(slot), e.key) then
      exists z :: Greatest(effects, z) && final == z.outcome
    else
      final == slot
  }

  lemma {:induction false} GreatestExists(effects: set<Effect>, member: Effect) returns (z: Effect)
    requires member in effects
    ensures Greatest(effects, z)
    decreases effects
  {
    BelowTotal(member.key, member.key);
    if y :| y in effects && Below(member.key, y.key) {
      z := GreatestExists(effects - {member}, y);
      AtMostTransitive(member.key, y.key, z.key) by { BelowTotal(member.key, y.key); }
    } else {
      z := member;
    }
  }

  /** Along any run the slot is the initial one, or the outcome of an event that lay above it. */
  lemma {:induction false} RunSlotOrigin(slot: Slot, channelID: string, es: seq<Event>)
    ensures var final := RunSlot(slot, channelID, es);
            final == slot ||
            exists x :: x in EffectsOf(es, channelID) && x.outcome == final && Below(Mark(slot), x.key)
  {
    if es != [] {
      var init, last := es[..|es| - 1], es[|es| - 1];
      RunSlotOrigin(slot, channelID, init);
      assert EffectsOf(init, channelID) <= EffectsOf(es, channelID);
      var mid, final := RunSlot(slot, channelID, init), RunSlot(slot, channelID, es);
      if final != mid {
        assert EffectOf(last) in EffectsOf(es, channelID);
        RunRaisesFrontier(slot, channelID, init);
        BelowTotal(Mark(mid), Key(last.item));
        AtMostTransitive(Mark(slot), Mark(mid), Key(last.item));
      }
    }
  }

  /** A run of determined events settles the channel: the result depends on the set of effects alone. */
  lemma RunSettles(slot: Slot, channelID: string, es: seq<Event>)
    requires Determined(EffectsOf(es, channelID))
    ensures Settles(slot, EffectsOf(es, channelID), RunSlot(slot, channelID, es))
  {
    var effects, final := EffectsOf(es, channelID), RunSlot(slot, channelID, es);
    RunSlotOrigin(slot, channelID, es);
    RunRaisesFrontier(slot, channelID, es);
    if e :| e in effects && Below(Mark(slot), e.key) {
      var z := GreatestExists(effects, e);
      assert AtMost(e.key, Mark(final)) && AtMost(z.key, Mark(final));
      assert final != slot;
      var x :| x in effects && x.outcome == final && Below(Mark(slot), x.key);
      assert Shadows(x, z);
    }
  }

  function KeysOf(effects: set<Effect>): set<Frontier> {
    set x | x in effects :: x.key
  }

  lemma KeysOfUnion(x: set<Effect>, y: set<Effect>)
    ensures KeysOf(x + y) == KeysOf(x) + KeysOf(y)
  {
  }

  /** A part of a determined set that has all its keys is determined too. */
  lemma {:induction false} PartIsDetermined(whole: set<Effect>, part: set<Effect>)
    requires Determined(whole) && part <= whole && KeysOf(part) == KeysOf(whole)
    ensures Determined(part)
    ensures forall z | Greatest(part, z) :: Greatest(whole, z)
  {
    forall z | Greatest(part, z) ensures Greatest(whole, z) {
      forall y | y in whole ensures AtMost(y.key, z.key) {
        assert y.key in KeysOf(part);
      }
    }
  }

  lemma {:induction false} SettlesByWhole(slot: Slot, whole: set<Effect>, part: set<Effect>, final: Slot)
    requires Determined(whole) && part <= whole && KeysOf(part) == KeysOf(whole)
    requires Settles(slot, part, final)
    ensures Settles(slot, whole, final)
  {
    PartIsDetermined(whole, part);
    if e :| e in whole && Below(Mark(slot), e.key) {
      assert e.key in KeysOf(part);
      var d :| d in part && d.key == e.key;
    }
  }

  lemma {:induction false} SettledIsUnique(slot: Slot, effects: set<Effect>, one: Slot, two: Slot)
    requires Determined(effects)
    requires forall x | x in effects :: AtMost(x.key, Mark(x.outcome))
    requires Settles(slot, effects, one) && Settles(slot, effects, two)
    ensures one == two
  {
    if e :| e in effects && Below(Mark(slot), e.key) {
      var z :| Greatest(effects, z) && one == z.outcome;
      var y :| Greatest(effects, y) && two == y.outcome;
      AtMostTransitive(y.key, z.key, Mark(z.outcome));
      assert Shadows(z, y);
    }
  }

  lemma EffectsCoverKeys(es: seq<Event>, channelID: string)
    ensures forall x | x in EffectsOf(es, channelID) :: AtMost(x.key, Mark(x.outcome))
  {
    forall x | x in EffectsOf(es, channelID) ensures AtMost(x.key, Mark(x.outcome)) {
      var e :| e in es && Concerns(e.item, channelID) && EffectOf(e) == x;
      OutcomeCoversKey(e.item, e.now);
    }
  }

  /** The slot a run of determined events leaves is the settled one. */
  lemma {:induction false} EventsSettle(p: Projection, es: seq<Event>, channelID: string)
    requires Determined(EffectsOf(es, channelID))
    ensures Settles(SlotOf(p, channelID), EffectsOf(es, channelID), SlotOf(Run(p, es), channelID))
  {
    RunIsPerChannel(p, channelID, es);
    RunSettles(SlotOf(p, channelID), channelID, es);
  }

  /** Convergence: whatever the order, the duplicates and the start, events with the same keys give the same
      slot, if all their effects together are determined: in particular the same effects, but also the same
      items observed under different clocks. */
  lemma {:induction false} EventsConverge(p: Projection, xs: seq<Event>, ys: seq<Event>, channelID: string)
    requires KeysOf(EffectsOf(xs, channelID)) == KeysOf(EffectsOf(ys, channelID))
    requires Determined(EffectsOf(xs, channelID) + EffectsOf(ys, channelID))
    ensures SlotOf(Run(p, xs), channelID) == SlotOf(Run(p, ys), channelID)
  {
    var these, those := EffectsOf(xs, channelID), EffectsOf(ys, channelID);
    KeysOfUnion(these, those);
    PartIsDetermined(these + those, these);
    PartIsDetermined(these + those, those);
    EventsSettle(p, xs, channelID);
    EventsSettle(p, ys, channelID);
    EffectsCoverKeys(xs, channelID);
    EffectsCoverKeys(ys, channelID);
    var slot, one, two := SlotOf(p, channelID), SlotOf(Run(p, xs), channelID), SlotOf(Run(p, ys), channelID);
    SettlesByWhole(slot, these + those, these, one);
    SettlesByWhole(slot, these + those, those, two);
    SettledIsUnique(slot, these + those, one, two);
  }

  ghost predicate AgreesInEveryOrder(effects: set<Effect>, channelID: string) {
    forall p, xs, ys | EffectsOf(xs, channelID) == effects && EffectsOf(ys, channelID) == effects ::
      SlotOf(Run(p, xs), channelID) == SlotOf(Run(p, ys), channelID)
  }

  /** The events may also be required to be the very same ones, each as often. */
  ghost predicate AgreesWhenReordered(es: seq<Event>, channelID: string) {
    forall p, xs | multiset(xs) == multiset(es) :: SlotOf(Run(p, xs), channelID) == SlotOf(Run(p, es), channelID)
  }

  /** An event that starts a run from nothing, and shadows a greatest one, decides the run. */
  lemma FirstShadowWins(e: Event, rest: seq<Event>, channelID: string, z: Effect)
    requires Concerns(e.item, channelID)
    requires Greatest(EffectsOf([e] + rest, channelID), z) && Shadows(EffectOf(e), z)
    ensures SlotOf(Run(EMPTY, [e] + rest), channelID) == EffectOf(e).outcome
  {
    RunIsPerChannel(EMPTY, channelID, [e] + rest);
    assert RunSlot(EMPTY_SLOT, channelID, [e]) == EffectOf(e).outcome by {
      assert [e][..|[e]| - 1] == [];
      BelowTotal(Nothing, Key(e.item));
    }
    StaysShadowed(EffectOf(e).outcome, channelID, e, rest, [e] + rest, z);
  }

  lemma {:induction false} StaysShadowed(
      slot: Slot, channelID: string, e: Event, es: seq<Event>, all: seq<Event>, z: Effect)
    requires RunSlot(EMPTY_SLOT, channelID, [e]) == slot
    requires forall x | x in es :: x in all
    requires Greatest(EffectsOf(all, channelID), z) && AtMost(z.key, Mark(slot))
    ensures RunSlot(EMPTY_SLOT, channelID, [e] + es) == slot
  {
    if es == [] {
      assert [e] + es == [e];
    } else {
      var init, last := es[..|es| - 1], es[|es| - 1];
      StaysShadowed(slot, channelID, e, init, all, z);
      assert ([e] + es)[..|[e] + es| - 1] == [e] + init;
      assert last in all;
      if Concerns(last.item, channelID) {
        assert EffectOf(last) in EffectsOf(all, channelID);
        AtMostTransitive(Key(last.item), z.key, Mark(slot));
      }
    }
  }

  lemma PermutationsHaveEqualEffects(xs: seq<Event>, ys: seq<Event>, channelID: string)
    requires multiset(xs) == multiset(ys)
    ensures EffectsOf(xs, channelID) == EffectsOf(ys, channelID)
  {
    forall e ensures e in xs <==> e in ys {
      assert e in xs <==> e in multiset(xs);
      assert e in ys <==> e in multiset(ys);
    }
  }

  lemma {:induction false} DeterminedAgrees(es: seq<Event>, channelID: string)
    requires Determined(EffectsOf(es, channelID))
    ensures AgreesInEveryOrder(EffectsOf(es, channelID), channelID)
  {
    forall p, xs, ys |
      EffectsOf(xs, channelID) == EffectsOf(es, channelID) && EffectsOf(ys, channelID) == EffectsOf(es, channelID)
      ensures SlotOf(Run(p, xs), channelID) == SlotOf(Run(p, ys), channelID)
    {
      assert EffectsOf(es, channelID) + EffectsOf(es, channelID) == EffectsOf(es, channelID);
      EventsConverge(p, xs, ys, channelID);
    }
  }

  /** The same events with one that has effect `x` moved to the front. */
  lemma {:induction false} FirstShadowReordered(es: seq<Event>, channelID: string, x: Effect, z: Effect)
    returns (xs: seq<Event>)
    requires x in EffectsOf(es, channelID) && Greatest(EffectsOf(es, channelID), z) && Shadows(x, z)
    ensures multiset(xs) == multiset(es)
    ensures SlotOf(Run(EMPTY, xs), channelID) == x.outcome
  {
    var e :| e in es && Concerns(e.item, channelID) && EffectOf(e) == x;
    var i :| 0 <= i < |es| && es[i] == e;
    var rest := es[..i] + es[i + 1..];
    assert es == es[..i] + [e] + es[i + 1..];
    xs := [e] + rest;
    assert multiset(xs) == multiset(es);
    PermutationsHaveEqualEffects(xs, es, channelID);
    FirstShadowWins(e, rest, channelID, z);
  }

  /** Where a greatest event is shadowed with a different outcome, two orders of the very same events end
      differently. */
  lemma {:induction false} ShadowsSplitRuns(es: seq<Event>, channelID: string, x: Effect, z: Effect)
    returns (xs: seq<Event>, zs: seq<Event>)
    requires x in EffectsOf(es, channelID) && Greatest(EffectsOf(es, channelID), z) && Shadows(x, z)
    requires x.outcome != z.outcome
    ensures multiset(xs) == multiset(es) == multiset(zs)
    ensures SlotOf(Run(EMPTY, xs), channelID) != SlotOf(Run(EMPTY, zs), channelID)
  {
    xs := FirstShadowReordered(es, channelID, x, z);
    EffectsCoverKeys(es, channelID);
    zs := FirstShadowReordered(es, channelID, z, z);
  }

  lemma {:induction false} AgreementNeedsDetermined(es: seq<Event>, channelID: string)
    requires !Determined(EffectsOf(es, channelID))
    ensures !AgreesWhenReordered(es, channelID) && !AgreesInEveryOrder(EffectsOf(es, channelID), channelID)
  {
    var effects := EffectsOf(es, channelID);
    var x, z :|
      x in effects && z in effects && Greatest(effects, z) && Shadows(x, z) && x.outcome != z.outcome;
    var xs, zs := ShadowsSplitRuns(es, channelID, x, z);
    PermutationsHaveEqualEffects(xs, es, channelID);
    PermutationsHaveEqualEffects(zs, es, channelID);
    var slot := SlotOf(Run(EMPTY, es), channelID);
    assert SlotOf(Run(EMPTY, xs), channelID) != slot || SlotOf(Run(EMPTY, zs), channelID) != slot;
  }

  /** The condition is exact: it holds precisely when every order, with any duplicates, from every start,
      leaves the channel the same; and precisely when every mere reordering of the events does. */
  lemma {:induction false} ConvergenceIsExact(es: seq<Event>, channelID: string)
    ensures Determined(EffectsOf(es, channelID)) <==> AgreesInEveryOrder(EffectsOf(es, channelID), channelID)
    ensures Determined(EffectsOf(es, channelID)) <==> AgreesWhenReordered(es, channelID)
  {
    if Determined(EffectsOf(es, channelID)) {
      DeterminedAgrees(es, channelID);
      forall p, xs | multiset(xs) == multiset(es)
        ensures SlotOf(Run(p, xs), channelID) == SlotOf(Run(p, es), channelID)
      {
        PermutationsHaveEqualEffects(xs, es, channelID);
      }
    } else {
      AgreementNeedsDetermined(es, channelID);
    }
  }

  /** The items of a channel that count. */
  function ItemsOf(es: seq<Event>, channelID: string): set<CheckItem> {
    set e | e in es && Concerns(e.item, channelID) :: e.item
  }

  /** Stamps that parse, and equal instants meaning the same event. */
  predicate InstantsNameEvents(items: set<CheckItem>) {
    && (forall i | i in items :: i.createdAt.At?)
    && (forall i, j | i in items && j in items && i.createdAt.At? && j.createdAt.At?
          && i.createdAt.instant == j.createdAt.instant :: i == j)
  }

  /** Where own posts are stamped, the items alone make the effects, whatever the clock says. */
  lemma {:induction false} ItemsMakeEffects(xs: seq<Event>, ys: seq<Event>, channelID: string)
    requires ItemsOf(xs, channelID) == ItemsOf(ys, channelID)
    requires forall i | i in ItemsOf(xs, channelID) && i.own :: i.createdAt != Empty
    ensures EffectsOf(xs, channelID) <= EffectsOf(ys, channelID)
  {
    forall x | x in EffectsOf(xs, channelID) ensures x in EffectsOf(ys, channelID) {
      var e :| e in xs && Concerns(e.item, channelID) && EffectOf(e) == x;
      assert e.item in ItemsOf(xs, channelID);
      assert e.item in ItemsOf(ys, channelID);
      var d :| d in ys && Concerns(d.item, channelID) && d.item == e.item;
      assert EffectOf(d) == x;
    }
  }

  /** Among stamps that parse, an event shadows none of a later instant. */
  lemma {:induction false} ShadowsWithinInstant(e: Event, d: Event)
    requires e.item.createdAt.At? && d.item.createdAt.At? && Significant(e.item)
    requires AtMost(EffectOf(e).key, EffectOf(d).key) && Shadows(EffectOf(e), EffectOf(d))
    ensures e.item.createdAt.instant == d.item.createdAt.instant
  {
  }

  lemma {:induction false} DistinctInstantsAreDetermined(es: seq<Event>, channelID: string)
    requires InstantsNameEvents(ItemsOf(es, channelID))
    ensures Determined(EffectsOf(es, channelID))
  {
    var effects := EffectsOf(es, channelID);
    forall x, z | x in effects && z in effects && Greatest(effects, z) && Shadows(x, z)
      ensures x.outcome == z.outcome
    {
      var ex :| ex in es && Concerns(ex.item, channelID) && EffectOf(ex) == x;
      var ez :| ez in es && Concerns(ez.item, channelID) && EffectOf(ez) == z;
      assert ex.item in ItemsOf(es, channelID) && ez.item in ItemsOf(es, channelID);
      ShadowsWithinInstant(ex, ez);
      assert ex.item == ez.item;
    }
  }

  /** The ordinary case: with such stamps the set of events decides, whatever their order, their
      duplicates, the start and the clock. */
  lemma {:induction false} DistinctInstantsConverge(p: Projection, xs: seq<Event>, ys: seq<Event>, channelID: string)
    requires ItemsOf(xs, channelID) == ItemsOf(ys, channelID)
    requires InstantsNameEvents(ItemsOf(xs, channelID))
    ensures SlotOf(Run(p, xs), channelID) == SlotOf(Run(p, ys), channelID)
    ensures Settles(SlotOf(p, channelID), EffectsOf(xs, channelID), SlotOf(Run(p, xs), channelID))
  {
    DistinctInstantsAreDetermined(xs, channelID);
    ItemsMakeEffects(xs, ys, channelID);
    ItemsMakeEffects(ys, xs, channelID);
    assert EffectsOf(xs, channelID) == EffectsOf(ys, channelID);
    assert EffectsOf(xs, channelID) + EffectsOf(ys, channelID) == EffectsOf(xs, channelID);
    EventsConverge(p, xs, ys, channelID);
    EventsSettle(p, xs, channelID);
  }

  /** Without it the order does matter: an own and an addressed post of one instant, the addressed one
      with the higher post id. */
  lemma OneInstantTwoPosts(now: Reading)
    ensures exists own: Event, addressed: Event ::
              && own.item.createdAt == addressed.item.createdAt && own.item.createdAt.At?
              && own.item.channelID == addressed.item.channelID
              && SlotOf(Run(EMPTY, [own, addressed]), own.item.channelID)
                 != SlotOf(Run(EMPTY, [addressed, own]), own.item.channelID)
  {
    var own := Event(CheckItem("c", "r", "a", true, false, At(5, Utc), ""), now);
    var addressed := Event(CheckItem("c", "r", "b", false, true, At(5, Utc), ""), now);
    RunIsPerChannel(EMPTY, "c", [own, addressed]);
    RunIsPerChannel(EMPTY, "c", [addressed, own]);
    assert [own, addressed][..1] == [own] && [addressed, own][..1] == [addressed];
    assert [own][..0] == [] && [addressed][..0] == [];
    assert !Text.IsSpace("c"[0]) && !Text.IsSpace("r"[0]) && !Text.IsSpace("b"[0]);
    assert Significant(own.item) && Significant(addressed.item);
    assert RunSlot(EMPTY_SLOT, "c", [own]) == Outcome(own.item, now);
    assert RunSlot(EMPTY_SLOT, "c", [addressed]) == Outcome(addressed.item, now);
  }
}
