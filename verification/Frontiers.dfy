/** The total order hidden in the pending projection: what a channel has settled so far. */
module Frontiers {
  import opened Basics
  import opened Items
  import Text

  /** From bottom to top: nothing; an unreadable stamp, by post id; an instant, by post id; an instant
      resolved, above every post of that instant; resolved at an unreadable stamp, above everything. */
  datatype Frontier =
    | Nothing
    | Unstamped(id: string)
    | Stamped(instant: int, id: string)
    | Resolved(instant: int)
    | Closed

  predicate Below(f: Frontier, g: Frontier) {
    match f
    case Nothing => !g.Nothing?
    case Closed => false
    case Unstamped(a) => (
      match g
      case Nothing => false
      case Unstamped(b) => Text.Compare(a, b) < 0
      case _ => true)
    case Stamped(s, a) => (
      match g
      case Stamped(t, b) => s < t || (s == t && Text.Compare(a, b) < 0)
      case Resolved(t) => s <= t
      case Closed => true
      case _ => false)
    case Resolved(s) => (
      match g
      case Stamped(t, _) => s < t
      case Resolved(t) => s < t
      case Closed => true
      case _ => false)
  }

  predicate AtMost(f: Frontier, g: Frontier) {
    !Below(g, f)
  }

  function Max(f: Frontier, g: Frontier): Frontier {
    if Below(f, g) then g else f
  }

  lemma BelowTotal(f: Frontier, g: Frontier)
    ensures Below(f, g) || f == g || Below(g, f)
    ensures !(Below(f, g) && Below(g, f)) && !Below(f, f)
  {
    if f.Unstamped? || f.Stamped? {
      Text.CompareEqual(f.id, f.id);
      if g.Unstamped? || g.Stamped? {
        Text.CompareEqual(f.id, g.id);
        Text.CompareSwaps(f.id, g.id);
      }
    }
  }

  lemma BelowTransitive(f: Frontier, g: Frontier, h: Frontier)
    requires Below(f, g) && Below(g, h)
    ensures Below(f, h)
  {
    if (f.Unstamped? && g.Unstamped? && h.Unstamped?) || (f.Stamped? && g.Stamped? && h.Stamped?) {
      if Text.Compare(f.id, g.id) < 0 && Text.Compare(g.id, h.id) < 0 {
        Text.CompareTransitive(f.id, g.id, h.id);
      }
    }
  }

  lemma AtMostTransitive(f: Frontier, g: Frontier, h: Frontier)
    requires AtMost(f, g) && AtMost(g, h)
    ensures AtMost(f, h)
    ensures Below(f, g) || Below(g, h) ==> Below(f, h)
  {
    BelowTotal(f, g);
    BelowTotal(g, h);
    BelowTotal(f, h);
    if f != g && g != h {
      BelowTransitive(f, g, h);
    }
  }

  /** An item's place in the order. */
  function Key(item: CheckItem): Frontier {
    if item.createdAt.At? then Stamped(item.createdAt.instant, item.postID) else Unstamped(item.postID)
  }

  /** CompareItems is the order of the keys: hence a strict weak order, equal exactly on equal keys. */
  lemma CompareItemsIsKeyOrder(left: CheckItem, right: CheckItem)
    ensures CompareItems(left, right) < 0 <==> Below(Key(left), Key(right))
    ensures CompareItems(left, right) == 0 <==> Key(left) == Key(right)
    ensures CompareItems(left, right) == -CompareItems(right, left)
  {
    Text.CompareEqual(left.postID, right.postID);
    Text.CompareSwaps(left.postID, right.postID);
  }

  /** What a channel holds: its unanswered item and its resolution stamp, each possibly absent. */
  datatype Slot = Slot(pending: Option<CheckItem>, resolvedAt: Option<Stamp>)

  const EMPTY_SLOT := Slot(None, None)

  function PendingMark(pending: Option<CheckItem>): Frontier {
    if pending.None? then Nothing else Key(pending.value)
  }

  function ResolutionMark(resolvedAt: Option<Stamp>): Frontier {
    match resolvedAt
    case None => Nothing
    case Some(Empty) => Nothing
    case Some(At(instant, _)) => Resolved(instant)
    case Some(_) => Closed
  }

  /** A decoded file may hold both marks in one channel; then the higher one counts. */
  function Mark(slot: Slot): Frontier {
    Max(PendingMark(slot.pending), ResolutionMark(slot.resolvedAt))
  }

  lemma AboveMark(slot: Slot, key: Frontier)
    ensures Below(Mark(slot), key) <==>
            Below(PendingMark(slot.pending), key) && Below(ResolutionMark(slot.resolvedAt), key)
  {
  }

  /** With both ids at hand, a resolution is compared as the post it names would be, where both stamps parse, and
      by the ids alone otherwise. */
  lemma ComparedToResolvedPost(item: CheckItem, resolvedAt: Stamp, resolvedID: string)
    requires resolvedID != "" && item.postID != ""
    ensures CompareItemToResolution(item, resolvedAt, resolvedID)
            == if item.createdAt.At? && resolvedAt.At?
               then CompareItems(item, item.(postID := resolvedID, createdAt := resolvedAt))
               else Text.Compare(item.postID, resolvedID)
  {
  }

  lemma ComparedToResolution(item: CheckItem, resolvedAt: Stamp)
    requires resolvedAt != Empty
    ensures CompareItemToResolution(item, resolvedAt, "") > 0 <==> Below(ResolutionMark(Some(resolvedAt)), Key(item))
  {
  }
}
