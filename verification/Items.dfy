/** Timestamps, check items and the comparators of the state package. */
module Items {
  import Text

  /** How an instant is written: in UTC as RFC3339Nano formats it, or any other way that parses to it. */
  datatype Spelling = Utc | Other(text: string)

  type NonEmpty = s: string | s != "" witness "?"

  /** A timestamp string, by what time.Parse makes of it. `OutOfRange` is what formatting yields for an
      instant whose UTC year is not within 0 to 9999: a text that no longer parses. */
  datatype Stamp =
    | Empty
    | Garbage(text: NonEmpty)
    | OutOfRange(instant: int)
    | At(instant: int, spelling: Spelling)

  /** What the clock can return: a stamp that parses. */
  type Reading = s: Stamp | s.At? witness At(0, Utc)

  /** A check item; `body` stands for the fields the state package carries without reading. */
  datatype CheckItem = CheckItem(
    channelID: string,
    channelRef: string,
    postID: string,
    own: bool,
    addressed: bool,
    createdAt: Stamp,
    body: string)

  function CompareInstants(left: int, right: int): int {
    if left < right then -1 else if left > right then 1 else 0
  }

  /** (comparison, left parses, right parses). */
  function CompareTimestamps(left: Stamp, right: Stamp): (int, bool, bool) {
    if !left.At? || !right.At? then (0, left.At?, right.At?)
    else (CompareInstants(left.instant, right.instant), true, true)
  }

  function CompareItems(left: CheckItem, right: CheckItem): int {
    var (cmp, leftValid, rightValid) := CompareTimestamps(left.createdAt, right.createdAt);
    if (leftValid || rightValid) && leftValid != rightValid then (if leftValid then 1 else -1)
    else if (leftValid || rightValid) && cmp != 0 then cmp
    else Text.Compare(left.postID, right.postID)
  }

  function CompareItemToResolution(item: CheckItem, resolvedAt: Stamp, resolvedID: string): int {
    var (cmp, itemValid, resolutionValid) := CompareTimestamps(item.createdAt, resolvedAt);
    if !itemValid || !resolutionValid then
      if resolvedID != "" && item.postID != "" then Text.Compare(item.postID, resolvedID) else 0
    else if cmp != 0 then cmp
    else if resolvedID == "" || item.postID == "" then 0
    else Text.Compare(item.postID, resolvedID)
  }

  /** Anchored: the item names its channel, how to reach it, and a post. */
  predicate ValidPending(item: CheckItem) {
    !Text.Blank(item.channelID) && !Text.Blank(item.channelRef) && !Text.Blank(item.postID)
  }

  /** There is something to read in its channel, in the way to reach it, and in the post's id. */
  predicate Reachable(item: CheckItem) {
    Text.Written(item.channelID) && Text.Written(item.channelRef) && Text.Written(item.postID)
  }

  lemma ValidIsReachable(item: CheckItem)
    ensures ValidPending(item) <==> Reachable(item)
  {
    Text.WrittenOrBlank(item.channelID);
    Text.WrittenOrBlank(item.channelRef);
    Text.WrittenOrBlank(item.postID);
  }
}
