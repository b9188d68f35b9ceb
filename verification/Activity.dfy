/** The activity index: the newest activity seen in each channel. */
module Activity {
  import opened Basics
  import opened Items
  import Text

  const NANOSECONDS := 1_000_000_000

  /** The instants, in nanoseconds of the Unix epoch, whose UTC year lies within 0 to 9999. */
  predicate FourDigitYear(instant: int) {
    -62_167_219_200 * NANOSECONDS <= instant < 253_402_300_800 * NANOSECONDS
  }

  /** time.UTC().Format(RFC3339Nano), as a text that parses again or does not. */
  function Canonical(instant: int): Stamp {
    if FourDigitYear(instant) then At(instant, Utc) else OutOfRange(instant)
  }

  predicate BlankStamp(s: Stamp) {
    s == Empty || (s.Garbage? && Text.Blank(s.text))
  }

  type Index = map<string, Stamp>

  /** RecordActivity on values. */
  function Record(index: Index, channelID: string, candidate: Stamp): (Index, bool) {
    if Text.Blank(channelID) || BlankStamp(candidate) || !candidate.At? then (index, false)
    else if channelID in index && index[channelID].At? && candidate.instant <= index[channelID].instant
    then (index, false)
    else (index[channelID := Canonical(candidate.instant)], true)
  }

  datatype Offer = Offer(channelID: string, candidate: Stamp)

  function RunOffers(index: Index, offers: seq<Offer>): Index {
    if offers == [] then index
    else
      var last := offers[|offers| - 1];
      Record(RunOffers(index, offers[..|offers| - 1]), last.channelID, last.candidate).0
  }

  /** The instants offered to a channel, in order. */
  function Instants(offers: seq<Offer>, channelID: string): seq<int> {
    if offers == [] then []
    else
      var rest, last := Instants(offers[..|offers| - 1], channelID), offers[|offers| - 1];
      if last.channelID == channelID && last.candidate.At? then rest + [last.candidate.instant] else rest
  }

  predicate IsMax(s: seq<int>, m: int) {
    m in s && forall x | x in s :: x <= m
  }

  lemma {:induction false} MaxExists(s: seq<int>) returns (m: int)
    requires s != []
    ensures IsMax(s, m)
  {
    if |s| == 1 {
      m := s[0];
    } else {
      m := MaxExists(s[..|s| - 1]);
      assert s == s[..|s| - 1] + [s[|s| - 1]];
      m := if m < s[|s| - 1] then s[|s| - 1] else m;
    }
  }

  /** The entry of a channel after some offers, given the instants among them. The greatest is kept unless
      its canonical text does not parse; then the next offer replaces it. */
  ghost predicate Holds(s: seq<int>, entry: Option<Stamp>) {
    if s == [] then entry == None
    else
      && (exists x :: x in s && entry == Some(Canonical(x)))
      && (forall m | IsMax(s, m) :: entry == Some(Canonical(m)) <==> FourDigitYear(m) || s[|s| - 1] == m)
      && (entry != Some(Canonical(s[|s| - 1])) ==> entry.value.At? && s[|s| - 1] <= entry.value.instant)
  }

  lemma OfferKeepsHolds(s: seq<int>, entry: Option<Stamp>, x: int)
    requires Holds(s, entry)
    ensures Holds(s + [x],
              if entry.Some? && entry.value.At? && x <= entry.value.instant then entry else Some(Canonical(x)))
  {
    var t := s + [x];
    if s != [] {
      var n := MaxExists(s);
      assert IsMax(t, if n < x then x else n);
    }
  }

  lemma {:induction false} RunOffersHolds(index: Index, offers: seq<Offer>, channelID: string)
    requires channelID !in index && !Text.Blank(channelID)
    ensures Holds(Instants(offers, channelID), Lookup(RunOffers(index, offers), channelID))
  {
    if offers != [] {
      var init, last := offers[..|offers| - 1], offers[|offers| - 1];
      RunOffersHolds(index, init, channelID);
      if last.channelID == channelID && last.candidate.At? {
        OfferKeepsHolds(Instants(init, channelID), Lookup(RunOffers(index, init), channelID), last.candidate.instant);
      }
    }
  }

  /** From an empty entry, over any offers in any order and with any duplicates, the entry ends as the
      canonical text of the greatest instant offered exactly when that instant has a four-digit UTC year, or
      was offered last. */
  lemma ActivityIsRunningMaximum(index: Index, offers: seq<Offer>, channelID: string, m: int)
    requires channelID !in index && !Text.Blank(channelID)
    requires IsMax(Instants(offers, channelID), m)
    ensures var s := Instants(offers, channelID);
            Lookup(RunOffers(index, offers), channelID) == Some(Canonical(m)) <==> FourDigitYear(m) || s[|s| - 1] == m
    ensures FourDigitYear(m) ==> Lookup(RunOffers(index, offers), channelID) == Some(At(m, Utc))
  {
    RunOffersHolds(index, offers, channelID);
  }

  /** What one offer does: true is returned exactly when the channel is not blank, the candidate parses, and no
      entry that parses is at or after it. Then the entry is the candidate's own instant in UTC, or a text that
      does not parse where that has no four-digit year; otherwise nothing changes. No other channel does. */
  lemma OfferIsRecorded(index: Index, channelID: string, candidate: Stamp)
    ensures var (after, ok) := Record(index, channelID, candidate);
            && (ok <==> Text.Written(channelID) && candidate.At?
                        && (channelID in index && index[channelID].At?
                            ==> index[channelID].instant < candidate.instant))
            && (!ok ==> after == index)
            && (ok ==> channelID in after
                       && if FourDigitYear(candidate.instant) then after[channelID] == At(candidate.instant, Utc)
                          else !after[channelID].At?)
            && forall other | other != channelID :: Lookup(after, other) == Lookup(index, other)
  {
    Text.WrittenOrBlank(channelID);
  }

  /** The entry after offers to a channel that had one: the initial entry as long as nothing newer was offered,
      and otherwise the greatest instant offered, in UTC. */
  ghost predicate Newest(initial: Option<Stamp>, s: seq<int>, entry: Option<Stamp>) {
    if s == [] || (initial.Some? && initial.value.At? && forall x | x in s :: x <= initial.value.instant)
    then entry == initial
    else exists m :: IsMax(s, m) && entry == Some(At(m, Utc))
  }

  lemma {:induction false} NewestAppend(initial: Option<Stamp>, s: seq<int>, entry: Option<Stamp>, x: int)
    requires Newest(initial, s, entry)
    ensures Newest(initial, s + [x],
              if entry.Some? && entry.value.At? && x <= entry.value.instant then entry else Some(At(x, Utc)))
  {
    var t := s + [x];
    assert x in t && forall y | y in t :: y in s || y == x;
    if s == [] || entry == initial {
      if !(entry.Some? && entry.value.At? && x <= entry.value.instant) {
        assert IsMax(t, x) by { NewestBelow(initial, s, entry, x); }
      }
    } else {
      var m :| IsMax(s, m) && entry == Some(At(m, Utc));
      assert IsMax(t, if x <= m then m else x);
    }
  }

  lemma {:induction false} NewestBelow(initial: Option<Stamp>, s: seq<int>, entry: Option<Stamp>, x: int)
    requires Newest(initial, s, entry) && !(entry.Some? && entry.value.At? && x <= entry.value.instant)
    ensures forall y | y in s :: y <= x
  {
    if s != [] && !(initial.Some? && initial.value.At? && forall y | y in s :: y <= initial.value.instant) {
      var m :| IsMax(s, m) && entry == Some(At(m, Utc));
    }
  }

  /** Whatever entry there was, the newest instant stands in the end, if the years have four digits. */
  lemma {:induction false} NewestActivityStands(index: Index, offers: seq<Offer>, channelID: string)
    requires !Text.Blank(channelID) && forall x | x in Instants(offers, channelID) :: FourDigitYear(x)
    ensures Newest(Lookup(index, channelID), Instants(offers, channelID), Lookup(RunOffers(index, offers), channelID))
  {
    if offers != [] {
      var init, last := offers[..|offers| - 1], offers[|offers| - 1];
      var s := Instants(init, channelID);
      assert forall x | x in s :: x in Instants(offers, channelID);
      NewestActivityStands(index, init, channelID);
      if last.channelID == channelID && last.candidate.At? {
        var x := last.candidate.instant;
        assert Instants(offers, channelID)[|s|] == x;
        NewestAppend(Lookup(index, channelID), s, Lookup(RunOffers(index, init), channelID), x);
      }
    }
  }

  predicate AllBefore(s: seq<int>, instant: int) {
    forall x | x in s :: x < instant
  }

  /** An offer is reported as new exactly when it is later than everything offered before. */
  lemma {:induction false} OnlyNewActivityIsReported(
      index: Index, offers: seq<Offer>, channelID: string, candidate: Stamp)
    requires channelID !in index && !Text.Blank(channelID)
    requires forall x | x in Instants(offers, channelID) :: FourDigitYear(x)
    ensures Record(RunOffers(index, offers), channelID, candidate).1
            <==> candidate.At? && AllBefore(Instants(offers, channelID), candidate.instant)
  {
    Text.WrittenOrBlank(channelID);
    NewestActivityStands(index, offers, channelID);
    OfferIsRecorded(RunOffers(index, offers), channelID, candidate);
    if candidate.At? {
      NewestIsBelow(Instants(offers, channelID), Lookup(RunOffers(index, offers), channelID), candidate);
    }
  }

  lemma {:induction false} NewestIsBelow(s: seq<int>, entry: Option<Stamp>, candidate: Stamp)
    requires Newest(None, s, entry) && candidate.At?
    ensures (entry.Some? && entry.value.At? ==> entry.value.instant < candidate.instant)
            <==> AllBefore(s, candidate.instant)
  {
    if s != [] {
      var m :| IsMax(s, m) && entry == Some(At(m, Utc));
      assert m in s;
    }
  }

  /** The other years do fail: an instant just past 9999 in UTC, written with an offset, then an older one. */
  lemma YearTenThousandIsForgotten(index: Index, offset: Spelling)
    requires "c" !in index
    ensures exists offers, m ::
              && IsMax(Instants(offers, "c"), m) && offers == [Offer("c", At(m, offset)), Offer("c", At(0, Utc))]
              && Lookup(RunOffers(index, offers), "c") == Some(Canonical(0)) && 0 < m
  {
    var m := 253_402_300_800 * NANOSECONDS;
    var offers := [Offer("c", At(m, offset)), Offer("c", At(0, Utc))];
    assert !Text.IsSpace("c"[0]);
    assert offers[..1] == [Offer("c", At(m, offset))] && offers[..1][..0] == [];
    assert Instants(offers[..1], "c") == [m];
    assert Instants(offers, "c") == [m, 0];
    assert RunOffers(index, offers[..1]) == index["c" := OutOfRange(m)];
    assert IsMax([m, 0], m);
  }

  /** Hence for four-digit years the order of the offers does not matter. */
  lemma ActivityIgnoresOrder(index: Index, these: seq<Offer>, those: seq<Offer>, channelID: string)
    requires channelID !in index && !Text.Blank(channelID)
    requires Members(Instants(these, channelID)) == Members(Instants(those, channelID))
    requires forall x | x in Instants(these, channelID) :: FourDigitYear(x)
    ensures Lookup(RunOffers(index, these), channelID) == Lookup(RunOffers(index, those), channelID)
  {
    var s, t := Instants(these, channelID), Instants(those, channelID);
    SameMembers(s, t);
    if s == [] {
      RunOffersHolds(index, these, channelID);
      RunOffersHolds(index, those, channelID);
    } else {
      var m := MaxExists(s);
      ActivityIsRunningMaximum(index, these, channelID, m);
      ActivityIsRunningMaximum(index, those, channelID, m);
    }
  }

  function Members(s: seq<int>): set<int> {
    set x | x in s
  }

  lemma SameMembers(s: seq<int>, t: seq<int>)
    requires Members(s) == Members(t)
    ensures s == [] <==> t == []
    ensures forall m | IsMax(s, m) :: IsMax(t, m)
  {
    assert s != [] ==> s[0] in Members(s);
    assert t != [] ==> t[0] in Members(t);
    forall m | IsMax(s, m) ensures IsMax(t, m) {
      assert m in Members(s);
      forall x | x in t ensures x <= m { assert x in Members(t); }
    }
  }
}
