/** The connection server: an accept loop, 32 slots, the table of active connections, a wait group, and
    workers that undo their admission in the order of their deferred calls. */
module Server {
  import Sequences

  const MAX_CONNECTIONS := 32

  /** Where a connection stands. The first four phases belong to the accept loop; a worker then decodes,
      handles, replies and closes, and unwinds: out of the table, slot freed, context cancelled, wait group
      left. A connection turned away is read, answered and closed on the side. */
  datatype Phase =
    | Arrived | Slotted | Registered | Counted
    | Decoding | Handling | Replying | Replied | Closed | Unlisted | Unslotted | Cancelled | Finished
    | BusyReading | BusyReplying | BusyReplied | BusyClosed

  /** `calls` counts handler calls, `attempts` the encodings of a response, `replies` those that wrote one: an
      encoding may fail, on an invalid payload or a dead peer. */
  datatype Conn = Conn(phase: Phase, open: bool, cancelled: bool, calls: nat, attempts: nat, replies: nat)

  /** The goroutine of ServeContext. `Sweeping` holds the table's mutex. */
  datatype Loop =
    | Accepting
    | Admitting(conn: nat)
    | Sweeping(rest: set<nat>)
    | Waiting
    | Returned(timedOut: bool)

  datatype State = State(
    loop: Loop,
    listening: bool,
    slots: nat,
    active: set<nat>,
    group: nat,
    conns: map<nat, Conn>)

  const START := State(Accepting, true, 0, {}, 0, map[])

  /** The steps of one connection, in the hands of the accept loop, of its worker, or of the busy reply. */
  datatype Move =
    | TakeSlot | TurnAway | Register | Count | Spawn
    | DecodeOk | DecodeFails | HandlerReturns | Reply | ReplyFails | CloseConn
    | Unlist | FreeSlot | Cancel | Done
    | BusyDecoded | BusyReply | BusyReplyFails | BusyClose

  /** `CloseListener` comes from the listener's owner, or from the goroutine that watches the server's context. */
  datatype Event =
    | Accept(c: nat) | AcceptError | AcceptClosed
    | Step(c: nat, move: Move)
    | CloseListener
    | SweepOne(c: nat) | SweepEnd | WaitDone | WaitTimeout

  /** The phase a move starts from. */
  function From(m: Move): Phase {
    match m
    case TakeSlot => Arrived
    case TurnAway => Arrived
    case Register => Slotted
    case Count => Registered
    case Spawn => Counted
    case DecodeOk => Decoding
    case DecodeFails => Decoding
    case HandlerReturns => Handling
    case Reply => Replying
    case ReplyFails => Replying
    case CloseConn => Replied
    case Unlist => Closed
    case FreeSlot => Unlisted
    case Cancel => Unslotted
    case Done => Cancelled
    case BusyDecoded => BusyReading
    case BusyReply => BusyReplying
    case BusyReplyFails => BusyReplying
    case BusyClose => BusyReplied
  }

  /** The connection after a move. */
  function After(conn: Conn, m: Move): Conn {
    match m
    case TakeSlot => conn.(phase := Slotted)
    case TurnAway => conn.(phase := BusyReading)
    case Register => conn.(phase := Registered)
    case Count => conn.(phase := Counted)
    case Spawn => conn.(phase := Decoding)
    case DecodeOk => conn.(phase := Handling, calls := conn.calls + 1)
    case DecodeFails => conn.(phase := Replying)
    case HandlerReturns => conn.(phase := Replying)
    case Reply => conn.(phase := Replied, attempts := conn.attempts + 1, replies := conn.replies + 1)
    case ReplyFails => conn.(phase := Replied, attempts := conn.attempts + 1)
    case CloseConn => conn.(phase := Closed, open := false)
    case Unlist => conn.(phase := Unlisted)
    case FreeSlot => conn.(phase := Unslotted)
    case Cancel => conn.(phase := Cancelled, cancelled := true)
    case Done => conn.(phase := Finished)
    case BusyDecoded => conn.(phase := BusyReplying)
    case BusyReply => conn.(phase := BusyReplied, attempts := conn.attempts + 1, replies := conn.replies + 1)
    case BusyReplyFails => conn.(phase := BusyReplied, attempts := conn.attempts + 1)
    case BusyClose => conn.(phase := BusyClosed, open := false)
  }

  predicate LoopMove(m: Move) {
    m.TakeSlot? || m.TurnAway? || m.Register? || m.Count? || m.Spawn?
  }

  /** Which steps are possible: a send on the full slot channel is not, nor is touching the table while
      the sweep holds its mutex, nor is writing to a closed connection. */
  predicate Enabled(s: State, e: Event) {
    match e
    case Accept(c) => s.loop.Accepting? && s.listening && c !in s.conns
    case AcceptError => s.loop.Accepting?
    case AcceptClosed => s.loop.Accepting? && !s.listening
    case Step(c, m) =>
      && c in s.conns && s.conns[c].phase == From(m)
      && (LoopMove(m) ==> s.loop == Admitting(c))
      && (m.TakeSlot? ==> s.slots < MAX_CONNECTIONS)
      && (m.TurnAway? ==> s.slots >= MAX_CONNECTIONS)
      && (m.Unlist? ==> !s.loop.Sweeping?)
      && (m.Reply? || m.BusyReply? ==> s.conns[c].open)
      && (m.FreeSlot? ==> s.slots > 0)
      && (m.Done? ==> s.group > 0)
    case CloseListener => true
    case SweepOne(c) => s.loop.Sweeping? && c in s.loop.rest && c in s.conns
    case SweepEnd => s.loop == Sweeping({})
    case WaitDone => s.loop.Waiting? && s.group == 0
    case WaitTimeout => s.loop.Waiting?
  }

  function WithConn(s: State, c: nat, conn: Conn): State {
    s.(conns := s.conns[c := conn])
  }

  function Next(s: State, e: Event): State
    requires Enabled(s, e)
  {
    match e
    case Accept(c) => WithConn(s, c, Conn(Arrived, true, false, 0, 0, 0)).(loop := Admitting(c))
    case AcceptError => s
    case AcceptClosed => s.(loop := Sweeping(s.active))
    case Step(c, m) =>
      var t := WithConn(s, c, After(s.conns[c], m));
      if m.TakeSlot? then t.(slots := s.slots + 1)
      else if m.FreeSlot? then t.(slots := s.slots - 1)
      else if m.Register? then t.(active := s.active + {c})
      else if m.Unlist? then t.(active := s.active - {c})
      else if m.Count? then t.(group := s.group + 1)
      else if m.Done? then t.(group := s.group - 1)
      else if m.TurnAway? || m.Spawn? then t.(loop := Accepting)
      else t
    case CloseListener => s.(listening := false)
    case SweepOne(c) =>
      WithConn(s, c, s.conns[c].(open := false, cancelled := true)).(loop := Sweeping(s.loop.rest - {c}))
    case SweepEnd => s.(loop := Waiting)
    case WaitDone => s.(loop := Returned(false))
    case WaitTimeout => s.(loop := Returned(true))
  }

  /** Any interleaving; an impossible step is skipped. */
  function Run(s: State, es: seq<Event>): State {
    if es == [] then s
    else
      var r, last := Run(s, es[..|es| - 1]), es[|es| - 1];
      if Enabled(r, last) then Next(r, last) else r
  }

  // ---- What the shared variables count ----

  predicate Entering(phase: Phase) {
    phase.Arrived? || phase.Slotted? || phase.Registered? || phase.Counted?
  }

  predicate OnBusyPath(phase: Phase) {
    phase.BusyReading? || phase.BusyReplying? || phase.BusyReplied? || phase.BusyClosed?
  }

  predicate Spawned(phase: Phase) {
    !Entering(phase) && !OnBusyPath(phase)
  }

  predicate Serving(phase: Phase) {
    phase.Decoding? || phase.Handling? || phase.Replying? || phase.Replied?
  }

  predicate Listed(phase: Phase) {
    phase.Registered? || phase.Counted? || Serving(phase) || phase.Closed?
  }

  predicate HoldsSlot(phase: Phase) {
    phase.Slotted? || Listed(phase) || phase.Unlisted?
  }

  predicate InGroup(phase: Phase) {
    phase.Counted? || (Spawned(phase) && !phase.Finished?)
  }

  function Those(s: State, test: Phase -> bool): set<nat> {
    set c | c in s.conns && test(s.conns[c].phase)
  }

  function SlotTest(): Phase -> bool { (p: Phase) => HoldsSlot(p) }
  function GroupTest(): Phase -> bool { (p: Phase) => InGroup(p) }
  function ListTest(): Phase -> bool { (p: Phase) => Listed(p) }
  function HandlerTest(): Phase -> bool { (p: Phase) => p.Handling? }

  /** Storing one connection changes who passes a test by at most that connection. */
  lemma StoreCounts(s: State, c: nat, conn: Conn, test: Phase -> bool)
    ensures var t := WithConn(s, c, conn);
            && Those(t, test) == (if test(conn.phase) then Those(s, test) + {c} else Those(s, test) - {c})
            && |Those(t, test)| == |Those(s, test)|
                 + (if test(conn.phase) then 1 else 0) - (if c in s.conns && test(s.conns[c].phase) then 1 else 0)
  {
    var before, after := Those(s, test), Those(WithConn(s, c, conn), test);
    assert after == if test(conn.phase) then before + {c} else before - {c};
    assert c in before <==> c in s.conns && test(s.conns[c].phase);
  }

  predicate CountsMatch(s: State) {
    && s.slots == |Those(s, SlotTest())| && s.slots <= MAX_CONNECTIONS
    && s.group == |Those(s, GroupTest())|
    && s.active == Those(s, ListTest())
  }

  lemma StoreSlots(s: State, c: nat, conn: Conn)
    ensures |Those(WithConn(s, c, conn), SlotTest())| == |Those(s, SlotTest())|
              + (if HoldsSlot(conn.phase) then 1 else 0)
              - (if c in s.conns && HoldsSlot(s.conns[c].phase) then 1 else 0)
  {
    StoreCounts(s, c, conn, SlotTest());
  }

  lemma StoreGroup(s: State, c: nat, conn: Conn)
    ensures |Those(WithConn(s, c, conn), GroupTest())| == |Those(s, GroupTest())|
              + (if InGroup(conn.phase) then 1 else 0)
              - (if c in s.conns && InGroup(s.conns[c].phase) then 1 else 0)
  {
    StoreCounts(s, c, conn, GroupTest());
  }

  lemma StoreActive(s: State, c: nat, conn: Conn)
    ensures Those(WithConn(s, c, conn), ListTest())
            == if Listed(conn.phase) then Those(s, ListTest()) + {c} else Those(s, ListTest()) - {c}
  {
    StoreCounts(s, c, conn, ListTest());
  }

  lemma CountsDependOnConns(s: State, t: State)
    requires s.conns == t.conns
    ensures Those(s, SlotTest()) == Those(t, SlotTest()) && Those(s, GroupTest()) == Those(t, GroupTest())
    ensures Those(s, ListTest()) == Those(t, ListTest())
  {
  }

  /** The order of the deferred calls at work: each move changes exactly the counters its phases say. */
  lemma MoveShifts(conn: Conn, m: Move)
    requires conn.phase == From(m)
    ensures var p, q := conn.phase, After(conn, m).phase;
            && (HoldsSlot(q) <==> if m.TakeSlot? then true else if m.FreeSlot? then false else HoldsSlot(p))
            && (InGroup(q) <==> if m.Count? then true else if m.Done? then false else InGroup(p))
            && (Listed(q) <==> if m.Register? then true else if m.Unlist? then false else Listed(p))
            && (m.TakeSlot? ==> !HoldsSlot(p)) && (m.FreeSlot? ==> HoldsSlot(p))
            && (m.Count? ==> !InGroup(p)) && (m.Done? ==> InGroup(p))
  {
  }

  /** What a move does to the shared variables. */
  lemma StepShifts(s: State, c: nat, m: Move)
    requires Enabled(s, Step(c, m))
    ensures var t := Next(s, Step(c, m));
            && t.conns == WithConn(s, c, After(s.conns[c], m)).conns
            && t.slots == s.slots + (if m.TakeSlot? then 1 else 0) - (if m.FreeSlot? then 1 else 0)
            && t.group == s.group + (if m.Count? then 1 else 0) - (if m.Done? then 1 else 0)
            && t.active == if m.Register? then s.active + {c} else if m.Unlist? then s.active - {c} else s.active
  {
  }

  lemma StepKeepsSlots(s: State, c: nat, m: Move)
    requires Enabled(s, Step(c, m)) && CountsMatch(s)
    ensures var t := Next(s, Step(c, m)); t.slots == |Those(t, SlotTest())| && t.slots <= MAX_CONNECTIONS
  {
    StepShifts(s, c, m);
    MoveShifts(s.conns[c], m);
    StoreSlots(s, c, After(s.conns[c], m));
    CountsDependOnConns(WithConn(s, c, After(s.conns[c], m)), Next(s, Step(c, m)));
  }

  lemma StepKeepsGroup(s: State, c: nat, m: Move)
    requires Enabled(s, Step(c, m)) && CountsMatch(s)
    ensures var t := Next(s, Step(c, m)); t.group == |Those(t, GroupTest())|
  {
    StepShifts(s, c, m);
    MoveShifts(s.conns[c], m);
    StoreGroup(s, c, After(s.conns[c], m));
    CountsDependOnConns(WithConn(s, c, After(s.conns[c], m)), Next(s, Step(c, m)));
  }

  lemma StepKeepsActive(s: State, c: nat, m: Move)
    requires Enabled(s, Step(c, m)) && CountsMatch(s)
    ensures var t := Next(s, Step(c, m)); t.active == Those(t, ListTest())
  {
    StepShifts(s, c, m);
    MoveShifts(s.conns[c], m);
    StoreActive(s, c, After(s.conns[c], m));
    CountsDependOnConns(WithConn(s, c, After(s.conns[c], m)), Next(s, Step(c, m)));
  }

  lemma NextKeepsCounts(s: State, e: Event)
    requires Enabled(s, e) && CountsMatch(s)
    ensures CountsMatch(Next(s, e))
  {
    var t := Next(s, e);
    match e
    case Accept(c) =>
      StoreSlots(s, c, Conn(Arrived, true, false, 0, 0, 0));
      StoreGroup(s, c, Conn(Arrived, true, false, 0, 0, 0));
      StoreActive(s, c, Conn(Arrived, true, false, 0, 0, 0));
      CountsDependOnConns(WithConn(s, c, Conn(Arrived, true, false, 0, 0, 0)), t);
    case SweepOne(c) =>
      StoreSlots(s, c, s.conns[c].(open := false, cancelled := true));
      StoreGroup(s, c, s.conns[c].(open := false, cancelled := true));
      StoreActive(s, c, s.conns[c].(open := false, cancelled := true));
      CountsDependOnConns(WithConn(s, c, s.conns[c].(open := false, cancelled := true)), t);
    case Step(c, m) =>
      StepKeepsSlots(s, c, m);
      StepKeepsGroup(s, c, m);
      StepKeepsActive(s, c, m);
    case _ =>
      CountsDependOnConns(s, t);
  }

  /** Only the connection in the accept loop's hands is in an entering phase. */
  predicate OneEntering(s: State) {
    forall c | c in s.conns :: Entering(s.conns[c].phase) <==> s.loop == Admitting(c)
  }

  /** What a connection's phase says about its socket, its context, its calls and its replies. */
  predicate Consistent(conn: Conn) {
    var p := conn.phase;
    && (p.Closed? || p.Unlisted? || p.Unslotted? || p.Cancelled? || p.Finished? || p.BusyClosed? ==> !conn.open)
    && (p.Cancelled? || p.Finished? ==> conn.cancelled)
    && conn.calls <= 1 && (Entering(p) || p.Decoding? || OnBusyPath(p) ==> conn.calls == 0)
    && conn.replies <= conn.attempts
    && conn.attempts == (if Entering(p) || p.Decoding? || p.Handling? || p.Replying?
                            || p.BusyReading? || p.BusyReplying?
                         then 0 else 1)
  }

  predicate AllConsistent(s: State) {
    forall c | c in s.conns :: Consistent(s.conns[c])
  }

  predicate Swept(s: State, c: nat) {
    c in s.conns && !s.conns[c].open && s.conns[c].cancelled
  }

  /** The closing sweep, under the mutex, reaches every active connection, and nothing becomes active after. */
  predicate SweepProgress(s: State) {
    && (s.loop.Sweeping? ==> s.loop.rest <= s.active && forall c | c in s.active && c !in s.loop.rest :: Swept(s, c))
    && (s.loop.Waiting? || s.loop.Returned? ==> forall c | c in s.active :: Swept(s, c))
    && (s.loop.Sweeping? || s.loop.Waiting? || s.loop.Returned? ==> !s.listening)
    && (s.loop == Returned(false) ==> s.group == 0)
  }

  predicate Invariant(s: State) {
    CountsMatch(s) && OneEntering(s) && AllConsistent(s) && SweepProgress(s)
  }

  lemma MoveEnters(conn: Conn, m: Move)
    requires conn.phase == From(m)
    ensures Entering(conn.phase) <==> LoopMove(m)
    ensures Entering(After(conn, m).phase) <==> LoopMove(m) && !m.TurnAway? && !m.Spawn?
  {
  }

  lemma NextKeepsEntering(s: State, e: Event)
    requires Enabled(s, e) && OneEntering(s)
    ensures OneEntering(Next(s, e))
  {
    if e.Step? {
      MoveEnters(s.conns[e.c], e.move);
    }
  }

  lemma MoveKeepsConsistent(conn: Conn, m: Move)
    requires conn.phase == From(m) && Consistent(conn)
    ensures Consistent(After(conn, m))
  {
  }

  lemma MoveKeepsPath(conn: Conn, m: Move)
    requires conn.phase == From(m)
    ensures Spawned(conn.phase) ==> Spawned(After(conn, m).phase)
    ensures OnBusyPath(conn.phase) ==> OnBusyPath(After(conn, m).phase)
  {
  }

  lemma NextKeepsConsistent(s: State, e: Event)
    requires Enabled(s, e) && AllConsistent(s)
    ensures AllConsistent(Next(s, e))
  {
    if e.Step? {
      MoveKeepsConsistent(s.conns[e.c], e.move);
    }
  }

  lemma NextKeepsSweep(s: State, e: Event)
    requires Enabled(s, e) && SweepProgress(s) && CountsMatch(s)
    ensures SweepProgress(Next(s, e))
  {
    if e.Step? {
      StepKeepsSweep(s, e);
    }
  }

  /** A step of a connection leaves swept connections swept, and cannot add to the table once it is closing. */
  lemma StepKeepsSweep(s: State, e: Event)
    requires Enabled(s, e) && SweepProgress(s) && e.Step?
    ensures SweepProgress(Next(s, e))
  {
    var t := Next(s, e);
    var conn, after := s.conns[e.c], After(s.conns[e.c], e.move);
    assert !conn.open && conn.cancelled ==> !after.open && after.cancelled;
    if !s.loop.Accepting? && !s.loop.Admitting? {
      assert t.loop == s.loop && t.active <= s.active && t.listening == s.listening;
      assert forall c | c in s.conns && Swept(s, c) :: Swept(t, c);
    }
  }

  lemma {:induction false} RunKeepsInvariant(es: seq<Event>)
    ensures Invariant(Run(START, es))
  {
    if es == [] {
      assert Those(START, SlotTest()) == {} && Those(START, GroupTest()) == {};
    } else {
      var s, last := Run(START, es[..|es| - 1]), es[|es| - 1];
      RunKeepsInvariant(es[..|es| - 1]);
      if Enabled(s, last) {
        NextKeepsCounts(s, last);
        NextKeepsEntering(s, last);
        NextKeepsConsistent(s, last);
        NextKeepsSweep(s, last);
      }
    }
  }

  // ---- What every interleaving guarantees ----

  lemma SubsetSize(a: set<nat>, b: set<nat>)
    requires a <= b
    ensures |a| <= |b|
  {
    assert b == a + (b - a);
  }

  /** Running handlers are active, active connections hold slots, and there are at most 32 slots. Once
      spawned, a connection in the table also holds its slot and its place in the wait group. */
  lemma {:induction false} SlotAccounting(es: seq<Event>)
    ensures var s := Run(START, es);
            && Those(s, HandlerTest()) <= s.active <= Those(s, SlotTest())
            && |Those(s, HandlerTest())| <= |s.active| <= |Those(s, SlotTest())| == s.slots <= MAX_CONNECTIONS
            && forall c | c in s.active && Spawned(s.conns[c].phase) ::
                 c in Those(s, SlotTest()) && c in Those(s, GroupTest())
  {
    var s := Run(START, es);
    RunKeepsInvariant(es);
    SubsetSize(Those(s, HandlerTest()), s.active);
    SubsetSize(s.active, Those(s, SlotTest()));
  }

  /** At most one handler call and one reply per connection, and none but the reply on the busy path. */
  lemma OneCallOneReply(es: seq<Event>, c: nat)
    requires c in Run(START, es).conns
    ensures var conn := Run(START, es).conns[c];
            && conn.calls <= 1 && conn.replies <= conn.attempts <= 1 && (OnBusyPath(conn.phase) ==> conn.calls == 0)
            && conn.calls == Times(es, c, DecodeOk)
  {
    RunKeepsInvariant(es);
    RunsRecount(es, c);
  }

  lemma StepKeepsPath(s: State, e: Event, c: nat)
    requires Enabled(s, e) && c in s.conns
    ensures c in Next(s, e).conns
    ensures OnBusyPath(s.conns[c].phase) ==> OnBusyPath(Next(s, e).conns[c].phase)
    ensures Spawned(s.conns[c].phase) ==> Spawned(Next(s, e).conns[c].phase)
  {
    if e.Step? {
      MoveKeepsPath(s.conns[e.c], e.move);
    }
  }

  /** The path once taken is kept: no connection is both served and turned away. */
  lemma {:induction false} PathIsFinal(s: State, es: seq<Event>, c: nat)
    requires c in s.conns
    ensures c in Run(s, es).conns
    ensures OnBusyPath(s.conns[c].phase) ==> OnBusyPath(Run(s, es).conns[c].phase)
    ensures Spawned(s.conns[c].phase) ==> Spawned(Run(s, es).conns[c].phase)
  {
    if es != [] {
      var r, last := Run(s, es[..|es| - 1]), es[|es| - 1];
      PathIsFinal(s, es[..|es| - 1], c);
      if Enabled(r, last) {
        StepKeepsPath(r, last, c);
      }
    }
  }

  /** When ServeContext has returned, by completion or by timeout, every worker's connection is closed and
      every handler still running has had its context cancelled; by completion, no worker is left at all. */
  lemma {:induction false} ShutdownIsSafe(es: seq<Event>)
    requires Run(START, es).loop.Returned?
    ensures var s := Run(START, es);
            && (forall c | c in s.conns && !OnBusyPath(s.conns[c].phase) :: !s.conns[c].open)
            && (forall c | c in s.conns && s.conns[c].phase.Handling? :: s.conns[c].cancelled)
            && (!s.loop.timedOut ==>
                  forall c | c in s.conns :: s.conns[c].phase.Finished? || OnBusyPath(s.conns[c].phase))
  {
    var s := Run(START, es);
    RunKeepsInvariant(es);
    forall c | c in s.conns && !OnBusyPath(s.conns[c].phase)
      ensures !s.conns[c].open
      ensures s.conns[c].phase.Handling? ==> s.conns[c].cancelled
      ensures !s.loop.timedOut ==> s.conns[c].phase.Finished?
    {
      assert !Entering(s.conns[c].phase);
      if Listed(s.conns[c].phase) {
        assert c in Those(s, ListTest());
        assert Swept(s, c);
      }
      if !s.loop.timedOut {
        assert c !in Those(s, GroupTest());
      }
    }
  }

  predicate Closing(s: State) {
    s.loop.Sweeping? || s.loop.Waiting? || s.loop.Returned?
  }

  lemma ClosingStep(s: State, e: Event)
    requires Closing(s) && Enabled(s, e)
    ensures Closing(Next(s, e)) && Next(s, e).active <= s.active
  {
  }

  /** From the closing sweep on, no connection becomes active. */
  lemma {:induction false} NothingBecomesActive(s: State, es: seq<Event>)
    requires Closing(s)
    ensures Run(s, es).active <= s.active && Closing(Run(s, es))
  {
    if es != [] {
      var r, last := Run(s, es[..|es| - 1]), es[|es| - 1];
      NothingBecomesActive(s, es[..|es| - 1]);
      if Enabled(r, last) {
        ClosingStep(r, last);
      }
    }
  }

  lemma StepKeepsListening(s: State, e: Event)
    requires Enabled(s, e)
    ensures Next(s, e).listening <==> s.listening && !e.CloseListener?
    ensures s.listening && !Closing(s) ==> !Closing(Next(s, e))
  {
  }

  /** Only closing the listener ends the loop, never another Accept error: without that event in the run the
      loop goes on. */
  lemma {:induction false} OnlyClosingEndsTheLoop(es: seq<Event>)
    ensures Run(START, es).listening <==> CloseListener !in es
    ensures CloseListener !in es ==> !Closing(Run(START, es))
  {
    if es != [] {
      var init, last := es[..|es| - 1], es[|es| - 1];
      OnlyClosingEndsTheLoop(init);
      assert es == init + [last];
      if Enabled(Run(START, init), last) {
        StepKeepsListening(Run(START, init), last);
      }
    }
  }

  /** Nothing is cut short: before the shutdown a connection is open until it has been closed after its response,
      and its context is live until its worker cancels it. */
  predicate Undisturbed(s: State, conn: Conn) {
    var p := conn.phase;
    && (conn.open || p.Closed? || p.Unlisted? || p.Unslotted? || p.Cancelled? || p.Finished? || p.BusyClosed?
        || Closing(s))
    && (!conn.cancelled || p.Cancelled? || p.Finished? || Closing(s))
  }

  lemma NextKeepsUndisturbed(s: State, e: Event)
    requires Enabled(s, e) && forall c | c in s.conns :: Undisturbed(s, s.conns[c])
    ensures forall c | c in Next(s, e).conns :: Undisturbed(Next(s, e), Next(s, e).conns[c])
  {
    if e.Step? {
      var conn, after := s.conns[e.c], After(s.conns[e.c], e.move);
      assert Undisturbed(s, conn);
      assert Undisturbed(s, after);
    }
  }

  lemma {:induction false} RunKeepsUndisturbed(es: seq<Event>)
    ensures forall c | c in Run(START, es).conns :: Undisturbed(Run(START, es), Run(START, es).conns[c])
  {
    if es != [] {
      RunKeepsUndisturbed(es[..|es| - 1]);
      if Enabled(Run(START, es[..|es| - 1]), es[|es| - 1]) {
        NextKeepsUndisturbed(Run(START, es[..|es| - 1]), es[|es| - 1]);
      }
    }
  }

  /** So until somebody closes the listener, every handler runs under a live context, and every response, also the
      busy one, is attempted on an open connection. */
  lemma {:induction false} NothingIsCutShort(es: seq<Event>, c: nat)
    requires CloseListener !in es && c in Run(START, es).conns
    ensures var conn := Run(START, es).conns[c];
            && (conn.phase.Handling? ==> !conn.cancelled)
            && (conn.phase.Handling? || conn.phase.Replying? || conn.phase.BusyReplying? ==> conn.open)
  {
    RunKeepsUndisturbed(es);
    OnlyClosingEndsTheLoop(es);
    assert Undisturbed(Run(START, es), Run(START, es).conns[c]);
  }

  lemma ClosedStep(s: State, e: Event)
    requires Enabled(s, e) && !s.listening
    ensures Next(s, e).conns.Keys == s.conns.Keys && !Next(s, e).listening
  {
  }

  /** And once it is closed no connection arrives any more. */
  lemma {:induction false} NothingArrivesAfterClosing(s: State, es: seq<Event>)
    requires !s.listening
    ensures Run(s, es).conns.Keys == s.conns.Keys && !Run(s, es).listening
  {
    if es != [] {
      var r, last := Run(s, es[..|es| - 1]), es[|es| - 1];
      NothingArrivesAfterClosing(s, es[..|es| - 1]);
      if Enabled(r, last) {
        ClosedStep(r, last);
      }
    }
  }

  /** How often the run really makes this move with the connection. */
  function Times(es: seq<Event>, c: nat, m: Move): nat {
    if es == [] then 0
    else
      var init, last := es[..|es| - 1], es[|es| - 1];
      Times(es[..|es| - 1], c, m) + (if last == Step(c, m) && Enabled(Run(START, init), last) then 1 else 0)
  }

  lemma {:induction false} StepElsewhere(s: State, e: Event, c: nat)
    requires Enabled(s, e) && c in s.conns && !(e.Step? && e.c == c)
    ensures c in Next(s, e).conns && Next(s, e).conns[c].phase == s.conns[c].phase
  {
  }

  /** Whether the connection has been decided on, and how. */
  predicate DecidedOnce(s: State, c: nat, taken: nat, turnedAway: nat) {
    if c !in s.conns || s.conns[c].phase.Arrived? then taken == 0 && turnedAway == 0
    else if OnBusyPath(s.conns[c].phase) then taken == 0 && turnedAway == 1
    else taken == 1 && turnedAway == 0
  }

  lemma {:induction false} MoveDecides(conn: Conn, m: Move)
    requires conn.phase == From(m)
    ensures var p, q := conn.phase, After(conn, m).phase;
            && !q.Arrived? && (p.Arrived? <==> m.TakeSlot? || m.TurnAway?)
            && (OnBusyPath(q) <==> if p.Arrived? then m.TurnAway? else OnBusyPath(p))
  {
  }

  lemma {:induction false} StepDecides(s: State, e: Event, c: nat, taken: nat, turnedAway: nat)
    requires Enabled(s, e) && DecidedOnce(s, c, taken, turnedAway)
    ensures DecidedOnce(Next(s, e), c,
              taken + (if e == Step(c, TakeSlot) then 1 else 0),
              turnedAway + (if e == Step(c, TurnAway) then 1 else 0))
  {
    if e.Step? && e.c == c {
      MoveDecides(s.conns[c], e.move);
      assert Next(s, e).conns[c] == After(s.conns[c], e.move);
    } else if c in s.conns {
      StepElsewhere(s, e, c);
    }
  }

  /** Every connection is decided on exactly once: past its arrival it has either taken a slot, once, and is on
      the worker's path, or been turned away, once, and is on the busy path. */
  lemma {:induction false} EveryConnectionTakesOnePath(es: seq<Event>, c: nat)
    ensures DecidedOnce(Run(START, es), c, Times(es, c, TakeSlot), Times(es, c, TurnAway))
  {
    if es != [] {
      var init, last := es[..|es| - 1], es[|es| - 1];
      EveryConnectionTakesOnePath(init, c);
      if Enabled(Run(START, init), last) {
        StepDecides(Run(START, init), last, c, Times(init, c, TakeSlot), Times(init, c, TurnAway));
      }
    }
  }

  /** And it is turned away only while 32 other connections hold a slot. */
  lemma {:induction false} TurnedAwayOnlyWhenFull(es: seq<Event>, c: nat)
    requires Enabled(Run(START, es), Step(c, TurnAway))
    ensures |Those(Run(START, es), SlotTest())| == MAX_CONNECTIONS && c !in Those(Run(START, es), SlotTest())
  {
    RunKeepsInvariant(es);
  }

  /** What the run has done with the request of a connection, by its phase: `decoded`, `refused` and `returned`
      count the decodings that succeed, those that fail, and the returns of the handler; `discarded` counts the
      requests read and dropped on the busy path. */
  predicate Served(conn: Conn, decoded: nat, refused: nat, returned: nat, discarded: nat) {
    && conn.calls == decoded
    && discarded == (if OnBusyPath(conn.phase) && !conn.phase.BusyReading? then 1 else 0)
    && if Entering(conn.phase) || OnBusyPath(conn.phase) || conn.phase.Decoding?
       then decoded == 0 && refused == 0 && returned == 0
       else if conn.phase.Handling? then decoded == 1 && refused == 0 && returned == 0
       else decoded + refused == 1 && returned == decoded
  }

  lemma {:induction false} MoveServes(
      conn: Conn, m: Move, decoded: nat, refused: nat, returned: nat, discarded: nat)
    requires conn.phase == From(m) && Served(conn, decoded, refused, returned, discarded)
    ensures Served(After(conn, m), decoded + (if m.DecodeOk? then 1 else 0),
              refused + (if m.DecodeFails? then 1 else 0), returned + (if m.HandlerReturns? then 1 else 0),
              discarded + (if m.BusyDecoded? then 1 else 0))
  {
  }

  /** The responses of a connection, counted by what became of them. */
  predicate Answered(conn: Conn, written: nat, failed: nat) {
    conn.replies == written && conn.attempts == written + failed
  }

  function RepliesIn(es: seq<Event>, c: nat): nat {
    Times(es, c, Reply) + Times(es, c, BusyReply)
  }

  function FailuresIn(es: seq<Event>, c: nat): nat {
    Times(es, c, ReplyFails) + Times(es, c, BusyReplyFails)
  }

  lemma TimesStep(es: seq<Event>, e: Event, c: nat, m: Move)
    ensures Times(es + [e], c, m) == Times(es, c, m) + (if e == Step(c, m) && Enabled(Run(START, es), e) then 1 else 0)
  {
    assert (es + [e])[..|es + [e]| - 1] == es;
  }

  predicate ServedIn(es: seq<Event>, c: nat, conn: Conn) {
    Served(conn, Times(es, c, DecodeOk), Times(es, c, DecodeFails), Times(es, c, HandlerReturns),
           Times(es, c, BusyDecoded))
  }

  /** What is counted in a connection is counted in the run. */
  ghost predicate Recounted(es: seq<Event>, c: nat) {
    var s := Run(START, es);
    if c in s.conns then
      && ServedIn(es, c, s.conns[c])
      && Answered(s.conns[c], RepliesIn(es, c), FailuresIn(es, c))
    else forall m :: Times(es, c, m) == 0
  }

  lemma OwnTimes(es: seq<Event>, c: nat, m: Move, k: Move)
    requires Enabled(Run(START, es), Step(c, m))
    ensures Times(es + [Step(c, m)], c, k) == Times(es, c, k) + (if k == m then 1 else 0)
  {
    TimesStep(es, Step(c, m), c, k);
  }

  lemma {:induction false} OwnStepServes(es: seq<Event>, c: nat, m: Move, conn: Conn)
    requires Enabled(Run(START, es), Step(c, m)) && conn.phase == From(m)
    requires ServedIn(es, c, conn)
    ensures ServedIn(es + [Step(c, m)], c, After(conn, m))
  {
    OwnTimes(es, c, m, DecodeOk);
    OwnTimes(es, c, m, DecodeFails);
    OwnTimes(es, c, m, HandlerReturns);
    OwnTimes(es, c, m, BusyDecoded);
    MoveServes(conn, m, Times(es, c, DecodeOk), Times(es, c, DecodeFails), Times(es, c, HandlerReturns),
               Times(es, c, BusyDecoded));
  }

  lemma {:induction false} OwnStepAnswers(es: seq<Event>, c: nat, m: Move, conn: Conn)
    requires Enabled(Run(START, es), Step(c, m)) && Answered(conn, RepliesIn(es, c), FailuresIn(es, c))
    ensures var fs := es + [Step(c, m)]; Answered(After(conn, m), RepliesIn(fs, c), FailuresIn(fs, c))
  {
    OwnTimes(es, c, m, Reply);
    OwnTimes(es, c, m, BusyReply);
    OwnTimes(es, c, m, ReplyFails);
    OwnTimes(es, c, m, BusyReplyFails);
    MoveAnswers(conn, m);
  }

  lemma NextOfStep(s: State, c: nat, m: Move)
    requires Enabled(s, Step(c, m))
    ensures c in Next(s, Step(c, m)).conns && Next(s, Step(c, m)).conns[c] == After(s.conns[c], m)
  {
  }

  lemma {:induction false} OwnStepRecounts(es: seq<Event>, c: nat, m: Move)
    requires Enabled(Run(START, es), Step(c, m)) && Recounted(es, c)
    ensures Recounted(es + [Step(c, m)], c)
  {
    var s := Run(START, es);
    RunOneMore(es, Step(c, m));
    NextOfStep(s, c, m);
    OwnStepServes(es, c, m, s.conns[c]);
    OwnStepAnswers(es, c, m, s.conns[c]);
  }

  lemma MoveAnswers(conn: Conn, m: Move)
    ensures After(conn, m).replies == conn.replies + (if m.Reply? || m.BusyReply? then 1 else 0)
    ensures After(conn, m).attempts == conn.attempts
              + (if m.Reply? || m.BusyReply? || m.ReplyFails? || m.BusyReplyFails? then 1 else 0)
  {
  }

  lemma RunOneMore(es: seq<Event>, e: Event)
    ensures var s := Run(START, es); Run(START, es + [e]) == if Enabled(s, e) then Next(s, e) else s
  {
    assert (es + [e])[..|es + [e]| - 1] == es;
  }

  /** A step that is not this connection's own leaves its counts alone. */
  lemma StepElsewhereCounts(s: State, e: Event, c: nat)
    requires Enabled(s, e) && !(e.Step? && e.c == c)
    ensures c in s.conns ==> c in Next(s, e).conns
    ensures c in s.conns ==> Next(s, e).conns[c].phase == s.conns[c].phase
    ensures c in s.conns ==>
              var conn, after := s.conns[c], Next(s, e).conns[c];
              after.calls == conn.calls && after.attempts == conn.attempts && after.replies == conn.replies
    ensures c !in s.conns && c in Next(s, e).conns ==> Next(s, e).conns[c] == Conn(Arrived, true, false, 0, 0, 0)
  {
  }

  lemma {:induction false} OtherStepRecounts(es: seq<Event>, c: nat, e: Event)
    requires Recounted(es, c) && !(e.Step? && e.c == c && Enabled(Run(START, es), e))
    ensures Recounted(es + [e], c)
  {
    var s := Run(START, es);
    RunOneMore(es, e);
    forall k ensures Times(es + [e], c, k) == Times(es, c, k) {
      TimesStep(es, e, c, k);
    }
    if Enabled(s, e) {
      StepElsewhereCounts(s, e, c);
    }
  }

  lemma {:induction false} RunsRecount(es: seq<Event>, c: nat)
    ensures Recounted(es, c)
  {
    if es != [] {
      var init, last := es[..|es| - 1], es[|es| - 1];
      assert es == init + [last];
      RunsRecount(init, c);
      if last.Step? && last.c == c && Enabled(Run(START, init), last) {
        OwnStepRecounts(init, c, last.move);
      } else {
        OtherStepRecounts(init, c, last);
      }
    }
  }

  /** The handler runs once for every request that decodes, and only then. Once a response has been attempted on
      the worker's path, the request either decoded, and the handler has been called once and has returned, or
      did not, and no handler was called; on the busy path the request has been read. Every attempt is counted,
      with what became of it. */
  lemma {:induction false} HandlerRunsForDecodedRequests(es: seq<Event>, c: nat)
    requires c in Run(START, es).conns
    ensures var conn := Run(START, es).conns[c];
            var decoded, refused := Times(es, c, DecodeOk), Times(es, c, DecodeFails);
            && conn.calls == decoded <= 1
            && conn.replies == RepliesIn(es, c) && conn.attempts == RepliesIn(es, c) + FailuresIn(es, c)
            && (conn.attempts > 0 && !OnBusyPath(conn.phase) ==>
                  decoded + refused == 1 && Times(es, c, HandlerReturns) == decoded)
            && (OnBusyPath(conn.phase) ==> decoded == 0 && refused == 0)
            && (conn.attempts > 0 && OnBusyPath(conn.phase) ==> Times(es, c, BusyDecoded) == 1)
  {
    RunsRecount(es, c);
    RunKeepsInvariant(es);
  }

  // ---- The loop and the shutdown need no worker ----

  /** The steps of the goroutine of ServeContext itself, with the passing of its grace time. */
  predicate OnlyLoopSteps(es: seq<Event>) {
    forall e | e in es ::
      (e.Step? && LoopMove(e.move)) || e.AcceptClosed? || e.SweepOne? || e.SweepEnd? || e.WaitTimeout?
  }

  /** What the loop has in its hands exists. */
  predicate LoopHolds(s: State) {
    && OneEntering(s)
    && (s.loop.Admitting? ==> s.loop.conn in s.conns)
    && s.active <= s.conns.Keys
    && (s.loop.Sweeping? ==> s.loop.rest <= s.conns.Keys)
  }

  lemma NextLoopHolds(s: State, e: Event)
    requires Enabled(s, e) && LoopHolds(s)
    ensures LoopHolds(Next(s, e))
  {
    NextKeepsEntering(s, e);
  }

  lemma {:induction false} RunLoopHolds(es: seq<Event>)
    ensures LoopHolds(Run(START, es))
  {
    if es != [] {
      RunLoopHolds(es[..|es| - 1]);
      if Enabled(Run(START, es[..|es| - 1]), es[|es| - 1]) {
        NextLoopHolds(Run(START, es[..|es| - 1]), es[|es| - 1]);
      }
    }
  }

  lemma {:induction false} RunFirst(s: State, e: Event, rest: seq<Event>)
    requires Enabled(s, e)
    ensures Run(s, [e] + rest) == Run(Next(s, e), rest)
  {
    if rest == [] {
      assert [e] + rest == [e] && [e][..0] == [];
    } else {
      RunFirst(s, e, rest[..|rest| - 1]);
      Sequences.ConcatLast([e], rest);
    }
  }

  /** The loop's own next step with the connection in its hands. */
  function Admission(s: State, conn: Conn): Move {
    match conn.phase
    case Slotted => Register
    case Registered => Count
    case Counted => Spawn
    case _ => if s.slots < MAX_CONNECTIONS then TakeSlot else TurnAway
  }

  lemma {:induction false} AdmissionGoesOn(s: State)
    requires LoopHolds(s) && s.loop.Admitting?
    ensures var c := s.loop.conn;
            var m := Admission(s, s.conns[c]);
            && LoopMove(m) && Enabled(s, Step(c, m))
            && Next(s, Step(c, m)).loop == (if m.TurnAway? || m.Spawn? then Accepting else s.loop)
            && Next(s, Step(c, m)).conns == s.conns[c := After(s.conns[c], m)]
            && Next(s, Step(c, m)).listening == s.listening
            && Remaining(After(s.conns[c], m).phase) < Remaining(s.conns[c].phase)
  {
    assert Entering(s.conns[s.loop.conn].phase);
  }

  lemma {:induction false} AdmissionEnds(s: State) returns (rest: seq<Event>)
    requires LoopHolds(s) && s.loop.Admitting?
    ensures OnlyLoopSteps(rest) && LoopHolds(Run(s, rest))
    ensures Run(s, rest).loop.Accepting? && Run(s, rest).listening == s.listening
    ensures Run(s, rest).conns.Keys == s.conns.Keys
    decreases Remaining(s.conns[s.loop.conn].phase)
  {
    var e := Step(s.loop.conn, Admission(s, s.conns[s.loop.conn]));
    AdmissionGoesOn(s);
    NextLoopHolds(s, e);
    var more: seq<Event> := [];
    if Next(s, e).loop.Admitting? {
      more := AdmissionEnds(Next(s, e));
    }
    rest := [e] + more;
    RunFirst(s, e, more);
  }

  /** Accepting never waits for a worker: as long as the listener is open, the loop's own steps alone bring it
      back to Accept, and there any new connection can arrive, with 32 handlers running or none. */
  lemma {:induction false} AcceptingNeverWaits(es: seq<Event>, newcomer: nat) returns (rest: seq<Event>)
    requires CloseListener !in es && newcomer !in Run(START, es).conns
    ensures OnlyLoopSteps(rest)
    ensures var s := Run(Run(START, es), rest);
            Enabled(s, Accept(newcomer)) && Next(s, Accept(newcomer)).loop == Admitting(newcomer)
  {
    OnlyClosingEndsTheLoop(es);
    RunLoopHolds(es);
    rest := [];
    if Run(START, es).loop.Admitting? {
      rest := AdmissionEnds(Run(START, es));
    }
    assert newcomer !in Run(Run(START, es), rest).conns.Keys;
  }

  lemma {:induction false} SweepReturns(s: State) returns (rest: seq<Event>)
    requires LoopHolds(s) && (s.loop.Sweeping? || s.loop.Waiting?)
    ensures OnlyLoopSteps(rest) && Run(s, rest).loop.Returned?
    decreases s.loop.Sweeping?, if s.loop.Sweeping? then s.loop.rest else {}
  {
    var e := WaitTimeout;
    var more: seq<Event> := [];
    if s.loop.Sweeping? {
      e := SweepEnd;
      if c :| c in s.loop.rest {
        e := SweepOne(c);
      }
      NextLoopHolds(s, e);
      more := SweepReturns(Next(s, e));
    }
    rest := [e] + more;
    RunFirst(s, e, more);
  }

  /** Nor does shutting down: once the listener is closed, the loop's own steps and the passing of its grace
      time alone bring ServeContext to its return, whatever the workers and handlers do or fail to do. */
  lemma {:induction false} ShutdownCompletes(es: seq<Event>) returns (rest: seq<Event>)
    requires CloseListener in es
    ensures OnlyLoopSteps(rest) && Run(Run(START, es), rest).loop.Returned?
  {
    OnlyClosingEndsTheLoop(es);
    RunLoopHolds(es);
    rest := ClosedLoopReturns(Run(START, es));
  }

  lemma {:induction false} ClosedLoopReturns(s: State) returns (rest: seq<Event>)
    requires LoopHolds(s) && !s.listening
    ensures OnlyLoopSteps(rest) && Run(s, rest).loop.Returned?
  {
    if s.loop.Returned? {
      rest := [];
    } else if s.loop.Accepting? {
      rest := ClosedAcceptReturns(s);
    } else if s.loop.Admitting? {
      var first := AdmissionEnds(s);
      var more := ClosedAcceptReturns(Run(s, first));
      rest := first + more;
      RunsConcat(s, first, more);
    } else {
      rest := SweepReturns(s);
    }
  }

  lemma {:induction false} ClosedAcceptReturns(s: State) returns (rest: seq<Event>)
    requires LoopHolds(s) && !s.listening && s.loop.Accepting?
    ensures OnlyLoopSteps(rest) && Run(s, rest).loop.Returned?
  {
    NextLoopHolds(s, AcceptClosed);
    var more := SweepReturns(Next(s, AcceptClosed));
    rest := [AcceptClosed] + more;
    RunFirst(s, AcceptClosed, more);
  }

  lemma {:induction false} RunsConcat(s: State, xs: seq<Event>, ys: seq<Event>)
    ensures Run(s, xs + ys) == Run(Run(s, xs), ys)
  {
    if ys == [] {
      assert xs + ys == xs;
    } else {
      RunsConcat(s, xs, ys[..|ys| - 1]);
      Sequences.ConcatLast(xs, ys);
    }
  }

  /** How far a connection is from its end. */
  function Remaining(phase: Phase): nat {
    match phase
    case Arrived => 12
    case Slotted => 11
    case Registered => 10
    case Counted => 9
    case Decoding => 8
    case Handling => 7
    case Replying => 6
    case Replied => 5
    case Closed => 4
    case Unlisted => 3
    case Unslotted => 2
    case Cancelled => 1
    case Finished => 0
    case BusyReading => 3
    case BusyReplying => 2
    case BusyReplied => 1
    case BusyClosed => 0
  }

  /** How many moves the run makes with the connection. */
  function Moves(es: seq<Event>, c: nat): nat {
    if es == [] then 0
    else
      var init, last := es[..|es| - 1], es[|es| - 1];
      Moves(init, c) + (if last.Step? && last.c == c && Enabled(Run(START, init), last) then 1 else 0)
  }

  lemma {:induction false} MoveShortens(conn: Conn, m: Move)
    requires conn.phase == From(m)
    ensures Remaining(After(conn, m).phase) < Remaining(conn.phase)
  {
  }

  /** In no run does a connection make more than twelve moves: those made and those left never exceed that. */
  lemma {:induction false} MovesEnd(es: seq<Event>, c: nat)
    ensures var s := Run(START, es);
            if c in s.conns then Moves(es, c) + Remaining(s.conns[c].phase) <= 12 else Moves(es, c) == 0
  {
    if es != [] {
      var init, last := es[..|es| - 1], es[|es| - 1];
      var s := Run(START, init);
      MovesEnd(init, c);
      if Enabled(s, last) {
        if last.Step? && last.c == c {
          MoveShortens(s.conns[c], last.move);
        } else if c in s.conns {
          StepElsewhere(s, last, c);
        }
      }
    }
  }

  lemma CountedMeansPositive(s: State, c: nat)
    requires CountsMatch(s) && c in s.conns
    ensures HoldsSlot(s.conns[c].phase) ==> s.slots > 0
    ensures InGroup(s.conns[c].phase) ==> s.group > 0
  {
    assert HoldsSlot(s.conns[c].phase) ==> c in Those(s, SlotTest());
    assert InGroup(s.conns[c].phase) ==> c in Those(s, GroupTest());
  }

  /** A move that takes a connection on. */
  function Onward(s: State, conn: Conn): Move {
    match conn.phase
    case Arrived => if s.slots < MAX_CONNECTIONS then TakeSlot else TurnAway
    case Slotted => Register
    case Registered => Count
    case Counted => Spawn
    case Decoding => DecodeOk
    case Handling => HandlerReturns
    case Replying => if conn.open then Reply else ReplyFails
    case Replied => CloseConn
    case Closed => Unlist
    case Unlisted => FreeSlot
    case Unslotted => Cancel
    case Cancelled => Done
    case Finished => Done
    case BusyReading => BusyDecoded
    case BusyReplying => if conn.open then BusyReply else BusyReplyFails
    case BusyReplied => BusyClose
    case BusyClosed => BusyClose
  }

  lemma OnwardStartsHere(s: State, conn: Conn)
    requires Remaining(conn.phase) > 0
    ensures var m := Onward(s, conn);
            && From(m) == conn.phase && (LoopMove(m) <==> Entering(conn.phase))
            && (m.TakeSlot? ==> s.slots < MAX_CONNECTIONS) && (m.TurnAway? ==> s.slots >= MAX_CONNECTIONS)
            && (m.Reply? || m.BusyReply? ==> conn.open)
            && (m.FreeSlot? ==> HoldsSlot(conn.phase)) && (m.Done? ==> InGroup(conn.phase))
  {
  }

  lemma EndsAreAnswered(conn: Conn)
    requires Consistent(conn) && Remaining(conn.phase) == 0
    ensures conn.attempts == 1 && !conn.open
  {
  }

  /** Nothing gets stuck: short of its end, and unless the sweep holds the mutex, every connection can move, so
      no release of a slot or of the wait group ever lacks what it releases. The one move that is not the
      server's own is a handler's return: while a handler runs, its connection waits for it. At its end a
      connection is closed and one response has been attempted. */
  lemma ConnectionsReachTheirEnd(es: seq<Event>, c: nat)
    requires c in Run(START, es).conns
    ensures var s := Run(START, es);
            var conn := s.conns[c];
            && (Remaining(conn.phase) > 0 && !s.loop.Sweeping? ==> Enabled(s, Step(c, Onward(s, conn))))
            && (Remaining(conn.phase) == 0 ==> conn.attempts == 1 && !conn.open)
  {
    RunKeepsInvariant(es);
    var s := Run(START, es);
    CountedMeansPositive(s, c);
    if Remaining(s.conns[c].phase) > 0 {
      OnwardStartsHere(s, s.conns[c]);
    } else {
      EndsAreAnswered(s.conns[c]);
    }
  }
}
