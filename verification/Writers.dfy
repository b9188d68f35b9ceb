/** Processes sharing one state file: take the lock, load, change, write a temporary file, rename it over
    the state file, release. Any of them may give up waiting, fail or crash at any step. */
module Writers {
  import opened Basics
  import opened Merging
  import opened Projections
  import opened Snapshots
  import Activity
  import Convergence
  import Cursors
  import Frontiers
  import Items
  import Revisions
  import Sequences
  import Text

  // ---- What a writer does between load and save ----

  datatype Action =
    | MergeBatch(batch: Batch)
    | CursorOp(op: Cursors.Op)
    | OfferActivity(offer: Activity.Offer)
    | SetWatch(watch: seq<string>)
    | SetLastCheck(lastCheck: string)

  type Transaction = seq<Action>

  function Perform(s: Snapshot, a: Action): Snapshot {
    match a
    case MergeBatch(b) => s.(projection := Merge(s.projection, b.items, b.clock).0)
    case CursorOp(op) => s.(table := Cursors.Step(s.table, op).0)
    case OfferActivity(o) => s.(activity := Activity.Record(s.activity, o.channelID, o.candidate).0)
    case SetWatch(watch) => s.(watch := watch)
    case SetLastCheck(lastCheck) => s.(lastCheck := lastCheck)
  }

  function PerformAll(s: Snapshot, t: Transaction): Snapshot {
    if t == [] then s else Perform(PerformAll(s, t[..|t| - 1]), t[|t| - 1])
  }

  // ---- The step system ----

  /** A file's content; `Torn` is a file whose writing has not been completed. */
  datatype File = Absent | Torn | Whole(content: Snapshot)

  datatype Phase =
    | Idle
    | Polling
    | Holding
    | Loaded(state: Snapshot)
    | Changed(state: Snapshot, transaction: Transaction)
    | Created(state: Snapshot, transaction: Transaction, temp: nat)
    | Written(state: Snapshot, transaction: Transaction, temp: nat)
    | Releasing

  /** `log` lists the committed transactions; no process reads it. */
  datatype World = World(
    file: File,
    holder: Option<nat>,
    phases: map<nat, Phase>,
    temps: map<nat, File>,
    log: seq<Transaction>)

  datatype Step =
    | Open(p: nat)
    | TryLock(p: nat)
    | GiveUp(p: nat)
    | Read(p: nat)
    | Change(p: nat, transaction: Transaction)
    | CreateTemp(p: nat, temp: nat)
    | WriteTemp(p: nat)
    | Rename(p: nat)
    | Fail(p: nat)
    | Release(p: nat)
    | Crash(p: nat)

  function PhaseOf(w: World, p: nat): Phase {
    if p in w.phases then w.phases[p] else Idle
  }

  function InPhase(w: World, p: nat, phase: Phase): World {
    w.(phases := w.phases[p := phase])
  }

  predicate InLock(phase: Phase) {
    !phase.Idle? && !phase.Polling?
  }

  /** The file as LoadState returns it; a torn file would be an error, and then nothing is loaded. */
  ghost function LoadFile(f: File): Snapshot {
    if f.Whole? then Load(Some(f.content)) else Load(None)
  }

  /** One step of one process. A step that is not possible changes nothing. */
  ghost function Next(w: World, e: Step): World {
    var phase := PhaseOf(w, e.p);
    match e
    case Open(p) => if phase.Idle? then InPhase(w, p, Polling) else w
    // A lock that is taken means another round of polling.
    case TryLock(p) => if phase.Polling? && w.holder.None? then InPhase(w, p, Holding).(holder := Some(p)) else w
    case GiveUp(p) => if phase.Polling? then InPhase(w, p, Idle) else w
    case Read(p) => if phase.Holding? && !w.file.Torn? then InPhase(w, p, Loaded(LoadFile(w.file))) else w
    case Change(p, t) => if phase.Loaded? then InPhase(w, p, Changed(PerformAll(phase.state, t), t)) else w
    case CreateTemp(p, n) =>
      if phase.Changed? && n !in w.temps
      then InPhase(w, p, Created(phase.state, phase.transaction, n)).(temps := w.temps[n := Torn]) else w
    case WriteTemp(p) =>
      if phase.Created?
      then InPhase(w, p, Written(phase.state, phase.transaction, phase.temp))
             .(temps := w.temps[phase.temp := Whole(phase.state)])
      else w
    // The commit point: whatever the temporary file holds becomes the state file.
    case Rename(p) =>
      if phase.Written? && phase.temp in w.temps
      then InPhase(w, p, Releasing)
             .(file := w.temps[phase.temp], temps := w.temps - {phase.temp}, log := w.log + [phase.transaction])
      else w
    // An error return from any step: the deferred removal of the temporary file, then the caller's release.
    case Fail(p) =>
      if phase.Created? || phase.Written? then InPhase(w, p, Releasing).(temps := w.temps - {phase.temp})
      else if InLock(phase) then InPhase(w, p, Releasing) else w
    case Release(p) => if phase.Releasing? then InPhase(w, p, Idle).(holder := None) else w
    // The system drops the lock of a process that dies; its temporary file stays.
    case Crash(p) => InPhase(w, p, Idle).(holder := if w.holder == Some(p) then None else w.holder)
  }

  ghost function RunSteps(w: World, es: seq<Step>): World {
    if es == [] then w else Next(RunSteps(w, es[..|es| - 1]), es[|es| - 1])
  }

  function Start(file: File): World {
    World(file, None, map[], map[], [])
  }

  /** The state file after the transactions, one at a time, each on the file the one before left. */
  ghost function Serial(file: File, log: seq<Transaction>): File {
    if log == [] then file
    else Whole(PerformAll(LoadFile(Serial(file, log[..|log| - 1])), log[|log| - 1]))
  }

  /** What a process in the lock knows agrees with the file. */
  ghost predicate Agrees(w: World, phase: Phase) {
    match phase
    case Loaded(s) => s == LoadFile(w.file)
    case Changed(s, t) => s == PerformAll(LoadFile(w.file), t)
    case Created(s, t, n) => s == PerformAll(LoadFile(w.file), t)
    case Written(s, t, n) => s == PerformAll(LoadFile(w.file), t) && n in w.temps && w.temps[n] == Whole(s)
    case _ => true
  }

  /** The lock is held by exactly the process inside it. */
  ghost predicate Exclusive(w: World) {
    forall p: nat :: InLock(PhaseOf(w, p)) <==> w.holder == Some(p)
  }

  ghost predicate Invariant(start: File, w: World) {
    && Exclusive(w)
    && w.file == Serial(start, w.log)
    && !w.file.Torn?
    && (w.holder.Some? ==> Agrees(w, PhaseOf(w, w.holder.value)))
  }

  lemma NextKeepsExclusive(w: World, e: Step)
    requires Exclusive(w)
    ensures Exclusive(Next(w, e))
  {
  }

  lemma SerialAppend(file: File, log: seq<Transaction>, t: Transaction)
    ensures Serial(file, log + [t]) == Whole(PerformAll(LoadFile(Serial(file, log)), t))
  {
    assert (log + [t])[..|log + [t]| - 1] == log;
  }

  lemma RenameCommits(w: World, p: nat)
    requires PhaseOf(w, p).Written? && Agrees(w, PhaseOf(w, p))
    ensures var phase, v := PhaseOf(w, p), Next(w, Rename(p));
            && v.file == Whole(PerformAll(LoadFile(w.file), phase.transaction))
            && v.log == w.log + [phase.transaction]
            && v.holder == w.holder && PhaseOf(v, p) == Releasing
  {
  }

  lemma RenameKeepsInvariant(start: File, w: World, p: nat)
    requires Invariant(start, w) && PhaseOf(w, p).Written?
    ensures Invariant(start, Next(w, Rename(p)))
  {
    NextKeepsExclusive(w, Rename(p));
    assert w.holder == Some(p) by { assert InLock(PhaseOf(w, p)); }
    RenameCommits(w, p);
    SerialAppend(start, w.log, PhaseOf(w, p).transaction);
  }

  /** Only the holder changes the file, its own phase or its temporary file. */
  lemma NextKeepsInvariant(start: File, w: World, e: Step)
    requires Invariant(start, w)
    ensures Invariant(start, Next(w, e))
  {
    if e.Rename? {
      if PhaseOf(w, e.p).Written? {
        RenameKeepsInvariant(start, w, e.p);
      }
    } else {
      NextKeepsExclusive(w, e);
      assert InLock(PhaseOf(w, e.p)) <==> w.holder == Some(e.p);
      assert Next(w, e).file == w.file && Next(w, e).log == w.log;
    }
  }

  lemma {:induction false} RunKeepsInvariant(file: File, es: seq<Step>)
    requires !file.Torn?
    ensures Invariant(file, RunSteps(Start(file), es))
  {
    if es != [] {
      RunKeepsInvariant(file, es[..|es| - 1]);
      NextKeepsInvariant(file, RunSteps(Start(file), es[..|es| - 1]), es[|es| - 1]);
    }
  }

  /** Serializability: in every interleaving, with any timeouts, failures and crashes, the state file is
      never torn and always holds the committed transactions performed one after another; and no two
      processes are inside the lock. */
  lemma {:induction false} WritersAreSerializable(file: File, es: seq<Step>)
    requires !file.Torn?
    ensures var w := RunSteps(Start(file), es);
            && w.file == Serial(file, w.log) && !w.file.Torn?
            && forall p: nat, q: nat | InLock(PhaseOf(w, p)) && InLock(PhaseOf(w, q)) :: p == q
  {
    RunKeepsInvariant(file, es);
    var w := RunSteps(Start(file), es);
    forall p: nat, q: nat | InLock(PhaseOf(w, p)) && InLock(PhaseOf(w, q)) ensures p == q {
      assert w.holder == Some(p) && w.holder == Some(q);
    }
  }

  lemma RunAppends(w: World, es: seq<Step>, e: Step)
    ensures RunSteps(w, es + [e]) == Next(RunSteps(w, es), e)
  {
  }

  lemma {:induction false} RunConcat(w: World, xs: seq<Step>, ys: seq<Step>)
    ensures RunSteps(w, xs + ys) == RunSteps(RunSteps(w, xs), ys)
  {
    if ys == [] {
      assert xs + ys == xs;
    } else {
      RunConcat(w, xs, ys[..|ys| - 1]);
      Sequences.ConcatLast(xs, ys);
    }
  }

  lemma RunTwo(w: World, d: Step, e: Step)
    ensures RunSteps(w, [d, e]) == Next(Next(w, d), e)
  {
    assert [d, e][..1] == [d] && [d][..0] == [];
    assert RunSteps(w, [d]) == Next(RunSteps(w, []), d);
  }

  lemma FreeLockIsTaken(w: World, p: nat)
    requires w.holder.None? && PhaseOf(w, p).Idle?
    ensures RunSteps(w, [Open(p), TryLock(p)]) == InPhase(w, p, Holding).(holder := Some(p))
  {
    RunTwo(w, Open(p), TryLock(p));
    assert w.phases[p := Polling][p := Holding] == w.phases[p := Holding];
  }

  lemma HolderChanges(w: World, p: nat, t: Transaction)
    requires PhaseOf(w, p).Holding? && !w.file.Torn?
    ensures RunSteps(w, [Read(p), Change(p, t)]) == InPhase(w, p, Changed(PerformAll(LoadFile(w.file), t), t))
  {
    RunTwo(w, Read(p), Change(p, t));
    assert w.phases[p := Loaded(LoadFile(w.file))][p := Changed(PerformAll(LoadFile(w.file), t), t)]
           == w.phases[p := Changed(PerformAll(LoadFile(w.file), t), t)];
  }

  lemma HolderWrites(w: World, p: nat, s: Snapshot, t: Transaction, temp: nat)
    requires PhaseOf(w, p) == Changed(s, t) && temp !in w.temps
    ensures RunSteps(w, [CreateTemp(p, temp), WriteTemp(p)])
            == InPhase(w, p, Written(s, t, temp)).(temps := w.temps[temp := Whole(s)])
  {
    RunTwo(w, CreateTemp(p, temp), WriteTemp(p));
    assert w.phases[p := Created(s, t, temp)][p := Written(s, t, temp)] == w.phases[p := Written(s, t, temp)];
    assert w.temps[temp := Torn][temp := Whole(s)] == w.temps[temp := Whole(s)];
  }

  lemma HolderCommits(w: World, p: nat, s: Snapshot, t: Transaction, temp: nat)
    requires PhaseOf(w, p) == Written(s, t, temp) && temp in w.temps && w.temps[temp] == Whole(s)
    ensures var v := RunSteps(w, [Rename(p), Release(p)]);
            v.file == Whole(s) && v.log == w.log + [t] && v.holder.None? && v.temps == w.temps - {temp}
  {
    RunTwo(w, Rename(p), Release(p));
  }

  lemma FreeLockHolderChanges(w: World, p: nat, t: Transaction)
    requires !w.file.Torn? && w.holder.None? && PhaseOf(w, p).Idle?
    ensures RunSteps(w, [Open(p), TryLock(p)] + [Read(p), Change(p, t)])
            == InPhase(w, p, Changed(PerformAll(LoadFile(w.file), t), t)).(holder := Some(p))
  {
    var v, changed := InPhase(w, p, Holding).(holder := Some(p)), Changed(PerformAll(LoadFile(w.file), t), t);
    RunConcat(w, [Open(p), TryLock(p)], [Read(p), Change(p, t)]);
    FreeLockIsTaken(w, p);
    HolderChanges(v, p, t);
    assert w.phases[p := Holding][p := changed] == w.phases[p := changed];
  }

  /** The lock does make progress: a process that finds it free and is left alone commits its transaction
      and frees it again, whatever earlier crashes have left behind. */
  lemma UndisturbedWriterCommits(w: World, p: nat, t: Transaction, temp: nat)
    requires !w.file.Torn? && w.holder.None? && PhaseOf(w, p).Idle? && temp !in w.temps
    ensures var v := RunSteps(w, [Open(p), TryLock(p)] + [Read(p), Change(p, t)]
                                  + [CreateTemp(p, temp), WriteTemp(p)] + [Rename(p), Release(p)]);
            && v.file == Whole(PerformAll(LoadFile(w.file), t)) && v.log == w.log + [t]
            && v.holder.None? && v.temps == w.temps
  {
    var taken := [Open(p), TryLock(p)] + [Read(p), Change(p, t)];
    var written := taken + [CreateTemp(p, temp), WriteTemp(p)];
    RunConcat(w, written, [Rename(p), Release(p)]);
    RunConcat(w, taken, [CreateTemp(p, temp), WriteTemp(p)]);
    FreeLockHolderChanges(w, p, t);
    var s := PerformAll(LoadFile(w.file), t);
    HolderWrites(RunSteps(w, taken), p, s, t, temp);
    HolderCommits(RunSteps(w, written), p, s, t, temp);
    assert w.temps[temp := Whole(s)] - {temp} == w.temps;
  }

  /** A crash anywhere frees the lock if it was held, and never touches the state file. */
  lemma CrashesFreeTheLock(file: File, es: seq<Step>, p: nat)
    requires !file.Torn?
    ensures var w, v := RunSteps(Start(file), es), RunSteps(Start(file), es + [Crash(p)]);
            && v.file == w.file && v.log == w.log
            && (InLock(PhaseOf(w, p)) ==> v.holder.None?)
  {
    RunKeepsInvariant(file, es);
    RunAppends(Start(file), es, Crash(p));
  }

  /** Nor does an error: a process that fails anywhere inside the lock, and is left alone, frees it, keeps the state
      file, and takes its own temporary file with it. */
  lemma FailuresFreeTheLock(file: File, es: seq<Step>, p: nat)
    requires !file.Torn? && InLock(PhaseOf(RunSteps(Start(file), es), p))
    ensures var w := RunSteps(Start(file), es);
            var v := RunSteps(w, [Fail(p), Release(p)]);
            && v.file == w.file && v.log == w.log && v.holder.None? && PhaseOf(v, p).Idle?
            && v.temps == map n | n in w.temps && !InUse(w, n) :: w.temps[n]
  {
    RunKeepsInvariant(file, es);
    RunTwo(RunSteps(Start(file), es), Fail(p), Release(p));
  }

  /** And a process that gives up waiting leaves everything as it was. */
  lemma GivingUpLeavesNothing(w: World, p: nat)
    requires PhaseOf(w, p).Idle?
    ensures var v := RunSteps(w, [Open(p), GiveUp(p)]);
            && v.file == w.file && v.log == w.log && v.holder == w.holder && v.temps == w.temps
            && forall q :: PhaseOf(v, q) == PhaseOf(w, q)
  {
    RunTwo(w, Open(p), GiveUp(p));
  }

  /** The lock holder is about to write, or has written, this temporary file. */
  predicate InUse(w: World, temp: nat) {
    w.holder.Some?
    && var phase := PhaseOf(w, w.holder.value); (phase.Created? || phase.Written?) && phase.temp == temp
  }

  predicate NoneLeft(w: World) {
    forall n | n in w.temps :: InUse(w, n)
  }

  lemma NextFreesTemps(w: World, e: Step)
    requires Exclusive(w) && !e.Crash? && NoneLeft(w)
    ensures NoneLeft(Next(w, e))
  {
  }

  /** Without crashes, the only temporary file is the one of the process writing it: a writer that
      returns, with or without an error, leaves none behind. */
  lemma {:induction false} NoTempsAreLeft(file: File, es: seq<Step>)
    requires !file.Torn? && forall e | e in es :: !e.Crash?
    ensures NoneLeft(RunSteps(Start(file), es))
  {
    if es != [] {
      var init, e := es[..|es| - 1], es[|es| - 1];
      NoTempsAreLeft(file, init);
      RunKeepsInvariant(file, init);
      assert !e.Crash?;
      NextFreesTemps(RunSteps(Start(file), init), e);
    }
  }

  // ---- What the committed transactions amount to ----

  function BatchesOf(t: Transaction): seq<Batch> {
    if t == [] then []
    else if t[|t| - 1].MergeBatch? then BatchesOf(t[..|t| - 1]) + [t[|t| - 1].batch]
    else BatchesOf(t[..|t| - 1])
  }

  function LoggedBatches(log: seq<Transaction>): seq<Batch> {
    if log == [] then [] else LoggedBatches(log[..|log| - 1]) + BatchesOf(log[|log| - 1])
  }

  lemma MergeAllAppend(p: Projection, bs: seq<Batch>, b: Batch)
    ensures MergeAll(p, bs + [b]) == Merge(MergeAll(p, bs), b.items, b.clock).0
  {
    assert (bs + [b])[..|bs + [b]| - 1] == bs;
  }

  lemma {:induction false} MergeAllConcat(p: Projection, xs: seq<Batch>, ys: seq<Batch>)
    ensures MergeAll(p, xs + ys) == MergeAll(MergeAll(p, xs), ys)
  {
    if ys == [] {
      assert xs + ys == xs;
    } else {
      MergeAllConcat(p, xs, ys[..|ys| - 1]);
      Sequences.ConcatLast(xs, ys);
    }
  }

  lemma ActionMerges(s: Snapshot, a: Action)
    ensures Perform(s, a).projection
            == if a.MergeBatch? then Merge(s.projection, a.batch.items, a.batch.clock).0 else s.projection
  {
  }

  lemma {:induction false} TransactionMerges(s: Snapshot, t: Transaction)
    ensures PerformAll(s, t).projection == MergeAll(s.projection, BatchesOf(t))
  {
    if t != [] {
      var init, last := t[..|t| - 1], t[|t| - 1];
      TransactionMerges(s, init);
      ActionMerges(PerformAll(s, init), last);
      if last.MergeBatch? {
        MergeAllAppend(s.projection, BatchesOf(init), last.batch);
      }
    }
  }

  lemma MergeAllPerChannel(p: Projection, bs: seq<Batch>, channelID: string)
    ensures SlotOf(MergeAll(p, bs), channelID) == RunSlot(SlotOf(p, channelID), channelID, AllEvents(bs))
  {
    MergeAllIsRun(p, bs);
    RunIsPerChannel(p, channelID, AllEvents(bs));
  }

  lemma LoadKeepsSlots(s: Snapshot, channelID: string)
    requires Anchored(s.projection)
    ensures SlotOf(LoadFile(Whole(s)).projection, channelID) == SlotOf(s.projection, channelID)
  {
  }

  lemma LoadedIsAnchored(f: File)
    ensures Anchored(LoadFile(f).projection)
  {
  }

  /** However often the file is reloaded in between, a channel's slot is that of the logged merges alone. */
  lemma {:induction false} SerialMerges(file: File, log: seq<Transaction>, channelID: string)
    ensures SlotOf(LoadFile(Serial(file, log)).projection, channelID)
            == SlotOf(MergeAll(LoadFile(file).projection, LoggedBatches(log)), channelID)
  {
    if log != [] {
      var init, last := log[..|log| - 1], log[|log| - 1];
      SerialMerges(file, init, channelID);
      var p0, p := LoadFile(file).projection, LoadFile(Serial(file, init)).projection;
      var s := PerformAll(LoadFile(Serial(file, init)), last);
      TransactionMerges(LoadFile(Serial(file, init)), last);
      MergeAllPerChannel(p, BatchesOf(last), channelID);
      MergeAllPerChannel(MergeAll(p0, LoggedBatches(init)), BatchesOf(last), channelID);
      MergeAllConcat(p0, LoggedBatches(init), BatchesOf(last));
      LoadedIsAnchored(Serial(file, init));
      MergeAllIsRun(p, BatchesOf(last));
      RunsStayAnchored(p, AllEvents(BatchesOf(last)));
      LoadKeepsSlots(s, channelID);
    }
  }

  /** Convergent writers: two histories of any processes over one initial file, whose committed merges have
      effects with the same keys, leave a channel the same, settled by its greatest event, if their effects
      together are determined. */
  lemma {:induction false} WritersConverge(file: File, these: seq<Step>, those: seq<Step>, channelID: string)
    requires !file.Torn?
    requires var x := AllEffects(LoggedBatches(RunSteps(Start(file), these).log), channelID);
             var y := AllEffects(LoggedBatches(RunSteps(Start(file), those).log), channelID);
             Convergence.KeysOf(x) == Convergence.KeysOf(y) && Convergence.Determined(x + y)
    ensures var w, v := RunSteps(Start(file), these), RunSteps(Start(file), those);
            var before := SlotOf(LoadFile(file).projection, channelID);
            var slot := SlotOf(LoadFile(w.file).projection, channelID);
            && slot == SlotOf(LoadFile(v.file).projection, channelID)
            && Convergence.Settles(before, AllEffects(LoggedBatches(w.log), channelID), slot)
  {
    var w, v := RunSteps(Start(file), these), RunSteps(Start(file), those);
    WritersAreSerializable(file, these);
    WritersAreSerializable(file, those);
    SerialMerges(file, w.log, channelID);
    SerialMerges(file, v.log, channelID);
    BatchConvergence(LoadFile(file).projection, LoggedBatches(w.log), LoggedBatches(v.log), channelID);
  }

  lemma {:induction false} LoggedItemsLieBelow(file: File, log: seq<Transaction>, i: nat, item: Items.CheckItem)
    requires i < |LoggedBatches(log)| && item in LoggedBatches(log)[i].items && Significant(item)
    ensures Frontiers.AtMost(Frontiers.Key(item), FrontierOf(LoadFile(Serial(file, log)).projection, item.channelID))
  {
    var p, bs, ch := LoadFile(file).projection, LoggedBatches(log), item.channelID;
    var b := bs[i];
    var e := Event(item, b.clock(ch));
    ChannelsCorrect(b.items);
    ScheduleMembers(b.items, Channels(b.items), b.clock, e);
    assert b in bs && e in FullSchedule(b);
    AllEventsMembers(bs, e);
    RunRaisesFrontier(SlotOf(p, ch), ch, AllEvents(bs));
    MergeAllPerChannel(p, bs, ch);
    SerialMerges(file, log, ch);
  }

  /** Replay across processes: once a batch has been committed, merging it into the state any later process
      loads, under any clock, changes nothing and accepts none of its own or addressed items. */
  lemma {:induction false} CommittedBatchIsNotReplayed(file: File, es: seq<Step>, i: nat, clock: Clock)
    requires !file.Torn? && i < |LoggedBatches(RunSteps(Start(file), es).log)|
    ensures var w := RunSteps(Start(file), es);
            var q, b := LoadFile(w.file).projection, LoggedBatches(w.log)[i];
            var (r, accepted) := Merge(q, b.items, clock);
            r == q && Sequences.Filter(IsTouching(), accepted) == []
  {
    var w := RunSteps(Start(file), es);
    WritersAreSerializable(file, es);
    var q, b := LoadFile(w.file).projection, LoggedBatches(w.log)[i];
    var again := Schedule(b.items, Channels(b.items), clock);
    forall e | e in again && Significant(e.item)
      ensures Frontiers.AtMost(Frontiers.Key(e.item), FrontierOf(q, e.item.channelID))
    {
      ScheduleMembers(b.items, Channels(b.items), clock, e);
      LoggedItemsLieBelow(file, w.log, i, e.item);
    }
    RejectedBelowFrontier(q, again);
    MergeIsRun(q, b.items, Channels(b.items), clock);
  }

  /** In particular, with stamps that parse and equal instants meaning the same event, each channel depends
      only on the initial file and the set of committed events. */
  lemma {:induction false} WritersOfDistinctInstantsConverge(
      file: File, these: seq<Step>, those: seq<Step>, channelID: string)
    requires !file.Torn?
    requires var w, v := RunSteps(Start(file), these), RunSteps(Start(file), those);
             BatchItems(LoggedBatches(w.log), channelID) == BatchItems(LoggedBatches(v.log), channelID)
             && Convergence.InstantsNameEvents(BatchItems(LoggedBatches(w.log), channelID))
    ensures var w, v := RunSteps(Start(file), these), RunSteps(Start(file), those);
            SlotOf(LoadFile(w.file).projection, channelID) == SlotOf(LoadFile(v.file).projection, channelID)
  {
    var w, v := RunSteps(Start(file), these), RunSteps(Start(file), those);
    WritersAreSerializable(file, these);
    WritersAreSerializable(file, those);
    SerialMerges(file, w.log, channelID);
    SerialMerges(file, v.log, channelID);
    BatchesOfDistinctInstantsConverge(LoadFile(file).projection, LoggedBatches(w.log), LoggedBatches(v.log), channelID);
  }

  function OpsOf(t: Transaction): seq<Cursors.Op> {
    if t == [] then []
    else if t[|t| - 1].CursorOp? then OpsOf(t[..|t| - 1]) + [t[|t| - 1].op]
    else OpsOf(t[..|t| - 1])
  }

  function LoggedOps(log: seq<Transaction>): seq<Cursors.Op> {
    if log == [] then [] else LoggedOps(log[..|log| - 1]) + OpsOf(log[|log| - 1])
  }

  lemma {:induction false} RunOpsConcat(t: Cursors.Table, xs: seq<Cursors.Op>, ys: seq<Cursors.Op>)
    ensures Cursors.RunOps(t, xs + ys) == Cursors.RunOps(Cursors.RunOps(t, xs), ys)
  {
    if ys == [] {
      assert xs + ys == xs;
    } else {
      RunOpsConcat(t, xs, ys[..|ys| - 1]);
      Sequences.ConcatLast(xs, ys);
    }
  }

  lemma {:induction false} TransactionSteps(s: Snapshot, t: Transaction)
    ensures PerformAll(s, t).table == Cursors.RunOps(s.table, OpsOf(t))
  {
    if t != [] {
      var init, last := t[..|t| - 1], t[|t| - 1];
      TransactionSteps(s, init);
      if last.CursorOp? {
        RunOpsConcat(s.table, OpsOf(init), [last.op]);
        assert [last.op][..0] == [];
        var table := PerformAll(s, init).table;
        assert Cursors.RunOps(table, [last.op]) == Cursors.Step(table, last.op).0;
      }
    }
  }

  lemma {:induction false} SerialSteps(file: File, log: seq<Transaction>)
    ensures LoadFile(Serial(file, log)).table == Cursors.RunOps(LoadFile(file).table, LoggedOps(log))
  {
    if log != [] {
      var init, last := log[..|log| - 1], log[|log| - 1];
      SerialSteps(file, init);
      TransactionSteps(LoadFile(Serial(file, init)), last);
      RunOpsConcat(LoadFile(file).table, LoggedOps(init), OpsOf(last));
    }
  }

  /** So the cursor's walk is safe across processes too: in the file of any history the cursor of a channel
      has followed recorded edges from its initial value, and has never taken a value twice. */
  lemma {:induction false} WritersNeverMoveCursorBack(file: File, es: seq<Step>, channelID: string)
    requires !file.Torn?
    requires var l := Cursors.LineOf(LoadFile(file).table, channelID);
             Cursors.Sound(l) && |l.successors| + |LoggedOps(RunSteps(Start(file), es).log)| < U64_LIMIT
    ensures var w := RunSteps(Start(file), es);
            var trace := Cursors.Trace(LoadFile(file).table, LoggedOps(w.log), channelID);
            && trace != [] && trace[|trace| - 1] == Cursors.CursorOf(LoadFile(w.file).table, channelID)
            && Cursors.FollowsEdges(Cursors.LineOf(LoadFile(w.file).table, channelID), trace)
            && forall i, j | 0 <= i < j < |trace| :: trace[i] != trace[j]
  {
    var w := RunSteps(Start(file), es);
    WritersAreSerializable(file, es);
    SerialSteps(file, w.log);
    Cursors.TraceFollowsEdges(LoadFile(file).table, LoggedOps(w.log), channelID);
    Cursors.CursorNeverMovesBack(LoadFile(file).table, LoggedOps(w.log), channelID);
  }

  // ---- The whole file ----

  function OffersOf(t: Transaction): seq<Activity.Offer> {
    if t == [] then []
    else if t[|t| - 1].OfferActivity? then OffersOf(t[..|t| - 1]) + [t[|t| - 1].offer]
    else OffersOf(t[..|t| - 1])
  }

  function LoggedOffers(log: seq<Transaction>): seq<Activity.Offer> {
    if log == [] then [] else LoggedOffers(log[..|log| - 1]) + OffersOf(log[|log| - 1])
  }

  lemma {:induction false} RunOffersConcat(index: Activity.Index, xs: seq<Activity.Offer>, ys: seq<Activity.Offer>)
    ensures Activity.RunOffers(index, xs + ys) == Activity.RunOffers(Activity.RunOffers(index, xs), ys)
  {
    if ys == [] {
      assert xs + ys == xs;
    } else {
      RunOffersConcat(index, xs, ys[..|ys| - 1]);
      Sequences.ConcatLast(xs, ys);
    }
  }

  lemma RunOffersAppend(index: Activity.Index, xs: seq<Activity.Offer>, x: Activity.Offer)
    ensures Activity.RunOffers(index, xs + [x])
            == Activity.Record(Activity.RunOffers(index, xs), x.channelID, x.candidate).0
  {
    Sequences.ConcatLast(xs, [x]);
    assert xs + [x][..0] == xs;
  }

  lemma {:induction false} TransactionOffers(s: Snapshot, t: Transaction)
    ensures PerformAll(s, t).activity == Activity.RunOffers(s.activity, OffersOf(t))
  {
    if t != [] {
      var init, last := t[..|t| - 1], t[|t| - 1];
      TransactionOffers(s, init);
      if last.OfferActivity? {
        RunOffersAppend(s.activity, OffersOf(init), last.offer);
      }
    }
  }

  lemma {:induction false} SerialOffers(file: File, log: seq<Transaction>)
    ensures LoadFile(Serial(file, log)).activity == Activity.RunOffers(LoadFile(file).activity, LoggedOffers(log))
  {
    if log != [] {
      var init, last := log[..|log| - 1], log[|log| - 1];
      SerialOffers(file, init);
      TransactionOffers(LoadFile(Serial(file, init)), last);
      RunOffersConcat(LoadFile(file).activity, LoggedOffers(init), OffersOf(last));
      LoadKeepsTheFile(PerformAll(LoadFile(Serial(file, init)), last));
    }
  }

  /** The activity of a channel in the file of any history is the initial entry as long as no newer instant was
      committed, and otherwise the greatest one committed by any process, if the years have four digits. */
  lemma {:induction false} WritersKeepNewestActivity(file: File, es: seq<Step>, channelID: string)
    requires !file.Torn? && !Text.Blank(channelID)
    requires var offers := LoggedOffers(RunSteps(Start(file), es).log);
             forall x | x in Activity.Instants(offers, channelID) :: Activity.FourDigitYear(x)
    ensures var w := RunSteps(Start(file), es);
            Activity.Newest(Lookup(LoadFile(file).activity, channelID),
                            Activity.Instants(LoggedOffers(w.log), channelID),
                            Lookup(LoadFile(w.file).activity, channelID))
  {
    var w := RunSteps(Start(file), es);
    WritersAreSerializable(file, es);
    SerialOffers(file, w.log);
    Activity.NewestActivityStands(LoadFile(file).activity, LoggedOffers(w.log), channelID);
  }

  /** All committed actions, in order. */
  function Actions(log: seq<Transaction>): seq<Action> {
    if log == [] then [] else Actions(log[..|log| - 1]) + log[|log| - 1]
  }

  /** The value last set, or else the initial one. */
  ghost predicate LastSet<T>(acts: seq<Action>, sets: Action -> Option<T>, initial: T, final: T) {
    if exists k :: 0 <= k < |acts| && IsLast(acts, sets, k)
    then exists k :: 0 <= k < |acts| && IsLast(acts, sets, k) && sets(acts[k]) == Some(final)
    else final == initial && forall k | 0 <= k < |acts| :: sets(acts[k]) == None
  }

  predicate IsLast<T(==)>(acts: seq<Action>, sets: Action -> Option<T>, k: nat)
    requires k < |acts|
  {
    sets(acts[k]).Some? && forall m | k < m < |acts| :: sets(acts[m]).None?
  }

  function WatchSet(): Action -> Option<seq<string>> {
    (a: Action) => if a.SetWatch? then Some(a.watch) else None
  }

  function LastCheckSet(): Action -> Option<string> {
    (a: Action) => if a.SetLastCheck? then Some(a.lastCheck) else None
  }

  lemma {:induction false} LastSetAppend<T>(
      acts: seq<Action>, sets: Action -> Option<T>, initial: T, mid: T, a: Action)
    requires LastSet(acts, sets, initial, mid)
    ensures LastSet(acts + [a], sets, initial, if sets(a).Some? then sets(a).value else mid)
  {
    var all := acts + [a];
    if sets(a).Some? {
      assert IsLast(all, sets, |acts|);
    } else if k :| 0 <= k < |acts| && IsLast(acts, sets, k) && sets(acts[k]) == Some(mid) {
      assert IsLast(all, sets, k);
    } else {
      forall k | 0 <= k < |all| ensures !IsLast(all, sets, k) && sets(all[k]) == None {}
    }
  }

  lemma ActionSets(s: Snapshot, a: Action)
    ensures Perform(s, a).watch == if WatchSet()(a).Some? then WatchSet()(a).value else s.watch
    ensures Perform(s, a).lastCheck == if LastCheckSet()(a).Some? then LastCheckSet()(a).value else s.lastCheck
  {
  }

  lemma {:induction false} TransactionWatches(s: Snapshot, before: seq<Action>, t: Transaction, initial: seq<string>)
    requires LastSet(before, WatchSet(), initial, s.watch)
    ensures LastSet(before + t, WatchSet(), initial, PerformAll(s, t).watch)
  {
    if t == [] {
      assert before + t == before;
    } else {
      var init, last := t[..|t| - 1], t[|t| - 1];
      TransactionWatches(s, before, init, initial);
      ActionSets(PerformAll(s, init), last);
      LastSetAppend(before + init, WatchSet(), initial, PerformAll(s, init).watch, last);
      assert before + t == before + init + [last];
    }
  }

  lemma {:induction false} TransactionChecks(s: Snapshot, before: seq<Action>, t: Transaction, initial: string)
    requires LastSet(before, LastCheckSet(), initial, s.lastCheck)
    ensures LastSet(before + t, LastCheckSet(), initial, PerformAll(s, t).lastCheck)
  {
    if t == [] {
      assert before + t == before;
    } else {
      var init, last := t[..|t| - 1], t[|t| - 1];
      TransactionChecks(s, before, init, initial);
      ActionSets(PerformAll(s, init), last);
      LastSetAppend(before + init, LastCheckSet(), initial, PerformAll(s, init).lastCheck, last);
      assert before + t == before + init + [last];
    }
  }

  lemma {:induction false} SerialSets(file: File, log: seq<Transaction>)
    ensures LastSet(Actions(log), WatchSet(), LoadFile(file).watch, LoadFile(Serial(file, log)).watch)
    ensures LastSet(Actions(log), LastCheckSet(), LoadFile(file).lastCheck, LoadFile(Serial(file, log)).lastCheck)
  {
    if log != [] {
      var init, last := log[..|log| - 1], log[|log| - 1];
      var s := LoadFile(Serial(file, init));
      SerialSets(file, init);
      TransactionWatches(s, Actions(init), last, LoadFile(file).watch);
      TransactionChecks(s, Actions(init), last, LoadFile(file).lastCheck);
      LoadKeepsTheFile(PerformAll(s, last));
    }
  }

  lemma {:induction false} AllEventsConcat(xs: seq<Batch>, ys: seq<Batch>)
    ensures AllEvents(xs + ys) == AllEvents(xs) + AllEvents(ys)
  {
    if ys == [] {
      assert xs + ys == xs;
    } else {
      var init, last := ys[..|ys| - 1], ys[|ys| - 1];
      AllEventsConcat(xs, init);
      Sequences.ConcatLast(xs, ys);
      Sequences.ConcatAssociates(AllEvents(xs), AllEvents(init), FullSchedule(last));
    }
  }

  /** How many own and addressed items the logged merges accept. */
  function LoggedCount(p: Projection, log: seq<Transaction>): nat {
    AcceptedCount(p, AllEvents(LoggedBatches(log)))
  }

  lemma {:induction false} LoggedCountGrows(p: Projection, log: seq<Transaction>)
    requires log != []
    ensures LoggedCount(p, log[..|log| - 1]) <= LoggedCount(p, log)
  {
    var init, last := log[..|log| - 1], log[|log| - 1];
    AllEventsConcat(LoggedBatches(init), BatchesOf(last));
    Projections.RunConcat(p, AllEvents(LoggedBatches(init)), AllEvents(BatchesOf(last)));
  }

  lemma LoadFixesMerged(p: Projection, bs: seq<Batch>)
    requires Anchored(p) && Revisions.RevisionsBounded(p)
    requires p.revision + AcceptedCount(p, AllEvents(bs)) < U64_LIMIT
    ensures Normalise(MergeAll(p, bs)) == MergeAll(p, bs)
  {
    MergeAllIsRun(p, bs);
    Revisions.StampsStaySound(p, AllEvents(bs));
    RunsStayAnchored(p, AllEvents(bs));
    NormaliseFixesExactly(MergeAll(p, bs));
  }

  lemma LoadedIsSound(f: File)
    ensures Anchored(LoadFile(f).projection) && Revisions.RevisionsBounded(LoadFile(f).projection)
  {
    if f.Whole? {
      NormaliseEstablishes(f.content.projection);
    }
  }

  /** Short of the counter wrapping, the reloads are invisible altogether: the projection, with its revision and
      its stamps, is that of the logged merges on one object. */
  lemma {:induction false} SerialIsOneMerge(file: File, log: seq<Transaction>)
    requires LoadFile(file).projection.revision + LoggedCount(LoadFile(file).projection, log) < U64_LIMIT
    ensures LoadFile(Serial(file, log)).projection == MergeAll(LoadFile(file).projection, LoggedBatches(log))
  {
    if log != [] {
      var init, last := log[..|log| - 1], log[|log| - 1];
      var p0 := LoadFile(file).projection;
      LoggedCountGrows(p0, log);
      SerialIsOneMerge(file, init);
      var s := LoadFile(Serial(file, init));
      TransactionMerges(s, last);
      MergeAllConcat(p0, LoggedBatches(init), BatchesOf(last));
      LoadedIsSound(file);
      LoadFixesMerged(p0, LoggedBatches(log));
      LoadIsNormalised(PerformAll(s, last));
    }
  }

  lemma LoadIsNormalised(s: Snapshot)
    ensures LoadFile(Whole(s)).projection == Normalise(s.projection)
  {
  }

  /** The whole file, in every interleaving with any timeouts, failures and crashes: every field is what the
      committed actions of its own kind make of the initial one, in the order they were committed, and nothing
      else touches it. No commit is lost, and short of the counter wrapping no reload shows. */
  lemma {:induction false} WritersRefineOneObject(file: File, es: seq<Step>)
    requires !file.Torn?
    ensures var log := RunSteps(Start(file), es).log;
            var before, after := LoadFile(file), LoadFile(RunSteps(Start(file), es).file);
            && after.table == Cursors.RunOps(before.table, LoggedOps(log))
            && after.activity == Activity.RunOffers(before.activity, LoggedOffers(log))
            && LastSet(Actions(log), WatchSet(), before.watch, after.watch)
            && LastSet(Actions(log), LastCheckSet(), before.lastCheck, after.lastCheck)
            && (before.projection.revision + LoggedCount(before.projection, log) < U64_LIMIT
                ==> after.projection == MergeAll(before.projection, LoggedBatches(log)))
  {
    var log := RunSteps(Start(file), es).log;
    WritersAreSerializable(file, es);
    SerialSteps(file, log);
    SerialOffers(file, log);
    SerialSets(file, log);
    if LoadFile(file).projection.revision + LoggedCount(LoadFile(file).projection, log) < U64_LIMIT {
      SerialIsOneMerge(file, log);
    }
  }
}
