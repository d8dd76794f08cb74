/** The pipeline of one contact+conversation pair as a machine of atomic steps.

    Every store operation, every operation on the `entries` map and every call of
    a cancel function is one step of one goroutine, and the steps of all goroutines
    interleave in any order. A store operation may also fail, with or without
    having taken effect. Different pairs never touch each other's data (module
    Repository), so one pair is the general case. */
module Machine {
  import opened Model

  // ---------------------------------------------------------------- state

  /** The state key of the pair. A debounce record carries the persisted turn and,
      as history, the number of the window it belongs to. */
  datatype Stored = Absent | Incoming | Window(turn: Turn, id: nat) | AI | Dispatching | Done

  /** What entitles a goroutine to start an AI turn. */
  datatype Source = FromWindow(id: nat) | ZeroDebounce(gen: nat)

  /** The last SetTimer, and whether ClearState has removed it since. */
  datatype TimerRun = TimerRun(setAt: nat, ttl: nat, cleared: bool)

  /** What has been done to the two buffers of the pair. */
  datatype Write = Text(content: string) | Media(atts: seq<Attachment>) | Wiped

  /** One AI turn, with what was true of the pair at the moment of the launch. */
  datatype Launch = Launch(
    gen: nat,
    source: Source,
    message: seq<string>,
    media: seq<Attachment>,
    at: nat,
    timer: Option<TimerRun>,
    appendedAtCheck: nat,
    appended: nat,
    writes: seq<Write>)

  /** `Process`: locked section of one event. */
  datatype ProcessAt =
    | Locking
    | Reading
    | Taking(interrupt: bool)
    | Cancelling(interrupt: bool, prev: nat)
    | Clearing
    | Storing
    | Appending(gen: nat)
    | Attaching(gen: nat)
    | Arming(gen: nat)
    | Opening(gen: nat)
    | Buffering(gen: nat)
    | Collecting(gen: nat, message: seq<string>)
    | Promoting(gen: nat, message: seq<string>, media: seq<Attachment>)
    | Launching(gen: nat, message: seq<string>, media: seq<Attachment>)
    | Aborting(gen: nat)
    | Dropping(gen: nat)
    | ReAppending
    | ReAttaching
    | ReArming
    | Unlocking

  /** `advanceToAI`: locked section of the poller or of recovery. */
  datatype AdvanceAt =
    | AdvLock
    | AdvStage
    | AdvTimer(win: nat)
    | AdvBuffer(win: nat, seen: nat)
    | AdvMedia(win: nat, seen: nat, message: seq<string>)
    | AdvPromote(win: nat, seen: nat, message: seq<string>, media: seq<Attachment>)
    | AdvLaunch(win: nat, seen: nat, message: seq<string>, media: seq<Attachment>)
    | AdvUnlock

  /** `Start`: recovery of the pair, possibly several times over. */
  datatype RecoverAt = RecStage | RecLookup(turn: Turn) | RecStore(turn: Turn) | RecTimer | RecNext

  /** `runAIStage` followed by `runDispatchStage`: none of it holds the lock. The notice
      to the customer after an error has a context of its own. */
  datatype ReplyAt = Calling | MarkDispatch | ClearOnError | Notifying | Sending | MarkDone | ClearDone | DropEntry

  /** `Cancel`: never holds the lock either. */
  datatype CancelAt = CancelTake | CancelSignal(prev: nat) | CancelClear

  datatype Pc =
    | InProcess(ev: Event, pat: ProcessAt)
    | InAdvance(boot: bool, aat: AdvanceAt)
    | InRecover(rat: RecoverAt)
    | InReply(gen: nat, yat: ReplyAt)
    | InCancel(cat: CancelAt)

  datatype Proc = Proc(inst: nat, pc: Pc)

  datatype History = History(
    launches: seq<Launch>,
    granted: set<Source>,
    windows: nat,               // debounce windows opened
    zeroTurns: nat,             // zero-debounce turns begun
    timer: Option<TimerRun>,
    appended: nat,              // AppendToBuffer calls that took effect
    writes: seq<Write>)         // appends and clears that took effect, in order

  datatype World = World(
    stored: Stored,
    buffer: seq<string>,
    attachments: seq<Attachment>,
    timer: Option<nat>,         // expiry time of the timer key
    lock: Option<nat>,          // goroutine holding the distributed lock
    now: nat,                   // milliseconds
    entries: map<nat, Entry>,   // instance -> its entry for the pair
    up: set<nat>,               // instances that have finished Start
    procs: map<nat, Proc>,      // live goroutines
    cancelled: set<nat>,        // generations whose context is cancelled
    nextProc: nat,
    nextGen: nat,
    hist: History)

  /** Empty store, no goroutine, nothing up yet; the clock and the counters are arbitrary. */
  predicate Initial(w: World) {
    && w.stored == Absent && w.buffer == [] && w.attachments == [] && w.timer == None && w.lock == None
    && w.entries == map[] && w.up == {} && w.procs == map[] && w.cancelled == {}
    && w.hist == History([], {}, 0, 0, None, 0, [])
  }

  // ----------------------------------------------------------- operations

  /** The outcome of the operation at a goroutine's program point. `FailApplied` is
      a store operation that took effect although the caller saw an error. */
  datatype Outcome = Ok | Fail | FailApplied | Interrupted | Panic

  predicate Applied(out: Outcome) {
    out.Ok? || out.FailApplied?
  }

  /** The atomic operations. Reads change nothing, so they are all `Look`. */
  datatype Op =
    | Look
    | Acquire | Release
    | PutStage(s: Stored)
    | ClearPair
    | PushText(content: string)
    | PushMedia(atts: seq<Attachment>)
    | SetTimer(seconds: int)
    | OpenWindow(turn: Turn)
    | RemoveEntry
    | StoreEntry(turn: Turn, zero: bool)
    | CancelGen(gen: nat)
    | StartAI(source: Source, message: seq<string>, media: seq<Attachment>, seen: nat)
    | Serve

  /** Operations on the store can fail; map operations and cancel functions cannot. */
  predicate Fallible(op: Op) {
    op.Acquire? || op.Release? || op.PutStage? || op.ClearPair? || op.PushText? || op.PushMedia?
    || op.SetTimer? || op.OpenWindow?
  }

  function Do(w: World, id: nat, inst: nat, op: Op): World {
    match op
    case Look => w
    case Acquire => w.(lock := Some(id))
    case Release => w.(lock := None)
    case PutStage(s) => w.(stored := s)
    case ClearPair =>
      w.(stored := Absent, buffer := [], attachments := [], timer := None,
         hist := w.hist.(timer := if w.hist.timer.Some?
                                  then Some(w.hist.timer.value.(cleared := true)) else None,
                         writes := w.hist.writes + [Wiped]))
    case PushText(content) =>
      w.(buffer := w.buffer + [content],
         hist := w.hist.(appended := w.hist.appended + 1, writes := w.hist.writes + [Text(content)]))
    case PushMedia(atts) =>
      w.(attachments := w.attachments + atts, hist := w.hist.(writes := w.hist.writes + [Media(atts)]))
    case SetTimer(seconds) =>
      if seconds <= 0 then w else
        var ttl: nat := seconds * MILLIS_PER_SECOND;
        w.(timer := Some(w.now + ttl), hist := w.hist.(timer := Some(TimerRun(w.now, ttl, false))))
    case OpenWindow(turn) =>
      w.(stored := Window(turn, w.hist.windows),
         hist := w.hist.(windows := w.hist.windows + 1,
                         granted := w.hist.granted + {FromWindow(w.hist.windows)}))
    case RemoveEntry => w.(entries := w.entries - {inst})
    case StoreEntry(turn, zero) =>
      w.(nextGen := w.nextGen + 1, entries := w.entries[inst := Entry(w.nextGen, turn)],
         hist := if zero
                 then w.hist.(zeroTurns := w.hist.zeroTurns + 1,
                              granted := w.hist.granted + {ZeroDebounce(w.nextGen)})
                 else w.hist)
    case CancelGen(gen) => w.(cancelled := w.cancelled + {gen})
    case StartAI(source, message, media, seen) =>
      if inst !in w.entries then w else      // launchAIStage logs and returns
        var gen := w.entries[inst].gen;
        var l := Launch(gen, source, message, media, w.now, w.hist.timer, seen, w.hist.appended, w.hist.writes);
        w.(hist := w.hist.(launches := w.hist.launches + [l]),
           procs := w.procs[w.nextProc := Proc(inst, InReply(gen, Calling))],
           nextProc := w.nextProc + 1)
    case Serve => w.(up := w.up + {inst})
  }

  // --------------------------------------------------------------- programs

  predicate TimerRunning(w: World) {
    w.timer.Some? && w.now < w.timer.value
  }

  /** The operation that a goroutine performs at its program point. */
  function OpAt(pc: Pc, out: Outcome): Op {
    match pc
    case InProcess(ev, at) => ProcessOp(ev, at)
    case InAdvance(_, at) => AdvanceOp(at)
    case InRecover(at) => RecoverOp(at, out)
    case InReply(_, at) => ReplyOp(at)
    case InCancel(at) => CancelOp(at)
  }

  function ProcessOp(ev: Event, at: ProcessAt): Op {
    match at
    case Locking => Acquire
    case Reading => Look
    case Taking(_) => RemoveEntry
    case Cancelling(_, prev) => CancelGen(prev)
    case Clearing => ClearPair
    case Storing => StoreEntry(ev.turn, ev.turn.cfg.debounceTime == 0)
    case Appending(_) => PushText(ev.content)
    case Attaching(_) => PushMedia(ev.attachments)
    case Arming(_) => SetTimer(ev.turn.cfg.debounceTime)
    case Opening(_) => OpenWindow(ev.turn)
    case Buffering(_) => Look
    case Collecting(_, _) => Look
    case Promoting(_, _, _) => PutStage(AI)
    case Launching(gen, message, media) => StartAI(ZeroDebounce(gen), message, media, 0)
    case Aborting(gen) => CancelGen(gen)
    case Dropping(_) => RemoveEntry
    case ReAppending => PushText(ev.content)
    case ReAttaching => PushMedia(ev.attachments)
    case ReArming => SetTimer(ev.turn.cfg.debounceTime)
    case Unlocking => Release
  }

  function AdvanceOp(at: AdvanceAt): Op {
    match at
    case AdvLock => Acquire
    case AdvPromote(_, _, _, _) => PutStage(AI)
    case AdvLaunch(win, seen, message, media) => StartAI(FromWindow(win), message, media, seen)
    case AdvUnlock => Release
    case _ => Look
  }

  function RecoverOp(at: RecoverAt, out: Outcome): Op {
    match at
    case RecStore(turn) => StoreEntry(turn, false)
    case RecNext => if out.Ok? then Serve else Look
    case _ => Look
  }

  function ReplyOp(at: ReplyAt): Op {
    match at
    case MarkDispatch => PutStage(Dispatching)
    case ClearOnError => ClearPair
    case MarkDone => PutStage(Done)
    case ClearDone => ClearPair
    case DropEntry => RemoveEntry
    case _ => Look
  }

  function CancelOp(at: CancelAt): Op {
    match at
    case CancelTake => RemoveEntry
    case CancelSignal(prev) => CancelGen(prev)
    case CancelClear => ClearPair
  }

  /** Where the goroutine goes next; `None` when it returns. */
  function NextPc(w: World, inst: nat, pc: Pc, out: Outcome): Option<Pc> {
    match pc
    case InProcess(ev, at) =>
      (match NextProcess(w, inst, ev, at, out)
       case None => None
       case Some(next) => Some(InProcess(ev, next)))
    case InAdvance(boot, at) =>
      (match NextAdvance(w, at, out)
       case Some(next) => Some(InAdvance(boot, next))
       case None => if boot then Some(InRecover(RecNext)) else None)   // recovery calls it inline
    case InRecover(at) => NextRecover(w, inst, at, out)
    case InReply(gen, at) =>
      (match NextReply(at, out)
       case None => None
       case Some(next) => Some(InReply(gen, next)))
    case InCancel(at) =>
      (match at
       case CancelTake =>
         Some(InCancel(if inst in w.entries then CancelSignal(w.entries[inst].gen) else CancelClear))
       case CancelSignal(_) => Some(InCancel(CancelClear))
       case CancelClear => None)
  }

  function NextProcess(w: World, inst: nat, ev: Event, at: ProcessAt, out: Outcome): Option<ProcessAt> {
    var zero := ev.turn.cfg.debounceTime == 0;
    match at
    case Locking => if out.Ok? then Some(Reading) else None
    case Reading =>
      if !out.Ok? || w.stored.Done? then Some(Unlocking)
      else if w.stored.Window? then Some(ReAppending)
      else Some(Taking(w.stored.AI? || w.stored.Dispatching?))
    case Taking(interrupt) =>
      if inst in w.entries then Some(Cancelling(interrupt, w.entries[inst].gen))
      else Some(if interrupt then Clearing else Storing)
    case Cancelling(interrupt, _) => Some(if interrupt then Clearing else Storing)
    case Clearing => Some(if out.Ok? then Storing else Unlocking)
    case Storing => Some(Appending(w.nextGen))
    case Appending(gen) => Some(if out.Ok? then Attaching(gen) else Aborting(gen))
    case Attaching(gen) =>
      Some(if !out.Ok? then Aborting(gen) else if zero then Buffering(gen) else Arming(gen))
    case Arming(gen) => Some(if out.Ok? then Opening(gen) else Aborting(gen))
    case Opening(gen) => Some(if out.Ok? then Unlocking else Aborting(gen))
    case Buffering(gen) => Some(if out.Ok? then Collecting(gen, w.buffer) else Aborting(gen))
    case Collecting(gen, message) =>      // a failed media read costs only the media
      Some(Promoting(gen, message, if out.Ok? then w.attachments else []))
    case Promoting(gen, message, media) =>
      Some(if out.Ok? then Launching(gen, message, media) else Aborting(gen))
    case Launching(_, _, _) => Some(Unlocking)
    case Aborting(gen) => Some(Dropping(gen))
    case Dropping(_) => Some(Unlocking)
    case ReAppending => Some(if out.Ok? then ReAttaching else Unlocking)
    case ReAttaching => Some(if out.Ok? then ReArming else Unlocking)
    case ReArming => Some(Unlocking)
    case Unlocking => None
  }

  function NextAdvance(w: World, at: AdvanceAt, out: Outcome): Option<AdvanceAt> {
    match at
    case AdvLock => if out.Ok? then Some(AdvStage) else None
    case AdvStage => Some(if out.Ok? && w.stored.Window? then AdvTimer(w.stored.id) else AdvUnlock)
    case AdvTimer(win) =>
      Some(if out.Ok? && !TimerRunning(w) then AdvBuffer(win, w.hist.appended) else AdvUnlock)
    case AdvBuffer(win, seen) => Some(if out.Ok? then AdvMedia(win, seen, w.buffer) else AdvUnlock)
    case AdvMedia(win, seen, message) =>
      Some(AdvPromote(win, seen, message, if out.Ok? then w.attachments else []))
    case AdvPromote(win, seen, message, media) =>
      Some(if out.Ok? then AdvLaunch(win, seen, message, media) else AdvUnlock)
    case AdvLaunch(_, _, _, _) => Some(AdvUnlock)
    case AdvUnlock => None
  }

  function NextRecover(w: World, inst: nat, at: RecoverAt, out: Outcome): Option<Pc> {
    match at
    case RecStage => Some(InRecover(if out.Ok? && w.stored.Window? then RecLookup(w.stored.turn) else RecNext))
    case RecLookup(turn) => Some(InRecover(if inst in w.entries then RecTimer else RecStore(turn)))
    case RecStore(_) => Some(InRecover(RecTimer))
    case RecTimer => Some(if out.Ok? && !TimerRunning(w) then InAdvance(true, AdvLock) else InRecover(RecNext))
    case RecNext =>       // a scan may return the pair again; otherwise the server starts listening
      if out.Ok? then None else Some(InRecover(RecStage))
  }

  function NextReply(at: ReplyAt, out: Outcome): Option<ReplyAt> {
    match at
    case Calling => AfterCall(out, MarkDispatch)
    case MarkDispatch => Some(if out.Ok? then Sending else ClearOnError)
    case ClearOnError => Some(Notifying)
    case Notifying => if out.Panic? then Some(ClearDone) else None
    case Sending => AfterCall(out, MarkDone)
    case MarkDone => Some(ClearDone)
    case ClearDone => Some(DropEntry)
    case DropEntry => None
  }

  function AfterCall(out: Outcome, success: ReplyAt): Option<ReplyAt> {
    match out
    case Ok => Some(success)
    case Interrupted => None
    case Panic => Some(ClearDone)         // recoverPipeline
    case _ => Some(ClearOnError)
  }

  // ---------------------------------------------------------------- actions

  datatype Action =
    | Run(id: nat, out: Outcome)
    | Handle(inst: nat, ev: Event, out: Outcome)
    | Poll(inst: nat)
    | RequestCancel(inst: nat)
    | Shutdown(inst: nat)
    | Boot(inst: nat)
    | Crash(inst: nat)
    | ExpireLock
    | Tick(ms: nat)

  predicate Acquires(pc: Pc) {
    (pc.InProcess? && pc.pat.Locking?) || (pc.InAdvance? && pc.aat.AdvLock?)
  }

  /** Inside a locked section. */
  predicate Holding(pc: Pc) {
    (pc.InProcess? && !pc.pat.Locking?) || (pc.InAdvance? && !pc.aat.AdvLock?)
  }

  predicate Enabled(w: World, a: Action) {
    match a
    case Run(id, out) => id in w.procs && (Acquires(w.procs[id].pc) && Applied(out) ==> w.lock.None?)
    case Handle(inst, ev, _) => inst in w.up && ev.Valid()
    case Poll(inst) => inst in w.up
    case RequestCancel(inst) => inst in w.up
    case Shutdown(inst) => inst in w.up
    case Boot(inst) => inst !in w.up && forall id | id in w.procs :: w.procs[id].inst != inst
    case Crash(_) => true
    // the lock outlives its holder for a while, but never expires under a live one
    case ExpireLock => w.lock.Some? && (w.lock.value in w.procs ==> !Holding(w.procs[w.lock.value].pc))
    case Tick(_) => true
  }

  function Move(w: World, id: nat, inst: nat, next: Option<Pc>): World {
    match next
    case None => w.(procs := w.procs - {id})
    case Some(pc) => w.(procs := w.procs[id := Proc(inst, pc)])
  }

  function Spawn(w: World, inst: nat, pc: Pc): World {
    w.(procs := w.procs[w.nextProc := Proc(inst, pc)], nextProc := w.nextProc + 1)
  }

  /** The operation takes effect unless it failed without effect. */
  function Effect(w: World, id: nat, inst: nat, op: Op, out: Outcome): World {
    if Fallible(op) && !Applied(out) then w else Do(w, id, inst, op)
  }

  function Step(w: World, id: nat, out: Outcome): World
    requires id in w.procs
  {
    var Proc(inst, pc) := w.procs[id];
    Move(Effect(w, id, inst, OpAt(pc, out), out), id, inst, NextPc(w, inst, pc, out))
  }

  function Apply(w: World, a: Action): World
    requires Enabled(w, a)
  {
    match a
    case Run(id, out) => Step(w, id, out)
    case Handle(inst, ev, out) =>
      var w1 := if Applied(out) then w.(stored := Incoming) else w;
      if out.Ok? then Spawn(w1, inst, InProcess(ev, Locking)) else w1
    case Poll(inst) => Spawn(w, inst, InAdvance(false, AdvLock))
    case RequestCancel(inst) => Spawn(w, inst, InCancel(CancelTake))
    case Shutdown(inst) => if inst in w.entries then Do(w, 0, inst, CancelGen(w.entries[inst].gen)) else w
    case Boot(inst) => Spawn(w, inst, InRecover(RecStage))
    case Crash(inst) =>
      w.(entries := w.entries - {inst}, up := w.up - {inst},
         procs := map id | id in w.procs && w.procs[id].inst != inst :: w.procs[id])
    case ExpireLock => w.(lock := None)
    case Tick(ms) => w.(now := w.now + ms)
  }

  // ---------------------------------------------------------------- runs

  /** Every action of the list is enabled when its turn comes. */
  predicate Runs(w: World, acts: seq<Action>)
    decreases |acts|
  {
    acts == [] || (Enabled(w, acts[0]) && Runs(Apply(w, acts[0]), acts[1..]))
  }

  function After(w: World, acts: seq<Action>): World
    requires Runs(w, acts)
    decreases |acts|
  {
    if acts == [] then w else After(Apply(w, acts[0]), acts[1..])
  }

  /** Some interleaving leads from the empty store to `w`. */
  ghost predicate Reachable(w: World) {
    exists init, acts :: Initial(init) && Runs(init, acts) && After(init, acts) == w
  }

  lemma Prepend(w: World, a: Action, rest: seq<Action>)
    requires Enabled(w, a) && Runs(Apply(w, a), rest)
    ensures Runs(w, [a] + rest) && After(w, [a] + rest) == After(Apply(w, a), rest)
  {
    assert ([a] + rest)[1..] == rest;
  }

  lemma {:induction false} Extend(w: World, acts: seq<Action>, more: seq<Action>)
    requires Runs(w, acts) && Runs(After(w, acts), more)
    ensures Runs(w, acts + more) && After(w, acts + more) == After(After(w, acts), more)
    decreases |acts|
  {
    if acts == [] {
      assert acts + more == more;
    } else {
      Extend(Apply(w, acts[0]), acts[1..], more);
      Prepend(w, acts[0], acts[1..] + more);
      assert [acts[0]] + (acts[1..] + more) == acts + more;
    }
  }
}
