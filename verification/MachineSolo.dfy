/** The steps of one goroutine run without interference or failure: together they do
    exactly what module Turns says of one event and of one expired timer. */
module MachineSolo {
  import opened Model
  import opened Machine
  import Turns

  // -------------------------------------------------------------- projection

  function StateOf(s: Stored): Option<Turns.PipelineState> {
    match s
    case Absent => None
    case Incoming => Some(Turns.Plain(Turns.StageIncoming))
    case Window(turn, _) => Some(Turns.Debouncing(turn))
    case AI => Some(Turns.Plain(Turns.StageAI))
    case Dispatching => Some(Turns.Plain(Turns.StageDispatch))
    case Done => Some(Turns.Plain(Turns.StageDone))
  }

  function View(w: World): Turns.PairData {
    Turns.PairData(StateOf(w.stored), w.buffer, w.attachments, w.timer)
  }

  // --------------------------------------------------------------- solo runs

  predicate OnlyRuns(acts: seq<Action>, id: nat) {
    forall k :: 0 <= k < |acts| ==> acts[k] == Run(id, Ok)
  }

  /** Goroutine `id` alone takes `w` to `w'`, every operation succeeding. */
  ghost predicate Leads(w: World, w': World, id: nat) {
    exists acts :: OnlyRuns(acts, id) && Runs(w, acts) && After(w, acts) == w'
  }

  lemma LeadsNowhere(w: World, id: nat)
    ensures Leads(w, w, id)
  {
    assert OnlyRuns([], id) && Runs(w, []) && After(w, []) == w;
  }

  lemma LeadsStep(w: World, w1: World, id: nat)
    requires Leads(w, w1, id) && Enabled(w1, Run(id, Ok))
    ensures Leads(w, Step(w1, id, Ok), id)
  {
    var acts :| OnlyRuns(acts, id) && Runs(w, acts) && After(w, acts) == w1;
    Prepend(w1, Run(id, Ok), []);
    Extend(w, acts, [Run(id, Ok)] + []);
    assert OnlyRuns(acts + ([Run(id, Ok)] + []), id);
  }

  /** Goroutine `id` stands at `pc`; everything else is as in `v`. */
  function At(v: World, id: nat, inst: nat, pc: Pc): World {
    v.(procs := v.procs[id := Proc(inst, pc)])
  }

  lemma DoAt(v: World, id: nat, inst: nat, pc: Pc, op: Op)
    requires !op.StartAI?
    ensures Do(At(v, id, inst, pc), id, inst, op) == At(Do(v, id, inst, op), id, inst, pc)
    ensures Do(v, id, inst, op).procs == v.procs
  {
  }

  lemma MoveAt(v: World, id: nat, inst: nat, pc: Pc, next: Option<Pc>)
    ensures Move(At(v, id, inst, pc), id, inst, next) ==
            if next.Some? then At(v, id, inst, next.value) else v.(procs := v.procs - {id})
  {
    assert v.procs[id := Proc(inst, pc)] - {id} == v.procs - {id};
    if next.Some? {
      assert v.procs[id := Proc(inst, pc)][id := Proc(inst, next.value)] == v.procs[id := Proc(inst, next.value)];
    }
  }

  lemma NextAt(v: World, id: nat, inst: nat, pc: Pc)
    ensures NextPc(At(v, id, inst, pc), inst, pc, Ok) == NextPc(v, inst, pc, Ok)
  {
  }

  lemma StepAt(w: World, v: World, id: nat, inst: nat, pc: Pc)
    requires Leads(w, At(v, id, inst, pc), id)
    requires Acquires(pc) ==> v.lock.None?
    requires !OpAt(pc, Ok).StartAI?
    ensures var next := NextPc(v, inst, pc, Ok);
            var v' := Do(v, id, inst, OpAt(pc, Ok));
            Leads(w, if next.Some? then At(v', id, inst, next.value) else v'.(procs := v.procs - {id}), id)
  {
    var w1 := At(v, id, inst, pc);
    LeadsStep(w, w1, id);
    NextAt(v, id, inst, pc);
    DoAt(v, id, inst, pc, OpAt(pc, Ok));
    MoveAt(Do(v, id, inst, OpAt(pc, Ok)), id, inst, pc, NextPc(v, inst, pc, Ok));
  }

  // ------------------------------------------------------ Process by itself

  /** The entry of the previous turn is taken and cancelled, an interrupted reply's
      data cleared. */
  function Cleaned(v: World, id: nat, inst: nat): World {
    var v1 := if inst in v.entries
              then Do(Do(v, id, inst, RemoveEntry), id, inst, CancelGen(v.entries[inst].gen)) else v;
    if v.stored.AI? || v.stored.Dispatching? then Do(v1, id, inst, ClearPair) else v1
  }

  /** The new entry is stored, the event buffered. */
  function Buffered(v: World, id: nat, inst: nat, ev: Event): World {
    var v1 := Do(v, id, inst, StoreEntry(ev.turn, ev.turn.cfg.debounceTime == 0));
    Do(Do(v1, id, inst, PushText(ev.content)), id, inst, PushMedia(ev.attachments))
  }

  function Opened(v: World, id: nat, inst: nat, ev: Event): World {
    Do(Do(v, id, inst, SetTimer(ev.turn.cfg.debounceTime)), id, inst, OpenWindow(ev.turn))
  }

  function Launched(v: World, id: nat, inst: nat, gen: nat): World {
    Do(Do(v, id, inst, PutStage(AI)), id, inst, StartAI(ZeroDebounce(gen), v.buffer, v.attachments, 0))
  }

  lemma ReachesStoring(w: World, id: nat, inst: nat, ev: Event)
    requires id in w.procs && w.procs[id] == Proc(inst, InProcess(ev, Locking)) && w.lock.None?
    requires !w.stored.Window? && !w.stored.Done?
    ensures Leads(w, At(Cleaned(w.(lock := Some(id)), id, inst), id, inst, InProcess(ev, Storing)), id)
  {
    hide Leads;
    var interrupt := w.stored.AI? || w.stored.Dispatching?;
    LeadsNowhere(w, id);
    assert At(w, id, inst, InProcess(ev, Locking)) == w;
    StepAt(w, w, id, inst, InProcess(ev, Locking));
    var v := w.(lock := Some(id));
    StepAt(w, v, id, inst, InProcess(ev, Reading));
    StepAt(w, v, id, inst, InProcess(ev, Taking(interrupt)));
    var v0 := Do(v, id, inst, RemoveEntry);
    var v1 := v;
    if inst in v.entries {
      v1 := Do(v0, id, inst, CancelGen(v.entries[inst].gen));
      StepAt(w, v0, id, inst, InProcess(ev, Cancelling(interrupt, v.entries[inst].gen)));
    } else {
      assert v0.entries == v.entries;
    }
    if interrupt {
      StepAt(w, v1, id, inst, InProcess(ev, Clearing));
    }
  }

  lemma ReachesBranch(w: World, v: World, id: nat, inst: nat, ev: Event)
    requires Leads(w, At(v, id, inst, InProcess(ev, Storing)), id)
    ensures Leads(w, At(Buffered(v, id, inst, ev), id, inst,
                        InProcess(ev, if ev.turn.cfg.debounceTime == 0
                                      then Buffering(v.nextGen) else Arming(v.nextGen))), id)
  {
    StepAt(w, v, id, inst, InProcess(ev, Storing));
    var v1 := Do(v, id, inst, StoreEntry(ev.turn, ev.turn.cfg.debounceTime == 0));
    StepAt(w, v1, id, inst, InProcess(ev, Appending(v.nextGen)));
    var v2 := Do(v1, id, inst, PushText(ev.content));
    StepAt(w, v2, id, inst, InProcess(ev, Attaching(v.nextGen)));
  }

  lemma ReachesOpened(w: World, v: World, id: nat, inst: nat, ev: Event, gen: nat)
    requires Leads(w, At(v, id, inst, InProcess(ev, Arming(gen))), id)
    ensures Leads(w, At(Opened(v, id, inst, ev), id, inst, InProcess(ev, Unlocking)), id)
  {
    StepAt(w, v, id, inst, InProcess(ev, Arming(gen)));
    var v1 := Do(v, id, inst, SetTimer(ev.turn.cfg.debounceTime));
    StepAt(w, v1, id, inst, InProcess(ev, Opening(gen)));
  }

  lemma ReachesLaunched(w: World, v: World, id: nat, inst: nat, ev: Event, gen: nat)
    requires Leads(w, At(v, id, inst, InProcess(ev, Buffering(gen))), id)
    requires inst in v.entries && id in v.procs && v.nextProc !in v.procs
    ensures Leads(w, At(Launched(v, id, inst, gen), id, inst, InProcess(ev, Unlocking)), id)
  {
    StepAt(w, v, id, inst, InProcess(ev, Buffering(gen)));
    StepAt(w, v, id, inst, InProcess(ev, Collecting(gen, v.buffer)));
    StepAt(w, v, id, inst, InProcess(ev, Promoting(gen, v.buffer, v.attachments)));
    LaunchStep(w, Do(v, id, inst, PutStage(AI)), id, inst, ev, gen, v.buffer, v.attachments);
  }

  lemma LaunchStep(w: World, v: World, id: nat, inst: nat, ev: Event, gen: nat,
                   msg: seq<string>, media: seq<Attachment>)
    requires Leads(w, At(v, id, inst, InProcess(ev, Launching(gen, msg, media))), id)
    requires inst in v.entries && id in v.procs && v.nextProc !in v.procs
    ensures var v' := Do(v, id, inst, StartAI(ZeroDebounce(gen), msg, media, 0));
            Leads(w, At(v', id, inst, InProcess(ev, Unlocking)), id)
  {
    hide Leads, NextAdvance, NextRecover, NextReply, AdvanceOp, RecoverOp, ReplyOp, CancelOp;
    var w1 := At(v, id, inst, InProcess(ev, Launching(gen, msg, media)));
    LeadsStep(w, w1, id);
    var v2 := Do(v, id, inst, StartAI(ZeroDebounce(gen), msg, media, 0));
    assert Step(w1, id, Ok).procs == At(v2, id, inst, InProcess(ev, Unlocking)).procs;
    assert Step(w1, id, Ok) == At(v2, id, inst, InProcess(ev, Unlocking));
  }

  /** The goroutine returns and the lock is free again. */
  function Returned(v: World, id: nat): World {
    v.(lock := None, procs := v.procs - {id})
  }

  /** The whole of `Process` alone, for an event that begins a turn. */
  function Begun(w: World, id: nat, inst: nat, ev: Event): World {
    var v := Buffered(Cleaned(w.(lock := Some(id)), id, inst), id, inst, ev);
    Returned(if ev.turn.cfg.debounceTime == 0 then Launched(v, id, inst, w.nextGen) else Opened(v, id, inst, ev), id)
  }

  lemma CleanedKeeps(v: World, id: nat, inst: nat)
    ensures var v1 := Cleaned(v, id, inst);
            && v1.nextGen == v.nextGen && v1.procs == v.procs && v1.up == v.up
            && v1.nextProc == v.nextProc && v1.now == v.now
            && v1.entries == v.entries - {inst}
            && v1.cancelled == v.cancelled + (if inst in v.entries then {v.entries[inst].gen} else {})
            && v1.hist.launches == v.hist.launches
  {
  }

  lemma BufferedKeeps(v: World, id: nat, inst: nat, ev: Event)
    ensures var v1 := Buffered(v, id, inst, ev);
            v1.procs == v.procs && v1.nextProc == v.nextProc && v1.cancelled == v.cancelled && v1.up == v.up
            && v1.now == v.now && v1.nextGen == v.nextGen + 1
            && v1.entries == v.entries[inst := Entry(v.nextGen, ev.turn)]
            && v1.hist.launches == v.hist.launches
  {
  }

  lemma SoloBegins(w: World, id: nat, inst: nat, ev: Event)
    requires id in w.procs && w.procs[id] == Proc(inst, InProcess(ev, Locking)) && w.lock.None?
    requires !w.stored.Window? && !w.stored.Done? && w.nextProc !in w.procs
    ensures Leads(w, Begun(w, id, inst, ev), id)
  {
    hide Cleaned, Buffered, Launched, Opened, Leads;
    var v0 := w.(lock := Some(id));
    var v1 := Cleaned(v0, id, inst);
    var v2 := Buffered(v1, id, inst, ev);
    CleanedKeeps(v0, id, inst);
    BufferedKeeps(v1, id, inst, ev);
    ReachesStoring(w, id, inst, ev);
    ReachesBranch(w, v1, id, inst, ev);
    if ev.turn.cfg.debounceTime == 0 {
      ReachesLaunched(w, v2, id, inst, ev, w.nextGen);
      StepAt(w, Launched(v2, id, inst, w.nextGen), id, inst, InProcess(ev, Unlocking));
    } else {
      ReachesOpened(w, v2, id, inst, ev, w.nextGen);
      StepAt(w, Opened(v2, id, inst, ev), id, inst, InProcess(ev, Unlocking));
    }
  }

  /** `Process` alone, for any event. */
  function SoloResult(w: World, id: nat, inst: nat, ev: Event): World {
    var v := w.(lock := Some(id));
    if w.stored.Done? then Returned(v, id)
    else if w.stored.Window? then
      Returned(Reset(v, id, inst, ev), id)
    else Begun(w, id, inst, ev)
  }

  lemma SoloRuns(w: World, id: nat, inst: nat, ev: Event)
    requires id in w.procs && w.procs[id] == Proc(inst, InProcess(ev, Locking)) && w.lock.None?
    requires w.nextProc !in w.procs
    ensures Leads(w, SoloResult(w, id, inst, ev), id)
  {
    if !w.stored.Window? && !w.stored.Done? {
      SoloBegins(w, id, inst, ev);
    } else {
      LeadsNowhere(w, id);
      assert At(w, id, inst, InProcess(ev, Locking)) == w;
      StepAt(w, w, id, inst, InProcess(ev, Locking));
      var v := w.(lock := Some(id));
      StepAt(w, v, id, inst, InProcess(ev, Reading));
      if w.stored.Done? {
        StepAt(w, v, id, inst, InProcess(ev, Unlocking));
      } else {
        SoloResets(w, v, id, inst, ev);
        Unlocks(w, Reset(v, id, inst, ev), id, inst, InProcess(ev, Unlocking));
      }
    }
  }

  function Reset(v: World, id: nat, inst: nat, ev: Event): World {
    Do(Do(Do(v, id, inst, PushText(ev.content)), id, inst, PushMedia(ev.attachments)),
       id, inst, SetTimer(ev.turn.cfg.debounceTime))
  }

  lemma SoloResets(w: World, v: World, id: nat, inst: nat, ev: Event)
    requires Leads(w, At(v, id, inst, InProcess(ev, ReAppending)), id)
    ensures Leads(w, At(Reset(v, id, inst, ev), id, inst, InProcess(ev, Unlocking)), id)
  {
    hide Do, Leads;
    StepAt(w, v, id, inst, InProcess(ev, ReAppending));
    var v1 := Do(v, id, inst, PushText(ev.content));
    StepAt(w, v1, id, inst, InProcess(ev, ReAttaching));
    var v2 := Do(v1, id, inst, PushMedia(ev.attachments));
    StepAt(w, v2, id, inst, InProcess(ev, ReArming));
  }

  lemma Unlocks(w: World, v: World, id: nat, inst: nat, pc: Pc)
    requires Leads(w, At(v, id, inst, pc), id)
    requires pc == InAdvance(false, AdvUnlock) || (pc.InProcess? && pc.pat.Unlocking?)
    ensures Leads(w, Returned(v, id), id)
  {
    StepAt(w, v, id, inst, pc);
  }

  lemma CleanedView(v: World, id: nat, inst: nat)
    ensures View(Cleaned(v, id, inst)) == Turns.Cleaned(View(v))
  {
  }

  lemma BegunView(w: World, id: nat, inst: nat, ev: Event)
    requires !w.stored.Window? && !w.stored.Done?
    ensures View(Begun(w, id, inst, ev)) == Turns.AfterEvent(View(w), w.now, ev)
  {
    hide Cleaned, Buffered, Launched, Opened;
    var v0 := w.(lock := Some(id));
    var v1 := Cleaned(v0, id, inst);
    var v2 := Buffered(v1, id, inst, ev);
    CleanedView(v0, id, inst);
    CleanedKeeps(v0, id, inst);
    BufferedView(v1, id, inst, ev);
    LaunchedView(v2, id, inst, w.nextGen);
    OpenedView(v2, id, inst, ev);
  }

  lemma LaunchedView(v: World, id: nat, inst: nat, gen: nat)
    ensures View(Launched(v, id, inst, gen)) == View(v).(state := Some(Turns.Plain(Turns.StageAI)))
  {
  }

  lemma OpenedView(v: World, id: nat, inst: nat, ev: Event)
    ensures View(Opened(v, id, inst, ev)) ==
            Turns.Armed(View(v), v.now, ev.turn.cfg).(state := Some(Turns.Debouncing(ev.turn)))
  {
  }

  lemma BufferedView(v: World, id: nat, inst: nat, ev: Event)
    ensures var v1 := Buffered(v, id, inst, ev);
            && v1.now == v.now
            && View(v1) == View(v).(buffer := v.buffer + [ev.content], attachments := v.attachments + ev.attachments)
  {
  }

  /** The steps of `Process`, run alone from any stage, do to the data, the entry, the
      contexts and the AI calls of the pair what the sequential service does. */
  lemma SoloIsSequential(w: World, id: nat, inst: nat, ev: Event)
    requires id in w.procs && w.procs[id] == Proc(inst, InProcess(ev, Locking)) && w.lock.None?
    requires w.nextProc !in w.procs
    ensures exists w' :: Leads(w, w', id) && SequentialEffect(w, w', id, inst, ev)
  {
    var w' := SoloResult(w, id, inst, ev);
    SoloRuns(w, id, inst, ev);
    hide Leads, SequentialEffect;
    if w.stored.Window? || w.stored.Done? {
      NothingBegun(w, id, inst, ev);
    } else {
      BegunView(w, id, inst, ev);
      BegunRest(w, id, inst, ev);
    }
  }

  lemma NothingBegun(w: World, id: nat, inst: nat, ev: Event)
    requires w.stored.Window? || w.stored.Done?
    ensures SequentialEffect(w, SoloResult(w, id, inst, ev), id, inst, ev)
  {
  }

  predicate SequentialEffect(w: World, w': World, id: nat, inst: nat, ev: Event) {
    var starts := Turns.StartsTurn(View(w));
    && View(w') == Turns.AfterEvent(View(w), w.now, ev)
    && w'.lock == None && id !in w'.procs
    && w'.entries == (if starts then w.entries[inst := Entry(w.nextGen, ev.turn)] else w.entries)
    && w'.cancelled == w.cancelled + (if starts && inst in w.entries then {w.entries[inst].gen} else {})
    && (if starts && ev.turn.cfg.debounceTime == 0 then
          && |w'.hist.launches| == |w.hist.launches| + 1
          && w'.hist.launches[..|w.hist.launches|] == w.hist.launches
          && var l := w'.hist.launches[|w.hist.launches|];
             l.gen == w.nextGen && l.message == w'.buffer && l.media == w'.attachments
        else w'.hist.launches == w.hist.launches)
  }

  lemma BegunRest(w: World, id: nat, inst: nat, ev: Event)
    requires !w.stored.Window? && !w.stored.Done? && id in w.procs && w.nextProc !in w.procs
    requires View(Begun(w, id, inst, ev)) == Turns.AfterEvent(View(w), w.now, ev)
    ensures SequentialEffect(w, Begun(w, id, inst, ev), id, inst, ev)
  {
    var v0 := w.(lock := Some(id));
    CleanedKeeps(v0, id, inst);
    BufferedKeeps(Cleaned(v0, id, inst), id, inst, ev);
    assert w.entries[inst := Entry(w.nextGen, ev.turn)] == (w.entries - {inst})[inst := Entry(w.nextGen, ev.turn)];
    if ev.turn.cfg.debounceTime == 0 {
      LaunchedKeeps(Buffered(Cleaned(v0, id, inst), id, inst, ev), id, inst, w.nextGen);
    } else {
      OpenedKeeps(Buffered(Cleaned(v0, id, inst), id, inst, ev), id, inst, ev);
    }
  }

  lemma BegunLaunches(w: World, id: nat, inst: nat, ev: Event)
    requires !w.stored.Window? && !w.stored.Done? && id in w.procs && w.nextProc !in w.procs
    requires ev.turn.cfg.debounceTime == 0
    ensures var w' := Begun(w, id, inst, ev);
            && w'.procs == (w.procs - {id})[w.nextProc := Proc(inst, InReply(w.nextGen, Calling))]
            && w'.nextProc == w.nextProc + 1 && w'.nextGen == w.nextGen + 1 && w'.up == w.up && w'.stored == AI
  {
    var v0 := w.(lock := Some(id));
    var v2 := Buffered(Cleaned(v0, id, inst), id, inst, ev);
    CleanedKeeps(v0, id, inst);
    BufferedKeeps(Cleaned(v0, id, inst), id, inst, ev);
    LaunchedKeeps(v2, id, inst, w.nextGen);
    assert v2.procs[w.nextProc := Proc(inst, InReply(w.nextGen, Calling))] - {id} ==
           (w.procs - {id})[w.nextProc := Proc(inst, InReply(w.nextGen, Calling))];
  }

  lemma OpenedKeeps(v: World, id: nat, inst: nat, ev: Event)
    ensures var v1 := Opened(v, id, inst, ev);
            && v1.entries == v.entries && v1.cancelled == v.cancelled && v1.procs == v.procs
            && v1.hist.launches == v.hist.launches
  {
  }

  lemma LaunchedKeeps(v: World, id: nat, inst: nat, gen: nat)
    requires inst in v.entries && v.entries[inst].gen == gen
    ensures var v1 := Launched(v, id, inst, gen);
            && v1.entries == v.entries && v1.cancelled == v.cancelled && v1.up == v.up
            && v1.nextProc == v.nextProc + 1 && v1.nextGen == v.nextGen && v1.stored == AI
            && v1.buffer == v.buffer && v1.attachments == v.attachments
            && v1.procs == v.procs[v.nextProc := Proc(inst, InReply(gen, Calling))]
            && |v1.hist.launches| == |v.hist.launches| + 1
            && v1.hist.launches[..|v.hist.launches|] == v.hist.launches
            && var l := v1.hist.launches[|v.hist.launches|];
               l.gen == gen && l.message == v.buffer && l.media == v.attachments
  {
  }

  // --------------------------------------------------- advanceToAI by itself

  /** The steps of `advanceToAI`, run alone by the poller, do to the data of the pair
      what the sequential service does, and start the entry's AI turn just when it is
      due. */
  lemma SoloAdvances(w: World, id: nat, inst: nat)
    requires id in w.procs && w.procs[id] == Proc(inst, InAdvance(false, AdvLock)) && w.lock.None?
    requires w.nextProc !in w.procs
    ensures exists w' :: Leads(w, w', id) && AdvanceEffect(w, w', id, inst)
  {
    hide Leads, AdvanceEffect;
    LeadsNowhere(w, id);
    assert At(w, id, inst, InAdvance(false, AdvLock)) == w;
    StepAt(w, w, id, inst, InAdvance(false, AdvLock));
    var v := w.(lock := Some(id));
    StepAt(w, v, id, inst, InAdvance(false, AdvStage));
    if w.stored.Window? {
      StepAt(w, v, id, inst, InAdvance(false, AdvTimer(w.stored.id)));
    }
    if w.stored.Window? && !TimerRunning(v) {
      AdvanceLaunches(w, v, id, inst);
    } else {
      Unlocks(w, v, id, inst, InAdvance(false, AdvUnlock));
      NothingDue(w, v, id, inst);
    }
  }

  lemma NothingDue(w: World, v: World, id: nat, inst: nat)
    requires v == w.(lock := Some(id)) && !(w.stored.Window? && !TimerRunning(w))
    ensures AdvanceEffect(w, Returned(v, id), id, inst)
  {
  }

  predicate AdvanceEffect(w: World, w': World, id: nat, inst: nat) {
    && View(w') == Turns.AfterAdvance(View(w), w.now)
    && w'.lock == None && id !in w'.procs && w'.entries == w.entries && w'.cancelled == w.cancelled
    && (if Turns.Due(View(w), w.now) && inst in w.entries then
          && |w'.hist.launches| == |w.hist.launches| + 1
          && w'.hist.launches[..|w.hist.launches|] == w.hist.launches
          && var l := w'.hist.launches[|w.hist.launches|];
             l.gen == w.entries[inst].gen && l.message == w.buffer && l.media == w.attachments
        else w'.hist.launches == w.hist.launches)
  }

  lemma AdvanceLaunches(w: World, v: World, id: nat, inst: nat)
    requires v == w.(lock := Some(id)) && w.stored.Window? && !TimerRunning(w)
    requires id in w.procs && w.nextProc !in w.procs
    requires Leads(w, At(v, id, inst, InAdvance(false, AdvBuffer(w.stored.id, w.hist.appended))), id)
    ensures exists w' :: Leads(w, w', id) && AdvanceEffect(w, w', id, inst)
  {
    var win, seen := w.stored.id, w.hist.appended;
    AdvanceReaches(w, v, id, inst, false, win, seen);
    var v2 := Do(v.(stored := AI), id, inst, StartAI(FromWindow(win), v.buffer, v.attachments, seen));
    Unlocks(w, v2, id, inst, InAdvance(false, AdvUnlock));
    AdvanceEffectHolds(w, v, v2, id, inst, win, seen);
  }

  /** From the buffer read to the release of the lock, for the poller and for recovery. */
  lemma AdvanceReaches(w: World, v: World, id: nat, inst: nat, boot: bool, win: nat, seen: nat)
    requires Leads(w, At(v, id, inst, InAdvance(boot, AdvBuffer(win, seen))), id)
    requires id in v.procs && v.nextProc !in v.procs
    ensures var v2 := Do(v.(stored := AI), id, inst, StartAI(FromWindow(win), v.buffer, v.attachments, seen));
            Leads(w, At(v2, id, inst, InAdvance(boot, AdvUnlock)), id)
  {
    hide Leads;
    StepAt(w, v, id, inst, InAdvance(boot, AdvBuffer(win, seen)));
    StepAt(w, v, id, inst, InAdvance(boot, AdvMedia(win, seen, v.buffer)));
    StepAt(w, v, id, inst, InAdvance(boot, AdvPromote(win, seen, v.buffer, v.attachments)));
    AdvanceLaunchStep(w, v.(stored := AI), id, inst, boot, win, seen, v.buffer, v.attachments);
  }

  lemma AdvanceEffectHolds(w: World, v: World, v2: World, id: nat, inst: nat, win: nat, seen: nat)
    requires v == w.(lock := Some(id)) && w.stored.Window? && !TimerRunning(w)
    requires v2 == Do(v.(stored := AI), id, inst, StartAI(FromWindow(win), v.buffer, v.attachments, seen))
    ensures AdvanceEffect(w, Returned(v2, id), id, inst)
  {
  }

  lemma AdvanceLaunchStep(w: World, v: World, id: nat, inst: nat, boot: bool, win: nat, seen: nat,
                          msg: seq<string>, media: seq<Attachment>)
    requires Leads(w, At(v, id, inst, InAdvance(boot, AdvLaunch(win, seen, msg, media))), id)
    requires id in v.procs && v.nextProc !in v.procs
    ensures var v' := Do(v, id, inst, StartAI(FromWindow(win), msg, media, seen));
            Leads(w, At(v', id, inst, InAdvance(boot, AdvUnlock)), id)
  {
    hide Leads, NextProcess, NextRecover, NextReply, ProcessOp, RecoverOp, ReplyOp, CancelOp;
    var w1 := At(v, id, inst, InAdvance(boot, AdvLaunch(win, seen, msg, media)));
    LeadsStep(w, w1, id);
    var v2 := Do(v, id, inst, StartAI(FromWindow(win), msg, media, seen));
    assert Step(w1, id, Ok).procs == At(v2, id, inst, InAdvance(boot, AdvUnlock)).procs;
    assert Step(w1, id, Ok) == At(v2, id, inst, InAdvance(boot, AdvUnlock));
  }
}
