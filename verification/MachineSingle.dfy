/** What holds of a single instance, which may crash and restart at any step. */
module MachineSingle {
  import opened Model
  import opened Machine
  import Shared = MachineSafety

  // ------------------------------------------------------------ definitions

  /** Every action is the environment's or concerns instance 0. */
  predicate Single(acts: seq<Action>) {
    forall k :: 0 <= k < |acts| ==> InstanceZero(acts[k])
  }

  predicate InstanceZero(a: Action) {
    match a
    case Handle(inst, _, _) => inst == 0
    case Poll(inst) => inst == 0
    case RequestCancel(inst) => inst == 0
    case Shutdown(inst) => inst == 0
    case Boot(inst) => inst == 0
    case Crash(inst) => inst == 0
    case _ => true
  }

  function LaunchedGens(ls: seq<Launch>): set<nat> {
    set k | 0 <= k < |ls| :: ls[k].gen
  }

  ghost predicate GensDistinct(ls: seq<Launch>) {
    forall i, j :: 0 <= i < j < |ls| ==> ls[i].gen != ls[j].gen
  }

  /** Part of `Start`. */
  predicate Booting(pc: Pc) {
    pc.InRecover? || (pc.InAdvance? && pc.boot)
  }

  /** The entry that `Process` has stored in the section it is in. */
  function Own(pc: Pc): Option<Entry> {
    if !pc.InProcess? then None else
      match pc.pat
      case Appending(gen) => Some(Entry(gen, pc.ev.turn))
      case Attaching(gen) => Some(Entry(gen, pc.ev.turn))
      case Arming(gen) => Some(Entry(gen, pc.ev.turn))
      case Opening(gen) => Some(Entry(gen, pc.ev.turn))
      case Buffering(gen) => Some(Entry(gen, pc.ev.turn))
      case Collecting(gen, _) => Some(Entry(gen, pc.ev.turn))
      case Promoting(gen, _, _) => Some(Entry(gen, pc.ev.turn))
      case Launching(gen, _, _) => Some(Entry(gen, pc.ev.turn))
      case Aborting(gen) => Some(Entry(gen, pc.ev.turn))
      case Dropping(gen) => Some(Entry(gen, pc.ev.turn))
      case _ => None
  }

  /** Program points at which the pair has no entry. */
  predicate Vacant(pc: Pc) {
    (pc.InProcess? && (pc.pat.Cancelling? || pc.pat.Clearing? || pc.pat.Storing?))
    || (pc.InRecover? && pc.rat.RecStore?)
  }

  /** The generation whose cancel function this goroutine is about to call after
      taking its entry out of the map. */
  function Taken(pc: Pc): Option<nat> {
    if pc.InProcess? && pc.pat.Cancelling? then Some(pc.pat.prev)
    else if pc.InCancel? && pc.cat.CancelSignal? then Some(pc.cat.prev)
    else None
  }

  function Recovering(pc: Pc): Option<Turn> {
    if pc.InRecover? && pc.rat.RecLookup? then Some(pc.rat.turn)
    else if pc.InRecover? && pc.rat.RecStore? then Some(pc.rat.turn)
    else None
  }

  // -------------------------------------------------------------- invariant

  predicate Fresh(w: World, gen: nat) {
    gen < w.nextGen && gen !in LaunchedGens(w.hist.launches)
  }

  predicate ProcOk(w: World, proc: Proc) {
    var pc := proc.pc;
    && proc.inst == 0
    && (0 in w.up ==> !Booting(pc))
    && (0 !in w.up ==> Booting(pc) || pc.InReply?)
    && (Own(pc).Some? ==>
          && Fresh(w, Own(pc).value.gen)
          && (0 in w.entries ==> w.entries[0] == Own(pc).value))
    && (Vacant(pc) ==> 0 !in w.entries)
    && (Taken(pc).Some? ==>
          Taken(pc).value < w.nextGen && (0 in w.entries ==> w.entries[0].gen != Taken(pc).value))
    && (Recovering(pc).Some? && w.stored.Window? ==> w.stored.turn == Recovering(pc).value)
    && (pc.InAdvance? && Shared.InHand(pc).Some? && 0 in w.entries ==> Fresh(w, w.entries[0].gen))
    && (pc.InReply? ==> pc.gen in LaunchedGens(w.hist.launches))
  }

  predicate SameReply(p: Pc, q: Pc) {
    p.InReply? && q.InReply? && p.gen == q.gen
  }

  ghost predicate ProcsOk(w: World) {
    && (forall id :: id in w.procs ==> ProcOk(w, w.procs[id]))
    && (forall i, j :: i in w.procs && j in w.procs && Booting(w.procs[i].pc) && Booting(w.procs[j].pc) ==> i == j)
    && (forall i, j :: i in w.procs && j in w.procs && SameReply(w.procs[i].pc, w.procs[j].pc) ==> i == j)
  }

  /** The stored debounce record and the entry in memory describe the same turn,
      and that turn has not been launched. */
  ghost predicate EntryMatches(w: World) {
    w.stored.Window? && 0 in w.entries ==>
      w.entries[0].turn == w.stored.turn && w.entries[0].gen !in LaunchedGens(w.hist.launches)
  }

  ghost predicate StoreOk(w: World) {
    && w.entries.Keys <= {0} && w.up <= {0}
    && (0 in w.entries ==> w.entries[0].gen < w.nextGen)
    && (forall g :: g in LaunchedGens(w.hist.launches) ==> g < w.nextGen)
    && (forall g :: g in w.cancelled ==> g < w.nextGen)
    && GensDistinct(w.hist.launches)
    && EntryMatches(w)
  }

  ghost predicate Inv(w: World) {
    Shared.Inv(w) && ProcsOk(w) && StoreOk(w)
  }

  // ------------------------------------------------------------ preservation

  lemma GensGrow(ls: seq<Launch>, l: Launch)
    ensures LaunchedGens(ls + [l]) == LaunchedGens(ls) + {l.gen}
  {
    var both := ls + [l];
    forall g | g in LaunchedGens(ls) + {l.gen} ensures g in LaunchedGens(both) {
      if g == l.gen {
        assert both[|ls|].gen == g;
      } else {
        var k :| 0 <= k < |ls| && ls[k].gen == g;
        assert both[k].gen == g;
      }
    }
  }

  /** When an operation keeps the shared part of the invariant. */
  predicate OpOk(w: World, op: Op) {
    match op
    case PutStage(s) => !s.Window?
    case OpenWindow(turn) => 0 in w.entries ==> w.entries[0].turn == turn && Fresh(w, w.entries[0].gen)
    case StoreEntry(turn, _) => w.stored.Window? ==> w.stored.turn == turn
    case StartAI(_, _, _, _) => !w.stored.Window? && (0 in w.entries ==> Fresh(w, w.entries[0].gen))
    case CancelGen(gen) => gen < w.nextGen
    case _ => true
  }

  lemma OpKeepsStore(w: World, id: nat, op: Op)
    requires StoreOk(w) && OpOk(w, op)
    ensures StoreOk(Do(w, id, 0, op))
  {
    if op.StartAI? && 0 in w.entries {
      GensGrow(w.hist.launches, Launch(w.entries[0].gen, op.source, op.message, op.media, w.now,
                                       w.hist.timer, op.seen, w.hist.appended, w.hist.writes));
    }
  }

  lemma ProgramOk(w: World, id: nat, proc: Proc, out: Outcome)
    requires StoreOk(w) && ProcOk(w, proc) && Shared.ProcOk(w, id, proc.pc)
    ensures OpOk(w, OpAt(proc.pc, out))
  {
  }

  /** No other goroutine is in a locked section or in recovery. */
  ghost predicate Alone(w: World, id: nat) {
    forall j :: j in w.procs && j != id ==> !Holding(w.procs[j].pc) && !Booting(w.procs[j].pc)
  }

  lemma AloneInSection(w: World, id: nat)
    requires Inv(w) && id in w.procs && (Holding(w.procs[id].pc) || Booting(w.procs[id].pc))
    ensures Alone(w, id)
  {
    assert ProcOk(w, w.procs[id]) && Shared.ProcOk(w, id, w.procs[id].pc);
    forall j | j in w.procs && j != id ensures !Holding(w.procs[j].pc) && !Booting(w.procs[j].pc) {
      assert ProcOk(w, w.procs[j]) && Shared.ProcOk(w, j, w.procs[j].pc);
    }
  }

  /** What the other goroutines need of a step of goroutine `id`. */
  ghost predicate Harmless(w: World, w1: World, id: nat) {
    && id in w.procs
    && w.nextGen <= w1.nextGen
    && LaunchedGens(w.hist.launches) <= LaunchedGens(w1.hist.launches)
    && (w1.up == w.up || (w1.up == {0} && Booting(w.procs[id].pc)))
    && (w1.stored.Window? ==> w1.stored == w.stored || 0 in w.up)
    && (w1.entries == w.entries || 0 !in w1.entries || (w1.entries[0].gen >= w.nextGen && Alone(w, id)))
    && (w1.hist.launches == w.hist.launches || Alone(w, id))
  }

  lemma OtherKeeps(w: World, w1: World, id: nat, j: nat)
    requires ProcsOk(w) && StoreOk(w) && j in w.procs && j != id
    requires Harmless(w, w1, id)
    ensures ProcOk(w1, w.procs[j])
  {
    assert ProcOk(w, w.procs[j]);
    if w1.up != w.up {
      assert !Booting(w.procs[j].pc);
    }
  }

  /** Which program points perform the operations that others could notice. */
  lemma NoticeableOps(pc: Pc, out: Outcome)
    ensures var op := OpAt(pc, out);
            && (op.StartAI? || op.StoreEntry? ==> Holding(pc) || Booting(pc))
            && (op.Serve? ==> Booting(pc))
            && (op.PutStage? ==> !op.s.Window?)
            && (op.OpenWindow? ==> pc.InProcess?)
  {
  }

  /** Which program points change the entries, open a window or end a recovery. */
  lemma EntryPoints(pc: Pc, out: Outcome)
    ensures var op := OpAt(pc, out);
            && (op.RemoveEntry? ==>
                  || (pc.InProcess? && (pc.pat.Taking? || pc.pat.Dropping?))
                  || (pc.InReply? && pc.yat.DropEntry?) || (pc.InCancel? && pc.cat.CancelTake?))
            && (op.StoreEntry? ==> (pc.InProcess? && pc.pat.Storing?) || (pc.InRecover? && pc.rat.RecStore?))
            && (op.OpenWindow? ==> pc.InProcess? && pc.pat.Opening?)
            && (op.Serve? ==> pc.InRecover? && pc.rat.RecNext?)
  {
  }

  lemma StepHarmless(w: World, id: nat, out: Outcome)
    requires Inv(w) && id in w.procs
    ensures Harmless(w, Effect(w, id, 0, OpAt(w.procs[id].pc, out), out), id)
  {
    var pc := w.procs[id].pc;
    var op := OpAt(pc, out);
    NoticeableOps(pc, out);
    assert ProcOk(w, w.procs[id]);
    if op.StartAI? || op.StoreEntry? {
      AloneInSection(w, id);
    }
    if op.StartAI? && 0 in w.entries {
      GensGrow(w.hist.launches, Launch(w.entries[0].gen, op.source, op.message, op.media, w.now,
                                       w.hist.timer, op.seen, w.hist.appended, w.hist.writes));
    }
    OpHarmless(w, id, op);
  }

  lemma OpHarmless(w: World, id: nat, op: Op)
    requires id in w.procs && StoreOk(w)
    requires op.StartAI? || op.StoreEntry? ==> Alone(w, id)
    requires op.StartAI? ==> LaunchedGens(w.hist.launches) <= LaunchedGens(Do(w, id, 0, op).hist.launches)
    requires op.Serve? ==> Booting(w.procs[id].pc)
    requires op.PutStage? ==> !op.s.Window?
    requires op.OpenWindow? ==> 0 in w.up
    ensures Harmless(w, Do(w, id, 0, op), id) && Harmless(w, w, id)
  {
  }

  // The goroutine's own obligations at its next program point.

  lemma ProcessNextOk(w: World, id: nat, proc: Proc, out: Outcome)
    requires StoreOk(w) && ProcOk(w, proc) && Shared.ProcOk(w, id, proc.pc) && proc.pc.InProcess?
    ensures var next := NextPc(w, 0, proc.pc, out);
            next.Some? ==> ProcOk(Effect(w, id, 0, OpAt(proc.pc, out), out), Proc(0, next.value))
  {
    if proc.pc.pat.Launching? {
      LastNextOk(w, id, proc, out);
    } else if Shared.BeforeEntry(proc.pc.pat) {
      BeforeEntryNextOk(w, id, proc, out);
    } else {
      AfterEntryNextOk(w, id, proc, out);
    }
  }

  lemma BeforeEntryNextOk(w: World, id: nat, proc: Proc, out: Outcome)
    requires StoreOk(w) && ProcOk(w, proc) && proc.pc.InProcess? && Shared.BeforeEntry(proc.pc.pat)
    ensures var next := NextPc(w, 0, proc.pc, out);
            next.Some? ==> ProcOk(Effect(w, id, 0, OpAt(proc.pc, out), out), Proc(0, next.value))
  {
  }

  lemma AfterEntryNextOk(w: World, id: nat, proc: Proc, out: Outcome)
    requires ProcOk(w, proc) && proc.pc.InProcess?
    requires !Shared.BeforeEntry(proc.pc.pat) && !proc.pc.pat.Launching?
    ensures var next := NextPc(w, 0, proc.pc, out);
            next.Some? ==> ProcOk(Effect(w, id, 0, OpAt(proc.pc, out), out), Proc(0, next.value))
  {
    if Shared.AfterEntry(proc.pc.pat) {
      StoredNextOk(w, id, proc, out);
    } else {
      LaterNextOk(w, id, proc, out);
    }
  }

  lemma StoredNextOk(w: World, id: nat, proc: Proc, out: Outcome)
    requires ProcOk(w, proc) && proc.pc.InProcess? && Shared.AfterEntry(proc.pc.pat)
    ensures var next := NextPc(w, 0, proc.pc, out);
            next.Some? ==> ProcOk(Effect(w, id, 0, OpAt(proc.pc, out), out), Proc(0, next.value))
  {
    hide NextAdvance, NextRecover, NextReply, AdvanceOp, RecoverOp, ReplyOp, CancelOp;
  }

  lemma LaterNextOk(w: World, id: nat, proc: Proc, out: Outcome)
    requires ProcOk(w, proc) && proc.pc.InProcess?
    requires !Shared.BeforeEntry(proc.pc.pat) && !Shared.AfterEntry(proc.pc.pat) && !proc.pc.pat.Launching?
    ensures var next := NextPc(w, 0, proc.pc, out);
            next.Some? ==> ProcOk(Effect(w, id, 0, OpAt(proc.pc, out), out), Proc(0, next.value))
  {
    hide NextAdvance, NextRecover, NextReply, AdvanceOp, RecoverOp, ReplyOp, CancelOp;
  }

  lemma LastNextOk(w: World, id: nat, proc: Proc, out: Outcome)
    requires ProcOk(w, proc) && proc.pc.InProcess? && proc.pc.pat.Launching?
    ensures var next := NextPc(w, 0, proc.pc, out);
            next.Some? ==> ProcOk(Effect(w, id, 0, OpAt(proc.pc, out), out), Proc(0, next.value))
  {
  }

  lemma AdvanceNextOk(w: World, id: nat, proc: Proc, out: Outcome)
    requires StoreOk(w) && ProcOk(w, proc) && proc.pc.InAdvance?
    ensures var next := NextPc(w, 0, proc.pc, out);
            next.Some? ==> ProcOk(Effect(w, id, 0, OpAt(proc.pc, out), out), Proc(0, next.value))
  {
  }

  lemma OutsideNextOk(w: World, id: nat, proc: Proc, out: Outcome)
    requires StoreOk(w) && ProcOk(w, proc) && !proc.pc.InProcess? && !proc.pc.InAdvance?
    ensures var next := NextPc(w, 0, proc.pc, out);
            next.Some? ==> ProcOk(Effect(w, id, 0, OpAt(proc.pc, out), out), Proc(0, next.value))
  {
  }

  lemma NextOk(w: World, id: nat, proc: Proc, out: Outcome)
    requires StoreOk(w) && ProcOk(w, proc) && Shared.ProcOk(w, id, proc.pc)
    ensures var next := NextPc(w, 0, proc.pc, out);
            next.Some? ==> ProcOk(Effect(w, id, 0, OpAt(proc.pc, out), out), Proc(0, next.value))
  {
    if proc.pc.InProcess? {
      ProcessNextOk(w, id, proc, out);
    } else if proc.pc.InAdvance? {
      AdvanceNextOk(w, id, proc, out);
    } else {
      OutsideNextOk(w, id, proc, out);
    }
  }

  /** A goroutine keeps its generation and does not enter or leave recovery. */
  lemma KindKept(w: World, pc: Pc, out: Outcome)
    ensures var next := NextPc(w, 0, pc, out);
            next.Some? ==>
              && Booting(next.value) == Booting(pc)
              && next.value.InReply? == pc.InReply?
              && (pc.InReply? ==> next.value.gen == pc.gen)
  {
  }

  lemma MoveKeepsProcs(w: World, w1: World, id: nat, next: Option<Pc>)
    requires ProcsOk(w) && id in w.procs && id in w1.procs
    requires forall j :: j in w1.procs && j != id ==> ProcOk(w1, w1.procs[j])
    requires next.Some? ==> ProcOk(w1, Proc(0, next.value))
    requires next.Some? ==> forall j :: j in w1.procs && j != id ==>
               !(Booting(next.value) && Booting(w1.procs[j].pc)) && !SameReply(next.value, w1.procs[j].pc)
    requires forall i, j :: i in w1.procs && j in w1.procs && i != id && j != id && i != j ==>
               !(Booting(w1.procs[i].pc) && Booting(w1.procs[j].pc)) && !SameReply(w1.procs[i].pc, w1.procs[j].pc)
    ensures ProcsOk(Move(w1, id, 0, next))
  {
    var w' := Move(w1, id, 0, next);
    forall j | j in w'.procs ensures ProcOk(w', w'.procs[j]) {
      if j != id {
        assert ProcOk(w1, w1.procs[j]);
      }
    }
  }

  lemma EffectKeepsOthers(w: World, id: nat, out: Outcome)
    requires Inv(w) && id in w.procs
    ensures var w1 := Effect(w, id, 0, OpAt(w.procs[id].pc, out), out);
            && id in w1.procs
            && (forall j :: j in w1.procs && j != id ==> ProcOk(w1, w1.procs[j]))
  {
    var op := OpAt(w.procs[id].pc, out);
    var w1 := Effect(w, id, 0, op, out);
    Shared.FreshId(w);
    SameProcs(w, id, op, out, id);
    StepHarmless(w, id, out);
    forall j | j in w1.procs && j != id ensures ProcOk(w1, w1.procs[j]) {
      OtherOrNewOk(w, w1, id, op, out, j);
    }
  }

  lemma OtherOrNewOk(w: World, w1: World, id: nat, op: Op, out: Outcome, j: nat)
    requires ProcsOk(w) && StoreOk(w) && w.nextProc !in w.procs
    requires w1 == Effect(w, id, 0, op, out) && Harmless(w, w1, id) && j in w1.procs && j != id
    ensures ProcOk(w1, w1.procs[j])
  {
    if j in w.procs {
      OtherKeeps(w, w1, id, j);
      SameProcs(w, id, op, out, j);
    } else {
      NewReplyOk(w, id, op, j);
    }
  }

  lemma SameProcs(w: World, id: nat, op: Op, out: Outcome, j: nat)
    requires w.nextProc !in w.procs && j in w.procs
    ensures var ps := Effect(w, id, 0, op, out).procs; j in ps && ps[j] == w.procs[j]
  {
  }

  lemma StepKeepsProcs(w: World, id: nat, out: Outcome)
    requires Inv(w) && Enabled(w, Run(id, out))
    ensures ProcsOk(Step(w, id, out))
  {
    var proc := w.procs[id];
    assert ProcOk(w, proc) && Shared.ProcOk(w, id, proc.pc);
    Shared.FreshId(w);
    ProgramOk(w, id, proc, out);
    EffectKeepsOthers(w, id, out);
    NextOk(w, id, proc, out);
    KindKept(w, proc.pc, out);
    NewReplyDistinct(w, id, OpAt(proc.pc, out), out);
    MoveKeepsProcs(w, Effect(w, id, 0, OpAt(proc.pc, out), out), id, NextPc(w, 0, proc.pc, out));
  }

  lemma NewReplyOk(w: World, id: nat, op: Op, j: nat)
    requires StoreOk(w) && j in Do(w, id, 0, op).procs && j !in w.procs
    requires w.up <= {0}
    ensures ProcOk(Do(w, id, 0, op), Do(w, id, 0, op).procs[j])
  {
    GensGrow(w.hist.launches, Launch(w.entries[0].gen, op.source, op.message, op.media, w.now,
                                     w.hist.timer, op.seen, w.hist.appended, w.hist.writes));
  }

  lemma NewReplyDistinct(w: World, id: nat, op: Op, out: Outcome)
    requires ProcsOk(w) && OpOk(w, op) && w.nextProc !in w.procs
    ensures var ps := Effect(w, id, 0, op, out).procs;
            forall i, j :: i in ps && j in ps && i != j ==>
              !(Booting(ps[i].pc) && Booting(ps[j].pc)) && !SameReply(ps[i].pc, ps[j].pc)
  {
    forall i | i in w.procs && w.procs[i].pc.InReply?
      ensures w.procs[i].pc.gen in LaunchedGens(w.hist.launches)
    {
      assert ProcOk(w, w.procs[i]);
    }
  }

  lemma MoveKeepsStore(w1: World, id: nat, next: Option<Pc>)
    requires StoreOk(w1)
    ensures StoreOk(Move(w1, id, 0, next))
  {
  }

  lemma StepKeeps(w: World, id: nat, out: Outcome)
    requires Inv(w) && Enabled(w, Run(id, out))
    ensures Inv(Apply(w, Run(id, out)))
  {
    var proc := w.procs[id];
    var op := OpAt(proc.pc, out);
    Shared.StepKeeps(w, id, out);
    StepKeepsProcs(w, id, out);
    assert StoreOk(Step(w, id, out)) by {
      assert ProcOk(w, proc) && Shared.ProcOk(w, id, proc.pc);
      ProgramOk(w, id, proc, out);
      OpKeepsStore(w, id, op);
      MoveKeepsStore(Effect(w, id, 0, op, out), id, NextPc(w, 0, proc.pc, out));
    }
  }

  lemma SpawnKeeps(w: World, w1: World, pc: Pc)
    requires ProcsOk(w) && StoreOk(w1) && w.nextProc !in w.procs && w1.procs == w.procs && w1.nextProc == w.nextProc
    requires forall j :: j in w.procs ==> ProcOk(w1, w.procs[j])
    requires ProcOk(w1, Proc(0, pc)) && !pc.InReply?
    requires Booting(pc) ==> w.procs == map[]
    ensures ProcsOk(Spawn(w1, 0, pc)) && StoreOk(Spawn(w1, 0, pc))
  {
    var w' := Spawn(w1, 0, pc);
    forall j | j in w'.procs ensures ProcOk(w', w'.procs[j]) {
      if j in w.procs {
        assert ProcOk(w1, w.procs[j]);
      }
    }
  }

  lemma CrashKeeps(w: World)
    requires ProcsOk(w) && StoreOk(w)
    ensures ProcsOk(Apply(w, Crash(0))) && StoreOk(Apply(w, Crash(0)))
    ensures Apply(w, Crash(0)).procs == map[]
  {
    forall j | j in w.procs ensures w.procs[j].inst == 0 {
      assert ProcOk(w, w.procs[j]);
    }
  }

  lemma EnvironmentKeeps(w: World, a: Action)
    requires Inv(w) && Enabled(w, a) && InstanceZero(a) && !a.Run?
    ensures Inv(Apply(w, a))
  {
    Shared.EnvironmentKeeps(w, a);
    Shared.FreshId(w);
    assert ProcsOk(Apply(w, a)) && StoreOk(Apply(w, a)) by {
      if a.Crash? {
        CrashKeeps(w);
      } else {
        var w1 := if a.Handle? && Applied(a.out) then w.(stored := Incoming) else w;
        forall j | j in w.procs ensures ProcOk(w1, w.procs[j]) && w.procs[j].inst == 0 {
          assert ProcOk(w, w.procs[j]);
        }
        SpawnsKeep(w, w1, a);
      }
    }
  }

  lemma SpawnsKeep(w: World, w1: World, a: Action)
    requires ProcsOk(w) && StoreOk(w) && StoreOk(w1) && w.nextProc !in w.procs
    requires Enabled(w, a) && InstanceZero(a) && !a.Run? && !a.Crash?
    requires w1 == if a.Handle? && Applied(a.out) then w.(stored := Incoming) else w
    requires forall j :: j in w.procs ==> ProcOk(w1, w.procs[j]) && w.procs[j].inst == 0
    ensures ProcsOk(Apply(w, a)) && StoreOk(Apply(w, a))
  {
    match a
    case Handle(_, ev, out) => SpawnKeeps(w, w1, InProcess(ev, Locking));
    case Poll(_) => SpawnKeeps(w, w, InAdvance(false, AdvLock));
    case RequestCancel(_) => SpawnKeeps(w, w, InCancel(CancelTake));
    case Boot(_) =>
      assert forall j :: j !in w.procs;
      SpawnKeeps(w, w, InRecover(RecStage));
    case _ =>
  }

  lemma ActionKeeps(w: World, a: Action)
    requires Inv(w) && Enabled(w, a) && InstanceZero(a)
    ensures Inv(Apply(w, a))
  {
    if a.Run? {
      StepKeeps(w, a.id, a.out);
    } else {
      EnvironmentKeeps(w, a);
    }
  }

  lemma {:induction false} RunKeeps(w: World, acts: seq<Action>)
    requires Inv(w) && Runs(w, acts) && Single(acts)
    ensures Inv(After(w, acts))
    decreases |acts|
  {
    if acts != [] {
      assert InstanceZero(acts[0]);
      ActionKeeps(w, acts[0]);
      RunKeeps(Apply(w, acts[0]), acts[1..]);
    }
  }

  // ---------------------------------------------------------------- theorems

  /** Some interleaving of one instance leads from the empty store to `w`. */
  ghost predicate SingleReachable(w: World) {
    exists init, acts :: Initial(init) && Single(acts) && Runs(init, acts) && After(init, acts) == w
  }

  lemma InitOk(w: World)
    requires Initial(w)
    ensures Inv(w)
  {
    Shared.InitOk(w);
    assert LaunchedGens(w.hist.launches) == {};
  }

  lemma Reach(w: World)
    requires SingleReachable(w)
    ensures Inv(w)
  {
    var init, acts :| Initial(init) && Single(acts) && Runs(init, acts) && After(init, acts) == w;
    InitOk(init);
    RunKeeps(init, acts);
  }

  /** A generation is launched into AI at most once, whatever old goroutines still
      write or delete. */
  lemma LaunchedOnce(w: World, i: nat, j: nat)
    requires SingleReachable(w) && i < j < |w.hist.launches|
    ensures w.hist.launches[i].gen != w.hist.launches[j].gen
  {
    Reach(w);
  }

  /** While the stored stage is debounce, an entry in memory carries exactly the
      turn persisted with the stage. */
  lemma EntryIsPersisted(w: World)
    requires SingleReachable(w) && w.stored.Window? && 0 in w.entries
    ensures w.entries[0].turn == w.stored.turn
  {
    Reach(w);
  }

  /** The restart that finds the pair: crash, boot, read the stage, look up the
      entry, store a new one. */
  function Restart(w: World): seq<Action> {
    [Crash(0), Boot(0), Run(w.nextProc, Ok), Run(w.nextProc, Ok), Run(w.nextProc, Ok)]
  }

  /** A crash at any step of a debounce window followed by `Start` rebuilds an entry
      for the same turn, not yet launched, and leaves the stored data alone. */
  lemma CrashRecovers(w: World)
    requires SingleReachable(w) && w.stored.Window? && 0 in w.entries
    ensures Runs(w, Restart(w))
    ensures var w' := After(w, Restart(w));
            && 0 in w'.entries
            && w'.entries[0].turn == w.entries[0].turn
            && Fresh(w', w'.entries[0].gen)
            && w'.stored == w.stored && w'.timer == w.timer
            && w'.buffer == w.buffer && w'.attachments == w.attachments
  {
    Reach(w);
    RestartRebuilds(w);
  }

  lemma RebootSteps(w2: World, id: nat, turn: Turn)
    requires w2.stored.Window? && w2.stored.turn == turn && w2.entries == map[]
    requires w2.procs == map[id := Proc(0, InRecover(RecStage))]
    ensures var acts := [Run(id, Ok), Run(id, Ok), Run(id, Ok)];
            && Runs(w2, acts)
            && After(w2, acts) == w2.(nextGen := w2.nextGen + 1, entries := map[0 := Entry(w2.nextGen, turn)],
                                      procs := map[id := Proc(0, InRecover(RecTimer))])
  {
    hide Enabled, Apply;
    var step := Run(id, Ok);
    var w3 := RebootStep(w2, id, RecStage);
    var w4 := RebootStep(w3, id, RecLookup(turn));
    var w5 := RebootStep(w4, id, RecStore(turn));
    Prepend(w4, step, []);
    Prepend(w3, step, [step]);
    Prepend(w2, step, [step, step]);
    assert [step] + [] == [step];
    assert [step] + [step] == [step, step];
    assert [step] + [step, step] == [step, step, step];
  }

  lemma RebootStep(w: World, id: nat, rat: RecoverAt) returns (w': World)
    requires w.procs == map[id := Proc(0, InRecover(rat))] && w.stored.Window? && w.entries == map[]
    requires rat == RecStage || rat == RecLookup(w.stored.turn) || rat == RecStore(w.stored.turn)
    ensures Enabled(w, Run(id, Ok)) && w' == Apply(w, Run(id, Ok))
    ensures w' ==
      if rat == RecStage then w.(procs := map[id := Proc(0, InRecover(RecLookup(w.stored.turn)))])
      else if rat.RecLookup? then w.(procs := map[id := Proc(0, InRecover(RecStore(w.stored.turn)))])
      else w.(nextGen := w.nextGen + 1, entries := map[0 := Entry(w.nextGen, w.stored.turn)],
              procs := map[id := Proc(0, InRecover(RecTimer))])
  {
    w' := Apply(w, Run(id, Ok));
  }

  lemma RestartRebuilds(w: World)
    requires Inv(w) && w.stored.Window?
    ensures Runs(w, Restart(w))
    ensures var w' := After(w, Restart(w));
            && w'.entries == map[0 := Entry(w.nextGen, w.stored.turn)]
            && w'.nextGen == w.nextGen + 1 && w'.hist == w.hist
            && w'.stored == w.stored && w'.timer == w.timer
            && w'.buffer == w.buffer && w'.attachments == w.attachments
            && Fresh(w', w.nextGen)
  {
    var id := w.nextProc;
    CrashKeeps(w);
    var w1 := Apply(w, Crash(0));
    var w2 := Apply(w1, Boot(0));
    var rest := [Run(id, Ok), Run(id, Ok), Run(id, Ok)];
    assert w1.entries == map[];
    RebootSteps(w2, id, w.stored.turn);
    Prepend(w1, Boot(0), rest);
    Prepend(w, Crash(0), [Boot(0)] + rest);
    assert Restart(w) == [Crash(0)] + ([Boot(0)] + rest);
  }
}
