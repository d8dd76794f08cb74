/** What one goroutine does by itself, whatever becomes of its operations: a reply that
    succeeds, fails or is interrupted, an event or an expiry whose store operations fail,
    recovery, and `Cancel`. */
module MachinePrograms {
  import opened Model
  import opened Machine
  import opened MachineSolo
  import Shared = MachineSafety

  // ----------------------------------------------------- runs with given outcomes

  /** Goroutine `id` makes one step for each outcome. */
  function Script(id: nat, outs: seq<Outcome>): seq<Action> {
    seq(|outs|, k requires 0 <= k < |outs| => Run(id, outs[k]))
  }

  predicate Follows(w: World, w': World, id: nat, outs: seq<Outcome>) {
    Runs(w, Script(id, outs)) && After(w, Script(id, outs)) == w'
  }

  lemma FollowsNothing(w: World, id: nat)
    ensures Follows(w, w, id, [])
  {
    assert Script(id, []) == [];
  }

  lemma FollowsStep(w: World, w1: World, id: nat, outs: seq<Outcome>, out: Outcome)
    requires Follows(w, w1, id, outs) && Enabled(w1, Run(id, out))
    ensures Follows(w, Step(w1, id, out), id, outs + [out])
  {
    var acts := Script(id, outs);
    Prepend(w1, Run(id, out), []);
    Extend(w, acts, [Run(id, out)] + []);
    assert acts + ([Run(id, out)] + []) == Script(id, outs + [out]);
  }

  lemma EffectAt(v: World, id: nat, inst: nat, pc: Pc, op: Op, out: Outcome)
    requires !op.StartAI?
    ensures Effect(At(v, id, inst, pc), id, inst, op, out) == At(Effect(v, id, inst, op, out), id, inst, pc)
    ensures Effect(v, id, inst, op, out).procs == v.procs
  {
    DoAt(v, id, inst, pc, op);
  }

  lemma NextSame(v: World, id: nat, inst: nat, pc: Pc, out: Outcome)
    ensures NextPc(At(v, id, inst, pc), inst, pc, out) == NextPc(v, inst, pc, out)
  {
  }

  /** One step with a given outcome. */
  lemma StepOut(w: World, v: World, id: nat, inst: nat, pc: Pc, outs: seq<Outcome>, out: Outcome)
    requires Follows(w, At(v, id, inst, pc), id, outs)
    requires Acquires(pc) && Applied(out) ==> v.lock.None?
    requires !OpAt(pc, out).StartAI?
    ensures var next := NextPc(v, inst, pc, out);
            var v' := Effect(v, id, inst, OpAt(pc, out), out);
            var w' := if next.Some? then At(v', id, inst, next.value) else v'.(procs := v.procs - {id});
            Follows(w, w', id, outs + [out])
  {
    hide Follows, NextPc, OpAt, Effect, Acquires;
    var w1, op := At(v, id, inst, pc), OpAt(pc, out);
    FollowsStep(w, w1, id, outs, out);
    NextSame(v, id, inst, pc, out);
    EffectAt(v, id, inst, pc, op, out);
    MoveAt(Effect(v, id, inst, op, out), id, inst, pc, NextPc(v, inst, pc, out));
  }

  /** The goroutine stands where it stands. */
  lemma Stands(w: World, id: nat)
    requires id in w.procs
    ensures At(w, id, w.procs[id].inst, w.procs[id].pc) == w
    ensures Follows(w, At(w, id, w.procs[id].inst, w.procs[id].pc), id, [])
  {
    assert w.procs[id := Proc(w.procs[id].inst, w.procs[id].pc)] == w.procs;
    FollowsNothing(w, id);
  }

  predicate Cleared(w: World) {
    w.stored == Absent && w.buffer == [] && w.attachments == [] && w.timer == None
  }

  /** Everything but the data, the entries, the history and the goroutine is as it was. */
  predicate Aside(w: World, w': World, id: nat) {
    && w'.procs == w.procs - {id} && w'.lock == w.lock && w'.now == w.now && w'.up == w.up
    && w'.cancelled == w.cancelled && w'.nextProc == w.nextProc && w'.nextGen == w.nextGen
    && w'.hist.launches == w.hist.launches
  }

  // -------------------------------------------------------------------- replies

  predicate InCall(w: World, id: nat) {
    id in w.procs && w.procs[id].pc.InReply? && (w.procs[id].pc.yat.Calling? || w.procs[id].pc.yat.Sending?)
  }

  /** An interrupted call, to the AI or to the CRM, ends the goroutine and nothing else: the
      data now belong to the turn that interrupted it. */
  lemma InterruptedReply(w: World, id: nat)
    requires InCall(w, id)
    ensures Follows(w, w.(procs := w.procs - {id}), id, [Interrupted])
  {
    Stands(w, id);
    StepOut(w, w, id, w.procs[id].inst, w.procs[id].pc, [], Interrupted);
    assert [] + [Interrupted] == [Interrupted];
  }

  predicate Replied(w: World, w': World, id: nat)
    requires id in w.procs
  {
    Cleared(w') && w'.entries == w.entries - {w.procs[id].inst} && Aside(w, w', id)
  }

  predicate GivenUp(w: World, w': World, id: nat) {
    Cleared(w') && w'.entries == w.entries && Aside(w, w', id)
  }

  /** A successful call and dispatch pass through the stages dispatch and done, and leave a
      cleared pair without its entry. */
  lemma SuccessfulReply(w: World, id: nat)
    requires id in w.procs && w.procs[id].pc.InReply? && w.procs[id].pc.yat.Calling?
    ensures var inst, gen := w.procs[id].inst, w.procs[id].pc.gen;
            && Follows(w, At(w.(stored := Dispatching), id, inst, InReply(gen, Sending)), id, [Ok, Ok])
            && Follows(w, At(w.(stored := Done), id, inst, InReply(gen, ClearDone)), id, [Ok, Ok, Ok, Ok])
    ensures exists w' :: Follows(w, w', id, [Ok, Ok, Ok, Ok, Ok, Ok]) && Replied(w, w', id)
  {
    hide Follows;
    var inst, gen := w.procs[id].inst, w.procs[id].pc.gen;
    ReachesSending(w, id);
    var w2, w4 := w.(stored := Dispatching), w.(stored := Done);
    StepOut(w, w2, id, inst, InReply(gen, Sending), [Ok, Ok], Ok);
    assert [Ok, Ok] + [Ok] == [Ok, Ok, Ok];
    StepOut(w, w2, id, inst, InReply(gen, MarkDone), [Ok, Ok, Ok], Ok);
    assert [Ok, Ok, Ok] + [Ok] == [Ok, Ok, Ok, Ok];
    ReplyEnds(w, w4, id, inst, gen, [Ok, Ok, Ok, Ok]);
    assert [Ok, Ok, Ok, Ok] + [Ok, Ok] == [Ok, Ok, Ok, Ok, Ok, Ok];
  }

  lemma ReachesSending(w: World, id: nat)
    requires id in w.procs && w.procs[id].pc.InReply? && w.procs[id].pc.yat.Calling?
    ensures var inst, gen := w.procs[id].inst, w.procs[id].pc.gen;
            Follows(w, At(w.(stored := Dispatching), id, inst, InReply(gen, Sending)), id, [Ok, Ok])
  {
    hide Follows;
    var inst, gen := w.procs[id].inst, w.procs[id].pc.gen;
    Stands(w, id);
    StepOut(w, w, id, inst, InReply(gen, Calling), [], Ok);
    assert [] + [Ok] == [Ok];
    StepOut(w, w, id, inst, InReply(gen, MarkDispatch), [Ok], Ok);
    assert [Ok] + [Ok] == [Ok, Ok];
  }

  lemma ReplyEnds(w: World, v: World, id: nat, inst: nat, gen: nat, outs: seq<Outcome>)
    requires id in w.procs && inst == w.procs[id].inst && v == w.(stored := v.stored)
    requires Follows(w, At(v, id, inst, InReply(gen, ClearDone)), id, outs)
    ensures exists w' :: Follows(w, w', id, outs + [Ok, Ok]) && Replied(w, w', id)
  {
    hide Follows;
    StepOut(w, v, id, inst, InReply(gen, ClearDone), outs, Ok);
    var v1 := Do(v, id, inst, ClearPair);
    StepOut(w, v1, id, inst, InReply(gen, DropEntry), outs + [Ok], Ok);
    var w' := Do(v1, id, inst, RemoveEntry).(procs := v.procs - {id});
    assert outs + [Ok] + [Ok] == outs + [Ok, Ok];
    assert Replied(w, w', id);
  }

  /** A call that fails, to the AI or to the CRM, clears the pair and keeps the entry. */
  lemma FailedReply(w: World, id: nat, out: Outcome)
    requires InCall(w, id) && (out.Fail? || out.FailApplied?)
    ensures exists w' :: Follows(w, w', id, [out, Ok, Ok]) && GivenUp(w, w', id)
  {
    hide Follows;
    var inst, gen := w.procs[id].inst, w.procs[id].pc.gen;
    Stands(w, id);
    StepOut(w, w, id, inst, w.procs[id].pc, [], out);
    assert [] + [out] == [out];
    ClearsAndNotifies(w, id, inst, gen, [out]);
    assert [out] + [Ok, Ok] == [out, Ok, Ok];
  }

  lemma ClearsAndNotifies(w: World, id: nat, inst: nat, gen: nat, outs: seq<Outcome>)
    requires id in w.procs && inst == w.procs[id].inst
    requires Follows(w, At(w, id, inst, InReply(gen, ClearOnError)), id, outs)
    ensures exists w' :: Follows(w, w', id, outs + [Ok, Ok]) && GivenUp(w, w', id)
  {
    hide Follows;
    StepOut(w, w, id, inst, InReply(gen, ClearOnError), outs, Ok);
    var v := Do(w, id, inst, ClearPair);
    StepOut(w, v, id, inst, InReply(gen, Notifying), outs + [Ok], Ok);
    var w' := v.(procs := w.procs - {id});
    assert outs + [Ok] + [Ok] == outs + [Ok, Ok];
    assert GivenUp(w, w', id);
  }

  /** So does a reply whose stage cannot be written. */
  lemma UnmarkedReply(w: World, id: nat)
    requires id in w.procs && w.procs[id].pc.InReply? && w.procs[id].pc.yat.MarkDispatch?
    ensures exists w' :: Follows(w, w', id, [Fail, Ok, Ok]) && GivenUp(w, w', id)
  {
    hide Follows;
    var inst, gen := w.procs[id].inst, w.procs[id].pc.gen;
    Stands(w, id);
    StepOut(w, w, id, inst, InReply(gen, MarkDispatch), [], Fail);
    assert [] + [Fail] == [Fail];
    ClearsAndNotifies(w, id, inst, gen, [Fail]);
    assert [Fail] + [Ok, Ok] == [Fail, Ok, Ok];
  }

  /** A panic in a call clears the pair and takes the entry away. */
  lemma PanickedReply(w: World, id: nat)
    requires InCall(w, id)
    ensures exists w' :: Follows(w, w', id, [Panic, Ok, Ok]) && Replied(w, w', id)
  {
    hide Follows;
    var inst, gen := w.procs[id].inst, w.procs[id].pc.gen;
    Stands(w, id);
    StepOut(w, w, id, inst, w.procs[id].pc, [], Panic);
    assert [] + [Panic] == [Panic];
    ReplyEnds(w, w, id, inst, gen, [Panic]);
    assert [Panic] + [Ok, Ok] == [Panic, Ok, Ok];
  }

  // ----------------------------------------- an interrupted reply over whole runs

  lemma NoReturn(w: World, a: Action, id: nat)
    requires Enabled(w, a) && id !in w.procs && id < w.nextProc
    ensures id !in Apply(w, a).procs && id < Apply(w, a).nextProc
  {
    hide NextPc, OpAt;
    if a.Run? {
      var pc := w.procs[a.id].pc;
      EffectAdds(w, a.id, w.procs[a.id].inst, OpAt(pc, a.out), a.out, id);
      hide Effect;
    }
  }

  lemma EffectAdds(w: World, id: nat, inst: nat, op: Op, out: Outcome, j: nat)
    requires j !in w.procs && j < w.nextProc
    ensures var w1 := Effect(w, id, inst, op, out); j !in w1.procs && j < w1.nextProc
  {
  }

  predicate Moves(a: Action, id: nat) {
    a.Run? && a.id == id
  }

  lemma {:induction false} GoneForGood(w: World, acts: seq<Action>, id: nat)
    requires Runs(w, acts) && id !in w.procs && id < w.nextProc
    ensures id !in After(w, acts).procs && forall k :: 0 <= k < |acts| ==> !Moves(acts[k], id)
    decreases |acts|
  {
    hide Enabled, Apply;
    if acts != [] {
      NoReturn(w, acts[0], id);
      assert !Moves(acts[0], id) by { NobodyMoves(w, acts[0], id); }
      GoneForGood(Apply(w, acts[0]), acts[1..], id);
    }
  }

  lemma NobodyMoves(w: World, a: Action, id: nat)
    requires Enabled(w, a) && id !in w.procs
    ensures !Moves(a, id)
  {
  }

  /** In every interleaving: a reply whose call is interrupted changes nothing when it is
      interrupted, and makes no step ever after. */
  lemma InterruptedForGood(w: World, id: nat, acts: seq<Action>)
    requires Reachable(w) && InCall(w, id)
    requires Enabled(w, Run(id, Interrupted)) && Runs(Apply(w, Run(id, Interrupted)), acts)
    ensures Apply(w, Run(id, Interrupted)) == w.(procs := w.procs - {id})
    ensures forall k :: 0 <= k < |acts| ==> !Moves(acts[k], id)
  {
    InterruptedStep(w, id);
    Shared.Reach(w);
    assert Shared.ProcOk(w, id, w.procs[id].pc);
    GoneForGood(w.(procs := w.procs - {id}), acts, id);
  }

  lemma InterruptedStep(w: World, id: nat)
    requires InCall(w, id)
    ensures Apply(w, Run(id, Interrupted)) == w.(procs := w.procs - {id})
  {
  }

  // ------------------------------------------------------- operations that fail

  predicate Inside(w: World, id: nat) {
    id in w.procs && w.lock == Some(id)
  }

  /** The points of `Process` between storing the entry of a turn and opening its window or
      starting its AI call. */
  function Unfinished(pc: Pc): Option<nat> {
    if !pc.InProcess? then None else
      match pc.pat
      case Appending(gen) => Some(gen)
      case Attaching(gen) => Some(gen)
      case Arming(gen) => Some(gen)
      case Opening(gen) => Some(gen)
      case Buffering(gen) => Some(gen)
      case Promoting(gen, _, _) => Some(gen)
      case _ => None
  }

  /** When an operation fails behind the storing of the entry, the entry is taken away again,
      its context cancelled and the lock released; nothing is launched. */
  lemma AbortedTurn(w: World, id: nat)
    requires Inside(w, id) && Unfinished(w.procs[id].pc).Some?
    ensures var gen := Unfinished(w.procs[id].pc).value;
            Follows(w, w.(cancelled := w.cancelled + {gen}, entries := w.entries - {w.procs[id].inst},
                          lock := None, procs := w.procs - {id}), id, [Fail, Ok, Ok, Ok])
  {
    hide Follows;
    var inst, ev, gen := w.procs[id].inst, w.procs[id].pc.ev, Unfinished(w.procs[id].pc).value;
    FailsAbort(w, id);
    StepOut(w, w, id, inst, InProcess(ev, Aborting(gen)), [Fail], Ok);
    assert [Fail] + [Ok] == [Fail, Ok];
    var v := w.(cancelled := w.cancelled + {gen});
    StepOut(w, v, id, inst, InProcess(ev, Dropping(gen)), [Fail, Ok], Ok);
    assert [Fail, Ok] + [Ok] == [Fail, Ok, Ok];
    StepOut(w, v.(entries := w.entries - {inst}), id, inst, InProcess(ev, Unlocking), [Fail, Ok, Ok], Ok);
    assert [Fail, Ok, Ok] + [Ok] == [Fail, Ok, Ok, Ok];
  }

  lemma FailsAbort(w: World, id: nat)
    requires Inside(w, id) && Unfinished(w.procs[id].pc).Some?
    ensures var Proc(inst, pc) := w.procs[id];
            Follows(w, At(w, id, inst, InProcess(pc.ev, Aborting(Unfinished(pc).value))), id, [Fail])
  {
    hide Follows;
    Stands(w, id);
    StepOut(w, w, id, w.procs[id].inst, w.procs[id].pc, [], Fail);
    assert [] + [Fail] == [Fail];
    hide Do, NextAdvance, NextRecover, NextReply, AdvanceOp, RecoverOp, ReplyOp, CancelOp;
  }

  /** The other points of a locked section whose failure ends it. */
  predicate Breaks(pc: Pc) {
    || (pc.InProcess? && (pc.pat.Reading? || pc.pat.Clearing? || pc.pat.ReAppending? || pc.pat.ReAttaching?
                          || pc.pat.ReArming?))
    || (pc.InAdvance? && !pc.boot && (pc.aat.AdvStage? || pc.aat.AdvTimer? || pc.aat.AdvBuffer? || pc.aat.AdvPromote?))
  }

  /** Any other operation of a locked section that fails ends the section: the lock is
      released and nothing else changes. */
  lemma BrokenSection(w: World, id: nat)
    requires Inside(w, id) && Breaks(w.procs[id].pc)
    ensures Follows(w, w.(lock := None, procs := w.procs - {id}), id, [Fail, Ok])
  {
    hide Follows, Breaks;
    var inst, pc := w.procs[id].inst, w.procs[id].pc;
    FailsUnlock(w, id);
    StepOut(w, w, id, inst, UnlockOf(pc), [Fail], Ok);
    assert [Fail] + [Ok] == [Fail, Ok];
  }

  function UnlockOf(pc: Pc): Pc {
    if pc.InProcess? then InProcess(pc.ev, Unlocking) else InAdvance(false, AdvUnlock)
  }

  lemma FailsUnlock(w: World, id: nat)
    requires Inside(w, id) && Breaks(w.procs[id].pc)
    ensures Follows(w, At(w, id, w.procs[id].inst, UnlockOf(w.procs[id].pc)), id, [Fail])
  {
    hide Follows;
    Stands(w, id);
    StepOut(w, w, id, w.procs[id].inst, w.procs[id].pc, [], Fail);
    assert [] + [Fail] == [Fail];
    hide Do, NextRecover, NextReply, RecoverOp, ReplyOp, CancelOp;
  }

  /** A lock that cannot be had ends `Process` and `advanceToAI` at once. */
  lemma LockedOut(w: World, id: nat)
    requires id in w.procs && Acquires(w.procs[id].pc) && (w.procs[id].pc.InAdvance? ==> !w.procs[id].pc.boot)
    ensures Follows(w, w.(procs := w.procs - {id}), id, [Fail])
  {
    Stands(w, id);
    StepOut(w, w, id, w.procs[id].inst, w.procs[id].pc, [], Fail);
    assert [] + [Fail] == [Fail];
  }

  /** Media that cannot be read cost the turn its media and nothing else: it goes on as if
      there were none. */
  lemma MediaUnread(w: World, id: nat)
    requires id in w.procs
    requires var pc := w.procs[id].pc; (pc.InProcess? && pc.pat.Collecting?) || (pc.InAdvance? && pc.aat.AdvMedia?)
    ensures var Proc(inst, pc) := w.procs[id];
            Follows(w, At(w, id, inst,
                          if pc.InProcess? then InProcess(pc.ev, Promoting(pc.pat.gen, pc.pat.message, []))
                          else InAdvance(pc.boot, AdvPromote(pc.aat.win, pc.aat.seen, pc.aat.message, []))), id, [Fail])
  {
    Stands(w, id);
    StepOut(w, w, id, w.procs[id].inst, w.procs[id].pc, [], Fail);
    assert [] + [Fail] == [Fail];
  }

  // ---------------------------------------------------------- Cancel by itself

  /** `Cancel` alone: the pair's context is cancelled, its entry taken away and its data cleared. */
  lemma SoloCancels(w: World, id: nat)
    requires id in w.procs && w.procs[id].pc == InCancel(CancelTake)
    ensures exists w' :: Leads(w, w', id) && Cancels(w, w', id)
  {
    hide Leads;
    var inst := w.procs[id].inst;
    Stands(w, id);
    LeadsNowhere(w, id);
    StepAt(w, w, id, inst, InCancel(CancelTake));
    var v := w.(entries := w.entries - {inst});
    if inst in w.entries {
      StepAt(w, v, id, inst, InCancel(CancelSignal(w.entries[inst].gen)));
      v := v.(cancelled := v.cancelled + {w.entries[inst].gen});
    }
    StepAt(w, v, id, inst, InCancel(CancelClear));
    assert Cancels(w, Do(v, id, inst, ClearPair).(procs := w.procs - {id}), id);
  }

  predicate Cancels(w: World, w': World, id: nat)
    requires id in w.procs
  {
    var inst := w.procs[id].inst;
    && Cleared(w') && w'.entries == w.entries - {inst}
    && w'.cancelled == w.cancelled + (if inst in w.entries then {w.entries[inst].gen} else {})
    && w'.procs == w.procs - {id} && w'.lock == w.lock && w'.hist.launches == w.hist.launches
  }

  // --------------------------------------------------------- recovery by itself

  /** What recovery leaves of a pair with a stored window: an entry, the old one or one with
      the persisted turn, and if the timer is gone the AI call of that entry. */
  predicate Recovers(w: World, w': World, id: nat, inst: nat)
    requires w.stored.Window?
  {
    && w'.entries == (if inst in w.entries then w.entries else w.entries[inst := Entry(w.nextGen, w.stored.turn)])
    && inst in w'.entries && w'.lock == None && w'.up == w.up && w'.cancelled == w.cancelled
    && w'.buffer == w.buffer && w'.attachments == w.attachments && w'.timer == w.timer
    && id in w'.procs && w'.procs[id] == Proc(inst, InRecover(RecNext))
    && if TimerRunning(w) then w'.stored == w.stored && w'.hist.launches == w.hist.launches
       else
         && w'.stored == AI
         && |w'.hist.launches| == |w.hist.launches| + 1
         && w'.hist.launches[..|w.hist.launches|] == w.hist.launches
         && var l := w'.hist.launches[|w.hist.launches|];
            l.gen == w'.entries[inst].gen && l.message == w.buffer && l.media == w.attachments
  }

  /** The world with the pair's entry, as recovery leaves it. */
  function WithEntry(w: World, id: nat, inst: nat): World
    requires w.stored.Window?
  {
    if inst in w.entries then w else Do(w, id, inst, StoreEntry(w.stored.turn, false))
  }

  lemma RecoveryFindsEntry(w: World, id: nat, inst: nat)
    requires id in w.procs && w.procs[id] == Proc(inst, InRecover(RecStage)) && w.stored.Window?
    ensures Leads(w, At(WithEntry(w, id, inst), id, inst, InRecover(RecTimer)), id)
  {
    hide Leads;
    Stands(w, id);
    LeadsNowhere(w, id);
    StepAt(w, w, id, inst, InRecover(RecStage));
    StepAt(w, w, id, inst, InRecover(RecLookup(w.stored.turn)));
    if inst !in w.entries {
      StepAt(w, w, id, inst, InRecover(RecStore(w.stored.turn)));
    }
  }

  /** One pair of `Start`, run alone: see Recovers. */
  lemma SoloRecovers(w: World, id: nat, inst: nat)
    requires id in w.procs && w.procs[id] == Proc(inst, InRecover(RecStage)) && w.stored.Window?
    requires w.lock.None? && w.nextProc !in w.procs
    ensures exists w' :: Leads(w, w', id) && Recovers(w, w', id, inst)
  {
    hide Leads, Recovers;
    var v := WithEntry(w, id, inst);
    RecoveryFindsEntry(w, id, inst);
    StepAt(w, v, id, inst, InRecover(RecTimer));
    if TimerRunning(w) {
      RecoveredWaiting(w, id, inst);
    } else {
      RecoveryAdvances(w, v, id, inst);
    }
  }

  lemma RecoveredWaiting(w: World, id: nat, inst: nat)
    requires id in w.procs && w.stored.Window? && TimerRunning(w) && w.lock.None?
    ensures Recovers(w, At(WithEntry(w, id, inst), id, inst, InRecover(RecNext)), id, inst)
  {
  }

  lemma RecoveryAdvances(w: World, v: World, id: nat, inst: nat)
    requires id in w.procs && w.stored.Window? && !TimerRunning(w) && w.lock.None? && w.nextProc !in w.procs
    requires v == WithEntry(w, id, inst) && Leads(w, At(v, id, inst, InAdvance(true, AdvLock)), id)
    ensures exists w' :: Leads(w, w', id) && Recovers(w, w', id, inst)
  {
    hide Leads, Recovers;
    StepAt(w, v, id, inst, InAdvance(true, AdvLock));
    var v1 := v.(lock := Some(id));
    StepAt(w, v1, id, inst, InAdvance(true, AdvStage));
    StepAt(w, v1, id, inst, InAdvance(true, AdvTimer(w.stored.id)));
    AdvanceReaches(w, v1, id, inst, true, w.stored.id, v1.hist.appended);
    var v2 := Do(v1.(stored := AI), id, inst,
                 StartAI(FromWindow(w.stored.id), v.buffer, v.attachments, v1.hist.appended));
    StepAt(w, v2, id, inst, InAdvance(true, AdvUnlock));
    RecoveredCalling(w, v, v2, id, inst);
  }

  lemma RecoveredCalling(w: World, v: World, v2: World, id: nat, inst: nat)
    requires id in w.procs && w.stored.Window? && !TimerRunning(w) && w.lock.None? && w.nextProc !in w.procs
    requires v == WithEntry(w, id, inst)
    requires v2 == Do(v.(lock := Some(id), stored := AI), id, inst,
                      StartAI(FromWindow(w.stored.id), v.buffer, v.attachments, v.hist.appended))
    ensures Recovers(w, At(Do(v2, id, inst, Release), id, inst, InRecover(RecNext)), id, inst)
  {
  }

  /** Recovery passes over a pair in any other stage, and when it has passed over all the
      instance is up. */
  lemma PassedOver(w: World, id: nat, inst: nat)
    requires id in w.procs && w.procs[id] == Proc(inst, InRecover(RecStage)) && !w.stored.Window?
    ensures Leads(w, At(w, id, inst, InRecover(RecNext)), id)
    ensures Leads(w, w.(up := w.up + {inst}, procs := w.procs - {id}), id)
  {
    hide Leads;
    Stands(w, id);
    LeadsNowhere(w, id);
    StepAt(w, w, id, inst, InRecover(RecStage));
    StepAt(w, w, id, inst, InRecover(RecNext));
  }
}
