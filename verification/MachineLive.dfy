/** One live pipeline per pair: exactly when a single instance has it, and that it
    does under the discipline that the comments of the source ask for. */
module MachineLive {
  import opened Model
  import opened Machine
  import opened MachineSingle
  import Shared = MachineSafety

  // ------------------------------------------------------------ definitions

  ghost predicate HasReply(w: World, gen: nat) {
    exists id :: id in w.procs && w.procs[id].pc.InReply? && w.procs[id].pc.gen == gen
  }

  /** The generation of the pair's entry, if it has one. */
  predicate InEntries(w: World, gen: nat) {
    0 in w.entries && w.entries[0].gen == gen
  }

  /** Somebody has taken the entry out of the map and is about to cancel it. */
  ghost predicate BeingCancelled(w: World, gen: nat) {
    exists id :: id in w.procs && Taken(w.procs[id].pc) == Some(gen)
  }

  /** Uncancelled, and debouncing (in `entries`) or with a goroutine of its reply under way:
      calling AI, dispatching or finishing. */
  ghost predicate Live(w: World, gen: nat) {
    gen !in w.cancelled && (InEntries(w, gen) || HasReply(w, gen))
  }

  /** Every live generation is the one in `entries`, or is on its way out. */
  ghost predicate LiveOwned(w: World) {
    forall id :: id in w.procs && w.procs[id].pc.InReply? && w.procs[id].pc.gen !in w.cancelled ==>
      InEntries(w, w.procs[id].pc.gen) || BeingCancelled(w, w.procs[id].pc.gen)
  }

  /** The last step of a finished turn deletes the entry of another turn whose reply
      is still on its way. */
  ghost predicate ForeignDrop(w: World, a: Action) {
    && a.Run? && a.id in w.procs && w.procs[a.id].pc.InReply? && w.procs[a.id].pc.yat.DropEntry?
    && 0 in w.entries
    && var g := w.entries[0].gen;
       g != w.procs[a.id].pc.gen && g !in w.cancelled && HasReply(w, g)
  }

  // ------------------------------------------------- the exact condition

  lemma EffectOnProcs(w: World, id: nat, op: Op, out: Outcome)
    requires w.nextProc !in w.procs
    ensures var w1 := Effect(w, id, 0, op, out);
            && w.cancelled <= w1.cancelled
            && (forall j :: j in w.procs ==> j in w1.procs && w1.procs[j] == w.procs[j])
            && (forall j :: j in w1.procs && j !in w.procs ==>
                  w1.procs[j].pc.InReply? && InEntries(w1, w1.procs[j].pc.gen))
            && (op.CancelGen? ==> op.gen in w1.cancelled)
            && (0 in w.entries && !InEntries(w1, w.entries[0].gen) ==> op.RemoveEntry? || op.StoreEntry?)
  {
  }

  lemma CancellersCancel(w: World, pc: Pc, out: Outcome)
    requires Taken(pc).Some?
    ensures OpAt(pc, out) == CancelGen(Taken(pc).value)
  {
  }

  /** An entry goes away into the hand of a canceller, by DropEntry, or unlaunched. */
  lemma EntryFate(w: World, id: nat, out: Outcome)
    requires Inv(w) && id in w.procs && 0 in w.entries
    requires OpAt(w.procs[id].pc, out).RemoveEntry? || OpAt(w.procs[id].pc, out).StoreEntry?
    ensures var pc := w.procs[id].pc;
            var next := NextPc(w, 0, pc, out);
            || (next.Some? && Taken(next.value) == Some(w.entries[0].gen))
            || (pc.InReply? && pc.yat.DropEntry?)
            || w.entries[0].gen !in LaunchedGens(w.hist.launches)
  {
    hide OpAt, Shared.Inv;
    EntryPoints(w.procs[id].pc, out);
    assert ProcOk(w, w.procs[id]);
    hide Inv;
  }

  lemma OwnedStays(w: World, id: nat, out: Outcome, j: nat)
    requires Inv(w) && LiveOwned(w) && Enabled(w, Run(id, out)) && !ForeignDrop(w, Run(id, out))
    requires j in w.procs && j != id && w.procs[j].pc.InReply?
    requires w.procs[j].pc.gen !in Step(w, id, out).cancelled
    ensures var g := w.procs[j].pc.gen;
            InEntries(Step(w, id, out), g) || BeingCancelled(Step(w, id, out), g)
  {
    hide NextPc, OpAt, Effect, StoreOk;
    var g := w.procs[j].pc.gen;
    var pc := w.procs[id].pc;
    var op := OpAt(pc, out);
    var w1 := Effect(w, id, 0, op, out);
    var w' := Step(w, id, out);
    Shared.FreshId(w);
    EffectOnProcs(w, id, op, out);
    assert ProcOk(w, w.procs[j]);
    if InEntries(w, g) {
      if !InEntries(w1, g) {
        EntryFate(w, id, out);
        if pc.InReply? && pc.yat.DropEntry? {
          assert false;
        } else {
          assert Taken(w'.procs[id].pc) == Some(g);
        }
      }
    } else {
      var k :| k in w.procs && Taken(w.procs[k].pc) == Some(g);
      CancellersCancel(w, w.procs[k].pc, out);
      assert w'.procs[k] == w.procs[k];
    }
  }

  lemma StepKeepsOwned(w: World, id: nat, out: Outcome)
    requires Inv(w) && LiveOwned(w) && Enabled(w, Run(id, out)) && !ForeignDrop(w, Run(id, out))
    ensures LiveOwned(Step(w, id, out))
  {
    var pc := w.procs[id].pc;
    var w' := Step(w, id, out);
    forall j | j in w'.procs && w'.procs[j].pc.InReply? && w'.procs[j].pc.gen !in w'.cancelled
      ensures InEntries(w', w'.procs[j].pc.gen) || BeingCancelled(w', w'.procs[j].pc.gen)
    {
      Shared.FreshId(w);
      EffectOnProcs(w, id, OpAt(pc, out), out);
      if j == id {
        SelfOwned(w, id, out);
      } else if j in w.procs {
        OwnedStays(w, id, out, j);
      }
    }
  }

  /** A reply goroutine that goes on leaves the entries and the other goroutines alone. */
  lemma ReplyGoesOn(w: World, id: nat, out: Outcome)
    requires id in w.procs && w.procs[id].pc.InReply? && id in Step(w, id, out).procs
    ensures var w' := Step(w, id, out);
            && w'.entries == w.entries && w'.cancelled == w.cancelled
            && forall k :: k in w.procs && k != id ==> k in w'.procs && w'.procs[k] == w.procs[k]
  {
    hide NextProcess, NextAdvance, NextRecover, ProcessOp, AdvanceOp, RecoverOp, CancelOp;
  }

  lemma SelfOwned(w: World, id: nat, out: Outcome)
    requires Inv(w) && LiveOwned(w) && Enabled(w, Run(id, out))
    requires var w' := Step(w, id, out);
             id in w'.procs && w'.procs[id].pc.InReply? && w'.procs[id].pc.gen !in w'.cancelled
    ensures var w' := Step(w, id, out);
            InEntries(w', w'.procs[id].pc.gen) || BeingCancelled(w', w'.procs[id].pc.gen)
  {
    hide NextPc, OpAt, Effect, Shared.Inv, StoreOk;
    var w' := Step(w, id, out);
    KindKept(w, w.procs[id].pc, out);
    assert ProcOk(w, w.procs[id]);
    ReplyGoesOn(w, id, out);
    var g := w.procs[id].pc.gen;
    if !InEntries(w, g) {
      var k :| k in w.procs && Taken(w.procs[k].pc) == Some(g);
      assert w'.procs[k] == w.procs[k];
    }
  }

  lemma EnvironmentOnProcs(w: World, a: Action)
    requires Enabled(w, a) && InstanceZero(a) && !a.Run? && !a.Crash? && w.nextProc !in w.procs
    ensures var w' := Apply(w, a);
            && w'.entries == w.entries && w.cancelled <= w'.cancelled
            && (forall j :: j in w.procs ==> j in w'.procs && w'.procs[j] == w.procs[j])
            && (forall j :: j in w'.procs && j !in w.procs ==>
                  !w'.procs[j].pc.InReply? && !Holding(w'.procs[j].pc) && !Signalling(w'.procs[j].pc))
  {
  }

  lemma EnvironmentKeepsOwned(w: World, a: Action)
    requires Inv(w) && LiveOwned(w) && Enabled(w, a) && InstanceZero(a) && !a.Run?
    ensures LiveOwned(Apply(w, a))
  {
    var w' := Apply(w, a);
    Shared.FreshId(w);
    if a.Crash? {
      CrashKeeps(w);
    } else {
      EnvironmentOnProcs(w, a);
      hide Inv, Apply;
      forall j | j in w'.procs && w'.procs[j].pc.InReply? && w'.procs[j].pc.gen !in w'.cancelled
        ensures InEntries(w', w'.procs[j].pc.gen) || BeingCancelled(w', w'.procs[j].pc.gen)
      {
        if !InEntries(w, w.procs[j].pc.gen) {
          var k :| k in w.procs && Taken(w.procs[k].pc) == Some(w.procs[j].pc.gen);
          assert w'.procs[k] == w.procs[k];
        }
      }
    }
  }

  /** The step named by ForeignDrop leaves a live generation that `cancelPair` can no
      longer find. */
  lemma ForeignDropBreaks(w: World, a: Action)
    requires Inv(w) && Enabled(w, a) && ForeignDrop(w, a)
    ensures !LiveOwned(Apply(w, a))
  {
    hide NextProcess, NextAdvance, NextRecover, ProcessOp, AdvanceOp, RecoverOp, CancelOp, Shared.Inv;
    var w' := Apply(w, a);
    var g := w.entries[0].gen;
    var j :| j in w.procs && w.procs[j].pc.InReply? && w.procs[j].pc.gen == g;
    assert ProcOk(w, w.procs[a.id]);
    assert w'.procs[j] == w.procs[j];
    forall k | k in w'.procs ensures Taken(w'.procs[k].pc) != Some(g) {
      assert ProcOk(w, w.procs[k]);
    }
  }

  ghost predicate AlwaysOwned(w: World, acts: seq<Action>)
    requires Runs(w, acts)
    decreases |acts|
  {
    LiveOwned(w) && (acts != [] ==> AlwaysOwned(Apply(w, acts[0]), acts[1..]))
  }

  ghost predicate NoForeignDrop(w: World, acts: seq<Action>)
    requires Runs(w, acts)
    decreases |acts|
  {
    acts != [] ==> !ForeignDrop(w, acts[0]) && NoForeignDrop(Apply(w, acts[0]), acts[1..])
  }

  lemma {:induction false} OwnedIff(w: World, acts: seq<Action>)
    requires Inv(w) && LiveOwned(w) && Runs(w, acts) && Single(acts)
    ensures AlwaysOwned(w, acts) <==> NoForeignDrop(w, acts)
    decreases |acts|
  {
    if acts != [] {
      var w' := Apply(w, acts[0]);
      assert InstanceZero(acts[0]);
      ActionKeeps(w, acts[0]);
      if ForeignDrop(w, acts[0]) {
        ForeignDropBreaks(w, acts[0]);
      } else {
        if acts[0].Run? {
          StepKeepsOwned(w, acts[0].id, acts[0].out);
        } else {
          EnvironmentKeepsOwned(w, acts[0]);
        }
        OwnedIff(w', acts[1..]);
      }
    }
  }

  /** Over every run of one instance: each live generation stays where `cancelPair`
      finds it if and only if no step is a ForeignDrop. */
  lemma OwnedExactly(init: World, acts: seq<Action>)
    requires Initial(init) && Single(acts) && Runs(init, acts)
    ensures AlwaysOwned(init, acts) <==> NoForeignDrop(init, acts)
  {
    InitOk(init);
    OwnedIff(init, acts);
  }

  // ---------------------------------------------- the intended discipline

  predicate Signalling(pc: Pc) {
    pc.InCancel? && pc.cat.CancelSignal?
  }

  ghost predicate Nobody(w: World, p: Pc -> bool) {
    forall id :: id in w.procs ==> !p(w.procs[id].pc)
  }

  /** The taking and cancelling of an entry by `Cancel` does not overlap a locked section. */
  ghost predicate CancelGuarded(w: World, a: Action) {
    a.Run? && a.id in w.procs ==>
      var pc := w.procs[a.id].pc;
      && (pc.InCancel? && pc.cat.CancelTake? ==> Nobody(w, Holding))
      && (Acquires(pc) && Applied(a.out) ==> Nobody(w, Signalling))
  }

  ghost predicate CancelGuardedRun(w: World, acts: seq<Action>)
    requires Runs(w, acts)
    decreases |acts|
  {
    acts != [] ==> CancelGuarded(w, acts[0]) && CancelGuardedRun(Apply(w, acts[0]), acts[1..])
  }

  /** A goroutine writes nothing once its generation is cancelled. */
  ghost predicate WriteGuarded(w: World, a: Action) {
    a.Run? && a.id in w.procs && w.procs[a.id].pc.InReply? && !ReplyOp(w.procs[a.id].pc.yat).Look? ==>
      w.procs[a.id].pc.gen !in w.cancelled
  }

  /** Both guards at every step. */
  ghost predicate GuardedRun(w: World, acts: seq<Action>)
    requires Runs(w, acts)
    decreases |acts|
  {
    acts != [] ==>
      && CancelGuarded(w, acts[0]) && WriteGuarded(w, acts[0])
      && GuardedRun(Apply(w, acts[0]), acts[1..])
  }

  /** `Cancel` between its two steps: no entry, no locked section, no second one. */
  ghost predicate CancelAlone(w: World) {
    forall j :: j in w.procs && Signalling(w.procs[j].pc) ==>
      && 0 !in w.entries
      && Nobody(w, Holding)
      && forall i :: i in w.procs && Signalling(w.procs[i].pc) ==> i == j
  }

  lemma HandMeansNoEntry(w: World, g: nat)
    requires Inv(w) && CancelAlone(w) && BeingCancelled(w, g)
    ensures 0 !in w.entries
  {
    var k :| k in w.procs && Taken(w.procs[k].pc) == Some(g);
    assert ProcOk(w, w.procs[k]);
  }

  lemma NothingForeign(w: World, a: Action)
    requires Inv(w) && LiveOwned(w) && CancelAlone(w) && Enabled(w, a) && WriteGuarded(w, a)
    ensures !ForeignDrop(w, a)
  {
    if a.Run? && w.procs[a.id].pc.InReply? && BeingCancelled(w, w.procs[a.id].pc.gen) {
      HandMeansNoEntry(w, w.procs[a.id].pc.gen);
    }
  }

  lemma TakeKeepsCancelAlone(w: World, id: nat, out: Outcome)
    requires Inv(w) && CancelAlone(w) && id in w.procs && w.procs[id].pc == InCancel(CancelTake)
    requires Nobody(w, Holding)
    ensures CancelAlone(Step(w, id, out))
  {
    hide NextProcess, NextAdvance, NextRecover, ProcessOp, AdvanceOp, RecoverOp, Shared.Inv;
    var w' := Step(w, id, out);
    assert forall i :: i in w'.procs && i != id ==> i in w.procs && w'.procs[i] == w.procs[i];
    assert w.entries.Keys <= {0} && w.procs[id].inst == 0 by {
      assert ProcOk(w, w.procs[id]);
    }
  }

  lemma StepKeepsCancelAlone(w: World, id: nat, out: Outcome)
    requires Inv(w) && CancelAlone(w) && Enabled(w, Run(id, out)) && CancelGuarded(w, Run(id, out))
    ensures CancelAlone(Step(w, id, out))
  {
    if w.procs[id].pc == InCancel(CancelTake) {
      TakeKeepsCancelAlone(w, id, out);
    } else {
      forall j | j in w.procs && Signalling(w.procs[j].pc) ensures 0 in w.up {
        assert ProcOk(w, w.procs[j]);
      }
      if !Nobody(w, Signalling) {
        StaysOutside(w, id, out);
      } else {
        NoNewSignal(w, id, out);
      }
    }
  }

  lemma NoNewSignal(w: World, id: nat, out: Outcome)
    requires Inv(w) && id in w.procs && w.procs[id].pc != InCancel(CancelTake) && Nobody(w, Signalling)
    ensures Nobody(Step(w, id, out), Signalling)
  {
    Shared.FreshId(w);
    EffectOnProcs(w, id, OpAt(w.procs[id].pc, out), out);
    NextNotSignal(w, w.procs[id].inst, w.procs[id].pc, out);
    assert ProcOk(w, w.procs[id]);
  }

  lemma NextNotSignal(w: World, inst: nat, pc: Pc, out: Outcome)
    requires pc != InCancel(CancelTake)
    ensures NextPc(w, inst, pc, out).Some? ==> !Signalling(NextPc(w, inst, pc, out).value)
  {
  }

  lemma OutsideOps(pc: Pc, out: Outcome)
    requires !Holding(pc) && !pc.InRecover?
    ensures !OpAt(pc, out).StoreEntry? && !OpAt(pc, out).StartAI?
  {
  }

  lemma OutsideNext(w: World, pc: Pc, out: Outcome)
    requires !Holding(pc) && !pc.InRecover? && !(Acquires(pc) && Applied(out)) && 0 !in w.entries
    ensures var next := NextPc(w, 0, pc, out);
            next.Some? ==> !Holding(next.value) && !Signalling(next.value)
  {
  }

  lemma PlainEffect(w: World, id: nat, op: Op, out: Outcome)
    requires !op.StoreEntry? && !op.StartAI? && 0 !in w.entries
    ensures var w1 := Effect(w, id, 0, op, out); 0 !in w1.entries && w1.procs == w.procs
  {
  }

  /** Without the lock, a step neither enters a locked section, nor stores an entry,
      nor finds one to take. */
  lemma StaysOutside(w: World, id: nat, out: Outcome)
    requires Inv(w) && id in w.procs && !Holding(w.procs[id].pc) && 0 in w.up && 0 !in w.entries
    requires !(Acquires(w.procs[id].pc) && Applied(out))
    ensures var w' := Step(w, id, out);
            && 0 !in w'.entries
            && (forall i :: i in w'.procs && i != id ==> i in w.procs && w'.procs[i] == w.procs[i])
            && (id in w'.procs ==> !Holding(w'.procs[id].pc) && !Signalling(w'.procs[id].pc))
  {
    var pc := w.procs[id].pc;
    assert ProcOk(w, w.procs[id]);
    OutsideOps(pc, out);
    OutsideNext(w, pc, out);
    PlainEffect(w, id, OpAt(pc, out), out);
    hide Inv, NextPc, OpAt, Effect, Holding, Acquires;
  }

  lemma EnvironmentKeepsCancelAlone(w: World, a: Action)
    requires Inv(w) && CancelAlone(w) && Enabled(w, a) && InstanceZero(a) && !a.Run?
    ensures CancelAlone(Apply(w, a))
  {
    var w' := Apply(w, a);
    if a.Crash? {
      CrashKeeps(w);
      return;
    }
    Shared.FreshId(w);
    EnvironmentOnProcs(w, a);
    hide Inv, Apply;
    forall j | j in w'.procs && Signalling(w'.procs[j].pc)
      ensures 0 !in w'.entries && Nobody(w', Holding)
      ensures forall i :: i in w'.procs && Signalling(w'.procs[i].pc) ==> i == j
    {
      assert j in w.procs && Signalling(w.procs[j].pc);
    }
  }

  lemma ActionKeepsOwned(w: World, a: Action)
    requires Inv(w) && LiveOwned(w) && CancelAlone(w)
    requires Enabled(w, a) && InstanceZero(a) && CancelGuarded(w, a) && !ForeignDrop(w, a)
    ensures Inv(Apply(w, a)) && LiveOwned(Apply(w, a)) && CancelAlone(Apply(w, a))
  {
    hide Inv, LiveOwned, CancelAlone, ForeignDrop, CancelGuarded;
    ActionKeeps(w, a);
    if a.Run? {
      StepKeepsOwned(w, a.id, a.out);
      StepKeepsCancelAlone(w, a.id, a.out);
    } else {
      EnvironmentKeepsOwned(w, a);
      EnvironmentKeepsCancelAlone(w, a);
    }
  }

  lemma {:induction false} CancelGuardedKeeps(w: World, acts: seq<Action>)
    requires Inv(w) && LiveOwned(w) && CancelAlone(w)
    requires Single(acts) && Runs(w, acts) && CancelGuardedRun(w, acts) && NoForeignDrop(w, acts)
    ensures var w' := After(w, acts); Inv(w') && LiveOwned(w') && CancelAlone(w')
    decreases |acts|
  {
    hide Inv, LiveOwned, CancelAlone, ForeignDrop, CancelGuarded;
    if acts != [] {
      assert InstanceZero(acts[0]);
      ActionKeepsOwned(w, acts[0]);
      CancelGuardedKeeps(Apply(w, acts[0]), acts[1..]);
    }
  }

  /** When cancelled goroutines write nothing, no entry is dropped by a foreign turn. */
  lemma {:induction false} GuardedIsUnforeign(w: World, acts: seq<Action>)
    requires Inv(w) && LiveOwned(w) && CancelAlone(w)
    requires Single(acts) && Runs(w, acts) && GuardedRun(w, acts)
    ensures CancelGuardedRun(w, acts) && NoForeignDrop(w, acts)
    decreases |acts|
  {
    hide Inv, LiveOwned, CancelAlone, ForeignDrop, CancelGuarded, WriteGuarded;
    if acts != [] {
      assert InstanceZero(acts[0]);
      NothingForeign(w, acts[0]);
      ActionKeepsOwned(w, acts[0]);
      GuardedIsUnforeign(Apply(w, acts[0]), acts[1..]);
    }
  }

  ghost predicate CleanlyReachable(w: World) {
    exists init, acts ::
      && Initial(init) && Single(acts) && Runs(init, acts) && After(init, acts) == w
      && CancelGuardedRun(init, acts) && NoForeignDrop(init, acts)
  }

  ghost predicate GuardedReachable(w: World) {
    exists init, acts ::
      Initial(init) && Single(acts) && Runs(init, acts) && GuardedRun(init, acts) && After(init, acts) == w
  }

  /** As long as `Cancel` stays out of locked sections and no turn drops the entry of
      another live one, a pair never has two live generations, and the one it has is its
      entry, unless it has just been taken out to be cancelled. Cancelled goroutines may
      go on writing. */
  lemma OneLiveUnlessForeign(w: World, g: nat, h: nat)
    requires CleanlyReachable(w) && Live(w, g) && Live(w, h)
    ensures g == h
    ensures InEntries(w, g) || BeingCancelled(w, g)
  {
    hide Inv, LiveOwned, CancelAlone, Live, NoForeignDrop, CancelGuardedRun, Initial;
    var init, acts :| Initial(init) && Single(acts) && Runs(init, acts) && After(init, acts) == w
                      && CancelGuardedRun(init, acts) && NoForeignDrop(init, acts);
    StartsOwned(init);
    CancelGuardedKeeps(init, acts);
    LiveIsOwned(w, g);
    LiveIsOwned(w, h);
    OneOwner(w, g, h);
  }

  lemma StartsOwned(w: World)
    requires Initial(w)
    ensures Inv(w) && LiveOwned(w) && CancelAlone(w)
  {
    InitOk(w);
  }

  /** Under the discipline, a pair never has two live generations, and the one it has
      is its entry, unless it has just been taken out to be cancelled. */
  lemma OneLivePipeline(w: World, g: nat, h: nat)
    requires GuardedReachable(w) && Live(w, g) && Live(w, h)
    ensures g == h
    ensures InEntries(w, g) || BeingCancelled(w, g)
  {
    hide Inv, LiveOwned, CancelAlone, Live, NoForeignDrop, CancelGuardedRun, GuardedRun, Initial;
    var init, acts :| Initial(init) && Single(acts) && Runs(init, acts) && GuardedRun(init, acts)
                      && After(init, acts) == w;
    StartsOwned(init);
    GuardedIsUnforeign(init, acts);
    assert CleanlyReachable(w);
    OneLiveUnlessForeign(w, g, h);
  }

  lemma LiveIsOwned(w: World, g: nat)
    requires LiveOwned(w) && Live(w, g)
    ensures InEntries(w, g) || BeingCancelled(w, g)
  {
  }

  lemma OneOwner(w: World, g: nat, h: nat)
    requires Inv(w) && CancelAlone(w)
    requires InEntries(w, g) || BeingCancelled(w, g)
    requires InEntries(w, h) || BeingCancelled(w, h)
    ensures g == h
  {
    if BeingCancelled(w, g) {
      HandMeansNoEntry(w, g);
      var i :| i in w.procs && Taken(w.procs[i].pc) == Some(g);
      var j :| j in w.procs && Taken(w.procs[j].pc) == Some(h);
      assert Shared.ProcOk(w, i, w.procs[i].pc) && Shared.ProcOk(w, j, w.procs[j].pc);
    } else if BeingCancelled(w, h) {
      HandMeansNoEntry(w, h);
    }
  }

  // ------------------------------------- the exact condition for one live pipeline

  ghost predicate OneLive(w: World) {
    forall g, h :: Live(w, g) && Live(w, h) ==> g == h
  }

  /** A reply of the pair is under way and its context is not cancelled. */
  ghost predicate ReplyAlive(w: World) {
    exists id :: id in w.procs && w.procs[id].pc.InReply? && w.procs[id].pc.gen !in w.cancelled
  }

  /** The step stores a new entry (in `Process` or in recovery). */
  predicate StoresEntry(w: World, a: Action) {
    a.Run? && a.id in w.procs && OpAt(w.procs[a.id].pc, a.out).StoreEntry?
  }

  ghost predicate AlwaysOneLive(w: World, acts: seq<Action>)
    requires Runs(w, acts)
    decreases |acts|
  {
    OneLive(w) && (acts != [] ==> AlwaysOneLive(Apply(w, acts[0]), acts[1..]))
  }

  /** No entry is ever stored over a reply that is still alive. */
  ghost predicate NoOverlap(w: World, acts: seq<Action>)
    requires Runs(w, acts)
    decreases |acts|
  {
    acts != [] ==>
      !(StoresEntry(w, acts[0]) && ReplyAlive(w)) && NoOverlap(Apply(w, acts[0]), acts[1..])
  }

  /** Where a live generation of the next state comes from. */
  lemma EffectOnLive(w: World, id: nat, op: Op, out: Outcome, next: Option<Pc>, g: nat)
    requires w.nextProc !in w.procs && id in w.procs
    requires next.Some? && next.value.InReply? ==> w.procs[id].pc.InReply? && next.value.gen == w.procs[id].pc.gen
    requires Live(Move(Effect(w, id, 0, op, out), id, 0, next), g)
    ensures Live(w, g) || (op.StoreEntry? && g == w.nextGen)
    ensures op.StoreEntry? && g != w.nextGen ==> HasReply(w, g) && g !in w.cancelled
  {
    var w1 := Effect(w, id, 0, op, out);
    var w' := Move(w1, id, 0, next);
    EffectOnProcs(w, id, op, out);
    if HasReply(w', g) && !InEntries(w', g) {
      var j :| j in w'.procs && w'.procs[j].pc.InReply? && w'.procs[j].pc.gen == g;
      if j in w.procs {
        assert w.procs[j].pc.InReply? && w.procs[j].pc.gen == g;
      }
    }
  }

  lemma StepKeepsOneLive(w: World, id: nat, out: Outcome)
    requires Inv(w) && OneLive(w) && Enabled(w, Run(id, out))
    requires !(StoresEntry(w, Run(id, out)) && ReplyAlive(w))
    ensures OneLive(Step(w, id, out))
  {
    hide Live, NextPc, OpAt, Effect, Move;
    var pc := w.procs[id].pc;
    assert ProcOk(w, w.procs[id]);
    Shared.FreshId(w);
    KindKept(w, pc, out);
    forall g, h | Live(Step(w, id, out), g) && Live(Step(w, id, out), h) ensures g == h {
      EffectOnLive(w, id, OpAt(pc, out), out, NextPc(w, 0, pc, out), g);
      EffectOnLive(w, id, OpAt(pc, out), out, NextPc(w, 0, pc, out), h);
    }
  }

  lemma EnvironmentKeepsOneLive(w: World, a: Action)
    requires Inv(w) && OneLive(w) && Enabled(w, a) && InstanceZero(a) && !a.Run?
    ensures OneLive(Apply(w, a))
  {
    hide Inv, OneLive, Live;
    forall g | Live(Apply(w, a), g) ensures Live(w, g) {
      EnvironmentAddsNone(w, a, g);
    }
    assert OneLive(Apply(w, a)) by {
      assert OneLive(w);
      OneLiveShrinks(w, Apply(w, a));
    }
  }

  lemma OneLiveShrinks(w: World, w': World)
    requires OneLive(w) && forall g :: Live(w', g) ==> Live(w, g)
    ensures OneLive(w')
  {
    hide Live;
  }

  lemma EnvironmentAddsNone(w: World, a: Action, g: nat)
    requires Enabled(w, a) && InstanceZero(a) && !a.Run? && Inv(w) && Live(Apply(w, a), g)
    ensures Live(w, g)
  {
    var w' := Apply(w, a);
    Shared.FreshId(w);
    hide Inv;
    if !InEntries(w', g) {
      var j :| j in w'.procs && w'.procs[j].pc.InReply? && w'.procs[j].pc.gen == g;
      assert j in w.procs && w.procs[j] == w'.procs[j];
    }
  }

  /** Storing an entry over a live reply makes a second live generation. */
  lemma OverlapBreaks(w: World, id: nat, out: Outcome)
    requires Inv(w) && Enabled(w, Run(id, out)) && StoresEntry(w, Run(id, out)) && ReplyAlive(w)
    ensures !OneLive(Step(w, id, out))
  {
    var j :| j in w.procs && w.procs[j].pc.InReply? && w.procs[j].pc.gen !in w.cancelled;
    var pc := w.procs[id].pc;
    assert ProcOk(w, w.procs[j]) && ProcOk(w, w.procs[id]);
    assert w.procs[j].pc.gen < w.nextGen && w.nextGen !in w.cancelled && j != id;
    hide Inv, NextPc, OpAt, ProcOk, OneLive;
    StoredBeside(w, id, OpAt(pc, out), out, NextPc(w, 0, pc, out), j);
  }

  lemma StoredBeside(w: World, id: nat, op: Op, out: Outcome, next: Option<Pc>, j: nat)
    requires op.StoreEntry? && j in w.procs && j != id && w.procs[j].pc.InReply?
    requires w.procs[j].pc.gen !in w.cancelled && w.procs[j].pc.gen < w.nextGen && w.nextGen !in w.cancelled
    ensures !OneLive(Move(Effect(w, id, 0, op, out), id, 0, next))
  {
    var w' := Move(Effect(w, id, 0, op, out), id, 0, next);
    assert w'.procs[j] == w.procs[j];
    assert Live(w', w.procs[j].pc.gen);
    assert InEntries(w', w.nextGen) && Live(w', w.nextGen);
  }

  lemma {:induction false} OneLiveIff(w: World, acts: seq<Action>)
    requires Inv(w) && OneLive(w) && Runs(w, acts) && Single(acts)
    ensures AlwaysOneLive(w, acts) <==> NoOverlap(w, acts)
    decreases |acts|
  {
    hide Inv, OneLive, ReplyAlive, StoresEntry;
    if acts != [] {
      var a := acts[0];
      assert InstanceZero(a);
      ActionKeeps(w, a);
      if StoresEntry(w, a) && ReplyAlive(w) {
        StoresAreRuns(w, a);
        OverlapBreaks(w, a.id, a.out);
      } else {
        if a.Run? {
          StepKeepsOneLive(w, a.id, a.out);
        } else {
          EnvironmentKeepsOneLive(w, a);
        }
        OneLiveIff(Apply(w, a), acts[1..]);
      }
    }
  }

  lemma StoresAreRuns(w: World, a: Action)
    requires StoresEntry(w, a)
    ensures a.Run?
  {
  }

  /** Over every run of one instance: a pair never has two live generations if and only if
      no entry is stored, by `Process` or by recovery, while a reply of the pair is under
      way whose context is not cancelled. */
  lemma OneLiveExactly(init: World, acts: seq<Action>)
    requires Initial(init) && Single(acts) && Runs(init, acts)
    ensures AlwaysOneLive(init, acts) <==> NoOverlap(init, acts)
  {
    InitOk(init);
    OneLiveIff(init, acts);
  }
}
