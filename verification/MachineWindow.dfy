/** Whether a stored debounce window can be lost: the poller only looks at pairs with an
    entry, so a window whose entry is gone is served by nobody. */
module MachineWindow {
  import opened Model
  import opened Machine
  import opened MachineSingle
  import opened MachineSolo
  import opened MachineOverlap
  import Shared = MachineSafety

  /** The instance is up and the store holds a window of the pair, but memory no entry. */
  predicate Unwatched(w: World) {
    0 in w.up && w.stored.Window? && 0 !in w.entries
  }

  /** The step takes the entry from a stored window, opens a window without an entry, or
      ends a recovery that has passed the window over. */
  predicate Orphans(w: World, a: Action) {
    a.Run? && a.id in w.procs &&
    var op := OpAt(w.procs[a.id].pc, a.out);
    || (op.RemoveEntry? && w.stored.Window? && 0 in w.entries && 0 in w.up)
    || (op.OpenWindow? && Applied(a.out) && 0 !in w.entries)
    || (op.Serve? && w.stored.Window? && 0 !in w.entries)
  }

  lemma EffectOnWindow(w: World, id: nat, op: Op, out: Outcome)
    requires !Unwatched(w) && w.up <= {0} && (op.PutStage? ==> !op.s.Window?) && (op.OpenWindow? ==> 0 in w.up)
    ensures Unwatched(Effect(w, id, 0, op, out)) <==>
            || (op.RemoveEntry? && w.stored.Window? && 0 in w.entries && 0 in w.up)
            || (op.OpenWindow? && Applied(out) && 0 !in w.entries)
            || (op.Serve? && w.stored.Window? && 0 !in w.entries)
  {
  }

  /** Step by step: a window is lost exactly by a step that orphans it. */
  lemma LosesExactly(w: World, a: Action)
    requires Inv(w) && !Unwatched(w) && Enabled(w, a) && InstanceZero(a)
    ensures Unwatched(Apply(w, a)) <==> Orphans(w, a)
  {
    if a.Run? {
      var pc := w.procs[a.id].pc;
      assert ProcOk(w, w.procs[a.id]);
      NoticeableOps(pc, a.out);
      EffectOnWindow(w, a.id, OpAt(pc, a.out), a.out);
      hide NextPc, OpAt, Effect;
    } else {
      hide Inv;
    }
  }

  /** The steps that can orphan a window: the last step of a turn, `Cancel`, the abort of
      a window whose record was stored although the write reported an error, a window
      opened behind a deleted entry, and a recovery whose read of the state failed. */
  lemma OrphaningSteps(w: World, a: Action)
    requires SingleReachable(w) && Orphans(w, a)
    ensures var pc := w.procs[a.id].pc;
            || (pc.InReply? && pc.yat.DropEntry?)
            || (pc.InCancel? && pc.cat.CancelTake?)
            || (pc.InProcess? && (pc.pat.Dropping? || pc.pat.Opening?))
            || (pc.InRecover? && pc.rat.RecNext?)
  {
    hide OpAt, SingleReachable;
    Reach(w);
    EntryPoints(w.procs[a.id].pc, a.out);
    assert Shared.HandOk(w, w.procs[a.id].pc) by {
      assert Shared.ProcOk(w, a.id, w.procs[a.id].pc);
    }
    hide Inv, Shared.Inv;
  }

  ghost predicate AlwaysWatched(w: World, acts: seq<Action>)
    requires Runs(w, acts)
    decreases |acts|
  {
    !Unwatched(w) && (acts != [] ==> AlwaysWatched(Apply(w, acts[0]), acts[1..]))
  }

  ghost predicate NoOrphan(w: World, acts: seq<Action>)
    requires Runs(w, acts)
    decreases |acts|
  {
    acts != [] ==> !Orphans(w, acts[0]) && NoOrphan(Apply(w, acts[0]), acts[1..])
  }

  lemma {:induction false} WatchedIff(w: World, acts: seq<Action>)
    requires Inv(w) && !Unwatched(w) && Runs(w, acts) && Single(acts)
    ensures AlwaysWatched(w, acts) <==> NoOrphan(w, acts)
    decreases |acts|
  {
    hide Inv, Unwatched, Orphans;
    if acts != [] {
      assert InstanceZero(acts[0]);
      LosesExactly(w, acts[0]);
      ActionKeeps(w, acts[0]);
      if !Orphans(w, acts[0]) {
        WatchedIff(Apply(w, acts[0]), acts[1..]);
      } else {
        NotAlways(Apply(w, acts[0]), acts[1..]);
      }
    }
  }

  lemma NotAlways(w: World, acts: seq<Action>)
    requires Runs(w, acts) && Unwatched(w)
    ensures !AlwaysWatched(w, acts)
  {
  }

  /** Over every run of one instance: while it is up, every stored window has its entry in
      memory if and only if no step orphans one. */
  lemma WatchedExactly(init: World, acts: seq<Action>)
    requires Initial(init) && Single(acts) && Runs(init, acts)
    ensures AlwaysWatched(init, acts) <==> NoOrphan(init, acts)
  {
    InitOk(init);
    WatchedIff(init, acts);
  }

  // ------------------------------------------------------- a lost message

  /** An event with debounce is handled and processed, and its window opened. */
  lemma WindowOpens(w: World, ev: Event) returns (w': World)
    requires SingleReachable(w) && Idle(w) && ev.turn.cfg.debounceTime > 0
    ensures SingleReachable(w') && w'.up == {0} && w'.lock.None? && w'.stored.Window?
    ensures w'.procs == w.procs && w'.entries == w.entries[0 := Entry(w.nextGen, ev.turn)]
  {
    var id := w.nextProc;
    var w1 := Handled(w, ev);
    SoloBegins(w1, id, 0, ev);
    w' := Begun(w1, id, 0, ev);
    ContinueAlone(w1, w', id);
    BegunWindow(w1, id, ev);
    assert w1.procs - {id} == w.procs;
  }

  lemma BegunWindow(w: World, id: nat, ev: Event)
    requires w.stored == Incoming && id in w.procs && w.nextProc !in w.procs && ev.turn.cfg.debounceTime > 0
    ensures var w' := Begun(w, id, 0, ev);
            && w'.lock.None? && w'.up == w.up && w'.stored.Window? && w'.procs == w.procs - {id}
            && w'.entries == w.entries[0 := Entry(w.nextGen, ev.turn)]
  {
    hide Cleaned, Buffered;
    var v0 := w.(lock := Some(id));
    var v1 := Cleaned(v0, id, 0);
    CleanedKeeps(v0, id, 0);
    BufferedKeeps(v1, id, 0, ev);
    assert (w.entries - {0})[0 := Entry(w.nextGen, ev.turn)] == w.entries[0 := Entry(w.nextGen, ev.turn)];
  }

  /** A turn has sent its reply and cleared the pair; before its last step a debounced
      event opens a window. The last step then deletes the window's entry: the window is
      stored, nobody is working, and nobody will look at it. */
  lemma LostWindow(first: Event, second: Event) returns (w: World)
    requires first.turn.cfg.debounceTime == 0 && second.turn.cfg.debounceTime > 0
    ensures SingleReachable(w) && Unwatched(w) && w.procs == map[]
  {
    hide SingleReachable;
    var a := Boots();
    var b := TurnStarts(a, first);
    b := ReplySteps(b, 2, 0, Calling, MarkDispatch);
    b := ReplySteps(b, 2, 0, MarkDispatch, Sending);
    b := ReplySteps(b, 2, 0, Sending, MarkDone);
    b := ReplySteps(b, 2, 0, MarkDone, ClearDone);
    b := ReplySteps(b, 2, 0, ClearDone, DropEntry);
    var c := WindowOpens(b, second);
    w := ReplyEnds(c, 2, 0);
  }
}
