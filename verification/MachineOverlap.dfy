/** A run of one instance in which the raw code has two live pipelines for one pair:
    an old turn, already cancelled, finishes and deletes the entry of its successor,
    so the next event finds nothing to cancel. */
module MachineOverlap {
  import opened Model
  import opened Machine
  import opened MachineSingle
  import opened MachineSolo
  import Live = MachineLive

  lemma Continue(w: World, a: Action)
    requires SingleReachable(w) && Enabled(w, a) && InstanceZero(a)
    ensures SingleReachable(Apply(w, a))
  {
    var init, acts :| Initial(init) && Single(acts) && Runs(init, acts) && After(init, acts) == w;
    Prepend(w, a, []);
    Extend(init, acts, [a] + []);
    assert Single(acts + ([a] + []));
  }

  lemma ContinueAlone(w: World, w': World, id: nat)
    requires SingleReachable(w) && Leads(w, w', id)
    ensures SingleReachable(w')
  {
    var init, acts :| Initial(init) && Single(acts) && Runs(init, acts) && After(init, acts) == w;
    var more :| OnlyRuns(more, id) && Runs(w, more) && After(w, more) == w';
    Extend(init, acts, more);
    assert Single(acts + more);
  }

  /** Between events: instance 0 is serving and nobody holds the lock. */
  predicate Idle(w: World) {
    w.up == {0} && w.lock.None? && w.nextProc !in w.procs && w.nextProc + 1 !in w.procs
  }

  lemma Handled(w: World, ev: Event) returns (w1: World)
    requires SingleReachable(w) && Idle(w) && ev.Valid()
    ensures SingleReachable(w1)
    ensures w1 == w.(stored := Incoming, nextProc := w.nextProc + 1,
                     procs := w.procs[w.nextProc := Proc(0, InProcess(ev, Locking))])
  {
    Continue(w, Handle(0, ev, Ok));
    w1 := Apply(w, Handle(0, ev, Ok));
  }

  /** An event without debounce is handled and processed, and its AI call started. */
  lemma TurnStarts(w: World, ev: Event) returns (w': World)
    requires SingleReachable(w) && Idle(w) && ev.turn.cfg.debounceTime == 0
    ensures SingleReachable(w') && w'.up == {0} && w'.lock.None? && w'.stored == AI
    ensures w'.procs == w.procs[w.nextProc + 1 := Proc(0, InReply(w.nextGen, Calling))]
    ensures w'.nextProc == w.nextProc + 2 && w'.nextGen == w.nextGen + 1
    ensures w'.entries == w.entries[0 := Entry(w.nextGen, ev.turn)]
    ensures w'.cancelled == w.cancelled + if 0 in w.entries then {w.entries[0].gen} else {}
  {
    var id := w.nextProc;
    var w1 := Handled(w, ev);
    SoloBegins(w1, id, 0, ev);
    w' := Begun(w1, id, 0, ev);
    ContinueAlone(w1, w', id);
    BegunOutcome(w1, id, ev);
    assert w1.procs - {id} == w.procs;
  }

  lemma BegunOutcome(w: World, id: nat, ev: Event)
    requires w.stored == Incoming && id in w.procs && w.nextProc !in w.procs && ev.turn.cfg.debounceTime == 0
    ensures var w' := Begun(w, id, 0, ev);
            && w'.lock.None? && w'.up == w.up && w'.stored == AI
            && w'.procs == (w.procs - {id})[w.nextProc := Proc(0, InReply(w.nextGen, Calling))]
            && w'.nextProc == w.nextProc + 1 && w'.nextGen == w.nextGen + 1
            && w'.entries == w.entries[0 := Entry(w.nextGen, ev.turn)]
            && w'.cancelled == w.cancelled + if 0 in w.entries then {w.entries[0].gen} else {}
  {
    BegunView(w, id, 0, ev);
    BegunRest(w, id, 0, ev);
    BegunLaunches(w, id, 0, ev);
  }

  /** The reply goroutine makes one successful step. */
  lemma ReplySteps(w: World, id: nat, gen: nat, at: ReplyAt, next: ReplyAt) returns (w': World)
    requires SingleReachable(w) && id in w.procs && w.procs[id] == Proc(0, InReply(gen, at))
    requires NextReply(at, Ok) == Some(next)
    ensures SingleReachable(w') && w'.procs == w.procs[id := Proc(0, InReply(gen, next))]
    ensures w'.up == w.up && w'.lock == w.lock && w'.entries == w.entries && w'.cancelled == w.cancelled
    ensures w'.nextProc == w.nextProc && w'.nextGen == w.nextGen
  {
    Continue(w, Run(id, Ok));
    w' := Step(w, id, Ok);
  }

  lemma ReplyEnds(w: World, id: nat, gen: nat) returns (w': World)
    requires SingleReachable(w) && id in w.procs && w.procs[id] == Proc(0, InReply(gen, DropEntry))
    ensures SingleReachable(w') && w'.procs == w.procs - {id} && w'.entries == w.entries - {0}
    ensures w'.stored == w.stored && w'.up == w.up && w'.lock == w.lock && w'.cancelled == w.cancelled
    ensures w'.nextProc == w.nextProc && w'.nextGen == w.nextGen
  {
    Continue(w, Run(id, Ok));
    w' := Step(w, id, Ok);
  }

  /** Nothing stored, nothing running, every counter at zero. */
  const EMPTY := World(Absent, [], [], None, None, 0, map[], {}, map[], {}, 0, 0, History([], {}, 0, 0, None, 0, []))

  lemma StartsReachable(w: World)
    requires Initial(w)
    ensures SingleReachable(w)
  {
    assert Single([]) && Runs(w, []) && After(w, []) == w;
  }

  lemma RecoveryStep(w: World, id: nat, rat: RecoverAt) returns (w': World)
    requires SingleReachable(w) && w.stored.Absent? && w.procs == map[id := Proc(0, InRecover(rat))]
    requires rat.RecStage? || rat.RecNext?
    ensures SingleReachable(w')
    ensures w' == if rat.RecStage? then w.(procs := map[id := Proc(0, InRecover(RecNext))])
                  else w.(procs := map[], up := w.up + {0})
  {
    Continue(w, Run(id, Ok));
    w' := Step(w, id, Ok);
  }

  lemma BootStep(w: World) returns (w': World)
    requires SingleReachable(w) && Initial(w)
    ensures SingleReachable(w')
    ensures w' == w.(nextProc := w.nextProc + 1, procs := map[w.nextProc := Proc(0, InRecover(RecStage))])
  {
    Continue(w, Boot(0));
    w' := Apply(w, Boot(0));
  }

  lemma Boots() returns (w: World)
    ensures SingleReachable(w) && w.up == {0} && w.lock.None? && w.procs == map[] && w.entries == map[]
    ensures w.cancelled == {} && w.nextGen == 0 && w.nextProc == 1
  {
    StartsReachable(EMPTY);
    w := BootStep(EMPTY);
    w := RecoveryStep(w, 0, RecStage);
    w := RecoveryStep(w, 0, RecNext);
  }

  /** `Cancel` has taken the entry of a turn and not yet cancelled it. */
  lemma CancelTakes(w: World, gen: nat) returns (w': World)
    requires SingleReachable(w) && Idle(w) && 0 in w.entries && w.entries[0].gen == gen
    ensures SingleReachable(w') && w'.up == {0} && w'.lock.None? && w'.entries == w.entries - {0}
    ensures w'.procs == w.procs[w.nextProc := Proc(0, InCancel(CancelSignal(gen)))]
    ensures w'.nextProc == w.nextProc + 1 && w'.nextGen == w.nextGen && w'.cancelled == w.cancelled
  {
    var id := w.nextProc;
    Continue(w, RequestCancel(0));
    var w1 := Apply(w, RequestCancel(0));
    Continue(w1, Run(id, Ok));
    w' := Step(w1, id, Ok);
  }

  /** A second way to two live pipelines: an event processed between the two steps of
      `Cancel` finds no entry to cancel and starts its turn beside the live one. No
      goroutine of a reply has moved. */
  lemma CancelOverlaps(ev: Event) returns (w: World)
    requires ev.turn.cfg.debounceTime == 0
    ensures SingleReachable(w)
    ensures Live.Live(w, 0) && Live.Live(w, 1) && Live.LiveOwned(w)
    ensures forall id :: id in w.procs && w.procs[id].pc.InReply? ==> w.procs[id].pc.yat.Calling?
  {
    hide SingleReachable;
    var a := Boots();
    var b := TurnStarts(a, ev);
    var c := CancelTakes(b, 0);
    w := TurnStarts(c, ev);
    assert w.procs[2] == Proc(0, InReply(0, Calling)) && w.procs[3] == Proc(0, InCancel(CancelSignal(0)));
    assert w.procs[5] == Proc(0, InReply(1, Calling));
    assert Taken(w.procs[3].pc) == Some(0);
  }

  /** The first of two turns ends although it was cancelled, and takes the entry of the
      second with it. */
  lemma OldTurnFinishes(ev: Event) returns (e: World)
    requires ev.turn.cfg.debounceTime == 0
    ensures SingleReachable(e) && e.up == {0} && e.lock.None? && e.entries == map[]
    ensures e.procs == map[4 := Proc(0, InReply(1, Calling))] && e.nextProc == 5 && e.nextGen == 2
    ensures e.cancelled == {0}
  {
    hide SingleReachable;
    var a := Boots();
    var b := TurnStarts(a, ev);
    var c := ReplySteps(b, 2, 0, Calling, MarkDispatch);
    c := ReplySteps(c, 2, 0, MarkDispatch, Sending);
    c := ReplySteps(c, 2, 0, Sending, MarkDone);
    var d := TurnStarts(c, ev);
    e := ReplySteps(d, 2, 0, MarkDone, ClearDone);
    e := ReplySteps(e, 2, 0, ClearDone, DropEntry);
    e := ReplyEnds(e, 2, 0);
  }

  /** Three events without debounce; the first turn's reply is delivered but its last
      three steps come after the second turn has started. */
  lemma TwoLivePipelines(ev: Event) returns (w: World)
    requires ev.turn.cfg.debounceTime == 0
    ensures SingleReachable(w)
    ensures Live.Live(w, 1) && Live.Live(w, 2)
  {
    hide SingleReachable;
    var e := OldTurnFinishes(ev);
    w := TurnStarts(e, ev);
    assert w.procs[4] == Proc(0, InReply(1, Calling)) && w.procs[6] == Proc(0, InReply(2, Calling));
  }
}
