/** What holds in every interleaving, with any number of instances sharing the
    store: a debounce window pays for at most one AI turn, and no AI turn starts
    before the window's quiet period is over. */
module MachineSafety {
  import opened Model
  import opened Machine

  // ------------------------------------------------------------ definitions

  /** The source that a goroutine inside a locked section may still spend. */
  function InHand(pc: Pc): Option<Source> {
    match pc
    case InProcess(ev, at) =>
      if ev.turn.cfg.debounceTime != 0 then None else
        (match at
         case Appending(gen) => Some(ZeroDebounce(gen))
         case Attaching(gen) => Some(ZeroDebounce(gen))
         case Buffering(gen) => Some(ZeroDebounce(gen))
         case Collecting(gen, _) => Some(ZeroDebounce(gen))
         case Promoting(gen, _, _) => Some(ZeroDebounce(gen))
         case Launching(gen, _, _) => Some(ZeroDebounce(gen))
         case _ => None)
    case InAdvance(_, at) =>
      (match at
       case AdvTimer(win) => Some(FromWindow(win))
       case AdvBuffer(win, _) => Some(FromWindow(win))
       case AdvMedia(win, _, _) => Some(FromWindow(win))
       case AdvPromote(win, _, _, _) => Some(FromWindow(win))
       case AdvLaunch(win, _, _, _) => Some(FromWindow(win))
       case _ => None)
    case _ => None
  }

  /** Program points of a lock holder at which the stage cannot be debounce. */
  predicate StageSettled(pc: Pc) {
    match pc
    case InProcess(_, at) =>
      !(at.Locking? || at.Reading? || at.ReAppending? || at.ReAttaching? || at.ReArming?
        || at.Aborting? || at.Dropping? || at.Unlocking?)
    case InAdvance(_, at) => at.AdvLaunch?
    case _ => false
  }

  /** The number of appends seen when `advanceToAI` found the timer gone. */
  function SeenAtCheck(pc: Pc): Option<nat> {
    if !pc.InAdvance? then None else
      match pc.aat
      case AdvBuffer(_, seen) => Some(seen)
      case AdvMedia(_, seen, _) => Some(seen)
      case AdvPromote(_, seen, _, _) => Some(seen)
      case AdvLaunch(_, seen, _, _) => Some(seen)
      case _ => None
  }

  /** The zero-debounce program points belong to zero-debounce events, and the
      timer and window ones to the others. */
  predicate PathOk(pc: Pc) {
    pc.InProcess? ==>
      && pc.ev.Valid()
      && (pc.pat.Buffering? || pc.pat.Collecting? || pc.pat.Promoting? || pc.pat.Launching?
          ==> pc.ev.turn.cfg.debounceTime == 0)
      && (pc.pat.Arming? || pc.pat.Opening? ==> pc.ev.turn.cfg.debounceTime > 0)
  }

  function Spent(ls: seq<Launch>): set<Source> {
    set k | 0 <= k < |ls| :: ls[k].source
  }

  ghost predicate SourcesDistinct(ls: seq<Launch>) {
    forall i, j :: 0 <= i < j < |ls| ==> ls[i].source != ls[j].source
  }

  /** The most recently set timer has run its whole length since it was set, or
      ClearState has removed it. */
  predicate Quiet(t: Option<TimerRun>, now: nat) {
    t.Some? && (t.value.cleared || t.value.setAt + t.value.ttl <= now)
  }

  /** The message and the media that a goroutine has read and not yet handed to the AI. */
  function MessageInHand(pc: Pc): Option<seq<string>> {
    match pc
    case InProcess(_, at) =>
      (match at
       case Collecting(_, message) => Some(message)
       case Promoting(_, message, _) => Some(message)
       case Launching(_, message, _) => Some(message)
       case _ => None)
    case InAdvance(_, at) =>
      (match at
       case AdvMedia(_, _, message) => Some(message)
       case AdvPromote(_, _, message, _) => Some(message)
       case AdvLaunch(_, _, message, _) => Some(message)
       case _ => None)
    case _ => None
  }

  function MediaInHand(pc: Pc): Option<seq<Attachment>> {
    match pc
    case InProcess(_, at) =>
      (match at
       case Promoting(_, _, media) => Some(media)
       case Launching(_, _, media) => Some(media)
       case _ => None)
    case InAdvance(_, at) =>
      (match at
       case AdvPromote(_, _, _, media) => Some(media)
       case AdvLaunch(_, _, _, media) => Some(media)
       case _ => None)
    case _ => None
  }

  /** The contents appended since the last clear, in order. */
  function TextsSince(ws: seq<Write>): seq<string> {
    if ws == [] then [] else
      var before := ws[..|ws| - 1];
      match ws[|ws| - 1]
      case Text(content) => TextsSince(before) + [content]
      case Media(_) => TextsSince(before)
      case Wiped => []
  }

  function MediaSince(ws: seq<Write>): seq<Attachment> {
    if ws == [] then [] else
      var before := ws[..|ws| - 1];
      match ws[|ws| - 1]
      case Text(_) => MediaSince(before)
      case Media(atts) => MediaSince(before) + atts
      case Wiped => []
  }

  /** The message was read when these writes had been made, but for clears that came
      behind the read. */
  predicate ReadText(ws: seq<Write>, message: seq<string>) {
    message == TextsSince(ws)
    || (ws != [] && ws[|ws| - 1].Wiped? && ReadText(ws[..|ws| - 1], message))
  }

  /** The same of the media; a failed read leaves them out. */
  predicate ReadMedia(ws: seq<Write>, media: seq<Attachment>) {
    media == [] || media == MediaSince(ws)
    || (ws != [] && ws[|ws| - 1].Wiped? && ReadMedia(ws[..|ws| - 1], media))
  }

  // -------------------------------------------------------------- invariant

  predicate Unspent(w: World, s: Source) {
    s in w.hist.granted && s !in Spent(w.hist.launches)
  }

  /** What a goroutine at `pc` may rely on. */
  predicate HandOk(w: World, pc: Pc) {
    && (InHand(pc).Some? ==> Unspent(w, InHand(pc).value))
    && (StageSettled(pc) ==> !w.stored.Window?)
    && (pc.InAdvance? && InHand(pc).Some? ==>
          && w.hist.timer.Some?
          && (w.stored.Window? ==> InHand(pc) == Some(FromWindow(w.stored.id))))
    && (pc.InProcess? && pc.pat.Opening? ==> w.hist.timer.Some?)
    && (SeenAtCheck(pc).Some? ==> SeenAtCheck(pc).value == w.hist.appended && Quiet(w.hist.timer, w.now))
    && (MessageInHand(pc).Some? ==> ReadText(w.hist.writes, MessageInHand(pc).value))
    && (MediaInHand(pc).Some? ==> ReadMedia(w.hist.writes, MediaInHand(pc).value))
  }

  predicate ProcOk(w: World, id: nat, pc: Pc) {
    && id < w.nextProc
    && (Holding(pc) ==> w.lock == Some(id))
    && PathOk(pc)
    && HandOk(w, pc)
  }

  ghost predicate ProcsOk(w: World) {
    forall id :: id in w.procs ==> ProcOk(w, id, w.procs[id].pc)
  }

  ghost predicate Granted(h: History, nextGen: nat) {
    && (forall s :: s in h.granted ==>
          match s case FromWindow(k) => k < h.windows case ZeroDebounce(g) => g < nextGen)
    && |h.granted| == h.windows + h.zeroTurns
    && Spent(h.launches) <= h.granted
    && SourcesDistinct(h.launches)
  }

  ghost predicate QuietLaunches(ls: seq<Launch>) {
    forall k :: 0 <= k < |ls| && ls[k].source.FromWindow? ==>
      Quiet(ls[k].timer, ls[k].at) && ls[k].appended == ls[k].appendedAtCheck
  }

  ghost predicate LaunchesRead(ls: seq<Launch>) {
    forall k :: 0 <= k < |ls| ==> ReadText(ls[k].writes, ls[k].message) && ReadMedia(ls[k].writes, ls[k].media)
  }

  ghost predicate StoreOk(w: World) {
    && Granted(w.hist, w.nextGen)
    && QuietLaunches(w.hist.launches)
    && LaunchesRead(w.hist.launches)
    && w.buffer == TextsSince(w.hist.writes) && w.attachments == MediaSince(w.hist.writes)
    && (w.stored.Window? ==> Unspent(w, FromWindow(w.stored.id)) && w.hist.timer.Some?)
    && (w.hist.timer.Some? && !w.hist.timer.value.cleared
        ==> w.timer == Some(w.hist.timer.value.setAt + w.hist.timer.value.ttl))
  }

  ghost predicate Inv(w: World) {
    ProcsOk(w) && StoreOk(w)
  }

  // ------------------------------------------------------------ preservation

  /** Goroutine `id` moved; every other one stayed, ended, or is a new one outside
      any locked section. */
  ghost predicate OnlyMoved(w: World, w': World, id: nat) {
    && w.nextProc <= w'.nextProc
    && (forall j :: j in w'.procs && j != id ==>
          if j in w.procs then w'.procs[j] == w.procs[j]
          else j < w'.nextProc && !Holding(w'.procs[j].pc) && PathOk(w'.procs[j].pc))
  }

  lemma OutsideIsFree(w: World, pc: Pc)
    requires !Holding(pc)
    ensures HandOk(w, pc)
  {
  }

  /** A step of the lock holder: nobody else has anything at stake. */
  lemma HolderStep(w: World, w': World, id: nat)
    requires ProcsOk(w) && id in w.procs && w.lock == Some(id) && OnlyMoved(w, w', id)
    requires id in w'.procs ==> ProcOk(w', id, w'.procs[id].pc)
    ensures ProcsOk(w')
  {
    forall j | j in w'.procs && j != id ensures ProcOk(w', j, w'.procs[j].pc) {
      OutsideIsFree(w', w'.procs[j].pc);
    }
  }

  /** A change that no lock holder can notice. */
  ghost predicate Calm(w: World, w': World) {
    && (w'.stored.Window? ==> w'.stored == w.stored)
    && (w'.lock == w.lock || forall id :: id in w.procs ==> !Holding(w.procs[id].pc))
    && w'.now >= w.now
    && w'.hist.appended == w.hist.appended
    && w'.hist.granted == w.hist.granted
    && w'.hist.launches == w.hist.launches
    && (w'.hist.writes == w.hist.writes || w'.hist.writes == w.hist.writes + [Wiped])
    && (w'.hist.timer == w.hist.timer
        || (w.hist.timer.Some? && w'.hist.timer == Some(w.hist.timer.value.(cleared := true))))
  }

  lemma CalmStep(w: World, w': World, id: nat)
    requires ProcsOk(w) && OnlyMoved(w, w', id) && Calm(w, w')
    requires id in w'.procs ==> ProcOk(w', id, w'.procs[id].pc)
    ensures ProcsOk(w')
  {
    forall j | j in w'.procs && j != id ensures ProcOk(w', j, w'.procs[j].pc) {
      if j in w.procs {
        CalmHand(w, w', w.procs[j].pc);
      } else {
        OutsideIsFree(w', w'.procs[j].pc);
      }
    }
  }

  lemma CalmHand(w: World, w': World, pc: Pc)
    requires HandOk(w, pc) && Calm(w, w')
    ensures HandOk(w', pc)
  {
    hide ReadText, ReadMedia;
    var ws := w.hist.writes;
    if MessageInHand(pc).Some? {
      ReadBeforeClear(ws, MessageInHand(pc).value, if MediaInHand(pc).Some? then MediaInHand(pc).value else []);
    }
  }

  lemma ReadBeforeClear(ws: seq<Write>, message: seq<string>, media: seq<Attachment>)
    ensures ReadText(ws, message) ==> ReadText(ws + [Wiped], message)
    ensures ReadMedia(ws, media) ==> ReadMedia(ws + [Wiped], media)
  {
    assert (ws + [Wiped])[..|ws|] == ws;
  }

  lemma SinceGrows(ws: seq<Write>, x: Write)
    ensures TextsSince(ws + [x]) ==
            if x.Text? then TextsSince(ws) + [x.content] else if x.Media? then TextsSince(ws) else []
    ensures MediaSince(ws + [x]) ==
            if x.Text? then MediaSince(ws) else if x.Media? then MediaSince(ws) + x.atts else []
  {
    assert (ws + [x])[..|ws|] == ws;
  }

  lemma FreshId(w: World)
    requires ProcsOk(w)
    ensures w.nextProc !in w.procs
  {
  }

  lemma SpentGrows(ls: seq<Launch>, l: Launch)
    ensures Spent(ls + [l]) == Spent(ls) + {l.source}
  {
    var both := ls + [l];
    forall s | s in Spent(ls) + {l.source} ensures s in Spent(both) {
      if s == l.source {
        assert both[|ls|].source == s;
      } else {
        var k :| 0 <= k < |ls| && ls[k].source == s;
        assert both[k].source == s;
      }
    }
  }

  /** When an operation keeps the shared part of the invariant. */
  predicate OpOk(w: World, op: Op) {
    match op
    case PutStage(s) => !s.Window?
    case OpenWindow(_) => w.hist.timer.Some?
    case StartAI(source, message, media, seen) =>
      && Unspent(w, source) && !w.stored.Window?
      && ReadText(w.hist.writes, message) && ReadMedia(w.hist.writes, media)
      && (source.FromWindow? ==> Quiet(w.hist.timer, w.now) && seen == w.hist.appended)
    case _ => true
  }

  lemma OpKeepsStore(w: World, id: nat, inst: nat, op: Op)
    requires StoreOk(w) && OpOk(w, op)
    ensures StoreOk(Do(w, id, inst, op))
  {
    hide ReadText, ReadMedia, TextsSince, MediaSince;
    match op
    case PushText(content) => SinceGrows(w.hist.writes, Text(content));
    case PushMedia(atts) => SinceGrows(w.hist.writes, Media(atts));
    case ClearPair => SinceGrows(w.hist.writes, Wiped);
    case StartAI(source, message, media, seen) =>
      if inst in w.entries {
        var h := w.hist;
        SpentGrows(h.launches, Launch(w.entries[inst].gen, source, message, media, w.now,
                                      h.timer, seen, h.appended, h.writes));
      }
    case _ =>
  }

  lemma ProgramOk(w: World, id: nat, pc: Pc, out: Outcome)
    requires ProcOk(w, id, pc)
    ensures OpOk(w, OpAt(pc, out))
  {
  }

  /** The first half of `Process`, up to the entry of the new turn. */
  predicate BeforeEntry(at: ProcessAt) {
    at.Locking? || at.Reading? || at.Taking? || at.Cancelling? || at.Clearing? || at.Storing?
  }

  predicate AfterEntry(at: ProcessAt) {
    at.Appending? || at.Attaching? || at.Arming? || at.Opening?
  }

  lemma ProcessNextOk(w: World, id: nat, inst: nat, pc: Pc, out: Outcome)
    requires StoreOk(w) && ProcOk(w, id, pc) && pc.InProcess?
    ensures var next := NextPc(w, inst, pc, out);
            next.Some? ==> ProcOk(Effect(w, id, inst, OpAt(pc, out), out), id, next.value)
  {
    if BeforeEntry(pc.pat) {
      BeforeEntryNextOk(w, id, inst, pc, out);
    } else if AfterEntry(pc.pat) {
      AfterEntryNextOk(w, id, inst, pc, out);
    } else {
      LastNextOk(w, id, inst, pc, out);
    }
  }

  lemma BeforeEntryNextOk(w: World, id: nat, inst: nat, pc: Pc, out: Outcome)
    requires StoreOk(w) && ProcOk(w, id, pc) && pc.InProcess? && BeforeEntry(pc.pat)
    ensures var next := NextPc(w, inst, pc, out);
            next.Some? ==> ProcOk(Effect(w, id, inst, OpAt(pc, out), out), id, next.value)
  {
    hide ReadText, ReadMedia, TextsSince, MediaSince, QuietLaunches, LaunchesRead;
    hide NextAdvance, NextRecover, NextReply, AdvanceOp, RecoverOp, ReplyOp, CancelOp;
  }

  lemma AfterEntryNextOk(w: World, id: nat, inst: nat, pc: Pc, out: Outcome)
    requires StoreOk(w) && ProcOk(w, id, pc) && pc.InProcess? && AfterEntry(pc.pat)
    ensures var next := NextPc(w, inst, pc, out);
            next.Some? ==> ProcOk(Effect(w, id, inst, OpAt(pc, out), out), id, next.value)
  {
    hide ReadText, ReadMedia, TextsSince, MediaSince, Granted, QuietLaunches, LaunchesRead;
    hide NextAdvance, NextRecover, NextReply, AdvanceOp, RecoverOp, ReplyOp, CancelOp;
  }

  lemma LastNextOk(w: World, id: nat, inst: nat, pc: Pc, out: Outcome)
    requires StoreOk(w) && ProcOk(w, id, pc) && pc.InProcess? && !BeforeEntry(pc.pat) && !AfterEntry(pc.pat)
    ensures var next := NextPc(w, inst, pc, out);
            next.Some? ==> ProcOk(Effect(w, id, inst, OpAt(pc, out), out), id, next.value)
  {
    ReadNow(w.hist.writes);
    hide ReadText, ReadMedia, TextsSince, MediaSince, Granted, QuietLaunches, LaunchesRead;
    hide NextAdvance, NextRecover, NextReply, AdvanceOp, RecoverOp, ReplyOp, CancelOp;
  }

  lemma ReadNow(ws: seq<Write>)
    ensures ReadText(ws, TextsSince(ws)) && ReadMedia(ws, MediaSince(ws)) && ReadMedia(ws, [])
  {
  }

  lemma AdvanceNextOk(w: World, id: nat, inst: nat, pc: Pc, out: Outcome)
    requires StoreOk(w) && ProcOk(w, id, pc) && pc.InAdvance?
    ensures var next := NextPc(w, inst, pc, out);
            next.Some? ==> ProcOk(Effect(w, id, inst, OpAt(pc, out), out), id, next.value)
  {
    hide NextProcess, NextRecover, NextReply, ProcessOp, RecoverOp, ReplyOp, CancelOp, Granted, QuietLaunches;
    if pc.aat.AdvLock? || pc.aat.AdvLaunch? || pc.aat.AdvUnlock? {
      AdvanceEdgeOk(w, id, inst, pc, out);
    } else {
      AdvanceMiddleOk(w, id, inst, pc, out);
    }
  }

  lemma AdvanceEdgeOk(w: World, id: nat, inst: nat, pc: Pc, out: Outcome)
    requires ProcOk(w, id, pc) && pc.InAdvance? && (pc.aat.AdvLock? || pc.aat.AdvLaunch? || pc.aat.AdvUnlock?)
    ensures var next := NextPc(w, inst, pc, out);
            next.Some? ==> ProcOk(Effect(w, id, inst, OpAt(pc, out), out), id, next.value)
  {
  }

  lemma AdvanceMiddleOk(w: World, id: nat, inst: nat, pc: Pc, out: Outcome)
    requires StoreOk(w) && ProcOk(w, id, pc) && pc.InAdvance?
    requires !pc.aat.AdvLock? && !pc.aat.AdvLaunch? && !pc.aat.AdvUnlock?
    ensures var next := NextPc(w, inst, pc, out);
            next.Some? ==> ProcOk(Effect(w, id, inst, OpAt(pc, out), out), id, next.value)
  {
    hide NextProcess, NextRecover, NextReply, ProcessOp, RecoverOp, ReplyOp, CancelOp, Granted, QuietLaunches;
  }

  lemma OutsideNextOk(w: World, id: nat, inst: nat, pc: Pc, out: Outcome)
    requires ProcOk(w, id, pc) && !pc.InProcess? && !pc.InAdvance?
    ensures var w1 := Effect(w, id, inst, OpAt(pc, out), out);
            var next := NextPc(w, inst, pc, out);
            Calm(w, w1) && (next.Some? ==> ProcOk(w1, id, next.value))
  {
    OutsideOps(pc, out);
    OutsideStays(w, inst, pc, out);
    hide NextPc, OpAt;
    OutsideCalm(w, id, inst, OpAt(pc, out), out);
    var next := NextPc(w, inst, pc, out);
    if next.Some? {
      OutsideIsFree(Effect(w, id, inst, OpAt(pc, out), out), next.value);
    }
  }

  lemma OutsideOps(pc: Pc, out: Outcome)
    requires !pc.InProcess? && !pc.InAdvance?
    ensures var op := OpAt(pc, out);
            && !op.Acquire? && !op.Release? && !op.PushText? && !op.PushMedia? && !op.SetTimer? && !op.OpenWindow?
            && !op.StartAI? && (op.PutStage? ==> !op.s.Window?) && (op.StoreEntry? ==> !op.zero)
  {
  }

  lemma OutsideStays(w: World, inst: nat, pc: Pc, out: Outcome)
    requires !pc.InProcess? && !pc.InAdvance?
    ensures var next := NextPc(w, inst, pc, out);
            next.Some? ==> !Holding(next.value) && PathOk(next.value)
  {
  }

  lemma OutsideCalm(w: World, id: nat, inst: nat, op: Op, out: Outcome)
    requires !op.Acquire? && !op.Release? && !op.PushText? && !op.PushMedia? && !op.SetTimer? && !op.OpenWindow?
    requires !op.StartAI? && (op.PutStage? ==> !op.s.Window?) && (op.StoreEntry? ==> !op.zero)
    ensures var w1 := Effect(w, id, inst, op, out); Calm(w, w1) && w1.nextProc == w.nextProc
  {
  }

  lemma EffectMoves(w: World, id: nat, inst: nat, op: Op, out: Outcome)
    requires w.nextProc !in w.procs
    ensures OnlyMoved(w, Effect(w, id, inst, op, out), id)
  {
  }

  lemma MoveKeeps(w: World, w1: World, id: nat, inst: nat, next: Option<Pc>)
    requires ProcsOk(w) && StoreOk(w1) && id in w.procs && OnlyMoved(w, w1, id)
    requires next.Some? ==> ProcOk(w1, id, next.value)
    requires w.lock == Some(id) || Calm(w, w1)
    ensures Inv(Move(w1, id, inst, next))
  {
    if w.lock == Some(id) {
      HolderStep(w, Move(w1, id, inst, next), id);
    } else {
      CalmStep(w, Move(w1, id, inst, next), id);
    }
  }

  lemma NextOk(w: World, id: nat, inst: nat, pc: Pc, out: Outcome)
    requires StoreOk(w) && ProcOk(w, id, pc)
    ensures var next := NextPc(w, inst, pc, out);
            next.Some? ==> ProcOk(Effect(w, id, inst, OpAt(pc, out), out), id, next.value)
  {
    if pc.InProcess? {
      ProcessNextOk(w, id, inst, pc, out);
    } else if pc.InAdvance? {
      AdvanceNextOk(w, id, inst, pc, out);
    } else {
      OutsideNextOk(w, id, inst, pc, out);
    }
  }

  /** Only the operations of a locked section can be noticed by a lock holder. */
  lemma StepKeeps(w: World, id: nat, out: Outcome)
    requires Inv(w) && Enabled(w, Run(id, out))
    ensures Inv(Apply(w, Run(id, out)))
  {
    var Proc(inst, pc) := w.procs[id];
    var op := OpAt(pc, out);
    var w1 := Effect(w, id, inst, op, out);
    assert ProcOk(w, id, pc);
    FreshId(w);
    ProgramOk(w, id, pc, out);
    OpKeepsStore(w, id, inst, op);
    NextOk(w, id, inst, pc, out);
    EffectMoves(w, id, inst, op, out);
    if !Holding(pc) {
      if Acquires(pc) {
        if Applied(out) {
          NobodyHolds(w);
        }
      } else {
        OutsideNextOk(w, id, inst, pc, out);
      }
    }
    MoveKeeps(w, w1, id, inst, NextPc(w, inst, pc, out));
  }

  lemma NobodyHolds(w: World)
    requires ProcsOk(w) && (w.lock.Some? && w.lock.value in w.procs ==> !Holding(w.procs[w.lock.value].pc))
    ensures forall j :: j in w.procs ==> !Holding(w.procs[j].pc)
  {
    forall j | j in w.procs ensures !Holding(w.procs[j].pc) {
      assert ProcOk(w, j, w.procs[j].pc);
    }
  }

  lemma EnvironmentKeeps(w: World, a: Action)
    requires Inv(w) && Enabled(w, a) && !a.Run?
    ensures Inv(Apply(w, a))
  {
    FreshId(w);
    if a.ExpireLock? {
      NobodyHolds(w);
    }
    EnvironmentCalm(w, a);
    hide Apply, StoreOk;
    var w' := Apply(w, a);
    if w.nextProc in w'.procs {
      OutsideIsFree(w', w'.procs[w.nextProc].pc);
    }
    CalmStep(w, w', w.nextProc);
  }

  lemma EnvironmentCalm(w: World, a: Action)
    requires Enabled(w, a) && !a.Run? && StoreOk(w) && w.nextProc !in w.procs
    requires a.ExpireLock? ==> forall id :: id in w.procs ==> !Holding(w.procs[id].pc)
    ensures var w', id := Apply(w, a), w.nextProc;
            && Calm(w, w') && OnlyMoved(w, w', id) && StoreOk(w')
            && (id in w'.procs ==> id < w'.nextProc && !Holding(w'.procs[id].pc) && PathOk(w'.procs[id].pc))
  {
    hide ReadText, ReadMedia, TextsSince, MediaSince, Granted, QuietLaunches, LaunchesRead;
  }

  lemma ActionKeeps(w: World, a: Action)
    requires Inv(w) && Enabled(w, a)
    ensures Inv(Apply(w, a))
  {
    if a.Run? {
      StepKeeps(w, a.id, a.out);
    } else {
      EnvironmentKeeps(w, a);
    }
  }

  lemma {:induction false} RunKeeps(w: World, acts: seq<Action>)
    requires Inv(w) && Runs(w, acts)
    ensures Inv(After(w, acts))
    decreases |acts|
  {
    if acts != [] {
      ActionKeeps(w, acts[0]);
      RunKeeps(Apply(w, acts[0]), acts[1..]);
    }
  }

  // ---------------------------------------------------------------- theorems

  lemma {:induction false} DistinctFits<T>(xs: seq<T>, pool: set<T>)
    requires forall i, j :: 0 <= i < j < |xs| ==> xs[i] != xs[j]
    requires forall i :: 0 <= i < |xs| ==> xs[i] in pool
    ensures |xs| <= |pool|
  {
    if xs != [] {
      DistinctFits(xs[1..], pool - {xs[0]});
    }
  }

  lemma InitOk(w: World)
    requires Initial(w)
    ensures Inv(w)
  {
    assert Spent(w.hist.launches) == {};
  }

  lemma Reach(w: World)
    requires Reachable(w)
    ensures Inv(w)
  {
    var init, acts :| Initial(init) && Runs(init, acts) && After(init, acts) == w;
    InitOk(init);
    RunKeeps(init, acts);
  }

  /** In every interleaving each debounce window is consumed by at most one AI turn,
      so there are at most as many AI turns as windows opened and zero-debounce
      turns begun. */
  lemma WindowsPayOnce(w: World)
    requires Reachable(w)
    ensures forall i, j :: 0 <= i < j < |w.hist.launches| ==>
              w.hist.launches[i].source != w.hist.launches[j].source
    ensures forall i :: 0 <= i < |w.hist.launches| && w.hist.launches[i].source.FromWindow? ==>
              w.hist.launches[i].source.id < w.hist.windows
    ensures |w.hist.launches| <= w.hist.windows + w.hist.zeroTurns
  {
    Reach(w);
    var ls := w.hist.launches;
    var sources := seq(|ls|, i requires 0 <= i < |ls| => ls[i].source);
    forall i | 0 <= i < |ls| ensures ls[i].source in w.hist.granted {
      assert ls[i].source in Spent(ls);
    }
    DistinctFits(sources, w.hist.granted);
  }

  /** In every interleaving, when an expired window starts an AI turn, the timer set
      last has run its full length or was removed by ClearState, and no message was
      appended between the timer check and the launch. */
  lemma QuietPeriod(w: World, k: nat)
    requires Reachable(w) && k < |w.hist.launches| && w.hist.launches[k].source.FromWindow?
    ensures var l := w.hist.launches[k];
            && l.timer.Some?
            && (l.timer.value.cleared || l.timer.value.setAt + l.timer.value.ttl <= l.at)
            && l.appended == l.appendedAtCheck
  {
    Reach(w);
  }

  /** In every interleaving the message of an AI turn is made of exactly the contents
      appended since the last clear before the buffer was read, in order, and its media
      are those appended since the last clear before they were read, or none if that read
      failed; nothing but a clear has come between a read and the launch. */
  lemma LaunchCarriesTheBuffer(w: World, k: nat)
    requires Reachable(w) && k < |w.hist.launches|
    ensures var l := w.hist.launches[k];
            ReadText(l.writes, l.message) && ReadMedia(l.writes, l.media)
  {
    Reach(w);
  }

  /** Two goroutines are never inside a locked section together. */
  lemma MutualExclusion(w: World, i: nat, j: nat)
    requires Reachable(w)
    requires i in w.procs && j in w.procs && Holding(w.procs[i].pc) && Holding(w.procs[j].pc)
    ensures i == j
  {
    Reach(w);
    assert ProcOk(w, i, w.procs[i].pc) && ProcOk(w, j, w.procs[j].pc);
  }
}
