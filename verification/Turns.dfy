/** What one event or one expired timer does to the stored data of its pair when
    nothing fails and nobody interferes, and what follows for a whole window. */
module Turns {
  import opened Model
  import opened Sequences

  // ----------------------------------------------------------- stored data

  datatype Stage = StageIncoming | StageDebounce | StageAI | StageDispatch | StageDone

  /** The persisted state; only debounce records carry a turn. */
  datatype PipelineState = PipelineState(stage: Stage, turn: Turn)

  const NO_TURN := Turn(BotConfig(0, "", false, 0, 0, 0.0), "", "", "", "")

  function Plain(stage: Stage): PipelineState {
    PipelineState(stage, NO_TURN)
  }

  function Debouncing(turn: Turn): PipelineState {
    PipelineState(StageDebounce, turn)
  }

  datatype PairData = PairData(
    state: Option<PipelineState>,
    buffer: seq<string>,
    attachments: seq<Attachment>,
    timer: Option<nat>)         // expiry time in milliseconds

  const NO_DATA := PairData(None, [], [], None)

  predicate InStage(d: PairData, stage: Stage) {
    d.state.Some? && d.state.value.stage == stage
  }

  predicate TimerRunning(d: PairData, now: nat) {
    d.timer.Some? && now < d.timer.value
  }

  // ----------------------------------------------------- debounce operations

  /** The message sent to the AI: the buffered contents, blank-line separated. */
  function Message(buffer: seq<string>): string {
    Join(buffer, "\n\n")
  }

  function Armed(d: PairData, now: nat, cfg: BotConfig): PairData {
    if cfg.debounceTime > 0 then d.(timer := Some(now + cfg.debounceTime * MILLIS_PER_SECOND)) else d
  }

  /** The three writes of `debounceEngine.Start` and of `Reset`. */
  function Buffered(d: PairData, now: nat, ev: Event): PairData {
    Armed(d.(buffer := d.buffer + [ev.content], attachments := d.attachments + ev.attachments), now, ev.turn.cfg)
  }

  // --------------------------------------------------------- one event

  /** Whether `Process` begins a new turn, cancelling the entry of the pair. */
  predicate StartsTurn(d: PairData) {
    !InStage(d, StageDebounce) && !InStage(d, StageDone)
  }

  /** The data on which a new turn starts: an interrupted reply is cleared away. */
  function Cleaned(d: PairData): PairData {
    if InStage(d, StageAI) || InStage(d, StageDispatch) then NO_DATA else d
  }

  function AfterEvent(d: PairData, now: nat, ev: Event): PairData {
    if InStage(d, StageDone) then d
    else if InStage(d, StageDebounce) then Buffered(d, now, ev)
    else
      Buffered(Cleaned(d), now, ev).(state := Some(
        if ev.turn.cfg.debounceTime == 0 then Plain(StageAI)
        else Debouncing(ev.turn)))
  }

  // ------------------------------------------------------ one expired timer

  predicate Due(d: PairData, now: nat) {
    InStage(d, StageDebounce) && !TimerRunning(d, now)
  }

  function AfterAdvance(d: PairData, now: nat): PairData {
    if Due(d, now) then d.(state := Some(Plain(StageAI))) else d
  }

  // ----------------------------------------------------------- a whole window

  /** An event processed at time `at`. The handler's early write makes it meet
      StageIncoming, unless another event's processing has replaced that write. */
  datatype Arrival = Arrival(ev: Event, at: nat, meetsIncoming: bool)

  function Met(d: PairData, meetsIncoming: bool): PairData {
    if meetsIncoming then d.(state := Some(Plain(StageIncoming))) else d
  }

  function AfterArrivals(d: PairData, arrivals: seq<Arrival>): PairData
    decreases |arrivals|
  {
    if arrivals == [] then d
    else
      var a := arrivals[0];
      AfterArrivals(AfterEvent(Met(d, a.meetsIncoming), a.at, a.ev), arrivals[1..])
  }

  predicate AllDebounced(arrivals: seq<Arrival>) {
    forall k :: 0 <= k < |arrivals| ==> arrivals[k].ev.turn.cfg.debounceTime > 0
  }

  function Contents(arrivals: seq<Arrival>): seq<string> {
    seq(|arrivals|, k requires 0 <= k < |arrivals| => arrivals[k].ev.content)
  }

  function Media(arrivals: seq<Arrival>): seq<Attachment> {
    if arrivals == [] then [] else arrivals[0].ev.attachments + Media(arrivals[1..])
  }

  /** When the last arrival's timer expires. */
  function Expiry(arrivals: seq<Arrival>): nat
    requires arrivals != [] && AllDebounced(arrivals)
  {
    var last := arrivals[|arrivals| - 1];
    last.at + last.ev.turn.cfg.debounceTime * MILLIS_PER_SECOND
  }

  /** The turn that recovery would rebuild: that of the last arrival that met
      StageIncoming, since `resetDebounce` keeps the persisted turn. */
  function TurnAfter(turn: Turn, arrivals: seq<Arrival>): Turn
    decreases |arrivals|
  {
    if arrivals == [] then turn
    else TurnAfter(if arrivals[0].meetsIncoming then arrivals[0].ev.turn else turn, arrivals[1..])
  }

  function InWindow(turn: Turn, buffer: seq<string>, media: seq<Attachment>, timer: Option<nat>): PairData {
    PairData(Some(Debouncing(turn)), buffer, media, timer)
  }

  /** One more event of a window, whichever branch it takes. */
  lemma OneMoreEvent(d: PairData, turn: Turn, a: Arrival)
    requires d.state == Some(Debouncing(turn)) && a.ev.turn.cfg.debounceTime > 0
    ensures AfterEvent(Met(d, a.meetsIncoming), a.at, a.ev) ==
            InWindow(TurnAfter(turn, [a]), d.buffer + [a.ev.content], d.attachments + a.ev.attachments,
                     Some(a.at + a.ev.turn.cfg.debounceTime * MILLIS_PER_SECOND))
  {
  }

  /** Any number of events inside a window, in any mix of the two branches: the
      contents and the media pile up in order, the timer is that of the last event,
      the stage is debounce. */
  lemma {:induction false} WindowAccumulates(d: PairData, turn: Turn, arrivals: seq<Arrival>)
    requires d.state == Some(Debouncing(turn)) && AllDebounced(arrivals)
    ensures AfterArrivals(d, arrivals) ==
            InWindow(TurnAfter(turn, arrivals), d.buffer + Contents(arrivals), d.attachments + Media(arrivals),
                     if arrivals == [] then d.timer else Some(Expiry(arrivals)))
    decreases |arrivals|
  {
    if arrivals == [] {
      assert d.buffer + Contents(arrivals) == d.buffer;
      assert d.attachments + Media(arrivals) == d.attachments;
    } else {
      var a := arrivals[0];
      OneMoreEvent(d, turn, a);
      RestOfWindow(d, turn, arrivals);
      WindowAccumulates(AfterEvent(Met(d, a.meetsIncoming), a.at, a.ev), TurnAfter(turn, [a]), arrivals[1..]);
    }
  }

  lemma RestOfWindow(d: PairData, turn: Turn, arrivals: seq<Arrival>)
    requires arrivals != [] && AllDebounced(arrivals)
    ensures var a, rest := arrivals[0], arrivals[1..];
            && AllDebounced(rest)
            && (rest != [] ==> Expiry(rest) == Expiry(arrivals))
            && d.buffer + [a.ev.content] + Contents(rest) == d.buffer + Contents(arrivals)
            && d.attachments + a.ev.attachments + Media(rest) == d.attachments + Media(arrivals)
            && TurnAfter(TurnAfter(turn, [a]), rest) == TurnAfter(turn, arrivals)
  {
    var a, rest := arrivals[0], arrivals[1..];
    assert [a][1..] == [];
    forall k | 0 <= k < |rest| ensures rest[k].ev.turn.cfg.debounceTime > 0 {
      assert rest[k] == arrivals[k + 1];
    }
    assert [a.ev.content] + Contents(rest) == Contents(arrivals);
  }

  predicate SameEvents(xs: seq<Arrival>, ys: seq<Arrival>) {
    |xs| == |ys| && forall k :: 0 <= k < |xs| ==> xs[k].ev == ys[k].ev && xs[k].at == ys[k].at
  }

  lemma {:induction false} SameMedia(xs: seq<Arrival>, ys: seq<Arrival>)
    requires SameEvents(xs, ys)
    ensures Media(xs) == Media(ys) && Contents(xs) == Contents(ys)
  {
    if xs != [] {
      SameMedia(xs[1..], ys[1..]);
    }
  }

  /** Which branch each event takes makes no difference to the buffer, the media, the
      timer or the stage: only the persisted turn can differ. */
  lemma BranchesAgree(d: PairData, turn: Turn, xs: seq<Arrival>, ys: seq<Arrival>)
    requires d.state == Some(Debouncing(turn))
    requires AllDebounced(xs) && SameEvents(xs, ys)
    ensures AfterArrivals(d, xs) ==
            AfterArrivals(d, ys).(state := Some(Debouncing(TurnAfter(turn, xs))))
  {
    assert AllDebounced(ys);
    SameMedia(xs, ys);
    WindowAccumulates(d, turn, xs);
    WindowAccumulates(d, turn, ys);
  }

  /** What the message is made of: nothing, the one content, or what it was, a blank line
      and the new content. */
  lemma MessageGrows(buffer: seq<string>, content: string)
    ensures Message([]) == "" && Message([content]) == content
    ensures buffer != [] ==> Message(buffer + [content]) == Message(buffer) + "\n\n" + content
  {
    if buffer != [] {
      JoinConcat(buffer, [content], "\n\n");
    }
  }

  predicate HasBlankLine(s: string) {
    exists o :: 0 <= o < |s| - 1 && s[o] == '\n' && s[o + 1] == '\n'
  }

  /** No content contains a blank line and none, but for the last, ends in a line break. */
  predicate Separable(contents: seq<string>) {
    && (forall k :: 0 <= k < |contents| ==> !HasBlankLine(contents[k]))
    && (forall k :: 0 <= k < |contents| - 1 ==> contents[k] == "" || contents[k][|contents[k]| - 1] != '\n')
  }

  lemma BlankLineFree(x: string)
    requires !HasBlankLine(x)
    ensures NoSep(x, "\n\n")
    ensures x == "" || x[|x| - 1] != '\n' ==> Whole(x, "\n\n")
  {
    forall o | 0 <= o <= |x| ensures !("\n\n" <= x[o..]) {
      assert o < |x| - 1 ==> x[o..][0] == x[o] && x[o..][1] == x[o + 1];
    }
    var y := x + "\n\n";
    forall o | 0 <= o < |x| && (x == "" || x[|x| - 1] != '\n') ensures !("\n\n" <= y[o..]) {
      assert y[o..][0] == y[o] && y[o..][1] == y[o + 1];
      assert y[o] == x[o] && (o + 1 < |x| ==> y[o + 1] == x[o + 1]);
    }
  }

  /** The contents can be read off the message: splitting it at blank lines gives them back. */
  lemma MessageSplits(buffer: seq<string>)
    requires buffer != [] && Separable(buffer)
    ensures SplitAt(Message(buffer), "\n\n") == buffer
  {
    hide HasBlankLine, NoSep, Whole, Join;
    forall k | 0 <= k < |buffer| ensures NoSep(buffer[k], "\n\n") && (k < |buffer| - 1 ==> Whole(buffer[k], "\n\n")) {
      BlankLineFree(buffer[k]);
    }
    SplitJoin(buffer, "\n\n");
  }

  /** From a cleared pair to the AI: the buffer holds every content since the clear, in lock
      order, and the message consists of them, so that splitting it at blank lines gives them
      back; the pair is due once the last event's debounce seconds are over, and not a
      moment earlier. */
  lemma WindowMessage(first: Arrival, more: seq<Arrival>, now: nat)
    requires AllDebounced([first] + more)
    ensures var all := [first] + more;
            var d, last := AfterArrivals(NO_DATA, all), all[|all| - 1];
            && d.buffer == Contents(all)
            && d.attachments == Media(all)
            && (Separable(Contents(all)) ==> SplitAt(Message(d.buffer), "\n\n") == Contents(all))
            && (Due(d, now) <==> now >= last.at + 1000 * last.ev.turn.cfg.debounceTime)
  {
    hide Join, Contents, Media, Separable, SplitAt;
    var all := [first] + more;
    assert all[0] == first && all[1..] == more;
    RestOfWindow(NO_DATA, NO_TURN, all);
    WindowAccumulates(AfterEvent(Met(NO_DATA, first.meetsIncoming), first.at, first.ev), first.ev.turn, more);
    if Separable(Contents(all)) {
      ContentsOfAll(all);
      MessageSplits(Contents(all));
    }
  }

  lemma ContentsOfAll(arrivals: seq<Arrival>)
    ensures |Contents(arrivals)| == |arrivals|
  {
  }

  // -------------------------------------------------------- one event, by stage

  /** What one event does, stage by stage. An event without stage or met as incoming is added
      to what is there; one that interrupts a reply starts afresh; one inside a window
      extends it and keeps the persisted turn; one that meets the stage done changes nothing. */
  lemma EventByStage(d: PairData, now: nat, ev: Event)
    requires ev.Valid()
    ensures var seconds, d' := ev.turn.cfg.debounceTime, AfterEvent(d, now, ev);
            var stage := if d.state.Some? then Some(d.state.value.stage) else None;
            && (stage == Some(StageDone) ==> d' == d)
            && (stage == Some(StageAI) || stage == Some(StageDispatch) ==>
                  && d'.buffer == [ev.content] && d'.attachments == ev.attachments
                  && d'.timer == if seconds > 0 then Some(now + 1000 * seconds) else None)
            && (stage == None || stage == Some(StageIncoming) || stage == Some(StageDebounce) ==>
                  && d'.buffer == d.buffer + [ev.content] && d'.attachments == d.attachments + ev.attachments
                  && d'.timer == if seconds > 0 then Some(now + 1000 * seconds) else d.timer)
            && (stage == Some(StageDebounce) ==> d'.state == d.state)
            && (stage != Some(StageDone) && stage != Some(StageDebounce) ==>
                  d'.state.Some? && d'.state.value.stage == (if seconds == 0 then StageAI else StageDebounce)
                  && (seconds > 0 ==> d'.state.value.turn == ev.turn))
  {
    assert [] + [ev.content] == [ev.content] && [] + ev.attachments == ev.attachments;
  }

  /** What an attempt to advance does: a debounce pair whose timer has run out or is gone
      moves to AI and keeps its buffers; any other pair is left as it is. */
  lemma AdvanceByTimer(d: PairData, now: nat)
    ensures var d' := AfterAdvance(d, now);
            var debounce := d.state.Some? && d.state.value.stage == StageDebounce;
            && d'.buffer == d.buffer && d'.attachments == d.attachments && d'.timer == d.timer
            && (debounce && (d.timer == None || d.timer.value <= now) ==>
                  d'.state.Some? && d'.state.value.stage == StageAI)
            && (!debounce || (d.timer != None && d.timer.value > now) ==> d' == d)
  {
  }
}
