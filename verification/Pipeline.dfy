/** The pipeline service, one call at a time: what `Process`, `advanceToAI`, `Start`
    and one pass of the poller do when no store operation fails and no other goroutine
    interferes. Module Machine has the interleavings. */
module Pipeline {
  import opened Model
  import opened Sequences
  import opened Keys
  import opened Turns
  import opened Repository
  import opened Debounce

  const MAX_RECOVERY_PAIRS := 10_000

  /** An AI goroutine started for a pair. */
  datatype AICall = AICall(pair: PairID, gen: nat, message: string, media: seq<Attachment>, turn: Turn)

  datatype ProcessError = NoError | LockFailed

  /** A pair that the poller or recovery moves to AI. */
  predicate Moves(kv: KeySpace, now: nat, p: PairID) {
    Due(Data(kv, p), now) && !Locked(kv, p)
  }

  /** What one attempt to advance a pair leaves of its data. */
  function Advanced(kv: KeySpace, now: nat, p: PairID): PairData {
    if Locked(kv, p) then Data(kv, p) else AfterAdvance(Data(kv, p), now)
  }

  /** A pass over a set of pairs has advanced those and left the rest alone. */
  ghost predicate PassedOver(kv: KeySpace, kv': KeySpace, now: nat, done: set<PairID>) {
    forall q: PairID ::
      && Data(kv', q) == (if q in done then Advanced(kv, now, q) else Data(kv, q))
      && Locked(kv', q) == Locked(kv, q)
  }

  function CallOf(kv: KeySpace, e: Entry, p: PairID): AICall {
    AICall(p, e.gen, Message(Data(kv, p).buffer), Data(kv, p).attachments, e.turn)
  }

  predicate CallFits(kv: KeySpace, now: nat, done: set<PairID>, entries: map<string, Entry>, c: AICall) {
    c.pair in done && Moves(kv, now, c.pair) && PairKey(c.pair) in entries
    && c == CallOf(kv, entries[PairKey(c.pair)], c.pair)
  }

  ghost predicate Called(calls: seq<AICall>, q: PairID) {
    exists k :: 0 <= k < |calls| && calls[k].pair == q
  }

  /** The AI calls of a pass: one for each pair that moved, with its data. */
  ghost predicate CallsOfPass(kv: KeySpace, now: nat, done: set<PairID>,
                              entries: map<string, Entry>, calls: seq<AICall>)
  {
    && (forall k :: 0 <= k < |calls| ==> CallFits(kv, now, done, entries, calls[k]))
    && (forall i, j :: 0 <= i < j < |calls| ==> calls[i].pair != calls[j].pair)
    && (forall q: PairID :: q in done && Moves(kv, now, q) ==> Called(calls, q))
  }

  /** Generations are numbered in the order in which contexts are created, and no two
      entries share one. */
  ghost predicate GensOk(entries: map<string, Entry>, cancelled: set<nat>, nextGen: nat) {
    && (forall key :: key in entries ==> entries[key].gen < nextGen)
    && (forall g :: g in cancelled ==> g < nextGen)
    && (forall k1, k2 :: k1 in entries && k2 in entries && k1 != k2 ==> entries[k1].gen != entries[k2].gen)
  }

  class PipelineService {
    const repo: RedisRepository
    const debounce: DebounceEngine
    var entries: map<string, Entry>
    var cancelled: set<nat>     // generations whose context is cancelled
    var nextGen: nat
    var calls: seq<AICall>

    ghost predicate Valid()
      reads this, repo
    {
      && repo.Valid() && debounce.repo == repo
      && GensOk(entries, cancelled, nextGen)
    }

    constructor (repo: RedisRepository)
      requires repo.Valid()
      ensures Valid() && this.repo == repo && entries == map[] && calls == [] && cancelled == {}
    {
      this.repo := repo;
      debounce := new DebounceEngine(repo);
      entries, cancelled, nextGen, calls := map[], {}, 0, [];
    }

    method CancelPair(p: PairID)
      requires Valid()
      modifies this`entries, this`cancelled
      ensures Valid() && entries == old(entries) - {PairKey(p)}
      ensures cancelled == old(cancelled) +
              if PairKey(p) in old(entries) then {old(entries)[PairKey(p)].gen} else {}
      ensures forall key :: key in entries ==> (entries[key].gen in cancelled <==> entries[key].gen in old(cancelled))
    {
      var key := PairKey(p);
      if key in entries {
        var entry := entries[key];
        entries := entries - {key};
        cancelled := cancelled + {entry.gen};
      } else {
        assert entries == entries - {key};
      }
    }

    method Cancel(p: PairID)
      requires Valid()
      modifies this`entries, this`cancelled, repo`kv
      ensures Valid() && entries == old(entries) - {PairKey(p)}
      ensures cancelled == old(cancelled) +
              if PairKey(p) in old(entries) then {old(entries)[PairKey(p)].gen} else {}
      ensures forall key :: key in entries ==> (entries[key].gen in cancelled <==> entries[key].gen in old(cancelled))
      ensures Data(repo.kv, p) == NO_DATA && Locked(repo.kv, p) == old(Locked(repo.kv, p))
      ensures OnlyPair(old(repo.kv), repo.kv, p)
    {
      CancelPair(p);
      repo.ClearState(p);
    }

    method StoreEntry(p: PairID, turn: Turn)
      requires Valid()
      modifies this`entries, this`nextGen
      ensures Valid() && entries == old(entries)[PairKey(p) := Entry(old(nextGen), turn)]
      ensures nextGen == old(nextGen) + 1 && old(nextGen) !in cancelled
    {
      PairKeyInverts(p);
      entries := entries[PairKey(p) := Entry(nextGen, turn)];
      nextGen := nextGen + 1;
    }

    method LaunchAIStage(p: PairID, message: string, media: seq<Attachment>)
      requires Valid()
      modifies this`calls
      ensures Valid()
      ensures calls == old(calls) +
              if PairKey(p) in entries
              then [AICall(p, entries[PairKey(p)].gen, message, media, entries[PairKey(p)].turn)] else []
    {
      var key := PairKey(p);
      if key in entries {
        calls := calls + [AICall(p, entries[key].gen, message, media, entries[key].turn)];
      } else {
        assert calls + [] == calls;
      }
    }

    method StartDebounce(p: PairID, ev: Event)
      requires Valid()
      modifies this`entries, this`nextGen, repo`kv
      ensures Valid()
      ensures Data(repo.kv, p) == Buffered(old(Data(repo.kv, p)), repo.now, ev)
                                  .(state := Some(Debouncing(ev.turn)))
      ensures entries == old(entries)[PairKey(p) := Entry(old(nextGen), ev.turn)] && nextGen == old(nextGen) + 1
      ensures old(nextGen) !in cancelled
      ensures OnlyPair(old(repo.kv), repo.kv, p) && Locked(repo.kv, p) == old(Locked(repo.kv, p))
    {
      StoreEntry(p, ev.turn);
      debounce.Start(p, ev);
      repo.SetState(p, Debouncing(ev.turn));
    }

    method SkipDebounce(p: PairID, ev: Event)
      requires Valid()
      modifies this`entries, this`nextGen, this`calls, repo`kv
      ensures Valid()
      ensures Data(repo.kv, p) == Buffered(old(Data(repo.kv, p)), repo.now, ev)
                                  .(state := Some(Plain(StageAI)))
      ensures entries == old(entries)[PairKey(p) := Entry(old(nextGen), ev.turn)] && nextGen == old(nextGen) + 1
      ensures old(nextGen) !in cancelled
      ensures calls == old(calls) + [AICall(p, old(nextGen), Message(Data(repo.kv, p).buffer),
                                            Data(repo.kv, p).attachments, ev.turn)]
      ensures OnlyPair(old(repo.kv), repo.kv, p) && Locked(repo.kv, p) == old(Locked(repo.kv, p))
    {
      StoreEntry(p, ev.turn);
      debounce.Start(p, ev);
      var message := debounce.GetBuffer(p);
      var media := repo.GetAttachments(p);
      repo.SetState(p, Plain(StageAI));
      LaunchAIStage(p, message, media);
    }

    /** The two branches of `Process` that begin a turn. */
    method BeginTurn(p: PairID, ev: Event, interrupt: bool)
      requires Valid()
      modifies this, repo`kv
      ensures Valid() && OnlyPair(old(repo.kv), repo.kv, p) && Locked(repo.kv, p) == old(Locked(repo.kv, p))
      ensures Data(repo.kv, p) ==
              Buffered(if interrupt then NO_DATA else old(Data(repo.kv, p)), repo.now, ev).(state := Some(
                if ev.turn.cfg.debounceTime == 0 then Plain(StageAI)
                else Debouncing(ev.turn)))
      ensures entries == old(entries)[PairKey(p) := Entry(old(nextGen), ev.turn)] && old(nextGen) !in cancelled
      ensures cancelled == old(cancelled) +
              if PairKey(p) in old(entries) then {old(entries)[PairKey(p)].gen} else {}
      ensures calls == old(calls) +
              if ev.turn.cfg.debounceTime == 0
              then [AICall(p, old(nextGen), Message(Data(repo.kv, p).buffer),
                           Data(repo.kv, p).attachments, ev.turn)] else []
    {
      hide GensOk, PairKey, Message, Data, Locked;
      CancelPair(p);
      if interrupt {
        repo.ClearState(p);
      }
      if ev.turn.cfg.debounceTime == 0 {
        SkipDebounce(p, ev);
      } else {
        StartDebounce(p, ev);
        assert calls + [] == calls;
      }
    }

    /** One event. When the pair is free, its data, its entry, the cancelled contexts
        and the AI calls change exactly as the event demands; no other pair notices. */
    method Process(p: PairID, ev: Event) returns (err: ProcessError)
      requires Valid()
      modifies this, repo`kv
      ensures Valid() && OnlyPair(old(repo.kv), repo.kv, p)
      ensures err == if old(Locked(repo.kv, p)) then LockFailed else NoError
      ensures err.LockFailed? ==> repo.kv == old(repo.kv) && entries == old(entries)
                                  && cancelled == old(cancelled) && calls == old(calls)
      ensures err.NoError? && StartsTurn(old(Data(repo.kv, p))) ==>
                PairKey(p) in entries && entries[PairKey(p)].gen !in cancelled
      ensures err.NoError? ==>
                && !Locked(repo.kv, p)
                && Data(repo.kv, p) == AfterEvent(old(Data(repo.kv, p)), repo.now, ev)
                && entries == (if StartsTurn(old(Data(repo.kv, p)))
                               then old(entries)[PairKey(p) := Entry(old(nextGen), ev.turn)] else old(entries))
                && cancelled == old(cancelled) +
                                (if StartsTurn(old(Data(repo.kv, p))) && PairKey(p) in old(entries)
                                 then {old(entries)[PairKey(p)].gen} else {})
                && calls == old(calls) +
                            (if StartsTurn(old(Data(repo.kv, p))) && ev.turn.cfg.debounceTime == 0
                             then [AICall(p, old(nextGen), Message(Data(repo.kv, p).buffer),
                                          Data(repo.kv, p).attachments, ev.turn)] else [])
    {
      hide GensOk, PairKey, Message, Buffered, Data, Locked;
      var ok := repo.AcquireLock(p);
      if !ok {
        return LockFailed;
      }
      var state := repo.GetState(p);
      if state.None? || state.value.stage.StageIncoming? {
        BeginTurn(p, ev, false);
      } else if state.value.stage.StageDebounce? {
        debounce.Reset(p, ev);
      } else if state.value.stage.StageAI? || state.value.stage.StageDispatch? {
        BeginTurn(p, ev, true);
      }
      repo.Unlock(p);
      err := NoError;
    }

    method AdvanceToAI(p: PairID)
      requires Valid()
      modifies this`calls, repo`kv
      ensures Valid() && OnlyPair(old(repo.kv), repo.kv, p) && Locked(repo.kv, p) == old(Locked(repo.kv, p))
      ensures Data(repo.kv, p) == Advanced(old(repo.kv), repo.now, p)
      ensures calls == old(calls) +
              if Moves(old(repo.kv), repo.now, p) && PairKey(p) in entries
              then [AICall(p, entries[PairKey(p)].gen, Message(old(Data(repo.kv, p)).buffer),
                           old(Data(repo.kv, p)).attachments, entries[PairKey(p)].turn)] else []
    {
      var ok := repo.AcquireLock(p);
      if !ok {
        return;
      }
      var state := repo.GetState(p);
      if state.Some? && state.value.stage.StageDebounce? {
        var running := repo.TimerExists(p);
        if !running {
          var message := debounce.GetBuffer(p);
          var media := repo.GetAttachments(p);
          repo.SetState(p, Plain(StageAI));
          LaunchAIStage(p, message, media);
        }
      }
      repo.Unlock(p);
    }

    /** One pair of the recovery loop of `Start`. */
    method RecoverPair(p: PairID)
      requires Valid()
      modifies this`entries, this`nextGen, this`calls, repo`kv
      ensures Valid() && OnlyPair(old(repo.kv), repo.kv, p) && Locked(repo.kv, p) == old(Locked(repo.kv, p))
      ensures Data(repo.kv, p) == Advanced(old(repo.kv), repo.now, p)
      ensures entries == Recovered(old(entries), old(nextGen), old(repo.kv), p)
      ensures calls == old(calls) +
              if Moves(old(repo.kv), repo.now, p)
              then [CallOf(old(repo.kv), entries[PairKey(p)], p)] else []
    {
      var state := repo.GetState(p);
      if state.None? || !state.value.stage.StageDebounce? {
        assert calls + [] == calls;
        return;
      }
      if PairKey(p) !in entries {
        StoreEntry(p, state.value.turn);
      }
      var running := repo.TimerExists(p);
      if !running {
        AdvanceToAI(p);
      } else {
        assert calls + [] == calls;
      }
    }

    /** Recovery. Every scanned pair in debounce has an entry afterwards, the old one or
        one rebuilt from the persisted turn; exactly the scanned pairs whose timer has
        run out and whose lock is free are in AI, each with one AI call; nothing else
        has changed. */
    method Start(pages: seq<seq<string>>)
      requires Valid()
      modifies this`entries, this`nextGen, this`calls, repo`kv
      ensures Valid()
      ensures var done := Elements(Cut(ParsedPairs(Flatten(pages)), MAX_RECOVERY_PAIRS));
              && PassedOver(old(repo.kv), repo.kv, repo.now, done)
              && EntriesRecovered(old(entries), entries, old(repo.kv), done)
              && |old(calls)| <= |calls| && calls[..|old(calls)|] == old(calls)
              && CallsOfPass(old(repo.kv), repo.now, done, entries, calls[|old(calls)|..])
    {
      var pairs := repo.ScanStates(pages, MAX_RECOVERY_PAIRS);
      ghost var before := |calls|;
      var i := 0;
      assert calls[before..] == [];
      while i < |pairs|
        invariant i <= |pairs| && Valid() && before <= |calls| && calls[..before] == old(calls)
        invariant PassedOver(old(repo.kv), repo.kv, repo.now, Elements(pairs[..i]))
        invariant EntriesRecovered(old(entries), entries, old(repo.kv), Elements(pairs[..i]))
        invariant CallsOfPass(old(repo.kv), repo.now, Elements(pairs[..i]), entries, calls[before..])
      {
        ghost var kv1, entries1, gen1, calls1 := repo.kv, entries, nextGen, calls;
        RecoverPair(pairs[i]);
        ElementsGrow(pairs, i);
        SuffixGrows(calls1, calls, before);
        RecoveryGrows(old(repo.kv), kv1, repo.kv, repo.now, Elements(pairs[..i]), old(entries), entries1, gen1,
                      calls1[before..], calls[before..], pairs[i]);
        i := i + 1;
      }
      assert pairs[..i] == pairs;
    }

    /** One pass of the poller; `keys` is the order in which Range visits the map. Every
        entry that is not cancelled has its pair advanced if it is due and free; nothing
        else changes. */
    method PollOnce(keys: seq<string>)
      requires Valid() && Canonical(entries) && (set key | key in keys) == entries.Keys
      modifies this`calls, repo`kv
      ensures Valid()
      ensures PassedOver(old(repo.kv), repo.kv, repo.now, Watched(keys, entries, cancelled))
      ensures |old(calls)| <= |calls| && calls[..|old(calls)|] == old(calls)
      ensures CallsOfPass(old(repo.kv), repo.now, Watched(keys, entries, cancelled), entries, calls[|old(calls)|..])
    {
      hide PassedOver, CallsOfPass, Watched, Advanced, Moves, OnlyPair, CallOf, PairKey, ParsePairKey, Data, Locked;
      ghost var before := |calls|;
      NothingPassed(repo.kv, repo.now, entries);
      NothingWatched(entries, cancelled);
      var i := 0;
      assert calls[before..] == [] && keys[..0] == [];
      while i < |keys|
        invariant i <= |keys| && Valid() && before <= |calls| && calls[..before] == old(calls)
        invariant PassedOver(old(repo.kv), repo.kv, repo.now, Watched(keys[..i], entries, cancelled))
        invariant CallsOfPass(old(repo.kv), repo.now, Watched(keys[..i], entries, cancelled), entries, calls[before..])
      {
        var key := keys[i];
        ghost var done := Watched(keys[..i], entries, cancelled);
        WatchedGrow(keys, i, entries, cancelled);
        assert key in entries;
        var p := ParsePairKey(key);
        if entries[key].gen !in cancelled && p.contactID != 0 {
          ghost var kv1, calls1 := repo.kv, calls;
          PollPair(p);
          SuffixGrows(calls1, calls, before);
          PollGrows(old(repo.kv), kv1, repo.kv, repo.now, done, entries, calls1[before..], calls[before..], p);
        } else {
          assert done + {} == done;
        }
        i := i + 1;
      }
      assert keys[..i] == keys;
    }

    /** One pair of the poller's pass. */
    method PollPair(p: PairID)
      requires Valid() && PairKey(p) in entries
      modifies this`calls, repo`kv
      ensures Valid() && OnlyPair(old(repo.kv), repo.kv, p) && Locked(repo.kv, p) == old(Locked(repo.kv, p))
      ensures Data(repo.kv, p) == Advanced(old(repo.kv), repo.now, p)
      ensures calls == old(calls) +
              if Moves(old(repo.kv), repo.now, p)
              then [CallOf(old(repo.kv), entries[PairKey(p)], p)] else []
    {
      var state := repo.GetState(p);
      if state.Some? && state.value.stage.StageDebounce? {
        var running := repo.TimerExists(p);
        if !running {
          AdvanceToAI(p);
          return;
        }
      }
      assert calls + [] == calls;
    }
  }

  /** Every key of the map is the key of the pair it parses to. */
  ghost predicate Canonical(entries: map<string, Entry>) {
    forall key :: key in entries ==> PairKey(ParsePairKey(key)) == key
  }

  /** The pairs that a pass of the poller looks at. */
  function Watched(keys: seq<string>, entries: map<string, Entry>, cancelled: set<nat>): set<PairID> {
    set key | key in keys && key in entries && entries[key].gen !in cancelled
              && ParsePairKey(key).contactID != 0 :: ParsePairKey(key)
  }

  lemma WatchedGrow(keys: seq<string>, i: nat, entries: map<string, Entry>, cancelled: set<nat>)
    requires i < |keys|
    ensures Watched(keys[..i + 1], entries, cancelled) ==
            Watched(keys[..i], entries, cancelled) + Watched([keys[i]], entries, cancelled)
    ensures Watched([keys[i]], entries, cancelled) ==
            if keys[i] in entries && entries[keys[i]].gen !in cancelled && ParsePairKey(keys[i]).contactID != 0
            then {ParsePairKey(keys[i])} else {}
  {
    assert keys[..i + 1] == keys[..i] + [keys[i]];
    assert keys[i] in [keys[i]];
  }

  /** A pass of the poller over all entries looks at exactly the pairs with an entry whose
      context is not cancelled, but for a contact numbered 0. */
  lemma WatchedExactly(keys: seq<string>, entries: map<string, Entry>, cancelled: set<nat>, q: PairID)
    requires Canonical(entries) && forall key :: key in keys <==> key in entries
    ensures q in Watched(keys, entries, cancelled) <==>
            PairKey(q) in entries && entries[PairKey(q)].gen !in cancelled && q.contactID != 0
  {
    hide PairKey, ParsePairKey;
    PairKeyInverts(q);
    if q in Watched(keys, entries, cancelled) {
      var key :| key in keys && key in entries && entries[key].gen !in cancelled
                 && ParsePairKey(key).contactID != 0 && ParsePairKey(key) == q;
    }
  }

  lemma NothingWatched(entries: map<string, Entry>, cancelled: set<nat>)
    ensures Watched([], entries, cancelled) == {}
  {
  }

  lemma NothingPassed(kv: KeySpace, now: nat, entries: map<string, Entry>)
    ensures PassedOver(kv, kv, now, {}) && CallsOfPass(kv, now, {}, entries, [])
  {
  }

  /** Storing an entry the way the service does keeps the map canonical. */
  lemma CanonicalKept(entries: map<string, Entry>, p: PairID, e: Entry)
    requires Canonical(entries)
    ensures Canonical(entries[PairKey(p) := e]) && Canonical(entries - {PairKey(p)})
  {
    PairKeyInverts(p);
  }

  lemma SuffixGrows(calls1: seq<AICall>, calls2: seq<AICall>, before: nat)
    requires before <= |calls1| <= |calls2| && calls2[..|calls1|] == calls1
    ensures calls2[before..] == calls1[before..] + calls2[|calls1|..] && calls2[..before] == calls1[..before]
  {
  }

  function Recovered(entries: map<string, Entry>, gen: nat, kv: KeySpace, p: PairID): map<string, Entry> {
    if InStage(Data(kv, p), StageDebounce) && PairKey(p) !in entries
    then entries[PairKey(p) := Entry(gen, Data(kv, p).state.value.turn)] else entries
  }

  /** Old entries stay; a new one belongs to a debounce pair of the pass and carries its
      persisted turn; no debounce pair of the pass is without one. */
  ghost predicate EntriesRecovered(entries: map<string, Entry>, entries': map<string, Entry>,
                                   kv: KeySpace, done: set<PairID>)
  {
    && (forall key :: key in entries ==> key in entries' && entries'[key] == entries[key])
    && (forall key :: key in entries' && key !in entries ==>
          exists q :: q in done && Rebuilt(entries', kv, key, q))
    && (forall q :: q in done && InStage(Data(kv, q), StageDebounce) ==> PairKey(q) in entries')
  }

  predicate Rebuilt(entries: map<string, Entry>, kv: KeySpace, key: string, q: PairID)
    requires key in entries
  {
    key == PairKey(q) && InStage(Data(kv, q), StageDebounce) && entries[key].turn == Data(kv, q).state.value.turn
  }

  function Elements(xs: seq<PairID>): set<PairID> {
    set x | x in xs
  }

  lemma ElementsGrow(xs: seq<PairID>, i: nat)
    requires i < |xs|
    ensures Elements(xs[..i + 1]) == Elements(xs[..i]) + {xs[i]}
  {
    assert xs[..i + 1] == xs[..i] + [xs[i]];
  }

  /** Advancing a pair twice is advancing it once. */
  lemma AdvanceOnce(kv: KeySpace, kv1: KeySpace, now: nat, p: PairID)
    requires Data(kv1, p) == Advanced(kv, now, p) && Locked(kv1, p) == Locked(kv, p)
    ensures Advanced(kv1, now, p) == Advanced(kv, now, p) && !Moves(kv1, now, p)
  {
  }

  lemma PassGrows(kv: KeySpace, kv1: KeySpace, kv2: KeySpace, now: nat, done: set<PairID>, p: PairID)
    requires PassedOver(kv, kv1, now, done)
    requires OnlyPair(kv1, kv2, p) && Locked(kv2, p) == Locked(kv1, p) && Data(kv2, p) == Advanced(kv1, now, p)
    ensures PassedOver(kv, kv2, now, done + {p})
  {
    if p in done {
      AdvanceOnce(kv, kv1, now, p);
    }
  }

  lemma EntriesGrow(entries: map<string, Entry>, entries1: map<string, Entry>, gen: nat,
                    kv: KeySpace, kv1: KeySpace, now: nat, done: set<PairID>, p: PairID)
    requires EntriesRecovered(entries, entries1, kv, done) && PassedOver(kv, kv1, now, done)
    ensures EntriesRecovered(entries, Recovered(entries1, gen, kv1, p), kv, done + {p})
  {
    var entries2 := Recovered(entries1, gen, kv1, p);
    forall key | key in entries2 && key !in entries
      ensures exists q :: q in done + {p} && Rebuilt(entries2, kv, key, q)
    {
      if key in entries1 {
        var q :| q in done && Rebuilt(entries1, kv, key, q);
        assert Rebuilt(entries2, kv, key, q);
      } else {
        assert Rebuilt(entries2, kv, key, p);
      }
    }
  }

  /** A pair already advanced in this pass is left alone. */
  lemma CallsAgain(kv: KeySpace, now: nat, done: set<PairID>,
                   entries1: map<string, Entry>, entries2: map<string, Entry>, calls: seq<AICall>)
    requires CallsOfPass(kv, now, done, entries1, calls)
    requires forall key :: key in entries1 ==> key in entries2 && entries2[key] == entries1[key]
    ensures CallsOfPass(kv, now, done, entries2, calls)
  {
  }

  lemma CalledStays(calls: seq<AICall>, more: seq<AICall>, q: PairID)
    requires Called(calls, q)
    ensures Called(calls + more, q)
  {
    var k :| 0 <= k < |calls| && calls[k].pair == q;
    assert (calls + more)[k].pair == q;
  }

  lemma CallsGrow(kv: KeySpace, now: nat, done: set<PairID>, entries: map<string, Entry>, calls: seq<AICall>, p: PairID)
    requires CallsOfPass(kv, now, done, entries, calls) && p !in done
    requires Moves(kv, now, p) ==> PairKey(p) in entries
    ensures CallsOfPass(kv, now, done + {p}, entries,
                        calls + if Moves(kv, now, p) then [CallOf(kv, entries[PairKey(p)], p)] else [])
  {
    var calls2 := calls + if Moves(kv, now, p) then [CallOf(kv, entries[PairKey(p)], p)] else [];
    forall k | 0 <= k < |calls2| ensures CallFits(kv, now, done + {p}, entries, calls2[k]) {
      if k < |calls| {
        assert CallFits(kv, now, done, entries, calls[k]);
      }
    }
    forall q: PairID | q in done + {p} && Moves(kv, now, q) ensures Called(calls2, q) {
      if q in done {
        CalledStays(calls, calls2[|calls|..], q);
        assert calls2 == calls + calls2[|calls|..];
      } else {
        assert calls2[|calls|].pair == q;
      }
    }
    forall i, j | 0 <= i < j < |calls2| ensures calls2[i].pair != calls2[j].pair {
      assert CallFits(kv, now, done, entries, calls[i]);
    }
  }

  lemma PollGrows(kv: KeySpace, kv1: KeySpace, kv2: KeySpace, now: nat, done: set<PairID>,
                  entries: map<string, Entry>, calls1: seq<AICall>, calls2: seq<AICall>, p: PairID)
    requires PassedOver(kv, kv1, now, done) && CallsOfPass(kv, now, done, entries, calls1)
    requires OnlyPair(kv1, kv2, p) && Locked(kv2, p) == Locked(kv1, p) && Data(kv2, p) == Advanced(kv1, now, p)
    requires PairKey(p) in entries || !Moves(kv1, now, p)
    requires calls2 == calls1 + if Moves(kv1, now, p) then [CallOf(kv1, entries[PairKey(p)], p)] else []
    ensures PassedOver(kv, kv2, now, done + {p}) && CallsOfPass(kv, now, done + {p}, entries, calls2)
  {
    PassGrows(kv, kv1, kv2, now, done, p);
    if p in done {
      AdvanceOnce(kv, kv1, now, p);
      assert done + {p} == done && calls2 == calls1;
    } else {
      CallsGrow(kv, now, done, entries, calls1, p);
    }
  }

  lemma RecoveryGrows(kv: KeySpace, kv1: KeySpace, kv2: KeySpace, now: nat, done: set<PairID>,
                      entries: map<string, Entry>, entries1: map<string, Entry>, gen: nat,
                      calls1: seq<AICall>, calls2: seq<AICall>, p: PairID)
    requires PassedOver(kv, kv1, now, done) && CallsOfPass(kv, now, done, entries1, calls1)
    requires EntriesRecovered(entries, entries1, kv, done)
    requires OnlyPair(kv1, kv2, p) && Locked(kv2, p) == Locked(kv1, p) && Data(kv2, p) == Advanced(kv1, now, p)
    requires var entries2 := Recovered(entries1, gen, kv1, p);
             calls2 == calls1 + if Moves(kv1, now, p) then [CallOf(kv1, entries2[PairKey(p)], p)] else []
    ensures var entries2 := Recovered(entries1, gen, kv1, p);
            && PassedOver(kv, kv2, now, done + {p})
            && CallsOfPass(kv, now, done + {p}, entries2, calls2)
            && EntriesRecovered(entries, entries2, kv, done + {p})
  {
    EntriesGrow(entries, entries1, gen, kv, kv1, now, done, p);
    CallsAgain(kv, now, done, entries1, Recovered(entries1, gen, kv1, p), calls1);
    PollGrows(kv, kv1, kv2, now, done, Recovered(entries1, gen, kv1, p), calls1, calls2, p);
  }

  /** The pairs that `Start` passes over, exactly: those with a key that comes before the
      limit is used up, repetitions included. */
  lemma RecoveryReachesExactly(pages: seq<seq<string>>, p: PairID)
    ensures p in Elements(Cut(ParsedPairs(Flatten(pages)), MAX_RECOVERY_PAIRS))
            <==> exists k: nat :: ReadAt(Flatten(pages), 10_000, p, k)
  {
    ScanFinds(Flatten(pages), MAX_RECOVERY_PAIRS, p);
  }

  /** Every stored pair is among those that `Start` passes over, when SCAN returned its
      key and the keys returned, repetitions included, are at most 10000. */
  lemma RecoveryReachesAll(pages: seq<seq<string>>, p: PairID)
    requires RedisKey(StateKind, p) in Flatten(pages)
    requires |ParsedPairs(Flatten(pages))| <= 10_000
    ensures p in Elements(Cut(ParsedPairs(Flatten(pages)), MAX_RECOVERY_PAIRS))
  {
    ScanIsComplete(Flatten(pages), MAX_RECOVERY_PAIRS, p);
  }
}
