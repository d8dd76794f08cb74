/** The Redis repository: one flat key space in which every pair has its own keys. */
module Repository {
  import opened Model
  import opened Sequences
  import opened Keys
  import opened Turns

  datatype Value =
    | StateValue(state: PipelineState)
    | TextList(texts: seq<string>)
    | MediaList(media: seq<Attachment>)
    | TimerValue(expiry: nat)
    | LockValue

  type KeySpace = map<string, Value>

  /** Every key holds the kind of value its family is for. */
  ghost predicate WellTyped(kv: KeySpace) {
    forall p: PairID ::
      && (RedisKey(StateKind, p) in kv ==> kv[RedisKey(StateKind, p)].StateValue?)
      && (RedisKey(BufferKind, p) in kv ==> kv[RedisKey(BufferKind, p)].TextList?)
      && (RedisKey(AttachKind, p) in kv ==> kv[RedisKey(AttachKind, p)].MediaList?)
      && (RedisKey(TimerKind, p) in kv ==> kv[RedisKey(TimerKind, p)].TimerValue?)
  }

  /** The data of one pair. */
  function Data(kv: KeySpace, p: PairID): PairData {
    var s, b, a, t := RedisKey(StateKind, p), RedisKey(BufferKind, p), RedisKey(AttachKind, p), RedisKey(TimerKind, p);
    PairData(
      if s in kv && kv[s].StateValue? then Some(kv[s].state) else None,
      if b in kv && kv[b].TextList? then kv[b].texts else [],
      if a in kv && kv[a].MediaList? then kv[a].media else [],
      if t in kv && kv[t].TimerValue? then Some(kv[t].expiry) else None)
  }

  predicate Locked(kv: KeySpace, p: PairID) {
    RedisKey(LockKind, p) in kv
  }

  predicate Fits(kind: Kind, v: Value) {
    match kind
    case StateKind => v.StateValue?
    case BufferKind => v.TextList?
    case AttachKind => v.MediaList?
    case TimerKind => v.TimerValue?
    case LockKind => v.LockValue?
  }

  function WithValue(d: PairData, v: Value): PairData {
    match v
    case StateValue(state) => d.(state := Some(state))
    case TextList(texts) => d.(buffer := texts)
    case MediaList(media) => d.(attachments := media)
    case TimerValue(expiry) => d.(timer := Some(expiry))
    case LockValue => d
  }

  /** No other pair can tell the difference. */
  ghost predicate OnlyPair(kv: KeySpace, kv': KeySpace, p: PairID) {
    forall q: PairID :: q != p ==> Data(kv', q) == Data(kv, q) && Locked(kv', q) == Locked(kv, q)
  }

  /** Writing one key of a pair changes that part of that pair's data and nothing else. */
  lemma SetIsLocal(kv: KeySpace, kind: Kind, p: PairID, v: Value)
    requires WellTyped(kv) && Fits(kind, v)
    ensures var kv' := kv[RedisKey(kind, p) := v];
            && WellTyped(kv')
            && Data(kv', p) == WithValue(Data(kv, p), v)
            && Locked(kv', p) == (kind.LockKind? || Locked(kv, p))
            && OnlyPair(kv, kv', p)
  {
    var kv' := kv[RedisKey(kind, p) := v];
    forall k: Kind, q: PairID | RedisKey(k, q) == RedisKey(kind, p)
      ensures k == kind && q == p
    {
      RedisKeyInjective(k, q, kind, p);
    }
    forall q: PairID
      ensures q != p ==> Data(kv', q) == Data(kv, q) && Locked(kv', q) == Locked(kv, q)
    {
      OtherKeys(kind, p, q);
    }
  }

  lemma OtherKeys(kind: Kind, p: PairID, q: PairID)
    ensures forall k: Kind :: (q != p || k != kind) ==> RedisKey(k, q) != RedisKey(kind, p)
  {
    forall k: Kind | RedisKey(k, q) == RedisKey(kind, p) ensures k == kind && q == p {
      RedisKeyInjective(k, q, kind, p);
    }
  }

  function PairKeys(p: PairID): set<string> {
    {RedisKey(StateKind, p), RedisKey(BufferKind, p), RedisKey(AttachKind, p), RedisKey(TimerKind, p)}
  }

  lemma ClearIsLocal(kv: KeySpace, p: PairID)
    requires WellTyped(kv)
    ensures var kv' := kv - PairKeys(p);
            WellTyped(kv') && Data(kv', p) == NO_DATA && Locked(kv', p) == Locked(kv, p) && OnlyPair(kv, kv', p)
  {
    var kv' := kv - PairKeys(p);
    OtherKeys(LockKind, p, p);
    forall q: PairID | q != p ensures Data(kv', q) == Data(kv, q) && Locked(kv', q) == Locked(kv, q) {
      OtherPair(p, q);
    }
  }

  lemma OtherPair(p: PairID, q: PairID)
    requires q != p
    ensures forall k: Kind :: RedisKey(k, q) !in PairKeys(p)
  {
    forall k: Kind ensures RedisKey(k, q) !in PairKeys(p) {
      OtherKeys(StateKind, p, q);
      OtherKeys(BufferKind, p, q);
      OtherKeys(AttachKind, p, q);
      OtherKeys(TimerKind, p, q);
    }
  }

  lemma UnlockIsLocal(kv: KeySpace, p: PairID)
    requires WellTyped(kv)
    ensures var kv' := kv - {RedisKey(LockKind, p)};
            WellTyped(kv') && Data(kv', p) == Data(kv, p) && !Locked(kv', p) && OnlyPair(kv, kv', p)
  {
    var kv' := kv - {RedisKey(LockKind, p)};
    forall q: PairID ensures Data(kv', q) == Data(kv, q) && (q != p ==> Locked(kv', q) == Locked(kv, q)) {
      OtherKeys(LockKind, p, q);
    }
  }

  // ------------------------------------------------------------------- scan

  /** The pairs that a list of scanned keys stands for, in order. */
  function ParsedPairs(keys: seq<string>): seq<PairID> {
    if keys == [] then []
    else
      match ParseStateKey(keys[0])
      case None => ParsedPairs(keys[1..])
      case Some(p) => [p] + ParsedPairs(keys[1..])
  }

  lemma ParsedHead(keys: seq<string>)
    requires keys != []
    ensures ParsedPairs(keys) ==
            (if ParseStateKey(keys[0]).Some? then [ParseStateKey(keys[0]).value] else []) + ParsedPairs(keys[1..])
  {
  }

  lemma {:induction false} ParsedAppend(xs: seq<string>, ys: seq<string>)
    ensures ParsedPairs(xs + ys) == ParsedPairs(xs) + ParsedPairs(ys)
  {
    hide ParseStateKey, ParsedPairs;
    if xs == [] {
      NothingParsed();
      assert xs + ys == ys;
    } else {
      ParsedAppend(xs[1..], ys);
      assert (xs + ys)[0] == xs[0] && (xs + ys)[1..] == xs[1..] + ys;
      ParsedHead(xs);
      ParsedHead(xs + ys);
      Associate(if ParseStateKey(xs[0]).Some? then [ParseStateKey(xs[0]).value] else [],
                ParsedPairs(xs[1..]), ParsedPairs(ys));
    }
  }

  lemma {:induction false} FlattenAppend(pages: seq<seq<string>>, page: seq<string>)
    ensures Flatten(pages + [page]) == Flatten(pages) + page
  {
    if pages != [] {
      FlattenAppend(pages[1..], page);
      assert (pages + [page])[1..] == pages[1..] + [page];
    }
  }

  lemma {:induction false} ParsedContains(keys: seq<string>, p: PairID)
    requires RedisKey(StateKind, p) in keys
    ensures p in ParsedPairs(keys)
  {
    if keys[0] == RedisKey(StateKind, p) {
      StateKeyInverts(p);
    } else {
      ParsedContains(keys[1..], p);
    }
  }

  function Cut<T>(xs: seq<T>, n: nat): seq<T> {
    if |xs| <= n then xs else xs[..n]
  }

  lemma {:induction false} CutAppend<T>(xs: seq<T>, ys: seq<T>, n: nat)
    ensures |xs| < n ==> Cut(xs + ys, n) == xs + Cut(ys, n - |xs|)
    ensures |xs| >= n ==> Cut(xs + ys, n) == Cut(xs, n)
  {
  }

  /** The key at `k` stands for the pair, and fewer than `maxPairs` keys before it parse. */
  ghost predicate ReadAt(keys: seq<string>, maxPairs: nat, p: PairID, k: nat) {
    k < |keys| && ParseStateKey(keys[k]) == Some(p) && |ParsedPairs(keys[..k])| < maxPairs
  }

  /** What a scan finds, exactly: a pair is among the results if and only if some key that
      stands for it comes before the limit is used up, repetitions included. */
  lemma {:induction false} ScanFinds(keys: seq<string>, maxPairs: nat, p: PairID)
    ensures p in Cut(ParsedPairs(keys), maxPairs) <==> exists k: nat :: ReadAt(keys, maxPairs, p, k)
  {
    hide ParseStateKey, ParsedPairs;
    if keys == [] {
      NothingParsed();
    } else {
      var rest, head := keys[1..], ParseStateKey(keys[0]);
      var used := if head.Some? then 1 else 0;
      ParsedHead(keys);
      CutAppend(if head.Some? then [head.value] else [], ParsedPairs(rest), maxPairs);
      if used <= maxPairs {
        ScanFinds(rest, maxPairs - used, p);
      }
      if k: nat :| ReadAt(keys, maxPairs, p, k) {
        ReadLater(keys, maxPairs, p, k);
      }
      if p in Cut(ParsedPairs(keys), maxPairs) {
        if head == Some(p) {
          assert keys[..0] == [];
          NothingParsed();
          assert ReadAt(keys, maxPairs, p, 0);
        } else {
          var k: nat :| ReadAt(rest, maxPairs - used, p, k);
          ReadEarlier(keys, maxPairs, p, k);
        }
      }
    }
  }

  lemma NothingParsed()
    ensures ParsedPairs([]) == []
  {
  }

  lemma ReadLater(keys: seq<string>, maxPairs: nat, p: PairID, k: nat)
    requires keys != [] && ReadAt(keys, maxPairs, p, k)
    ensures var used := if ParseStateKey(keys[0]).Some? then 1 else 0;
            used <= maxPairs && (k > 0 ==> ReadAt(keys[1..], maxPairs - used, p, k - 1))
  {
    hide ParseStateKey, ParsedPairs;
    if k > 0 {
      ParsedHead(keys[..k]);
      assert keys[..k][1..] == keys[1..][..k - 1];
    }
  }

  lemma ReadEarlier(keys: seq<string>, maxPairs: nat, p: PairID, k: nat)
    requires keys != []
    requires var used := if ParseStateKey(keys[0]).Some? then 1 else 0;
             used <= maxPairs && ReadAt(keys[1..], maxPairs - used, p, k)
    ensures ReadAt(keys, maxPairs, p, k + 1)
  {
    hide ParseStateKey, ParsedPairs;
    ParsedHead(keys[..k + 1]);
    assert keys[..k + 1][1..] == keys[1..][..k];
  }

  /** Every stored pair is recovered when the scan returned its key, which Redis
      promises, and the keys returned, repetitions included, fit the limit. */
  lemma ScanIsComplete(keys: seq<string>, maxPairs: nat, p: PairID)
    requires RedisKey(StateKind, p) in keys && |ParsedPairs(keys)| <= maxPairs
    ensures p in Cut(ParsedPairs(keys), maxPairs)
  {
    ParsedContains(keys, p);
  }

  function Repeat<T>(x: T, n: nat): (xs: seq<T>)
    ensures |xs| == n && forall i :: 0 <= i < n ==> xs[i] == x
  {
    if n == 0 then [] else [x] + Repeat(x, n - 1)
  }

  lemma {:induction false} ParsedRepeat(p: PairID, n: nat)
    ensures ParsedPairs(Repeat(RedisKey(StateKind, p), n)) == Repeat(p, n)
  {
    hide ParseStateKey, RedisKey;
    StateKeyInverts(p);
    if n > 0 {
      ParsedRepeat(p, n - 1);
      assert Repeat(RedisKey(StateKind, p), n)[1..] == Repeat(RedisKey(StateKind, p), n - 1);
    }
  }

  /** A scan may return a key twice, and repetitions count against the limit: with any
      limit, a stored pair is left out when another one's key came that often before it,
      although only two pairs are stored. */
  lemma RepeatedKeysCrowdOut(p: PairID, q: PairID, maxPairs: nat)
    requires p != q && maxPairs > 0
    ensures var keys := Repeat(RedisKey(StateKind, p), maxPairs) + [RedisKey(StateKind, q)];
            && (set key | key in keys) == {RedisKey(StateKind, p), RedisKey(StateKind, q)}
            && q !in Cut(ParsedPairs(keys), maxPairs)
  {
    hide ParseStateKey, RedisKey, ParsedPairs;
    var all, last := Repeat(RedisKey(StateKind, p), maxPairs), [RedisKey(StateKind, q)];
    ParsedAppend(all, last);
    ParsedRepeat(p, maxPairs);
    CutAppend(Repeat(p, maxPairs), ParsedPairs(last), maxPairs);
    assert (all + last)[0] == RedisKey(StateKind, p) && (all + last)[maxPairs] == RedisKey(StateKind, q);
  }

  /** One more key of the scan: the loop ends here with what it has, or goes on. */
  lemma OneMoreKey(before: seq<string>, key: string, after: seq<string>, maxPairs: nat)
    ensures var pairs, all := ParsedPairs(before), ParsedPairs(before + [key] + after);
            && (|pairs| == maxPairs ==> Cut(all, maxPairs) == pairs)
            && ParsedPairs(before + [key])
               == if ParseStateKey(key).Some? then pairs + [ParseStateKey(key).value] else pairs
  {
    hide ParseStateKey, ParsedPairs;
    assert before + [key] + after == before + ([key] + after);
    ParsedAppend(before, [key] + after);
    CutAppend(ParsedPairs(before), ParsedPairs([key] + after), maxPairs);
    ParsedAppend(before, [key]);
    ParsedHead([key]);
    assert [key][1..] == [];
    NothingParsed();
  }

  // -------------------------------------------------------------- repository

  class RedisRepository {
    var kv: KeySpace
    var now: nat                // the server's clock, in milliseconds

    ghost predicate Valid()
      reads this
    {
      WellTyped(kv)
    }

    constructor ()
      ensures Valid() && kv == map[]
    {
      kv, now := map[], 0;
    }

    method GetState(p: PairID) returns (state: Option<PipelineState>)
      requires Valid()
      ensures state == Data(kv, p).state
    {
      var key := RedisKey(StateKind, p);
      if key in kv && kv[key].StateValue? {
        state := Some(kv[key].state);
      } else {
        state := None;
      }
    }

    method SetState(p: PairID, state: PipelineState)
      requires Valid()
      modifies this`kv
      ensures Valid() && Data(kv, p) == old(Data(kv, p)).(state := Some(state))
      ensures OnlyPair(old(kv), kv, p) && Locked(kv, p) == old(Locked(kv, p))
    {
      SetIsLocal(kv, StateKind, p, StateValue(state));
      kv := kv[RedisKey(StateKind, p) := StateValue(state)];
    }

    method ClearState(p: PairID)
      requires Valid()
      modifies this`kv
      ensures Valid() && Data(kv, p) == NO_DATA
      ensures OnlyPair(old(kv), kv, p) && Locked(kv, p) == old(Locked(kv, p))
    {
      ClearIsLocal(kv, p);
      kv := kv - PairKeys(p);
    }

    method AppendToBuffer(p: PairID, content: string)
      requires Valid()
      modifies this`kv
      ensures Valid() && Data(kv, p) == old(Data(kv, p)).(buffer := old(Data(kv, p)).buffer + [content])
      ensures OnlyPair(old(kv), kv, p) && Locked(kv, p) == old(Locked(kv, p))
    {
      var key := RedisKey(BufferKind, p);
      var texts := if key in kv && kv[key].TextList? then kv[key].texts else [];
      SetIsLocal(kv, BufferKind, p, TextList(texts + [content]));
      kv := kv[key := TextList(texts + [content])];
    }

    method GetBuffer(p: PairID) returns (texts: seq<string>)
      requires Valid()
      ensures texts == Data(kv, p).buffer
    {
      var key := RedisKey(BufferKind, p);
      texts := if key in kv && kv[key].TextList? then kv[key].texts else [];
    }

    method AppendAttachments(p: PairID, atts: seq<Attachment>)
      requires Valid()
      modifies this`kv
      ensures Valid() && Data(kv, p) == old(Data(kv, p)).(attachments := old(Data(kv, p)).attachments + atts)
      ensures OnlyPair(old(kv), kv, p) && Locked(kv, p) == old(Locked(kv, p))
    {
      if |atts| == 0 {
        assert Data(kv, p).attachments + atts == Data(kv, p).attachments;
        return;
      }
      var key := RedisKey(AttachKind, p);
      var media := if key in kv && kv[key].MediaList? then kv[key].media else [];
      SetIsLocal(kv, AttachKind, p, MediaList(media + atts));
      kv := kv[key := MediaList(media + atts)];
    }

    method GetAttachments(p: PairID) returns (media: seq<Attachment>)
      requires Valid()
      ensures media == Data(kv, p).attachments
    {
      var key := RedisKey(AttachKind, p);
      media := if key in kv && kv[key].MediaList? then kv[key].media else [];
    }

    method SetTimer(p: PairID, ttl: nat)
      requires Valid()
      modifies this`kv
      ensures Valid() && Data(kv, p) == old(Data(kv, p)).(timer := Some(now + ttl))
      ensures OnlyPair(old(kv), kv, p) && Locked(kv, p) == old(Locked(kv, p))
    {
      SetIsLocal(kv, TimerKind, p, TimerValue(now + ttl));
      kv := kv[RedisKey(TimerKind, p) := TimerValue(now + ttl)];
    }

    method TimerExists(p: PairID) returns (exists_: bool)
      requires Valid()
      ensures exists_ == TimerRunning(Data(kv, p), now)
    {
      var key := RedisKey(TimerKind, p);
      exists_ := key in kv && kv[key].TimerValue? && now < kv[key].expiry;
    }

    /** One try: fails at once when the lock is taken. */
    method AcquireLock(p: PairID) returns (ok: bool)
      requires Valid()
      modifies this`kv
      ensures Valid() && ok == !old(Locked(kv, p)) && Locked(kv, p)
      ensures Data(kv, p) == old(Data(kv, p)) && OnlyPair(old(kv), kv, p)
      ensures !ok ==> kv == old(kv)
    {
      ok := RedisKey(LockKind, p) !in kv;
      if ok {
        SetIsLocal(kv, LockKind, p, LockValue);
        kv := kv[RedisKey(LockKind, p) := LockValue];
      }
    }

    method Unlock(p: PairID)
      requires Valid()
      modifies this`kv
      ensures Valid() && !Locked(kv, p)
      ensures Data(kv, p) == old(Data(kv, p)) && OnlyPair(old(kv), kv, p)
    {
      UnlockIsLocal(kv, p);
      kv := kv - {RedisKey(LockKind, p)};
    }

    /** The cursor loop; `pages` are the replies of SCAN until the cursor is 0. */
    method ScanStates(pages: seq<seq<string>>, maxPairs: nat) returns (pairs: seq<PairID>)
      ensures pairs == Cut(ParsedPairs(Flatten(pages)), maxPairs)
    {
      hide ParsedPairs, ParseStateKey, Flatten, Cut;
      pairs := [];
      NothingScanned(pages, maxPairs);
      var cursor := 0;
      while cursor < |pages|
        invariant cursor <= |pages|
        invariant pairs == ParsedPairs(Flatten(pages[..cursor])) && |pairs| <= maxPairs
      {
        var keys := pages[cursor];
        ghost var before, after := Flatten(pages[..cursor]), Flatten(pages[cursor + 1..]);
        SplitPages(pages, cursor);
        PageEnds(pages, cursor);
        var k := 0;
        while k < |keys|
          invariant k <= |keys|
          invariant pairs == ParsedPairs(before + keys[..k]) && |pairs| <= maxPairs
        {
          ScanOne(before, keys, after, k, maxPairs);
          if |pairs| >= maxPairs {
            return;
          }
          var parsed := ParseStateKey(keys[k]);
          if parsed.Some? {
            pairs := pairs + [parsed.value];
          }
          k := k + 1;
        }
        cursor := cursor + 1;
      }
      assert pages[..cursor] == pages;
    }
  }

  lemma NothingScanned(pages: seq<seq<string>>, maxPairs: nat)
    ensures ParsedPairs(Flatten(pages[..0])) == []
    ensures |ParsedPairs(Flatten(pages))| <= maxPairs ==>
              Cut(ParsedPairs(Flatten(pages)), maxPairs) == ParsedPairs(Flatten(pages))
  {
  }

  lemma PageEnds(pages: seq<seq<string>>, cursor: nat)
    requires cursor < |pages|
    ensures var before, keys := Flatten(pages[..cursor]), pages[cursor];
            before + keys[..0] == before && before + keys[..|keys|] == Flatten(pages[..cursor + 1])
  {
    var keys := pages[cursor];
    FlattenAppend(pages[..cursor], keys);
    assert pages[..cursor] + [keys] == pages[..cursor + 1];
    assert keys[..|keys|] == keys && keys[..0] == [];
  }

  lemma ScanOne(before: seq<string>, keys: seq<string>, after: seq<string>, k: nat, maxPairs: nat)
    requires k < |keys|
    ensures var pairs, all := ParsedPairs(before + keys[..k]), ParsedPairs(before + keys + after);
            var parsed := ParseStateKey(keys[k]);
            && (|pairs| == maxPairs ==> Cut(all, maxPairs) == pairs)
            && ParsedPairs(before + keys[..k + 1]) == if parsed.Some? then pairs + [parsed.value] else pairs
  {
    hide ParsedPairs, ParseStateKey, Cut;
    OneMoreKey(before + keys[..k], keys[k], keys[k + 1..] + after, maxPairs);
    assert before + keys + after == (before + keys[..k]) + [keys[k]] + (keys[k + 1..] + after);
    assert before + keys[..k] + [keys[k]] == before + keys[..k + 1];
  }

  lemma {:induction false} SplitPages(pages: seq<seq<string>>, cursor: nat)
    requires cursor < |pages|
    ensures Flatten(pages) == Flatten(pages[..cursor]) + pages[cursor] + Flatten(pages[cursor + 1..])
  {
    if cursor == 0 {
      assert Flatten(pages[..0]) + pages[0] == pages[0];
    } else {
      SplitPages(pages[1..], cursor - 1);
      assert pages[..cursor][1..] == pages[1..][..cursor - 1];
      assert pages[1..][cursor..] == pages[cursor + 1..];
      var x, y, z := Flatten(pages[..cursor][1..]), pages[cursor], Flatten(pages[cursor + 1..]);
      assert pages[0] + (x + y + z) == (pages[0] + x) + y + z;
    }
  }
}
