/** The textual keys of the runtime: `contact:conversation` in memory, and
    `bot_runtime:{type}:{contact}:{conversation}` in Redis. */
module Keys {
  import opened Model

  newtype int64 = x: int | -0x8000_0000_0000_0000 <= x < 0x8000_0000_0000_0000

  datatype PairID = PairID(contactID: int64, conversationID: int64)

  // ------------------------------------------------------- decimal numbers

  function Digit(d: nat): char
    requires d < 10
  {
    '0' + d as char
  }

  function Digits(n: nat): string {
    if n < 10 then [Digit(n)] else Digits(n / 10) + [Digit(n % 10)]
  }

  /** `%d` of an int64. */
  function Itoa(n: int64): string {
    if n < 0 then "-" + Digits(-(n as int)) else Digits(n as int)
  }

  datatype Parsed = Value(n: nat) | SyntaxError | RangeError

  /** The digit loop of `strconv.ParseUint` in base 10 and 64 bits. */
  function ParseDigits(s: string, acc: nat): Parsed {
    if s == "" then Value(acc)
    else if !('0' <= s[0] <= '9') then SyntaxError
    else
      var next := acc * 10 + (s[0] as int - '0' as int);
      if next >= UINT64_LIMIT then RangeError else ParseDigits(s[1..], next)
  }

  /** `strconv.ParseInt(s, 10, 64)`: the value, and whether there was no error. */
  function ParseInt(s: string): (r: (int64, bool)) {
    var negative := s != "" && s[0] == '-';
    var digits := if s != "" && (s[0] == '-' || s[0] == '+') then s[1..] else s;
    if digits == "" then (0, false) else
      match ParseDigits(digits, 0)
      case SyntaxError => (0, false)
      case RangeError => (Limit(negative), false)
      case Value(n) =>
        if !negative && n >= INT64_LIMIT then (Limit(false), false)
        else if negative && n > INT64_LIMIT then (Limit(true), false)
        else ((if negative then -(n as int) else n as int) as int64, true)
  }

  function Limit(negative: bool): int64 {
    if negative then -0x8000_0000_0000_0000 else 0x7fff_ffff_ffff_ffff
  }

  // -------------------------------------------------------------- splitting

  predicate NoColon(s: string) {
    ':' !in s
  }

  /** `strings.Split(s, ":")`. */
  function Split(s: string): (parts: seq<string>)
    ensures |parts| > 0
  {
    if s == "" then [""]
    else
      var rest := Split(s[1..]);
      if s[0] == ':' then [""] + rest else [[s[0]] + rest[0]] + rest[1..]
  }

  /** `strings.SplitN(s, ":", 2)`. */
  function SplitFirst(s: string): (parts: seq<string>)
    ensures 1 <= |parts| <= 2
  {
    if s == "" then [""]
    else if s[0] == ':' then ["", s[1..]]
    else
      var rest := SplitFirst(s[1..]);
      [[s[0]] + rest[0]] + rest[1..]
  }

  // ------------------------------------------------------------------- keys

  function PairKey(p: PairID): string {
    Itoa(p.contactID) + ":" + Itoa(p.conversationID)
  }

  function ParsePairKey(key: string): PairID {
    var parts := SplitFirst(key);
    if |parts| != 2 then PairID(0, 0) else PairID(ParseInt(parts[0]).0, ParseInt(parts[1]).0)
  }

  datatype Kind = StateKind | BufferKind | AttachKind | LockKind | TimerKind

  function KindName(kind: Kind): string {
    match kind
    case StateKind => "state"
    case BufferKind => "buffer"
    case AttachKind => "attach"
    case LockKind => "lock"
    case TimerKind => "timer"
  }

  /** stateKey, bufferKey, attachBufferKey, lockKey and timerKey. */
  function RedisKey(kind: Kind, p: PairID): string {
    "bot_runtime" + ":" + (KindName(kind) + ":" + PairKey(p))
  }

  /** What `ScanStates` makes of one key of the scan. */
  function ParseStateKey(key: string): Option<PairID> {
    var parts := Split(key);
    if |parts| != 4 then None else
      var (contactID, ok1) := ParseInt(parts[2]);
      var (conversationID, ok2) := ParseInt(parts[3]);
      if ok1 && ok2 then Some(PairID(contactID, conversationID)) else None
  }

  // ---------------------------------------------------------- number lemmas

  lemma {:induction false} ParseDigitsAppend(s: string, c: char, acc: nat)
    requires ParseDigits(s, acc).Value?
    ensures ParseDigits(s + [c], acc) == ParseDigits([c], ParseDigits(s, acc).n)
  {
    if s == "" {
      assert s + [c] == [c];
    } else {
      ParseDigitsAppend(s[1..], c, acc * 10 + (s[0] as int - '0' as int));
      assert (s + [c])[1..] == s[1..] + [c];
    }
  }

  lemma {:induction false} DigitsParse(n: nat)
    requires n < UINT64_LIMIT
    ensures ParseDigits(Digits(n), 0) == Value(n)
  {
    if n >= 10 {
      DigitsParse(n / 10);
      ParseDigitsAppend(Digits(n / 10), Digit(n % 10), 0);
    }
    var last := [Digit(n % 10)];
    assert last[1..] == "";
  }

  lemma {:induction false} DigitsAreDigits(n: nat)
    ensures |Digits(n)| > 0
    ensures forall i :: 0 <= i < |Digits(n)| ==> '0' <= Digits(n)[i] <= '9'
  {
    if n >= 10 {
      DigitsAreDigits(n / 10);
    }
  }

  /** Printing and parsing an int64 is the identity, without error. */
  lemma ItoaParse(n: int64)
    ensures ParseInt(Itoa(n)) == (n, true) && NoColon(Itoa(n))
  {
    if n < 0 {
      DigitsParse(-(n as int));
      DigitsAreDigits(-(n as int));
      assert Itoa(n)[1..] == Digits(-(n as int));
    } else {
      DigitsParse(n as int);
      DigitsAreDigits(n as int);
    }
  }

  // ----------------------------------------------------------- split lemmas

  lemma {:induction false} SplitPrefix(a: string, b: string)
    requires NoColon(a)
    ensures Split(a + ":" + b) == [a] + Split(b)
    ensures SplitFirst(a + ":" + b) == [a, b]
  {
    var s := a + ":" + b;
    if a == "" {
      assert s[1..] == b;
    } else {
      SplitPrefix(a[1..], b);
      assert s[1..] == a[1..] + ":" + b;
      assert [s[0]] + a[1..] == a;
    }
  }

  lemma {:induction false} SplitWhole(a: string)
    requires NoColon(a)
    ensures Split(a) == [a]
  {
    if a != "" {
      SplitWhole(a[1..]);
      assert [a[0]] + a[1..] == a;
    }
  }

  lemma KindNames(kind: Kind)
    ensures NoColon(KindName(kind)) && NoColon("bot_runtime")
  {
  }

  lemma SplitRedisKey(kind: Kind, p: PairID)
    ensures Split(RedisKey(kind, p)) == ["bot_runtime", KindName(kind), Itoa(p.contactID), Itoa(p.conversationID)]
  {
    KindNames(kind);
    ItoaParse(p.contactID);
    ItoaParse(p.conversationID);
    SplitPrefix("bot_runtime", KindName(kind) + ":" + PairKey(p));
    SplitPrefix(KindName(kind), PairKey(p));
    SplitPrefix(Itoa(p.contactID), Itoa(p.conversationID));
    SplitWhole(Itoa(p.conversationID));
  }

  // --------------------------------------------------------------- theorems

  /** `ParsePairKey` undoes `PairKey` for every pair of int64 identifiers. */
  lemma PairKeyInverts(p: PairID)
    ensures ParsePairKey(PairKey(p)) == p
  {
    ItoaParse(p.contactID);
    ItoaParse(p.conversationID);
    SplitPrefix(Itoa(p.contactID), Itoa(p.conversationID));
  }

  lemma PairKeyInjective(p: PairID, q: PairID)
    requires PairKey(p) == PairKey(q)
    ensures p == q
  {
    PairKeyInverts(p);
    PairKeyInverts(q);
  }

  /** The parser of `ScanStates` undoes `stateKey`. */
  lemma StateKeyInverts(p: PairID)
    ensures ParseStateKey(RedisKey(StateKind, p)) == Some(p)
  {
    SplitRedisKey(StateKind, p);
    ItoaParse(p.contactID);
    ItoaParse(p.conversationID);
  }

  /** The five families of Redis keys are injective and mutually disjoint. */
  lemma RedisKeyInjective(k: Kind, p: PairID, m: Kind, q: PairID)
    requires RedisKey(k, p) == RedisKey(m, q)
    ensures k == m && p == q
  {
    SplitRedisKey(k, p);
    SplitRedisKey(m, q);
    ItoaParse(p.contactID);
    ItoaParse(p.conversationID);
    ItoaParse(q.contactID);
    ItoaParse(q.conversationID);
    var parts := Split(RedisKey(k, p));
    assert KindName(k) == parts[1] == KindName(m);
    assert Itoa(p.contactID) == parts[2] == Itoa(q.contactID);
    assert Itoa(p.conversationID) == parts[3] == Itoa(q.conversationID);
    KindNameInjective(k, m);
  }

  lemma KindNameInjective(k: Kind, m: Kind)
    requires KindName(k) == KindName(m)
    ensures k == m
  {
    assert "state"[0] == 's' && "buffer"[0] == 'b' && "attach"[0] == 'a' && "lock"[0] == 'l' && "timer"[0] == 't';
    assert KindName(k)[0] == KindName(m)[0];
  }

  // ------------------------------------------------ what the texts look like

  predicate AllDigits(s: string) {
    forall i :: 0 <= i < |s| ==> '0' <= s[i] <= '9'
  }

  /** The number that a row of digits denotes, read from its last digit. */
  function Decimal(s: string): nat {
    if s == "" then 0
    else
      var c := s[|s| - 1];
      10 * Decimal(s[..|s| - 1]) + (if '0' <= c <= '9' then c as int - '0' as int else 0)
  }

  lemma {:induction false} ErrorStays(s: string, c: char, acc: nat)
    requires !ParseDigits(s, acc).Value?
    ensures !ParseDigits(s + [c], acc).Value?
  {
    assert (s + [c])[0] == s[0] && (s + [c])[1..] == s[1..] + [c];
    if '0' <= s[0] <= '9' && acc * 10 + (s[0] as int - '0' as int) < UINT64_LIMIT {
      ErrorStays(s[1..], c, acc * 10 + (s[0] as int - '0' as int));
    }
  }

  lemma {:induction false} DigitsExactly(s: string)
    ensures ParseDigits(s, 0).Value? <==> AllDigits(s) && Decimal(s) < UINT64_LIMIT
    ensures ParseDigits(s, 0).Value? ==> ParseDigits(s, 0).n == Decimal(s)
  {
    if s != "" {
      var init, c := s[..|s| - 1], s[|s| - 1];
      assert s == init + [c];
      DigitsExactly(init);
      if ParseDigits(init, 0).Value? {
        ParseDigitsAppend(init, c, 0);
        assert [c][1..] == "";
      } else {
        ErrorStays(init, c, 0);
      }
    }
  }

  /** What `strconv.ParseInt` accepts, exactly: a row of digits, perhaps behind a sign, that
      denotes a number of 64 bits; and the value is that number. */
  lemma ParseIntExactly(s: string, v: int64)
    ensures ParseInt(s) == (v, true) <==>
            var digits := if s != "" && (s[0] == '-' || s[0] == '+') then s[1..] else s;
            && digits != "" && AllDigits(digits)
            && v as int == if s[0] == '-' then -(Decimal(digits) as int) else Decimal(digits) as int
  {
    var digits := if s != "" && (s[0] == '-' || s[0] == '+') then s[1..] else s;
    DigitsExactly(digits);
  }

  /** Numbers are printed without superfluous zeros. */
  lemma {:induction false} NoLeadingZero(n: nat)
    ensures n > 0 ==> Digits(n)[0] != '0'
    ensures n == 0 ==> Digits(n) == "0"
  {
    if n >= 10 {
      NoLeadingZero(n / 10);
      DigitsAreDigits(n / 10);
    }
  }

  /** The texts of the keys of one pair. */
  lemma KeysInRedis()
    ensures var p := PairID(7, -42);
            && PairKey(p) == "7:-42"
            && RedisKey(StateKind, p) == "bot_runtime:state:7:-42"
            && RedisKey(BufferKind, p) == "bot_runtime:buffer:7:-42"
            && RedisKey(AttachKind, p) == "bot_runtime:attach:7:-42"
            && RedisKey(LockKind, p) == "bot_runtime:lock:7:-42"
            && RedisKey(TimerKind, p) == "bot_runtime:timer:7:-42"
  {
    PairText();
    hide PairKey;
  }

  lemma PairText()
    ensures PairKey(PairID(7, -42)) == "7:-42"
  {
    assert Digits(7) == "7";
    assert Digits(42) == Digits(4) + "2" == "42";
  }

  lemma {:induction false} SplitPieces(s: string)
    ensures forall i :: 0 <= i < |Split(s)| ==> NoColon(Split(s)[i])
    ensures |Split(s)| == 1 ==> Split(s) == [s]
  {
    if s != "" {
      SplitPieces(s[1..]);
      assert [s[0]] + s[1..] == s;
    }
  }

  lemma {:induction false} SplitOff(s: string) returns (rest: string)
    requires |Split(s)| > 1
    ensures s == Split(s)[0] + ":" + rest && Split(rest) == Split(s)[1..]
  {
    if s[0] == ':' {
      rest := s[1..];
    } else {
      rest := SplitOff(s[1..]);
      var first := Split(s[1..])[0];
      assert s == [s[0]] + (first + ":" + rest) == ([s[0]] + first) + ":" + rest;
    }
  }

  /** Four texts without colons, and three colons between them. */
  predicate FourParts(key: string, a: string, b: string, c: string, d: string) {
    key == a + ":" + (b + ":" + (c + ":" + d)) && NoColon(a) && NoColon(b) && NoColon(c) && NoColon(d)
  }

  lemma FourPartsSplit(key: string, a: string, b: string, c: string, d: string)
    requires FourParts(key, a, b, c, d)
    ensures Split(key) == [a, b, c, d]
  {
    SplitPrefix(a, b + ":" + (c + ":" + d));
    SplitPrefix(b, c + ":" + d);
    SplitPrefix(c, d);
    SplitWhole(d);
  }

  lemma SplitFourParts(key: string) returns (a: string, b: string, c: string, d: string)
    requires |Split(key)| == 4
    ensures FourParts(key, a, b, c, d) && Split(key) == [a, b, c, d]
  {
    hide Split;
    var parts := Split(key);
    a, b, c, d := parts[0], parts[1], parts[2], parts[3];
    SplitPieces(key);
    var r1 := SplitOff(key);
    var r2 := SplitOff(r1);
    var r3 := SplitOff(r2);
    SplitPieces(r3);
  }

  /** Which scanned keys stand for a pair, exactly: those of four parts whose last two are
      numbers of 64 bits, and the pair is these two. */
  lemma ParseStateKeyExactly(key: string, p: PairID)
    ensures ParseStateKey(key) == Some(p) <==>
            exists a, b, c, d ::
              && FourParts(key, a, b, c, d)
              && ParseInt(c) == (p.contactID, true) && ParseInt(d) == (p.conversationID, true)
  {
    hide Split, ParseInt, FourParts;
    if a, b, c, d :|
         FourParts(key, a, b, c, d) && ParseInt(c) == (p.contactID, true) && ParseInt(d) == (p.conversationID, true) {
      FourPartsSplit(key, a, b, c, d);
    }
    if ParseStateKey(key) == Some(p) {
      var a, b, c, d := SplitFourParts(key);
      assert FourParts(key, a, b, c, d) && ParseInt(c) == (p.contactID, true);
    }
  }
}
