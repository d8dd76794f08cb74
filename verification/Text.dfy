/** Text as a sequence of runes: white space, words and joining. */
module Text {
  import opened Sequences

  /** `unicode.IsSpace`. */
  predicate IsSpace(c: char) {
    c in {'\t', '\n', '\U{0B}', '\U{0C}', '\r', ' ', '\U{85}', '\U{A0}', '\U{1680}', '\U{2028}', '\U{2029}',
          '\U{202F}', '\U{205F}', '\U{3000}'}
    || '\U{2000}' <= c <= '\U{200A}'
  }

  /** The white space of Unicode, by code point. */
  lemma SpacesByCode(c: char)
    ensures var n := c as int;
            IsSpace(c) <==>
            || 9 <= n <= 13 || n == 32 || n == 0x85 || n == 0xA0 || n == 0x1680 || 0x2000 <= n <= 0x200A
            || n == 0x2028 || n == 0x2029 || n == 0x202F || n == 0x205F || n == 0x3000
  {
  }

  function WordLen(s: string): (n: nat)
    ensures n <= |s|
  {
    if s == "" || IsSpace(s[0]) then 0 else 1 + WordLen(s[1..])
  }

  /** `strings.Fields`. */
  function Fields(s: string): seq<string>
    decreases |s|
  {
    if s == "" then []
    else if IsSpace(s[0]) then Fields(s[1..])
    else [s[..WordLen(s)]] + Fields(s[WordLen(s)..])
  }

  /** `strings.TrimSpace`, in two halves. */
  function TrimLeft(s: string): string {
    if s != "" && IsSpace(s[0]) then TrimLeft(s[1..]) else s
  }

  function TrimRight(s: string): string {
    if s != "" && IsSpace(s[|s| - 1]) then TrimRight(s[..|s| - 1]) else s
  }

  function TrimSpace(s: string): string {
    TrimRight(TrimLeft(s))
  }

  lemma {:induction false} TrimRightPrefix(s: string)
    ensures TrimRight(s) <= s
    ensures s != "" && !IsSpace(s[0]) ==> TrimRight(s) != ""
  {
    if s != "" && IsSpace(s[|s| - 1]) {
      TrimRightPrefix(s[..|s| - 1]);
    }
  }

  predicate IsWord(w: string) {
    w != "" && forall i :: 0 <= i < |w| ==> !IsSpace(w[i])
  }

  predicate AllWords(ws: seq<string>) {
    forall i :: 0 <= i < |ws| ==> IsWord(ws[i])
  }

  function Spaced(ws: seq<string>): string {
    Join(ws, " ")
  }

  lemma {:induction false} WordLenStops(w: string, rest: string)
    requires forall i :: 0 <= i < |w| ==> !IsSpace(w[i])
    requires rest == "" || IsSpace(rest[0])
    ensures WordLen(w + rest) == |w|
  {
    if w == "" {
      assert w + rest == rest;
    } else {
      WordLenStops(w[1..], rest);
      assert (w + rest)[1..] == w[1..] + rest;
    }
  }

  lemma {:induction false} WordLenWord(s: string)
    ensures forall i :: 0 <= i < WordLen(s) ==> !IsSpace(s[i])
  {
    if WordLen(s) > 0 {
      WordLenWord(s[1..]);
      assert forall i :: 0 < i < WordLen(s) ==> s[i] == s[1..][i - 1];
    }
  }

  lemma {:induction false} FieldsAreWords(s: string)
    ensures AllWords(Fields(s))
    decreases |s|
  {
    if s != "" {
      if IsSpace(s[0]) {
        FieldsAreWords(s[1..]);
      } else {
        WordLenWord(s);
        FieldsAreWords(s[WordLen(s)..]);
      }
    }
  }

  /** Splitting space-joined words gives the words back. */
  lemma {:induction false} FieldsOfSpaced(ws: seq<string>)
    requires AllWords(ws)
    ensures Fields(Spaced(ws)) == ws
  {
    if |ws| > 0 {
      var tail := if |ws| == 1 then "" else " " + Spaced(ws[1..]);
      var s := Spaced(ws);
      assert s == ws[0] + tail;
      WordLenStops(ws[0], tail);
      assert s[..|ws[0]|] == ws[0] && s[|ws[0]|..] == tail;
      assert !IsSpace(s[0]) by { assert s[0] == ws[0][0]; }
      FieldsOfSpaced(ws[1..]);
      if |ws| > 1 {
        assert tail[1..] == Spaced(ws[1..]);
      }
    }
  }

  lemma {:induction false} SpacedLast(ws: seq<string>, w: string)
    requires |ws| > 0
    ensures Spaced(ws + [w]) == Spaced(ws) + " " + w
  {
    if |ws| == 1 {
      assert (ws + [w])[1..] == [w] && Spaced([w]) == w;
    } else {
      SpacedLast(ws[1..], w);
      assert (ws + [w])[1..] == ws[1..] + [w];
    }
  }

  /** Joining joined groups joins all their words. */
  lemma {:induction false} SpacedConcat(xs: seq<string>, ys: seq<string>)
    requires |xs| > 0 && |ys| > 0
    ensures Spaced(xs + ys) == Spaced(xs) + " " + Spaced(ys)
  {
    if |xs| == 1 {
      assert (xs + ys)[1..] == ys;
    } else {
      SpacedConcat(xs[1..], ys);
      assert (xs + ys)[1..] == xs[1..] + ys;
    }
  }
}
