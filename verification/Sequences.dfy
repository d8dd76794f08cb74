/** Sequences of sequences: flattening; texts joined with a separator and split at it. */
module Sequences {
  function Flatten<T>(xss: seq<seq<T>>): seq<T> {
    if xss == [] then [] else xss[0] + Flatten(xss[1..])
  }

  lemma Associate<T>(a: seq<T>, b: seq<T>, c: seq<T>)
    ensures (a + b) + c == a + (b + c)
  {
  }

  /** `strings.Join(parts, sep)`. */
  function Join(parts: seq<string>, sep: string): string {
    if |parts| == 0 then "" else if |parts| == 1 then parts[0] else parts[0] + sep + Join(parts[1..], sep)
  }

  /** For every separator: joining two lists is joining each, with one separator between. */
  lemma {:induction false} JoinConcat(xs: seq<string>, ys: seq<string>, sep: string)
    requires xs != [] && ys != []
    ensures Join(xs + ys, sep) == Join(xs, sep) + sep + Join(ys, sep)
  {
    if |xs| == 1 {
      assert (xs + ys)[1..] == ys;
    } else {
      JoinConcat(xs[1..], ys, sep);
      assert (xs + ys)[0] == xs[0] && (xs + ys)[1..] == xs[1..] + ys;
      var rest := Join(xs[1..], sep);
      assert xs[0] + sep + (rest + sep + Join(ys, sep)) == (xs[0] + sep + rest) + sep + Join(ys, sep);
    }
  }

  function TotalLength(parts: seq<string>): nat {
    if parts == [] then 0 else |parts[0]| + TotalLength(parts[1..])
  }

  lemma {:induction false} JoinLength(parts: seq<string>, sep: string)
    requires parts != []
    ensures |Join(parts, sep)| == TotalLength(parts) + (|parts| - 1) * |sep|
  {
    if |parts| > 1 {
      JoinLength(parts[1..], sep);
      assert (|parts| - 1) * |sep| == (|parts| - 2) * |sep| + |sep|;
    } else {
      assert parts[1..] == [];
    }
  }

  /** `strings.Split(s, sep)`: cut at the leftmost separators. */
  function SplitAt(s: string, sep: string): (parts: seq<string>)
    requires sep != ""
    ensures |parts| > 0
    decreases |s|
  {
    if sep <= s then [""] + SplitAt(s[|sep|..], sep)
    else if s == "" then [""]
    else
      var rest := SplitAt(s[1..], sep);
      [[s[0]] + rest[0]] + rest[1..]
  }

  predicate NoSep(x: string, sep: string) {
    forall o :: 0 <= o <= |x| ==> !(sep <= x[o..])
  }

  /** The first separator in `x + sep` is the one at the end. */
  predicate Whole(x: string, sep: string) {
    forall o :: 0 <= o < |x| ==> !(sep <= (x + sep)[o..])
  }

  lemma {:induction false} SplitOne(x: string, sep: string)
    requires sep != "" && NoSep(x, sep)
    ensures SplitAt(x, sep) == [x]
  {
    assert x[0..] == x;
    if x != "" {
      forall o | 0 <= o <= |x[1..]| ensures !(sep <= x[1..][o..]) {
        assert x[1..][o..] == x[o + 1..];
      }
      SplitOne(x[1..], sep);
      assert [x[0]] + x[1..] == x;
    }
  }

  lemma SplitStep(s: string, sep: string)
    requires sep != ""
    ensures sep <= s ==> SplitAt(s, sep) == [""] + SplitAt(s[|sep|..], sep)
    ensures !(sep <= s) && s != "" ==>
              SplitAt(s, sep) == [[s[0]] + SplitAt(s[1..], sep)[0]] + SplitAt(s[1..], sep)[1..]
  {
  }

  lemma WholeTail(x: string, sep: string, rest: string)
    requires x != "" && Whole(x, sep)
    ensures Whole(x[1..], sep) && !(sep <= x + sep + rest)
  {
    assert (x + sep)[0..] == x + sep;
    assert (x + sep + rest)[..|sep|] == (x + sep)[..|sep|];
    forall o | 0 <= o < |x[1..]| ensures !(sep <= (x[1..] + sep)[o..]) {
      assert (x[1..] + sep)[o..] == (x + sep)[o + 1..];
    }
  }

  lemma {:induction false} SplitHead(x: string, sep: string, rest: string)
    requires sep != "" && Whole(x, sep)
    ensures SplitAt(x + sep + rest, sep) == [x] + SplitAt(rest, sep)
  {
    hide SplitAt, Whole;
    var s := x + sep + rest;
    SplitStep(s, sep);
    if x == "" {
      assert s == sep + rest && s[|sep|..] == rest;
    } else {
      WholeTail(x, sep, rest);
      SplitHead(x[1..], sep, rest);
      assert s[0] == x[0] && s[1..] == x[1..] + sep + rest;
      var split := [x[1..]] + SplitAt(rest, sep);
      assert split[0] == x[1..] && split[1..] == SplitAt(rest, sep);
      assert [x[0]] + x[1..] == x;
    }
  }

  /** Splitting a joined list at the separator gives the list back, when no text of it
      contains the separator, nor, but for the last, ends in the beginning of one. */
  lemma {:induction false} SplitJoin(parts: seq<string>, sep: string)
    requires sep != "" && parts != [] && NoSep(parts[|parts| - 1], sep)
    requires forall k :: 0 <= k < |parts| - 1 ==> Whole(parts[k], sep)
    ensures SplitAt(Join(parts, sep), sep) == parts
  {
    hide NoSep, Whole, SplitAt;
    if |parts| == 1 {
      SplitOne(parts[0], sep);
    } else {
      SplitJoin(parts[1..], sep);
      SplitHead(parts[0], sep, Join(parts[1..], sep));
    }
  }
}
