/** What the final trim of the residual text does to the matches in it: when a second
    extraction finds nothing more, and when it does. */
module MediaTrim {
  import opened Text
  import opened Media

  // -------------------------------------------------------- trimming the left

  function SkipSpaces(ps: seq<Piece>): seq<Piece> {
    if ps != [] && ps[0].Plain? && IsSpace(ps[0].c) then SkipSpaces(ps[1..]) else ps
  }

  lemma ResurfacesTail(ps: seq<Piece>)
    requires ps != [] && ps[0].Plain?
    ensures Resurfaces(ps) <==> Resurfaces(ps[1..])
  {
    hide IsMedia, AllSpace;
    if Resurfaces(ps) {
      var k :| 0 <= k < |ps| && ResurfacesAt(ps, k);
      assert ps[1..][k - 1 + 1..] == ps[k + 1..];
      assert ResurfacesAt(ps[1..], k - 1);
    }
    if Resurfaces(ps[1..]) {
      var k :| 0 <= k < |ps[1..]| && ResurfacesAt(ps[1..], k);
      assert ps[1..][k + 1..] == ps[k + 2..];
      assert ResurfacesAt(ps, k + 1);
    }
  }

  lemma {:induction false} TrimLeftSkips(ps: seq<Piece>)
    requires Lexed(ps)
    ensures TrimLeft(Flat(ps)) == Flat(SkipSpaces(ps))
    ensures Lexed(SkipSpaces(ps)) && (NoMedia(SkipSpaces(ps)) <==> NoMedia(ps))
    ensures Resurfaces(SkipSpaces(ps)) <==> Resurfaces(ps)
  {
    hide IsMedia, Resurfaces, MatchLen, IsUrl;
    if ps != [] {
      assert ps == [ps[0]] + ps[1..];
      if ps[0].Url? {
        HeadUrl(ps);
        UrlHasNoDelim(ps[0].text);
        assert Flat(ps)[0] == 'h';
      } else {
        assert Flat(ps)[0] == ps[0].c && Flat(ps)[1..] == Flat(ps[1..]);
        if IsSpace(ps[0].c) {
          ResurfacesTail(ps);
          LexedTail(ps, 1);
          TrimLeftSkips(ps[1..]);
        }
      }
    }
  }

  // ------------------------------------------------------- trimming the right

  lemma {:induction false} TrimRightSplit(a: string, b: string)
    ensures TrimRight(b) != "" ==> TrimRight(a + b) == a + TrimRight(b)
    ensures AllSpace(b) ==> TrimRight(a + b) == TrimRight(a)
    decreases |b|
  {
    if b == "" {
      assert a + b == a;
    } else {
      var b' := b[..|b| - 1];
      assert (a + b)[|a + b| - 1] == b[|b| - 1];
      assert (a + b)[..|a + b| - 1] == a + b';
      TrimRightSplit(a, b');
      if AllSpace(b) {
        assert AllSpace(b');
      }
    }
  }

  /** A match in a prefix is a match in the whole. */
  lemma MatchGrows(a: string, t: string)
    requires MatchLen(a) > 0
    ensures MatchLen(a + t) > 0
  {
    BodyLenSpec(a);
    var n := BodyLen(a);
    assert a + t == a[..n] + (a[n..] + t);
    BodyLenOf(a[..n], a[n..] + t);
    SchemeOfPrefix(a, t);
  }

  lemma FlatWithLex(qs: seq<Piece>, s: string)
    ensures Flat(qs + Lex(s)) == Flat(qs) + s
  {
    FlatConcat(qs, Lex(s));
    LexIsLexed(s);
  }

  /** Cutting a lexed text off inside its last piece leaves the earlier pieces alone. */
  lemma {:induction false} PrefixLexed(qs: seq<Piece>, a: string, b: string)
    requires Lexed(qs + Lex(a + b))
    ensures Lexed(qs + Lex(a))
  {
    hide MatchLen, IsUrl, Lexed, Lex, Flat;
    LexIsLexed(a);
    if qs == [] {
      assert qs + Lex(a) == Lex(a);
    } else {
      var ps := qs + Lex(a + b);
      assert ps[1..] == qs[1..] + Lex(a + b);
      assert qs + Lex(a) == [qs[0]] + (qs[1..] + Lex(a));
      LexedTail(ps, 1);
      PrefixLexed(qs[1..], a, b);
      FlatWithLex(qs[1..], a);
      FlatWithLex(qs[1..], a + b);
      var t := Flat(qs[1..]) + a;
      assert Flat(qs[1..]) + (a + b) == t + b;
      PrefixHead(ps, t, b);
      LexedCons(qs[0], qs[1..] + Lex(a));
    }
  }

  lemma PrefixHead(ps: seq<Piece>, t: string, b: string)
    requires ps != [] && Lexed(ps) && Flat(ps[1..]) == t + b
    ensures ps[0].Plain? ==> MatchLen([ps[0].c] + t) == 0
    ensures ps[0].Url? ==> ps[0].text != "" && MatchLen(ps[0].text + t) == |ps[0].text|
  {
    if ps[0].Plain? {
      var s := [ps[0].c] + t;
      assert Flat(ps) == s + b;
      if MatchLen(s) > 0 {
        MatchGrows(s, b);
      }
    } else {
      HeadUrl(ps);
      assert t != "" ==> (t + b)[0] == t[0];
      UrlThen(ps[0].text, t);
    }
  }

  /** The pieces of the text without its trailing white space. */
  function Trimmed(ps: seq<Piece>): seq<Piece> {
    if ps == [] then [] else
      match ps[|ps| - 1]
      case Plain(c) => if IsSpace(c) then Trimmed(ps[..|ps| - 1]) else ps
      case Url(w) => ps[..|ps| - 1] + Lex(TrimRight(w))
  }

  lemma UrlLexesAlone(w: string)
    requires IsUrl(w)
    ensures Lex(w) == [Url(w)]
  {
    assert w[..|w|] == w && w[|w|..] == "";
  }

  lemma {:induction false} TrimmedIsTrimmed(ps: seq<Piece>)
    requires Lexed(ps)
    ensures Lexed(Trimmed(ps)) && Flat(Trimmed(ps)) == TrimRight(Flat(ps))
  {
    hide MatchLen, IsUrl;
    if ps != [] {
      var n := |ps| - 1;
      var init, last := ps[..n], ps[n];
      assert ps == init + [last];
      FlatConcat(init, [last]);
      assert Flat([last]) == TextOf(last) + Flat([]) == TextOf(last);
      match last
      case Plain(c) =>
        assert [c][..0] == "";
        TrimRightSplit(Flat(init), [c]);
        if IsSpace(c) {
          InitLexed(init, c);
          TrimmedIsTrimmed(init);
        }
      case Url(w) =>
        UrlAt(ps, n);
        TrimUrl(init, w);
    }
  }

  lemma InitLexed(init: seq<Piece>, c: char)
    requires Lexed(init + [Plain(c)])
    ensures Lexed(init)
  {
    LexedTail(init + [Plain(c)], |init|);
    assert (init + [Plain(c)])[|init|..] == [Plain(c)];
    LexedIsLex([Plain(c)]);
    assert Flat([Plain(c)]) == [c] + Flat([]) == "" + [c];
    PrefixLexed(init, "", [c]);
    assert init + Lex("") == init;
  }

  lemma TrimUrl(init: seq<Piece>, w: string)
    requires Lexed(init + [Url(w)]) && IsUrl(w)
    ensures Lexed(init + Lex(TrimRight(w)))
    ensures Flat(init + Lex(TrimRight(w))) == TrimRight(Flat(init) + w)
  {
    UrlLexesAlone(w);
    UrlHasNoDelim(w);
    TrimRightPrefix(w);
    hide Lexed, Lex, Flat, MatchLen;
    var a := TrimRight(w);
    assert w == a + w[|a|..];
    PrefixLexed(init, a, w[|a|..]);
    FlatWithLex(init, a);
    TrimRightSplit(Flat(init), w);
  }

  // ----------------------------------------------- what the trim can uncover

  lemma {:induction false} ShortHasNoUrl(s: string)
    requires |s| <= 8 && MatchLen(s) == 0
    ensures NoMedia(Lex(s)) && forall i :: 0 <= i < |Lex(s)| ==> Lex(s)[i].Plain?
  {
    hide IsMedia;
    if s != "" {
      ShortHasNoUrl(s[1..]);
    }
  }

  lemma {:induction false} NoDotStays(s: string)
    requires '.' !in s
    ensures '.' !in StripPunct(s) && '.' !in BeforeQuery(s) && '.' !in AfterLast(s, '/')
  {
    if s != "" {
      NoDotStays(s[..|s| - 1]);
      NoDotStays(s[1..]);
    }
  }

  lemma NoDotNoMedia(s: string)
    requires '.' !in s
    ensures !IsMedia(s)
  {
    NoDotStays(s);
    NoDotStays(StripPunct(s));
    NoDotStays(BeforeQuery(StripPunct(s)));
  }

  /** What is left of a URL is one match again, or too short to be media. */
  lemma PrefixOfUrl(w: string, a: string)
    requires IsUrl(w) && a <= w && a != ""
    ensures NoMedia(Lex(a)) <==> !IsMedia(a)
  {
    hide IsMedia;
    UrlHasNoDelim(w);
    assert w == a + w[|a|..];
    SchemeOfPrefix(a, w[|a|..]);
    if |a| > SchemeLen(w) {
      assert forall i :: 0 <= i < |a| ==> a[i] == w[i];
      BodyLenOf(a, "");
      assert a + "" == a;
      UrlLexesAlone(a);
      assert MediaPiece(Lex(a)[0]) <==> IsMedia(a);
    } else {
      SchemeHasNoDot(w, a);
      NoDotNoMedia(a);
      ShortHasNoUrl(a);
    }
  }

  lemma SchemeHasNoDot(w: string, a: string)
    requires SchemeLen(w) > 0 && a <= w && |a| <= SchemeLen(w)
    ensures '.' !in a
  {
    forall i | 0 <= i < |a| ensures a[i] != '.' {
      assert a[i] == w[i];
      assert w[i] == if SchemeLen(w) == 7 then "http://"[i] else "https://"[i];
    }
  }

  lemma SpaceAfter(ps: seq<Piece>, k: nat)
    requires k < |ps| - 1
    ensures var n := |ps| - 1;
            AllSpace(Flat(ps[k + 1..])) <==> AllSpace(Flat(ps[..n][k + 1..])) && AllSpace(TextOf(ps[n]))
  {
    var n := |ps| - 1;
    var mid := ps[..n][k + 1..];
    assert ps[k + 1..] == mid + [ps[n]];
    FlatConcat(mid, [ps[n]]);
    assert Flat([ps[n]]) == TextOf(ps[n]) + Flat([]) == TextOf(ps[n]);
    var a, b := Flat(mid), TextOf(ps[n]);
    if AllSpace(a + b) {
      assert forall i :: 0 <= i < |a| ==> a[i] == (a + b)[i];
      assert forall i :: 0 <= i < |b| ==> b[i] == (a + b)[|a| + i];
    }
  }

  lemma ResurfacesInit(ps: seq<Piece>)
    requires ps != [] && ps[|ps| - 1].Plain?
    ensures Resurfaces(ps) <==> IsSpace(ps[|ps| - 1].c) && Resurfaces(ps[..|ps| - 1])
  {
    hide IsMedia, AllSpace;
    var n := |ps| - 1;
    assert AllSpace(TextOf(ps[n])) <==> IsSpace(ps[n].c) by { SpaceOne(ps[n].c); }
    if Resurfaces(ps) {
      var k :| 0 <= k < |ps| && ResurfacesAt(ps, k);
      SpaceAfter(ps, k);
      assert ResurfacesAt(ps[..n], k);
    }
    if IsSpace(ps[n].c) && Resurfaces(ps[..n]) {
      var k :| 0 <= k < n && ResurfacesAt(ps[..n], k);
      SpaceAfter(ps, k);
      assert ResurfacesAt(ps, k);
    }
  }

  lemma SpaceOne(c: char)
    ensures AllSpace([c]) <==> IsSpace(c)
  {
    assert AllSpace([c]) ==> IsSpace([c][0]);
  }

  lemma UrlIsNoSpace(ps: seq<Piece>)
    requires ps != [] && Lexed(ps) && ps[|ps| - 1].Url?
    ensures !AllSpace(TextOf(ps[|ps| - 1]))
  {
    hide MatchLen, IsUrl;
    var n := |ps| - 1;
    UrlAt(ps, n);
    UrlHasNoDelim(ps[n].text);
    assert !IsSpace(TextOf(ps[n])[0]);
  }

  lemma ResurfacesUrl(ps: seq<Piece>)
    requires ps != [] && Lexed(ps) && ps[|ps| - 1].Url?
    ensures Resurfaces(ps) <==> IsMedia(TrimRight(ps[|ps| - 1].text))
  {
    hide IsMedia, Lexed, AllSpace, Flat;
    var n := |ps| - 1;
    UrlIsNoSpace(ps);
    NothingAfter(ps);
    if Resurfaces(ps) {
      var k :| 0 <= k < |ps| && ResurfacesAt(ps, k);
      if k < n {
        SpaceAfter(ps, k);
      }
    }
    if IsMedia(TrimRight(ps[n].text)) {
      assert ResurfacesAt(ps, n);
    }
  }

  lemma NothingAfter(ps: seq<Piece>)
    requires ps != []
    ensures AllSpace(Flat(ps[|ps|..]))
  {
  }

  lemma {:induction false} TrimUncovers(ps: seq<Piece>)
    requires Lexed(ps) && NoMedia(ps)
    ensures NoMedia(Trimmed(ps)) <==> !Resurfaces(ps)
  {
    hide IsMedia, MatchLen, IsUrl, ResurfacesAt, Lexed, MediaPiece;
    if ps != [] {
      var n := |ps| - 1;
      assert ps == ps[..n] + [ps[n]];
      match ps[n]
      case Plain(c) =>
        ResurfacesInit(ps);
        if IsSpace(c) {
          InitLexed(ps[..n], c);
          TrimUncovers(ps[..n]);
        }
      case Url(w) =>
        ResurfacesUrl(ps);
        UrlAt(ps, n);
        WhatIsLeft(ps[..n], w);
    }
  }

  lemma WhatIsLeft(init: seq<Piece>, w: string)
    requires IsUrl(w) && NoMedia(init)
    ensures NoMedia(init + Lex(TrimRight(w))) <==> !IsMedia(TrimRight(w))
  {
    hide IsMedia, NoMedia, Lex;
    UrlHasNoDelim(w);
    TrimRightPrefix(w);
    PrefixOfUrl(w, TrimRight(w));
    NoMediaConcat(init, Lex(TrimRight(w)));
  }

  lemma NoMediaConcat(ps: seq<Piece>, qs: seq<Piece>)
    requires NoMedia(ps)
    ensures NoMedia(ps + qs) <==> NoMedia(qs)
  {
    hide MediaPiece;
    if NoMedia(ps + qs) {
      forall i | 0 <= i < |qs| ensures !MediaPiece(qs[i]) {
        assert (ps + qs)[|ps| + i] == qs[i];
      }
    }
  }
}
