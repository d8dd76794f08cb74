/** Extracting from the residual text again: exactly when it finds no media. */
module MediaAgain {
  import opened Text
  import opened Media
  import opened MediaTrim

  // ------------------------------------------------------------- word starts

  /** What follows the text starts a word. */
  predicate Aligned(a: string) {
    a == "" || Delim(a[|a| - 1])
  }

  lemma AlignedTail(a: string)
    requires Aligned(a) && a != ""
    ensures Aligned(a[1..])
  {
  }

  lemma {:induction false} BodyLenAligned(s: string, t: string)
    requires Aligned(s) && s != ""
    ensures BodyLen(s + t) == BodyLen(s) < |s|
  {
    assert (s + t)[0] == s[0];
    if !Delim(s[0]) {
      AlignedTail(s);
      BodyLenAligned(s[1..], t);
      assert (s + t)[1..] == s[1..] + t;
    }
  }

  lemma MatchAligned(s: string, t: string)
    requires Aligned(s) && s != ""
    ensures MatchLen(s + t) == MatchLen(s)
  {
    BodyLenAligned(s, t);
    SchemeOfPrefix(s, t);
  }

  lemma FlatAligned(p: Piece, qs: seq<Piece>)
    requires Aligned(Flat([p] + qs))
    ensures Aligned(Flat(qs)) && Flat([p] + qs) == TextOf(p) + Flat(qs)
  {
    assert ([p] + qs)[1..] == qs;
    if Flat(qs) != "" {
      assert (TextOf(p) + Flat(qs))[|TextOf(p) + Flat(qs)| - 1] == Flat(qs)[|Flat(qs)| - 1];
    }
  }

  lemma {:induction false} LexedAfter(qs: seq<Piece>, ps: seq<Piece>)
    requires Lexed(qs) && Lexed(ps) && Aligned(Flat(qs))
    ensures Lexed(qs + ps)
  {
    hide MatchLen, Aligned, Flat;
    if qs == [] {
      assert qs + ps == ps;
    } else {
      assert qs == [qs[0]] + qs[1..];
      FlatAligned(qs[0], qs[1..]);
      LexedAfter(qs[1..], ps);
      assert qs + ps == [qs[0]] + (qs[1..] + ps);
      LexedHead(qs);
      FlatConcat(qs[1..], ps);
      var s, t := TextOf(qs[0]) + Flat(qs[1..]), Flat(ps);
      assert s != "";
      MatchAligned(s, t);
      assert s + t == TextOf(qs[0]) + (Flat(qs[1..]) + t);
      LexedCons(qs[0], qs[1..] + ps);
    }
  }

  /** Text before a word start does not change how the rest is lexed. */
  lemma LexAligned(a: string, ps: seq<Piece>)
    requires Aligned(a) && Lexed(ps)
    ensures Lex(a + Flat(ps)) == Lex(a) + ps
  {
    LexIsLexed(a);
    LexedAfter(Lex(a), ps);
    FlatConcat(Lex(a), ps);
    LexedIsLex(Lex(a) + ps);
  }

  // ---------------------------------------- a replacement in the wrong place

  lemma {:induction false} SkipAligned(a: string, t: string, u: string)
    requires Aligned(a) && NoDelim(u) && u != "" && !Occurs(u, a)
    ensures ReplaceFirst(a + t, u) == a + ReplaceFirst(t, u)
  {
    if a == "" {
      assert a + t == t;
    } else {
      hide ReplaceFirst, Occurs;
      ReplaceUnfolds(a + t, u);
      AlignedTail(a);
      OccursLater(u, a);
      if u <= a + t {
        StaysWithin(a, t, u);
        OccursHere(u, a);
      }
      SkipAligned(a[1..], t, u);
      assert (a + t)[0] == a[0] && (a + t)[1..] == a[1..] + t;
      assert [a[0]] + (a[1..] + ReplaceFirst(t, u)) == a + ReplaceFirst(t, u);
    }
  }

  lemma StaysWithin(a: string, t: string, u: string)
    requires Aligned(a) && a != "" && NoDelim(u) && u <= a + t
    ensures u <= a
  {
    assert forall i :: 0 <= i < |u| ==> u[i] == (a + t)[i];
    assert (a + t)[|a| - 1] == a[|a| - 1];
  }

  lemma OccursHere(u: string, a: string)
    requires u <= a
    ensures Occurs(u, a)
  {
    assert a[0..] == a;
  }

  lemma {:induction false} ReplaceKeepsAligned(a: string, u: string)
    requires Aligned(a) && NoDelim(u)
    ensures Aligned(ReplaceFirst(a, u))
  {
    if u <= a {
      assert a == "" || |u| == 0 || u[|u| - 1] == a[|u| - 1];
    } else if a != "" {
      AlignedTail(a);
      ReplaceKeepsAligned(a[1..], u);
    }
  }

  /** A match that is still in the text when everything is over is found again. */
  lemma KeptIsFound(a: string, kept: seq<Piece>, rest: seq<Piece>, k: nat)
    requires Aligned(a) && Lexed(kept + rest) && k < |kept| && MediaPiece(kept[k])
    ensures !NoMedia(Lex(a + Flat(kept + Cut(rest))))
  {
    hide MediaPiece, Lexed, Cut, Aligned;
    CutLexed(kept, rest);
    var ps := kept + Cut(rest);
    LexAligned(a, ps);
    assert (Lex(a) + ps)[|Lex(a)| + k] == kept[k];
  }

  /** A URL that occurs in a match passed earlier lies before a word start. */
  lemma ShadowCovers(a: string, kept: seq<Piece>, rest: seq<Piece>, i: nat)
    requires Aligned(a) && Lexed(kept + rest) && rest != [] && rest[0].Url?
    requires i < |kept| && kept[i].Url? && Occurs(rest[0].text, kept[i].text)
    ensures i + 2 <= |kept|
    ensures var front, back := a + Flat(kept[..i + 2]), kept[i + 2..];
            && Aligned(front) && Occurs(rest[0].text, front)
            && Lexed(back + rest) && a + Flat(kept + rest) == front + Flat(back + rest)
  {
    hide MatchLen, Lexed, Flat, Occurs, IsUrl;
    var ps, u := kept + rest, rest[0].text;
    DelimAfter(kept, rest, i);
    var front, back := a + Flat(kept[..i + 2]), kept[i + 2..];
    LexedTail(ps, i + 2);
    assert ps[i + 2..] == back + rest;
    assert kept + rest == kept[..i + 2] + (back + rest);
    FlatConcat(kept[..i + 2], back + rest);
    assert kept[..i + 2] == kept[..i + 1] + [kept[i + 1]];
    FlatConcat(kept[..i + 1], [kept[i + 1]]);
    FlatOne(kept[i + 1]);
    OccursInFlat(kept, i, u);
    OccursAmid(u, a, Flat(kept[..i + 1]), TextOf(kept[i + 1]));
    assert front == a + Flat(kept[..i + 1]) + TextOf(kept[i + 1]);
  }

  lemma FlatOne(p: Piece)
    ensures Flat([p]) == TextOf(p)
  {
    assert [p][1..] == [];
  }

  lemma OccursAmid(u: string, a: string, w: string, b: string)
    requires Occurs(u, w)
    ensures Occurs(u, a + w + b)
  {
    var o :| 0 <= o <= |w| && u <= w[o..];
    assert (a + w + b)[|a| + o..] == w[o..] + b;
  }

  lemma DelimAfter(kept: seq<Piece>, rest: seq<Piece>, i: nat)
    requires Lexed(kept + rest) && rest != [] && rest[0].Url? && i < |kept| && kept[i].Url?
    ensures i + 1 < |kept| && kept[i + 1].Plain? && Delim(kept[i + 1].c)
  {
    hide MatchLen, IsMedia, IsUrl;
    var ps := kept + rest;
    assert ps[i] == kept[i] && ps[|kept|] == rest[0];
    UrlAt(ps, i);
    UrlTextOf(ps, i + 1);
    var tail := ps[i + 1..];
    assert Flat(tail)[0] == TextOf(tail[0])[0] && tail[0] == ps[i + 1];
    if ps[i + 1].Url? {
      UrlAt(ps, i + 1);
      UrlHasNoDelim(ps[i + 1].text);
      assert false;
    }
    assert i + 1 != |kept|;
    assert ps[i + 1] == kept[i + 1];
  }

  /** The replacements either cut exactly the media matches of `rest`, or leave a media
      match in the text: of the URLs whose replacement takes effect before their own
      place, the last one stays there untouched. */
  lemma {:induction false} CutOrFound(a: string, kept: seq<Piece>, rest: seq<Piece>)
    requires Aligned(a) && Lexed(kept + rest)
    ensures var r := ReplaceEach(a + Flat(kept + rest), MediaUrls(Urls(rest)));
            r == a + Flat(kept + Cut(rest)) || !NoMedia(Lex(r))
    decreases |rest|, 1
  {
    hide MediaPiece, IsMedia, Occurs, Lexed, Aligned, Shadowed, NoMedia, Lex, Flat, ReplaceEach, MediaUrls, Urls, Cut;
    if rest == [] {
      NothingLeft(a, kept);
    } else if !MediaPiece(rest[0]) {
      PassPlain(kept, rest);
      CutOrFound(a, kept + [rest[0]], rest[1..]);
    } else {
      PassMedia(a + Flat(kept + rest), rest);
      var u := rest[0].text;
      if Occurs(u, a) {
        Missed(a, kept, rest);
      } else if Shadowed(kept, u) {
        var i := ShadowedAt(kept, u);
        ShadowCovers(a, kept, rest, i);
        Missed(a + Flat(kept[..i + 2]), kept[i + 2..], rest);
      } else {
        HitsItsPlace(a, kept, rest);
        CutOrFound(a, kept, rest[1..]);
      }
    }
  }

  lemma NothingLeft(a: string, kept: seq<Piece>)
    ensures ReplaceEach(a + Flat(kept + []), MediaUrls(Urls([]))) == a + Flat(kept + Cut([]))
  {
  }

  lemma ShadowedAt(kept: seq<Piece>, u: string) returns (i: nat)
    requires Shadowed(kept, u)
    ensures i < |kept| && kept[i].Url? && Occurs(u, kept[i].text)
  {
    i :| 0 <= i < |kept| && kept[i].Url? && Occurs(u, kept[i].text);
  }

  /** The replacement takes effect in the text passed, and the match stays. */
  lemma {:induction false} Missed(a: string, kept: seq<Piece>, rest: seq<Piece>)
    requires Aligned(a) && Lexed(kept + rest) && rest != [] && MediaPiece(rest[0]) && Occurs(rest[0].text, a)
    ensures !NoMedia(Lex(ReplaceEach(a + Flat(kept + rest), MediaUrls(Urls(rest)))))
    decreases |rest|, 0
  {
    hide MediaPiece, IsMedia, Occurs, Lexed, Aligned, NoMedia, Lex, Flat;
    hide ReplaceEach, ReplaceFirst, MediaUrls, Urls, Cut;
    PassMedia(a + Flat(kept + rest), rest);
    var u := rest[0].text;
    var a', kept' := ReplaceFirst(a, u), kept + [rest[0]];
    UrlAt(kept + rest, |kept|);
    UrlHasNoDelim(u);
    ReplaceInside(a, Flat(kept + rest), u);
    ReplaceKeepsAligned(a, u);
    assert kept + rest == kept' + rest[1..];
    CutOrFound(a', kept', rest[1..]);
    KeptIsFound(a', kept', rest[1..], |kept|);
  }

  lemma HitsItsPlace(a: string, kept: seq<Piece>, rest: seq<Piece>)
    requires Aligned(a) && Lexed(kept + rest) && rest != [] && MediaPiece(rest[0])
    requires !Occurs(rest[0].text, a) && !Shadowed(kept, rest[0].text)
    ensures ReplaceFirst(a + Flat(kept + rest), rest[0].text) == a + Flat(kept + rest[1..])
    ensures Lexed(kept + rest[1..])
  {
    hide IsMedia, Occurs, Lexed, Aligned, Flat, ReplaceFirst;
    var ps, k, u := kept + rest, |kept|, rest[0].text;
    assert Drop(ps, k) == kept + rest[1..];
    UrlAt(ps, k);
    UrlHasNoDelim(u);
    SkipAligned(a, Flat(ps), u);
    forall i | 0 <= i < k && ps[i].Url? ensures !Occurs(ps[k].text, ps[i].text) {
      assert ps[i] == kept[i];
    }
    ReplaceDrops(ps, k);
    DropKeepsLexed(ps, k);
  }

  // --------------------------------------------- media survives the final trim

  predicate Punct(c: char) {
    c in {')', ']', '.', ',', '!', '?', ';', ':'}
  }

  lemma ExtensionEnds(ext: string)
    requires ExtensionType(ext) != ""
    ensures ext != "" && ('a' <= ext[|ext| - 1] <= 'z' || '0' <= ext[|ext| - 1] <= '9')
  {
  }

  lemma LowerEnds(ext: string)
    ensures |Lower(ext)| == |ext|
    ensures ext != "" ==> Lower(ext)[|ext| - 1] == LowerRune(ext[|ext| - 1])
  {
  }

  lemma RuneEnds(c: char)
    requires 'a' <= LowerRune(c) <= 'z' || '0' <= LowerRune(c) <= '9'
    ensures !IsSpace(c) && !Punct(c)
  {
  }

  /** The file extensions are made of letters and digits, so no media path ends in white
      space or in punctuation. */
  lemma MediaEnds(seg: string)
    requires ExtensionType(Lower(AfterLast(seg, '.'))) != ""
    ensures seg != "" && !IsSpace(seg[|seg| - 1]) && !Punct(seg[|seg| - 1])
  {
    hide ExtensionType, Lower, LowerRune, AfterLast, IsSpace, Punct;
    var ext := AfterLast(seg, '.');
    ExtensionEnds(Lower(ext));
    LowerEnds(ext);
    RuneEnds(ext[|ext| - 1]);
    AfterLastEnds(seg, '.');
  }

  lemma {:induction false} AfterLastEnds(s: string, c: char)
    ensures AfterLast(s, c) != "" ==> s != "" && AfterLast(s, c)[|AfterLast(s, c)| - 1] == s[|s| - 1]
  {
  }

  lemma {:induction false} QueryEnds(b: string, s: string)
    requires '?' !in b && '#' !in b && (s == "" || s[0] == '?' || s[0] == '#')
    ensures BeforeQuery(b + s) == b
  {
    if b == "" {
      assert b + s == s;
    } else {
      QueryEnds(b[1..], s);
      assert (b + s)[1..] == b[1..] + s;
    }
  }

  lemma {:induction false} QuerySplit(s: string)
    ensures var b := BeforeQuery(s);
            && b <= s && '?' !in b && '#' !in b
            && (s[|b|..] == "" || s[|b|..][0] == '?' || s[|b|..][0] == '#')
  {
    if s != "" && s[0] != '?' && s[0] != '#' {
      QuerySplit(s[1..]);
    }
  }

  lemma {:induction false} StripStops(b: string, s: string)
    requires b != "" && !Punct(b[|b| - 1])
    ensures b <= StripPunct(b + s) <= b + s
    decreases |s|
  {
    var t := b + s;
    if s == "" {
      assert t == b;
    } else {
      assert t[..|t| - 1] == b + s[..|s| - 1];
      StripStops(b, s[..|s| - 1]);
    }
  }

  lemma {:induction false} TrimStops(b: string, s: string)
    requires b != "" && !IsSpace(b[|b| - 1])
    ensures b <= TrimRight(b + s) <= b + s
    decreases |s|
  {
    var t := b + s;
    if s == "" {
      assert t == b;
    } else {
      assert t[..|t| - 1] == b + s[..|s| - 1];
      TrimStops(b, s[..|s| - 1]);
    }
  }

  /** A media URL stays media without the white space at its end: that white space can
      only belong to its query or fragment. */
  lemma MediaSurvivesTrim(u: string)
    requires IsMedia(u)
    ensures IsMedia(TrimRight(u))
  {
    hide ExtensionType, Lower, AfterLast, BeforeQuery;
    if u != "" && IsSpace(u[|u| - 1]) {
      assert StripPunct(u) == u;
      var b := BeforeQuery(u);
      QuerySplit(u);
      var x := u[|b|..];
      MediaEnds(AfterLast(b, '/'));
      AfterLastEnds(b, '/');
      assert u == b + x;
      TrimStops(b, x);
      var y := TrimRight(u)[|b|..];
      assert TrimRight(u) == b + y;
      StripStops(b, y);
      var z := StripPunct(b + y)[|b|..];
      assert StripPunct(b + y) == b + z;
      assert z != "" ==> (b + z)[|b|] == (b + x)[|b|] == x[0];
      QueryEnds(b, z);
    }
  }

  lemma {:induction false} TrimKeepsMedia(ps: seq<Piece>)
    requires Lexed(ps) && NoMedia(Trimmed(ps))
    ensures NoMedia(ps)
  {
    hide IsMedia, MatchLen, IsUrl, Lexed, Lex;
    if ps != [] {
      var n := |ps| - 1;
      assert ps == ps[..n] + [ps[n]];
      match ps[n]
      case Plain(c) =>
        if IsSpace(c) {
          InitLexed(ps[..n], c);
          TrimKeepsMedia(ps[..n]);
        }
      case Url(w) =>
        UrlAt(ps, n);
        var left := Lex(TrimRight(w));
        forall i | 0 <= i < n ensures !MediaPiece(ps[i]) {
          assert (ps[..n] + left)[i] == ps[i];
        }
        forall i | 0 <= i < |left| ensures !MediaPiece(left[i]) {
          assert (ps[..n] + left)[n + i] == left[i];
        }
        UrlHasNoDelim(w);
        TrimRightPrefix(w);
        PrefixOfUrl(w, TrimRight(w));
        if IsMedia(w) {
          MediaSurvivesTrim(w);
        }
    }
  }

  lemma TrimSpaceKeepsMedia(s: string)
    requires NoMedia(Lex(TrimSpace(s)))
    ensures NoMedia(Lex(s))
  {
    hide NoMedia, Lexed, Lex, Resurfaces;
    var ps := Lex(s);
    LexIsLexed(s);
    TrimLeftSkips(ps);
    TrimmedIsTrimmed(SkipSpaces(ps));
    LexedIsLex(Trimmed(SkipSpaces(ps)));
    TrimKeepsMedia(SkipSpaces(ps));
  }

  // ---------------------------------------------------------------- the law

  /** Provided the replacements cut what they should, extracting from the residual text
      finds no more media if and only if no kept match was shielded from being media
      only by white space that the final trim removes. */
  lemma ExtractUnshadowed(content: string)
    requires NoShadow(Lex(content))
    ensures NoMedia(Lex(Residual(content))) <==> !Resurfaces(Cut(Lex(content)))
  {
    hide NoMedia, NoShadow, Lexed, Resurfaces;
    var ps := Cut(Lex(content));
    ReplaceIsCut(content);
    CutHasNoMedia(content);
    LexIsLexed(Flat(ps));
    TrimLeftSkips(ps);
    TrimmedIsTrimmed(SkipSpaces(ps));
    TrimUncovers(SkipSpaces(ps));
    LexedIsLex(Trimmed(SkipSpaces(ps)));
  }

  /** A shadowed URL always stays in the text, and is found again. */
  lemma ShadowedIsFound(content: string)
    requires !NoShadow(Lex(content))
    ensures !NoMedia(Lex(Residual(content)))
  {
    hide NoMedia, NoShadow, Lexed, Lex, Cut, MediaUrls, Urls, ReplaceEach, TrimSpace;
    var ps := Lex(content);
    LexIsLexed(content);
    ReplaceIsCut(content);
    assert [] + ps == ps && [] + Cut(ps) == Cut(ps) && "" + content == content && "" + Flat(Cut(ps)) == Flat(Cut(ps));
    CutOrFound("", [], ps);
    if NoMedia(Lex(Residual(content))) {
      TrimSpaceKeepsMedia(ReplaceEach(content, MediaUrls(Urls(ps))));
    }
  }

  /** For every text: extracting from the residual text finds no more media if and only
      if no media URL's text occurs inside an earlier match that is not media, and no kept
      match was shielded from being media only by white space that the final trim removes. */
  lemma ExtractAgain(content: string)
    ensures NoMedia(Lex(Residual(content)))
            <==> NoShadow(Lex(content)) && !Resurfaces(Cut(Lex(content)))
  {
    hide NoMedia, NoShadow, Lexed, Lex, Cut, Resurfaces, Residual;
    if NoShadow(Lex(content)) {
      ExtractUnshadowed(content);
    } else {
      ShadowedIsFound(content);
    }
  }
}
