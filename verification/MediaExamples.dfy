/** Two replies on which extraction does not do what its callers expect. */
module MediaExamples {
  import opened Text
  import opened Media
  import opened MediaTrim
  import opened MediaAgain
  import opened MediaLinks

  lemma {:induction false} NoQuery(s: string)
    requires '?' !in s && '#' !in s
    ensures BeforeQuery(s) == s
  {
    if s != "" {
      NoQuery(s[1..]);
    }
  }

  /** The type of a URL whose last segment is `x.` and an extension. */
  lemma TypeOfFile(ext: string)
    requires forall i :: 0 <= i < |ext| ==> ext[i] !in {'?', '#', '/', '.'}
    ensures MediaFileType("http://a/x." + ext) == ExtensionType(Lower(ext))
  {
    var url := "http://a/x." + ext;
    NoQuery(url);
    assert url == "http://a" + ['/'] + ("x." + ext);
    AfterLastSplit("http://a", '/', "x." + ext);
    assert "x." + ext == "x" + ['.'] + ext;
    AfterLastSplit("x", '.', ext);
    assert ("x." + ext)[1] == '.';
  }

  lemma UrlOf(s: string)
    requires "http://" <= s && |s| > 7 && NoDelim(s)
    ensures IsUrl(s)
  {
    BodyLenOf(s, "");
    assert s + "" == s;
  }

  lemma MediaByType(s: string)
    ensures StripPunct(s) == s ==> (IsMedia(s) <==> MediaFileType(s) != "")
  {
  }

  /** A link that is no media and contains the URL of the media that follows it. */
  lemma Shadowing(page: string, picture: string)
    requires IsUrl(page) && IsUrl(picture) && picture <= page && !IsMedia(page) && IsMedia(picture)
    ensures var content := page + (" " + picture);
            && ReplaceEach(content, MediaUrls(Urls(Lex(content)))) != Flat(Cut(Lex(content)))
            && !NoMedia(Lex(Residual(content)))
  {
    hide IsUrl, IsMedia;
    var content := page + (" " + picture);
    var ps := [Url(page), Plain(' '), Url(picture)];
    ThreePieces(page, picture);
    LexedIsLex(ps);
    assert page[0..] == page;
    assert Occurs(ps[2].text, ps[0].text);
    assert ps[0].Url? && !MediaPiece(ps[0]) && MediaPiece(ps[2]);
    assert !NoShadow(ps);
    hide NoMedia, Lex, Residual;
    ReplaceIsCut(content);
    ShadowedIsFound(content);
  }

  lemma ThreePieces(page: string, picture: string)
    requires IsUrl(page) && IsUrl(picture)
    ensures var ps := [Url(page), Plain(' '), Url(picture)];
            Lexed(ps) && Flat(ps) == page + (" " + picture)
  {
    hide IsUrl, MatchLen;
    UrlHasNoDelim(page);
    UrlHasNoDelim(picture);
    var tail := [Url(picture)];
    assert tail[1..] == [] && Flat(tail) == picture + "" == picture;
    UrlThen(picture, "");
    assert Lexed(tail);
    SpaceMatchesNothing(picture);
    LexedCons(Plain(' '), tail);
    var rest := [Plain(' ')] + tail;
    assert rest[1..] == tail && Flat(rest) == " " + picture;
    UrlThen(page, " " + picture);
    LexedCons(Url(page), rest);
    assert [Url(page)] + rest == [Url(page), Plain(' '), Url(picture)];
    assert ([Url(page)] + rest)[1..] == rest;
  }

  lemma SpaceMatchesNothing(t: string)
    ensures MatchLen([' '] + t) == 0
  {
    assert ([' '] + t)[0] == ' ';
  }

  /** A match that is media but for the white space at its end. */
  lemma Shielded(s: string)
    requires IsUrl(s) && !IsMedia(s) && IsMedia(TrimRight(s))
    ensures !NoMedia(Lex(Residual(s)))
  {
    hide IsUrl, IsMedia, NoMedia;
    UrlLexesAlone(s);
    var ps := [Url(s)];
    assert !MediaPiece(ps[0]);
    assert Cut(ps) == [ps[0]] + Cut(ps[1..]) == ps;
    assert NoShadow(ps);
    assert ResurfacesAt(ps, 0);
    ExtractAgain(s);
  }

  const PICTURE := "http://a/x.png"

  lemma PictureIsMedia()
    ensures IsMedia(PICTURE) && IsUrl(PICTURE)
  {
    hide IsMedia, MediaFileType, IsUrl;
    assert PICTURE == "http://a/x." + "png";
    TypeOfFile("png");
    assert Lower("png") == "png";
    UrlOf(PICTURE);
    MediaByType(PICTURE);
  }

  const PAGE := "http://a/x.png/y"

  lemma TypeOfPage(a: string, seg: string)
    requires '?' !in a && '#' !in a
    requires forall i :: 0 <= i < |seg| ==> seg[i] !in {'?', '#', '/', '.'}
    ensures MediaFileType(a + ['/'] + seg) == ""
  {
    NoQuery(a + ['/'] + seg);
    AfterLastSplit(a, '/', seg);
  }

  lemma PageIsNotMedia()
    ensures !IsMedia(PAGE) && IsUrl(PAGE) && PICTURE <= PAGE
  {
    hide IsMedia, IsUrl, MediaFileType;
    assert PAGE == PICTURE + ['/'] + "y";
    TypeOfPage(PICTURE, "y");
    UrlOf(PAGE);
    MediaByType(PAGE);
  }

  /** A page below a picture's URL, then the picture: it is the page's link that loses the
      picture's text, and the picture's link stays and is found again. */
  lemma ShadowedPicture()
    ensures var content := PAGE + (" " + PICTURE);
            && ReplaceEach(content, MediaUrls(Urls(Lex(content)))) != Flat(Cut(Lex(content)))
            && !NoMedia(Lex(Residual(content)))
  {
    hide *;
    PictureIsMedia();
    PageIsNotMedia();
    Shadowing(PAGE, PICTURE);
  }

  const SHIELDED := "http://a/x.png\U{A0}"

  lemma ShieldedPicture()
    ensures !IsMedia(SHIELDED) && IsUrl(SHIELDED) && TrimRight(SHIELDED) == PICTURE
  {
    hide IsMedia, IsUrl, MediaFileType;
    var ext := "png\U{A0}";
    assert SHIELDED == "http://a/x." + ext;
    TypeOfFile(ext);
    assert Lower(ext)[3] == '\U{A0}' && |Lower(ext)| == 4;
    UrlOf(SHIELDED);
    MediaByType(SHIELDED);
    assert SHIELDED[..|SHIELDED| - 1] == PICTURE;
  }

  /** A picture's URL followed by a no-break space is one match and no media, so it stays
      in the text; the final trim then leaves a text that is exactly a media URL. */
  lemma TrimUncoversPicture()
    ensures !NoMedia(Lex(Residual(SHIELDED)))
  {
    hide *;
    ShieldedPicture();
    PictureIsMedia();
    Shielded(SHIELDED);
  }
}
