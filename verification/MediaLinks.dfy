/** Which links a reply's media are, in plain words: what a link is, which links are found,
    and which file type each of them is sent on with. */
module MediaLinks {
  import opened Sequences
  import opened Text
  import opened Media
  import opened MediaAgain

  // -------------------------------------------------------------------- links

  predicate LinkChar(c: char) {
    && c != '\t' && c != '\n' && c != '\U{0C}' && c != '\r' && c != ' '
    && c != '<' && c != '>' && c != '"' && c != '\''
  }

  /** "http://" or "https://", followed by something, all of it link characters. */
  predicate LinkText(u: string) {
    && (("http://" <= u && |u| > 7) || ("https://" <= u && |u| > 8))
    && forall i :: 0 <= i < |u| ==> LinkChar(u[i])
  }

  predicate LinkStops(rest: string) {
    rest == "" || !LinkChar(rest[0])
  }

  predicate NoLinkBegins(t: string) {
    forall n :: 0 <= n <= |t| ==> !LinkText(t[..n])
  }

  /** A text is one match of the URL expression if and only if it is a link. */
  lemma LinkExactly(u: string)
    ensures IsUrl(u) <==> LinkText(u)
  {
    if IsUrl(u) {
      UrlHasNoDelim(u);
    }
    if LinkText(u) {
      BodyLenOf(u, "");
      assert u + "" == u;
    }
  }

  /** Where a match begins, it is the longest link there; no match means no link. */
  lemma MatchExactly(s: string)
    ensures MatchLen(s) > 0 ==> LinkText(s[..MatchLen(s)]) && LinkStops(s[MatchLen(s)..])
    ensures MatchLen(s) == 0 ==> NoLinkBegins(s)
  {
    if MatchLen(s) > 0 {
      var w := s[..MatchLen(s)];
      assert s == w + s[MatchLen(s)..];
      HeadUrlText(w, s[MatchLen(s)..]);
      LinkExactly(w);
    } else {
      forall n | 0 <= n <= |s| ensures !LinkText(s[..n]) {
        LinkExactly(s[..n]);
        if IsUrl(s[..n]) {
          UrlMatches(s[..n], s);
        }
      }
    }
  }

  /** A piece that is a link is followed by a character that is none; at a piece that is a
      single character no link begins. */
  predicate PieceRight(ps: seq<Piece>, k: nat)
    requires k < |ps|
  {
    if ps[k].Url? then LinkText(ps[k].text) && LinkStops(Flat(ps[k + 1..])) else NoLinkBegins(Flat(ps[k..]))
  }

  predicate AllRight(ps: seq<Piece>) {
    forall k :: 0 <= k < |ps| ==> PieceRight(ps, k)
  }

  lemma PieceRightTail(ps: seq<Piece>, k: nat)
    requires 0 < k < |ps|
    ensures PieceRight(ps, k) <==> PieceRight(ps[1..], k - 1)
  {
    assert ps[1..][k - 1..] == ps[k..] && ps[1..][k..] == ps[k + 1..];
  }

  lemma HeadExactly(ps: seq<Piece>)
    requires ps != []
    ensures PieceRight(ps, 0) <==>
            if ps[0].Plain? then MatchLen(Flat(ps)) == 0
            else ps[0].text != "" && MatchLen(Flat(ps)) == |ps[0].text|
  {
    var t := Flat(ps);
    assert ps[0..] == ps && t == TextOf(ps[0]) + Flat(ps[1..]);
    MatchExactly(t);
    match ps[0]
    case Plain(c) =>
      if MatchLen(t) > 0 {
        assert LinkText(t[..MatchLen(t)]);
      }
    case Url(text) =>
      LinkExactly(text);
      if PieceRight(ps, 0) {
        UrlThen(text, Flat(ps[1..]));
      }
      if text != "" && MatchLen(t) == |text| {
        HeadUrlText(text, Flat(ps[1..]));
      }
  }

  lemma {:induction false} LexedExactly(ps: seq<Piece>)
    ensures Lexed(ps) <==> AllRight(ps)
  {
    hide PieceRight, MatchLen;
    if ps != [] {
      HeadExactly(ps);
      LexedExactly(ps[1..]);
      forall k | 0 < k < |ps| ensures PieceRight(ps, k) <==> PieceRight(ps[1..], k - 1) {
        PieceRightTail(ps, k);
      }
      if AllRight(ps) {
        forall k | 0 <= k < |ps[1..]| ensures PieceRight(ps[1..], k) {
          assert PieceRight(ps, k + 1);
        }
      }
    }
  }

  /** The links found in a text, exactly: cutting a text into pieces is right if and only if
      every piece that is a link goes as far as it can and no other link has been missed. */
  lemma LexExactly(s: string, ps: seq<Piece>)
    ensures ps == Lex(s) <==> Flat(ps) == s && AllRight(ps)
  {
    LexedExactly(ps);
    LexIsLexed(s);
    if Lexed(ps) {
      LexedIsLex(ps);
    }
  }

  // --------------------------------------------------------------- file types

  /** The extensions of each file type. */
  function Extensions(kind: string): set<string> {
    if kind == "image" then {"jpg", "jpeg", "png", "gif", "bmp", "webp", "svg", "tiff"}
    else if kind == "audio" then {"mp3", "wav", "ogg", "m4a", "aac", "flac"}
    else if kind == "video" then {"mp4", "avi", "mov", "wmv", "flv", "mkv", "webm"}
    else if kind == "file" then {"pdf", "doc", "docx", "xls", "xlsx", "ppt", "pptx", "txt", "rtf", "odt"}
    else {}
  }

  lemma TypesExactly(ext: string, kind: string)
    requires kind != ""
    ensures ExtensionType(ext) == kind <==> ext in Extensions(kind)
  {
  }

  /** The letter in either case, with the two runes outside ASCII that lower to one. */
  predicate SameLetter(c: char, letter: char) {
    || c == letter
    || ('a' <= letter <= 'z' && c as int == letter as int - 32)
    || (letter == 'i' && c == '\U{0130}') || (letter == 'k' && c == '\U{212A}')
  }

  predicate SameExtension(x: string, ext: string) {
    |x| == |ext| && forall i :: 0 <= i < |x| ==> SameLetter(x[i], ext[i])
  }

  lemma LowerLetter(c: char, letter: char)
    requires 'a' <= letter <= 'z' || '0' <= letter <= '9'
    ensures LowerRune(c) == letter <==> SameLetter(c, letter)
  {
  }

  predicate LowerAlnum(ext: string) {
    forall i :: 0 <= i < |ext| ==> 'a' <= ext[i] <= 'z' || '0' <= ext[i] <= '9'
  }

  lemma LowerExactly(x: string, ext: string)
    requires LowerAlnum(ext)
    ensures Lower(x) == ext <==> SameExtension(x, ext)
  {
    hide LowerRune, SameLetter;
    assert |Lower(x)| == |x|;
    forall i | 0 <= i < |x| && |x| == |ext| ensures Lower(x)[i] == ext[i] <==> SameLetter(x[i], ext[i]) {
      LowerLetter(x[i], ext[i]);
    }
  }

  lemma ExtensionsAreAlnum(kind: string)
    ensures forall ext :: ext in Extensions(kind) ==> LowerAlnum(ext)
  {
  }

  /** The URL is a path ending in a dot and an extension, and perhaps a query or a fragment. */
  predicate Named(url: string, base: string, x: string, query: string) {
    && url == base + "." + x + query
    && '?' !in base && '#' !in base && '?' !in x && '#' !in x && '/' !in x && '.' !in x
    && (query == "" || query[0] == '?' || query[0] == '#')
  }

  lemma {:induction false} AfterLastSplit(a: string, c: char, b: string)
    requires c !in b
    ensures AfterLast(a + [c] + b, c) == b
    decreases |b|
  {
    var s := a + [c] + b;
    if b != "" {
      assert s[..|s| - 1] == a + [c] + b[..|b| - 1];
      AfterLastSplit(a, c, b[..|b| - 1]);
      assert s[|s| - 1] == b[|b| - 1];
    }
  }

  lemma {:induction false} AfterLastWhole(s: string, c: char)
    requires c !in s
    ensures AfterLast(s, c) == s
  {
    if s != "" {
      AfterLastWhole(s[..|s| - 1], c);
    }
  }

  lemma {:induction false} AfterLastIs(s: string, c: char)
    ensures var b := AfterLast(s, c);
            && c !in b
            && if c in s then |b| < |s| && s == s[..|s| - |b| - 1] + [c] + b else b == s
  {
    if s != "" {
      var n := |s| - 1;
      assert s == s[..n] + [s[n]];
      if s[n] == c {
        assert s[..|s|] == s;
      } else {
        AfterLastIs(s[..n], c);
      }
    }
  }

  /** What follows the last dot of a named URL's last segment is its extension. */
  lemma SegmentOf(base: string, x: string)
    requires '/' !in x && '.' !in x
    ensures var seg := AfterLast(base + "." + x, '/'); '.' in seg && AfterLast(seg, '.') == x
  {
    var tail := AfterLast(base, '/');
    AfterLastIs(base, '/');
    var seg := tail + "." + x;
    assert '/' !in seg;
    if '/' in base {
      var front := base[..|base| - |tail| - 1];
      assert base + "." + x == front + ['/'] + seg;
      AfterLastSplit(front, '/', seg);
    } else {
      assert base + "." + x == seg;
      AfterLastWhole(seg, '/');
    }
    assert seg[|tail|] == '.';
    assert seg == tail + ['.'] + x;
    AfterLastSplit(tail, '.', x);
  }

  lemma NamedType(url: string, base: string, x: string, query: string)
    requires Named(url, base, x, query)
    ensures MediaFileType(url) == ExtensionType(Lower(x))
  {
    hide ExtensionType, Lower, AfterLast, BeforeQuery;
    var path := base + "." + x;
    assert '?' !in path && '#' !in path;
    QueryEnds(path, query);
    SegmentOf(base, x);
  }

  /** A path whose last segment has a dot: what stands before and behind that dot. */
  lemma SplitAtDot(path: string) returns (base: string, x: string)
    requires '.' in AfterLast(path, '/')
    ensures path == base + "." + x && '/' !in x && '.' !in x
    ensures x == AfterLast(AfterLast(path, '/'), '.')
  {
    hide AfterLast;
    var seg := AfterLast(path, '/');
    AfterLastIs(path, '/');
    AfterLastIs(seg, '.');
    x := AfterLast(seg, '.');
    var front, stem := path[..|path| - |seg|], seg[..|seg| - |x| - 1];
    base := front + stem;
    assert forall c :: c in x ==> c in seg;
    assert path == front + seg;
    Around(path, front, stem, x);
  }

  lemma Around(path: string, front: string, stem: string, x: string)
    requires path == front + (stem + ['.'] + x)
    ensures path == (front + stem) + "." + x
  {
  }

  /** A URL with a media type is named by an extension. */
  lemma MediaIsNamed(url: string) returns (base: string, x: string, query: string)
    requires MediaFileType(url) != ""
    ensures Named(url, base, x, query)
  {
    hide ExtensionType, Lower, AfterLast, BeforeQuery;
    var path := BeforeQuery(url);
    QuerySplit(url);
    query := url[|path|..];
    base, x := SplitAtDot(path);
    assert forall c :: c in base || c in x ==> c in path;
    assert url == path + query;
  }

  /** The file type of a URL, exactly: it is named by one of the extensions of that type, in
      any letter case, whatever query or fragment follows. */
  lemma MediaTypeExactly(url: string, kind: string)
    requires kind != ""
    ensures MediaFileType(url) == kind <==>
            exists base: string, x: string, query: string, ext: string ::
              Named(url, base, x, query) && ext in Extensions(kind) && SameExtension(x, ext)
  {
    hide ExtensionType, Extensions, SameExtension, Lower, Named, MediaFileType;
    ExtensionsAreAlnum(kind);
    if MediaFileType(url) == kind {
      var base, x, query := MediaIsNamed(url);
      NamedType(url, base, x, query);
      TypesExactly(Lower(x), kind);
      LowerExactly(x, Lower(x));
      assert Named(url, base, x, query) && Lower(x) in Extensions(kind) && SameExtension(x, Lower(x));
    }
    if base: string, x: string, query: string, ext: string :|
         Named(url, base, x, query) && ext in Extensions(kind) && SameExtension(x, ext) {
      NamedType(url, base, x, query);
      LowerExactly(x, ext);
      TypesExactly(ext, kind);
    }
  }

  // ---------------------------------------------------------------- attachments

  predicate SentenceMark(c: char) {
    c == ')' || c == ']' || c == '.' || c == ',' || c == '!' || c == '?' || c == ';' || c == ':'
  }

  /** Marks at the end of a link are not part of its URL. */
  lemma {:induction false} MarksAreStripped(url: string, marks: string)
    requires url == "" || !SentenceMark(url[|url| - 1])
    requires forall i :: 0 <= i < |marks| ==> SentenceMark(marks[i])
    ensures StripPunct(url + marks) == url
    decreases |marks|
  {
    var s := url + marks;
    if marks == "" {
      assert s == url;
    } else {
      assert s[..|s| - 1] == url + marks[..|marks| - 1];
      MarksAreStripped(url, marks[..|marks| - 1]);
    }
  }

  /** A link whose URL is named by a listed extension is attached with that file type. */
  lemma ListedLinkIsAttached(url: string, marks: string, base: string, x: string, query: string,
                             ext: string, kind: string)
    requires Named(url, base, x, query) && ext in Extensions(kind) && SameExtension(x, ext) && kind != ""
    requires !SentenceMark(url[|url| - 1]) && forall i :: 0 <= i < |marks| ==> SentenceMark(marks[i])
    ensures Attachments([url + marks]) == [PostbackAttachment(url, kind)]
  {
    assert url != "";
    hide MediaFileType, Extensions, SameExtension, Named, StripPunct;
    MarksAreStripped(url, marks);
    MediaTypeExactly(url, kind);
    assert [url + marks][1..] == [];
  }

  lemma {:induction false} AttachmentsConcat(xs: seq<string>, ys: seq<string>)
    ensures Attachments(xs + ys) == Attachments(xs) + Attachments(ys)
  {
    hide IsMedia, MediaFileType, StripPunct;
    if xs == [] {
      assert xs + ys == ys;
    } else {
      AttachmentsConcat(xs[1..], ys);
      assert (xs + ys)[0] == xs[0] && (xs + ys)[1..] == xs[1..] + ys;
    }
  }

  lemma {:induction false} UrlsConcat(ps: seq<Piece>, qs: seq<Piece>)
    ensures Urls(ps + qs) == Urls(ps) + Urls(qs)
  {
    if ps == [] {
      assert ps + qs == qs;
    } else {
      UrlsConcat(ps[1..], qs);
      assert (ps + qs)[0] == ps[0] && (ps + qs)[1..] == ps[1..] + qs;
      Associate(if ps[0].Url? then [ps[0].text] else [], Urls(ps[1..]), Urls(qs));
    }
  }

  /** A link that stands by itself in a text is found, with what is found before and behind it. */
  lemma LinkIsFound(before: string, link: string, after: string)
    requires LinkText(link) && LinkStops(after)
    requires before == "" || !LinkChar(before[|before| - 1])
    ensures var found := (s: string) => Attachments(Urls(Lex(s)));
            found(before + link + after) == found(before) + Attachments([link]) + found(after)
  {
    hide Lexed, MatchLen, IsUrl, Lex, Attachments, LinkText;
    LinkExactly(link);
    LexIsLexed(after);
    UrlThen(link, after);
    UrlHasNoDelim(link);
    LexedCons(Url(link), Lex(after));
    var ps := [Url(link)] + Lex(after);
    assert ps[0] == Url(link) && ps[1..] == Lex(after);
    LexAligned(before, ps);
    assert before + Flat(ps) == before + link + after;
    UrlsConcat(Lex(before), ps);
    assert Urls(ps) == [link] + Urls(Lex(after));
    AttachmentsConcat(Urls(Lex(before)), Urls(ps));
    AttachmentsConcat([link], Urls(Lex(after)));
  }

  const PICTURE_LINK := "https://a/x.png"

  /** A picture behind https. */
  lemma PictureLink()
    ensures Attachments(Urls(Lex(PICTURE_LINK))) == [PostbackAttachment(PICTURE_LINK, "image")]
  {
    hide Lex, Attachments, LinkText;
    PictureIsAttached();
    PictureIsLink();
    LinkIsFound("", PICTURE_LINK, "");
    assert "" + PICTURE_LINK + "" == PICTURE_LINK;
    NothingInNothing();
  }

  lemma PictureIsLink()
    ensures LinkText(PICTURE_LINK)
  {
  }

  lemma PictureIsAttached()
    ensures Attachments([PICTURE_LINK]) == [PostbackAttachment(PICTURE_LINK, "image")]
  {
    hide Attachments, Named, SameExtension;
    assert PICTURE_LINK == "https://a/x" + "." + "png" + "";
    NamedBy("https://a/x", "png", "");
    SameAsItself("png");
    ListedLinkIsAttached(PICTURE_LINK, "", "https://a/x", "png", "", "png", "image");
    assert PICTURE_LINK + "" == PICTURE_LINK;
  }

  lemma NamedBy(base: string, x: string, query: string)
    requires '?' !in base && '#' !in base && '?' !in x && '#' !in x && '/' !in x && '.' !in x
    requires query == "" || query[0] == '?' || query[0] == '#'
    ensures Named(base + "." + x + query, base, x, query)
  {
  }

  lemma SameAsItself(x: string)
    ensures SameExtension(x, x)
  {
  }

  lemma NothingInNothing()
    ensures Attachments(Urls(Lex(""))) == []
  {
  }

  const SOUND := "http://a/B.MP3?v=1"

  /** A sound file with a query, at the end of a sentence. */
  lemma SoundLink()
    ensures Attachments(Urls(Lex("at " + (SOUND + ").") + " Bye"))) == [PostbackAttachment(SOUND, "audio")]
  {
    hide Lex, Attachments, LinkText;
    SoundIsAttached();
    SoundIsLink();
    LinkIsFound("at ", SOUND + ").", " Bye");
    NoLinkInWords();
  }

  lemma SoundIsAttached()
    ensures Attachments([SOUND + ")."]) == [PostbackAttachment(SOUND, "audio")]
  {
    hide Attachments, Named, SameExtension;
    assert SOUND == "http://a/B" + "." + "MP3" + "?v=1";
    NamedBy("http://a/B", "MP3", "?v=1");
    UpperMp3();
    ListedLinkIsAttached(SOUND, ").", "http://a/B", "MP3", "?v=1", "mp3", "audio");
  }

  lemma SoundIsLink()
    ensures LinkText(SOUND + ").")
  {
  }

  lemma UpperMp3()
    ensures SameExtension("MP3", "mp3")
  {
  }

  lemma NoLinkInWords()
    ensures Attachments(Urls(Lex("at "))) == [] && Attachments(Urls(Lex(" Bye"))) == []
  {
    PlainOnly("at ");
    PlainOnly(" Bye");
  }

  lemma {:induction false} PlainOnly(s: string)
    requires |s| < 8
    ensures Urls(Lex(s)) == []
  {
    if s != "" {
      PlainOnly(s[1..]);
    }
  }

  // ------------------------------------------------------ replacing and trimming

  predicate Leftmost(u: string, t: string, o: nat) {
    o <= |t| && u <= t[o..] && forall i :: 0 <= i < o ==> !(u <= t[i..])
  }

  /** `strings.Replace(t, u, "", 1)`: without an occurrence nothing changes, otherwise the
      leftmost one is cut out. */
  lemma {:induction false} ReplaceFirstExactly(t: string, u: string)
    ensures !Occurs(u, t) ==> ReplaceFirst(t, u) == t
    ensures Occurs(u, t) ==>
              exists o: nat :: Leftmost(u, t, o) && ReplaceFirst(t, u) == t[..o] + t[o + |u|..]
  {
    hide Occurs;
    if u <= t {
      AtTheHead(u, t);
      OccursHere(u, t);
    } else if t != "" {
      ReplaceFirstExactly(t[1..], u);
      OccursLater(u, t);
      if Occurs(u, t) {
        OccursFits(u, t);
        var o: nat :| Leftmost(u, t[1..], o) && ReplaceFirst(t[1..], u) == t[1..][..o] + t[1..][o + |u|..];
        FurtherOn(u, t, o);
        assert ReplaceFirst(t, u) == t[..o + 1] + t[o + 1 + |u|..];
      }
    } else {
      NothingOccurs(u);
    }
  }

  lemma AtTheHead(u: string, t: string)
    requires u <= t
    ensures Leftmost(u, t, 0) && t[|u|..] == t[..0] + t[0 + |u|..]
  {
    assert t[0..] == t;
  }

  lemma FurtherOn(u: string, t: string, o: nat)
    requires t != "" && !(u <= t) && Leftmost(u, t[1..], o)
    ensures Leftmost(u, t, o + 1) && o + 1 + |u| <= |t| && o + |u| <= |t[1..]|
    ensures [t[0]] + (t[1..][..o] + t[1..][o + |u|..]) == t[..o + 1] + t[o + 1 + |u|..]
  {
    assert t[1..][o..] == t[o + 1..];
    forall i | 0 <= i < o + 1 ensures !(u <= t[i..]) {
      if i > 0 {
        assert t[i..] == t[1..][i - 1..];
      } else {
        assert t[0..] == t;
      }
    }
  }

  lemma NothingOccurs(u: string)
    requires u != ""
    ensures !Occurs(u, "")
  {
  }

  lemma {:induction false} TrimmedLeft(s: string) returns (l: string)
    ensures s == l + TrimLeft(s) && AllSpace(l)
    ensures TrimLeft(s) != "" ==> !IsSpace(TrimLeft(s)[0])
  {
    if s != "" && IsSpace(s[0]) {
      l := TrimmedLeft(s[1..]);
      assert s == ([s[0]] + l) + TrimLeft(s);
      l := [s[0]] + l;
    } else {
      l := "";
    }
  }

  lemma {:induction false} TrimmedRight(s: string) returns (r: string)
    ensures s == TrimRight(s) + r && AllSpace(r)
    ensures TrimRight(s) != "" ==> !IsSpace(TrimRight(s)[|TrimRight(s)| - 1])
  {
    if s != "" && IsSpace(s[|s| - 1]) {
      var init, c := s[..|s| - 1], s[|s| - 1];
      r := TrimmedRight(init);
      Associate(TrimRight(init), r, [c]);
      assert s == init + [c];
      r := r + [c];
    } else {
      r := "";
    }
  }

  /** `strings.TrimSpace` takes white space away at both ends, all of it and nothing else. */
  lemma TrimSpaceExactly(s: string)
    ensures exists l: string, r: string :: s == l + TrimSpace(s) + r && AllSpace(l) && AllSpace(r)
    ensures TrimSpace(s) != "" ==> !IsSpace(TrimSpace(s)[0]) && !IsSpace(TrimSpace(s)[|TrimSpace(s)| - 1])
  {
    hide AllSpace, IsSpace, TrimLeft, TrimRight;
    var l := TrimmedLeft(s);
    var m := TrimLeft(s);
    var r := TrimmedRight(m);
    TrimRightPrefix(m);
    assert TrimSpace(s) == TrimRight(m);
    Associate(l, TrimRight(m), r);
  }
}
