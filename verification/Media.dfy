/** Media URLs in a reply: found by a regular expression, cut out of the text, and sent
    on as attachments. */
module Media {
  import opened Text

  // --------------------------------------------------------------- matching

  /** A character that the class `[^\s<>"']` excludes; `\s` is ASCII white space. */
  predicate Delim(c: char) {
    c in {'\t', '\n', '\U{0C}', '\r', ' ', '<', '>', '"', '\''}
  }

  function SchemeLen(s: string): nat {
    if "http://" <= s then 7 else if "https://" <= s then 8 else 0
  }

  function BodyLen(s: string): (n: nat)
    ensures n <= |s|
  {
    if s == "" || Delim(s[0]) then 0 else 1 + BodyLen(s[1..])
  }

  /** Length of the match of `https?://[^\s<>"']+` at the head of `s`, 0 if none. */
  function MatchLen(s: string): (n: nat)
    ensures n <= |s|
  {
    if SchemeLen(s) > 0 && BodyLen(s) > SchemeLen(s) then BodyLen(s) else 0
  }

  /** The text as matches and the characters between them. */
  datatype Piece = Plain(c: char) | Url(text: string)

  /** Leftmost matches, one after the other, as `FindAllString` takes them. */
  function Lex(s: string): seq<Piece>
    decreases |s|
  {
    if s == "" then []
    else if MatchLen(s) > 0 then [Url(s[..MatchLen(s)])] + Lex(s[MatchLen(s)..])
    else [Plain(s[0])] + Lex(s[1..])
  }

  function TextOf(p: Piece): string {
    match p case Plain(c) => [c] case Url(text) => text
  }

  function Flat(ps: seq<Piece>): string {
    if ps == [] then "" else TextOf(ps[0]) + Flat(ps[1..])
  }

  /** The texts of the matches, in order. */
  function Urls(ps: seq<Piece>): seq<string> {
    if ps == [] then [] else (if ps[0].Url? then [ps[0].text] else []) + Urls(ps[1..])
  }

  // --------------------------------------------------------------- file types

  /** Trailing punctuation is not part of the URL. */
  function StripPunct(s: string): string {
    if s != "" && s[|s| - 1] in {')', ']', '.', ',', '!', '?', ';', ':'} then StripPunct(s[..|s| - 1]) else s
  }

  function BeforeQuery(s: string): string {
    if s == "" || s[0] == '?' || s[0] == '#' then "" else [s[0]] + BeforeQuery(s[1..])
  }

  /** What follows the last `c`, if there is one. */
  function AfterLast(s: string, c: char): (r: string)
    ensures |r| <= |s|
  {
    if s == "" || s[|s| - 1] == c then "" else AfterLast(s[..|s| - 1], c) + [s[|s| - 1]]
  }

  /** `unicode.ToLower`, as far as it can produce an ASCII letter. */
  function LowerRune(c: char): char {
    if 'A' <= c <= 'Z' then 'a' + (c - 'A')
    else if c == '\U{0130}' then 'i'
    else if c == '\U{212A}' then 'k'
    else c
  }

  function Lower(s: string): string {
    seq(|s|, i requires 0 <= i < |s| => LowerRune(s[i]))
  }

  function ExtensionType(ext: string): string {
    if ext in {"jpg", "jpeg", "png", "gif", "bmp", "webp", "svg", "tiff"} then "image"
    else if ext in {"mp3", "wav", "ogg", "m4a", "aac", "flac"} then "audio"
    else if ext in {"mp4", "avi", "mov", "wmv", "flv", "mkv", "webm"} then "video"
    else if ext in {"pdf", "doc", "docx", "xls", "xlsx", "ppt", "pptx", "txt", "rtf", "odt"} then "file"
    else ""
  }

  /** `mediaFileType`: by the extension of the last path segment; "" if not media. */
  function MediaFileType(url: string): string {
    var seg := AfterLast(BeforeQuery(url), '/');
    if '.' in seg then ExtensionType(Lower(AfterLast(seg, '.'))) else ""
  }

  predicate IsMedia(raw: string) {
    MediaFileType(StripPunct(raw)) != ""
  }

  predicate MediaPiece(p: Piece) {
    p.Url? && IsMedia(p.text)
  }

  // --------------------------------------------------------------- extraction

  datatype PostbackAttachment = PostbackAttachment(url: string, fileType: string)

  function MediaUrls(urls: seq<string>): seq<string> {
    if urls == [] then [] else (if IsMedia(urls[0]) then [urls[0]] else []) + MediaUrls(urls[1..])
  }

  function Attachments(urls: seq<string>): seq<PostbackAttachment> {
    if urls == [] then []
    else
      var url := StripPunct(urls[0]);
      (if IsMedia(urls[0]) then [PostbackAttachment(url, MediaFileType(url))] else []) + Attachments(urls[1..])
  }

  /** `strings.Replace(t, u, "", 1)`. */
  function ReplaceFirst(t: string, u: string): string {
    if u <= t then t[|u|..] else if t == "" then "" else [t[0]] + ReplaceFirst(t[1..], u)
  }

  function ReplaceEach(t: string, us: seq<string>): string
    decreases |us|
  {
    if us == [] then t else ReplaceEach(ReplaceFirst(t, us[0]), us[1..])
  }

  /** The pieces that stay when exactly the media matches are cut out. */
  function Cut(ps: seq<Piece>): seq<Piece> {
    if ps == [] then [] else (if MediaPiece(ps[0]) then [] else [ps[0]]) + Cut(ps[1..])
  }

  function Residual(content: string): string {
    TrimSpace(ReplaceEach(content, MediaUrls(Urls(Lex(content)))))
  }

  lemma {:induction false} MediaUrlsLast(xs: seq<string>, y: string)
    ensures MediaUrls(xs + [y]) == MediaUrls(xs) + if IsMedia(y) then [y] else []
  {
    hide IsMedia;
    if xs == [] {
      assert xs + [y] == [y];
    } else {
      MediaUrlsLast(xs[1..], y);
      assert (xs + [y])[1..] == xs[1..] + [y];
    }
  }

  lemma {:induction false} AttachmentsLast(xs: seq<string>, y: string)
    ensures Attachments(xs + [y]) ==
            Attachments(xs) +
            if IsMedia(y) then [PostbackAttachment(StripPunct(y), MediaFileType(StripPunct(y)))] else []
  {
    hide IsMedia;
    hide MediaFileType;
    if xs == [] {
      assert xs + [y] == [y];
    } else {
      AttachmentsLast(xs[1..], y);
      assert (xs + [y])[1..] == xs[1..] + [y];
    }
  }

  lemma {:induction false} ReplaceEachLast(t: string, us: seq<string>, u: string)
    ensures ReplaceEach(t, us + [u]) == ReplaceFirst(ReplaceEach(t, us), u)
    decreases |us|
  {
    if us == [] {
      assert us + [u] == [u];
    } else {
      ReplaceEachLast(ReplaceFirst(t, us[0]), us[1..], u);
      assert (us + [u])[1..] == us[1..] + [u];
    }
  }

  /** The loop over the matches. */
  method ExtractMediaURLs(content: string) returns (residual: string, atts: seq<PostbackAttachment>)
    ensures residual == Residual(content)
    ensures atts == Attachments(Urls(Lex(content)))
  {
    hide MediaFileType;
    residual := content;
    atts := [];
    var urls := Urls(Lex(content));
    var i := 0;
    while i < |urls|
      invariant 0 <= i <= |urls|
      invariant residual == ReplaceEach(content, MediaUrls(urls[..i]))
      invariant atts == Attachments(urls[..i])
    {
      MediaUrlsLast(urls[..i], urls[i]);
      AttachmentsLast(urls[..i], urls[i]);
      assert urls[..i] + [urls[i]] == urls[..i + 1];
      var url := StripPunct(urls[i]);
      var fileType := MediaFileType(url);
      if fileType != "" {
        ReplaceEachLast(content, MediaUrls(urls[..i]), urls[i]);
        atts := atts + [PostbackAttachment(url, fileType)];
        residual := ReplaceFirst(residual, urls[i]);
      } else {
        assert MediaUrls(urls[..i]) + [] == MediaUrls(urls[..i]);
        assert Attachments(urls[..i]) + [] == Attachments(urls[..i]);
      }
      i := i + 1;
    }
    assert urls[..i] == urls;
    residual := TrimSpace(residual);
  }

  // ------------------------------------------------------- how lexing behaves

  /** The pieces are what lexing their own text gives. */
  predicate Lexed(ps: seq<Piece>) {
    ps == [] ||
    (Lexed(ps[1..]) &&
     match ps[0]
     case Plain(c) => MatchLen(Flat(ps)) == 0
     case Url(text) => text != "" && MatchLen(Flat(ps)) == |text|)
  }

  lemma {:induction false} LexIsLexed(s: string)
    ensures Flat(Lex(s)) == s && Lexed(Lex(s))
    decreases |s|
  {
    hide MatchLen;
    if s != "" {
      var n := if MatchLen(s) > 0 then MatchLen(s) else 1;
      var p := if MatchLen(s) > 0 then Url(s[..n]) else Plain(s[0]);
      LexIsLexed(s[n..]);
      assert TextOf(p) == s[..n];
      assert s == TextOf(p) + s[n..];
      var ps := [p] + Lex(s[n..]);
      assert Lex(s) == ps && ps[1..] == Lex(s[n..]);
      assert Flat(ps) == s;
    }
  }

  lemma {:induction false} LexedIsLex(ps: seq<Piece>)
    requires Lexed(ps)
    ensures Lex(Flat(ps)) == ps
  {
    if ps != [] {
      LexedIsLex(ps[1..]);
      hide MatchLen;
      var s, head := Flat(ps), TextOf(ps[0]);
      assert s == head + Flat(ps[1..]);
      assert s[|head|..] == Flat(ps[1..]) && s[..|head|] == head;
      assert ps == [ps[0]] + ps[1..];
    }
  }

  predicate NoDelim(s: string) {
    forall i :: 0 <= i < |s| ==> !Delim(s[i])
  }

  predicate EndsWord(s: string) {
    s == "" || Delim(s[0])
  }

  lemma {:induction false} BodyLenSpec(s: string)
    ensures NoDelim(s[..BodyLen(s)]) && EndsWord(s[BodyLen(s)..])
  {
    if s != "" && !Delim(s[0]) {
      BodyLenSpec(s[1..]);
      assert s[..BodyLen(s)] == [s[0]] + s[1..][..BodyLen(s[1..])];
      assert s[BodyLen(s)..] == s[1..][BodyLen(s[1..])..];
    }
  }

  lemma {:induction false} BodyLenOf(a: string, b: string)
    requires NoDelim(a)
    ensures BodyLen(a + b) == |a| + BodyLen(b)
  {
    if a == "" {
      assert a + b == b;
    } else {
      BodyLenOf(a[1..], b);
      assert (a + b)[1..] == a[1..] + b;
    }
  }

  /** A whole match. */
  predicate IsUrl(u: string) {
    u != "" && MatchLen(u) == |u|
  }

  lemma UrlHasNoDelim(u: string)
    requires IsUrl(u)
    ensures NoDelim(u) && SchemeLen(u) > 0 && |u| > SchemeLen(u) && u[0] == 'h'
  {
    BodyLenSpec(u);
    assert u[..|u|] == u;
  }

  /** The head of a lexed list that starts with a match. */
  lemma HeadUrl(ps: seq<Piece>)
    requires ps != [] && Lexed(ps) && ps[0].Url?
    ensures IsUrl(ps[0].text) && EndsWord(Flat(ps[1..]))
  {
    HeadUrlText(ps[0].text, Flat(ps[1..]));
  }

  /** A scheme that fits into the prefix is the prefix's own. */
  lemma SchemeOfPrefix(a: string, t: string)
    ensures SchemeLen(a) > 0 ==> SchemeLen(a + t) == SchemeLen(a)
    ensures SchemeLen(a + t) > 0 && |a| >= SchemeLen(a + t) ==> SchemeLen(a) == SchemeLen(a + t)
  {
    var s := a + t;
    assert |a| >= 7 ==> s[..7] == a[..7];
    assert |a| >= 8 ==> s[..8] == a[..8];
  }

  /** Text after a word end cannot make the head match. */
  lemma MatchNeedsOnlyWord(a: string, b: string, u: string)
    requires EndsWord(b) && MatchLen(a + b) > 0
    ensures MatchLen(a + u + b) > 0
  {
    BodyLenSpec(a + b);
    var n := BodyLen(a + b);
    assert forall i :: 0 <= i < n ==> (a + b)[i] == (a + b)[..n][i];
    assert b != "" ==> Delim((a + b)[|a|]);
    var head := a[..n];
    assert (a + b)[..n] == head;
    assert a + b == head + (a[n..] + b);
    assert a + u + b == head + (a[n..] + u + b);
    SchemeOfPrefix(head, a[n..] + b);
    SchemeOfPrefix(head, a[n..] + u + b);
    BodyLenOf(head, a[n..] + u + b);
  }

  // ------------------------------------------------- cutting keeps the lexing

  function Drop(ps: seq<Piece>, k: nat): seq<Piece>
    requires k < |ps|
  {
    ps[..k] + ps[k + 1..]
  }

  lemma FlatHead(ps: seq<Piece>)
    ensures Flat(ps) == if ps == [] then "" else TextOf(ps[0]) + Flat(ps[1..])
  {
    hide TextOf;
  }

  lemma {:induction false} FlatConcat(ps: seq<Piece>, qs: seq<Piece>)
    ensures Flat(ps + qs) == Flat(ps) + Flat(qs)
  {
    hide TextOf, Flat;
    FlatHead(ps);
    FlatHead(ps + qs);
    if ps == [] {
      assert ps + qs == qs;
    } else {
      FlatConcat(ps[1..], qs);
      assert (ps + qs)[0] == ps[0] && (ps + qs)[1..] == ps[1..] + qs;
      assert TextOf(ps[0]) + (Flat(ps[1..]) + Flat(qs)) == (TextOf(ps[0]) + Flat(ps[1..])) + Flat(qs);
    }
  }

  lemma {:induction false} LexedTail(ps: seq<Piece>, k: nat)
    requires Lexed(ps) && k <= |ps|
    ensures Lexed(ps[k..])
  {
    if k > 0 {
      LexedTail(ps[1..], k - 1);
      assert ps[1..][k - 1..] == ps[k..];
    } else {
      assert ps[0..] == ps;
    }
  }

  lemma FlatAround(ps: seq<Piece>, k: nat)
    requires k < |ps|
    ensures Flat(ps) == Flat(ps[..k]) + TextOf(ps[k]) + Flat(ps[k + 1..])
    ensures Flat(Drop(ps, k)) == Flat(ps[..k]) + Flat(ps[k + 1..])
  {
    hide TextOf, Flat;
    FlatConcat(ps[..k], ps[k..]);
    FlatConcat(ps[..k], ps[k + 1..]);
    assert ps == ps[..k] + ps[k..];
    FlatHead(ps[k..]);
    assert ps[k..][1..] == ps[k + 1..];
  }

  lemma UrlAt(ps: seq<Piece>, k: nat)
    requires Lexed(ps) && k < |ps| && ps[k].Url?
    ensures IsUrl(ps[k].text) && EndsWord(Flat(ps[k + 1..]))
  {
    LexedTail(ps, k);
    assert ps[k..][1..] == ps[k + 1..];
    HeadUrl(ps[k..]);
  }

  lemma LexedCons(p: Piece, rest: seq<Piece>)
    requires Lexed(rest)
    requires p.Plain? ==> MatchLen([p.c] + Flat(rest)) == 0
    requires p.Url? ==> p.text != "" && MatchLen(p.text + Flat(rest)) == |p.text|
    ensures Lexed([p] + rest)
  {
    hide MatchLen;
    assert ([p] + rest)[1..] == rest;
  }

  lemma LexedHead(ps: seq<Piece>)
    requires ps != [] && Lexed(ps)
    ensures ps[0].Plain? ==> MatchLen([ps[0].c] + Flat(ps[1..])) == 0
    ensures ps[0].Url? ==> ps[0].text != "" && MatchLen(ps[0].text + Flat(ps[1..])) == |ps[0].text|
  {
    hide MatchLen;
  }

  /** Dropping a match leaves every other piece as it was. */
  lemma {:induction false} DropKeepsLexed(ps: seq<Piece>, k: nat)
    requires Lexed(ps) && k < |ps| && ps[k].Url?
    ensures Lexed(Drop(ps, k))
  {
    hide Lexed, IsUrl, EndsWord, MatchLen, Flat;
    LexedTail(ps, 1);
    if k == 0 {
      assert Drop(ps, 0) == ps[1..];
    } else {
      var rest := ps[1..];
      DropKeepsLexed(rest, k - 1);
      assert Drop(ps, k) == [ps[0]] + Drop(rest, k - 1);
      FlatAround(rest, k - 1);
      UrlAt(rest, k - 1);
      LexedHead(ps);
      DropKeepsHead(ps[0], Flat(rest[..k - 1]), rest[k - 1].text, Flat(rest[k..]));
      LexedCons(ps[0], Drop(rest, k - 1));
    }
  }

  lemma DropKeepsHead(p: Piece, a: string, u: string, b: string)
    requires IsUrl(u) && EndsWord(b)
    requires p.Plain? ==> MatchLen([p.c] + (a + u + b)) == 0
    requires p.Url? ==> p.text != "" && MatchLen(p.text + (a + u + b)) == |p.text|
    ensures p.Plain? ==> MatchLen([p.c] + (a + b)) == 0
    ensures p.Url? ==> MatchLen(p.text + (a + b)) == |p.text|
  {
    if p.Plain? {
      DropKeepsPlain(p.c, a, u, b);
    } else {
      DropKeepsUrl(p.text, a, u, b);
    }
  }

  lemma DropKeepsPlain(c: char, a: string, u: string, b: string)
    requires EndsWord(b) && MatchLen([c] + (a + u + b)) == 0
    ensures MatchLen([c] + (a + b)) == 0
  {
    hide MatchLen;
    assert [c] + (a + b) == ([c] + a) + b;
    assert ([c] + a) + u + b == [c] + (a + u + b);
    if MatchLen([c] + (a + b)) > 0 {
      MatchNeedsOnlyWord([c] + a, b, u);
    }
  }

  lemma DropKeepsUrl(w: string, a: string, u: string, b: string)
    requires IsUrl(u) && EndsWord(b)
    requires w != "" && MatchLen(w + (a + u + b)) == |w|
    ensures MatchLen(w + (a + b)) == |w|
  {
    UrlHasNoDelim(u);
    FirstRune(a, u, b);
    HeadUrlText(w, a + u + b);
    UrlThen(w, a + b);
  }

  lemma FirstRune(a: string, u: string, b: string)
    requires u != ""
    ensures a + u + b != "" && (a + u + b)[0] == if a == "" then u[0] else a[0]
    ensures a != "" ==> (a + b)[0] == a[0]
  {
  }

  /** A whole match followed by a word end is matched as it stands. */
  lemma UrlThen(w: string, t: string)
    requires IsUrl(w) && EndsWord(t)
    ensures MatchLen(w + t) == |w|
  {
    UrlHasNoDelim(w);
    BodyLenOf(w, t);
    SchemeOfPrefix(w, t);
  }

  lemma HeadUrlText(w: string, t: string)
    requires w != "" && MatchLen(w + t) == |w|
    ensures IsUrl(w) && EndsWord(t)
  {
    BodyLenSpec(w + t);
    assert (w + t)[..|w|] == w && (w + t)[|w|..] == t;
    BodyLenOf(w, "");
    assert w + "" == w;
    SchemeOfPrefix(w, t);
  }

  // -------------------------------------- replacing first occurrences and cutting

  predicate Occurs(u: string, w: string) {
    exists o :: 0 <= o <= |w| && u <= w[o..]
  }

  /** No media URL's text occurs inside an earlier match that is not media. */
  ghost predicate NoShadow(ps: seq<Piece>) {
    forall i, j :: 0 <= i < j < |ps| && ps[i].Url? && !MediaPiece(ps[i]) && MediaPiece(ps[j]) ==>
      !Occurs(ps[j].text, ps[i].text)
  }

  lemma {:induction false} SkipWord(w: string, t: string, u: string)
    requires NoDelim(u) && EndsWord(t) && u != "" && !Occurs(u, w)
    ensures ReplaceFirst(w + t, u) == w + ReplaceFirst(t, u)
  {
    if w == "" {
      assert w + t == t;
    } else {
      assert w[0..] == w;
      assert (w + t)[1..] == w[1..] + t;
      OccursLater(u, w);
      SkipWord(w[1..], t, u);
      if u <= w + t {
        WithinWord(w, t, u);
      }
    }
  }

  lemma OccursLater(u: string, w: string)
    requires w != ""
    ensures Occurs(u, w[1..]) ==> Occurs(u, w)
  {
    if Occurs(u, w[1..]) {
      var o :| 0 <= o <= |w[1..]| && u <= w[1..][o..];
      assert w[1..][o..] == w[o + 1..];
    }
  }

  /** A text without delimiters that begins in a word ends in it. */
  lemma WithinWord(w: string, t: string, u: string)
    requires NoDelim(u) && EndsWord(t) && u <= w + t
    ensures u <= w
  {
    assert forall i :: 0 <= i < |u| ==> u[i] == (w + t)[i];
    assert t != "" ==> Delim((w + t)[|w|]);
    assert |u| <= |w|;
  }

  /** A URL at the head of a text is matched there. */
  lemma UrlMatches(u: string, t: string)
    requires IsUrl(u) && u <= t
    ensures MatchLen(t) > 0
  {
    UrlHasNoDelim(u);
    assert t == u + t[|u|..];
    BodyLenOf(u, t[|u|..]);
    SchemeOfPrefix(u, t[|u|..]);
  }

  /** The first occurrence of a URL is the first match that contains it, so replacing it
      drops the match when no earlier match contains it. */
  lemma {:induction false} ReplaceDrops(ps: seq<Piece>, k: nat)
    requires Lexed(ps) && k < |ps| && ps[k].Url?
    requires forall i :: 0 <= i < k && ps[i].Url? ==> !Occurs(ps[k].text, ps[i].text)
    ensures ReplaceFirst(Flat(ps), ps[k].text) == Flat(Drop(ps, k))
  {
    hide Lexed, IsUrl, EndsWord, Occurs, ReplaceFirst, TextOf;
    var u := ps[k].text;
    UrlAt(ps, k);
    if k == 0 {
      assert Drop(ps, 0) == ps[1..];
      ReplaceHead(ps);
    } else {
      LexedTail(ps, 1);
      ReplaceDrops(ps[1..], k - 1);
      assert Drop(ps, k) == [ps[0]] + Drop(ps[1..], k - 1);
      SkipHead(ps, u);
    }
  }

  lemma ReplaceHead(ps: seq<Piece>)
    requires ps != [] && ps[0].Url?
    ensures ReplaceFirst(Flat(ps), ps[0].text) == Flat(ps[1..])
  {
    assert Flat(ps)[|ps[0].text|..] == Flat(ps[1..]);
  }

  /** A head that does not contain the URL is skipped whole. */
  lemma SkipHead(ps: seq<Piece>, u: string)
    requires ps != [] && Lexed(ps) && IsUrl(u) && (ps[0].Url? ==> !Occurs(u, ps[0].text))
    ensures ReplaceFirst(Flat(ps), u) == TextOf(ps[0]) + ReplaceFirst(Flat(ps[1..]), u)
  {
    hide MatchLen, Occurs;
    UrlHasNoDelim(u);
    if ps[0].Url? {
      HeadUrl(ps);
      SkipWord(ps[0].text, Flat(ps[1..]), u);
    } else if u <= Flat(ps) {
      UrlMatches(u, Flat(ps));
    }
  }

  predicate NoMedia(ps: seq<Piece>) {
    forall i :: 0 <= i < |ps| ==> !MediaPiece(ps[i])
  }

  lemma {:induction false} CutIsClean(ps: seq<Piece>)
    ensures NoMedia(Cut(ps))
  {
    hide MediaPiece;
    if ps != [] {
      CutIsClean(ps[1..]);
    }
  }

  lemma DropKeepsNoShadow(ps: seq<Piece>, k: nat)
    requires NoShadow(ps) && k < |ps|
    ensures NoShadow(Drop(ps, k))
  {
    hide IsMedia, Occurs;
    var qs := Drop(ps, k);
    forall i, j | 0 <= i < j < |qs| && qs[i].Url? && !MediaPiece(qs[i]) && MediaPiece(qs[j])
      ensures !Occurs(qs[j].text, qs[i].text)
    {
      assert qs[i] == ps[if i < k then i else i + 1];
      assert qs[j] == ps[if j < k then j else j + 1];
    }
  }

  /** The next match is media: replacing it drops it. */
  lemma DropNext(kept: seq<Piece>, rest: seq<Piece>)
    requires Lexed(kept + rest) && NoMedia(kept) && NoShadow(kept + rest)
    requires rest != [] && MediaPiece(rest[0])
    ensures ReplaceFirst(Flat(kept + rest), rest[0].text) == Flat(kept + rest[1..])
    ensures Lexed(kept + rest[1..]) && NoShadow(kept + rest[1..])
  {
    hide IsMedia, Occurs;
    var ps, k := kept + rest, |kept|;
    assert Drop(ps, k) == kept + rest[1..];
    forall i | 0 <= i < k && ps[i].Url? ensures !Occurs(ps[k].text, ps[i].text) {
      assert !MediaPiece(kept[i]);
    }
    ReplaceDrops(ps, k);
    DropKeepsLexed(ps, k);
    DropKeepsNoShadow(ps, k);
  }

  /** `kept` has been passed, `rest` is still to come. */
  lemma {:induction false} CutOff(kept: seq<Piece>, rest: seq<Piece>)
    requires Lexed(kept + rest) && NoMedia(kept) && NoShadow(kept + rest)
    ensures ReplaceEach(Flat(kept + rest), MediaUrls(Urls(rest))) == Flat(kept + Cut(rest))
    decreases |rest|
  {
    hide MediaPiece, IsMedia, Occurs, Lexed, NoShadow;
    if rest == [] {
      assert kept + rest == kept && kept + Cut(rest) == kept;
    } else if MediaPiece(rest[0]) {
      PassMedia(Flat(kept + rest), rest);
      DropNext(kept, rest);
      CutOff(kept, rest[1..]);
    } else {
      PassPlain(kept, rest);
      CutOff(kept + [rest[0]], rest[1..]);
    }
  }

  lemma MediaUrlsHead(ps: seq<Piece>)
    requires ps != []
    ensures MediaUrls(Urls(ps)) ==
            (if MediaPiece(ps[0]) then [ps[0].text] else []) + MediaUrls(Urls(ps[1..]))
    ensures MediaPiece(ps[0]) ==> ps[0].Url?
  {
    hide IsMedia;
    var us := Urls(ps[1..]);
    if ps[0].Url? {
      assert Urls(ps)[1..] == us;
    } else {
      assert Urls(ps) == us;
    }
  }

  // -------------------------------------------- and only then: the converse

  /** Characters other than delimiters before the `j`-th delimiter. */
  function Lead(t: string, j: nat): nat {
    if t == "" then 0
    else if Delim(t[0]) then (if j <= 1 then 0 else Lead(t[1..], j - 1))
    else 1 + Lead(t[1..], j)
  }

  function Delims(t: string): nat {
    if t == "" then 0 else (if Delim(t[0]) then 1 else 0) + Delims(t[1..])
  }

  lemma {:induction false} LeadSkips(u: string, t: string, j: nat)
    requires NoDelim(u)
    ensures Lead(u + t, j) == |u| + Lead(t, j)
  {
    if u == "" {
      assert u + t == t;
    } else {
      LeadSkips(u[1..], t, j);
      assert (u + t)[1..] == u[1..] + t;
    }
  }

  lemma {:induction false} LeadNeverGrows(t: string, u: string, j: nat)
    requires NoDelim(u)
    ensures Lead(ReplaceFirst(t, u), j) <= Lead(t, j)
    decreases |t|
  {
    if u <= t {
      assert t == u + t[|u|..];
      LeadSkips(u, t[|u|..], j);
    } else if t != "" {
      LeadNeverGrows(t[1..], u, if Delim(t[0]) && j > 1 then j - 1 else j);
    }
  }

  lemma {:induction false} LeadUpTo(a: string, b: string)
    requires b != "" && Delim(b[0])
    ensures Lead(a + b, Delims(a) + 1) == |a| - Delims(a) && Delims(a) <= |a|
  {
    if a == "" {
      assert a + b == b;
    } else {
      LeadUpTo(a[1..], b);
      assert (a + b)[1..] == a[1..] + b;
    }
  }

  lemma OccursFits(u: string, a: string)
    requires Occurs(u, a)
    ensures |u| <= |a|
    ensures u <= a || (a != "" && Occurs(u, a[1..]))
  {
    var o :| 0 <= o <= |a| && u <= a[o..];
    if o == 0 {
      assert a[0..] == a;
    } else {
      assert a[o..] == a[1..][o - 1..];
    }
  }

  lemma PrefixOfSum(u: string, a: string, b: string)
    requires |u| <= |a|
    ensures u <= a + b <==> u <= a
    ensures u <= a ==> (a + b)[|u|..] == a[|u|..] + b && a == u + a[|u|..]
  {
    assert (a + b)[..|u|] == a[..|u|];
  }

  lemma ReplaceUnfolds(t: string, u: string)
    ensures u <= t ==> ReplaceFirst(t, u) == t[|u|..]
    ensures !(u <= t) && t != "" ==> ReplaceFirst(t, u) == [t[0]] + ReplaceFirst(t[1..], u)
  {
  }

  lemma {:induction false} ReplaceInside(a: string, b: string, u: string)
    requires NoDelim(u) && Occurs(u, a)
    ensures ReplaceFirst(a + b, u) == ReplaceFirst(a, u) + b
    ensures |ReplaceFirst(a, u)| == |a| - |u| && Delims(ReplaceFirst(a, u)) == Delims(a)
    decreases |a|
  {
    hide Occurs, ReplaceFirst, NoDelim, Delims;
    OccursFits(u, a);
    PrefixOfSum(u, a, b);
    ReplaceUnfolds(a, u);
    ReplaceUnfolds(a + b, u);
    if u <= a {
      DelimsSkip(u, a[|u|..]);
    } else {
      ReplaceInside(a[1..], b, u);
      assert (a + b)[0] == a[0] && (a + b)[1..] == a[1..] + b;
      assert [a[0]] + (ReplaceFirst(a[1..], u) + b) == ([a[0]] + ReplaceFirst(a[1..], u)) + b;
      DelimsCons(a[0], ReplaceFirst(a[1..], u));
      DelimsCons(a[0], a[1..]);
      assert a == [a[0]] + a[1..];
    }
  }

  lemma DelimsCons(c: char, t: string)
    ensures Delims([c] + t) == (if Delim(c) then 1 else 0) + Delims(t)
  {
    assert ([c] + t)[1..] == t;
  }

  lemma {:induction false} DelimsSkip(u: string, t: string)
    requires NoDelim(u)
    ensures Delims(u + t) == Delims(t)
  {
    if u == "" {
      assert u + t == t;
    } else {
      DelimsSkip(u[1..], t);
      assert (u + t)[1..] == u[1..] + t;
    }
  }

  lemma {:induction false} LeadStaysDown(t: string, us: seq<string>, j: nat)
    requires forall i :: 0 <= i < |us| ==> NoDelim(us[i])
    ensures Lead(ReplaceEach(t, us), j) <= Lead(t, j)
    decreases |us|
  {
    if us != [] {
      LeadNeverGrows(t, us[0], j);
      LeadStaysDown(ReplaceFirst(t, us[0]), us[1..], j);
    }
  }

  lemma LeadShrinks(a: string, b: string, c: string, u: string)
    requires NoDelim(u) && u != "" && Occurs(u, a)
    requires b != "" && Delim(b[0]) && c != "" && Delim(c[0])
    ensures Lead(ReplaceFirst(a + b, u), Delims(a) + 1) < Lead(a + c, Delims(a) + 1)
  {
    hide Occurs, ReplaceFirst, Lead, Delims;
    ReplaceInside(a, b, u);
    LeadUpTo(ReplaceFirst(a, u), b);
    LeadUpTo(a, c);
  }

  /** Replacing a URL that occurs in an earlier match damages that match for good. */
  lemma Damaged(a: string, b: string, c: string, u: string, us: seq<string>)
    requires NoDelim(u) && u != "" && Occurs(u, a) && (forall i :: 0 <= i < |us| ==> NoDelim(us[i]))
    requires b != "" && Delim(b[0]) && c != "" && Delim(c[0])
    ensures ReplaceEach(a + b, [u] + us) != a + c
  {
    hide Occurs, ReplaceFirst, Lead, Delims, NoDelim;
    LeadShrinks(a, b, c, u);
    LeadStaysDown(ReplaceFirst(a + b, u), us, Delims(a) + 1);
    assert ([u] + us)[1..] == us;
  }

  /** Some match passed already contains the URL. */
  ghost predicate Shadowed(kept: seq<Piece>, u: string) {
    exists i :: 0 <= i < |kept| && kept[i].Url? && Occurs(u, kept[i].text)
  }

  lemma UrlTextOf(ps: seq<Piece>, k: nat)
    requires Lexed(ps) && k < |ps|
    ensures TextOf(ps[k]) != ""
  {
    if ps[k].Url? {
      UrlAt(ps, k);
    }
  }

  lemma {:induction false} MediaUrlsNoDelim(ps: seq<Piece>)
    requires Lexed(ps)
    ensures forall i :: 0 <= i < |MediaUrls(Urls(ps))| ==> NoDelim(MediaUrls(Urls(ps))[i])
  {
    hide IsMedia, MatchLen;
    if ps != [] {
      MediaUrlsNoDelim(ps[1..]);
      MediaUrlsHead(ps);
      if ps[0].Url? {
        UrlAt(ps, 0);
        UrlHasNoDelim(ps[0].text);
      }
    }
  }

  /** The text after a match that is followed by a further match starts with a
      delimiter piece, which cutting keeps. */
  lemma GapAfter(kept: seq<Piece>, rest: seq<Piece>, i: nat)
    requires Lexed(kept + rest) && i < |kept| && kept[i].Url? && rest != [] && rest[0].Url?
    ensures var b, c := Flat(kept[i + 1..] + rest), Flat(kept[i + 1..] + Cut(rest));
            b != "" && Delim(b[0]) && c != "" && Delim(c[0])
  {
    hide MatchLen, IsMedia;
    var ps := kept + rest;
    assert ps[i] == kept[i];
    UrlAt(ps, i);
    assert ps[i + 1..] == kept[i + 1..] + rest;
    UrlAt(ps, |kept|);
    UrlHasNoDelim(rest[0].text);
    UrlTextOf(ps, i + 1);
    var tail := ps[i + 1..];
    assert Flat(tail)[0] == TextOf(tail[0])[0];
    assert kept[i + 1..] != [];
    var cut := kept[i + 1..] + Cut(rest);
    assert cut[0] == tail[0];
    assert Flat(cut)[0] == TextOf(cut[0])[0];
  }

  lemma SplitTexts(kept: seq<Piece>, rest: seq<Piece>, i: nat)
    requires i < |kept|
    ensures Flat(kept + rest) == Flat(kept[..i + 1]) + Flat(kept[i + 1..] + rest)
  {
    FlatConcat(kept[..i + 1], kept[i + 1..] + rest);
    assert kept + rest == kept[..i + 1] + (kept[i + 1..] + rest);
  }

  lemma ShadowDamages(kept: seq<Piece>, rest: seq<Piece>)
    requires Lexed(kept + rest) && rest != [] && MediaPiece(rest[0]) && Shadowed(kept, rest[0].text)
    ensures ReplaceEach(Flat(kept + rest), [rest[0].text] + MediaUrls(Urls(rest[1..]))) != Flat(kept + Cut(rest))
  {
    hide MatchLen, IsMedia, Occurs, Cut, Flat;
    var u := rest[0].text;
    var i :| 0 <= i < |kept| && kept[i].Url? && Occurs(u, kept[i].text);
    SplitTexts(kept, rest, i);
    SplitTexts(kept, Cut(rest), i);
    GapAfter(kept, rest, i);
    UrlAt(kept + rest, |kept|);
    UrlHasNoDelim(u);
    LexedTail(kept + rest, |kept| + 1);
    assert (kept + rest)[|kept| + 1..] == rest[1..];
    MediaUrlsNoDelim(rest[1..]);
    OccursInFlat(kept, i, u);
    Damaged(Flat(kept[..i + 1]), Flat(kept[i + 1..] + rest), Flat(kept[i + 1..] + Cut(rest)), u,
            MediaUrls(Urls(rest[1..])));
  }

  lemma OccursInFlat(kept: seq<Piece>, i: nat, u: string)
    requires i < |kept| && kept[i].Url? && Occurs(u, kept[i].text)
    ensures Occurs(u, Flat(kept[..i + 1]))
  {
    var w := kept[i].text;
    var o :| 0 <= o <= |w| && u <= w[o..];
    FlatConcat(kept[..i], [kept[i]]);
    assert kept[..i + 1] == kept[..i] + [kept[i]];
    var pre := Flat(kept[..i]);
    assert Flat([kept[i]]) == w + Flat([]) == w;
    assert Flat(kept[..i + 1]) == pre + w;
    assert (pre + w)[|pre| + o..] == w[o..];
  }

  /** Dropping an unshadowed media match leaves every shadow in place. */
  lemma ShadowPersists(kept: seq<Piece>, rest: seq<Piece>)
    requires rest != [] && MediaPiece(rest[0]) && !Shadowed(kept, rest[0].text)
    requires NoShadow(kept + rest[1..])
    ensures NoShadow(kept + rest)
  {
    hide IsMedia, Occurs;
    var ps, k, qs := kept + rest, |kept|, kept + rest[1..];
    forall i, j | 0 <= i < j < |ps| && ps[i].Url? && !MediaPiece(ps[i]) && MediaPiece(ps[j])
      ensures !Occurs(ps[j].text, ps[i].text)
    {
      if j == k {
        assert kept[i] == ps[i];
      } else {
        assert ps[i] == qs[if i < k then i else i - 1];
        assert ps[j] == qs[if j < k then j else j - 1];
      }
    }
  }

  lemma NoMediaNoShadow(kept: seq<Piece>)
    requires NoMedia(kept)
    ensures NoShadow(kept)
  {
    hide IsMedia, Occurs;
  }

  lemma PassPlain(kept: seq<Piece>, rest: seq<Piece>)
    requires rest != [] && !MediaPiece(rest[0])
    ensures kept + rest == (kept + [rest[0]]) + rest[1..]
    ensures kept + Cut(rest) == (kept + [rest[0]]) + Cut(rest[1..])
    ensures MediaUrls(Urls(rest)) == MediaUrls(Urls(rest[1..]))
  {
    hide *;
    MediaUrlsHead(rest);
    CutPlain(rest);
    assert rest == [rest[0]] + rest[1..];
    assert kept + ([rest[0]] + Cut(rest[1..])) == (kept + [rest[0]]) + Cut(rest[1..]);
  }

  lemma CutPlain(rest: seq<Piece>)
    requires rest != [] && !MediaPiece(rest[0])
    ensures Cut(rest) == [rest[0]] + Cut(rest[1..])
  {
    hide MediaPiece;
  }

  lemma PassMedia(t: string, rest: seq<Piece>)
    requires rest != [] && MediaPiece(rest[0])
    ensures rest[0].Url? && Cut(rest) == Cut(rest[1..])
    ensures MediaUrls(Urls(rest)) == [rest[0].text] + MediaUrls(Urls(rest[1..]))
    ensures ReplaceEach(t, MediaUrls(Urls(rest))) ==
            ReplaceEach(ReplaceFirst(t, rest[0].text), MediaUrls(Urls(rest[1..])))
  {
    hide IsMedia;
    MediaUrlsHead(rest);
    var us := MediaUrls(Urls(rest[1..]));
    assert ([rest[0].text] + us)[1..] == us;
  }

  /** If some media URL is shadowed, the replacements go wrong. */
  lemma {:induction false} CutOffFails(kept: seq<Piece>, rest: seq<Piece>)
    requires Lexed(kept + rest) && NoMedia(kept) && !NoShadow(kept + rest)
    ensures ReplaceEach(Flat(kept + rest), MediaUrls(Urls(rest))) != Flat(kept + Cut(rest))
    decreases |rest|
  {
    hide MediaPiece, IsMedia, Occurs, Lexed, NoShadow, Shadowed, Flat, Cut, Urls, ReplaceEach;
    NoMediaNoShadow(kept);
    assert rest == [] ==> kept + rest == kept;
    if !MediaPiece(rest[0]) {
      PassPlain(kept, rest);
      CutOffFails(kept + [rest[0]], rest[1..]);
    } else {
      PassMedia(Flat(kept + rest), rest);
      if Shadowed(kept, rest[0].text) {
        ShadowDamages(kept, rest);
      } else {
        DropUnshadowed(kept, rest);
        if NoShadow(kept + rest[1..]) {
          ShadowPersists(kept, rest);
        }
        CutOffFails(kept, rest[1..]);
      }
    }
  }

  lemma DropUnshadowed(kept: seq<Piece>, rest: seq<Piece>)
    requires Lexed(kept + rest) && rest != [] && MediaPiece(rest[0]) && !Shadowed(kept, rest[0].text)
    ensures ReplaceFirst(Flat(kept + rest), rest[0].text) == Flat(kept + rest[1..])
    ensures Lexed(kept + rest[1..])
  {
    hide IsMedia, Occurs;
    var ps, k := kept + rest, |kept|;
    assert Drop(ps, k) == kept + rest[1..];
    assert forall i :: 0 <= i < k ==> ps[i] == kept[i];
    ReplaceDrops(ps, k);
    DropKeepsLexed(ps, k);
  }

  /** The repeated first-occurrence replacement equals cutting exactly the media matches
      out of the text if and only if no media URL's text occurs inside an earlier match
      that is not media. */
  lemma ReplaceIsCut(content: string)
    ensures ReplaceEach(content, MediaUrls(Urls(Lex(content)))) == Flat(Cut(Lex(content)))
            <==> NoShadow(Lex(content))
  {
    hide MediaPiece, IsMedia, Occurs, Lexed, NoShadow;
    var ps := Lex(content);
    LexIsLexed(content);
    assert [] + ps == ps && [] + Cut(ps) == Cut(ps);
    if NoShadow(ps) {
      CutOff([], ps);
    } else {
      CutOffFails([], ps);
    }
  }

  // ------------------------------------------------------- extracting again

  /** The text is nothing but white space, of any kind. */
  predicate AllSpace(s: string) {
    forall i :: 0 <= i < |s| ==> IsSpace(s[i])
  }

  /** Lexing the text without its media matches finds the other pieces, and only them. */
  lemma {:induction false} CutLexed(kept: seq<Piece>, rest: seq<Piece>)
    requires Lexed(kept + rest)
    ensures Lexed(kept + Cut(rest))
    decreases |rest|
  {
    hide MediaPiece, Lexed;
    if rest == [] {
      assert kept + rest == kept + Cut(rest);
    } else if MediaPiece(rest[0]) {
      DropMediaLexed(kept, rest);
      CutLexed(kept, rest[1..]);
      assert Cut(rest) == Cut(rest[1..]);
    } else {
      PassPlain(kept, rest);
      CutLexed(kept + [rest[0]], rest[1..]);
    }
  }

  lemma DropMediaLexed(kept: seq<Piece>, rest: seq<Piece>)
    requires Lexed(kept + rest) && rest != [] && MediaPiece(rest[0])
    ensures Lexed(kept + rest[1..])
  {
    hide Lexed, IsMedia;
    assert Drop(kept + rest, |kept|) == kept + rest[1..];
    DropKeepsLexed(kept + rest, |kept|);
  }

  /** Cutting the media matches out never makes a new one: before the final trim,
      extracting again finds no media at all. */
  lemma CutHasNoMedia(content: string)
    ensures Lex(Flat(Cut(Lex(content)))) == Cut(Lex(content)) && NoMedia(Cut(Lex(content)))
  {
    var ps := Lex(content);
    LexIsLexed(content);
    assert [] + ps == ps && [] + Cut(ps) == Cut(ps);
    CutLexed([], ps);
    LexedIsLex(Cut(ps));
    CutIsClean(ps);
  }

  /** Some match is followed by nothing but white space, and is media once the white
      space at its own end is gone. */
  ghost predicate Resurfaces(ps: seq<Piece>) {
    exists k :: 0 <= k < |ps| && ResurfacesAt(ps, k)
  }

  ghost predicate ResurfacesAt(ps: seq<Piece>, k: nat)
    requires k < |ps|
  {
    ps[k].Url? && AllSpace(Flat(ps[k + 1..])) && IsMedia(TrimRight(ps[k].text))
  }
}
