/** Delivery of a reply: the interruptible send loop over the text parts, and one media
    postback behind them. */
module Dispatch {
  import opened Model
  import opened Sequences
  import opened Text
  import opened Segmentation
  import Media

  datatype Postback = Postback(content: string, attachments: seq<Media.PostbackAttachment>)

  /** What happens during one dispatch, in order. A postback that reached the endpoint
      is acknowledged when the sender reads a 2xx status. */
  datatype Happening = Cancelled | Delivered(postback: Postback, acked: bool)

  datatype Outcome = Sent | Interrupted | SendFailed

  // ------------------------------------------------------------------ the plan

  function Signed(parts: seq<string>, signature: string): seq<string> {
    if parts == [] then [] else [signature + parts[0]] + parts[1..]
  }

  function PartPost(part: string): seq<Postback> {
    if part == "" then [] else [Postback(part, [])]
  }

  function TextPosts(parts: seq<string>): seq<Postback> {
    if parts == [] then [] else PartPost(parts[0]) + TextPosts(parts[1..])
  }

  function MediaPost(atts: seq<Media.PostbackAttachment>): seq<Postback> {
    if atts == [] then [] else [Postback("", atts)]
  }

  function SignedParts(content: string, cfg: BotConfig): seq<string> {
    Signed(Segments(Media.Residual(content), cfg), cfg.messageSignature)
  }

  /** The postbacks of a complete reply: the signed non-empty text parts, then one media
      postback if there is media. */
  function Plan(content: string, cfg: BotConfig): seq<Postback> {
    TextPosts(SignedParts(content, cfg)) + MediaPost(Media.Attachments(Media.Urls(Media.Lex(content))))
  }

  function Texts(posts: seq<Postback>): seq<string> {
    seq(|posts|, i requires 0 <= i < |posts| => posts[i].content)
  }

  // ------------------------------------------------------------- reading a log

  function Delivery(h: Happening): seq<Postback> {
    if h.Delivered? then [h.postback] else []
  }

  function Acknowledgement(h: Happening): seq<Postback> {
    if h.Delivered? && h.acked then [h.postback] else []
  }

  function Deliveries(log: seq<Happening>): seq<Postback> {
    if log == [] then [] else Delivery(log[0]) + Deliveries(log[1..])
  }

  function Acknowledged(log: seq<Happening>): seq<Postback> {
    if log == [] then [] else Acknowledgement(log[0]) + Acknowledged(log[1..])
  }

  /** What was delivered once the context had been cancelled. */
  function AfterCancel(log: seq<Happening>): seq<Postback> {
    if log == [] then [] else if log[0].Cancelled? then Deliveries(log[1..]) else AfterCancel(log[1..])
  }

  lemma {:induction false} DeliveriesConcat(a: seq<Happening>, b: seq<Happening>)
    ensures Deliveries(a + b) == Deliveries(a) + Deliveries(b)
  {
    hide Delivery;
    if a == [] {
      assert a + b == b;
    } else {
      DeliveriesConcat(a[1..], b);
      assert (a + b)[0] == a[0] && (a + b)[1..] == a[1..] + b;
      Associate(Delivery(a[0]), Deliveries(a[1..]), Deliveries(b));
    }
  }

  lemma {:induction false} AcknowledgedConcat(a: seq<Happening>, b: seq<Happening>)
    ensures Acknowledged(a + b) == Acknowledged(a) + Acknowledged(b)
  {
    hide Acknowledgement;
    if a == [] {
      assert a + b == b;
    } else {
      AcknowledgedConcat(a[1..], b);
      assert (a + b)[0] == a[0] && (a + b)[1..] == a[1..] + b;
      Associate(Acknowledgement(a[0]), Acknowledged(a[1..]), Acknowledged(b));
    }
  }

  lemma {:induction false} AfterCancelConcat(a: seq<Happening>, b: seq<Happening>)
    ensures AfterCancel(a + b) == if Cancelled in a then AfterCancel(a) + Deliveries(b) else AfterCancel(b)
  {
    if a == [] {
      assert a + b == b;
    } else {
      assert (a + b)[0] == a[0] && (a + b)[1..] == a[1..] + b;
      if a[0].Cancelled? {
        DeliveriesConcat(a[1..], b);
      } else {
        AfterCancelConcat(a[1..], b);
        assert a == [a[0]] + a[1..];
      }
    }
  }

  lemma LogConcat(a: seq<Happening>, b: seq<Happening>)
    ensures Deliveries(a + b) == Deliveries(a) + Deliveries(b)
    ensures Acknowledged(a + b) == Acknowledged(a) + Acknowledged(b)
    ensures AfterCancel(a + b) == if Cancelled in a then AfterCancel(a) + Deliveries(b) else AfterCancel(b)
  {
    DeliveriesConcat(a, b);
    AcknowledgedConcat(a, b);
    AfterCancelConcat(a, b);
  }

  /** What one post can add to the log: it may stay undelivered, and the context may be
      cancelled before or behind the delivery. */
  ghost predicate PostAdds(suffix: seq<Happening>, p: Postback, ok: bool) {
    || (suffix == [] && !ok)
    || (suffix == [Cancelled] && !ok)
    || suffix == [Delivered(p, ok)]
    || suffix == [Cancelled, Delivered(p, ok)]
    || suffix == [Delivered(p, ok), Cancelled]
  }

  lemma PostReads(suffix: seq<Happening>, p: Postback, ok: bool)
    requires PostAdds(suffix, p, ok)
    ensures Acknowledged(suffix) == if ok then [p] else []
    ensures Deliveries(suffix) == [p] || (Deliveries(suffix) == [] && !ok)
    ensures AfterCancel(suffix) == [p] || AfterCancel(suffix) == []
    ensures Cancelled !in suffix ==> AfterCancel(suffix) == []
  {
    assert [Cancelled, Delivered(p, ok)][1..] == [Delivered(p, ok)];
    assert [Delivered(p, ok), Cancelled][1..] == [Cancelled];
    assert [Delivered(p, ok)][1..] == [] && [Cancelled][1..] == [];
  }

  // ------------------------------------------------------------ what a run shows

  /** Everything delivered so far is `done` and acknowledged, and at most one postback
      was under way when the context was cancelled. */
  ghost predicate Progress(log: seq<Happening>, done: seq<Postback>) {
    && Deliveries(log) == done && Acknowledged(log) == done
    && |AfterCancel(log)| <= 1 && (Cancelled !in log ==> AfterCancel(log) == [])
  }

  /** The send of `p` failed: `p` may have reached the endpoint, unacknowledged. */
  ghost predicate Halted(log: seq<Happening>, done: seq<Postback>, p: Postback) {
    && Acknowledged(log) == done && |AfterCancel(log)| <= 1
    && (Deliveries(log) == done || Deliveries(log) == done + [p])
  }

  /** What holds at the end of a dispatch: what was acknowledged is a prefix of the plan,
      and the whole plan exactly if the dispatch reports success; at most one postback was
      delivered without acknowledgement, and then a send failed; at most one was delivered
      after the cancellation; an interruption is reported only after one. */
  ghost predicate Report(log: seq<Happening>, plan: seq<Postback>, outcome: Outcome) {
    && Acknowledged(log) <= Deliveries(log) <= plan
    && |Deliveries(log)| <= |Acknowledged(log)| + (if outcome.SendFailed? then 1 else 0)
    && (outcome.Sent? <==> Acknowledged(log) == plan)
    && (outcome.Interrupted? ==> Cancelled in log)
    && |AfterCancel(log)| <= 1
  }

  lemma StopsShort(log: seq<Happening>, plan: seq<Postback>, done: seq<Postback>, p: Postback)
    requires Progress(log, done) && done + [p] <= plan && Cancelled in log
    ensures Report(log, plan, Interrupted)
  {
    assert done + [p] == plan[..|done| + 1] && done == plan[..|done|];
  }

  lemma StopsFailing(log: seq<Happening>, plan: seq<Postback>, done: seq<Postback>, p: Postback)
    requires Halted(log, done, p) && done + [p] <= plan
    ensures Report(log, plan, SendFailed)
  {
    assert done + [p] == plan[..|done| + 1] && done == plan[..|done|];
  }

  lemma Completes(log: seq<Happening>, plan: seq<Postback>)
    requires Progress(log, plan)
    ensures Report(log, plan, Sent)
  {
  }

  lemma PostExtends(before: seq<Happening>, log: seq<Happening>, p: Postback, ok: bool, done: seq<Postback>)
    requires Progress(before, done) && Cancelled !in before
    requires before <= log && PostAdds(log[|before|..], p, ok)
    ensures if ok then Progress(log, done + [p]) else Halted(log, done, p)
  {
    var suffix := log[|before|..];
    assert log == before + suffix;
    LogConcat(before, suffix);
    PostReads(suffix, p, ok);
  }

  lemma NothingSent(cancelled: bool)
    ensures Progress(if cancelled then [Cancelled] else [], []) && TextPosts([]) == []
  {
    assert [Cancelled][1..] == [];
  }

  lemma PauseReads(log: seq<Happening>, done: seq<Postback>)
    requires Progress(log, done)
    ensures Cancelled !in log ==> Progress(log + [Cancelled], done)
  {
    NothingSent(true);
    LogConcat(log, [Cancelled]);
  }

  // ------------------------------------------------------------------- the code

  /** The postback client of one turn: the turn's context and the endpoint behind it. */
  class DispatchEngine {
    var cancelled: bool
    var log: seq<Happening>

    ghost predicate Valid()
      reads this
    {
      cancelled <==> Cancelled in log
    }

    constructor (cancelled: bool)
      ensures Valid() && this.cancelled == cancelled
      ensures log == if cancelled then [Cancelled] else []
    {
      this.cancelled := cancelled;
      log := if cancelled then [Cancelled] else [];
    }

    /** The owner of the context may cancel it at any moment. */
    method Elapse()
      requires Valid()
      modifies this
      ensures Valid()
      ensures log == old(log) || (!old(cancelled) && log == old(log) + [Cancelled])
    {
      var cancelNow: bool := *;
      if cancelNow && !cancelled {
        cancelled, log := true, log + [Cancelled];
      }
    }

    method SendPart(p: Postback) returns (ok: bool)
      requires Valid() && !cancelled
      modifies this
      ensures Valid() && old(log) <= log
      ensures PostAdds(log[|old(log)|..], p, ok)
    {
      ghost var start := |log|;
      Elapse();
      var answered: bool := *;
      if answered {
        ok := *;
        log := log + [Delivered(p, ok)];
      } else {
        ok := false;
      }
      assert log[start..] == (if cancelled then [Cancelled] else []) + (if answered then [Delivered(p, ok)] else []);
      Elapse();
    }

    /** The wait between two parts ends early only when the context is cancelled. */
    method Pause() returns (interrupted: bool)
      requires Valid()
      modifies this
      ensures Valid() && (interrupted ==> cancelled)
      ensures log == old(log) || (!old(cancelled) && log == old(log) + [Cancelled])
    {
      Elapse();
      interrupted := *;
      interrupted := interrupted && cancelled;
    }

    /** The cancellation check and the send of the next postback of a plan: it is
        acknowledged, or the dispatch ends here. */
    method SendNext(p: Postback, ghost done: seq<Postback>, ghost plan: seq<Postback>) returns (outcome: Outcome)
      requires Valid() && Progress(log, done) && done + [p] <= plan
      modifies this
      ensures Valid()
      ensures if outcome == Sent then Progress(log, done + [p]) else Report(log, plan, outcome)
      ensures old(cancelled) ==> outcome == Interrupted && log == old(log)
    {
      hide Report, Progress, Halted;
      if cancelled {
        StopsShort(log, plan, done, p);
        return Interrupted;
      }
      ghost var before := log;
      var ok := SendPart(p);
      PostExtends(before, log, p, ok, done);
      if !ok {
        StopsFailing(log, plan, done, p);
      }
      outcome := if ok then Sent else SendFailed;
    }

    /** The loop over the parts. */
    method SendParts(parts: seq<string>, cfg: BotConfig, ghost plan: seq<Postback>) returns (outcome: Outcome)
      requires Valid() && log == if cancelled then [Cancelled] else []
      requires TextPosts(parts) <= plan
      requires forall i :: 0 < i < |parts| ==> parts[i] != ""
      modifies this
      ensures Valid()
      ensures if outcome == Sent then Progress(log, TextPosts(parts)) else Report(log, plan, outcome)
      ensures old(cancelled) ==> log == old(log)
    {
      hide Progress, Halted, Report, TextPosts;
      NothingSent(cancelled);
      var i := 0;
      while i < |parts|
        invariant 0 <= i <= |parts| && Valid()
        invariant Progress(log, TextPosts(parts[..i]))
        invariant old(cancelled) ==> cancelled && log == old(log)
      {
        var part := parts[i];
        TextPostsAround(parts, i);
        TextPostsPrefix(parts, i + 1);
        if part != "" {
          outcome := SendNext(Postback(part, []), TextPosts(parts[..i]), plan);
          if outcome != Sent {
            return;
          }
          if i < |parts| - 1 && cfg.delayPerCharacter > 0.0 {
            PauseReads(log, TextPosts(parts[..i + 1]));
            var interrupted := Pause();
            if interrupted {
              TextPostsAround(parts, i + 1);
              TextPostsPrefix(parts, i + 2);
              StopsShort(log, plan, TextPosts(parts[..i + 1]), Postback(parts[i + 1], []));
              return Interrupted;
            }
          }
        }
        i := i + 1;
      }
      assert parts[..i] == parts;
      outcome := Sent;
    }

    method Dispatch(content: string, cfg: BotConfig) returns (outcome: Outcome)
      requires Valid() && log == if cancelled then [Cancelled] else []
      modifies this
      ensures Valid() && Report(log, Plan(content, cfg), outcome)
      ensures old(cancelled) ==> log == old(log)
    {
      hide Progress, Halted, Report, TextPosts, SignedParts, Segments, Media.Residual, Media.Attachments;
      var residual, atts := Media.ExtractMediaURLs(content);
      var parts := SegmentContent(residual, cfg);
      if cfg.messageSignature != "" && |parts| > 0 {
        parts := parts[0 := cfg.messageSignature + parts[0]];
      }
      PlanOf(content, cfg, parts);
      SeveralAreFull(content, cfg);
      ghost var plan := Plan(content, cfg);
      outcome := SendParts(parts, cfg, plan);
      if outcome != Sent {
        return;
      }
      if |atts| > 0 {
        outcome := SendNext(Postback("", atts), TextPosts(parts), plan);
        if outcome != Sent {
          return;
        }
      } else {
        assert plan == TextPosts(parts);
      }
      Completes(log, plan);
    }
  }

  /** Signing in place gives the plan's parts. */
  lemma PlanOf(content: string, cfg: BotConfig, parts: seq<string>)
    requires var unsigned, signature := Segments(Media.Residual(content), cfg), cfg.messageSignature;
             parts == if signature != "" && |unsigned| > 0
                      then unsigned[0 := signature + unsigned[0]] else unsigned
    ensures parts == SignedParts(content, cfg)
    ensures var atts := Media.Attachments(Media.Urls(Media.Lex(content)));
            Plan(content, cfg) == TextPosts(parts) + if atts == [] then [] else [Postback("", atts)]
  {
    hide TextPosts, Segments, Media.Residual, Media.Attachments, Media.Lex;
    var unsigned, signature := Segments(Media.Residual(content), cfg), cfg.messageSignature;
    if unsigned != [] {
      assert [signature + unsigned[0]] + unsigned[1..] == unsigned[0 := signature + unsigned[0]];
      assert signature == "" ==> signature + unsigned[0] == unsigned[0];
    }
  }

  lemma {:induction false} TextPostsConcat(a: seq<string>, b: seq<string>)
    ensures TextPosts(a + b) == TextPosts(a) + TextPosts(b)
  {
    hide PartPost;
    if a == [] {
      assert a + b == b;
    } else {
      TextPostsConcat(a[1..], b);
      assert (a + b)[0] == a[0] && (a + b)[1..] == a[1..] + b;
      Associate(PartPost(a[0]), TextPosts(a[1..]), TextPosts(b));
    }
  }

  lemma TextPostsOne(part: string)
    ensures TextPosts([part]) == if part == "" then [] else [Postback(part, [])]
  {
    assert [part][1..] == [];
  }

  lemma TextPostsSnoc(before: seq<string>, part: string)
    ensures TextPosts(before + [part])
            == if part == "" then TextPosts(before) else TextPosts(before) + [Postback(part, [])]
  {
    hide TextPosts;
    TextPostsOne(part);
    TextPostsConcat(before, [part]);
    var posts := TextPosts(before);
    assert posts + [] == posts;
  }

  lemma TextPostsPrefix(parts: seq<string>, n: nat)
    requires n <= |parts|
    ensures TextPosts(parts[..n]) <= TextPosts(parts)
  {
    hide TextPosts;
    assert parts[..n] + parts[n..] == parts;
    TextPostsConcat(parts[..n], parts[n..]);
  }

  lemma TextPostsAround(parts: seq<string>, i: nat)
    requires i < |parts|
    ensures TextPosts(parts[..i + 1])
            == if parts[i] == "" then TextPosts(parts[..i]) else TextPosts(parts[..i]) + [Postback(parts[i], [])]
  {
    hide TextPosts;
    assert parts[..i + 1] == parts[..i] + [parts[i]];
    TextPostsSnoc(parts[..i], parts[i]);
  }

  /** Of several parts, none is empty: an interruption between two parts always leaves
      something unsent. */
  lemma SeveralAreFull(content: string, cfg: BotConfig)
    ensures forall i :: 0 < i < |SignedParts(content, cfg)| ==> SignedParts(content, cfg)[i] != ""
  {
    forall i | 0 < i < |SignedParts(content, cfg)| ensures SignedParts(content, cfg)[i] != "" {
      SegmentsBounded(Media.Residual(content), cfg, i);
    }
  }

  // ------------------------------------------------------- what a reply carries

  lemma FieldsOfWord(s: string)
    requires s != "" && !IsSpace(s[0])
    ensures WordLen(s) >= 1 && Fields(s) == [s[..WordLen(s)]] + Fields(s[WordLen(s)..])
  {
  }

  lemma FieldsOfSpace(s: string)
    ensures s == "" ==> Fields(s) == []
    ensures s != "" && IsSpace(s[0]) ==> Fields(s) == Fields(s[1..])
  {
  }

  lemma {:induction false} FieldsSplit(x: string, y: string)
    requires y == "" || IsSpace(y[0])
    ensures Fields(x + y) == Fields(x) + Fields(y)
    decreases |x|
  {
    hide Fields, WordLen;
    FieldsOfSpace(x);
    if x == "" {
      assert x + y == y;
    } else if IsSpace(x[0]) {
      FieldsSplit(x[1..], y);
      assert (x + y)[0] == x[0] && (x + y)[1..] == x[1..] + y;
      FieldsOfSpace(x + y);
    } else {
      var n := WordLen(x);
      FieldsOfWord(x);
      FieldsSplit(x[n..], y);
      WordBefore(x, y, n);
    }
  }

  lemma WordBefore(x: string, y: string, n: nat)
    requires x != "" && !IsSpace(x[0]) && (y == "" || IsSpace(y[0])) && n == WordLen(x)
    ensures Fields(x + y) == [x[..n]] + Fields(x[n..] + y)
  {
    hide Fields, IsSpace, WordLen;
    assert (x + y)[0] == x[0];
    FieldsOfWord(x + y);
    WordLenMore(x, y);
    assert (x + y)[..n] == x[..n] && (x + y)[n..] == x[n..] + y;
  }

  lemma {:induction false} WordLenMore(x: string, y: string)
    requires y == "" || IsSpace(y[0])
    ensures WordLen(x + y) == WordLen(x)
  {
    if x == "" {
      assert x + y == y;
    } else {
      WordLenMore(x[1..], y);
      assert (x + y)[1..] == x[1..] + y;
    }
  }

  lemma {:induction false} AfterWord(s: string)
    ensures s[WordLen(s)..] == "" || IsSpace(s[WordLen(s)..][0])
  {
    if s != "" && !IsSpace(s[0]) {
      AfterWord(s[1..]);
      assert s[WordLen(s)..] == s[1..][WordLen(s[1..])..];
    }
  }

  /** A prefix written before a text changes the text's first word only. */
  lemma PrefixOnFirstWord(prefix: string, s: string)
    requires s != "" && !IsSpace(s[0])
    ensures Fields(s) != []
    ensures Fields(prefix + s) == Fields(prefix + Fields(s)[0]) + Fields(s)[1..]
  {
    var n := WordLen(s);
    AfterWord(s);
    assert prefix + s == (prefix + s[..n]) + s[n..];
    FieldsSplit(prefix + s[..n], s[n..]);
  }

  lemma {:induction false} TrimLeftStart(s: string)
    ensures TrimLeft(s) != "" ==> !IsSpace(TrimLeft(s)[0])
  {
    if s != "" && IsSpace(s[0]) {
      TrimLeftStart(s[1..]);
    }
  }

  lemma ResidualStart(content: string)
    ensures var r := Media.Residual(content); r != "" ==> !IsSpace(r[0])
  {
    var t := Media.ReplaceEach(content, Media.MediaUrls(Media.Urls(Media.Lex(content))));
    TrimLeftStart(t);
    TrimRightPrefix(TrimLeft(t));
  }

  lemma FirstPartStart(content: string, cfg: BotConfig)
    requires Segmenting(cfg) && Fields(content) != []
    ensures var parts := Segments(content, cfg);
            parts != [] && parts[0] != "" && !IsSpace(parts[0][0])
  {
    var words := Fields(content);
    var groups := Pack(words, cfg.segmentationLimit);
    FieldsAreWords(content);
    PackIsTightCut(words, cfg.segmentationLimit);
    assert groups != [] by { assert Flatten<string>([]) == []; }
    assert words == groups[0] + Flatten(groups[1..]);
    assert words[0] == groups[0][0] && IsWord(words[0]);
    FirstWordWithin(groups[0]);
    assert Spaced(groups[0])[0] == groups[0][0][0];
  }

  lemma {:induction false} WordsOfPosts(parts: seq<string>)
    ensures WordsOfParts(Texts(TextPosts(parts))) == WordsOfParts(parts)
  {
    if parts != [] {
      WordsOfPosts(parts[1..]);
      var posts := TextPosts(parts);
      if parts[0] != "" {
        assert Texts(posts)[1..] == Texts(posts[1..]) && posts[1..] == TextPosts(parts[1..]);
      } else {
        assert posts == TextPosts(parts[1..]);
      }
    }
  }

  lemma WordsHead(parts: seq<string>)
    requires parts != []
    ensures WordsOfParts(parts) == Fields(parts[0]) + WordsOfParts(parts[1..])
  {
  }

  lemma HeadOfSum(ours: seq<string>, rest: seq<string>)
    requires ours != []
    ensures (ours + rest)[0] == ours[0] && (ours + rest)[1..] == ours[1..] + rest
  {
  }

  lemma SignFirst(prefix: string, text: string, parts: seq<string>)
    requires parts != [] && parts[0] != "" && !IsSpace(parts[0][0])
    requires text != "" && !IsSpace(text[0])
    requires WordsOfParts(parts) == Fields(text)
    ensures WordsOfParts(Signed(parts, prefix)) == Fields(prefix + text)
  {
    hide Fields, WordsOfParts, IsSpace;
    var rest := WordsOfParts(parts[1..]);
    var signed := Signed(parts, prefix);
    PrefixOnFirstWord(prefix, parts[0]);
    PrefixOnFirstWord(prefix, text);
    WordsHead(parts);
    assert signed[0] == prefix + parts[0] && signed[1..] == parts[1..];
    WordsHead(signed);
    Associate(Fields(prefix + Fields(text)[0]), Fields(parts[0])[1..], rest);
    HeadOfSum(Fields(parts[0]), rest);
  }

  /** Signing the parts is signing the text: no word is lost, doubled or moved. */
  lemma SigningKeepsWords(text: string, cfg: BotConfig)
    requires text != "" ==> !IsSpace(text[0])
    ensures WordsOfParts(Signed(Segments(text, cfg), cfg.messageSignature)) == Fields(cfg.messageSignature + text)
  {
    hide IsSpace, Pack;
    var prefix, parts := cfg.messageSignature, Segments(text, cfg);
    if Segmenting(cfg) && Fields(text) != [] {
      SegmentsLossless(text, cfg);
      FirstPartStart(text, cfg);
      SignFirst(prefix, text, parts);
    } else {
      assert parts == [text];
      var signed := Signed(parts, prefix);
      assert signed == [prefix + text] && signed[1..] == [];
    }
  }

  /** The texts of a complete reply carry exactly the words of the signature followed by
      the text that is left of the answer, in order; the media postback carries none. */
  lemma PlanKeepsWords(content: string, cfg: BotConfig)
    ensures WordsOfParts(Texts(Plan(content, cfg))) == Fields(cfg.messageSignature + Media.Residual(content))
  {
    hide Fields, TextPosts, Media.Residual, Media.Attachments, Media.Lex, IsSpace;
    var parts := SignedParts(content, cfg);
    var media := MediaPost(Media.Attachments(Media.Urls(Media.Lex(content))));
    ResidualStart(content);
    SigningKeepsWords(Media.Residual(content), cfg);
    WordsOfPosts(parts);
    assert Texts(Plan(content, cfg)) == Texts(TextPosts(parts)) + Texts(media);
    WordsConcat(Texts(TextPosts(parts)), Texts(media));
    MediaSaysNothing(media);
  }

  lemma MediaSaysNothing(posts: seq<Postback>)
    requires posts == [] || (|posts| == 1 && posts[0].content == "")
    ensures WordsOfParts(Texts(posts)) == []
  {
    if posts != [] {
      assert Texts(posts)[1..] == [];
    }
  }

  lemma {:induction false} WordsConcat(a: seq<string>, b: seq<string>)
    ensures WordsOfParts(a + b) == WordsOfParts(a) + WordsOfParts(b)
  {
    hide Fields;
    if a == [] {
      assert a + b == b;
    } else {
      WordsConcat(a[1..], b);
      assert (a + b)[0] == a[0] && (a + b)[1..] == a[1..] + b;
      Associate(Fields(a[0]), WordsOfParts(a[1..]), WordsOfParts(b));
    }
  }

  /** A dispatch that reports success has delivered every word: the acknowledged texts
      carry exactly the words of the signed answer without its media links. */
  lemma SuccessDeliversEveryWord(content: string, cfg: BotConfig, log: seq<Happening>)
    requires Report(log, Plan(content, cfg), Sent)
    ensures WordsOfParts(Texts(Acknowledged(log))) == Fields(cfg.messageSignature + Media.Residual(content))
    ensures Deliveries(log) == Acknowledged(log)
  {
    PlanKeepsWords(content, cfg);
  }

  // ----------------------------------------------------- the plan, part by part

  /** With segmentation off, or a limit that is not positive, a reply is one text that
      carries the signature and the text left of the answer verbatim, white space included,
      and then the media. */
  lemma WithoutSegmentation(content: string, cfg: BotConfig)
    requires !cfg.segmentationEnabled || cfg.segmentationLimit <= 0
    ensures var text, atts := cfg.messageSignature + Media.Residual(content),
                              Media.Attachments(Media.Urls(Media.Lex(content)));
            Plan(content, cfg) ==
            (if text == "" then [] else [Postback(text, [])]) + (if atts == [] then [] else [Postback("", atts)])
  {
    hide Media.Residual, Media.Attachments, Media.Urls, Media.Lex;
    var text := cfg.messageSignature + Media.Residual(content);
    assert SignedParts(content, cfg) == [text];
    TextPostsOne(text);
  }

  /** With segmentation on, the texts of a reply are its parts, the first of them behind
      the signature. */
  lemma WithSegmentation(content: string, cfg: BotConfig)
    requires cfg.segmentationEnabled && cfg.segmentationLimit > 0 && Fields(Media.Residual(content)) != []
    ensures var parts, atts := SpacedAll(Pack(Fields(Media.Residual(content)), cfg.segmentationLimit)),
                               Media.Attachments(Media.Urls(Media.Lex(content)));
            && parts != []
            && Texts(Plan(content, cfg)) ==
               [cfg.messageSignature + parts[0]] + parts[1..] + (if atts == [] then [] else [""])
            && (atts != [] ==> Plan(content, cfg)[|parts|] == Postback("", atts))
            && forall i :: 0 <= i < |parts| ==> Plan(content, cfg)[i].attachments == []
  {
    hide Media.Residual, Media.Attachments, Media.Urls, Media.Lex, Fields, Pack, IsSpace;
    var text := Media.Residual(content);
    var parts := Segments(text, cfg);
    FirstPartStart(text, cfg);
    var signed := SignedParts(content, cfg);
    forall i | 0 <= i < |signed| ensures signed[i] != "" {
      SegmentsBounded(text, cfg, i);
    }
    FullTexts(signed);
  }

  lemma {:induction false} FullTexts(parts: seq<string>)
    requires forall i :: 0 <= i < |parts| ==> parts[i] != ""
    ensures |TextPosts(parts)| == |parts|
    ensures forall i :: 0 <= i < |parts| ==> TextPosts(parts)[i] == Postback(parts[i], [])
  {
    if parts != [] {
      FullTexts(parts[1..]);
    }
  }
}
