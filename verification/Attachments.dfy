/** Incoming media: which attachments of a turn are downloaded and forwarded to the AI
    processor, within the byte and time budgets. */
module Attachments {
  import opened Model
  import opened Base64

  const MAX_ATTACHMENT_BYTES: int := 15 * 1024 * 1024
  const MAX_TOTAL_BYTES: int := 20 * 1024 * 1024

  /** What the outside world does with one attachment: whether its URL is allowed, the
      time budget still open when its turn comes, the body its host serves (none when the
      download fails), and the media type of the answer (none when it is not media). */
  datatype Fetch = Fetch(allowed: bool, inTime: bool, body: Option<seq<byte>>, mimeType: Option<string>)

  datatype FilePart = FilePart(url: string, mimeType: string, bytes: string)

  /** `downloadAttachment`: one byte more than the limit is read, so that a body at the
      limit is told from a longer one. */
  method DownloadAttachment(body: Option<seq<byte>>, limit: nat) returns (data: Option<seq<byte>>)
    ensures data == if body.Some? && |body.value| <= limit then body else None
  {
    if body.None? {
      return None;
    }
    var read := if |body.value| <= limit + 1 then body.value else body.value[..limit + 1];
    data := if |read| > limit then None else Some(read);
  }

  // ------------------------------------------------------------ specification

  function Limit(remaining: int): int {
    if MAX_ATTACHMENT_BYTES <= remaining then MAX_ATTACHMENT_BYTES else remaining
  }

  /** The attachment passes every check but the ones on size. */
  predicate Usable(att: Attachment, f: Fetch) {
    att.url != "" && f.allowed && f.inTime && f.body.Some? && f.mimeType.Some?
  }

  /** The loop ends here: the time or the bytes are used up. */
  predicate Ends(att: Attachment, f: Fetch, remaining: int) {
    att.url != "" && f.allowed && (!f.inTime || remaining <= 0)
  }

  predicate Forwards(att: Attachment, f: Fetch, remaining: int) {
    Usable(att, f) && |f.body.value| <= Limit(remaining)
  }

  /** The positions forwarded from `i` on, with `remaining` bytes of budget. */
  function Picks(atts: seq<Attachment>, fs: seq<Fetch>, i: nat, remaining: int): seq<nat>
    requires |fs| == |atts| && i <= |atts|
    decreases |atts| - i
  {
    if i == |atts| || Ends(atts[i], fs[i], remaining) then []
    else if Forwards(atts[i], fs[i], remaining)
    then [i] + Picks(atts, fs, i + 1, remaining - |fs[i].body.value|)
    else Picks(atts, fs, i + 1, remaining)
  }

  /** Positions whose body was downloaded. */
  predicate Within(picks: seq<nat>, atts: seq<Attachment>, fs: seq<Fetch>) {
    |fs| == |atts| && forall k :: 0 <= k < |picks| ==> picks[k] < |atts| && Usable(atts[picks[k]], fs[picks[k]])
  }

  function PartsOf(picks: seq<nat>, atts: seq<Attachment>, fs: seq<Fetch>): seq<FilePart>
    requires Within(picks, atts, fs)
  {
    seq(|picks|, k requires 0 <= k < |picks| =>
      FilePart(atts[picks[k]].url, fs[picks[k]].mimeType.value, Encode(fs[picks[k]].body.value)))
  }

  function Bytes(picks: seq<nat>, atts: seq<Attachment>, fs: seq<Fetch>): int
    requires Within(picks, atts, fs)
  {
    if picks == [] then 0 else |fs[picks[0]].body.value| + Bytes(picks[1..], atts, fs)
  }

  function Letters(parts: seq<FilePart>): int {
    if parts == [] then 0 else |parts[0].bytes| + Letters(parts[1..])
  }

  // ------------------------------------------------------------------ the code

  /** The loop stands at `i`: `picks` are forwarded and the rest is still to be decided. */
  ghost predicate Underway(picks: seq<nat>, parts: seq<FilePart>, remaining: int,
                           atts: seq<Attachment>, fs: seq<Fetch>, i: nat)
  {
    && |fs| == |atts| && i <= |atts| && remaining >= 0
    && Within(picks, atts, fs) && parts == PartsOf(picks, atts, fs)
    && Bytes(picks, atts, fs) + remaining == MAX_TOTAL_BYTES
    && Picks(atts, fs, 0, MAX_TOTAL_BYTES) == picks + Picks(atts, fs, i, remaining)
  }

  /** `buildFileParts`; `remaining` is what is left of the byte budget at the end. */
  method BuildFileParts(atts: seq<Attachment>, fs: seq<Fetch>) returns (parts: seq<FilePart>, remaining: int)
    requires |fs| == |atts|
    ensures var picks := Picks(atts, fs, 0, MAX_TOTAL_BYTES);
            && Within(picks, atts, fs)
            && parts == PartsOf(picks, atts, fs)
            && Bytes(picks, atts, fs) + remaining == MAX_TOTAL_BYTES && remaining >= 0
  {
    parts, remaining := [], MAX_TOTAL_BYTES;
    ghost var picks: seq<nat> := [];
    var i := 0;
    while i < |atts|
      invariant 0 <= i <= |atts| && Underway(picks, parts, remaining, atts, fs, i)
    {
      hide Underway, Encode;
      var att, f := atts[i], fs[i];
      if att.url == "" || !f.allowed {
        Skip(picks, parts, remaining, atts, fs, i);
        i := i + 1;
        continue;
      }
      if !f.inTime {
        End(picks, parts, remaining, atts, fs, i);
        return;
      }
      var limit := if MAX_ATTACHMENT_BYTES <= remaining then MAX_ATTACHMENT_BYTES else remaining;
      if limit <= 0 {
        End(picks, parts, remaining, atts, fs, i);
        return;
      }
      var data := DownloadAttachment(f.body, limit);
      if data.None? || f.mimeType.None? {
        Skip(picks, parts, remaining, atts, fs, i);
        i := i + 1;
        continue;
      }
      Take(picks, parts, remaining, atts, fs, i);
      remaining := remaining - |data.value|;
      parts := parts + [FilePart(att.url, f.mimeType.value, Encode(data.value))];
      picks := picks + [i];
      i := i + 1;
    }
    End(picks, parts, remaining, atts, fs, i);
  }

  lemma Skip(picks: seq<nat>, parts: seq<FilePart>, remaining: int, atts: seq<Attachment>, fs: seq<Fetch>, i: nat)
    requires Underway(picks, parts, remaining, atts, fs, i) && i < |atts|
    requires !Ends(atts[i], fs[i], remaining) && !Forwards(atts[i], fs[i], remaining)
    ensures Underway(picks, parts, remaining, atts, fs, i + 1)
  {
  }

  lemma Take(picks: seq<nat>, parts: seq<FilePart>, remaining: int, atts: seq<Attachment>, fs: seq<Fetch>, i: nat)
    requires Underway(picks, parts, remaining, atts, fs, i) && i < |atts|
    requires !Ends(atts[i], fs[i], remaining) && Forwards(atts[i], fs[i], remaining)
    ensures var body := fs[i].body.value;
            Underway(picks + [i], parts + [FilePart(atts[i].url, fs[i].mimeType.value, Encode(body))],
                     remaining - |body|, atts, fs, i + 1)
  {
    hide Encode;
    var left := remaining - |fs[i].body.value|;
    BytesLast(picks, i, atts, fs);
    var rest := Picks(atts, fs, i + 1, left);
    assert picks + ([i] + rest) == (picks + [i]) + rest;
  }

  lemma End(picks: seq<nat>, parts: seq<FilePart>, remaining: int, atts: seq<Attachment>, fs: seq<Fetch>, i: nat)
    requires Underway(picks, parts, remaining, atts, fs, i)
    requires i == |atts| || Ends(atts[i], fs[i], remaining)
    ensures picks == Picks(atts, fs, 0, MAX_TOTAL_BYTES)
  {
    assert picks + [] == picks;
  }

  lemma {:induction false} BytesLast(picks: seq<nat>, i: nat, atts: seq<Attachment>, fs: seq<Fetch>)
    requires Within(picks, atts, fs) && i < |atts| && Usable(atts[i], fs[i])
    ensures Within(picks + [i], atts, fs)
    ensures Bytes(picks + [i], atts, fs) == Bytes(picks, atts, fs) + |fs[i].body.value|
  {
    if picks == [] {
      assert picks + [i] == [i];
    } else {
      assert Within(picks[1..], atts, fs);
      BytesLast(picks[1..], i, atts, fs);
      assert (picks + [i])[1..] == picks[1..] + [i];
    }
  }

  // ---------------------------------------------------------------- accounting

  lemma WithinNothing(atts: seq<Attachment>, fs: seq<Fetch>)
    requires |fs| == |atts|
    ensures Within([], atts, fs)
  {
  }

  lemma OrderCons(i: nat, rest: seq<nat>, atts: seq<Attachment>, fs: seq<Fetch>)
    requires Within(rest, atts, fs) && i < |atts| && Usable(atts[i], fs[i])
    requires forall k :: 0 <= k < |rest| ==> rest[k] >= i + 1
    requires forall k, l :: 0 <= k < l < |rest| ==> rest[k] < rest[l]
    ensures var picks := [i] + rest;
            && Within(picks, atts, fs)
            && (forall k :: 0 <= k < |picks| ==> picks[k] >= i)
            && (forall k, l :: 0 <= k < l < |picks| ==> picks[k] < picks[l])
  {
    hide Usable;
  }

  /** The forwarded files are a subsequence of the usable attachments, in order. */
  lemma {:induction false} PicksInOrder(atts: seq<Attachment>, fs: seq<Fetch>, i: nat, remaining: int)
    requires |fs| == |atts| && i <= |atts|
    ensures var picks := Picks(atts, fs, i, remaining);
            && Within(picks, atts, fs)
            && (forall k :: 0 <= k < |picks| ==> picks[k] >= i)
            && (forall k, l :: 0 <= k < l < |picks| ==> picks[k] < picks[l])
    decreases |atts| - i
  {
    WithinNothing(atts, fs);
    hide Ends, Limit, Within;
    if i < |atts| && !Ends(atts[i], fs[i], remaining) {
      if Forwards(atts[i], fs[i], remaining) {
        var left := remaining - |fs[i].body.value|;
        PicksInOrder(atts, fs, i + 1, left);
        OrderCons(i, Picks(atts, fs, i + 1, left), atts, fs);
      } else {
        PicksInOrder(atts, fs, i + 1, remaining);
      }
    }
  }

  /** Each forwarded file is within 15 MiB, and together they are within the budget. */
  lemma {:induction false} PicksWithinBudget(atts: seq<Attachment>, fs: seq<Fetch>, i: nat, remaining: int)
    requires |fs| == |atts| && i <= |atts| && remaining >= 0
    ensures var picks := Picks(atts, fs, i, remaining);
            && Within(picks, atts, fs)
            && Bytes(picks, atts, fs) <= remaining
            && (forall k :: 0 <= k < |picks| ==> |fs[picks[k]].body.value| <= MAX_ATTACHMENT_BYTES)
    decreases |atts| - i
  {
    hide Ends;
    PicksInOrder(atts, fs, i, remaining);
    if i < |atts| && !Ends(atts[i], fs[i], remaining) {
      if Forwards(atts[i], fs[i], remaining) {
        var left := remaining - |fs[i].body.value|;
        PicksWithinBudget(atts, fs, i + 1, left);
        var rest := Picks(atts, fs, i + 1, left);
        assert ([i] + rest)[1..] == rest;
      } else {
        PicksWithinBudget(atts, fs, i + 1, remaining);
      }
    }
  }

  /** The bytes forwarded from positions before `j`. */
  function Before(picks: seq<nat>, j: nat, atts: seq<Attachment>, fs: seq<Fetch>): int
    requires Within(picks, atts, fs)
  {
    if picks == [] then 0
    else (if picks[0] < j then |fs[picks[0]].body.value| else 0) + Before(picks[1..], j, atts, fs)
  }

  /** The loop had ended by position `j`, because the time was up. */
  ghost predicate OutOfTime(atts: seq<Attachment>, fs: seq<Fetch>, i: nat, j: nat)
    requires |fs| == |atts| && j < |atts|
  {
    exists t :: i <= t <= j && atts[t].url != "" && fs[t].allowed && !fs[t].inTime
  }

  lemma {:induction false} BeforeAll(picks: seq<nat>, j: nat, atts: seq<Attachment>, fs: seq<Fetch>)
    requires Within(picks, atts, fs) && forall k :: 0 <= k < |picks| ==> picks[k] >= j
    ensures Before(picks, j, atts, fs) == 0
  {
    if picks != [] {
      BeforeAll(picks[1..], j, atts, fs);
    }
  }

  /** Nothing else is dropped: a usable attachment stays behind only because the time was
      up, the byte budget was used up exactly, or it is larger than what a file may have
      or than what earlier files left of the budget. */
  lemma {:induction false} DroppedForAReason(atts: seq<Attachment>, fs: seq<Fetch>, i: nat, remaining: int, j: nat)
    requires |fs| == |atts| && i <= j < |atts| && remaining >= 0
    requires Usable(atts[j], fs[j]) && Within(Picks(atts, fs, i, remaining), atts, fs)
    ensures var picks := Picks(atts, fs, i, remaining);
            var left := remaining - Before(picks, j, atts, fs);
            j in picks || OutOfTime(atts, fs, i, j) || left == 0 || |fs[j].body.value| > Limit(left)
    decreases j - i
  {
    PicksInOrder(atts, fs, i, remaining);
    var picks := Picks(atts, fs, i, remaining);
    if i == j {
      BeforeAll(picks, j, atts, fs);
      if Forwards(atts[j], fs[j], remaining) && remaining > 0 {
        assert picks[0] == j;
      }
    } else if Ends(atts[i], fs[i], remaining) {
      if fs[i].inTime {
        assert Before(picks, j, atts, fs) == 0;
      }
    } else if Forwards(atts[i], fs[i], remaining) {
      var left := remaining - |fs[i].body.value|;
      var rest := Picks(atts, fs, i + 1, left);
      assert picks == [i] + rest && picks[1..] == rest;
      assert Within(rest, atts, fs);
      DroppedForAReason(atts, fs, i + 1, left, j);
    } else {
      DroppedForAReason(atts, fs, i + 1, remaining, j);
    }
  }

  /** Once the time or the bytes are used up at an allowed attachment, nothing behind it is
      forwarded, whatever it is. */
  lemma {:induction false} EndIsFinal(atts: seq<Attachment>, fs: seq<Fetch>, i: nat, remaining: int, t: nat)
    requires |fs| == |atts| && i <= t < |atts| && remaining >= 0
    requires Within(Picks(atts, fs, i, remaining), atts, fs)
    requires atts[t].url != "" && fs[t].allowed
    requires !fs[t].inTime || Before(Picks(atts, fs, i, remaining), t, atts, fs) == remaining
    ensures forall k :: 0 <= k < |Picks(atts, fs, i, remaining)| ==> Picks(atts, fs, i, remaining)[k] < t
    decreases t - i
  {
    var picks := Picks(atts, fs, i, remaining);
    PicksInOrder(atts, fs, i, remaining);
    if i == t {
      BeforeAll(picks, t, atts, fs);
    } else if !Ends(atts[i], fs[i], remaining) {
      if Forwards(atts[i], fs[i], remaining) {
        var left := remaining - |fs[i].body.value|;
        var rest := Picks(atts, fs, i + 1, left);
        assert picks == [i] + rest && picks[1..] == rest;
        PicksInOrder(atts, fs, i + 1, left);
        EndIsFinal(atts, fs, i + 1, left, t);
      } else {
        EndIsFinal(atts, fs, i + 1, remaining, t);
      }
    }
  }

  /** k files of n bytes in all take at most (4n + 8k) / 3 letters. */
  lemma {:induction false} EncodedWithin(picks: seq<nat>, atts: seq<Attachment>, fs: seq<Fetch>)
    requires Within(picks, atts, fs)
    ensures 3 * Letters(PartsOf(picks, atts, fs)) <= 4 * Bytes(picks, atts, fs) + 8 * |picks|
  {
    if picks != [] {
      var rest := picks[1..];
      EncodedLength(fs[picks[0]].body.value);
      EncodedWithin(rest, atts, fs);
      assert PartsOf(picks, atts, fs)[1..] == PartsOf(rest, atts, fs);
    }
  }

  /** The whole account of one turn: files in the order of the event, each from a URL that
      passed the host check while the time budget was open, at most 15 MiB a file and 20 MiB
      in all, at most (4 * 20 MiB + 8k) / 3 letters of request body for k files; every part
      has the URL and the media type of its file and decodes to the complete body that the
      host served. */
  lemma AttachmentAccount(atts: seq<Attachment>, fs: seq<Fetch>)
    requires |fs| == |atts|
    ensures var picks := Picks(atts, fs, 0, 20_971_520);
            && Within(picks, atts, fs)
            && Bytes(picks, atts, fs) <= 20_971_520
            && (forall k, l :: 0 <= k < l < |picks| ==> picks[k] < picks[l])
            && (forall k :: 0 <= k < |picks| ==>
                  && atts[picks[k]].url != "" && fs[picks[k]].allowed && fs[picks[k]].inTime
                  && |fs[picks[k]].body.value| <= 15_728_640)
            && var parts := PartsOf(picks, atts, fs);
               && |parts| == |picks| && 3 * Letters(parts) <= 4 * 20_971_520 + 8 * |parts|
               && forall k :: 0 <= k < |parts| ==>
                    && parts[k].url == atts[picks[k]].url
                    && Some(parts[k].mimeType) == fs[picks[k]].mimeType
                    && Some(Decode(parts[k].bytes)) == fs[picks[k]].body
  {
    hide Picks, Bytes, Letters, Encode, Decode;
    PicksInOrder(atts, fs, 0, MAX_TOTAL_BYTES);
    PicksWithinBudget(atts, fs, 0, MAX_TOTAL_BYTES);
    var picks := Picks(atts, fs, 0, MAX_TOTAL_BYTES);
    EncodedWithin(picks, atts, fs);
    var parts := PartsOf(picks, atts, fs);
    forall k | 0 <= k < |parts| ensures Decode(parts[k].bytes) == fs[picks[k]].body.value {
      DecodeEncode(fs[picks[k]].body.value);
    }
  }
}
