/** Segmentation of a reply: a greedy word packer and the merge pass behind it. */
module Segmentation {
  import opened Model
  import opened Sequences
  import opened Text

  // ------------------------------------------------------------ specification

  /** How many of the words the greedy packer puts into its first part, given that it
      has already taken `n` of them. */
  function FirstPart(words: seq<string>, n: nat, limit: int): (m: nat)
    requires 1 <= n <= |words|
    ensures n <= m <= |words|
    decreases |words| - n
  {
    if n < |words| && |Spaced(words[..n])| + 1 + |words[n]| <= limit
    then FirstPart(words, n + 1, limit) else n
  }

  /** The greedy packing of the words into groups. */
  function Pack(words: seq<string>, limit: int): seq<seq<string>>
    decreases |words|
  {
    if words == [] then [] else
      var n := FirstPart(words, 1, limit);
      [words[..n]] + Pack(words[n..], limit)
  }

  function SpacedAll(groups: seq<seq<string>>): seq<string> {
    seq(|groups|, i requires 0 <= i < |groups| => Spaced(groups[i]))
  }

  /** `segmentContent`: the merge pass leaves no trace. */
  function Segments(content: string, cfg: BotConfig): seq<string> {
    if !cfg.segmentationEnabled || cfg.segmentationLimit <= 0 || Fields(content) == [] then [content]
    else SpacedAll(Pack(Fields(content), cfg.segmentationLimit))
  }

  /** A cut of the words into consecutive non-empty groups. */
  predicate IsCut(groups: seq<seq<string>>, words: seq<string>) {
    Flatten(groups) == words && forall k :: 0 <= k < |groups| ==> groups[k] != []
  }

  /** Within the limit in runes, or a single over-long word. */
  predicate Fits(group: seq<string>, limit: int) {
    |group| == 1 || |Spaced(group)| <= limit
  }

  ghost predicate AllFit(groups: seq<seq<string>>, limit: int) {
    forall k :: 0 <= k < |groups| ==> Fits(groups[k], limit)
  }

  /** No group had room for the first word of the next one. */
  ghost predicate Blocked(groups: seq<seq<string>>, limit: int) {
    forall k :: 0 <= k < |groups| - 1 && groups[k + 1] != [] ==>
      |Spaced(groups[k])| + 1 + |groups[k + 1][0]| > limit
  }

  // ------------------------------------------------------------- the packing

  lemma {:induction false} FirstPartFits(words: seq<string>, n: nat, limit: int)
    requires 1 <= n <= |words| && Fits(words[..n], limit)
    ensures var m := FirstPart(words, n, limit);
            && Fits(words[..m], limit)
            && (m < |words| ==> |Spaced(words[..m])| + 1 + |words[m]| > limit)
    decreases |words| - n
  {
    if n < |words| && |Spaced(words[..n])| + 1 + |words[n]| <= limit {
      assert words[..n + 1] == words[..n] + [words[n]];
      SpacedLast(words[..n], words[n]);
      FirstPartFits(words, n + 1, limit);
    }
  }

  lemma BlockedCons(group: seq<string>, rest: seq<seq<string>>, limit: int)
    requires Blocked(rest, limit)
    requires rest != [] && rest[0] != [] ==> |Spaced(group)| + 1 + |rest[0][0]| > limit
    ensures Blocked([group] + rest, limit)
  {
    var groups := [group] + rest;
    forall k | 0 <= k < |groups| - 1 && groups[k + 1] != []
      ensures |Spaced(groups[k])| + 1 + |groups[k + 1][0]| > limit
    {
      if k > 0 {
        assert groups[k] == rest[k - 1] && groups[k + 1] == rest[(k - 1) + 1];
      }
    }
  }

  /** The greedy groups are a cut, every group fits, and none had room for more. */
  lemma {:induction false} PackIsTightCut(words: seq<string>, limit: int)
    ensures IsCut(Pack(words, limit), words)
    ensures AllFit(Pack(words, limit), limit) && Blocked(Pack(words, limit), limit)
    decreases |words|
  {
    if words != [] {
      var n := FirstPart(words, 1, limit);
      var rest := Pack(words[n..], limit);
      FirstPartFits(words, 1, limit);
      PackIsTightCut(words[n..], limit);
      PackHead(words[n..], limit);
      assert words[..n] + words[n..] == words;
      hide Flatten, FirstPart, IsCut, AllFit, Blocked, Fits;
      CutCons(words[..n], rest, words[n..], limit);
      BlockedCons(words[..n], rest, limit);
    }
  }

  lemma PackHead(words: seq<string>, limit: int)
    ensures var groups := Pack(words, limit);
            groups != [] ==> words != [] && groups[0] != [] && groups[0][0] == words[0]
  {
  }

  lemma CutCons(group: seq<string>, rest: seq<seq<string>>, words: seq<string>, limit: int)
    requires IsCut(rest, words) && AllFit(rest, limit) && group != [] && Fits(group, limit)
    ensures IsCut([group] + rest, group + words) && AllFit([group] + rest, limit)
  {
    hide Fits;
    assert ([group] + rest)[1..] == rest;
  }

  lemma {:induction false} PrefixShorter(words: seq<string>, a: nat, b: nat)
    requires 1 <= a <= b <= |words|
    ensures |Spaced(words[..a])| <= |Spaced(words[..b])|
    decreases b - a
  {
    if a < b {
      assert words[..a + 1] == words[..a] + [words[a]];
      SpacedLast(words[..a], words[a]);
      PrefixShorter(words, a + 1, b);
    }
  }

  /** The first greedy part is at least as long as any first part that fits. */
  lemma {:induction false} FirstPartLongest(words: seq<string>, n: nat, a: nat, limit: int)
    requires 1 <= n <= a <= |words| && Fits(words[..a], limit)
    ensures FirstPart(words, n, limit) >= a
    decreases a - n
  {
    if n < a {
      assert words[..n + 1] == words[..n] + [words[n]];
      SpacedLast(words[..n], words[n]);
      PrefixShorter(words, n + 1, a);
      FirstPartLongest(words, n + 1, a, limit);
    }
  }

  /** The groups that remain when the first `n` words are taken away. */
  function Without(groups: seq<seq<string>>, n: nat): seq<seq<string>> {
    if groups == [] then []
    else if n < |groups[0]| then [groups[0][n..]] + groups[1..]
    else Without(groups[1..], n - |groups[0]|)
  }

  lemma {:induction false} SuffixShorter(words: seq<string>, n: nat)
    requires n < |words|
    ensures |Spaced(words[n..])| <= |Spaced(words)|
  {
    if n > 0 {
      SuffixShorter(words[1..], n - 1);
      assert words[1..][n - 1..] == words[n..];
    } else {
      assert words[0..] == words;
    }
  }

  lemma {:induction false} WithoutIsCut(groups: seq<seq<string>>, words: seq<string>, n: nat, limit: int)
    requires IsCut(groups, words) && AllFit(groups, limit) && n <= |words|
    ensures var rest := Without(groups, n);
            IsCut(rest, words[n..]) && AllFit(rest, limit) && |rest| <= |groups|
    decreases |groups|
  {
    if groups != [] {
      var first := groups[0];
      assert words == first + Flatten(groups[1..]);
      assert Fits(first, limit);
      if n < |first| {
        SuffixShorter(first, n);
        assert words[n..] == first[n..] + Flatten(groups[1..]);
        var rest := [first[n..]] + groups[1..];
        assert rest[1..] == groups[1..];
      } else {
        assert words[|first|..] == Flatten(groups[1..]);
        assert words[n..] == words[|first|..][n - |first|..];
        WithoutIsCut(groups[1..], words[|first|..], n - |first|, limit);
      }
    }
  }

  /** Greedy is optimal: no cut into parts that fit has fewer parts. */
  lemma {:induction false} PackIsOptimal(words: seq<string>, groups: seq<seq<string>>, limit: int)
    requires IsCut(groups, words) && AllFit(groups, limit)
    ensures |Pack(words, limit)| <= |groups|
    decreases |words|
  {
    if words != [] {
      var a := |groups[0]|;
      var n := FirstPart(words, 1, limit);
      assert words == groups[0] + Flatten(groups[1..]);
      assert words[..a] == groups[0] && words[a..] == Flatten(groups[1..]);
      FirstPartLongest(words, 1, a, limit);
      WithoutIsCut(groups[1..], words[a..], n - a, limit);
      assert words[a..][n - a..] == words[n..];
      PackIsOptimal(words[n..], Without(groups[1..], n - a), limit);
    }
  }

  /** Being a cut that fits and is blocked everywhere determines the packing. */
  lemma {:induction false} PackIsTheOnlyOne(words: seq<string>, groups: seq<seq<string>>, limit: int)
    requires IsCut(groups, words) && AllFit(groups, limit) && Blocked(groups, limit)
    ensures groups == Pack(words, limit)
    decreases |words|
  {
    if words == [] {
      if groups != [] {
        NonEmptyFlatten(groups);
      }
    } else {
      var a := |groups[0]|;
      var n := FirstPart(words, 1, limit);
      assert words == groups[0] + Flatten(groups[1..]);
      assert words[..a] == groups[0] && words[a..] == Flatten(groups[1..]);
      FirstPartLongest(words, 1, a, limit);
      if a < n {
        BlockedStops(words, groups, 1, limit);
      }
      var rest := groups[1..];
      assert groups == [groups[0]] + rest;
      forall k | 0 <= k < |rest| - 1 && rest[k + 1] != []
        ensures |Spaced(rest[k])| + 1 + |rest[k + 1][0]| > limit
      {
        assert rest[k] == groups[k + 1] && rest[k + 1] == groups[k + 2];
      }
      PackIsTheOnlyOne(words[a..], rest, limit);
    }
  }

  lemma NonEmptyFlatten(groups: seq<seq<string>>)
    requires groups != [] && groups[0] != []
    ensures Flatten(groups) != []
  {
  }

  lemma {:induction false} BlockedStops(words: seq<string>, groups: seq<seq<string>>, n: nat, limit: int)
    requires IsCut(groups, words) && words != [] && Blocked(groups, limit) && 1 <= n <= |groups[0]|
    ensures FirstPart(words, n, limit) <= |groups[0]|
    decreases |groups[0]| - n
  {
    var a := |groups[0]|;
    assert words == groups[0] + Flatten(groups[1..]);
    if n == a {
      assert words[..a] == groups[0];
      if a < |words| {
        assert groups[1..] != [];
        assert groups[1] != [] && words[a] == groups[1][0];
      }
    } else {
      BlockedStops(words, groups, n + 1, limit);
    }
  }

  // ---------------------------------------------------------- the merge pass

  /** The merge pass continued on `rest`, `last` being the rune count it remembers. */
  function MergeFrom(merged: seq<string>, last: nat, rest: seq<string>, limit: int, minSize: int): seq<string>
    decreases |rest|
  {
    if rest == [] then merged
    else
      var p := rest[0];
      if merged != [] && |p| < minSize && last + 1 + |p| <= limit
      then MergeFrom(merged[..|merged| - 1] + [merged[|merged| - 1] + " " + p], last + 1 + |p|, rest[1..],
                     limit, minSize)
      else MergeFrom(merged + [p], |p|, rest[1..], limit, minSize)
  }

  /** The merge loop, on any list of parts. */
  method MergeShortParts(rawParts: seq<string>, limit: int, minSize: int) returns (merged: seq<string>)
    ensures merged == MergeFrom([], 0, rawParts, limit, minSize)
  {
    merged := [];
    var lastPartRunes := 0;
    var i := 0;
    while i < |rawParts|
      invariant 0 <= i <= |rawParts| && lastPartRunes >= 0
      invariant MergeFrom(merged, lastPartRunes, rawParts[i..], limit, minSize)
                == MergeFrom([], 0, rawParts, limit, minSize)
    {
      var p := rawParts[i];
      var pRunes := |p|;
      assert rawParts[i..][1..] == rawParts[i + 1..];
      if |merged| > 0 && pRunes < minSize && lastPartRunes + 1 + pRunes <= limit {
        merged := merged[..|merged| - 1] + [merged[|merged| - 1] + " " + p];
        lastPartRunes := lastPartRunes + 1 + pRunes;
      } else {
        merged := merged + [p];
        lastPartRunes := pRunes;
      }
      i := i + 1;
    }
  }

  /** On parts that had no room for what follows them, the merge pass changes nothing. */
  lemma {:induction false} MergeFindsNothing(parts: seq<string>, i: nat, limit: int, minSize: int)
    requires i <= |parts|
    requires forall k :: 0 < k < |parts| ==> |parts[k - 1]| + 1 + |parts[k]| > limit
    ensures MergeFrom(parts[..i], if i == 0 then 0 else |parts[i - 1]|, parts[i..], limit, minSize) == parts
    decreases |parts| - i
  {
    if i == |parts| {
      assert parts[..i] == parts;
    } else {
      MergeFindsNothing(parts, i + 1, limit, minSize);
      assert parts[..i] + [parts[i]] == parts[..i + 1];
      assert parts[i..][1..] == parts[i + 1..];
    }
  }

  lemma FirstWordWithin(group: seq<string>)
    requires group != []
    ensures |group[0]| <= |Spaced(group)|
  {
  }

  /** The merge pass refines the greedy pass to the identity, for every limit and
      every minimum size. */
  lemma MergeIsIdentity(words: seq<string>, limit: int, minSize: int)
    ensures var raw := SpacedAll(Pack(words, limit)); MergeFrom([], 0, raw, limit, minSize) == raw
  {
    var groups := Pack(words, limit);
    var raw := SpacedAll(groups);
    PackIsTightCut(words, limit);
    forall k | 0 < k < |raw| ensures |raw[k - 1]| + 1 + |raw[k]| > limit {
      FirstWordWithin(groups[k]);
      assert groups[(k - 1) + 1] != [];
    }
    MergeFindsNothing(raw, 0, limit, minSize);
    assert raw[..0] == [] && raw[0..] == raw;
  }

  // ---------------------------------------------------------- the code itself

  /** The words before `i` are packed: `done` is final, the words from `start` are in
      the part being built. */
  ghost predicate Packing(words: seq<string>, done: seq<seq<string>>, start: nat, i: nat, limit: int) {
    && start <= i <= |words| && (start < i <==> i > 0)
    && Pack(words, limit) == done + Pack(words[start..], limit)
    && (i > 0 ==> FirstPart(words[start..], i - start, limit) == FirstPart(words[start..], 1, limit))
  }

  lemma TakeWord(words: seq<string>, done: seq<seq<string>>, start: nat, i: nat, limit: int)
    requires Packing(words, done, start, i, limit) && i < |words|
    requires i > 0 ==> |Spaced(words[start..i])| + 1 + |words[i]| <= limit
    ensures Packing(words, done, start, i + 1, limit)
    ensures Spaced(words[start..i + 1]) == if i == 0 then words[i] else Spaced(words[start..i]) + " " + words[i]
  {
    assert words[start..][..i - start] == words[start..i];
    assert words[start..i + 1] == words[start..i] + [words[i]];
    if i > 0 {
      SpacedLast(words[start..i], words[i]);
    }
  }

  lemma ClosePart(words: seq<string>, done: seq<seq<string>>, start: nat, i: nat, limit: int)
    requires Packing(words, done, start, i, limit) && i > 0
    requires i < |words| ==> |Spaced(words[start..i])| + 1 + |words[i]| > limit
    ensures Pack(words, limit) == done + [words[start..i]] + Pack(words[i..], limit)
    ensures i < |words| ==> Packing(words, done + [words[start..i]], i, i + 1, limit)
  {
    var rest := words[start..];
    assert rest[..i - start] == words[start..i] && rest[i - start..] == words[i..];
  }

  /** The greedy loop over the words. */
  method PackWords(words: seq<string>, limit: int) returns (rawParts: seq<string>)
    requires AllWords(words)
    ensures rawParts == SpacedAll(Pack(words, limit))
  {
    hide Pack, FirstPart;
    rawParts := [];
    var current := "";
    var currentRunes := 0;
    ghost var done: seq<seq<string>> := [];
    ghost var start := 0;
    var i := 0;
    while i < |words|
      invariant Packing(words, done, start, i, limit) && rawParts == SpacedAll(done)
      invariant current == Spaced(words[start..i]) && currentRunes == |current|
      invariant currentRunes == 0 <==> i == 0
    {
      var word := words[i];
      var wordRunes := |word|;
      assert IsWord(word);
      if currentRunes == 0 {
        TakeWord(words, done, start, i, limit);
        current := current + word;
        currentRunes := wordRunes;
      } else if currentRunes + 1 + wordRunes <= limit {
        TakeWord(words, done, start, i, limit);
        current := current + " " + word;
        currentRunes := currentRunes + 1 + wordRunes;
      } else {
        ClosePart(words, done, start, i, limit);
        rawParts := rawParts + [current];
        current := word;
        currentRunes := wordRunes;
        done, start := done + [words[start..i]], i;
        assert words[i..i + 1] == [word];
      }
      i := i + 1;
    }
    PackNothing(limit);
    assert words[i..] == [];
    if currentRunes > 0 {
      ClosePart(words, done, start, i, limit);
      rawParts := rawParts + [current];
    } else {
      assert words[start..] == [];
    }
  }

  lemma PackNothing(limit: int)
    ensures Pack([], limit) == []
  {
  }

  /** `segmentContent`: the content itself when segmentation is off, its limit is not
      positive or there is no word, and otherwise the greedy packing. */
  method SegmentContent(content: string, cfg: BotConfig) returns (parts: seq<string>)
    ensures parts == Segments(content, cfg)
    ensures !cfg.segmentationEnabled || cfg.segmentationLimit <= 0 || Fields(content) == [] ==> parts == [content]
    ensures cfg.segmentationEnabled && cfg.segmentationLimit > 0 && Fields(content) != [] ==>
              parts == SpacedAll(Pack(Fields(content), cfg.segmentationLimit))
  {
    if !cfg.segmentationEnabled || cfg.segmentationLimit <= 0 {
      return [content];
    }
    var limit := cfg.segmentationLimit;
    var words := Fields(content);
    if |words| == 0 {
      return [content];
    }
    FieldsAreWords(content);
    var rawParts := PackWords(words, limit);
    if cfg.segmentationMinSize <= 0 || |rawParts| <= 1 {
      return rawParts;
    }
    parts := MergeShortParts(rawParts, limit, cfg.segmentationMinSize);
    MergeIsIdentity(words, limit, cfg.segmentationMinSize);
  }

  // ------------------------------------------------------------ consequences

  predicate Segmenting(cfg: BotConfig) {
    cfg.segmentationEnabled && cfg.segmentationLimit > 0
  }

  function WordsOfParts(parts: seq<string>): seq<string> {
    if parts == [] then [] else Fields(parts[0]) + WordsOfParts(parts[1..])
  }

  lemma {:induction false} WordsOfGroups(groups: seq<seq<string>>)
    requires forall k :: 0 <= k < |groups| ==> AllWords(groups[k])
    ensures WordsOfParts(SpacedAll(groups)) == Flatten(groups)
  {
    if groups != [] {
      FieldsOfSpaced(groups[0]);
      WordsOfGroups(groups[1..]);
      assert SpacedAll(groups)[1..] == SpacedAll(groups[1..]);
    }
  }

  lemma {:induction false} GroupsOfWords(groups: seq<seq<string>>, words: seq<string>)
    requires Flatten(groups) == words && AllWords(words)
    ensures forall k :: 0 <= k < |groups| ==> AllWords(groups[k])
  {
    if groups != [] {
      var rest := Flatten(groups[1..]);
      forall i | 0 <= i < |groups[0]| ensures IsWord(groups[0][i]) {
        assert words[i] == groups[0][i];
      }
      forall i | 0 <= i < |rest| ensures IsWord(rest[i]) {
        assert words[|groups[0]| + i] == rest[i];
      }
      GroupsOfWords(groups[1..], rest);
    }
  }

  /** The words of the parts, in order, are exactly the words of the content. */
  lemma SegmentsLossless(content: string, cfg: BotConfig)
    ensures WordsOfParts(Segments(content, cfg)) == Fields(content)
  {
    var parts := Segments(content, cfg);
    if parts == [content] {
      assert WordsOfParts(parts[1..]) == [];
    } else {
      var groups := Pack(Fields(content), cfg.segmentationLimit);
      FieldsAreWords(content);
      PackIsTightCut(Fields(content), cfg.segmentationLimit);
      GroupsOfWords(groups, Fields(content));
      WordsOfGroups(groups);
    }
  }

  /** Every part is within the limit or a single over-long word, and no part of several
      is empty. */
  lemma SegmentsBounded(content: string, cfg: BotConfig, k: nat)
    requires Segmenting(cfg) && Fields(content) != [] && k < |Segments(content, cfg)|
    ensures var part := Segments(content, cfg)[k];
            (|part| <= cfg.segmentationLimit || Fields(part) == [part]) && part != ""
  {
    var words := Fields(content);
    var groups := Pack(words, cfg.segmentationLimit);
    FieldsAreWords(content);
    PackIsTightCut(words, cfg.segmentationLimit);
    GroupsOfWords(groups, words);
    var g := groups[k];
    assert AllWords(g) && Fits(g, cfg.segmentationLimit);
    FirstWordWithin(g);
    assert IsWord(g[0]);
    if |g| == 1 {
      FieldsOfSpaced(g);
    }
  }

  /** Segmentation never makes more parts than any cut of the words that fits. */
  lemma SegmentsOptimal(content: string, cfg: BotConfig, groups: seq<seq<string>>)
    requires Segmenting(cfg) && Fields(content) != []
    requires IsCut(groups, Fields(content)) && AllFit(groups, cfg.segmentationLimit)
    ensures |Segments(content, cfg)| <= |groups|
  {
    PackIsOptimal(Fields(content), groups, cfg.segmentationLimit);
  }

  lemma {:induction false} SpacedOfGroups(groups: seq<seq<string>>)
    requires forall k :: 0 <= k < |groups| ==> groups[k] != []
    ensures Spaced(SpacedAll(groups)) == Spaced(Flatten(groups))
  {
    if |groups| == 1 {
      assert Flatten(groups) == groups[0] + Flatten(groups[1..]) == groups[0];
    } else if |groups| > 1 {
      SpacedOfGroups(groups[1..]);
      assert SpacedAll(groups)[1..] == SpacedAll(groups[1..]);
      assert Flatten(groups[1..]) == groups[1] + Flatten(groups[2..]) by { assert groups[1..][1..] == groups[2..]; }
      SpacedConcat(groups[0], Flatten(groups[1..]));
    }
  }

  /** Segmenting the space-joined parts again returns the same parts. */
  lemma SegmentsStable(content: string, cfg: BotConfig)
    ensures Segments(Spaced(Segments(content, cfg)), cfg) == Segments(content, cfg)
  {
    var parts := Segments(content, cfg);
    if parts != [content] {
      var words := Fields(content);
      var groups := Pack(words, cfg.segmentationLimit);
      FieldsAreWords(content);
      PackIsTightCut(words, cfg.segmentationLimit);
      SpacedOfGroups(groups);
      FieldsOfSpaced(words);
    }
  }
}
