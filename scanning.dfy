/** Scanning a string into the maximal runs of a character class and the
    stretches between them. `match(/\b\w+\b/g)` keeps the runs of `\w`;
    `split(/\s+/)` keeps the stretches between the runs of `\s`. */
module Scanning {
  import opened Text

  /** The maximal runs of `word` characters of `s`, left to right: skip the
      other characters, take the whole run of `word` characters that follows,
      repeat. */
  function Tokens(s: string, word: char -> bool): (r: seq<string>)
    ensures |r| <= |s|
    decreases |s|
  {
    var g := Run(s, word, false);
    if g == |s| then []
    else
      var rest := s[g..];
      var n := Run(rest, word, true);
      [rest[..n]] + Tokens(rest[n..], word)
  }

  /** The stretches of other characters around the tokens: before the first
      token, between consecutive tokens, and after the last one. */
  function Gaps(s: string, word: char -> bool): seq<string>
    decreases |s|
  {
    var g := Run(s, word, false);
    if g == |s| then [s]
    else
      var rest := s[g..];
      var n := Run(rest, word, true);
      [s[..g]] + Gaps(rest[n..], word)
  }

  /** `gs[0] + ts[0] + gs[1] + ts[1] + … + gs[|ts|]` */
  function Interleave(gs: seq<string>, ts: seq<string>): string
    requires |gs| == |ts| + 1
  {
    if ts == [] then gs[0] else gs[0] + ts[0] + Interleave(gs[1..], ts[1..])
  }

  /** `s` is written as tokens separated by gaps: every gap holds no `word`
      character, every gap strictly between two tokens is non-empty, and every
      token is a non-empty run of `word` characters. This makes each token a
      maximal run. */
  ghost predicate IsSplitting(s: string, gs: seq<string>, ts: seq<string>, word: char -> bool) {
    && |gs| == |ts| + 1
    && s == Interleave(gs, ts)
    && (forall k, i :: 0 <= k < |gs| && 0 <= i < |gs[k]| ==> !word(gs[k][i]))
    && (forall k :: 0 < k < |ts| ==> gs[k] != [])
    && (forall k :: 0 <= k < |ts| ==> ts[k] != [])
    && (forall k, i :: 0 <= k < |ts| && 0 <= i < |ts[k]| ==> word(ts[k][i]))
  }

  lemma SplittingCons(g: string, t: string, rest: string, gs: seq<string>, ts: seq<string>, word: char -> bool)
    requires IsSplitting(rest, gs, ts, word)
    requires forall i :: 0 <= i < |g| ==> !word(g[i])
    requires t != [] && forall i :: 0 <= i < |t| ==> word(t[i])
    requires ts != [] ==> gs[0] != []
    ensures IsSplitting(g + (t + rest), [g] + gs, [t] + ts, word)
  {
  }

  /** One step of the scan: the leading gap, the first token and what follows. */
  lemma TokensStep(s: string, word: char -> bool) returns (gap: string, token: string, tail: string)
    requires Run(s, word, false) < |s|
    ensures s == gap + (token + tail) && |tail| < |s|
    ensures forall i :: 0 <= i < |gap| ==> !word(gap[i])
    ensures token != [] && forall i :: 0 <= i < |token| ==> word(token[i])
    ensures tail == [] || !word(tail[0])
  {
    var g := Run(s, word, false);
    var rest := s[g..];
    var n := Run(rest, word, true);
    gap, token, tail := s[..g], rest[..n], rest[n..];
    assert s == gap + (token + tail);
  }

  /** A gap followed by a maximal run of `word` characters: the gap is the first gap. */
  lemma GapsCons(g: string, t: string, tail: string, word: char -> bool)
    requires forall i :: 0 <= i < |g| ==> !word(g[i])
    requires t != [] && forall i :: 0 <= i < |t| ==> word(t[i])
    requires tail == [] || !word(tail[0])
    ensures Gaps(g + (t + tail), word) == [g] + Gaps(tail, word)
  {
    var s := g + (t + tail);
    RunIs(s, word, false, g, t + tail);
    assert s[..|g|] == g && s[|g|..] == t + tail;
    RunIs(t + tail, word, true, t, tail);
    assert (t + tail)[|t|..] == tail;
  }

  /** A string that starts outside the class starts with a non-empty gap. */
  lemma FirstGapNonEmpty(s: string, word: char -> bool)
    requires s != [] && !word(s[0])
    ensures Gaps(s, word)[0] != []
  {
  }

  /** The tokens and the gaps between them give back the whole text. */
  lemma {:induction false} TokensSplitText(s: string, word: char -> bool)
    ensures IsSplitting(s, Gaps(s, word), Tokens(s, word), word)
    decreases |s|
  {
    if Run(s, word, false) < |s| {
      var gap, token, tail := TokensStep(s, word);
      TokensCons(gap, token, tail, word);
      GapsCons(gap, token, tail, word);
      TokensSplitText(tail, word);
      if tail != [] {
        FirstGapNonEmpty(tail, word);
      }
      SplittingCons(gap, token, tail, Gaps(tail, word), Tokens(tail, word), word);
    }
  }

  lemma RunIs(s: string, p: char -> bool, inside: bool, a: string, b: string)
    requires s == a + b
    requires forall i :: 0 <= i < |a| ==> p(a[i]) == inside
    requires b == [] || p(b[0]) != inside
    ensures Run(s, p, inside) == |a|
  {
    assert |a| < |s| ==> s[|a|] == b[0];
  }

  /** The first gap and token of a splitting, and the splitting of the rest. */
  lemma SplittingHead(s: string, gs: seq<string>, ts: seq<string>, word: char -> bool) returns (tail: string)
    requires IsSplitting(s, gs, ts, word) && ts != []
    ensures s == gs[0] + (ts[0] + tail)
    ensures IsSplitting(tail, gs[1..], ts[1..], word)
    ensures forall i :: 0 <= i < |gs[0]| ==> !word(gs[0][i])
    ensures ts[0] != [] && forall i :: 0 <= i < |ts[0]| ==> word(ts[0][i])
    ensures tail == [] || !word(tail[0])
  {
    tail := Interleave(gs[1..], ts[1..]);
    if |ts| > 1 {
      assert gs[1] != [] && tail[0] == gs[1][0];
    } else {
      assert tail == gs[1];
    }
    forall k, i | 0 <= k < |gs| - 1 && 0 <= i < |gs[1..][k]| ensures !word(gs[1..][k][i]) {
      assert gs[1..][k] == gs[k + 1];
    }
  }

  /** A gap followed by a maximal run of `word` characters: the run is the first token. */
  lemma TokensCons(g: string, t: string, tail: string, word: char -> bool)
    requires forall i :: 0 <= i < |g| ==> !word(g[i])
    requires t != [] && forall i :: 0 <= i < |t| ==> word(t[i])
    requires tail == [] || !word(tail[0])
    ensures Tokens(g + (t + tail), word) == [t] + Tokens(tail, word)
  {
    var s := g + (t + tail);
    RunIs(s, word, false, g, t + tail);
    assert s[|g|..] == t + tail;
    RunIs(t + tail, word, true, t, tail);
    assert (t + tail)[|t|..] == tail;
  }

  /** Any splitting of `s` into gaps and maximal runs is the one `Tokens` finds. */
  lemma {:induction false} TokensUnique(s: string, gs: seq<string>, ts: seq<string>, word: char -> bool)
    requires IsSplitting(s, gs, ts, word)
    ensures Tokens(s, word) == ts
    decreases |ts|
  {
    if ts == [] {
      RunIs(s, word, false, s, []);
    } else {
      var tail := SplittingHead(s, gs, ts, word);
      TokensCons(gs[0], ts[0], tail, word);
      TokensUnique(tail, gs[1..], ts[1..], word);
    }
  }

  /** With at least one token, `Interleave` ends with the last token and the
      last gap. */
  lemma {:induction false} InterleaveEnds(gs: seq<string>, ts: seq<string>) returns (front: string)
    requires |gs| == |ts| + 1 && ts != []
    ensures Interleave(gs, ts) == front + ts[|ts| - 1] + gs[|ts|]
    decreases |ts|
  {
    if |ts| == 1 {
      front := gs[0];
    } else {
      var inner := InterleaveEnds(gs[1..], ts[1..]);
      front := gs[0] + ts[0] + inner;
      assert ts[1..][|ts| - 2] == ts[|ts| - 1] && gs[1..][|ts| - 1] == gs[|ts|];
    }
  }

  /** A non-empty string that neither starts nor ends with a `word` character
      has only non-empty gaps. */
  lemma GapsNonEmpty(s: string, gs: seq<string>, ts: seq<string>, word: char -> bool)
    requires IsSplitting(s, gs, ts, word)
    requires s != [] && !word(s[0]) && !word(s[|s| - 1])
    ensures forall k :: 0 <= k < |gs| ==> gs[k] != []
  {
    if ts != [] {
      var rest := Interleave(gs[1..], ts[1..]);
      assert s == (gs[0] + ts[0]) + rest;
      assert s[0] == (gs[0] + ts[0])[0];
      var front := InterleaveEnds(gs, ts);
      var last, end := ts[|ts| - 1], gs[|ts|];
      assert s == front + (last + end);
      assert s[|s| - 1] == (last + end)[|last + end| - 1];
    }
  }
}
