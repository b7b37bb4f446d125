/** The tokenizer shared by the three category counters:
    `text.toLowerCase().match(/\b\w+\b/g) || []`, i.e. the maximal runs of word
    characters of the lower-cased text, in order. */
module Tokenizer {
  import opened Text
  import opened Scanning

  /** `text.toLowerCase().match(/\b\w+\b/g) || []` */
  function Tokenize(text: string): (r: seq<string>)
    ensures |r| <= |text|
  {
    Tokens(Lower(text), IsWordChar)
  }

  function MapLower(ts: seq<string>): (r: seq<string>)
    ensures |r| == |ts| && forall k :: 0 <= k < |ts| ==> r[k] == Lower(ts[k])
  {
    seq(|ts|, k requires 0 <= k < |ts| => Lower(ts[k]))
  }

  lemma LowerConcat(a: string, b: string)
    ensures Lower(a + b) == Lower(a) + Lower(b)
  {
  }

  lemma {:induction false} LowerInterleave(gs: seq<string>, ts: seq<string>)
    requires |gs| == |ts| + 1
    ensures Lower(Interleave(gs, ts)) == Interleave(MapLower(gs), MapLower(ts))
    decreases |ts|
  {
    if ts != [] {
      assert MapLower(gs)[1..] == MapLower(gs[1..]) && MapLower(ts)[1..] == MapLower(ts[1..]);
      LowerInterleave(gs[1..], ts[1..]);
      LowerConcat(gs[0] + ts[0], Interleave(gs[1..], ts[1..]));
      LowerConcat(gs[0], ts[0]);
    }
  }

  /** Lower-casing keeps every character's class, so it maps a splitting to a splitting. */
  lemma LowerSplitting(s: string, gs: seq<string>, ts: seq<string>)
    requires IsSplitting(s, gs, ts, IsWordChar)
    ensures IsSplitting(Lower(s), MapLower(gs), MapLower(ts), IsWordChar)
  {
    LowerInterleave(gs, ts);
  }

  /** Lower-casing the text before tokenizing lower-cases each token and changes
      nothing else: matching is case-insensitive. */
  lemma TokenizeIgnoresCase(s: string)
    ensures Tokenize(s) == MapLower(Tokens(s, IsWordChar))
  {
    TokensSplitText(s, IsWordChar);
    LowerSplitting(s, Gaps(s, IsWordChar), Tokens(s, IsWordChar));
    TokensUnique(Lower(s), MapLower(Gaps(s, IsWordChar)), MapLower(Tokens(s, IsWordChar)), IsWordChar);
  }

  /** The tokens are the maximal runs of word characters of the lower-cased
      text, with non-empty separator stretches between them, and every token
      is a non-empty run of lower-case word characters `[a-z0-9_]`. */
  lemma TokensAreLowerWords(text: string)
    ensures IsSplitting(Lower(text), Gaps(Lower(text), IsWordChar), Tokenize(text), IsWordChar)
    ensures forall k :: 0 <= k < |Tokenize(text)| ==> Tokenize(text)[k] != []
    ensures forall k, i :: 0 <= k < |Tokenize(text)| && 0 <= i < |Tokenize(text)[k]| ==>
              IsWordChar(Tokenize(text)[k][i]) && !IsAsciiUpper(Tokenize(text)[k][i])
  {
    TokensSplitText(text, IsWordChar);
    TokensSplitText(Lower(text), IsWordChar);
    TokenizeIgnoresCase(text);
  }
}
