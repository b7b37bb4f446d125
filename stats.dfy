/** The five basic statistics of `calculateBasicStats`: each `match(/…/g)`
    over a one-character class counts the UTF-16 code units in that class, and
    the word count is the length of `text.trim().split(/\s+/)`. */
module Stats {
  import opened Text
  import opened Scanning

  datatype BasicStats = BasicStats(letters: nat, words: nat, spaces: nat, newlines: nat, symbols: nat)

  /** `(s.match(/p/g) || []).length` for a one-character class `p`: a regular
      expression without the `u` flag matches code units, so a character
      outside the Basic Multilingual Plane in the class counts twice (only
      `[^\w\s]` holds such characters). */
  function CountWhere(s: string, p: char -> bool): (r: nat)
    ensures r <= Utf16Length(s)
  {
    if s == [] then 0 else (if p(s[0]) then CodeUnits(s[0]) else 0) + CountWhere(s[1..], p)
  }

  /** `s.split(/\s+/)`: the stretches between maximal runs of whitespace; a
      leading or trailing run yields an empty piece, and the empty string
      yields `[""]`. */
  function Split(s: string): (r: seq<string>)
    ensures |r| >= 1
  {
    Gaps(s, IsSpace)
  }

  /** `text.trim().split(/\s+/).length` */
  function WordCount(text: string): (r: nat)
    ensures r >= 1
  {
    |Split(Trim(text))|
  }

  /** `calculateBasicStats` as a record: at least one word, and no class
      count exceeds the text's length. */
  function Compute(text: string): (r: BasicStats)
    ensures r.words >= 1
    ensures r.letters <= Utf16Length(text) && r.spaces <= Utf16Length(text)
    ensures r.newlines <= Utf16Length(text) && r.symbols <= Utf16Length(text)
  {
    BasicStats(
      letters := CountWhere(text, IsAsciiLetter),
      words := WordCount(text),
      spaces := CountWhere(text, IsSpace),
      newlines := CountWhere(text, IsNewline),
      symbols := CountWhere(text, IsSymbol))
  }

  /** The pieces of the split and the whitespace runs between them give back
      the string: every piece is free of whitespace, every piece strictly
      inside is non-empty, and the runs are the maximal runs of whitespace. */
  lemma SplitRoundTrip(s: string)
    ensures IsSplitting(s, Split(s), Tokens(s, IsSpace), IsSpace)
    ensures |Split(s)| == |Tokens(s, IsSpace)| + 1
  {
    TokensSplitText(s, IsSpace);
  }

  /** The word count is the number of whitespace runs inside the trimmed text
      plus one, hence 1 for text that is all whitespace. */
  lemma WordCountIsRunsPlusOne(text: string)
    ensures WordCount(text) == |Tokens(Trim(text), IsSpace)| + 1
    ensures (forall i :: 0 <= i < |text| ==> IsSpace(text[i])) ==> WordCount(text) == 1
  {
    SplitRoundTrip(Trim(text));
    if forall i :: 0 <= i < |text| ==> IsSpace(text[i]) {
      assert Trim(text) == [];
    }
  }

  /** Unless the text is all whitespace, every counted word is non-empty and
      free of whitespace, and the words with the whitespace runs between them
      give back the trimmed text. */
  lemma WordsOfTrimmed(text: string)
    requires Trim(text) != []
    ensures WordCount(text) == |Tokens(Trim(text), IsSpace)| + 1
    ensures Interleave(Split(Trim(text)), Tokens(Trim(text), IsSpace)) == Trim(text)
    ensures forall k :: 0 <= k < WordCount(text) ==> Split(Trim(text))[k] != []
    ensures forall k, i :: 0 <= k < WordCount(text) && 0 <= i < |Split(Trim(text))[k]| ==>
              !IsSpace(Split(Trim(text))[k][i])
  {
    SplitRoundTrip(Trim(text));
    GapsNonEmpty(Trim(text), Split(Trim(text)), Tokens(Trim(text), IsSpace), IsSpace);
  }

  lemma {:induction false} NewlinesAreSpaces(s: string)
    ensures CountWhere(s, IsNewline) <= CountWhere(s, IsSpace)
  {
    if s != [] {
      NewlinesAreSpaces(s[1..]);
    }
  }

  /** Letters, whitespace and symbols are disjoint classes. */
  lemma {:induction false} ClassesDisjoint(s: string)
    ensures CountWhere(s, IsAsciiLetter) + CountWhere(s, IsSpace) + CountWhere(s, IsSymbol) <= Utf16Length(s)
  {
    if s != [] {
      ClassesDisjoint(s[1..]);
    }
  }

  /** The letter count does not depend on case. */
  lemma {:induction false} LettersIgnoreCase(s: string)
    ensures CountWhere(Lower(s), IsAsciiLetter) == CountWhere(s, IsAsciiLetter)
  {
    if s != [] {
      assert Lower(s)[1..] == Lower(s[1..]);
      LettersIgnoreCase(s[1..]);
    }
  }

  lemma StatsBounds(text: string)
    ensures Compute(text).newlines <= Compute(text).spaces
    ensures Compute(text).letters + Compute(text).spaces + Compute(text).symbols <= Utf16Length(text)
    ensures Compute(text).words == |Tokens(Trim(text), IsSpace)| + 1
  {
    NewlinesAreSpaces(text);
    ClassesDisjoint(text);
    WordCountIsRunsPlusOne(text);
  }
}
