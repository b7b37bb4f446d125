/** The frequency table each category counter builds: for every token that
    belongs to the category's word list, `counts[word] = (counts[word] || 0) + 1`.
    The table is a JavaScript object, so besides the counts it remembers the
    order in which its keys were first assigned; `Object.entries` lists the
    entries in that order. */
module Frequency {

  datatype Entry = Entry(word: string, count: nat)

  /** Number of occurrences of `w` in `words`. */
  function Occurrences(words: seq<string>, w: string): (r: nat)
    ensures r <= |words|
    ensures r > 0 <==> w in words
  {
    if words == [] then 0
    else Occurrences(words[..|words| - 1], w) + (if words[|words| - 1] == w then 1 else 0)
  }

  /** The tokens that belong to the word list (`list.includes(word)`), in order. */
  function Matches(words: seq<string>, list: seq<string>): (r: seq<string>)
    ensures |r| <= |words|
    ensures forall w :: w in r <==> w in words && w in list
  {
    if words == [] then []
    else
      var last := words[|words| - 1];
      Matches(words[..|words| - 1], list) + (if last in list then [last] else [])
  }

  /** Index of the first occurrence of `w` in `words`, or `|words|` when there is none. */
  function FirstIndex(words: seq<string>, w: string): (r: nat)
    ensures r <= |words|
    ensures r < |words| <==> w in words
    ensures r < |words| ==> words[r] == w
    ensures forall j :: 0 <= j < r ==> words[j] != w
  {
    if words == [] then 0
    else if w in words[..|words| - 1] then FirstIndex(words[..|words| - 1], w)
    else if words[|words| - 1] == w then |words| - 1
    else |words|
  }

  ghost predicate Distinct(ws: seq<string>) {
    forall i, j :: 0 <= i < j < |ws| ==> ws[i] != ws[j]
  }

  /** The keys of the table in the order they were first assigned: the distinct
      listed words of `words`, in order of first occurrence. */
  function FirstSeen(words: seq<string>, list: seq<string>): (r: seq<string>)
    ensures Distinct(r)
    ensures forall w :: w in r <==> w in words && w in list
  {
    if words == [] then []
    else
      var seen := FirstSeen(words[..|words| - 1], list);
      var last := words[|words| - 1];
      if last in list && last !in seen then seen + [last] else seen
  }

  /** `Object.entries` of the finished table. */
  function Tally(words: seq<string>, list: seq<string>): (r: seq<Entry>)
    ensures |r| == |FirstSeen(words, list)|
    ensures forall k :: 0 <= k < |r| ==> r[k].word == FirstSeen(words, list)[k]
  {
    var keys := FirstSeen(words, list);
    seq(|keys|, k requires 0 <= k < |keys| => Entry(keys[k], Occurrences(words, keys[k])))
  }

  /** Every key is a listed word that occurs in the text, with its number of
      occurrences (so at least 1) as count; keys are distinct; and the table is
      empty exactly when no token is in the list. */
  lemma TallyEntries(words: seq<string>, list: seq<string>)
    ensures forall k :: 0 <= k < |Tally(words, list)| ==>
              && Tally(words, list)[k].word in list
              && Tally(words, list)[k].word in words
              && 1 <= Tally(words, list)[k].count == Occurrences(words, Tally(words, list)[k].word)
    ensures forall k, l :: 0 <= k < l < |Tally(words, list)| ==> Tally(words, list)[k].word != Tally(words, list)[l].word
    ensures Tally(words, list) == [] <==> Matches(words, list) == []
  {
  }

  /** A word occurring in the text and in the list has an entry in the table. */
  lemma TallyComplete(words: seq<string>, list: seq<string>, w: string)
    requires w in words && w in list
    ensures exists k :: 0 <= k < |Tally(words, list)| && Tally(words, list)[k] == Entry(w, Occurrences(words, w))
  {
    var keys := FirstSeen(words, list);
    var k :| 0 <= k < |keys| && keys[k] == w;
    assert Tally(words, list)[k] == Entry(w, Occurrences(words, w));
  }

  lemma FirstIndexOfPrefix(words: seq<string>, w: string)
    requires words != [] && w in words[..|words| - 1]
    ensures FirstIndex(words, w) == FirstIndex(words[..|words| - 1], w)
  {
  }

  /** Table entries appear in order of the first occurrence of their word. */
  lemma {:induction false} FirstSeenInTextOrder(words: seq<string>, list: seq<string>)
    ensures forall i, j :: 0 <= i < j < |FirstSeen(words, list)| ==>
              FirstIndex(words, FirstSeen(words, list)[i]) < FirstIndex(words, FirstSeen(words, list)[j])
  {
    if words != [] {
      var prefix := words[..|words| - 1];
      FirstSeenInTextOrder(prefix, list);
      var seen := FirstSeen(prefix, list);
      forall i | 0 <= i < |seen| ensures FirstIndex(words, seen[i]) == FirstIndex(prefix, seen[i]) < |prefix| {
        FirstIndexOfPrefix(words, seen[i]);
      }
    }
  }

  lemma TallyInTextOrder(words: seq<string>, list: seq<string>)
    ensures forall i, j :: 0 <= i < j < |Tally(words, list)| ==>
              FirstIndex(words, Tally(words, list)[i].word) < FirstIndex(words, Tally(words, list)[j].word)
  {
    FirstSeenInTextOrder(words, list);
  }

  function SumCounts(es: seq<Entry>): nat {
    if es == [] then 0 else SumCounts(es[..|es| - 1]) + es[|es| - 1].count
  }

  /** Sum over the keys `ks` of their occurrence counts. */
  function SumOccurrences(words: seq<string>, ks: seq<string>): nat {
    if ks == [] then 0 else SumOccurrences(words, ks[..|ks| - 1]) + Occurrences(words, ks[|ks| - 1])
  }

  lemma {:induction false} SumOccurrencesStep(words: seq<string>, w: string, ks: seq<string>)
    requires Distinct(ks)
    ensures SumOccurrences(words + [w], ks) == SumOccurrences(words, ks) + (if w in ks then 1 else 0)
  {
    if ks != [] {
      var init := ks[..|ks| - 1];
      SumOccurrencesStep(words, w, init);
      assert (words + [w])[..|words + [w]| - 1] == words;
      assert w in ks <==> w in init || w == ks[|ks| - 1];
    }
  }

  lemma {:induction false} SumOccurrencesOfFirstSeen(words: seq<string>, list: seq<string>)
    ensures SumOccurrences(words, FirstSeen(words, list)) == |Matches(words, list)|
  {
    if words != [] {
      var prefix, last := words[..|words| - 1], words[|words| - 1];
      assert words == prefix + [last];
      SumOccurrencesOfFirstSeen(prefix, list);
      var seen := FirstSeen(prefix, list);
      if last in list && last !in seen {
        SumOccurrencesStep(prefix, last, seen + [last]);
        assert (seen + [last])[..|seen|] == seen;
      } else {
        SumOccurrencesStep(prefix, last, seen);
      }
    }
  }

  lemma {:induction false} SumCountsOfEntries(words: seq<string>, ks: seq<string>)
    ensures SumCounts(seq(|ks|, k requires 0 <= k < |ks| => Entry(ks[k], Occurrences(words, ks[k]))))
         == SumOccurrences(words, ks)
  {
    if ks != [] {
      var init := ks[..|ks| - 1];
      SumCountsOfEntries(words, init);
      var es := seq(|ks|, k requires 0 <= k < |ks| => Entry(ks[k], Occurrences(words, ks[k])));
      assert es[..|es| - 1] == seq(|init|, k requires 0 <= k < |init| => Entry(init[k], Occurrences(words, init[k])));
    }
  }

  /** The counts of the table add up to the number of tokens that are in the list. */
  lemma TallySum(words: seq<string>, list: seq<string>)
    ensures SumCounts(Tally(words, list)) == |Matches(words, list)|
  {
    SumCountsOfEntries(words, FirstSeen(words, list));
    SumOccurrencesOfFirstSeen(words, list);
  }

  lemma {:induction false} DistinctWithin(ws: seq<string>, s: set<string>)
    requires Distinct(ws)
    requires forall i :: 0 <= i < |ws| ==> ws[i] in s
    ensures |ws| <= |s|
  {
    if ws != [] {
      DistinctWithin(ws[1..], s - {ws[0]});
    }
  }

  lemma {:induction false} ElementsOfSeq(list: seq<string>)
    ensures |set w | w in list| <= |list|
  {
    if list != [] {
      ElementsOfSeq(list[1..]);
      assert (set w | w in list) == (set w | w in list[1..]) + {list[0]};
    }
  }

  /** The table has at most one entry per word of the list. */
  lemma TallyBound(words: seq<string>, list: seq<string>)
    ensures |Tally(words, list)| <= |list|
  {
    DistinctWithin(FirstSeen(words, list), set w | w in list);
    ElementsOfSeq(list);
  }

  lemma CountStep(words: seq<string>, i: nat, list: seq<string>)
    requires i < |words|
    ensures FirstSeen(words[..i + 1], list) ==
      if words[i] in list && words[i] !in FirstSeen(words[..i], list)
      then FirstSeen(words[..i], list) + [words[i]]
      else FirstSeen(words[..i], list)
    ensures forall w :: Occurrences(words[..i + 1], w) == Occurrences(words[..i], w) + (if words[i] == w then 1 else 0)
  {
    assert words[..i + 1][..i] == words[..i];
  }

  /** The loop of the counter: each listed token bumps its count, and a token
      counted for the first time becomes the table's newest key. */
  method CountMatches(words: seq<string>, list: seq<string>) returns (entries: seq<Entry>)
    ensures entries == Tally(words, list)
  {
    var counts: map<string, nat> := map[];
    var keys: seq<string> := [];
    for i := 0 to |words|
      invariant keys == FirstSeen(words[..i], list)
      invariant forall w :: w in counts <==> w in keys
      invariant forall w :: w in counts ==> counts[w] == Occurrences(words[..i], w)
    {
      var word := words[i];
      CountStep(words, i, list);
      if word in list {
        var previous := if word in counts then counts[word] else 0;
        if word !in counts {
          keys := keys + [word];
        }
        counts := counts[word := previous + 1];
      }
    }
    assert words[..|words|] == words;
    entries := seq(|keys|, k requires 0 <= k < |keys| => Entry(keys[k], counts[keys[k]]));
  }
}
