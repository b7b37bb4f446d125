/** `analyzeText` and the three category counters `countPronouns`,
    `countPrepositions` and `countIndefiniteArticles`. The counters differ only
    in their word list and in how they present the table: the first two sort it
    by count and keep the first 15 entries, the article counter lists it as built. */
module Analyzer {
  import opened Text
  import opened Stats
  import opened Tokenizer
  import opened Frequency
  import opened Ranking

  /** Analysis runs only on texts of at least this many UTF-16 code units after trimming. */
  const MinLength: nat := 500

  /** Number of entries the pronoun and preposition counters display. */
  const ListLimit: nat := 15

  const Advisory: string := "Please enter a longer text (10,000+ words recommended) for proper analysis."

  /** The pronoun list as written, duplicates included (`includes` ignores them). */
  const Pronouns: seq<string> := [
    "i", "me", "my", "mine", "myself",
    "you", "your", "yours", "yourself", "yourselves",
    "he", "him", "his", "himself",
    "she", "her", "hers", "herself",
    "it", "its", "itself",
    "we", "us", "our", "ours", "ourselves",
    "they", "them", "their", "theirs", "themselves",
    "who", "whom", "whose", "which", "that",
    "this", "that", "these", "those",
    "what", "which", "who", "whom", "whose",
    "anybody", "anyone", "anything", "each", "either", "everybody", "everyone",
    "everything", "neither", "nobody", "none", "nothing", "one", "somebody",
    "someone", "something", "both", "few", "many", "several", "all", "any",
    "most", "some"]

  const Prepositions: seq<string> := [
    "about", "above", "across", "after", "against", "along", "amid", "among",
    "around", "as", "at", "before", "behind", "below", "beneath", "beside",
    "besides", "between", "beyond", "by", "concerning", "considering", "despite",
    "down", "during", "except", "for", "from", "in", "inside", "into", "like",
    "near", "of", "off", "on", "onto", "out", "outside", "over", "past", "regarding",
    "round", "since", "through", "throughout", "to", "toward", "towards", "under",
    "underneath", "until", "unto", "up", "upon", "with", "within", "without"]

  const Articles: seq<string> := ["a", "an", "the", "some", "any"]

  /** How a counter presents its table. */
  datatype Order = Ranked(limit: nat) | Inserted

  /** What a counter renders: the "No … found." message, or a list of entries. */
  datatype Report = NoneFound | Listed(entries: seq<Entry>)

  datatype Outcome =
    | TooShort(advisory: string)
    | Analyzed(stats: BasicStats, pronouns: Report, prepositions: Report, articles: Report)

  /** The empty state exactly for an empty table; otherwise the ranked prefix
      or the whole table. */
  function Present(table: seq<Entry>, order: Order): (r: Report)
    ensures r.NoneFound? <==> table == []
    ensures r.Listed? && order.Inserted? ==> r.entries == table
    ensures r.Listed? && order.Ranked? ==> |r.entries| == Min(order.limit, |table|)
  {
    if table == [] then NoneFound
    else
      match order
      case Ranked(limit) => Listed(Top(table, limit))
      case Inserted => Listed(table)
  }

  /** The report a counter renders for `text`: never more entries than the
      counter has words in its list. */
  function CategoryReport(text: string, list: seq<string>, order: Order): (r: Report)
    ensures r.Listed? ==> |r.entries| <= |list|
  {
    TallyBound(Tokenize(text), list);
    Present(Tally(Tokenize(text), list), order)
  }

  /** One category counter: tokenize, count, then render the empty state or the
      entries in the counter's order. */
  method CountCategory(text: string, list: seq<string>, order: Order) returns (report: Report)
    ensures report == CategoryReport(text, list, order)
  {
    var words := Tokenize(text);
    var table := CountMatches(words, list);
    if table == [] {
      return NoneFound;
    }
    match order
    case Ranked(limit) =>
      report := Listed(SortByCount(table)[..Min(limit, |table|)]);
    case Inserted =>
      report := Listed(table);
  }

  /** `analyzeText`: the length gate, then the statistics and the three counters,
      all on the same untrimmed text. */
  method AnalyzeText(text: string) returns (outcome: Outcome)
    ensures outcome.TooShort? <==> Utf16Length(Trim(text)) < MinLength
    ensures outcome.TooShort? ==> outcome.advisory == Advisory
    ensures outcome.Analyzed? ==>
      && outcome.stats == Compute(text)
      && outcome.pronouns == CategoryReport(text, Pronouns, Ranked(ListLimit))
      && outcome.prepositions == CategoryReport(text, Prepositions, Ranked(ListLimit))
      && outcome.articles == CategoryReport(text, Articles, Inserted)
  {
    if Utf16Length(Trim(text)) < MinLength {
      return TooShort(Advisory);
    }
    var stats := Compute(text);
    var pronouns := CountCategory(text, Pronouns, Ranked(ListLimit));
    var prepositions := CountCategory(text, Prepositions, Ranked(ListLimit));
    var articles := CountCategory(text, Articles, Inserted);
    outcome := Analyzed(stats, pronouns, prepositions, articles);
  }

  /** The empty state is rendered exactly when no token of the text is in the
      list; otherwise the list shown is non-empty (for a positive limit), and
      every listed entry is a word of the list occurring in the text, with its
      number of occurrences as count. */
  lemma ReportEntries(text: string, list: seq<string>, order: Order)
    ensures CategoryReport(text, list, order).NoneFound? <==>
              forall k :: 0 <= k < |Tokenize(text)| ==> Tokenize(text)[k] !in list
    ensures CategoryReport(text, list, order).Listed? ==>
              forall x :: x in CategoryReport(text, list, order).entries ==>
                x.word in list && 1 <= x.count == Occurrences(Tokenize(text), x.word)
    ensures CategoryReport(text, list, order).Listed? && (order.Inserted? || order.limit > 0) ==>
              CategoryReport(text, list, order).entries != []
  {
    var words := Tokenize(text);
    var table := Tally(words, list);
    TallyEntries(words, list);
    var matches := Matches(words, list);
    if matches == [] {
      forall k | 0 <= k < |words| ensures words[k] !in list {
        assert words[k] !in matches;
      }
    } else {
      assert matches[0] in words;
      var k :| 0 <= k < |words| && words[k] == matches[0];
      assert words[k] in list;
    }
    if table != [] && order.Ranked? {
      TopIsBest(table, order.limit);
      assert CategoryReport(text, list, order).entries == Top(table, order.limit);
    }
  }

  /** A ranked report (pronouns, prepositions) is the first `min(limit, n)`
      entries of the table sorted by descending count, `n` being the number of
      distinct matched words: nothing left out has a larger count than an entry
      shown, entries with equal counts are in order of first occurrence, and a
      word cut off with the same count as a word shown occurs first later in
      the text. */
  lemma RankedReport(text: string, list: seq<string>, limit: nat)
    requires CategoryReport(text, list, Ranked(limit)).Listed?
    ensures var es := CategoryReport(text, list, Ranked(limit)).entries;
      && |es| == Min(limit, |FirstSeen(Tokenize(text), list)|)
      && (limit > 0 ==> es != [])
      && NonIncreasing(es)
      && (forall x, i :: x in Tally(Tokenize(text), list) && x !in es && 0 <= i < |es| ==> es[i].count >= x.count)
      && (forall i, j :: 0 <= i < j < |es| && es[i].count == es[j].count ==>
            FirstIndex(Tokenize(text), es[i].word) < FirstIndex(Tokenize(text), es[j].word))
      && (forall x, i :: x in Tally(Tokenize(text), list) && x !in es && 0 <= i < |es| && es[i].count == x.count ==>
            FirstIndex(Tokenize(text), es[i].word) < FirstIndex(Tokenize(text), x.word))
  {
    var words := Tokenize(text);
    var table := Tally(words, list);
    TopIsBest(table, limit);
    TallyInTextOrder(words, list);
    var key := (e: Entry) => FirstIndex(words, e.word) as int;
    assert OrderedBy(key, table);
    TopKeepsTieOrder(key, table, limit);
  }

  /** The article report is neither sorted nor truncated: it is the whole table,
      one entry per distinct matched word in order of first occurrence, whose
      counts add up to the number of matching tokens. */
  lemma InsertedReport(text: string, list: seq<string>)
    requires CategoryReport(text, list, Inserted).Listed?
    ensures var es := CategoryReport(text, list, Inserted).entries;
      && es == Tally(Tokenize(text), list)
      && |es| == |FirstSeen(Tokenize(text), list)| <= |list|
      && SumCounts(es) == |Matches(Tokenize(text), list)|
      && (forall i, j :: 0 <= i < j < |es| ==>
            FirstIndex(Tokenize(text), es[i].word) < FirstIndex(Tokenize(text), es[j].word))
  {
    var words := Tokenize(text);
    TallyBound(words, list);
    TallySum(words, list);
    TallyInTextOrder(words, list);
  }

  /** The pronoun and preposition lists show at most 15 entries; the article
      list shows at most one entry per article, so at most 5. */
  lemma ListSizes(text: string)
    ensures CategoryReport(text, Pronouns, Ranked(ListLimit)).Listed? ==>
              |CategoryReport(text, Pronouns, Ranked(ListLimit)).entries| <= ListLimit
    ensures CategoryReport(text, Prepositions, Ranked(ListLimit)).Listed? ==>
              |CategoryReport(text, Prepositions, Ranked(ListLimit)).entries| <= ListLimit
    ensures CategoryReport(text, Articles, Inserted).Listed? ==>
              |CategoryReport(text, Articles, Inserted).entries| <= 5
  {
    var words := Tokenize(text);
    TopIsBest(Tally(words, Pronouns), ListLimit);
    TopIsBest(Tally(words, Prepositions), ListLimit);
    TallyBound(words, Articles);
  }
}
