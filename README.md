# Text analyzer and event log of `main.js`

This project models the text analyzer of the portfolio page script `main.js`
and the bounded on-page event log of `logEvent`, and proves what they promise.

The analyzer (`analyzeText`) first checks the length gate: when the trimmed
text is shorter than 500 UTF-16 code units, the page shows an advisory and
nothing else happens. Otherwise the analyzer computes five basic statistics
(`calculateBasicStats`). It then runs three category counters
(`countPronouns`, `countPrepositions`, `countIndefiniteArticles`), all on the
same untrimmed text. Each counter:

- lower-cases the text;
- extracts the maximal runs of `\w` characters;
- counts the tokens that belong to its fixed word list in a JavaScript object.

It then renders either an empty-state message or the table's entries. The
pronoun and preposition tables are sorted by descending count (a stable sort)
and cut to 15 entries. The article table is shown in key-insertion order,
neither sorted nor cut.

`logEvent` prepends each message to the `#event-log` container and removes
the last child when the container then holds more than 15 entries.

Modules:

- `Text`: the character classes `[a-zA-Z]`, `\w` and `\s`, and ASCII
  lower-casing. It also defines `String.prototype.trim`, the greedy runs used
  by the regular expressions, and `length` in UTF-16 code units.
- `Scanning`: cutting a string into the maximal runs of a character class and
  the stretches between them. `match(/\b\w+\b/g)` keeps the runs of `\w`, and
  `split(/\s+/)` keeps the stretches between the runs of `\s`. Both are the
  same scan, so the round-trip and uniqueness results are proved once.
- `Stats`: `calculateBasicStats`.
- `Tokenizer`: `text.toLowerCase().match(/\b\w+\b/g) || []`.
- `Frequency`: the counting loop and the table it builds. A JavaScript object
  is modelled as a map plus the order in which its keys were first assigned.
  `Object.entries` lists non-integer keys in that order, and no listed word
  looks like an integer.
- `Ranking`: `sort((a, b) => b[1] - a[1]).slice(0, 15)` as a stable insertion
  sort followed by a prefix.
- `Analyzer`: the counters, the three word lists as written (duplicates
  included), and `analyzeText`.
- `EventLogging`: the event log, as a class whose entry sequence `Log`
  updates in place.

Unlike the other two counters, the article counter neither sorts nor
truncates its table: it lists `Object.entries(articleCounts)` as they are
(main.js:390-396).

## Model

| member | source | states |
|---|---|---|
| Analyzer.AnalyzeText | main.js:210-232 | The advisory is produced exactly when the trimmed text is shorter than 500 code units. Otherwise the statistics and the three reports are all computed from the same untrimmed text: pronouns and prepositions ranked with limit 15, articles in insertion order. |
| Analyzer.CountCategory | main.js:257-314 | One counter: tokenize, run the counting loop, then render the empty state or the entries in the counter's order; the result equals the report specification `CategoryReport`. |
| Analyzer.CategoryReport | main.js:280-313 | The report one counter renders: a rendered list never holds more entries than the counter's word list has words. |
| Analyzer.ReportEntries | main.js:296-301 | The empty state is shown exactly when no token is in the list. Otherwise the list is non-empty for a positive limit, and every entry is a listed word of the text with its number of occurrences (at least 1) as count. |
| Analyzer.Present | main.js:296-313 | The empty state is rendered exactly when the table is empty. Otherwise an unranked report lists the whole table, and a ranked one lists min(limit, table size) entries. |
| Analyzer.RankedReport | main.js:303-305 | A ranked report has min(limit, number of distinct matched words) entries, and is non-empty for a positive limit. Its counts do not increase. No word left out has a larger count than one shown. Entries with equal counts appear in order of first occurrence in the text. A word cut off with the same count as a word shown occurs first later in the text. So the report is the first min(limit, n) entries of the order by count, then by first occurrence. |
| Analyzer.InsertedReport | main.js:390-396 | The article report is the whole table, unsorted and uncut: one entry per distinct matched word, in order of first occurrence, with counts adding up to the number of matching tokens. |
| Analyzer.ListSizes | main.js:303-305 | The pronoun and preposition lists show at most 15 entries; the article list shows at most 5, the size of its word list. |
| Stats.Compute | main.js:234-240 | The five counts of `calculateBasicStats`: the word count is at least 1, and no class count exceeds the text's UTF-16 length. |
| Stats.Split | main.js:237 | `split(/\s+/)` always yields at least one piece. |
| Stats.WordCount | main.js:237 | `text.trim().split(/\s+/).length` is at least 1. |
| Stats.CountWhere | main.js:236-240 | `match(/class/g).length` counts the code units in the class, never more than the string's UTF-16 length. |
| Stats.SplitRoundTrip | main.js:237 | The pieces of `split(/\s+/)` and the whitespace runs between them concatenate back to the string. The pieces hold no whitespace, inner pieces are non-empty, and there is one more piece than runs. |
| Stats.WordCountIsRunsPlusOne | main.js:237 | The word count is the number of whitespace runs in the trimmed text plus one, so it is 1 for all-whitespace text. |
| Stats.WordsOfTrimmed | main.js:237 | When the trimmed text is non-empty, every counted word is non-empty and free of whitespace. The words, with the whitespace runs between them, give back the trimmed text, and there is one more word than runs. |
| Stats.NewlinesAreSpaces | main.js:238-239 | The newline count is at most the whitespace count. |
| Stats.ClassesDisjoint | main.js:236-240 | Letters, whitespace and symbols are disjoint, so together they count at most the text's length. |
| Stats.LettersIgnoreCase | main.js:236 | The letter count is the same for the text and its lower-cased form. |
| Stats.StatsBounds | main.js:234-240 | The three laws above, stated on the computed statistics record. |
| Scanning.TokensSplitText | main.js:282 | The tokens and the separator stretches around them concatenate back to the scanned text. Every token is a non-empty run of class characters, and stretches between tokens are non-empty, so tokens are maximal. |
| Scanning.TokensUnique | main.js:282 | Any way of writing the text as separator stretches and maximal runs gives exactly the tokens the scan returns. |
| Scanning.GapsNonEmpty | main.js:237 | A non-empty string that neither starts nor ends with a class character has only non-empty stretches between its runs. |
| Tokenizer.Tokenize | main.js:282 | `text.toLowerCase().match(/\b\w+\b/g) \|\| []` yields at most one token per character of the text. |
| Tokenizer.TokenizeIgnoresCase | main.js:282 | Tokenizing the lower-cased text gives the lower-cased tokens of the original text, so matching is case-insensitive. |
| Tokenizer.TokensAreLowerWords | main.js:282 | The tokens are the maximal `\w` runs of the lower-cased text. Each token is non-empty and made only of `[a-z0-9_]`. |
| Text.Trim | main.js:220 | `trim` gives a slice of the input whose removed prefix and suffix are all whitespace and whose ends are not whitespace; the result is empty exactly when the input is all whitespace. |
| Text.Utf16Length | main.js:220 | `length` counts UTF-16 code units: between one and two per character, and exactly one per character in the Basic Multilingual Plane. |
| Text.LowerChar | main.js:282 | `toLowerCase` on one character leaves no ASCII upper-case letter, keeps the character's class, and changes nothing else. |
| Text.Lower | main.js:282 | The lower-cased text has the same length and is lower-cased character by character. |
| Frequency.CountMatches | main.js:280-288 | The `forEach` loop that bumps `counts[word]` for listed tokens builds exactly the table `Tally`. Its loop invariants are: keys in first-assignment order, and each count equal to the word's occurrences so far. |
| Frequency.Matches | main.js:285 | `includes` keeps exactly the tokens that are in the list. |
| Frequency.FirstSeen | main.js:286 | The object's keys in first-assignment order: distinct, and exactly the listed words that occur. |
| Frequency.FirstIndex | main.js:286 | The position of a word's first occurrence, or the number of tokens when it does not occur. |
| Frequency.Tally | main.js:303 | `Object.entries` of the counts: one entry per key, in key order, each entry's word being the key at its position. |
| Frequency.TallyEntries | main.js:284-288 | Every key is in the list and in the text, with its number of occurrences (at least 1) as count. Keys are distinct. The table is empty exactly when no token is in the list. |
| Frequency.TallyComplete | main.js:284-288 | Every listed word occurring in the text has an entry with its number of occurrences. |
| Frequency.TallySum | main.js:284-288 | The counts add up to the number of tokens that are in the list. |
| Frequency.TallyInTextOrder | main.js:303 | `Object.entries` lists the entries in order of the first occurrence of their word. |
| Frequency.TallyBound | main.js:365 | The table has at most one entry per word of the list. |
| Ranking.SortByCount | main.js:304 | Sorting keeps the number of entries. |
| Ranking.SortByCountSorts | main.js:303-304 | The sorted table is a permutation of the table, with non-increasing counts. |
| Ranking.SortKeepsTieOrder | main.js:303-304 | The sort is stable: entries with equal counts keep their relative order. |
| Ranking.TopIsBest | main.js:303-305 | The shown prefix has min(limit, n) entries with non-increasing counts, taken from the table. No entry left out has a larger count than one shown. |
| Ranking.Top | main.js:303-305 | `sort(...).slice(0, limit)` has min(limit, table size) entries. |
| Ranking.TopKeepsTieOrder | main.js:303-305 | The shown prefix keeps the tie order of the table. At the cut, every entry kept comes before every entry of equal count left out. |
| EventLogging.Logged | main.js:193-197 | After logging, the message is the first entry. The log grows by one until it holds 15 entries and then keeps its size. The older entries follow in order, and only the oldest is dropped. |
| EventLogging.LoggedAll | main.js:189-197 | After a series of `logEvent` calls, the last message is the first entry, no messages leave the log unchanged, and a log within 15 entries stays within 15. |
| EventLogging.LogHistory | main.js:189-197 | A log holding at most 15 entries, after a series of messages, holds the most recent messages newest first, then its earlier entries, cut to 15. |
| EventLogging.EventLog.Log | main.js:191-197 | `prepend` then `removeChild(lastChild)` when more than 15 remain: the entries become `Logged(old entries, message)`, and a log within capacity stays within capacity. |

## Left out

- DOM and UI wiring (main.js:1-181, 201-208): navigation, scrolling, animations, the lightbox, the click and visibility listeners, and `getElementType`/`getElementDescription`. None of it feeds the analyzer.
- Reading `#text-input`, and the null checks on the page elements (main.js:211-216, 242-246, 290-294, 338-342, 377-381). The text is a parameter, and every container is taken to be present.
- Rendering through `innerHTML`, `alert` and `console`. Each output is modelled as data: the statistics record, the `NoneFound` or `Listed` report, and the advisory text.
- The timestamp and message formatting of `logEvent` (main.js:184-187). The formatted message is a parameter, because the clock is outside the model.
- EventLogging.EventLog.Log: treats the container as holding only entry elements, so `removeChild(lastChild)` removes the oldest entry. A text node left in the container by the page's markup would be removed first; the page's markup is not part of this model.
- Text.LowerChar: lower-cases ASCII letters only. Characters whose full Unicode lower-casing yields ASCII word characters (U+0130, the Kelvin sign U+212A) would form different tokens in JavaScript.
- Strings are sequences of Unicode scalar values. Lone surrogates, which a JavaScript string may hold, are not modelled. Characters outside the Basic Multilingual Plane are modelled as two code units wherever JavaScript counts code units: `length` and the statistics.
