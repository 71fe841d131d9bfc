# Real-time sentiment dashboard — verified model

The dashboard (`app.py`, a Streamlit page) simulates a stream of tweets about a keyword.
It classifies each tweet as Positive or Negative and shows the running log as metrics,
a trend line and a live feed. This project models the logic under the page, in five modules:

- `Normalizer` (`normalizer.dfy`) models `preprocess_text`. It applies four deletions in order:
  mentions `@[A-Za-z0-9_]+`, hashtags `#[A-Za-z0-9_]+`, URLs `https?://[A-Za-z0-9./]+`, and
  every character that is not an ASCII letter or whitespace. It then lower-cases and
  strips the result. Each deletion is the left-to-right scan of `re.sub`: greedy,
  non-overlapping matches, and the output is not re-scanned. `NormalizerCases`
  (`normalizer_cases.dfy`) proves how those scans treat particular shapes of text, for
  all texts of that shape.
- `Sentiment` (`sentiment.dfy`) models `analyze_sentiment`. It scores the cleaned text and
  applies a strict zero threshold that gives one of exactly two labels, each with its emoji.
- `Tweets` (`tweets.dfy`) models `get_fake_tweets`: the fifteen keyword templates, sliced
  with Python's `[:n]`.
- `Views` (`views.dfy`) models the session log's row type and the read-only views:
  - the label counts and percentages;
  - the 3-point rolling mean with `min_periods=1`;
  - the live feed (the last ten rows sorted by time, newest first).
- `Session` (`session.dfy`) is a class holding the four session-state fields
  (`data`, `running`, `last_update`, `keyword`). Its methods are:
  - the constructor (first run);
  - Start/Pause;
  - Clear Data;
  - the refresh step, whose loop appends one classified row per fetched tweet.

Parameters stand in for outside inputs:

- The polarity scorer (TextBlob) is a parameter `score: string -> Polarity`, where
  `Polarity` is a real in [-1, 1].
- The wall clock is a parameter `now`, an integer count of microseconds.
- The sidebar widgets' values are parameters: the entered keyword, the refresh interval
  and the tweets per refresh.

## Model

| member | source | states |
|---|---|---|
| Normalizer.Run | app.py:23-25 | the greedy run `[...]+` is the longest prefix in the class: all of its characters are in the class, and the next character is not |
| Normalizer.SigilMatch | app.py:23-24 | a mention/hashtag match exists exactly when the sigil is followed by a word character; it starts with the sigil, every character after the sigil is a word character, and it stops at the first non-word character |
| Normalizer.SchemeLen | app.py:25 | `https?://` is found exactly when the text starts with `http://` or `https://`, and what it covers is that scheme |
| Normalizer.UrlMatch | app.py:25 | a URL match exists exactly when the scheme is followed by a URL character; it is the scheme plus at least one URL character, every character after the scheme is a URL character, and it stops at the first non-URL character |
| Normalizer.MatchLen | app.py:23-25 | a match of any of the three patterns starts with its lead character (`@`, `#`, `h`) and needs its trigger character (`@`, `#`, `:`) in the text |
| Normalizer.Remove | app.py:23-25 | a deletion pass never lengthens the text |
| Normalizer.TrimStart | app.py:27 | drops exactly the leading whitespace: the result is a suffix, everything dropped is whitespace, and the result starts with a non-space |
| Normalizer.TrimEnd | app.py:27 | drops exactly the trailing whitespace, symmetrically |
| Normalizer.Strip | app.py:27 | `strip()` returns the middle of the text with whitespace-only margins on both sides, and the result has no outer whitespace |
| Normalizer.RemoveTokens | app.py:23-25 | the three token deletions, in order, never lengthen the text |
| Normalizer.RemoveTokensWithout | app.py:23-25 | text with no `@`, `#` or `:` passes the three token deletions unchanged |
| Normalizer.Preprocess | app.py:21-28 | the cleaned text holds only lower-case ASCII letters and whitespace, with no whitespace at either end |
| Normalizer.KeepLettersAndSpaces | app.py:26 | after the character filter only ASCII letters and whitespace remain, and the text is no longer than before |
| Normalizer.KeepOne | app.py:26 | the filter keeps a character exactly when it is an ASCII letter or whitespace and deletes it otherwise; with KeepAppend this fixes the filter's result on every text |
| Normalizer.KeepFixesLettersAndSpaces | app.py:26 | the filter leaves text made of letters and whitespace unchanged |
| Normalizer.KeepAppend | app.py:26 | the filter works character by character: it distributes over concatenation |
| Normalizer.Lower | app.py:27 | `lower()` keeps the length, turns each upper-case ASCII letter into the matching lower-case letter, keeps every other character, and leaves no upper-case letter |
| Normalizer.LowerOfLettersAndSpaces | app.py:27 | `lower()` on letters and whitespace gives lower-case letters and whitespace |
| Normalizer.LowerFixesLowerOrSpace | app.py:27 | `lower()` leaves lower-case text unchanged |
| Normalizer.StripKeepsLowerOrSpace | app.py:27 | stripping keeps text lower-case-or-space |
| Normalizer.StripTrimmed | app.py:27 | stripping text with no outer whitespace changes nothing |
| Normalizer.RemoveWithout | app.py:23-25 | text lacking a pattern's lead or trigger character passes a deletion unchanged; the patterns are case-sensitive, so `HTTP://x.co` (no lower-case `h`) survives the URL deletion |
| Normalizer.SigilRemoveHead | app.py:23-24 | after a mention/hashtag deletion, text that began with a non-word character still does |
| Normalizer.SigilRemoveComplete | app.py:23-24 | after the mention (hashtag) deletion no mention (hashtag) is left anywhere in the text |
| Normalizer.RunAppend | app.py:23-25 | a run never crosses whitespace |
| Normalizer.SchemeAppend | app.py:25 | the scheme test never looks past whitespace |
| Normalizer.SigilMatchAppend | app.py:23-24 | a mention/hashtag match never crosses whitespace |
| Normalizer.UrlMatchAppend | app.py:25 | a URL match never crosses whitespace |
| Normalizer.MatchLenAppend | app.py:23-25 | no match of any pattern crosses whitespace |
| Normalizer.RemoveAppend | app.py:23-25 | each deletion works word by word: over a split at whitespace it is the concatenation of the deletions of the two parts |
| Normalizer.RemoveTokensAppend | app.py:23-25 | the three token deletions together also work word by word |
| Normalizer.PreprocessFixesNormalText | app.py:21-28 | text that is already lower-case letters and whitespace with no outer whitespace is returned unchanged |
| Normalizer.PreprocessIdempotent | app.py:21-28 | cleaning twice gives the same as cleaning once |
| Normalizer.PreprocessPlainText | app.py:21-28 | text made only of letters and whitespace is only lower-cased and stripped |
| NormalizerCases.RunOfClass | app.py:23-25 | a run of class characters followed by a non-class character (or the end) is matched exactly |
| NormalizerCases.KeepLeadFree | app.py:23-25 | text without the lead character is kept, and the scan resumes after it |
| NormalizerCases.SigilTokenRemoved | app.py:23-24 | `@word`/`#word` is deleted wherever it stands, with no word boundary needed before the sigil (`me@mail.com` loses `@mail`) |
| NormalizerCases.UrlTokenMatch | app.py:25 | `http://` or `https://` followed by a run of URL characters is one match, exactly as long as scheme and run |
| NormalizerCases.UrlTokenRemoved | app.py:25 | a URL whose preceding text has no `h` (for instance one right after whitespace, with RemoveAppend for the rest) is deleted up to the first character that cannot be in a URL, and the scan goes on after it; a URL that begins inside an earlier URL match is not deleted (`http://ahttp://b` leaves `://b`) |
| NormalizerCases.BareSchemeKept | app.py:25 | `http://` or `https://` with no URL character after it is not deleted |
| Sentiment.Emoji | app.py:41-46 | each label has a one-character emoji, and the smiling face is the Positive label's only |
| Sentiment.Analyze | app.py:33-48 | the polarity is the scorer's value on the cleaned text and lies in [-1, 1]; the label is Positive exactly when the polarity is above 0, so 0 is Negative; the emoji is the label's |
| Sentiment.AnalyzeCleanedText | app.py:35-38 | analysing already-cleaned text gives the same result as analysing the raw text |
| Tweets.Templates | app.py:55-71 | there are fifteen sample tweets |
| Tweets.FakeTweets | app.py:53-72 | the result is a prefix of the templates, of length min(n, 15) for n ≥ 0 and max(0, 15 + n) for negative n |
| Tweets.FakeTweetsGrow | app.py:72 | asking for more tweets only adds tweets at the end |
| Tweets.TweetMentionsKeyword | app.py:56-70 | every tweet contains the keyword, right after its template's fixed opening |
| Views.Count | app.py:146-147 | a label count is at most the number of rows |
| Views.CountsPartition | app.py:146-148 | positive + negative == total |
| Views.CountAppend | app.py:138-147 | the counts of an extended log are the old counts plus the counts of the new rows |
| Views.Percent | app.py:152-153 | a share of the total is between 0 and 100 percent |
| Views.Summary | app.py:145-153 | the metrics exist exactly when the log is not empty, so the percentages never divide by zero; the counts are the label counts, they add up to the total, and the percentages add up to 100 |
| Views.PercentagesSum | app.py:152-153 | the positive and negative percentages add up to 100 |
| Views.Scores | app.py:161 | the score column has one entry per row, in row order |
| Views.RollingMean | app.py:166 | the rolling mean has one entry per row |
| Views.RollingMeanEntries | app.py:166 | entry 0 is score 0, entry 1 is the mean of scores 0 and 1, and entry i ≥ 2 is the mean of scores i-2, i-1 and i |
| Views.SumBounds | app.py:166 | a sum of values within [lo, hi] lies within [lo·n, hi·n] |
| Views.MeanBounds | app.py:166 | a mean lies between any bounds of the values averaged |
| Views.RollingMeanWithinWindow | app.py:166 | each rolling-mean entry lies between the least and greatest score of its window |
| Views.RollingMeanIsPolarity | app.py:166-180 | the trend line stays within [-1, 1] |
| Views.Tail | app.py:221 | `tail(10)` is the last min(10, n) rows |
| Views.InsertPermutes | app.py:221 | inserting a row adds exactly that row and loses none |
| Views.InsertNewestFirst | app.py:221 | inserting into a newest-first list keeps it newest first |
| Views.SortNewestFirst | app.py:221 | the sort by time, descending, is a permutation with non-increasing times |
| Views.LiveFeed | app.py:221 | the live feed has min(10, total) rows, is a permutation of the last ten, and is ordered newest first |
| Views.Reverse | app.py:221 | reversal maps index i to n-1-i and is a permutation |
| Views.ChronologicalFeed | app.py:221 | for a log in time order, the last ten in reverse arrival order are a valid live feed |
| Session.Classify | app.py:128-135 | a new row carries the tweet, the refresh time and the scorer's value on the cleaned tweet, and is classified as `analyze_sentiment` classifies |
| Session.ClassifyEach | app.py:127-135 | one row per tweet |
| Session.ClassifyEachAt | app.py:127-135 | row k is tweet k, classified |
| Session.ClassifyEachRows | app.py:127-135 | every new row has its tweet's text and the refresh time, and is well classified |
| Session.ClassifyEachPrefix | app.py:127-135 | classifying one more tweet of the list adds exactly its row at the end |
| Session.Batch | app.py:123-135 | a refresh's rows are one per fetched tweet, in order: row i carries tweet i, its score is the scorer's value on cleaned tweet i, it is stamped with the refresh time and is well classified, whatever the number of tweets asked for |
| Session.ClassifyAll | app.py:126-135 | the refresh loop builds exactly the classified rows of the tweets, in order |
| Session.BatchFromSlider | app.py:124-135 | with 1 to 10 tweets per refresh, a refresh appends exactly that many rows, the first templates in order, each stamped and well classified |
| Session.AppendBatchKeepsInvariants | app.py:138-139 | appending a batch stamped `now` keeps every row well classified, and keeps time order when `now` is not before the last refresh |
| Session.Session.constructor | app.py:77-84 | a new session has an empty log, last update `now`, is paused, and has keyword "iPhone" |
| Session.Session.Toggle | app.py:97-100 | Start/Pause flips `running` and stores the entered keyword; the log and the last update time are unchanged |
| Session.Session.Clear | app.py:102-104 | Clear Data empties the log and leaves `running`, `keyword` and the last update time unchanged |
| Session.Session.Poll | app.py:118-142 | a refresh happens exactly when running and at least `refresh_rate` seconds have passed. It then appends the classified tweets for the entered keyword after the unchanged old rows and sets the last update to `now`. Otherwise nothing changes. `running` and `keyword` never change. Well-classified rows and time order are preserved |

## Left out

- The Streamlit page itself is not modelled. That covers page setup, widgets, buttons, `st.rerun`, metric cards, tabs, the HTML of the feed and the status text with the next update time. These are presentation; the widgets' values are parameters.
- The charts are not modelled. That covers the matplotlib/seaborn trend, pie and bar charts and the area shading. They are rendering; only the rolling mean they plot is modelled.
- TextBlob's lexicon scoring is not modelled. It is a foreign library, so the scorer is a parameter: any total function into [-1, 1].
- `datetime.now()` is not modelled. The clock is a parameter in microseconds. The source reads the clock again for each row and once more for `last_update`; the model stamps every row of one refresh, and `last_update`, with the single instant `now`. `total_seconds()` is floating point; the model compares exact microseconds.
- Session.Session.Poll: the refresh condition is the exact comparison `elapsed ≥ refresh_rate · 10⁶` in microseconds. Float rounding in `total_seconds()` is not modelled.
- Session.Session.Poll: time order of the log is proved only when `refresh_rate ≥ 0`. The slider (5 to 60) always meets this.
- Percentages are real numbers. Float rounding and the `.1f` formatting are not modelled.
- Views.RollingMean: the mean is taken over exact reals, so pandas' floating-point rounding is not modelled.
- Views.LiveFeed: the source's sort is not stable. The model states what any such sort returns (`IsLiveFeed`) and gives one sort as a witness. It does not say which order pandas picks among rows with equal times.
- The Raw Data tab is not modelled: its sort on formatted `%H:%M:%S` strings and its colour styling are display only.
- CSV export (`to_csv`, download button) is not modelled. It is a library serialiser and I/O.
- Whitespace is one fixed predicate: ASCII space, tab, line feed, carriage return, vertical tab, form feed and the separators U+001C to U+001F. That predicate is used for both `\s` and `strip()`. Python's `\s` and `strip()` also take Unicode whitespace, so the model's character filter deletes non-ASCII whitespace that the source keeps: for example, `"a\u00A0b"` stays `"a\u00A0b"` in the source and becomes `"ab"` in the model. Only ASCII letters and whitespace reach `lower()`, and it leaves whitespace as it is.
- Whole inputs are not evaluated as literals. For example, `"I LOVE @brand! Check http://x.co #great"` becomes `"i love  check"`; the steps of that run are proved for all inputs by RemoveTokensAppend (the deletions work word by word), SigilTokenRemoved, UrlTokenRemoved, KeepOne with KeepAppend (the `!` is dropped), Lower's contract and Strip's contract.
- For example, `me@mail.com` becomes `mecom`, `HTTP://x.co` becomes `httpxco` and a bare `http://` becomes `http`. These are proved as general lemmas rather than on those literals: SigilTokenRemoved, RemoveWithout and BareSchemeKept for the token deletions, and KeepOne with KeepAppend for the character filter that then drops `.`, `:` and `/`.
