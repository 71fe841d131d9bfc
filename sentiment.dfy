/**
 The two-label sentiment classifier of the dashboard (`analyze_sentiment`).

 The polarity comes from TextBlob's lexicon, a foreign library; here it is a scorer
 handed in by the caller, any total function from text to a polarity in [-1, 1].
 What is modelled is the wiring around it: the scorer sees the normalised text, and a
 strict zero threshold picks one of exactly two labels, each with its emoji.
 */
module Sentiment {
  import opened Normalizer

  /** A TextBlob polarity. */
  type Polarity = r: real | -1.0 <= r <= 1.0

  /** The polarity scorer (TextBlob's `sentiment.polarity`). */
  type Scorer = string -> Polarity

  datatype Label = Positive | Negative

  /** The emoji shown beside each label: smiling face with smiling eyes, pouting face. */
  function Emoji(l: Label): (e: string)
    ensures |e| == 1
    ensures e[0] == '\U{1F60A}' <==> l == Positive
  {
    match l
    case Positive => "\U{1F60A}"
    case Negative => "\U{1F620}"
  }

  /** The triple `analyze_sentiment` returns. */
  datatype Analysis = Analysis(polarity: real, sentiment: Label, emoji: string)

  /** analyze_sentiment: score the normalised text, then label it Positive exactly when
      the polarity is above zero (a zero polarity is Negative); the emoji follows the label. */
  function Analyze(score: Scorer, text: string): (a: Analysis)
    ensures a.polarity == score(Preprocess(text))
    ensures -1.0 <= a.polarity <= 1.0
    ensures a.sentiment == Positive <==> a.polarity > 0.0
    ensures a.emoji == Emoji(a.sentiment)
  {
    var polarity := score(Preprocess(text));
    if polarity > 0.0 then Analysis(polarity, Positive, Emoji(Positive))
    else Analysis(polarity, Negative, Emoji(Negative))
  }

  /** Only the normalised text reaches the scorer: analysing text that has already been
      normalised gives the same result as analysing the raw text. */
  lemma AnalyzeCleanedText(score: Scorer, text: string)
    ensures Analyze(score, Preprocess(text)) == Analyze(score, text)
  {
    PreprocessIdempotent(text);
  }
}
