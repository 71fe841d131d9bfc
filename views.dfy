/**
 The session log and the read-only views the dashboard derives from it: the label
 counts and percentages, the 3-point rolling mean of the scores, and the live feed of
 the last ten records, newest first.
 */
module Views {
  import opened Sentiment

  /** One row of the `data` table. `time` is the clock in microseconds. */
  datatype Record = Record(time: int, text: string, score: real, sentiment: Label, emoji: string)

  /** A row as `analyze_sentiment` produces it: polarity in range, label by the zero
      threshold, emoji by the label. */
  predicate WellClassified(r: Record)
  {
    && -1.0 <= r.score <= 1.0
    && (r.sentiment == Positive <==> r.score > 0.0)
    && r.emoji == Emoji(r.sentiment)
  }

  // ---------------------------------------------------------------------------
  // Label counts and percentages
  // ---------------------------------------------------------------------------

  /** The number of rows with the given label. */
  function Count(log: seq<Record>, l: Label): (c: nat)
    ensures c <= |log|
  {
    if log == [] then 0
    else (if log[0].sentiment == l then 1 else 0) + Count(log[1..], l)
  }

  /** Every row is counted under exactly one of the two labels. */
  lemma {:induction false} CountsPartition(log: seq<Record>)
    ensures Count(log, Positive) + Count(log, Negative) == |log|
  {
    if log != [] {
      CountsPartition(log[1..]);
    }
  }

  /** Counting distributes over appending rows. */
  lemma {:induction false} CountAppend(a: seq<Record>, b: seq<Record>, l: Label)
    ensures Count(a + b, l) == Count(a, l) + Count(b, l)
  {
    if a != [] {
      assert (a + b)[1..] == a[1..] + b;
      CountAppend(a[1..], b, l);
    } else {
      assert a + b == b;
    }
  }

  /** `part / total * 100`. */
  function Percent(part: nat, total: nat): (p: real)
    requires part <= total && total > 0
    ensures 0.0 <= p <= 100.0
  {
    part as real / total as real * 100.0
  }

  datatype Option<T> = None | Some(value: T)

  /** The three metric cards. */
  datatype Metrics = Metrics(total: nat, positive: nat, negative: nat, positivePct: real, negativePct: real)

  /** The metrics panel: shown only when the log is not empty, so the percentages never
      divide by zero; the two counts make up the total and the percentages make up 100. */
  function Summary(log: seq<Record>): (m: Option<Metrics>)
    ensures m.None? <==> log == []
    ensures m.Some? ==> m.value.total == |log| > 0
    ensures m.Some? ==> m.value.positive == Count(log, Positive) && m.value.negative == Count(log, Negative)
    ensures m.Some? ==> m.value.positive + m.value.negative == m.value.total
    ensures m.Some? ==> m.value.positivePct + m.value.negativePct == 100.0
  {
    if log == [] then None
    else
      var total, positive, negative := |log|, Count(log, Positive), Count(log, Negative);
      CountsPartition(log);
      PercentagesSum(positive, negative);
      Some(Metrics(total, positive, negative, Percent(positive, total), Percent(negative, total)))
  }

  /** Two shares that make up the whole have percentages that add up to 100. */
  lemma PercentagesSum(p: nat, n: nat)
    requires p + n > 0
    ensures Percent(p, p + n) + Percent(n, p + n) == 100.0
  {
    SharesSum(p as real, n as real, (p + n) as real);
  }

  /** Shares of a positive whole that add up to it have fractions that add up to one. */
  lemma SharesSum(a: real, b: real, t: real)
    requires t > 0.0 && a + b == t
    ensures a / t * 100.0 + b / t * 100.0 == 100.0
  {
    assert a / t + b / t == (a + b) / t;
  }

  // ---------------------------------------------------------------------------
  // Rolling mean (window 3, min_periods 1)
  // ---------------------------------------------------------------------------

  /** The `sentiment_score` column. */
  function Scores(log: seq<Record>): (s: seq<real>)
    ensures |s| == |log|
    ensures forall i :: 0 <= i < |log| ==> s[i] == log[i].score
  {
    seq(|log|, i requires 0 <= i < |log| => log[i].score)
  }

  function Sum(s: seq<real>): real
  {
    if s == [] then 0.0 else s[0] + Sum(s[1..])
  }

  function Mean(s: seq<real>): real
    requires s != []
  {
    Sum(s) / |s| as real
  }

  /** The first index of the window that ends at `i`: up to three values, fewer at the start. */
  function WindowStart(i: nat): nat
  {
    if i >= 2 then i - 2 else 0
  }

  /** `rolling(window=3, min_periods=1).mean()`: entry `i` is the mean of the scores at
      `max(0, i-2) .. i`. */
  function RollingMean(s: seq<real>): (r: seq<real>)
    ensures |r| == |s|
  {
    seq(|s|, i requires 0 <= i < |s| => Mean(s[WindowStart(i)..i + 1]))
  }

  /** The rolling mean starts at the first score, averages the first two next, and from
      then on is the mean of the last three scores. */
  lemma RollingMeanEntries(s: seq<real>)
    ensures |s| >= 1 ==> RollingMean(s)[0] == s[0]
    ensures |s| >= 2 ==> RollingMean(s)[1] == (s[0] + s[1]) / 2.0
    ensures forall i :: 2 <= i < |s| ==> RollingMean(s)[i] == (s[i - 2] + s[i - 1] + s[i]) / 3.0
  {
    if |s| >= 1 {
      assert s[0..1] == [s[0]];
      assert Sum([s[0]]) == s[0] by { SumOne(s[0]); }
    }
    if |s| >= 2 {
      assert s[0..2] == [s[0], s[1]];
      SumTwo(s[0], s[1]);
    }
    forall i | 2 <= i < |s|
      ensures RollingMean(s)[i] == (s[i - 2] + s[i - 1] + s[i]) / 3.0
    {
      assert s[i - 2..i + 1] == [s[i - 2], s[i - 1], s[i]];
      SumThree(s[i - 2], s[i - 1], s[i]);
    }
  }

  lemma SumOne(x: real)
    ensures Sum([x]) == x
  {
    assert [x][1..] == [];
  }

  lemma SumTwo(x: real, y: real)
    ensures Sum([x, y]) == x + y
  {
    assert [x, y][1..] == [y];
    SumOne(y);
  }

  lemma SumThree(x: real, y: real, z: real)
    ensures Sum([x, y, z]) == x + y + z
  {
    assert [x, y, z][1..] == [y, z];
    SumTwo(y, z);
  }

  /** Values bounded by `lo` and `hi` have a sum bounded by `lo` and `hi` times their number. */
  lemma {:induction false} SumBounds(s: seq<real>, lo: real, hi: real)
    requires forall i :: 0 <= i < |s| ==> lo <= s[i] <= hi
    ensures lo * |s| as real <= Sum(s) <= hi * |s| as real
  {
    if s != [] {
      SumBounds(s[1..], lo, hi);
    }
  }

  /** A mean lies between any bounds of the values it averages. */
  lemma MeanBounds(s: seq<real>, lo: real, hi: real)
    requires s != []
    requires forall i :: 0 <= i < |s| ==> lo <= s[i] <= hi
    ensures lo <= Mean(s) <= hi
  {
    SumBounds(s, lo, hi);
    var n := |s| as real;
    assert lo * n <= Sum(s) <= hi * n;
    assert Mean(s) * n == Sum(s);
  }

  /** Each rolling-mean entry lies between the least and the greatest score of its window. */
  lemma RollingMeanWithinWindow(s: seq<real>, i: int, lo: real, hi: real)
    requires 0 <= i < |s|
    requires forall j :: WindowStart(i) <= j <= i ==> lo <= s[j] <= hi
    ensures lo <= RollingMean(s)[i] <= hi
  {
    var w := s[WindowStart(i)..i + 1];
    assert forall k :: 0 <= k < |w| ==> w[k] == s[WindowStart(i) + k];
    MeanBounds(w, lo, hi);
  }

  /** Since every polarity lies in [-1, 1], so does the trend line. */
  lemma RollingMeanIsPolarity(log: seq<Record>, i: int)
    requires forall j :: 0 <= j < |log| ==> WellClassified(log[j])
    requires 0 <= i < |log|
    ensures -1.0 <= RollingMean(Scores(log))[i] <= 1.0
  {
    RollingMeanWithinWindow(Scores(log), i, -1.0, 1.0);
  }

  // ---------------------------------------------------------------------------
  // Live feed: tail(10) sorted by time, newest first
  // ---------------------------------------------------------------------------

  /** `tail(n)`: the last `n` rows, or all of them when there are fewer. */
  function Tail(log: seq<Record>, n: nat): (t: seq<Record>)
    ensures |t| == if |log| <= n then |log| else n
    ensures t == log[|log| - |t|..]
  {
    if |log| <= n then log else log[|log| - n..]
  }

  /** Times never increase along the sequence. */
  predicate NewestFirst(f: seq<Record>)
  {
    forall i, j :: 0 <= i < j < |f| ==> f[i].time >= f[j].time
  }

  /** What the live feed may show: the last ten rows, in some order with non-increasing
      times. The sort is not stable, so rows with equal times may come in any order. */
  predicate IsLiveFeed(log: seq<Record>, f: seq<Record>)
  {
    multiset(f) == multiset(Tail(log, 10)) && NewestFirst(f)
  }

  /** A row no older than the head of a newest-first sequence can go in front of it. */
  lemma NewestFirstCons(x: Record, f: seq<Record>)
    requires NewestFirst(f)
    requires f == [] || x.time >= f[0].time
    ensures NewestFirst([x] + f)
  {
    var g := [x] + f;
    forall i, j | 0 <= i < j < |g|
      ensures g[i].time >= g[j].time
    {
      if i == 0 {
        assert g[j] == f[j - 1];
        assert x.time >= f[0].time >= f[j - 1].time;
      } else {
        assert g[i] == f[i - 1] && g[j] == f[j - 1];
      }
    }
  }

  /** What follows the head of a newest-first sequence is newest first, and no newer. */
  lemma NewestFirstTail(f: seq<Record>)
    requires NewestFirst(f) && f != []
    ensures NewestFirst(f[1..])
    ensures |f| > 1 ==> f[0].time >= f[1].time
  {
    forall i, j | 0 <= i < j < |f| - 1
      ensures f[1..][i].time >= f[1..][j].time
    {
      assert f[1..][i] == f[i + 1] && f[1..][j] == f[j + 1];
    }
  }

  /** Place a row into a newest-first sequence: before the first row that is no newer. */
  function Insert(r: Record, f: seq<Record>): seq<Record>
  {
    if f == [] || r.time >= f[0].time then [r] + f
    else [f[0]] + Insert(r, f[1..])
  }

  /** Inserting adds exactly the one row and loses none. */
  lemma {:induction false} InsertPermutes(r: Record, f: seq<Record>)
    ensures multiset(Insert(r, f)) == multiset(f) + multiset{r}
    ensures |Insert(r, f)| == |f| + 1
  {
    if f != [] && r.time < f[0].time {
      InsertPermutes(r, f[1..]);
      assert f == [f[0]] + f[1..];
    }
  }

  /** Inserting into a newest-first sequence keeps it newest first. */
  lemma {:induction false} InsertNewestFirst(r: Record, f: seq<Record>)
    requires NewestFirst(f)
    ensures NewestFirst(Insert(r, f))
  {
    if f == [] || r.time >= f[0].time {
      NewestFirstCons(r, f);
    } else {
      NewestFirstTail(f);
      var rest := Insert(r, f[1..]);
      InsertNewestFirst(r, f[1..]);
      assert rest[0] == r || rest[0] == f[1];
      NewestFirstCons(f[0], rest);
    }
  }

  /** Sort rows by time, newest first. */
  function SortNewestFirst(s: seq<Record>): (f: seq<Record>)
    ensures multiset(f) == multiset(s)
    ensures NewestFirst(f)
  {
    if s == [] then []
    else
      var t := SortNewestFirst(s[1..]);
      InsertPermutes(s[0], t);
      InsertNewestFirst(s[0], t);
      assert s == [s[0]] + s[1..];
      Insert(s[0], t)
  }

  /** The live feed: min(10, total) rows, a permutation of the last ten, newest first. */
  function LiveFeed(log: seq<Record>): (f: seq<Record>)
    ensures IsLiveFeed(log, f)
    ensures |f| == if |log| <= 10 then |log| else 10
  {
    var f := SortNewestFirst(Tail(log, 10));
    assert |f| == |multiset(f)| == |Tail(log, 10)|;
    f
  }

  /** Rows in order of arrival carry non-decreasing times. */
  predicate Chronological(log: seq<Record>)
  {
    forall i, j :: 0 <= i < j < |log| ==> log[i].time <= log[j].time
  }

  function Reverse(s: seq<Record>): (r: seq<Record>)
    ensures |r| == |s|
    ensures forall i :: 0 <= i < |s| ==> r[i] == s[|s| - 1 - i]
    ensures multiset(r) == multiset(s)
  {
    if s == [] then []
    else
      assert s == [s[0]] + s[1..];
      Reverse(s[1..]) + [s[0]]
  }

  /** Reversing a sequence in time order puts the newest row first. */
  lemma ReverseNewestFirst(t: seq<Record>)
    requires Chronological(t)
    ensures NewestFirst(Reverse(t))
  {
    var r := Reverse(t);
    forall i, j | 0 <= i < j < |r|
      ensures r[i].time >= r[j].time
    {
      assert r[i] == t[|t| - 1 - i] && r[j] == t[|t| - 1 - j];
    }
  }

  /** When rows arrive in time order, the last ten in reverse arrival order are a valid
      live feed: newest first is latest arrival first, up to rows with equal times. */
  lemma ChronologicalFeed(log: seq<Record>)
    requires Chronological(log)
    ensures IsLiveFeed(log, Reverse(Tail(log, 10)))
  {
    var t := Tail(log, 10);
    var k := |log| - |t|;
    assert Chronological(t) by {
      forall i, j | 0 <= i < j < |t|
        ensures t[i].time <= t[j].time
      {
        assert t[i] == log[k + i] && t[j] == log[k + j];
      }
    }
    ReverseNewestFirst(t);
  }
}
