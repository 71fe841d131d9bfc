/**
 The dashboard's session state and the three things that change it: the Start/Pause
 button, the Clear Data button and the refresh step that runs on every rerun of the page.

 The wall clock is a parameter `now`, in microseconds (the resolution of `datetime`);
 the widgets' values (entered keyword, refresh interval, tweets per refresh) and the
 polarity scorer are parameters too.
 */
module Session {
  import opened Normalizer
  import opened Sentiment
  import opened Tweets
  import opened Views

  /** Clock ticks per second. */
  const Second: int := 1000000

  /** The keyword a new session starts with. */
  const DefaultKeyword: string := "iPhone"

  /** The row the refresh loop appends for one tweet. */
  function Classify(score: Scorer, now: int, text: string): (r: Record)
    ensures r.time == now && r.text == text
    ensures r.score == score(Preprocess(text))
    ensures WellClassified(r)
  {
    var a := Analyze(score, text);
    Record(now, text, a.polarity, a.sentiment, a.emoji)
  }

  /** One classified row per tweet, in the order of the tweets. */
  function ClassifyEach(score: Scorer, now: int, tweets: seq<string>): (rows: seq<Record>)
    ensures |rows| == |tweets|
  {
    if tweets == [] then []
    else ClassifyEach(score, now, tweets[..|tweets| - 1]) + [Classify(score, now, tweets[|tweets| - 1])]
  }

  /** Taking one more tweet of the list adds its row at the end. */
  lemma ClassifyEachPrefix(score: Scorer, now: int, tweets: seq<string>, i: int)
    requires 0 <= i < |tweets|
    ensures ClassifyEach(score, now, tweets[..i + 1])
      == ClassifyEach(score, now, tweets[..i]) + [Classify(score, now, tweets[i])]
  {
    var t := tweets[..i + 1];
    assert t[..|t| - 1] == tweets[..i];
    assert t[|t| - 1] == tweets[i];
  }

  /** Row `k` is tweet `k`, classified. */
  lemma {:induction false} ClassifyEachAt(score: Scorer, now: int, tweets: seq<string>, k: int)
    requires 0 <= k < |tweets|
    ensures ClassifyEach(score, now, tweets)[k] == Classify(score, now, tweets[k])
  {
    var init := tweets[..|tweets| - 1];
    if k < |tweets| - 1 {
      ClassifyEachAt(score, now, init, k);
      assert init[k] == tweets[k];
    }
  }

  /** Each row carries its tweet's text and the given time, and is well classified. */
  lemma ClassifyEachRows(score: Scorer, now: int, tweets: seq<string>)
    ensures forall k :: 0 <= k < |tweets| ==>
      var r := ClassifyEach(score, now, tweets)[k];
      r.text == tweets[k] && r.time == now && WellClassified(r)
  {
    forall k | 0 <= k < |tweets|
      ensures ClassifyEach(score, now, tweets)[k].text == tweets[k]
      ensures ClassifyEach(score, now, tweets)[k].time == now
      ensures WellClassified(ClassifyEach(score, now, tweets)[k])
    {
      ClassifyEachAt(score, now, tweets, k);
    }
  }

  /** The rows one refresh appends: the fetched tweets, classified. */
  function Batch(score: Scorer, keyword: string, n: int, now: int): (b: seq<Record>)
    ensures |b| == |FakeTweets(keyword, n)|
    ensures forall i :: 0 <= i < |b| ==>
      b[i].text == FakeTweets(keyword, n)[i] && b[i].time == now && WellClassified(b[i])
    ensures forall i :: 0 <= i < |b| ==> b[i].score == score(Preprocess(FakeTweets(keyword, n)[i]))
  {
    var tweets := FakeTweets(keyword, n);
    ClassifyEachRows(score, now, tweets);
    assert forall i :: 0 <= i < |tweets| ==>
      ClassifyEach(score, now, tweets)[i].score == score(Preprocess(tweets[i])) by {
      forall i | 0 <= i < |tweets|
        ensures ClassifyEach(score, now, tweets)[i].score == score(Preprocess(tweets[i]))
      {
        ClassifyEachAt(score, now, tweets, i);
      }
    }
    ClassifyEach(score, now, tweets)
  }

  /** With the sidebar's "Tweets per refresh" slider (1 to 10), a refresh appends exactly
      that many rows, each stamped with the refresh time and correctly classified, and the
      texts are the first templates in order. */
  lemma BatchFromSlider(score: Scorer, keyword: string, n: int, now: int)
    requires 1 <= n <= 10
    ensures |Batch(score, keyword, n, now)| == n
    ensures forall i :: 0 <= i < n ==>
      var r := Batch(score, keyword, n, now)[i];
      r.time == now && r.text == Templates(keyword)[i] && WellClassified(r)
  {
    var tweets := FakeTweets(keyword, n);
    assert forall i :: 0 <= i < n ==> tweets[i] == Templates(keyword)[i];
  }

  /** The refresh loop: analyse each tweet in turn and collect one row per tweet, in order. */
  method ClassifyAll(score: Scorer, now: int, tweets: seq<string>) returns (newData: seq<Record>)
    ensures newData == ClassifyEach(score, now, tweets)
  {
    newData := [];
    for i := 0 to |tweets|
      invariant newData == ClassifyEach(score, now, tweets[..i])
    {
      ClassifyEachPrefix(score, now, tweets, i);
      newData := newData + [Classify(score, now, tweets[i])];
    }
    assert tweets[..|tweets|] == tweets;
  }

  /** Appending a batch stamped `now` keeps every row classified, and keeps the rows in time
      order when the batch is no earlier than the previous last refresh. */
  lemma AppendBatchKeepsInvariants(log: seq<Record>, batch: seq<Record>, last: int, now: int)
    requires forall i :: 0 <= i < |batch| ==> batch[i].time == now && WellClassified(batch[i])
    ensures (forall i :: 0 <= i < |log| ==> WellClassified(log[i]))
      ==> forall i :: 0 <= i < |log + batch| ==> WellClassified((log + batch)[i])
    ensures last <= now && Chronological(log) && (forall i :: 0 <= i < |log| ==> log[i].time <= last)
      ==> Chronological(log + batch) && forall i :: 0 <= i < |log + batch| ==> (log + batch)[i].time <= now
  {
    var all := log + batch;
    assert forall i :: 0 <= i < |log| ==> all[i] == log[i];
    assert forall i :: |log| <= i < |all| ==> all[i] == batch[i - |log|];
  }

  class Session {
    /** The `data` table. */
    var data: seq<Record>
    /** Whether monitoring is active. */
    var running: bool
    /** When the last refresh happened. */
    var lastUpdate: int
    /** The keyword stored by the last Start/Pause. */
    var keyword: string

    /** Every row is classified as `analyze_sentiment` would classify it. */
    predicate Valid()
      reads this
    {
      forall i :: 0 <= i < |data| ==> WellClassified(data[i])
    }

    /** Rows are in time order, none later than the last refresh. */
    predicate InOrder()
      reads this
    {
      Chronological(data) && forall i :: 0 <= i < |data| ==> data[i].time <= lastUpdate
    }

    /** The first run of the page: an empty table, paused, keyword "iPhone". */
    constructor(now: int)
      ensures Valid() && InOrder()
      ensures data == [] && lastUpdate == now && !running && keyword == DefaultKeyword
    {
      data := [];
      lastUpdate := now;
      running := false;
      keyword := DefaultKeyword;
    }

    /** Start/Pause: flip `running` and store the keyword entered in the sidebar. The table
        and the time of the last refresh stay as they are. */
    method Toggle(entered: string)
      modifies this
      ensures running == !old(running) && keyword == entered
      ensures data == old(data) && lastUpdate == old(lastUpdate)
      ensures old(Valid()) ==> Valid()
      ensures old(InOrder()) ==> InOrder()
    {
      running := !running;
      keyword := entered;
    }

    /** Clear Data: an empty table; monitoring, keyword and last refresh time untouched. */
    method Clear()
      modifies this
      ensures data == []
      ensures running == old(running) && keyword == old(keyword) && lastUpdate == old(lastUpdate)
      ensures Valid() && InOrder()
    {
      data := [];
    }

    /** The refresh step. It fires only while monitoring and once at least `refreshRate`
        seconds have passed since the last refresh; it then fetches tweets about the keyword
        currently entered in the sidebar, appends one classified row per tweet after the
        existing rows, and records `now` as the last refresh. Otherwise nothing changes. */
    method Poll(now: int, refreshRate: int, tweetsPerRefresh: int, entered: string, score: Scorer)
      returns (refreshed: bool)
      modifies this
      ensures refreshed <==> old(running) && now - old(lastUpdate) >= refreshRate * Second
      ensures refreshed ==> data == old(data) + Batch(score, entered, tweetsPerRefresh, now)
      ensures refreshed ==> lastUpdate == now
      ensures !refreshed ==> data == old(data) && lastUpdate == old(lastUpdate)
      ensures running == old(running) && keyword == old(keyword)
      ensures old(Valid()) ==> Valid()
      ensures 0 <= refreshRate && old(InOrder()) ==> InOrder()
    {
      refreshed := running && now - lastUpdate >= refreshRate * Second;
      if refreshed {
        var tweets := FakeTweets(entered, tweetsPerRefresh);
        var newData := ClassifyAll(score, now, tweets);
        ghost var batch := Batch(score, entered, tweetsPerRefresh, now);
        assert newData == batch;
        AppendBatchKeepsInvariants(data, batch, lastUpdate, now);
        data := data + newData;
        lastUpdate := now;
      }
    }
  }
}
