/**
 The simulated tweet source of the dashboard (`get_fake_tweets`): fifteen fixed
 templates with the keyword filled in, of which the first `n` are returned, with the
 meaning Python gives to the slice `[:n]` for any integer `n`.
 */
module Tweets {

  /** How many sample templates there are. */
  const TemplateCount := 15

  /** The text before and after the keyword in sample template `i`, in order. */
  function Frame(i: nat): (string, string)
    requires i < TemplateCount
  {
    match i
    case 0 => ("I love my new ", ", it's absolutely amazing! Best purchase ever!")
    case 1 => ("", " is the worst product I've ever used. Complete waste of money.")
    case 2 => ("", " has completely transformed my daily routine for the better!")
    case 3 => ("I'm so disappointed with ", ". It broke after just one week.")
    case 4 => ("Highly recommend ", " to everyone! Excellent quality and service.")
    case 5 => ("Avoid ", " at all costs. Terrible customer support experience.")
    case 6 => ("Absolutely in love with my ", "! Worth every penny!")
    case 7 => ("", " stopped working after 2 days. Very frustrated!")
    case 8 => ("", " has exceeded all my expectations. Fantastic product!")
    case 9 => ("Regret buying ", ". Poor build quality and performance.")
    case 10 => ("", " is a game-changer! Can't imagine life without it now.")
    case 11 => ("Never buying ", " again. Complete garbage.")
    case 12 => ("", " customer service is outstanding! They went above and beyond.")
    case 13 => ("", " is a scam. Don't fall for their marketing.")
    case _ => ("Best decision I ever made was purchasing ", "!")
  }

  /** The fifteen sample tweets about `keyword`. */
  function Templates(keyword: string): (ts: seq<string>)
    ensures |ts| == 15
  {
    seq(TemplateCount, i requires 0 <= i < TemplateCount => Frame(i).0 + keyword + Frame(i).1)
  }

  /** Where Python's `xs[:n]` stops on a list of length `len`: a negative `n` counts from
      the end, and the bound is clamped to the list. */
  function SliceStop(len: nat, n: int): (stop: nat)
    ensures stop <= len
  {
    if n >= 0 then (if n <= len then n else len)
    else if len + n >= 0 then len + n else 0
  }

  /** get_fake_tweets(keyword, n): `Templates(keyword)[:n]`. */
  function FakeTweets(keyword: string, n: int): (ts: seq<string>)
    ensures ts <= Templates(keyword)
    ensures 0 <= n ==> |ts| == if n <= 15 then n else 15
    ensures n < 0 ==> |ts| == if n >= -15 then 15 + n else 0
  {
    Templates(keyword)[..SliceStop(15, n)]
  }

  /** Asking for more tweets only adds tweets at the end. */
  lemma FakeTweetsGrow(keyword: string, n: int, m: int)
    requires 0 <= n <= m
    ensures FakeTweets(keyword, n) <= FakeTweets(keyword, m)
  {
    assert SliceStop(15, n) <= SliceStop(15, m);
  }

  /** Every tweet mentions the keyword, right after its template's fixed opening. */
  lemma TweetMentionsKeyword(keyword: string, n: int, i: int)
    requires 0 <= i < |FakeTweets(keyword, n)|
    ensures |Frame(i).0| + |keyword| <= |FakeTweets(keyword, n)[i]|
    ensures FakeTweets(keyword, n)[i][|Frame(i).0|..|Frame(i).0| + |keyword|] == keyword
  {
    var t := FakeTweets(keyword, n)[i];
    assert t == Frame(i).0 + keyword + Frame(i).1;
  }
}
