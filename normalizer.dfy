/**
 The text normaliser of the dashboard (`preprocess_text`): four regular-expression
 deletions applied in a fixed order, then lower-casing and trimming.

 Each deletion is modelled as the left-to-right scan that Python's `re.sub` performs:
 at each position the pattern is tried; a (greedy) match is dropped and the scan resumes
 right after it, otherwise one character is kept and the scan moves on by one. Matches
 never overlap and the text produced by a deletion is not scanned again.
 */
module Normalizer {

  // ---------------------------------------------------------------------------
  // Character classes
  // ---------------------------------------------------------------------------

  predicate IsUpper(c: char) { 'A' <= c <= 'Z' }

  predicate IsLower(c: char) { 'a' <= c <= 'z' }

  /** `[A-Za-z]` */
  predicate IsAsciiLetter(c: char) { IsUpper(c) || IsLower(c) }

  predicate IsDigit(c: char) { '0' <= c <= '9' }

  /** `\s`, and what `str.strip()` removes: the whitespace of the ASCII range. */
  predicate IsSpace(c: char)
  {
    c == ' ' || c == '\t' || c == '\n' || c == '\r' || c == '\U{0B}' || c == '\U{0C}'
    || ('\U{1C}' <= c <= '\U{1F}')
  }

  /** The character classes that follow the fixed part of a pattern. */
  datatype CharClass =
    | Word     // [A-Za-z0-9_]
    | UrlChar  // [A-Za-z0-9./]

  predicate InClass(cls: CharClass, c: char)
  {
    match cls
    case Word => IsAsciiLetter(c) || IsDigit(c) || c == '_'
    case UrlChar => IsAsciiLetter(c) || IsDigit(c) || c == '.' || c == '/'
  }

  // ---------------------------------------------------------------------------
  // Patterns and anchored matching
  // ---------------------------------------------------------------------------

  /** The three token patterns deleted before the character filter. */
  datatype Pattern =
    | Mention  // @[A-Za-z0-9_]+
    | Hashtag  // #[A-Za-z0-9_]+
    | Url      // https?://[A-Za-z0-9./]+

  /** The character every match of the pattern starts with. */
  function Lead(p: Pattern): char
  {
    match p
    case Mention => '@'
    case Hashtag => '#'
    case Url => 'h'
  }

  /** A character every match of the pattern contains. */
  function Trigger(p: Pattern): char
  {
    match p
    case Mention => '@'
    case Hashtag => '#'
    case Url => ':'
  }

  /** Length of the longest prefix of `s` made of characters of class `cls`. */
  function Run(cls: CharClass, s: string): (n: nat)
    ensures n <= |s|
    ensures forall i :: 0 <= i < n ==> InClass(cls, s[i])
    ensures n < |s| ==> !InClass(cls, s[n])
  {
    if s == [] || !InClass(cls, s[0]) then 0 else 1 + Run(cls, s[1..])
  }

  /** Length of the greedy match of `<sigil>[A-Za-z0-9_]+` at the start of `s`; 0 when there is none. */
  function SigilMatch(sigil: char, s: string): (n: nat)
    ensures n <= |s|
    ensures n > 0 <==> |s| >= 2 && s[0] == sigil && InClass(Word, s[1])
    ensures n > 0 ==> s[0] == sigil
    ensures forall i :: 1 <= i < n ==> InClass(Word, s[i])
    ensures n > 0 && n < |s| ==> !InClass(Word, s[n])
  {
    if |s| >= 2 && s[0] == sigil && InClass(Word, s[1]) then 1 + Run(Word, s[1..]) else 0
  }

  /** Length of `http://` or `https://` at the start of `s`; 0 when neither is there.
      The optional `s` cannot backtrack usefully: after `https` the only way on is `://`. */
  function SchemeLen(s: string): (k: nat)
    ensures k == 0 || k == 7 || k == 8
    ensures k <= |s|
    ensures k > 0 ==> s[..k] == "http://" || s[..k] == "https://"
    ensures (|s| >= 7 && s[..7] == "http://") || (|s| >= 8 && s[..8] == "https://") ==> k > 0
  {
    if |s| >= 7 && s[..7] == "http://" then 7
    else if |s| >= 8 && s[..8] == "https://" then 8
    else 0
  }

  /** Length of the greedy match of `https?://[A-Za-z0-9./]+` at the start of `s`; 0 when there is none. */
  function UrlMatch(s: string): (n: nat)
    ensures n <= |s|
    ensures n > 0 <==> SchemeLen(s) > 0 && SchemeLen(s) < |s| && InClass(UrlChar, s[SchemeLen(s)])
    ensures n > 0 ==> n > SchemeLen(s)
    ensures forall i :: SchemeLen(s) <= i < n ==> InClass(UrlChar, s[i])
    ensures n > 0 && n < |s| ==> !InClass(UrlChar, s[n])
  {
    var k := SchemeLen(s);
    if k > 0 && k < |s| && InClass(UrlChar, s[k]) then k + Run(UrlChar, s[k..]) else 0
  }

  /** Length of the match of `p` anchored at the start of `s`; 0 when `p` does not match there. */
  function MatchLen(p: Pattern, s: string): (n: nat)
    ensures n <= |s|
    ensures n > 0 ==> s[0] == Lead(p) && Trigger(p) in s
  {
    match p
    case Mention => SigilMatch('@', s)
    case Hashtag => SigilMatch('#', s)
    case Url =>
      var n := UrlMatch(s);
      assert n > 0 ==> s[..SchemeLen(s)][0] == 'h' && s[..SchemeLen(s)][SchemeLen(s) - 3] == ':';
      n
  }

  // ---------------------------------------------------------------------------
  // One deletion pass: re.sub(pattern, '', s)
  // ---------------------------------------------------------------------------

  /** Deletes every non-overlapping, left-most greedy match of `p` from `s`; everything else is kept in order. */
  function Remove(p: Pattern, s: string): (r: string)
    ensures |r| <= |s|
    decreases |s|
  {
    if s == [] then []
    else
      var n := MatchLen(p, s);
      if n > 0 then Remove(p, s[n..]) else [s[0]] + Remove(p, s[1..])
  }

  /** True when `p` matches nowhere in `s`. */
  predicate NoMatch(p: Pattern, s: string)
  {
    forall i :: 0 <= i <= |s| ==> MatchLen(p, s[i..]) == 0
  }

  // ---------------------------------------------------------------------------
  // Character filter, lower-casing and trimming
  // ---------------------------------------------------------------------------

  /** Every character is an ASCII letter or whitespace. */
  predicate AllLettersOrSpace(s: string)
  {
    forall i :: 0 <= i < |s| ==> IsAsciiLetter(s[i]) || IsSpace(s[i])
  }

  /** Every character is a lower-case ASCII letter or whitespace. */
  predicate AllLowerOrSpace(s: string)
  {
    forall i :: 0 <= i < |s| ==> IsLower(s[i]) || IsSpace(s[i])
  }

  /** No whitespace at either end. */
  predicate Trimmed(s: string)
  {
    s == [] || (!IsSpace(s[0]) && !IsSpace(s[|s| - 1]))
  }

  /** re.sub(r'[^A-Za-z\s]', '', s): keeps the ASCII letters and the whitespace, in order. */
  function KeepLettersAndSpaces(s: string): (r: string)
    ensures AllLettersOrSpace(r)
    ensures |r| <= |s|
  {
    if s == [] then []
    else if IsAsciiLetter(s[0]) || IsSpace(s[0]) then [s[0]] + KeepLettersAndSpaces(s[1..])
    else KeepLettersAndSpaces(s[1..])
  }

  function LowerChar(c: char): char
  {
    if IsUpper(c) then c - 'A' + 'a' else c
  }

  /** str.lower() on the filtered text, where only ASCII letters and whitespace remain:
      each upper-case letter becomes its lower-case letter, every other character stays. */
  function Lower(s: string): (r: string)
    ensures |r| == |s|
    ensures forall i :: 0 <= i < |s| ==> !IsUpper(r[i])
    ensures forall i :: 0 <= i < |s| && IsUpper(s[i]) ==> IsLower(r[i]) && r[i] as int - 'a' as int == s[i] as int - 'A' as int
    ensures forall i :: 0 <= i < |s| && !IsUpper(s[i]) ==> r[i] == s[i]
  {
    seq(|s|, i requires 0 <= i < |s| => LowerChar(s[i]))
  }

  /** Drops the leading whitespace of `s`. */
  function TrimStart(s: string): (r: string)
    ensures |r| <= |s| && r == s[|s| - |r|..]
    ensures forall i :: 0 <= i < |s| - |r| ==> IsSpace(s[i])
    ensures r == [] || !IsSpace(r[0])
  {
    if s != [] && IsSpace(s[0]) then TrimStart(s[1..]) else s
  }

  /** Drops the trailing whitespace of `s`. */
  function TrimEnd(s: string): (r: string)
    ensures |r| <= |s| && r == s[..|r|]
    ensures forall i :: |r| <= i < |s| ==> IsSpace(s[i])
    ensures r == [] || !IsSpace(r[|r| - 1])
  {
    if s != [] && IsSpace(s[|s| - 1]) then TrimEnd(s[..|s| - 1]) else s
  }

  /** Number of leading whitespace characters of `s`. */
  function LeadingSpaces(s: string): nat
  {
    |s| - |TrimStart(s)|
  }

  /** str.strip(): the slice of `s` left after dropping its leading and trailing whitespace. */
  function Strip(s: string): (r: string)
    ensures Trimmed(r)
    ensures LeadingSpaces(s) + |r| <= |s| && r == s[LeadingSpaces(s)..LeadingSpaces(s) + |r|]
    ensures forall i :: 0 <= i < LeadingSpaces(s) ==> IsSpace(s[i])
    ensures forall i :: LeadingSpaces(s) + |r| <= i < |s| ==> IsSpace(s[i])
  {
    var t := TrimStart(s);
    var r := TrimEnd(t);
    assert r == [] || r[0] == t[0];
    SliceOfSuffix(s, t, r);
    r
  }

  /** A prefix `r` of a suffix `t` of `s` is a slice of `s`; where `t` continues past `r`
      with whitespace, so does `s`. */
  lemma SliceOfSuffix(s: string, t: string, r: string)
    requires |t| <= |s| && t == s[|s| - |t|..]
    requires |r| <= |t| && r == t[..|r|]
    requires forall i :: |r| <= i < |t| ==> IsSpace(t[i])
    ensures r == s[|s| - |t|..|s| - |t| + |r|]
    ensures forall i :: |s| - |t| + |r| <= i < |s| ==> IsSpace(s[i])
  {
    var k := |s| - |t|;
    forall i | k + |r| <= i < |s|
      ensures IsSpace(s[i])
    {
      assert s[i] == t[i - k];
    }
  }

  // ---------------------------------------------------------------------------
  // preprocess_text
  // ---------------------------------------------------------------------------

  /** The text with mentions, then hashtags, then URLs deleted. */
  function RemoveTokens(text: string): (r: string)
    ensures |r| <= |text|
  {
    Remove(Url, Remove(Hashtag, Remove(Mention, text)))
  }

  /** preprocess_text: the normal form that is handed to the sentiment scorer.
      It holds only lower-case ASCII letters and whitespace and has no whitespace at either end. */
  function Preprocess(text: string): (r: string)
    ensures AllLowerOrSpace(r)
    ensures Trimmed(r)
  {
    var kept := KeepLettersAndSpaces(RemoveTokens(text));
    LowerOfLettersAndSpaces(kept);
    StripKeepsLowerOrSpace(Lower(kept));
    Strip(Lower(kept))
  }

  // ---------------------------------------------------------------------------
  // Properties of the steps
  // ---------------------------------------------------------------------------

  /** The character filter leaves text of ASCII letters and whitespace as it is. */
  lemma {:induction false} KeepFixesLettersAndSpaces(s: string)
    requires AllLettersOrSpace(s)
    ensures KeepLettersAndSpaces(s) == s
  {
    if s != [] {
      KeepFixesLettersAndSpaces(s[1..]);
      assert s == [s[0]] + s[1..];
    }
  }

  /** On one character the filter keeps it exactly when it is an ASCII letter or whitespace,
      and deletes it otherwise. */
  lemma KeepOne(c: char)
    ensures KeepLettersAndSpaces([c]) == if IsAsciiLetter(c) || IsSpace(c) then [c] else []
  {
    assert [c][1..] == [];
  }

  /** The character filter works character by character. */
  lemma {:induction false} KeepAppend(a: string, b: string)
    ensures KeepLettersAndSpaces(a + b) == KeepLettersAndSpaces(a) + KeepLettersAndSpaces(b)
  {
    if a != [] {
      assert (a + b)[1..] == a[1..] + b;
      KeepAppend(a[1..], b);
    } else {
      assert a + b == b;
    }
  }

  lemma LowerOfLettersAndSpaces(s: string)
    requires AllLettersOrSpace(s)
    ensures AllLowerOrSpace(Lower(s))
  {
  }

  lemma LowerFixesLowerOrSpace(s: string)
    requires AllLowerOrSpace(s)
    ensures Lower(s) == s
  {
  }

  lemma StripKeepsLowerOrSpace(s: string)
    requires AllLowerOrSpace(s)
    ensures AllLowerOrSpace(Strip(s))
  {
    var k := LeadingSpaces(s);
    SliceLowerOrSpace(s, k, k + |Strip(s)|);
  }

  /** Any slice of lower-case letters and whitespace is lower-case letters and whitespace. */
  lemma SliceLowerOrSpace(s: string, lo: nat, hi: nat)
    requires AllLowerOrSpace(s) && lo <= hi <= |s|
    ensures AllLowerOrSpace(s[lo..hi])
  {
    assert forall i :: 0 <= i < hi - lo ==> s[lo..hi][i] == s[lo + i];
  }

  /** Text without whitespace at either end is its own strip. */
  lemma StripTrimmed(s: string)
    requires Trimmed(s)
    ensures Strip(s) == s
  {
  }

  /** A deletion pass leaves a text that lacks the lead or the trigger character of the pattern untouched. */
  lemma {:induction false} RemoveWithout(p: Pattern, s: string)
    requires Lead(p) !in s || Trigger(p) !in s
    ensures Remove(p, s) == s
    decreases |s|
  {
    if s != [] {
      assert MatchLen(p, s) == 0;
      assert s == [s[0]] + s[1..];
      RemoveWithout(p, s[1..]);
    }
  }

  /** After a mention or hashtag pass the text starts with a non-word character when the input did. */
  lemma {:induction false} SigilRemoveHead(p: Pattern, s: string)
    requires p != Url
    requires s != [] && !InClass(Word, s[0])
    ensures Remove(p, s) == [] || !InClass(Word, Remove(p, s)[0])
    decreases |s|
  {
    var n := MatchLen(p, s);
    if n > 0 && n < |s| {
      SigilRemoveHead(p, s[n..]);
    }
  }

  /** Prepending a character that starts no match keeps a text free of matches. */
  lemma NoMatchCons(p: Pattern, c: char, rest: string)
    requires NoMatch(p, rest)
    requires MatchLen(p, [c] + rest) == 0
    ensures NoMatch(p, [c] + rest)
  {
    var r := [c] + rest;
    forall i | 1 <= i <= |r| ensures MatchLen(p, r[i..]) == 0 {
      assert r[i..] == rest[i - 1..];
    }
  }

  /** A mention or hashtag pass leaves no match of its own pattern behind. */
  lemma {:induction false} SigilRemoveComplete(p: Pattern, s: string)
    requires p != Url
    ensures NoMatch(p, Remove(p, s))
    decreases |s|
  {
    if s != [] {
      var n := MatchLen(p, s);
      if n > 0 {
        SigilRemoveComplete(p, s[n..]);
      } else {
        var rest := Remove(p, s[1..]);
        SigilRemoveComplete(p, s[1..]);
        if |s| >= 2 && s[0] == Lead(p) {
          // s[0] is the sigil yet starts no match, so s[1] is not a word character
          SigilRemoveHead(p, s[1..]);
        }
        assert MatchLen(p, [s[0]] + rest) == 0;
        NoMatchCons(p, s[0], rest);
      }
    }
  }

  // ---------------------------------------------------------------------------
  // Deletions never reach across whitespace
  // ---------------------------------------------------------------------------

  /** True when `b` is empty or starts with whitespace. */
  predicate SpaceBoundary(b: string)
  {
    b == [] || IsSpace(b[0])
  }

  lemma {:induction false} RunAppend(cls: CharClass, a: string, b: string)
    requires SpaceBoundary(b)
    ensures Run(cls, a + b) == Run(cls, a)
  {
    if a != [] {
      assert (a + b)[0] == a[0];
      assert (a + b)[1..] == a[1..] + b;
      RunAppend(cls, a[1..], b);
    } else {
      assert a + b == b;
      assert b != [] ==> !InClass(cls, b[0]);
    }
  }

  lemma SchemeAppend(a: string, b: string)
    requires SpaceBoundary(b)
    ensures SchemeLen(a + b) == SchemeLen(a)
  {
    var s := a + b;
    assert forall k :: 0 <= k < 7 ==> !IsSpace("http://"[k]);
    assert forall k :: 0 <= k < 8 ==> !IsSpace("https://"[k]);
    assert |a| < 7 <= |s| ==> s[..7][|a|] == b[0];
    assert |a| < 8 <= |s| ==> s[..8][|a|] == b[0];
    if |s| >= 7 && s[..7] == "http://" {
      assert |a| >= 7;
      assert a[..7] == s[..7];
    } else if |s| >= 8 && s[..8] == "https://" {
      assert |a| >= 8;
      assert a[..8] == s[..8];
      assert a[..7] == s[..7];
    } else {
      assert |a| >= 7 ==> a[..7] == s[..7];
      assert |a| >= 8 ==> a[..8] == s[..8];
    }
  }

  lemma SigilMatchAppend(sigil: char, a: string, b: string)
    requires a != [] && SpaceBoundary(b)
    ensures SigilMatch(sigil, a + b) == SigilMatch(sigil, a)
  {
    var s := a + b;
    assert s[0] == a[0];
    assert s[1..] == a[1..] + b;
    RunAppend(Word, a[1..], b);
  }

  lemma UrlMatchAppend(a: string, b: string)
    requires SpaceBoundary(b)
    ensures UrlMatch(a + b) == UrlMatch(a)
  {
    var s := a + b;
    SchemeAppend(a, b);
    var k := SchemeLen(a);
    if 0 < k < |a| {
      assert s[k] == a[k];
      assert s[k..] == a[k..] + b;
      RunAppend(UrlChar, a[k..], b);
    }
  }

  lemma MatchLenAppend(p: Pattern, a: string, b: string)
    requires a != [] && SpaceBoundary(b)
    ensures MatchLen(p, a + b) == MatchLen(p, a)
  {
    match p
    case Mention => SigilMatchAppend('@', a, b);
    case Hashtag => SigilMatchAppend('#', a, b);
    case Url => UrlMatchAppend(a, b);
  }

  /** A deletion pass treats the pieces of a text split before a whitespace character independently. */
  lemma {:induction false} RemoveAppend(p: Pattern, a: string, b: string)
    requires SpaceBoundary(b)
    ensures Remove(p, a + b) == Remove(p, a) + Remove(p, b)
    decreases |a|, 1
  {
    if a == [] {
      assert a + b == b;
    } else if MatchLen(p, a) > 0 {
      RemoveAppendDrop(p, a, b);
    } else {
      RemoveAppendKeepHead(p, a, b);
    }
  }

  /** RemoveAppend when a match starts `a`: the match is dropped from both sides. */
  lemma {:induction false} RemoveAppendDrop(p: Pattern, a: string, b: string)
    requires SpaceBoundary(b)
    requires a != [] && MatchLen(p, a) > 0
    ensures Remove(p, a + b) == Remove(p, a) + Remove(p, b)
    decreases |a|, 0
  {
    var n := MatchLen(p, a);
    calc {
      Remove(p, a + b);
    == { RemoveAppendMatch(p, a, b); }
      Remove(p, a[n..] + b);
    == { RemoveAppend(p, a[n..], b); }
      Remove(p, a[n..]) + Remove(p, b);
    == { RemoveMatchStep(p, a); }
      Remove(p, a) + Remove(p, b);
    }
  }

  /** RemoveAppend when no match starts `a`: its first character is kept on both sides. */
  lemma {:induction false} RemoveAppendKeepHead(p: Pattern, a: string, b: string)
    requires SpaceBoundary(b)
    requires a != [] && MatchLen(p, a) == 0
    ensures Remove(p, a + b) == Remove(p, a) + Remove(p, b)
    decreases |a|, 0
  {
    calc {
      Remove(p, a + b);
    == { RemoveAppendKeep(p, a, b); }
      [a[0]] + Remove(p, a[1..] + b);
    == { RemoveAppend(p, a[1..], b); }
      [a[0]] + (Remove(p, a[1..]) + Remove(p, b));
    ==
      ([a[0]] + Remove(p, a[1..])) + Remove(p, b);
    == { RemoveKeepStep(p, a); }
      Remove(p, a) + Remove(p, b);
    }
  }

  /** One step of the scan of `a + b` where a match starts: the match lies within `a`. */
  lemma RemoveAppendMatch(p: Pattern, a: string, b: string)
    requires SpaceBoundary(b) && a != [] && MatchLen(p, a) > 0
    ensures Remove(p, a + b) == Remove(p, a[MatchLen(p, a)..] + b)
  {
    var n := MatchLen(p, a);
    MatchLenAppend(p, a, b);
    RemoveMatchStep(p, a + b);
    assert (a + b)[n..] == a[n..] + b;
  }

  /** One step of the scan of `a + b` where no match starts. */
  lemma RemoveAppendKeep(p: Pattern, a: string, b: string)
    requires SpaceBoundary(b) && a != [] && MatchLen(p, a) == 0
    ensures Remove(p, a + b) == [a[0]] + Remove(p, a[1..] + b)
  {
    var s := a + b;
    calc {
      Remove(p, s);
    == { MatchLenAppend(p, a, b); RemoveKeepStep(p, s); }
      [s[0]] + Remove(p, s[1..]);
    == { assert s[0] == a[0] && s[1..] == a[1..] + b; }
      [a[0]] + Remove(p, a[1..] + b);
    }
  }

  lemma RemoveMatchStep(p: Pattern, s: string)
    requires s != [] && MatchLen(p, s) > 0
    ensures Remove(p, s) == Remove(p, s[MatchLen(p, s)..])
  {
  }

  lemma RemoveKeepStep(p: Pattern, s: string)
    requires s != [] && MatchLen(p, s) == 0
    ensures Remove(p, s) == [s[0]] + Remove(p, s[1..])
  {
  }

  lemma RemoveTokensAppend(a: string, b: string)
    requires SpaceBoundary(b)
    ensures RemoveTokens(a + b) == RemoveTokens(a) + RemoveTokens(b)
  {
    RemoveAppend(Mention, a, b);
    var a1, b1 := Remove(Mention, a), Remove(Mention, b);
    assert SpaceBoundary(b1) by { if b != [] { assert MatchLen(Mention, b) == 0; } }
    RemoveAppend(Hashtag, a1, b1);
    var a2, b2 := Remove(Hashtag, a1), Remove(Hashtag, b1);
    assert SpaceBoundary(b2) by { if b1 != [] { assert MatchLen(Hashtag, b1) == 0; } }
    RemoveAppend(Url, a2, b2);
  }

  /** Text with no `@`, no `#` and no `:` holds no token, and all three deletions keep it whole. */
  lemma RemoveTokensWithout(s: string)
    requires '@' !in s && '#' !in s && ':' !in s
    ensures RemoveTokens(s) == s
  {
    RemoveWithout(Mention, s);
    RemoveWithout(Hashtag, s);
    RemoveWithout(Url, s);
  }

  // ---------------------------------------------------------------------------
  // Properties of preprocess_text
  // ---------------------------------------------------------------------------

  /** Text made only of lower-case letters and whitespace, without whitespace at its ends, is a fixed point. */
  lemma PreprocessFixesNormalText(s: string)
    requires AllLowerOrSpace(s) && Trimmed(s)
    ensures Preprocess(s) == s
  {
    assert '@' !in s && '#' !in s && ':' !in s;
    RemoveTokensWithout(s);
    KeepFixesLettersAndSpaces(s);
    LowerFixesLowerOrSpace(s);
    StripTrimmed(s);
  }

  /** preprocess_text is idempotent. */
  lemma PreprocessIdempotent(text: string)
    ensures Preprocess(Preprocess(text)) == Preprocess(text)
  {
    PreprocessFixesNormalText(Preprocess(text));
  }

  /** Text made only of ASCII letters and whitespace is only lower-cased and trimmed. */
  lemma PreprocessPlainText(s: string)
    requires AllLettersOrSpace(s)
    ensures Preprocess(s) == Strip(Lower(s))
  {
    assert '@' !in s && '#' !in s && ':' !in s;
    RemoveTokensWithout(s);
    KeepFixesLettersAndSpaces(s);
  }
}
