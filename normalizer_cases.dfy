/**
 How the token deletions of `preprocess_text` treat particular shapes of text, for all
 texts of that shape: a mention or hashtag is deleted wherever its sigil stands, even
 inside a word such as an e-mail address; a URL is deleted up to the first character that
 cannot be part of it; a scheme with no URL character after it is not a URL.
 */
module NormalizerCases {
  import opened Normalizer

  /** A run of class characters ends where the first non-class character starts. */
  lemma {:induction false} RunOfClass(cls: CharClass, w: string, rest: string)
    requires forall i :: 0 <= i < |w| ==> InClass(cls, w[i])
    requires rest == [] || !InClass(cls, rest[0])
    ensures Run(cls, w + rest) == |w|
  {
    if w != [] {
      assert (w + rest)[1..] == w[1..] + rest;
      RunOfClass(cls, w[1..], rest);
    } else {
      assert w + rest == rest;
    }
  }

  /** A character other than the pattern's lead character starts no match and is kept. */
  lemma KeepNonLead(p: Pattern, s: string)
    requires s != [] && s[0] != Lead(p)
    ensures Remove(p, s) == [s[0]] + Remove(p, s[1..])
  {
    assert MatchLen(p, s) == 0;
    RemoveKeepStep(p, s);
  }

  /** Text without the pattern's lead character passes through a deletion unchanged, and
      the scan then goes on with what follows it. */
  lemma {:induction false} KeepLeadFree(p: Pattern, u: string, rest: string)
    requires Lead(p) !in u
    ensures Remove(p, u + rest) == u + Remove(p, rest)
  {
    if u != [] {
      var s := u + rest;
      assert s[0] == u[0] && s[1..] == u[1..] + rest;
      assert u == [u[0]] + u[1..];
      KeepNonLead(p, s);
      KeepLeadFree(p, u[1..], rest);
    } else {
      assert u + rest == rest;
    }
  }

  /** The sigil followed by a word run is one match, exactly as long as sigil and run. */
  lemma SigilTokenMatch(p: Pattern, w: string, rest: string)
    requires p != Url
    requires w != [] && forall i :: 0 <= i < |w| ==> InClass(Word, w[i])
    requires rest == [] || !InClass(Word, rest[0])
    ensures MatchLen(p, [Lead(p)] + w + rest) == 1 + |w|
  {
    var token := [Lead(p)] + w + rest;
    assert token[1..] == w + rest;
    assert token[1] == w[0];
    RunOfClass(Word, w, rest);
  }

  /** `@word` and `#word` are deleted wherever they stand, with no word boundary needed
      before the sigil: in `me@mail.com` the `@mail` goes and `me.com` stays. */
  lemma SigilTokenRemoved(p: Pattern, before: string, w: string, rest: string)
    requires p != Url
    requires Lead(p) !in before
    requires w != [] && forall i :: 0 <= i < |w| ==> InClass(Word, w[i])
    requires rest == [] || !InClass(Word, rest[0])
    ensures Remove(p, before + [Lead(p)] + w + rest) == before + Remove(p, rest)
  {
    SigilTokenMatch(p, w, rest);
    TokenRemoved(p, before, [Lead(p)], w, rest);
  }

  /** A scheme followed by no URL character does not match. */
  lemma BareSchemeNoMatch(scheme: string, rest: string)
    requires scheme == "http://" || scheme == "https://"
    requires rest == [] || !InClass(UrlChar, rest[0])
    ensures MatchLen(Url, scheme + rest) == 0
  {
    var s := scheme + rest;
    assert s[..|scheme|] == scheme;
    if scheme == "https://" {
      assert s[..7][4] == 's';
    }
    assert SchemeLen(s) == |scheme|;
    assert |scheme| < |s| ==> s[|scheme|] == rest[0];
  }

  /** A scheme with no URL character after it is not a URL: it is kept, and the scan
      goes on after it. */
  lemma BareSchemeKept(scheme: string, rest: string)
    requires scheme == "http://" || scheme == "https://"
    requires rest == [] || !InClass(UrlChar, rest[0])
    ensures Remove(Url, scheme + rest) == scheme + Remove(Url, rest)
  {
    BareSchemeNoMatch(scheme, rest);
    assert Lead(Url) !in scheme[1..];
    KeepUnmatched(Url, scheme, rest);
  }

  /** A scheme followed by a run of URL characters is one match, exactly as long as the two. */
  lemma UrlTokenMatch(scheme: string, w: string, rest: string)
    requires scheme == "http://" || scheme == "https://"
    requires w != [] && forall i :: 0 <= i < |w| ==> InClass(UrlChar, w[i])
    requires rest == [] || !InClass(UrlChar, rest[0])
    ensures MatchLen(Url, scheme + w + rest) == |scheme| + |w|
  {
    var s := scheme + w + rest;
    assert s[..|scheme|] == scheme;
    if scheme == "https://" {
      assert s[..7][4] == 's';
    }
    assert SchemeLen(s) == |scheme|;
    assert s[|scheme|..] == w + rest;
    RunOfClass(UrlChar, w, rest);
  }

  /** `http://...` or `https://...` is deleted, up to the first character that cannot be in a
      URL, when the text before it has no `h` (for instance right after whitespace, with
      RemoveAppend for the rest of the text): in `see: http://x.co, ok` the `http://x.co` goes.
      A URL that begins inside an earlier URL match is not deleted: in `http://ahttp://b` the
      first match runs through `ahttp` and `://b` is left. */
  lemma UrlTokenRemoved(before: string, scheme: string, w: string, rest: string)
    requires 'h' !in before
    requires scheme == "http://" || scheme == "https://"
    requires w != [] && forall i :: 0 <= i < |w| ==> InClass(UrlChar, w[i])
    requires rest == [] || !InClass(UrlChar, rest[0])
    ensures Remove(Url, before + scheme + w + rest) == before + Remove(Url, rest)
  {
    UrlTokenMatch(scheme, w, rest);
    TokenRemoved(Url, before, scheme, w, rest);
  }

  /** A match of `head + w` behind text without the lead character is deleted, and the scan
      goes on after it. */
  lemma TokenRemoved(p: Pattern, before: string, head: string, w: string, rest: string)
    requires Lead(p) !in before
    requires head != [] && MatchLen(p, head + w + rest) == |head| + |w|
    ensures Remove(p, before + head + w + rest) == before + Remove(p, rest)
  {
    var token := head + w + rest;
    calc {
      Remove(p, before + head + w + rest);
    == { Regroup(before, head, w, rest); }
      Remove(p, before + token);
    == { KeepLeadFree(p, before, token); }
      before + Remove(p, token);
    == { RemoveMatchStep(p, token); Regroup([], head, w, rest); }
      before + Remove(p, rest);
    }
  }

  lemma Regroup(a: string, b: string, c: string, d: string)
    ensures a + b + c + d == a + (b + c + d)
    ensures (b + c + d)[|b| + |c|..] == d
  {
  }

  /** A piece that starts no match and holds the lead character nowhere else is kept whole. */
  lemma KeepUnmatched(p: Pattern, u: string, rest: string)
    requires u != [] && MatchLen(p, u + rest) == 0
    requires Lead(p) !in u[1..]
    ensures Remove(p, u + rest) == u + Remove(p, rest)
  {
    var s := u + rest;
    calc {
      Remove(p, s);
    == { RemoveKeepStep(p, s); }
      [s[0]] + Remove(p, s[1..]);
    == { assert s[0] == u[0] && s[1..] == u[1..] + rest; }
      [u[0]] + Remove(p, u[1..] + rest);
    == { KeepLeadFree(p, u[1..], rest); }
      [u[0]] + (u[1..] + Remove(p, rest));
    == { ConsAppend(u, Remove(p, rest)); }
      u + Remove(p, rest);
    }
  }

  lemma ConsAppend(u: string, x: string)
    requires u != []
    ensures [u[0]] + (u[1..] + x) == u + x
  {
    assert [u[0]] + u[1..] == u;
  }
}
