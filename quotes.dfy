/**
 * `str.strip('"')`, which pipeline.py applies to the generated post: every
 * leading and every trailing double-quote character is removed.
 */
module Quotes {

  const Quote: char := '"'

  predicate AllQuotes(s: string) {
    forall k | 0 <= k < |s| :: s[k] == Quote
  }

  /** Neither starts nor ends with a quote. */
  predicate Trimmed(s: string) {
    s == [] || (s[0] != Quote && s[|s| - 1] != Quote)
  }

  /** The number of quotes that open `s`. */
  function LeadingQuotes(s: string): (n: nat)
    ensures n <= |s| && AllQuotes(s[..n])
    ensures n < |s| ==> s[n] != Quote
    decreases |s|
  {
    if s != [] && s[0] == Quote then
      var m := LeadingQuotes(s[1..]);
      assert s[..m + 1] == [s[0]] + s[1..][..m];
      m + 1
    else 0
  }

  /** The number of quotes that close `s`. */
  function TrailingQuotes(s: string): (n: nat)
    ensures n <= |s| && AllQuotes(s[|s| - n..])
    ensures n < |s| ==> s[|s| - 1 - n] != Quote
    decreases |s|
  {
    if s != [] && s[|s| - 1] == Quote then
      var init := s[..|s| - 1];
      var m := TrailingQuotes(init);
      assert s[|s| - (m + 1)..] == init[|init| - m..] + [s[|s| - 1]];
      m + 1
    else 0
  }

  /** Python's `s.strip('"')`. */
  function StripQuotes(s: string): (r: string)
    ensures |r| <= |s| && Trimmed(r)
    ensures exists i | 0 <= i <= |s| - |r| :: r == s[i..i + |r|] && AllQuotes(s[..i]) && AllQuotes(s[i + |r|..])
  {
    var i := LeadingQuotes(s);
    var t := s[i..];
    var j := |s| - TrailingQuotes(t);
    assert s[j..] == t[|t| - (|s| - j)..];
    s[i..j]
  }

  /**
   * The quote-free core is unique: any split of `s` into quotes, a trimmed
   * middle and quotes has `StripQuotes(s)` as its middle.
   */
  lemma StripQuotesUnique(s: string, i: nat, j: nat)
    requires i <= j <= |s|
    requires AllQuotes(s[..i]) && AllQuotes(s[j..]) && Trimmed(s[i..j])
    ensures StripQuotes(s) == s[i..j]
  {
    var a := LeadingQuotes(s);
    var t := s[a..];
    var b := |s| - TrailingQuotes(t);
    if i == j {
      // every character is a quote, so both sides are empty
      assert forall k | 0 <= k < |s| :: s[k] == Quote by {
        forall k | 0 <= k < |s| ensures s[k] == Quote {
          if k < i { assert s[..i][k] == s[k]; } else { assert s[j..][k - j] == s[k]; }
        }
      }
      assert a == |s|;
    } else {
      assert s[i] == s[i..j][0] && s[j - 1] == s[i..j][j - i - 1];
      QuotePrefix(s, i);
      QuotePrefix(s, a);
      assert a == i;
      assert t[|t| - (|s| - b)..] == s[b..];
      QuoteSuffix(s, j);
      QuoteSuffix(s, b);
      assert b == j;
    }
  }

  lemma QuotePrefix(s: string, i: nat)
    requires i <= |s| && AllQuotes(s[..i])
    ensures forall k | 0 <= k < i :: s[k] == Quote
  {
    forall k | 0 <= k < i ensures s[k] == Quote {
      assert s[..i][k] == s[k];
    }
  }

  lemma QuoteSuffix(s: string, j: nat)
    requires j <= |s| && AllQuotes(s[j..])
    ensures forall k | j <= k < |s| :: s[k] == Quote
  {
    forall k | j <= k < |s| ensures s[k] == Quote {
      assert s[j..][k - j] == s[k];
    }
  }

  /** Stripping a trimmed string changes nothing; so stripping is idempotent. */
  lemma StripQuotesIdempotent(s: string)
    ensures StripQuotes(StripQuotes(s)) == StripQuotes(s)
  {
    var r := StripQuotes(s);
    StripQuotesUnique(r, 0, |r|);
    assert r[0..|r|] == r;
  }

  /** `strip('"')` leaves a string alone exactly when it neither starts nor ends with a quote. */
  lemma StripQuotesFixpoint(s: string)
    ensures StripQuotes(s) == s <==> Trimmed(s)
  {
    if Trimmed(s) {
      StripQuotesUnique(s, 0, |s|);
      assert s[0..|s|] == s;
    }
  }
}
