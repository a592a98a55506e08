/** Price events (internal/stream/event.go) and the order of their timestamps. */
module PriceEvents {
  import opened Basics

  datatype Quote = Quote(priceUsd: string, marketCap: string, volume24h: string, change24h: string, provider: string)

  /** The event type is constant and left out. */
  datatype PriceEvent = PriceEvent(eventId: string, symbol: string, quote: Quote, observedAt: string,
      publishedAt: string)

  /** Timestamps are compared as strings, character by character; a prefix is smaller. */
  predicate AtMost(a: string, b: string) {
    || a == ""
    || (b != "" && (a[0] < b[0] || (a[0] == b[0] && AtMost(a[1..], b[1..]))))
  }

  lemma {:induction false} AtMostTotal(a: string, b: string)
    ensures AtMost(a, b) || AtMost(b, a)
  {
    if a != "" && b != "" {
      AtMostTotal(a[1..], b[1..]);
    }
  }

  lemma {:induction false} AtMostAntisymmetric(a: string, b: string)
    requires AtMost(a, b) && AtMost(b, a)
    ensures a == b
  {
    if a != "" && b != "" {
      AtMostAntisymmetric(a[1..], b[1..]);
      assert a == [a[0]] + a[1..] && b == [b[0]] + b[1..];
    }
  }

  lemma {:induction false} AtMostTransitive(a: string, b: string, c: string)
    requires AtMost(a, b) && AtMost(b, c)
    ensures AtMost(a, c)
  {
    if a != "" && a[0] == b[0] == c[0] {
      AtMostTransitive(a[1..], b[1..], c[1..]);
    }
  }

  // ------------------------------------------------------------------
  // Which of two timestamps is the later one.
  // ------------------------------------------------------------------

  /** The two agree up to some place, where `a` has the smaller character. */
  predicate SmallerAt(a: string, b: string, k: nat) {
    k < |a| && k < |b| && a[..k] == b[..k] && a[k] < b[k]
  }

  /** `a` comes first: it is a prefix, or has the smaller character where they first differ. */
  lemma {:induction false} AtMostIff(a: string, b: string)
    ensures AtMost(a, b) <==> a <= b || exists k: nat :: SmallerAt(a, b, k)
  {
    if a != "" && b != "" {
      var a', b' := a[1..], b[1..];
      AtMostIff(a', b');
      assert a == [a[0]] + a' && b == [b[0]] + b';
      if a[0] < b[0] {
        assert SmallerAt(a, b, 0);
      }
      if k: nat :| SmallerAt(a', b', k) && a[0] == b[0] {
        SmallerBehind(a, b, k);
      }
      if k: nat :| SmallerAt(a, b, k) && k > 0 {
        SmallerAhead(a, b, k);
      }
    }
  }

  lemma SmallerBehind(a: string, b: string, k: nat)
    requires a != "" && b != "" && a[0] == b[0] && SmallerAt(a[1..], b[1..], k)
    ensures SmallerAt(a, b, k + 1)
  {
    assert a[..k+1] == [a[0]] + a[1..][..k] && b[..k+1] == [b[0]] + b[1..][..k];
  }

  lemma SmallerAhead(a: string, b: string, k: nat)
    requires k > 0 && SmallerAt(a, b, k)
    ensures a[0] == b[0] && SmallerAt(a[1..], b[1..], k - 1)
  {
    assert a[0] == a[..k][0] && b[0] == b[..k][0];
    assert a[1..][..k-1] == a[..k][1..] && b[1..][..k-1] == b[..k][1..];
  }

  /** One more character decides between strings that were equal so far. */
  lemma {:induction false} AtMostAppend(a: string, x: char, b: string, y: char)
    requires |a| == |b|
    ensures AtMost(a + [x], b + [y]) <==> if a == b then x <= y else AtMost(a, b)
  {
    if a != "" {
      var a', b' := a[1..], b[1..];
      AtMostAppend(a', x, b', y);
      assert (a + [x])[1..] == a' + [x] && (b + [y])[1..] == b' + [y];
      assert a == [a[0]] + a' && b == [b[0]] + b';
    }
  }

  predicate IsDigit(c: char) {
    '0' <= c <= '9'
  }

  predicate AllDigits(s: string) {
    forall i | 0 <= i < |s| :: IsDigit(s[i])
  }

  lemma DigitValue(c: char)
    requires IsDigit(c)
    ensures 0 <= ValueOf(c) <= 9
  {
  }

  lemma ParseLast(s: string, c: char)
    ensures Parse(s + [c]) == 10 * Parse(s) + ValueOf(c)
  {
    assert (s + [c])[..|s|] == s;
  }

  lemma DigitsOf(s: string, init: string, c: char)
    requires s == init + [c] && AllDigits(s)
    ensures AllDigits(init) && IsDigit(c)
  {
    hide IsDigit;
    assert c == s[|init|];
    forall i | 0 <= i < |init| ensures IsDigit(init[i]) {
      assert init[i] == s[i];
    }
  }

  lemma ValueOrder(c: char, d: char)
    ensures c <= d <==> ValueOf(c) <= ValueOf(d)
    ensures c == d <==> ValueOf(c) == ValueOf(d)
  {
  }

  /** On digits of equal length the order of timestamps is the order of the numbers read. */
  lemma {:induction false} AtMostIsNumeric(a: string, b: string)
    requires |a| == |b| && AllDigits(a) && AllDigits(b)
    ensures AtMost(a, b) <==> Parse(a) <= Parse(b)
    ensures a == b <==> Parse(a) == Parse(b)
  {
    if a != "" {
      hide AtMost;
      hide Parse;
      hide AllDigits;
      hide IsDigit;
      hide ValueOf;
      var n := |a| - 1;
      var a', c, b', d := a[..n], a[n], b[..n], b[n];
      assert a == a' + [c] && b == b' + [d];
      DigitsOf(a, a', c);
      DigitsOf(b, b', d);
      DigitValue(c);
      DigitValue(d);
      ParseLast(a', c);
      ParseLast(b', d);
      ValueOrder(c, d);
      AtMostAppend(a', c, b', d);
      AtMostIsNumeric(a', b');
    }
  }
}
