/** URL query strings as the consumer builds them: Python 2's
    urllib.quote_plus and urlencode (used by issuer_query in
    src/oic/oic/consumer.py), together with a decoder that plays the role
    of the provider reading the query back. */
module UrlQuery {

  /** A Python 2 byte string: every character is one octet. */
  predicate IsOctets(s: string) {
    forall i :: 0 <= i < |s| ==> s[i] as int < 256
  }

  /** The characters quote_plus leaves alone (urllib.always_safe). */
  predicate IsAlwaysSafe(c: char) {
    ('A' <= c <= 'Z') || ('a' <= c <= 'z') || ('0' <= c <= '9') || c == '_' || c == '.' || c == '-'
  }

  const HexDigits: string := "0123456789ABCDEF"

  predicate IsHexDigit(c: char) {
    ('0' <= c <= '9') || ('A' <= c <= 'F') || ('a' <= c <= 'f')
  }

  function HexValue(c: char): (n: nat)
    requires IsHexDigit(c)
    ensures n < 16
  {
    if '0' <= c <= '9' then c as int - '0' as int
    else if 'A' <= c <= 'F' then c as int - 'A' as int + 10
    else c as int - 'a' as int + 10
  }

  lemma HexDigitRoundTrip(n: nat)
    requires n < 16
    ensures IsHexDigit(HexDigits[n]) && HexValue(HexDigits[n]) == n
  {
    if n < 10 {
      assert HexDigits[n] as int == '0' as int + n;
    } else {
      assert HexDigits[n] as int == 'A' as int + n - 10;
    }
  }

  /** The characters quote_plus may write. */
  predicate IsQuotedChar(c: char) {
    IsAlwaysSafe(c) || c == '+' || c == '%'
  }

  /** One octet as quote_plus writes it: itself, '+' for a space, or %XX. */
  function QuoteChar(c: char): (r: string)
    requires c as int < 256
    ensures forall i :: 0 <= i < |r| ==> IsQuotedChar(r[i])
  {
    if IsAlwaysSafe(c) then [c]
    else if c == ' ' then "+"
    else ['%', HexDigits[c as int / 16], HexDigits[c as int % 16]]
  }

  /** urllib.quote_plus(s) with the default empty `safe` set. The result
      never contains the separators a query string is cut at. */
  function QuotePlus(s: string): (r: string)
    requires IsOctets(s)
    ensures forall i :: 0 <= i < |r| ==> IsQuotedChar(r[i])
    ensures '&' !in r && '=' !in r && '?' !in r && '#' !in r
  {
    if s == [] then []
    else
      QuoteChar(s[0]) + QuotePlus(s[1..])
  }

  /** quote_plus works octet by octet, so it distributes over concatenation. */
  lemma {:induction false} QuotePlusAppend(a: string, b: string)
    requires IsOctets(a) && IsOctets(b)
    ensures IsOctets(a + b) && QuotePlus(a + b) == QuotePlus(a) + QuotePlus(b)
  {
    OctetsAppend(a, b);
    if a == [] {
      assert a + b == b;
    } else {
      var ab := a + b;
      assert ab[0] == a[0];
      assert ab[1..] == a[1..] + b;
      QuotePlusAppend(a[1..], b);
      assert QuotePlus(ab) == QuoteChar(a[0]) + QuotePlus(a[1..] + b);
    }
  }

  lemma OctetsAppend(a: string, b: string)
    requires IsOctets(a) && IsOctets(b)
    ensures IsOctets(a + b)
  {
    forall i | 0 <= i < |a + b|
      ensures (a + b)[i] as int < 256
    {
      if i < |a| { assert (a + b)[i] == a[i]; } else { assert (a + b)[i] == b[i - |a|]; }
    }
  }

  /** quote_plus leaves a string of always-safe characters unchanged. */
  lemma {:induction false} QuotePlusSafe(s: string)
    requires forall i :: 0 <= i < |s| ==> IsAlwaysSafe(s[i])
    ensures IsOctets(s) && QuotePlus(s) == s
  {
    if s != [] {
      QuotePlusSafe(s[1..]);
      assert s == [s[0]] + s[1..];
    }
  }

  /** urllib.unquote_plus: '+' is a space, %XX (either case) an octet. */
  function UnquotePlus(s: string): string
  {
    if s == [] then []
    else if s[0] == '+' then " " + UnquotePlus(s[1..])
    else if s[0] == '%' && |s| >= 3 && IsHexDigit(s[1]) && IsHexDigit(s[2]) then
      [(16 * HexValue(s[1]) + HexValue(s[2])) as char] + UnquotePlus(s[3..])
    else [s[0]] + UnquotePlus(s[1..])
  }

  lemma UnquoteQuoteChar(c: char, t: string)
    requires c as int < 256
    ensures UnquotePlus(QuoteChar(c) + t) == [c] + UnquotePlus(t)
  {
    var q := QuoteChar(c) + t;
    if IsAlwaysSafe(c) {
      assert q[0] == c && q[1..] == t;
    } else if c == ' ' {
      assert q[0] == '+' && q[1..] == t;
    } else {
      var hi, lo := c as int / 16, c as int % 16;
      HexDigitRoundTrip(hi);
      HexDigitRoundTrip(lo);
      assert q[0] == '%' && q[1] == HexDigits[hi] && q[2] == HexDigits[lo] && q[3..] == t;
      assert 16 * hi + lo == c as int;
    }
  }

  /** Decoding undoes quote_plus on every byte string. */
  lemma {:induction false} UnquoteQuote(s: string)
    requires IsOctets(s)
    ensures UnquotePlus(QuotePlus(s)) == s
  {
    if s != [] {
      UnquoteQuoteChar(s[0], QuotePlus(s[1..]));
      UnquoteQuote(s[1..]);
      assert s == [s[0]] + s[1..];
    }
  }

  /** Python's `s.startswith(p)`. */
  predicate IsPrefix(p: string, s: string) {
    |p| <= |s| && s[..|p|] == p
  }

  /** Python's `t in s` on strings. */
  predicate HasSubstring(s: string, t: string)
    ensures HasSubstring(s, t) ==> |t| <= |s|
  {
    IsPrefix(t, s) || (s != [] && HasSubstring(s[1..], t))
  }

  /** `t in s` holds exactly when t starts at some position of s. */
  lemma {:induction false} HasSubstringAt(s: string, t: string)
    ensures HasSubstring(s, t) <==> exists i :: 0 <= i <= |s| && IsPrefix(t, s[i..])
  {
    assert s[0..] == s;
    if s != [] {
      HasSubstringAt(s[1..], t);
      if HasSubstring(s[1..], t) {
        var j :| 0 <= j <= |s[1..]| && IsPrefix(t, s[1..][j..]);
        assert s[1..][j..] == s[j + 1..];
      }
      if i :| 0 < i <= |s| && IsPrefix(t, s[i..]) {
        assert s[1..][i - 1..] == s[i..];
      }
    }
  }

  /** The parts of s between occurrences of sep (Python's str.split(sep)). */
  function Split(s: string, sep: char): (parts: seq<string>)
    ensures |parts| >= 1
    ensures forall i :: 0 <= i < |parts| ==> sep !in parts[i]
  {
    if s == [] then [""]
    else
      var rest := Split(s[1..], sep);
      if s[0] == sep then [""] + rest else [[s[0]] + rest[0]] + rest[1..]
  }

  /** sep.join(parts) */
  function Join(parts: seq<string>, sep: char): string
  {
    if |parts| == 0 then ""
    else if |parts| == 1 then parts[0]
    else parts[0] + [sep] + Join(parts[1..], sep)
  }

  /** Joining the parts of a split gives the string back. */
  lemma {:induction false} JoinSplit(s: string, sep: char)
    ensures Join(Split(s, sep), sep) == s
  {
    if s != [] {
      var rest := Split(s[1..], sep);
      JoinSplit(s[1..], sep);
      if s[0] == sep {
        assert ([""] + rest)[1..] == rest;
      } else {
        var parts := [[s[0]] + rest[0]] + rest[1..];
        assert parts[1..] == rest[1..];
        if |rest| > 1 {
          assert Join(rest, sep) == rest[0] + [sep] + Join(rest[1..], sep);
        }
      }
      assert s == [s[0]] + s[1..];
    }
  }

  /** Splitting at a separator occurrence splits the two sides independently. */
  lemma {:induction false} SplitAppend(a: string, b: string, sep: char)
    ensures Split(a + [sep] + b, sep) == Split(a, sep) + Split(b, sep)
  {
    var s := a + [sep] + b;
    if a == [] {
      assert s[0] == sep && s[1..] == b;
    } else {
      assert s[0] == a[0] && s[1..] == a[1..] + [sep] + b;
      SplitAppend(a[1..], b, sep);
    }
  }

  lemma {:induction false} SplitNoSep(p: string, sep: char)
    requires sep !in p
    ensures Split(p, sep) == [p]
  {
    if p != [] {
      SplitNoSep(p[1..], sep);
      assert p == [p[0]] + p[1..];
    }
  }

  /** Splitting a join gives the parts back when no part holds the separator. */
  lemma {:induction false} SplitJoin(parts: seq<string>, sep: char)
    requires |parts| >= 1
    requires forall i :: 0 <= i < |parts| ==> sep !in parts[i]
    ensures Split(Join(parts, sep), sep) == parts
  {
    if |parts| == 1 {
      SplitNoSep(parts[0], sep);
    } else {
      SplitJoin(parts[1..], sep);
      SplitAppend(parts[0], Join(parts[1..], sep), sep);
      SplitNoSep(parts[0], sep);
      assert parts == [parts[0]] + parts[1..];
    }
  }

  predicate PairsAreOctets(pairs: seq<(string, string)>) {
    forall i :: 0 <= i < |pairs| ==> IsOctets(pairs[i].0) && IsOctets(pairs[i].1)
  }

  /** The `key=value` items urlencode writes, one per pair. */
  function EncodePairs(pairs: seq<(string, string)>): (items: seq<string>)
    requires PairsAreOctets(pairs)
    ensures |items| == |pairs|
    ensures forall i :: 0 <= i < |items| ==> '&' !in items[i] && '?' !in items[i] && '#' !in items[i]
  {
    if pairs == [] then []
    else
      [QuotePlus(pairs[0].0) + "=" + QuotePlus(pairs[0].1)] + EncodePairs(pairs[1..])
  }

  /** urllib.urlencode over the pairs in the given order. */
  function UrlEncode(pairs: seq<(string, string)>): (q: string)
    requires PairsAreOctets(pairs)
    ensures '?' !in q && '#' !in q
  {
    var items := EncodePairs(pairs);
    JoinHasNo(items, '&', '?');
    JoinHasNo(items, '&', '#');
    Join(items, '&')
  }

  /** urlencode of one pair: its item. */
  lemma EncodeOne(k: string, v: string)
    requires IsOctets(k) && IsOctets(v)
    ensures PairsAreOctets([(k, v)])
    ensures EncodePairs([(k, v)]) == [QuotePlus(k) + "=" + QuotePlus(v)]
  {
    var pairs := [(k, v)];
    assert pairs[0] == (k, v) && pairs[1..] == [];
  }

  lemma JoinTwo(a: string, b: string, sep: char)
    ensures Join([a] + [b], sep) == a + [sep] + b
  {
    assert ([a] + [b])[1..] == [b];
  }

  lemma FirstAndRest<T>(x: T, y: T)
    ensures [x, y][0] == x && [x, y][1..] == [y]
  {
  }

  lemma EncodeTwo(k1: string, v1: string, k2: string, v2: string)
    requires IsOctets(k1) && IsOctets(v1) && IsOctets(k2) && IsOctets(v2)
    ensures PairsAreOctets([(k1, v1), (k2, v2)])
    ensures EncodePairs([(k1, v1), (k2, v2)]) ==
              [QuotePlus(k1) + "=" + QuotePlus(v1)] + [QuotePlus(k2) + "=" + QuotePlus(v2)]
  {
    EncodeOne(k2, v2);
    FirstAndRest((k1, v1), (k2, v2));
  }

  /** urlencode of two pairs: both items, joined by '&'. */
  lemma UrlEncodeTwo(k1: string, v1: string, k2: string, v2: string)
    requires IsOctets(k1) && IsOctets(v1) && IsOctets(k2) && IsOctets(v2)
    ensures PairsAreOctets([(k1, v1), (k2, v2)])
    ensures UrlEncode([(k1, v1), (k2, v2)]) ==
              (QuotePlus(k1) + "=" + QuotePlus(v1)) + ['&'] + (QuotePlus(k2) + "=" + QuotePlus(v2))
  {
    EncodeTwo(k1, v1, k2, v2);
    JoinTwo(QuotePlus(k1) + "=" + QuotePlus(v1), QuotePlus(k2) + "=" + QuotePlus(v2), '&');
  }

  /** One `key=value` item read back: split at the first '='. */
  function DecodePair(item: string): (string, string)
  {
    var kv := Split(item, '=');
    (UnquotePlus(kv[0]), UnquotePlus(Join(kv[1..], '=')))
  }

  function DecodeItems(items: seq<string>): (pairs: seq<(string, string)>)
    ensures |pairs| == |items|
  {
    if items == [] then [] else [DecodePair(items[0])] + DecodeItems(items[1..])
  }

  /** A query string read back into its pairs, blank values kept. */
  function DecodeQuery(q: string): seq<(string, string)>
  {
    if q == "" then [] else DecodeItems(Split(q, '&'))
  }

  /** The query part of a URL: the text after its first '?', up to a '#'. */
  function QueryOf(url: string): string
  {
    var parts := Split(url, '?');
    if |parts| == 1 then "" else Split(Join(parts[1..], '?'), '#')[0]
  }

  /** The part of a URL before its first '?'. */
  function BaseOf(url: string): string
  {
    Split(url, '?')[0]
  }

  lemma {:induction false} DecodeEncodedItems(pairs: seq<(string, string)>)
    requires PairsAreOctets(pairs)
    ensures DecodeItems(EncodePairs(pairs)) == pairs
  {
    if pairs != [] {
      DecodeEncodedItem(pairs[0].0, pairs[0].1);
      DecodeEncodedItems(pairs[1..]);
      assert EncodePairs(pairs)[1..] == EncodePairs(pairs[1..]);
      assert pairs == [pairs[0]] + pairs[1..];
    }
  }

  /** One item urlencode wrote reads back as its pair. */
  lemma DecodeEncodedItem(k: string, v: string)
    requires IsOctets(k) && IsOctets(v)
    ensures DecodePair(QuotePlus(k) + "=" + QuotePlus(v)) == (k, v)
  {
    var qk, qv := QuotePlus(k), QuotePlus(v);
    SplitAppend(qk, qv, '=');
    SplitNoSep(qk, '=');
    SplitNoSep(qv, '=');
    assert Split(qk + "=" + qv, '=') == [qk, qv];
    assert [qk, qv][1..] == [qv];
    UnquoteQuote(k);
    UnquoteQuote(v);
  }

  /** Reading back what urlencode wrote gives exactly the pairs, in order. */
  lemma DecodeUrlEncode(pairs: seq<(string, string)>)
    requires PairsAreOctets(pairs)
    ensures DecodeQuery(UrlEncode(pairs)) == pairs
  {
    var items := EncodePairs(pairs);
    if pairs != [] {
      SplitJoin(items, '&');
      if |items| > 1 {
        assert UrlEncode(pairs) == items[0] + ['&'] + Join(items[1..], '&');
      }
      assert |items[0]| > 0 by { assert '=' in items[0]; }
      DecodeEncodedItems(pairs);
    }
  }

  /** A URL made of a '?'-free base and an encoded query splits back into both. */
  lemma {:induction false} UrlWithQuery(base: string, pairs: seq<(string, string)>)
    requires '?' !in base
    requires PairsAreOctets(pairs)
    ensures BaseOf(base + "?" + UrlEncode(pairs)) == base
    ensures DecodeQuery(QueryOf(base + "?" + UrlEncode(pairs))) == pairs
  {
    var q := UrlEncode(pairs);
    var items := EncodePairs(pairs);
    assert '?' !in q && '#' !in q by {
      if pairs != [] { SplitJoin(items, '&'); JoinHasNo(items, '&', '?'); JoinHasNo(items, '&', '#'); }
    }
    SplitAppend(base, q, '?');
    SplitNoSep(base, '?');
    SplitNoSep(q, '?');
    SplitNoSep(q, '#');
    assert Split(base + "?" + q, '?') == [base, q];
    assert [base, q][1..] == [q];
    DecodeUrlEncode(pairs);
  }

  /** A join holds a character only if a part or the separator does. */
  lemma {:induction false} JoinHasNo(parts: seq<string>, sep: char, c: char)
    requires c != sep
    requires forall i :: 0 <= i < |parts| ==> c !in parts[i]
    ensures c !in Join(parts, sep)
  {
    if |parts| > 1 {
      JoinHasNo(parts[1..], sep, c);
    }
  }
}
