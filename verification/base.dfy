/** Shared vocabulary of the model: optional and fallible values, bytes,
    Go's uint32 arithmetic, the few `strings`/`fmt` operations the plugin
    relies on, and the parsed-query map of `net/url`. */
module Base {

  datatype Option<+T> = None | Some(value: T)

  datatype Result<+T, +E> = Ok(value: T) | Err(error: E)

  /** An octet. Bit tests are written as arithmetic on its value. */
  newtype byte = x: int | 0 <= x < 0x100
  type Bytes = seq<byte>

  /** Values of Go's `uint32`; arithmetic on them is reduced modulo `Mod32`. */
  const Mod32: int := 0x1_0000_0000
  type U32 = x: int | 0 <= x < 0x1_0000_0000

  function Wrap32(x: int): U32
  {
    x % Mod32
  }

  /** `strings.HasPrefix`. */
  predicate HasPrefix(s: string, p: string)
  {
    |p| <= |s| && s[..|p|] == p
  }

  /** `strings.Contains`: `sub` occurs somewhere in `s`. */
  predicate Contains(s: string, sub: string)
  {
    exists i | 0 <= i <= |s| - |sub| :: OccursAt(s, sub, i)
  }

  predicate OccursAt(s: string, sub: string, i: int)
  {
    0 <= i && i + |sub| <= |s| && s[i..i + |sub|] == sub
  }

  lemma ContainsInfix(a: string, sub: string, b: string)
    ensures Contains(a + sub + b, sub)
  {
    var s := a + sub + b;
    assert s[|a|..|a| + |sub|] == sub;
    assert OccursAt(s, sub, |a|);
  }

  /** Position of the first `c` in `s`. */
  function IndexOf(s: string, c: char): (r: Option<nat>)
    ensures r.None? <==> c !in s
    ensures r.Some? ==> r.value < |s| && s[r.value] == c && c !in s[..r.value]
  {
    if |s| == 0 then None
    else if s[0] == c then Some(0)
    else match IndexOf(s[1..], c)
      case None => None
      case Some(k) =>
        assert s[..k + 1] == [s[0]] + s[1..][..k];
        Some(k + 1)
  }

  /** `strings.Split(u, "?")[1]` guarded by `strings.Contains(u, "?")`, as
      the two websocket handlers extract their query string: the text
      between the first `?` and the next one, or "" when there is no `?`. */
  function QueryPart(u: string): (q: string)
    ensures '?' !in q
    ensures '?' !in u ==> q == ""
  {
    match IndexOf(u, '?')
    case None => ""
    case Some(i) =>
      var rest := u[i + 1..];
      match IndexOf(rest, '?')
      case None => rest
      case Some(j) => rest[..j]
  }

  lemma {:induction false} IndexOfAfterPrefix(p: string, c: char, t: string)
    requires c !in p
    ensures IndexOf(p + [c] + t, c) == Some(|p|)
  {
    if |p| > 0 {
      assert (p + [c] + t)[1..] == p[1..] + [c] + t;
      IndexOfAfterPrefix(p[1..], c, t);
    }
  }

  /** Whatever follows the first `?` up to the next `?` (or the end) is the
      query part; anything after a second `?` is dropped. */
  lemma QueryPartOf(p: string, q: string, t: string)
    requires '?' !in p && '?' !in q
    requires t == "" || t[0] == '?'
    ensures QueryPart(p + "?" + q + t) == q
  {
    var u := p + "?" + q + t;
    assert u == p + ['?'] + (q + t);
    IndexOfAfterPrefix(p, '?', q + t);
    var rest := u[|p| + 1..];
    assert rest == q + t;
    if t == "" {
      assert rest == q;
    } else {
      assert rest == q + ['?'] + t[1..];
      IndexOfAfterPrefix(q, '?', t[1..]);
    }
  }

  /** A parsed query string, as `url.ParseQuery` returns it. */
  type Params = map<string, seq<string>>

  /** `url.Values.Get`: the first value of `key`, or "" when there is none. */
  function QueryGet(p: Params, key: string): string
  {
    if key in p && |p[key]| > 0 then p[key][0] else ""
  }

  /** The foreign `net/url` calls both websocket handlers make:
      `url.QueryUnescape` and `url.ParseQuery`, each of which can fail. */
  datatype UrlCodec = UrlCodec(unescape: string -> Option<string>, parseQuery: string -> Option<Params>)

  /** The query parameters a handler sees for `fullUrl`: it is unescaped,
      its query part extracted and parsed; `None` when either call fails. */
  function HandlerQuery(codec: UrlCodec, fullUrl: string): Option<Params>
  {
    match codec.unescape(fullUrl)
    case None => None
    case Some(decoded) => codec.parseQuery(QueryPart(decoded))
  }

  // Decimal rendering of integers, as `fmt.Sprintf("%d", n)` does it.

  predicate IsDigit(c: char)
  {
    '0' <= c <= '9'
  }

  predicate AllDigits(s: string)
  {
    forall i :: 0 <= i < |s| ==> IsDigit(s[i])
  }

  function NatDigits(n: nat): (s: string)
    ensures |s| > 0 && AllDigits(s)
  {
    if n < 10 then [('0' as int + n) as char]
    else NatDigits(n / 10) + [('0' as int + n % 10) as char]
  }

  /** `fmt.Sprintf("%d", n)`. */
  function Decimal(n: int): (s: string)
    ensures |s| > 0
  {
    if n < 0 then "-" + NatDigits(-n) else NatDigits(n)
  }

  /** The value of a string of decimal digits. */
  function DigitsValue(s: string): nat
    requires AllDigits(s)
  {
    if |s| == 0 then 0
    else DigitsValue(s[..|s| - 1]) * 10 + (s[|s| - 1] as int - '0' as int)
  }

  /** Reads back what `Decimal` writes: an optional minus sign followed by
      at least one digit. */
  function ParseDecimal(s: string): Option<int>
  {
    if |s| > 1 && s[0] == '-' && AllDigits(s[1..]) then Some(-(DigitsValue(s[1..]) as int))
    else if |s| > 0 && AllDigits(s) then Some(DigitsValue(s))
    else None
  }

  lemma {:induction false} NatDigitsValue(n: nat)
    ensures DigitsValue(NatDigits(n)) == n
  {
    if n >= 10 {
      var s := NatDigits(n);
      assert s[..|s| - 1] == NatDigits(n / 10);
      NatDigitsValue(n / 10);
    }
  }

  lemma DecimalRoundTrip(n: int)
    ensures ParseDecimal(Decimal(n)) == Some(n)
  {
    if n < 0 {
      var s := Decimal(n);
      assert s[1..] == NatDigits(-n);
      NatDigitsValue(-n);
    } else {
      NatDigitsValue(n);
    }
  }

  lemma DecimalInjective(a: int, b: int)
    ensures Decimal(a) == Decimal(b) <==> a == b
  {
    DecimalRoundTrip(a);
    DecimalRoundTrip(b);
  }
}
