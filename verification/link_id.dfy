/**
 * extractIdFrom (test/j2uTestUtils.ts, lines 25-30): the id at the end of a
 * hypermedia link, read as `parseInt` of the text after the link's last '/'.
 * `parseInt` is modelled for an optional sign followed by decimal digits.
 */
module LinkId {
  import opened Results
  import opened Http

  predicate IsDigit(c: char)
  {
    '0' <= c <= '9'
  }

  predicate AllDigits(s: string)
  {
    forall k :: 0 <= k < |s| ==> IsDigit(s[k])
  }

  function DigitValue(c: char): nat
    requires IsDigit(c)
  {
    c as int - '0' as int
  }

  function DigitChar(d: nat): (c: char)
    requires d < 10
    ensures IsDigit(c) && DigitValue(c) == d
  {
    ('0' as int + d) as char
  }

  /**
   * `link.split('/').pop()`: the part of the link after its last '/', or the
   * whole link when it has none. The three properties pin it down: it holds no
   * '/', it ends the link, and it is the whole link or follows a '/'.
   */
  function LastSegment(link: string): (seg: string)
    ensures '/' !in seg
    ensures |seg| <= |link| && seg == link[|link| - |seg|..]
    ensures |seg| < |link| ==> link[|link| - |seg| - 1] == '/'
  {
    if |link| == 0 then ""
    else if link[|link| - 1] == '/' then ""
    else LastSegment(link[..|link| - 1]) + [link[|link| - 1]]
  }

  /** The length of the run of digits that starts `s`. */
  function LeadingDigits(s: string): (n: nat)
    ensures n <= |s|
    ensures AllDigits(s[..n])
    ensures n < |s| ==> !IsDigit(s[n])
  {
    if |s| == 0 || !IsDigit(s[0]) then 0
    else
      var n := 1 + LeadingDigits(s[1..]);
      assert s[..n] == [s[0]] + s[1..][..n - 1];
      n
  }

  /** The value of a digit string, most significant digit first. */
  function DigitsValue(ds: string): nat
    requires AllDigits(ds)
  {
    if |ds| == 0 then 0
    else 10 * DigitsValue(ds[..|ds| - 1]) + DigitValue(ds[|ds| - 1])
  }

  /** The length of the optional sign that starts `s`. */
  function SignLength(s: string): (n: nat)
    ensures n <= |s|
  {
    if |s| > 0 && (s[0] == '-' || s[0] == '+') then 1 else 0
  }

  /**
   * `parseInt(s)` for an optional sign and decimal digits: the value of the
   * digits after the sign, negated after a '-'; `None` stands for NaN, which
   * is the answer when no digit follows the sign. Whatever follows the
   * digits is ignored.
   */
  function ParseLeadingInt(s: string): (r: Option<int>)
    ensures r.None? <==> LeadingDigits(s[SignLength(s)..]) == 0
    ensures r.Some? && r.value < 0 ==> s[0] == '-'
  {
    var rest := s[SignLength(s)..];
    var n := LeadingDigits(rest);
    if n == 0 then None
    else
      var v: int := DigitsValue(rest[..n]);
      Some(if SignLength(s) == 1 && s[0] == '-' then -v else v)
  }

  /** The decimal digits of `n`, without leading zeros. */
  function Decimal(n: nat): (s: string)
    ensures |s| > 0 && AllDigits(s)
    ensures |s| > 1 ==> s[0] != '0'
  {
    if n < 10 then [DigitChar(n)] else Decimal(n / 10) + [DigitChar(n % 10)]
  }

  /** The decimal rendering of an integer, as `String(n)` or a template literal writes it. */
  function IntToString(n: int): string
  {
    if n < 0 then "-" + Decimal(-n) else Decimal(n)
  }

  /**
   * extractIdFrom(link): the integer that starts the link's last segment, or
   * the error 'Id is not present.' when that segment does not start with one.
   */
  function ExtractIdFrom(link: string): (r: Result<int, Error>)
    ensures r.Failure? ==> r.error == IdNotPresent
    ensures r.Failure? <==> LeadingDigits(LastSegment(link)[SignLength(LastSegment(link))..]) == 0
  {
    match ParseLeadingInt(LastSegment(link))
    case None => Failure(IdNotPresent)
    case Some(id) => Success(id)
  }

  lemma {:induction false} DecimalValue(n: nat)
    ensures DigitsValue(Decimal(n)) == n
  {
    if n >= 10 {
      var d := Decimal(n / 10);
      var s := Decimal(n);
      assert s == d + [DigitChar(n % 10)];
      assert s[..|s| - 1] == d;
      DecimalValue(n / 10);
    }
  }

  lemma {:induction false} LeadingDigitsOfDigitsThen(ds: string, t: string)
    requires AllDigits(ds)
    requires |t| == 0 || !IsDigit(t[0])
    ensures LeadingDigits(ds + t) == |ds|
  {
    if |ds| > 0 {
      assert (ds + t)[1..] == ds[1..] + t;
      LeadingDigitsOfDigitsThen(ds[1..], t);
    } else {
      assert ds + t == t;
    }
  }

  /**
   * parseInt reads back the decimal rendering of any integer, whatever
   * non-digit text follows it.
   */
  lemma ParseIntToString(n: int, t: string)
    requires |t| == 0 || !IsDigit(t[0])
    ensures ParseLeadingInt(IntToString(n) + t) == Some(n)
  {
    var m: nat := if n < 0 then -n else n;
    var d := Decimal(m);
    DecimalValue(m);
    LeadingDigitsOfDigitsThen(d, t);
    assert (d + t)[..|d|] == d;
    var s := IntToString(n) + t;
    if n < 0 {
      assert s == "-" + (d + t);
      assert s[SignLength(s)..] == d + t;
    } else {
      assert s == d + t;
      assert IsDigit(s[0]);
      assert s[SignLength(s)..] == d + t;
    }
  }

  /** `parseInt` of a digit run followed by a non-digit: the value of the whole run. */
  lemma ParseDigitsThen(ds: string, t: string)
    requires |ds| > 0 && AllDigits(ds)
    requires |t| == 0 || !IsDigit(t[0])
    ensures ParseLeadingInt(ds + t) == Some(DigitsValue(ds))
  {
    LeadingDigitsOfDigitsThen(ds, t);
    assert (ds + t)[0] == ds[0];
    assert (ds + t)[..|ds|] == ds;
  }

  /** Zeros in front of a digit string do not change its value. */
  lemma {:induction false} LeadingZerosValue(z: string, ds: string)
    requires forall k :: 0 <= k < |z| ==> z[k] == '0'
    requires AllDigits(ds)
    ensures AllDigits(z + ds) && DigitsValue(z + ds) == DigitsValue(ds)
  {
    if |ds| == 0 {
      assert z + ds == z;
      if |z| > 0 {
        LeadingZerosValue(z[..|z| - 1], ds);
        assert z[..|z| - 1] + ds == z[..|z| - 1];
      }
    } else {
      var w := z + ds;
      assert w[..|w| - 1] == z + ds[..|ds| - 1];
      LeadingZerosValue(z, ds[..|ds| - 1]);
    }
  }

  /**
   * `parseInt` skips leading zeros: any run of zeros, then the decimal digits
   * of `n`, then text that does not start with a digit, reads as `n`.
   */
  lemma LeadingZerosIgnored(z: string, n: nat, t: string)
    requires forall k :: 0 <= k < |z| ==> z[k] == '0'
    requires |t| == 0 || !IsDigit(t[0])
    ensures ParseLeadingInt(z + Decimal(n) + t) == Some(n)
  {
    LeadingZerosValue(z, Decimal(n));
    DecimalValue(n);
    ParseDigitsThen(z + Decimal(n), t);
  }

  /** A '+' in front of a digit does not change what `parseInt` reads. */
  lemma PlusSignIgnored(s: string)
    requires |s| > 0 && IsDigit(s[0])
    ensures ParseLeadingInt("+" + s) == ParseLeadingInt(s)
  {
  }

  /** A '-' in front of a digit negates what `parseInt` reads. */
  lemma MinusSignNegates(s: string)
    requires |s| > 0 && IsDigit(s[0])
    ensures ParseLeadingInt(s).Some?
    ensures ParseLeadingInt("-" + s) == Some(-ParseLeadingInt(s).value)
  {
  }

  /**
   * The URI of a GET of `route` for a numeric id, as the client's template
   * literals build it (`PATH + `/${id}``).
   */
  function GetUri(route: Route, id: int): string
  {
    Path(route) + "/" + IntToString(id)
  }

  /** extractIdFrom reads back the id of any request URI the client builds from a numeric id. */
  lemma ExtractIdFromGetUri(route: Route, id: int)
    ensures ExtractIdFrom(GetUri(route, id)) == Success(id)
  {
    ExtractIdRoundTrip(Path(route), id, "");
    assert Path(route) + "/" + IntToString(id) + "" == GetUri(route, id);
  }

  /** The last segment of `p + "/" + s` is `s` when `s` holds no '/'. */
  lemma {:induction false} LastSegmentAfterSlash(p: string, s: string)
    requires '/' !in s
    ensures LastSegment(p + "/" + s) == s
  {
    var link := p + "/" + s;
    if |s| == 0 {
      assert link[|link| - 1] == '/';
    } else {
      assert link[..|link| - 1] == p + "/" + s[..|s| - 1];
      assert s[..|s| - 1] + [s[|s| - 1]] == s;
      LastSegmentAfterSlash(p, s[..|s| - 1]);
    }
  }

  /**
   * Round trip: a link made of any prefix, a '/', an integer and a tail that
   * neither starts with a digit nor holds a '/' yields that integer.
   */
  lemma ExtractIdRoundTrip(p: string, n: int, tail: string)
    requires '/' !in tail
    requires |tail| == 0 || !IsDigit(tail[0])
    ensures ExtractIdFrom(p + "/" + IntToString(n) + tail) == Success(n)
  {
    var seg := IntToString(n) + tail;
    NoSlashInIntToString(n);
    assert '/' !in seg;
    var link := p + "/" + IntToString(n) + tail;
    assert link == p + "/" + seg;
    LastSegmentAfterSlash(p, seg);
    ParseIntToString(n, tail);
  }

  lemma NoSlashInIntToString(n: int)
    ensures '/' !in IntToString(n)
  {
  }

  /** A link that ends in '/' has an empty last segment and is always rejected. */
  lemma TrailingSlashRejected(p: string)
    ensures ExtractIdFrom(p + "/") == Failure(IdNotPresent)
  {
  }

  /** A link without '/' is parsed as a whole. */
  lemma NoSlashParsedWhole(link: string)
    requires '/' !in link
    ensures ExtractIdFrom(link) == match ParseLeadingInt(link)
      case None => Failure(IdNotPresent)
      case Some(id) => Success(id)
  {
  }
}
