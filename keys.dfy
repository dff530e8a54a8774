/** The string keys `getGridKey` and `getChunkKey` build for the occupancy set
    and the chunk registry: the template `${a},${b}` over two integers.
    The rest of the model keys both collections by the pair (a, b) itself;
    KeyInjective below is what makes that faithful. */
module Keys {
  import opened Options

  predicate IsDigit(c: char) {
    '0' <= c <= '9'
  }

  predicate IsDigits(s: string) {
    |s| > 0 && forall i :: 0 <= i < |s| ==> IsDigit(s[i])
  }

  function DigitChar(d: int): (c: char)
    requires 0 <= d < 10
    ensures IsDigit(c) && (c as int) - ('0' as int) == d
  {
    (('0' as int) + d) as char
  }

  /** The decimal digits of a natural number, most significant first, without
      leading zeros. */
  function NatToString(n: nat): (s: string)
    ensures IsDigits(s)
    ensures |s| > 1 ==> s[0] != '0'
    decreases n
  {
    if n < 10 then [DigitChar(n)] else NatToString(n / 10) + [DigitChar(n % 10)]
  }

  /** How JavaScript writes an integer inside a template literal. */
  function IntToString(n: int): (s: string)
    ensures |s| > 0 && ',' !in s
    ensures n < 0 <==> s[0] == '-'
  {
    if n < 0 then "-" + NatToString(-n) else NatToString(n)
  }

  /** `getGridKey(gx, gy)` and `getChunkKey(cx, cy)`. */
  function Key(a: int, b: int): (s: string)
    ensures IntToString(a) <= s && |s| > |IntToString(a)| && s[|IntToString(a)|] == ','
  {
    IntToString(a) + "," + IntToString(b)
  }

  function ParseDigits(s: string): (n: nat)
    requires IsDigits(s)
    decreases |s|
  {
    var last := (s[|s| - 1] as int) - ('0' as int);
    if |s| == 1 then last else ParseDigits(s[..|s| - 1]) * 10 + last
  }

  function ParseInt(s: string): Option<int> {
    if IsDigits(s) then Some(ParseDigits(s))
    else if |s| > 1 && s[0] == '-' && IsDigits(s[1..]) then Some(0 - ParseDigits(s[1..]) as int)
    else None
  }

  /** The index of the first comma in `s`, or |s| when there is none. */
  function CommaAt(s: string): (i: nat)
    ensures i <= |s| && ',' !in s[..i]
    ensures i < |s| ==> s[i] == ','
  {
    if |s| == 0 then 0
    else if s[0] == ',' then 0
    else
      var j := CommaAt(s[1..]);
      assert s[..j + 1] == [s[0]] + s[1..][..j];
      j + 1
  }

  /** Reads a key back: the two integers on either side of the first comma. */
  function ParseKey(s: string): Option<(int, int)> {
    var i := CommaAt(s);
    if i == |s| then None
    else
      match (ParseInt(s[..i]), ParseInt(s[i + 1..]))
      case (Some(a), Some(b)) => Some((a, b))
      case _ => None
  }

  lemma {:induction false} ParseNatToString(n: nat)
    ensures ParseDigits(NatToString(n)) == n
    decreases n
  {
    var s := NatToString(n);
    if n >= 10 {
      ParseNatToString(n / 10);
      assert s[..|s| - 1] == NatToString(n / 10);
    }
  }

  lemma IntRoundTrip(n: int)
    ensures ParseInt(IntToString(n)) == Some(n)
  {
    if n < 0 {
      var s := IntToString(n);
      assert s[1..] == NatToString(-n);
      assert !IsDigits(s) by { assert !IsDigit(s[0]); }
      ParseNatToString(-n);
    } else {
      ParseNatToString(n);
    }
  }

  lemma CommaOfKey(a: int, b: int)
    ensures CommaAt(Key(a, b)) == |IntToString(a)|
  {
    var s := Key(a, b);
    var i := CommaAt(s);
    var k := |IntToString(a)|;
    if i < k {
      assert false;
    }
    if i > k {
      assert false;
    }
  }

  /** Parsing a key gives back the two integers it was built from. */
  lemma KeyRoundTrip(a: int, b: int)
    ensures ParseKey(Key(a, b)) == Some((a, b))
  {
    var s := Key(a, b);
    var k := |IntToString(a)|;
    CommaOfKey(a, b);
    assert s[..k] == IntToString(a);
    assert s[k + 1..] == IntToString(b);
    IntRoundTrip(a);
    IntRoundTrip(b);
  }

  /** Two different cells never share a key, so a set of keys is a set of cells. */
  lemma KeyInjective(a: int, b: int, c: int, d: int)
    ensures Key(a, b) == Key(c, d) <==> a == c && b == d
  {
    if Key(a, b) == Key(c, d) {
      KeyRoundTrip(a, b);
      KeyRoundTrip(c, d);
    }
  }
}
