/** Base64 as in section 4 of RFC 4648: what Node's `Buffer.toString('base64')` produces
    from the image bytes the FreePik adapter receives. */
module Base64 {

  type Byte = x: int | 0 <= x < 256

  /** The 64-character alphabet of section 4 of RFC 4648. */
  function Symbol(i: int): (c: char)
    requires 0 <= i < 64
    ensures c != '=' && c != ','
  {
    if i < 26 then ('A' as int + i) as char
    else if i < 52 then ('a' as int + i - 26) as char
    else if i < 62 then ('0' as int + i - 52) as char
    else if i == 62 then '+'
    else '/'
  }

  /** Three bytes as four symbols of six bits each. */
  function Group(x: Byte, y: Byte, z: Byte): (g: string)
    ensures |g| == 4 && forall k :: 0 <= k < 4 ==> g[k] != '=' && g[k] != ','
  {
    [Symbol(x / 4), Symbol(x % 4 * 16 + y / 16), Symbol(y % 16 * 4 + z / 64), Symbol(z % 64)]
  }

  /** Each group of three bytes becomes four symbols; a final group of one or two bytes is
      completed with zero bits, cut to the symbols it needs and padded with `=`. */
  function Encode(b: seq<Byte>): string
    decreases |b|
  {
    if |b| >= 3 then Group(b[0], b[1], b[2]) + Encode(b[3..])
    else if |b| == 2 then Group(b[0], b[1], 0)[..3] + "="
    else if |b| == 1 then Group(b[0], 0, 0)[..2] + "=="
    else []
  }

  /** How many times `c` occurs in `s`. */
  function Count(s: string, c: char): nat {
    if s == [] then 0 else (if s[0] == c then 1 else 0) + Count(s[1..], c)
  }

  lemma {:induction false} CountAppend(s: string, t: string, c: char)
    ensures Count(s + t, c) == Count(s, c) + Count(t, c)
  {
    if s == [] {
      assert s + t == t;
    } else {
      assert (s + t)[0] == s[0];
      assert (s + t)[1..] == s[1..] + t;
      CountAppend(s[1..], t, c);
    }
  }

  lemma {:induction false} CountAbsent(s: string, c: char)
    requires forall k :: 0 <= k < |s| ==> s[k] != c
    ensures Count(s, c) == 0
  {
    if s != [] {
      CountAbsent(s[1..], c);
    }
  }

  /** The `=` padding the encoding of `n` bytes ends with: none, two or one. */
  function Padding(n: nat): nat {
    if n % 3 == 0 then 0 else 3 - n % 3
  }

  /** Three bytes per started group, less the padding, is the number of bytes. */
  lemma GroupsLessPadding(n: nat)
    ensures 3 * ((n + 2) / 3) - Padding(n) == n
  {
    var q := n / 3;
    assert n == 3 * q + n % 3;
    if n % 3 == 0 {
      assert (n + 2) / 3 == q;
    } else {
      assert (n + 2) / 3 == q + 1;
    }
  }

  /** Symbols followed by `p` padding characters hold `p` of them. */
  lemma PaddedCount(symbols: string, pad: string)
    requires forall k :: 0 <= k < |symbols| ==> symbols[k] != '='
    requires pad == "=" || pad == "=="
    ensures Count(symbols + pad, '=') == |pad|
  {
    CountAppend(symbols, pad, '=');
    CountAbsent(symbols, '=');
    assert "=="[1..] == "=";
    assert "="[1..] == [];
  }

  /** The encoding of at most two bytes: the padded final group. */
  lemma FinalGroupShape(b: seq<Byte>)
    requires |b| < 3
    ensures |Encode(b)| == 4 * ((|b| + 2) / 3)
    ensures Count(Encode(b), '=') == Padding(|b|)
    ensures forall k :: 0 <= k < |Encode(b)| ==> Encode(b)[k] != ','
    ensures forall k :: 0 <= k < |Encode(b)| - Padding(|b|) ==> Encode(b)[k] != '='
  {
    if |b| == 2 {
      PaddedCount(Group(b[0], b[1], 0)[..3], "=");
    } else if |b| == 1 {
      PaddedCount(Group(b[0], 0, 0)[..2], "==");
    }
  }

  /** Four characters in front of an encoding that has the shape keep it. */
  lemma GroupStepShape(g: string, rest: string, n: nat)
    requires |g| == 4 && forall k :: 0 <= k < 4 ==> g[k] != '=' && g[k] != ','
    requires |rest| == 4 * ((n + 2) / 3) && Count(rest, '=') == Padding(n)
    requires forall k :: 0 <= k < |rest| ==> rest[k] != ','
    requires forall k :: 0 <= k < |rest| - Padding(n) ==> rest[k] != '='
    ensures |g + rest| == 4 * ((n + 3 + 2) / 3)
    ensures Count(g + rest, '=') == Padding(n + 3)
    ensures forall k :: 0 <= k < |g + rest| ==> (g + rest)[k] != ','
    ensures forall k :: 0 <= k < |g + rest| - Padding(n + 3) ==> (g + rest)[k] != '='
  {
    CountAppend(g, rest, '=');
    CountAbsent(g, '=');
    assert forall k :: 4 <= k < |g + rest| ==> (g + rest)[k] == rest[k - 4];
  }

  /** An encoding is four characters per started group of three bytes, holds no comma, and
      its `=` characters are exactly the final padding. */
  lemma {:induction false} EncodeShape(b: seq<Byte>)
    ensures |Encode(b)| == 4 * ((|b| + 2) / 3)
    ensures Count(Encode(b), '=') == Padding(|b|)
    ensures forall k :: 0 <= k < |Encode(b)| ==> Encode(b)[k] != ','
    ensures forall k :: 0 <= k < |Encode(b)| - Padding(|b|) ==> Encode(b)[k] != '='
    decreases |b|
  {
    if |b| >= 3 {
      EncodeShape(b[3..]);
      GroupStepShape(Group(b[0], b[1], b[2]), Encode(b[3..]), |b| - 3);
    } else {
      FinalGroupShape(b);
    }
  }
}
