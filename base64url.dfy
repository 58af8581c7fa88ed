/**
 * Base 64 with the URL- and filename-safe alphabet of RFC 4648 section 5, as
 * Python's `base64.urlsafe_b64encode` and `base64.urlsafe_b64decode` compute it.
 *
 * The encoder pads with `=` to a multiple of four characters. The decoder is
 * CPython's lenient (non-strict) one: it first maps `-` to `+` and `_` to `/`,
 * so both alphabets are read; it skips every other character outside the
 * alphabet; and it stops at the first complete padding sequence.
 */
module Base64Url {
  import opened Results
  import opened Bytes

  /** The character standing for the 6-bit value `v`. */
  function Symbol(v: nat): (c: char)
    requires v < 64
    ensures ValueOf(c) == Some(v)
    ensures c != '=' && IsAlphabet(c)
  {
    if v < 26 then ('A' as int + v) as char
    else if v < 52 then ('a' as int + (v - 26)) as char
    else if v < 62 then ('0' as int + (v - 52)) as char
    else if v == 62 then '-'
    else '_'
  }

  /** The characters of the URL-safe alphabet. */
  predicate IsAlphabet(c: char)
  {
    'A' <= c <= 'Z' || 'a' <= c <= 'z' || '0' <= c <= '9' || c == '-' || c == '_'
  }

  /** The decoder's table: the 6-bit value of a character, if it has one. */
  function ValueOf(c: char): (r: Option<nat>)
    ensures r.Some? <==> IsAlphabet(c) || c == '+' || c == '/'
    ensures r.Some? ==> r.value < 64
  {
    if 'A' <= c <= 'Z' then Some(c as int - 'A' as int)
    else if 'a' <= c <= 'z' then Some(c as int - 'a' as int + 26)
    else if '0' <= c <= '9' then Some(c as int - '0' as int + 52)
    else if c == '-' || c == '+' then Some(62)
    else if c == '_' || c == '/' then Some(63)
    else None
  }

  /** Three bytes as four characters. */
  function EncodeGroup(b0: byte, b1: byte, b2: byte): (s: string)
    ensures |s| == 4 && forall i :: 0 <= i < 4 ==> IsAlphabet(s[i]) && s[i] as int < 128
  {
    [Symbol(b0 / 4), Symbol(b0 % 4 * 16 + b1 / 16), Symbol(b1 % 16 * 4 + b2 / 64), Symbol(b2 % 64)]
  }

  /** Three bytes fewer make one group fewer and leave the remainder by three alone. */
  lemma ThreeFewer(n: nat)
    requires n >= 3
    ensures (n + 2) / 3 == (n - 3 + 2) / 3 + 1 && n % 3 == (n - 3) % 3
  {
  }

  /** `base64.urlsafe_b64encode(bs).decode()`. */
  function Encode(bs: seq<byte>): (s: string)
    ensures |s| == 4 * ((|bs| + 2) / 3)
    ensures |bs| % 3 == 0 ==> forall i :: 0 <= i < |s| ==> IsAlphabet(s[i])
    ensures forall i :: 0 <= i < |s| ==> s[i] as int < 128
    decreases |bs|
  {
    if |bs| == 0 then []
    else if |bs| == 1 then [Symbol(bs[0] / 4), Symbol(bs[0] % 4 * 16), '=', '=']
    else if |bs| == 2 then [Symbol(bs[0] / 4), Symbol(bs[0] % 4 * 16 + bs[1] / 16), Symbol(bs[1] % 16 * 4), '=']
    else
      ThreeFewer(|bs|);
      EncodeGroup(bs[0], bs[1], bs[2]) + Encode(bs[3..])
  }

  /** Why `urlsafe_b64decode` raises. */
  datatype DecodeError =
    | NonAscii          // a str argument with a character outside ASCII
    | DanglingSymbol    // one data character more than a multiple of four
    | IncorrectPadding  // two or three data characters left without their padding

  predicate IsAscii(s: string)
  {
    forall i :: 0 <= i < |s| ==> s[i] as int < 128
  }

  /** `base64.urlsafe_b64decode(s)` for a str argument. */
  function Decode(s: string): (r: Result<seq<byte>, DecodeError>)
    ensures !IsAscii(s) <==> r == Err(NonAscii)
  {
    if !IsAscii(s) then Err(NonAscii) else Scan(s, 0, 0, 0, [])
  }

  /**
   * The decoding loop. `quad` counts the data characters of the current group
   * of four, `left` holds the bits of the previous character not yet output,
   * `pads` counts the `=` seen since the last data character.
   */
  function Scan(s: string, quad: nat, left: nat, pads: nat, out: seq<byte>): (r: Result<seq<byte>, DecodeError>)
    requires quad < 4 && left < 64
    requires quad == 2 ==> left < 16
    requires quad == 3 ==> left < 4
    ensures r != Err(NonAscii)
    ensures r.Ok? ==> out <= r.value
    decreases |s|
  {
    if s == [] then
      if quad == 0 then Ok(out)
      else if quad == 1 then Err(DanglingSymbol)
      else Err(IncorrectPadding)
    else if s[0] == '=' then
      if quad >= 2 && quad + pads + 1 >= 4 then Ok(out)
      else Scan(s[1..], quad, left, if quad >= 2 then pads + 1 else pads, out)
    else
      match ValueOf(s[0])
      case None => Scan(s[1..], quad, left, pads, out)
      case Some(v) =>
        if quad == 0 then Scan(s[1..], 1, v, 0, out)
        else if quad == 1 then Scan(s[1..], 2, v % 16, 0, out + [left * 4 + v / 16])
        else if quad == 2 then Scan(s[1..], 3, v % 4, 0, out + [left * 16 + v / 4])
        else Scan(s[1..], 0, 0, 0, out + [left * 64 + v])
  }

  /** The four 6-bit values of a group put back together give its three bytes. */
  lemma GroupBits(b0: byte, b1: byte, b2: byte)
    ensures var v0, v1, v2, v3 := b0 / 4, b0 % 4 * 16 + b1 / 16, b1 % 16 * 4 + b2 / 64, b2 % 64;
      v0 * 4 + v1 / 16 == b0 && v1 % 16 * 16 + v2 / 4 == b1 && v2 % 4 * 64 + v3 == b2
  {
  }

  /** Appending the first three elements and then the others appends them all. */
  lemma AppendFirstThree<T>(out: seq<T>, bs: seq<T>)
    requires |bs| >= 3
    ensures out + [bs[0], bs[1], bs[2]] + bs[3..] == out + bs
  {
    assert bs == [bs[0], bs[1], bs[2]] + bs[3..];
  }

  /** Decoding four data characters from a fresh group outputs the three bytes they hold. */
  lemma ScanQuad(c0: char, c1: char, c2: char, c3: char, v0: nat, v1: nat, v2: nat, v3: nat, rest: string, out: seq<byte>)
    requires ValueOf(c0) == Some(v0) && ValueOf(c1) == Some(v1) && ValueOf(c2) == Some(v2) && ValueOf(c3) == Some(v3)
    ensures Scan([c0, c1, c2, c3] + rest, 0, 0, 0, out)
         == Scan(rest, 0, 0, 0, out + [v0 * 4 + v1 / 16, v1 % 16 * 16 + v2 / 4, v2 % 4 * 64 + v3])
  {
    var s0, s1, s2, s3 := [c0, c1, c2, c3] + rest, [c1, c2, c3] + rest, [c2, c3] + rest, [c3] + rest;
    assert s0[1..] == s1 && s1[1..] == s2 && s2[1..] == s3 && s3[1..] == rest;
    assert c0 != '=' && c1 != '=' && c2 != '=' && c3 != '=';
    assert Scan(s0, 0, 0, 0, out) == Scan(s1, 1, v0, 0, out);
    assert Scan(s1, 1, v0, 0, out) == Scan(s2, 2, v1 % 16, 0, out + [v0 * 4 + v1 / 16]);
    assert Scan(s2, 2, v1 % 16, 0, out + [v0 * 4 + v1 / 16])
        == Scan(s3, 3, v2 % 4, 0, out + [v0 * 4 + v1 / 16] + [v1 % 16 * 16 + v2 / 4]);
    assert out + [v0 * 4 + v1 / 16] + [v1 % 16 * 16 + v2 / 4] + [v2 % 4 * 64 + v3]
        == out + [v0 * 4 + v1 / 16, v1 % 16 * 16 + v2 / 4, v2 % 4 * 64 + v3];
  }

  /** Decoding one encoded group of three bytes outputs them and returns to a fresh group. */
  lemma ScanGroup(b0: byte, b1: byte, b2: byte, rest: string, out: seq<byte>)
    ensures Scan(EncodeGroup(b0, b1, b2) + rest, 0, 0, 0, out) == Scan(rest, 0, 0, 0, out + [b0, b1, b2])
  {
    var v0, v1, v2, v3 := b0 / 4, b0 % 4 * 16 + b1 / 16, b1 % 16 * 4 + b2 / 64, b2 % 64;
    GroupBits(b0, b1, b2);
    ScanQuad(Symbol(v0), Symbol(v1), Symbol(v2), Symbol(v3), v0, v1, v2, v3, rest, out);
  }

  /** A lone trailing byte is encoded as two characters and `==`, and decodes back. */
  lemma ScanOne(bs: seq<byte>, out: seq<byte>)
    requires |bs| == 1
    ensures Scan(Encode(bs), 0, 0, 0, out) == Ok(out + bs)
  {
    var v0, v1 := bs[0] / 4, bs[0] % 4 * 16;
    var s0 := Encode(bs);
    assert s0[0] == Symbol(v0) && s0[1..] == [Symbol(v1), '=', '='];
    assert v0 * 4 + v1 / 16 == bs[0] && v1 % 16 == 0;
    calc {
      Scan(s0, 0, 0, 0, out);
      Scan([Symbol(v1), '=', '='], 1, v0, 0, out);
      { assert [Symbol(v1), '=', '='][1..] == ['=', '=']; }
      Scan(['=', '='], 2, 0, 0, out + [bs[0]]);
      { assert ['=', '='][1..] == ['=']; }
      Scan(['='], 2, 0, 1, out + [bs[0]]);
    }
    assert out + [bs[0]] == out + bs;
  }

  /** Two trailing bytes are encoded as three characters and `=`, and decode back. */
  lemma ScanTwo(bs: seq<byte>, out: seq<byte>)
    requires |bs| == 2
    ensures Scan(Encode(bs), 0, 0, 0, out) == Ok(out + bs)
  {
    var v0, v1, v2 := bs[0] / 4, bs[0] % 4 * 16 + bs[1] / 16, bs[1] % 16 * 4;
    var s0 := Encode(bs);
    assert s0[0] == Symbol(v0) && s0[1..] == [Symbol(v1), Symbol(v2), '='];
    assert v0 * 4 + v1 / 16 == bs[0] && v1 % 16 * 16 + v2 / 4 == bs[1];
    calc {
      Scan(s0, 0, 0, 0, out);
      Scan([Symbol(v1), Symbol(v2), '='], 1, v0, 0, out);
      { assert [Symbol(v1), Symbol(v2), '='][1..] == [Symbol(v2), '=']; }
      Scan([Symbol(v2), '='], 2, v1 % 16, 0, out + [bs[0]]);
      { assert [Symbol(v2), '='][1..] == ['=']; }
      Scan(['='], 3, v2 % 4, 0, out + [bs[0]] + [bs[1]]);
    }
    assert out + [bs[0]] + [bs[1]] == out + bs;
  }

  /** Decoding the encoding of any bytes appends exactly those bytes to the output. */
  lemma {:induction false} ScanEncode(bs: seq<byte>, out: seq<byte>)
    ensures Scan(Encode(bs), 0, 0, 0, out) == Ok(out + bs)
    decreases |bs|
  {
    if |bs| == 0 {
      assert out + bs == out;
    } else if |bs| == 1 {
      ScanOne(bs, out);
    } else if |bs| == 2 {
      ScanTwo(bs, out);
    } else {
      ScanGroup(bs[0], bs[1], bs[2], Encode(bs[3..]), out);
      ScanEncode(bs[3..], out + [bs[0], bs[1], bs[2]]);
      AppendFirstThree(out, bs);
    }
  }

  /** Round trip: decoding an encoding gives back the original bytes. */
  lemma DecodeEncode(bs: seq<byte>)
    ensures Decode(Encode(bs)) == Ok(bs)
  {
    assert IsAscii(Encode(bs));
    ScanEncode(bs, []);
    assert [] + bs == bs;
  }
}
