/**
 * The endpoint codes peers exchange by hand (utils.py): an IPv4 endpoint
 * packed into six bytes, four address bytes then the port as two big-endian
 * bytes, written in URL-safe base 64; and the `host:port` splitter.
 */
module AddressCodec {
  import opened Results
  import opened Bytes
  import opened Base64Url

  /** An IPv4 address as the four bytes `socket.inet_aton` produces. */
  type IPv4 = s: seq<byte> | |s| == 4 witness [0, 0, 0, 0]

  /** An (address, port) pair. The port is a Python int, so it may be out of range. */
  datatype Endpoint = Endpoint(ip: IPv4, port: int)

  datatype CodecError =
    | PortOutOfRange               // `port.to_bytes(2, 'big')` raises OverflowError
    | Malformed(cause: DecodeError) // `urlsafe_b64decode` raises
    | ShortAddress(length: nat)     // `inet_ntoa` is handed fewer than four bytes

  datatype ParseError =
    | NoSeparator  // `split(':', 1)` yields one part, so the unpacking raises
    | NotAnInteger // `int(port)` raises

  /** `address_to_code`: six bytes, base 64 encoded. */
  function AddressToCode(e: Endpoint): (r: Result<string, CodecError>)
    ensures r.Ok? <==> 0 <= e.port < 65536
    ensures r.Ok? ==> |r.value| == 8 && forall i :: 0 <= i < 8 ==> IsAlphabet(r.value[i])
    ensures r.Ok? ==> Decode(r.value) == Ok(e.ip + ToBigEndian(e.port, 2))
  {
    match ToBytes(e.port, 2)
    case None => Err(PortOutOfRange)
    case Some(portBytes) =>
      var raw := e.ip + portBytes;
      DecodeEncode(raw);
      Ok(Encode(raw))
  }

  /**
   * `code_to_address`: the first four decoded bytes are the address and ALL
   * the remaining ones are read as the port; the decoded length is not checked.
   */
  function CodeToAddress(code: string): (r: Result<Endpoint, CodecError>)
    ensures r.Ok? <==> Decode(code).Ok? && |Decode(code).value| >= 4
    ensures r.Ok? ==> Decode(code).value == r.value.ip + Drop(Decode(code).value, 4)
    ensures r.Ok? ==> r.value.port == FromBigEndian(Drop(Decode(code).value, 4))
    ensures Decode(code).Err? ==> r == Err(Malformed(Decode(code).error))
  {
    match Decode(code)
    case Err(cause) => Err(Malformed(cause))
    case Ok(raw) =>
      if |raw| < 4 then Err(ShortAddress(|raw|))
      else Ok(Endpoint(raw[..4], FromBigEndian(raw[4..])))
  }

  /** Round trip: every endpoint with a port in 0..65535 survives encoding and decoding. */
  lemma CodeRoundTrip(e: Endpoint)
    requires 0 <= e.port < 65536
    ensures AddressToCode(e).Ok?
    ensures CodeToAddress(AddressToCode(e).value) == Ok(e)
  {
    var raw := e.ip + ToBigEndian(e.port, 2);
    assert raw[..4] == e.ip && raw[4..] == ToBigEndian(e.port, 2);
  }

  /**
   * Any byte string of at least four bytes, base 64 encoded, is accepted as a
   * code: its first four bytes are the address and all the others the port.
   */
  lemma AnyLongCodeDecodes(raw: seq<byte>)
    requires |raw| >= 4
    ensures CodeToAddress(Encode(raw)) == Ok(Endpoint(raw[..4], FromBigEndian(raw[4..])))
  {
    DecodeEncode(raw);
  }

  /**
   * Decoding accepts codes that encoding never produces: a code of four
   * address bytes and a trailing run whose big-endian value is 65536 or more
   * decodes, and the endpoint it gives cannot be encoded again.
   */
  lemma LongCodeDecodes(raw: seq<byte>)
    requires |raw| >= 4 && FromBigEndian(raw[4..]) >= 65536
    ensures CodeToAddress(Encode(raw)).Ok?
    ensures AddressToCode(CodeToAddress(Encode(raw)).value).Err?
  {
    AnyLongCodeDecodes(raw);
  }

  // ---- `parse_address` ----

  /** `s.split(sep, 1)`: the text before the first `sep` and the text after it. */
  function SplitFirst(s: string, sep: char): (r: Option<(string, string)>)
    ensures r.Some? <==> sep in s
    ensures r.Some? ==> s == r.value.0 + [sep] + r.value.1 && sep !in r.value.0
  {
    if s == [] then None
    else if s[0] == sep then Some(([], s[1..]))
    else
      match SplitFirst(s[1..], sep)
      case None => None
      case Some(parts) => Some(([s[0]] + parts.0, parts.1))
  }

  predicate IsDigit(c: char) { '0' <= c <= '9' }

  /** The value of a string of decimal digits. */
  function DigitsValue(s: string): nat
    requires forall i :: 0 <= i < |s| ==> IsDigit(s[i])
  {
    if s == [] then 0
    else
      assert IsDigit(s[|s| - 1]);
      DigitsValue(s[..|s| - 1]) * 10 + (s[|s| - 1] as int - '0' as int)
  }

  /** The shortest decimal digits of n. */
  function Digits(n: nat): (s: string)
    ensures |s| >= 1 && forall i :: 0 <= i < |s| ==> IsDigit(s[i])
    ensures DigitsValue(s) == n
    ensures |s| > 1 ==> s[0] != '0'
  {
    var last := ('0' as int + n % 10) as char;
    if n < 10 then [last]
    else
      var s := Digits(n / 10) + [last];
      assert s[..|s| - 1] == Digits(n / 10) && s[0] == Digits(n / 10)[0];
      s
  }

  /** `int(s)` for an optional sign followed by decimal digits. */
  function ParseInt(s: string): (r: Option<int>)
    ensures r.Some? ==> |s| > 0 && forall i :: 0 < i < |s| ==> IsDigit(s[i])
    ensures r.Some? && s[0] != '-' ==> r.value >= 0
    ensures r.Some? && s[0] == '-' ==> r.value <= 0
    ensures r.Some? ==> IsDigit(s[0]) || ((s[0] == '-' || s[0] == '+') && |s| > 1)
    ensures s != [] && (forall i :: 0 <= i < |s| ==> IsDigit(s[i])) ==> r == Some(DigitsValue(s))
    ensures |s| > 1 && (s[0] == '-' || s[0] == '+') && (forall i :: 1 <= i < |s| ==> IsDigit(s[i])) ==>
      r == Some(if s[0] == '-' then 0 - DigitsValue(s[1..]) as int else DigitsValue(s[1..]) as int)
  {
    var negative := |s| > 0 && s[0] == '-';
    var digits := if |s| > 0 && (s[0] == '-' || s[0] == '+') then s[1..] else s;
    assert |s| > 0 && (s[0] == '-' || s[0] == '+') ==> forall i :: 1 <= i < |s| ==> s[i] == digits[i - 1];
    assert digits != [] && !(s[0] == '-' || s[0] == '+') ==> digits[0] == s[0];
    if digits != [] && forall i :: 0 <= i < |digits| ==> IsDigit(digits[i]) then
      var magnitude: int := DigitsValue(digits);
      Some(if negative then -magnitude else magnitude)
    else None
  }

  /** `str(n)` for a Python int. */
  function FormatInt(n: int): (s: string)
    ensures |s| >= 1 && (s[0] == '-' <==> n < 0)
    ensures forall i :: (if n < 0 then 1 else 0) <= i < |s| ==> IsDigit(s[i])
  {
    if n < 0 then "-" + Digits(-n) else Digits(n)
  }

  /** `int(str(n)) == n`. */
  lemma ParseFormatInt(n: int)
    ensures ParseInt(FormatInt(n)) == Some(n)
  {
    if n < 0 {
      assert FormatInt(n)[1..] == Digits(-n);
    } else {
      assert FormatInt(n)[0] != '-' && FormatInt(n)[0] != '+';
    }
  }

  /** `parse_address`: split at the first colon; the rest must be an integer. */
  function ParseAddress(addr: string): (r: Result<(string, int), ParseError>)
    ensures ':' !in addr ==> r == Err(NoSeparator)
    ensures r.Ok? ==> ':' !in r.value.0 && |r.value.0| < |addr|
    ensures r.Ok? ==> addr[..|r.value.0| + 1] == r.value.0 + [':']
    ensures r.Ok? ==> ParseInt(addr[|r.value.0| + 1..]) == Some(r.value.1)
    ensures SplitFirst(addr, ':').Some? && ParseInt(SplitFirst(addr, ':').value.1).Some? ==> r.Ok?
    ensures SplitFirst(addr, ':').Some? && ParseInt(SplitFirst(addr, ':').value.1).None? ==> r == Err(NotAnInteger)
  {
    match SplitFirst(addr, ':')
    case None => Err(NoSeparator)
    case Some(parts) =>
      var (host, rest) := parts;
      assert addr[..|host| + 1] == host + [':'] && addr[|host| + 1..] == rest;
      match ParseInt(rest)
      case None => Err(NotAnInteger)
      case Some(port) => Ok((host, port))
  }

  /** Splitting `host:rest` at its first colon gives `host` back when it has no colon. */
  lemma {:induction false} SplitAtFirstColon(host: string, rest: string)
    requires ':' !in host
    ensures SplitFirst(host + [':'] + rest, ':') == Some((host, rest))
  {
    if host != [] {
      SplitAtFirstColon(host[1..], rest);
      assert (host + [':'] + rest)[1..] == host[1..] + [':'] + rest;
      assert [host[0]] + host[1..] == host;
    }
  }

  /** Round trip: a host without a colon and any port come back from `host:port`. */
  lemma ParseAddressFormat(host: string, port: int)
    requires ':' !in host
    ensures ParseAddress(host + [':'] + FormatInt(port)) == Ok((host, port))
  {
    SplitAtFirstColon(host, FormatInt(port));
    ParseFormatInt(port);
  }
}
