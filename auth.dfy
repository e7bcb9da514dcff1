/** Bearer tokens (src/auth.py): the unpadded base64url codec of section 5
    of RFC 4648, the three-part JWS compact serialisation of section 7.1 of
    RFC 7515 signed with HMAC-SHA256, the "exp" check of section 4.1.4 of
    RFC 7519, and the checks on the Authorization header. HMAC-SHA256 and
    the JSON codec are parameters. */
module Auth {
  import opened Text
  import opened Values

  /** The base64url digit for a 6-bit value (RFC 4648, table 2). */
  function EncodeChar(n: nat): (c: char)
    requires n < 64
  {
    if n < 26 then ('A' as int + n) as char
    else if n < 52 then ('a' as int + (n - 26)) as char
    else if n < 62 then ('0' as int + (n - 52)) as char
    else if n == 62 then '-'
    else '_'
  }

  /** The value of a digit for urlsafe_b64decode, which maps "-" and "_" to
      "+" and "/" and then reads the standard alphabet, so both spellings of
      62 and 63 are digits. None for any other character. */
  function Sextet(c: char): (r: Option<nat>)
    ensures r.Some? ==> r.value < 64
    ensures r.Some? ==> c as int < 128 && c != '=' && c != '.' && !IsSpace(c)
  {
    if 'A' <= c <= 'Z' then Some(c as int - 'A' as int)
    else if 'a' <= c <= 'z' then Some(c as int - 'a' as int + 26)
    else if '0' <= c <= '9' then Some(c as int - '0' as int + 52)
    else if c == '-' || c == '+' then Some(62)
    else if c == '_' || c == '/' then Some(63)
    else None
  }

  lemma SextetOfEncodeChar(n: nat)
    requires n < 64
    ensures Sextet(EncodeChar(n)) == Some(n)
    ensures EncodeChar(n) != '=' && EncodeChar(n) != '.' && !IsSpace(EncodeChar(n))
    ensures EncodeChar(n) as int < 128
  {
  }

  /** Three bytes as four digits. */
  function Group(x: byte, y: byte, z: byte): string {
    [EncodeChar(x as nat / 4), EncodeChar((x as nat % 4) * 16 + y as nat / 16),
     EncodeChar((y as nat % 16) * 4 + z as nat / 64), EncodeChar(z as nat % 64)]
  }

  /** The digits of the standard encoding, without its padding. */
  function EncodeData(b: Bytes): (r: string)
    decreases |b|
  {
    if |b| >= 3 then Group(b[0], b[1], b[2]) + EncodeData(b[3..])
    else if |b| == 2 then [EncodeChar(b[0] as nat / 4), EncodeChar((b[0] as nat % 4) * 16 + b[1] as nat / 16), EncodeChar((b[1] as nat % 16) * 4)]
    else if |b| == 1 then [EncodeChar(b[0] as nat / 4), EncodeChar((b[0] as nat % 4) * 16)]
    else []
  }

  function Pads(n: nat): (r: string)
    ensures |r| == n && forall i :: 0 <= i < n ==> r[i] == '='
  {
    if n == 0 then [] else "=" + Pads(n - 1)
  }

  /** base64.urlsafe_b64encode: the digits, padded with "=" to a multiple of four. */
  function StdEncode(b: Bytes): string {
    EncodeData(b) + Pads((3 - |b| % 3) % 3)
  }

  predicate IsPad(c: char) {
    c == '='
  }

  /** Every digit of the encoding is a base64url digit. */
  predicate UrlDigits(s: string) {
    forall i :: 0 <= i < |s| ==> Sextet(s[i]).Some? && s[i] != '+' && s[i] != '/'
  }

  lemma {:induction false} EncodeDataDigits(b: Bytes)
    ensures UrlDigits(EncodeData(b))
    ensures |EncodeData(b)| == 4 * (|b| / 3) + (if |b| % 3 == 0 then 0 else |b| % 3 + 1)
    decreases |b|
  {
    if |b| >= 3 {
      EncodeDataDigits(b[3..]);
      GroupDigits(b[0], b[1], b[2]);
      DigitsConcat(Group(b[0], b[1], b[2]), EncodeData(b[3..]));
    } else if |b| == 2 {
      EncodeCharDigit(b[0] as nat / 4);
      EncodeCharDigit((b[0] as nat % 4) * 16 + b[1] as nat / 16);
      EncodeCharDigit((b[1] as nat % 16) * 4);
    } else if |b| == 1 {
      EncodeCharDigit(b[0] as nat / 4);
      EncodeCharDigit((b[0] as nat % 4) * 16);
    }
  }

  lemma EncodeCharDigit(n: nat)
    requires n < 64
    ensures Sextet(EncodeChar(n)).Some? && EncodeChar(n) != '+' && EncodeChar(n) != '/'
  {
  }

  lemma GroupDigits(x: byte, y: byte, z: byte)
    ensures UrlDigits(Group(x, y, z))
  {
    EncodeCharDigit(x as nat / 4);
    EncodeCharDigit((x as nat % 4) * 16 + y as nat / 16);
    EncodeCharDigit((y as nat % 16) * 4 + z as nat / 64);
    EncodeCharDigit(z as nat % 64);
  }

  lemma DigitsConcat(a: string, b: string)
    requires UrlDigits(a) && UrlDigits(b)
    ensures UrlDigits(a + b)
  {
    assert forall i :: |a| <= i < |a + b| ==> (a + b)[i] == b[i - |a|];
  }

  /** _b64url_encode: the encoding with its trailing "=" removed. */
  function UrlEncode(b: Bytes): (r: string)
    ensures r == EncodeData(b)
    ensures '=' !in r && UrlDigits(r)
  {
    var d := EncodeData(b);
    EncodeDataDigits(b);
    var p := (3 - |b| % 3) % 3;
    StripPads(d, p);
    RStripBy(StdEncode(b), IsPad)
  }

  lemma {:induction false} StripPads(d: string, n: nat)
    requires UrlDigits(d)
    ensures RStripBy(d + Pads(n), IsPad) == d
    ensures '=' !in d
    decreases n
  {
    assert forall i :: 0 <= i < |d| ==> d[i] != '=';
    if n > 0 {
      assert (d + Pads(n))[..|d| + n - 1] == d + Pads(n - 1);
      StripPads(d, n - 1);
    }
  }

  /** The decoding errors binascii reports. */
  datatype B64Error = NonAscii | ExtraDigit | IncorrectPadding

  /** What the decoder keeps between digits: the position within the
      current group of four and the bits still owed to the next byte. */
  predicate Owed(quad: nat, left: nat) {
    quad < 4 && left < 64 && (quad == 2 ==> left < 16) && (quad == 3 ==> left < 4) && (quad == 0 ==> left == 0)
  }

  /** binascii.a2b_base64 in its default, non-strict mode: characters that
      are not digits are skipped; once a group holds two or three digits,
      enough "=" to complete it end the decoding and the rest is ignored; a
      group left with one digit, or with two or three and too few "=", is
      an error. */
  function A2b(s: string, quad: nat, left: nat, pads: nat, out: Bytes): Result<Bytes, B64Error>
    requires Owed(quad, left)
    decreases |s|
  {
    if s == [] then
      if quad == 0 then Ok(out) else if quad == 1 then Err(ExtraDigit) else Err(IncorrectPadding)
    else if s[0] == '=' then
      if quad >= 2 && quad + pads + 1 >= 4 then Ok(out)
      else A2b(s[1..], quad, left, pads + 1, out)
    else
      match Sextet(s[0])
      case None => A2b(s[1..], quad, left, pads, out)
      case Some(v) =>
        if quad == 0 then A2b(s[1..], 1, v, 0, out)
        else if quad == 1 then A2b(s[1..], 2, v % 16, 0, out + [(left * 4 + v / 16) as byte])
        else if quad == 2 then A2b(s[1..], 3, v % 4, 0, out + [(left * 16 + v / 4) as byte])
        else A2b(s[1..], 0, 0, 0, out + [(left * 64 + v) as byte])
  }

  predicate IsAscii(s: string) {
    forall i :: 0 <= i < |s| ==> s[i] as int < 128
  }

  /** _b64url_decode: pads the text with "=" to a multiple of four and
      decodes it; a character outside ASCII is refused before decoding. */
  function UrlDecode(raw: string): (r: Result<Bytes, B64Error>)
    ensures !IsAscii(raw) ==> r == Err(NonAscii)
  {
    if !IsAscii(raw) then Err(NonAscii)
    else A2b(raw + Pads((4 - |raw| % 4) % 4), 0, 0, 0, [])
  }

  /** Decoding one group of four digits yields its three bytes. */
  lemma DecodeGroup(x: byte, y: byte, z: byte, rest: string, out: Bytes)
    ensures A2b(Group(x, y, z) + rest, 0, 0, 0, out) == A2b(rest, 0, 0, 0, out + [x, y, z])
  {
    var g := Group(x, y, z);
    var s := g + rest;
    var c0, c1, c2, c3 := x as nat / 4, (x as nat % 4) * 16 + y as nat / 16, (y as nat % 16) * 4 + z as nat / 64, z as nat % 64;
    SextetOfEncodeChar(c0);
    SextetOfEncodeChar(c1);
    SextetOfEncodeChar(c2);
    SextetOfEncodeChar(c3);
    var s1 := s[1..];
    var s2 := s1[1..];
    var s3 := s2[1..];
    assert s[0] == EncodeChar(c0) && s1[0] == EncodeChar(c1) && s2[0] == EncodeChar(c2) && s3[0] == EncodeChar(c3);
    assert s3[1..] == rest;
    assert c0 * 4 + c1 / 16 == x as nat;
    assert (c1 % 16) * 16 + c2 / 4 == y as nat;
    assert (c2 % 4) * 64 + c3 == z as nat;
    assert A2b(s, 0, 0, 0, out) == A2b(s1, 1, c0, 0, out);
    assert A2b(s1, 1, c0, 0, out) == A2b(s2, 2, c1 % 16, 0, out + [x]);
    assert A2b(s2, 2, c1 % 16, 0, out + [x]) == A2b(s3, 3, c2 % 4, 0, out + [x] + [y]);
    assert A2b(s3, 3, c2 % 4, 0, out + [x] + [y]) == A2b(rest, 0, 0, 0, out + [x] + [y] + [z]);
    assert out + [x] + [y] + [z] == out + [x, y, z];
  }

  /** The encoding of two bytes, padded, decodes to them. */
  lemma DecodeTwo(x: byte, y: byte, out: Bytes)
    ensures A2b(EncodeData([x, y]) + "=", 0, 0, 0, out) == Ok(out + [x, y])
  {
    var s := EncodeData([x, y]) + "=";
    var c0, c1, c2 := x as nat / 4, (x as nat % 4) * 16 + y as nat / 16, (y as nat % 16) * 4;
    SextetOfEncodeChar(c0);
    SextetOfEncodeChar(c1);
    SextetOfEncodeChar(c2);
    var s1 := s[1..];
    var s2 := s1[1..];
    var s3 := s2[1..];
    assert s[0] == EncodeChar(c0) && s1[0] == EncodeChar(c1) && s2[0] == EncodeChar(c2);
    assert s3 == "=";
    assert c0 * 4 + c1 / 16 == x as nat;
    assert (c1 % 16) * 16 + c2 / 4 == y as nat;
    assert A2b(s, 0, 0, 0, out) == A2b(s1, 1, c0, 0, out);
    assert A2b(s1, 1, c0, 0, out) == A2b(s2, 2, c1 % 16, 0, out + [x]);
    assert A2b(s2, 2, c1 % 16, 0, out + [x]) == A2b(s3, 3, c2 % 4, 0, out + [x] + [y]);
    assert A2b(s3, 3, c2 % 4, 0, out + [x] + [y]) == Ok(out + [x] + [y]);
    assert out + [x] + [y] == out + [x, y];
  }

  /** The encoding of one byte, padded, decodes to it. */
  lemma DecodeOne(x: byte, out: Bytes)
    ensures A2b(EncodeData([x]) + "==", 0, 0, 0, out) == Ok(out + [x])
  {
    var s := EncodeData([x]) + "==";
    var c0, c1 := x as nat / 4, (x as nat % 4) * 16;
    SextetOfEncodeChar(c0);
    SextetOfEncodeChar(c1);
    var s1 := s[1..];
    var s2 := s1[1..];
    var s3 := s2[1..];
    assert s[0] == EncodeChar(c0) && s1[0] == EncodeChar(c1);
    assert s2 == "==" && s3 == "=";
    assert c0 * 4 + c1 / 16 == x as nat;
    assert A2b(s, 0, 0, 0, out) == A2b(s1, 1, c0, 0, out);
    assert A2b(s1, 1, c0, 0, out) == A2b(s2, 2, c1 % 16, 0, out + [x]);
    assert A2b(s2, 2, c1 % 16, 0, out + [x]) == A2b(s3, 2, c1 % 16, 1, out + [x]);
    assert A2b(s3, 2, c1 % 16, 1, out + [x]) == Ok(out + [x]);
  }

  lemma {:induction false} DecodeData(b: Bytes, out: Bytes)
    ensures A2b(StdEncode(b), 0, 0, 0, out) == Ok(out + b)
    decreases |b|
  {
    if |b| >= 3 {
      var rest := b[3..];
      StdEncodeGroup(b);
      DecodeGroup(b[0], b[1], b[2], StdEncode(rest), out);
      DecodeData(rest, out + [b[0], b[1], b[2]]);
      GroupThenRest(out, b);
    } else {
      DecodeShort(b, out);
    }
  }

  lemma GroupThenRest(out: Bytes, b: Bytes)
    requires |b| >= 3
    ensures out + [b[0], b[1], b[2]] + b[3..] == out + b
  {
    assert b == [b[0], b[1], b[2]] + b[3..];
  }

  /** The standard encoding of three bytes or more starts with the group of
      the first three. */
  lemma StdEncodeGroup(b: Bytes)
    requires |b| >= 3
    ensures StdEncode(b) == Group(b[0], b[1], b[2]) + StdEncode(b[3..])
  {
    assert |b[3..]| % 3 == |b| % 3;
  }

  /** The padded encoding of fewer than three bytes decodes to them. */
  lemma DecodeShort(b: Bytes, out: Bytes)
    requires |b| < 3
    ensures A2b(StdEncode(b), 0, 0, 0, out) == Ok(out + b)
  {
    if |b| == 2 {
      assert b == [b[0], b[1]];
      assert Pads(1) == "=";
      DecodeTwo(b[0], b[1], out);
    } else if |b| == 1 {
      assert b == [b[0]];
      assert Pads(2) == "==";
      DecodeOne(b[0], out);
    } else {
      assert StdEncode(b) == [];
      assert out + b == out;
    }
  }

  /** Decoding undoes encoding: the padding _b64url_decode adds back is
      exactly the padding _b64url_encode removed. */
  lemma UrlRoundTrip(b: Bytes)
    ensures UrlDecode(UrlEncode(b)) == Ok(b)
  {
    var u := UrlEncode(b);
    EncodeDataDigits(b);
    assert IsAscii(u);
    PadsRestored(|b|);
    assert u + Pads((4 - |u| % 4) % 4) == StdEncode(b);
    DecodeData(b, []);
    assert [] + b == b;
  }

  /** The "=" count _b64url_decode adds to n bytes' unpadded encoding is
      the count the encoder removed. */
  lemma PadsRestored(n: nat)
    ensures var len := 4 * (n / 3) + (if n % 3 == 0 then 0 else n % 3 + 1);
      (4 - len % 4) % 4 == (3 - n % 3) % 3
  {
    var q, t := n / 3, n % 3;
    var len := 4 * q + (if t == 0 then 0 else t + 1);
    assert len % 4 == (if t == 0 then 0 else t + 1);
  }

  /** The ASCII bytes of a text; None when a character is outside ASCII
      (str.encode("ascii") raises). */
  function AsciiEncode(s: string): (r: Option<Bytes>)
    ensures r.Some? <==> IsAscii(s)
    ensures r.Some? ==> |r.value| == |s| && forall i :: 0 <= i < |s| ==> r.value[i] as int == s[i] as int
  {
    if IsAscii(s) then Some(seq(|s|, i requires 0 <= i < |s| => s[i] as int as byte)) else None
  }

  /** json.dumps with compact separators followed by UTF-8 encoding
      (dump), and UTF-8 decoding followed by json.loads (load, None when
      either fails). */
  datatype Json = Json(dump: Dict -> Bytes, load: Bytes -> Option<Value>)

  /** hmac.new(secret.encode("utf-8"), message, hashlib.sha256).digest() */
  type Mac = (string, Bytes) -> Bytes

  /** json.dumps({"alg": "HS256", "typ": "JWT"}, separators=(",", ":")) */
  const HeaderJson: string := "{\"alg\":\"HS256\",\"typ\":\"JWT\"}"

  function HeaderPart(): (r: string)
    ensures '.' !in r && UrlDigits(r) && |r| == 36
  {
    assert IsAscii(HeaderJson);
    EncodeDataDigits(AsciiEncode(HeaderJson).value);
    UrlEncode(AsciiEncode(HeaderJson).value)
  }

  /** header.payload.signature */
  function Compact(h: string, p: string, s: string): string {
    h + "." + p + "." + s
  }

  /** jwt_encode */
  function JwtEncode(payload: Dict, secret: string, json: Json, mac: Mac): (token: string)
    ensures |Split(token, '.')| == 3
    ensures Split(token, '.')[0] == HeaderPart()
    ensures UrlDecode(Split(token, '.')[1]) == Ok(json.dump(payload))
  {
    var h := HeaderPart();
    var p := UrlEncode(json.dump(payload));
    UrlDigitsAscii(h + "." + p);
    UrlRoundTrip(json.dump(payload));
    CompactSplit(h, p, UrlEncode(mac(secret, AsciiEncode(h + "." + p).value)));
    Compact(h, p, UrlEncode(mac(secret, AsciiEncode(h + "." + p).value)))
  }

  predicate TokenChar(c: char) {
    Sextet(c).Some? || c == '.'
  }

  lemma UrlDigitsAscii(s: string)
    requires forall i :: 0 <= i < |s| ==> TokenChar(s[i])
    ensures IsAscii(s)
  {
  }

  /** The reasons jwt_decode raises: a token not in three parts ("invalid
      token"), a signature that does not match ("bad signature"), a past
      integer "exp" ("token expired"), and any failure to encode, decode or
      parse a part. */
  datatype JwtError = InvalidToken | BadSignature | Expired | Malformed

  /** isinstance(exp, int) and now > exp */
  predicate ExpiredAt(payload: Dict, now: int) {
    "exp" in payload && IsInt(payload["exp"]) && now > AsInt(payload["exp"])
  }

  /** jwt_decode, with `now` the current time in whole seconds. The header
      part is never decoded, and the signature is compared before the
      payload is decoded. */
  function JwtDecode(token: string, secret: string, now: int, json: Json, mac: Mac): (r: Result<Dict, JwtError>)
    ensures |Split(token, '.')| != 3 ==> r == Err(InvalidToken)
  {
    var parts := Split(token, '.');
    if |parts| != 3 then Err(InvalidToken)
    else
      var signingInput := AsciiEncode(parts[0] + "." + parts[1]);
      if signingInput.None? then Err(Malformed)
      else
        var actual := UrlDecode(parts[2]);
        if actual.Err? then Err(Malformed)
        else if mac(secret, signingInput.value) != actual.value then Err(BadSignature)
        else CheckPayload(UrlDecode(parts[1]), now, json)
  }

  /** The last steps of jwt_decode, once the signature matched: decode
      and parse the payload, then check its "exp". */
  function CheckPayload(raw: Result<Bytes, B64Error>, now: int, json: Json): (r: Result<Dict, JwtError>)
    ensures r.Ok? ==> !ExpiredAt(r.value, now)
  {
    if raw.Err? then Err(Malformed)
    else
      var payload := json.load(raw.value);
      if payload.None? || !payload.value.VDict? then Err(Malformed)
      else if ExpiredAt(payload.value.entries, now) then Err(Expired)
      else Ok(payload.value.entries)
  }

  /** A well-signed token in three parts is judged by its payload alone. */
  lemma SignedCompact(h: string, p: string, s: string, secret: string, now: int, json: Json, mac: Mac)
    requires '.' !in h && '.' !in p && '.' !in s && IsAscii(h + "." + p)
    requires UrlDecode(s) == Ok(mac(secret, AsciiEncode(h + "." + p).value))
    ensures JwtDecode(Compact(h, p, s), secret, now, json, mac) == CheckPayload(UrlDecode(p), now, json)
  {
    CompactSplit(h, p, s);
  }

  /** What jwt_encode produces: three dot-free parts, the signature over
      the first two, and a payload part that decodes to the payload's JSON. */
  lemma EncodeParts(payload: Dict, secret: string, json: Json, mac: Mac)
    ensures var h := HeaderPart(); var p := UrlEncode(json.dump(payload));
      && IsAscii(h + "." + p)
      && var s := UrlEncode(mac(secret, AsciiEncode(h + "." + p).value));
      && JwtEncode(payload, secret, json, mac) == Compact(h, p, s)
      && '.' !in h && '.' !in p && '.' !in s
      && UrlDecode(s) == Ok(mac(secret, AsciiEncode(h + "." + p).value))
      && UrlDecode(p) == Ok(json.dump(payload))
  {
    var h := HeaderPart();
    var p := UrlEncode(json.dump(payload));
    UrlDigitsAscii(h + "." + p);
    UrlRoundTrip(mac(secret, AsciiEncode(h + "." + p).value));
    UrlRoundTrip(json.dump(payload));
  }

  /** A token that splits into three parts whose signature does not match
      is refused as "bad signature" whatever its payload holds. */
  lemma SignatureCheckedFirst(h: string, p: string, s: string, secret: string, now: int, json: Json, mac: Mac)
    requires '.' !in h && '.' !in p && '.' !in s && IsAscii(h + "." + p)
    requires UrlDecode(s).Ok? && UrlDecode(s).value != mac(secret, AsciiEncode(h + "." + p).value)
    ensures JwtDecode(Compact(h, p, s), secret, now, json, mac) == Err(BadSignature)
  {
    CompactSplit(h, p, s);
  }

  lemma CompactSplit(h: string, p: string, s: string)
    requires '.' !in h && '.' !in p && '.' !in s
    ensures Split(Compact(h, p, s), '.') == [h, p, s]
  {
    assert Join([h, p, s], ".") == Compact(h, p, s) by {
      assert Join([s], ".") == s;
      assert Join([p, s], ".") == p + "." + s;
    }
    SplitJoin([h, p, s], '.');
  }

  /** A token that does not expire in time decodes to the payload it was
      made from, provided the JSON codec reads back what it writes. */
  lemma JwtRoundTrip(payload: Dict, secret: string, now: int, json: Json, mac: Mac)
    requires json.load(json.dump(payload)) == Some(VDict(payload))
    requires !ExpiredAt(payload, now)
    ensures JwtDecode(JwtEncode(payload, secret, json, mac), secret, now, json, mac) == Ok(payload)
  {
    EncodeParts(payload, secret, json, mac);
    var h := HeaderPart();
    var p := UrlEncode(json.dump(payload));
    SignedCompact(h, p, UrlEncode(mac(secret, AsciiEncode(h + "." + p).value)), secret, now, json, mac);
  }

  /** An integer "exp" in the past makes a correctly signed token expire. */
  lemma JwtExpires(payload: Dict, secret: string, now: int, json: Json, mac: Mac)
    requires json.load(json.dump(payload)) == Some(VDict(payload))
    requires ExpiredAt(payload, now)
    ensures JwtDecode(JwtEncode(payload, secret, json, mac), secret, now, json, mac) == Err(Expired)
  {
    EncodeParts(payload, secret, json, mac);
    var h := HeaderPart();
    var p := UrlEncode(json.dump(payload));
    SignedCompact(h, p, UrlEncode(mac(secret, AsciiEncode(h + "." + p).value)), secret, now, json, mac);
  }

  /** The HTTP status and detail get_current_user raises with. */
  datatype Denial = Denial(status: int, detail: string)

  /** get_current_user, with `authorization` the header (None when absent)
      and `secret` the configured JWT secret. */
  function CurrentUser(authorization: Option<string>, secret: string, now: int, json: Json, mac: Mac): (r: Result<string, Denial>)
    ensures r.Ok? ==> r.value != ""
    ensures r.Err? ==> r.error.status == 401
    ensures authorization.None? || authorization.value == "" ==> r == Err(Denial(401, "missing authorization"))
  {
    if authorization.None? || authorization.value == "" then Err(Denial(401, "missing authorization"))
    else
      var a := authorization.value;
      if !StartsWith(Lower(a), "bearer ") then Err(Denial(401, "invalid authorization"))
      else
        assert a[6] == ' ' by { assert Lower(a)[6] == ' '; }
        var token := Strip(SplitOnce(a, ' ').value.1);
        match JwtDecode(token, secret, now, json, mac)
        case Err(_) => Err(Denial(401, "invalid token"))
        case Ok(payload) =>
          if "sub" in payload && payload["sub"].VStr? && payload["sub"].s != "" then Ok(payload["sub"].s)
          else Err(Denial(401, "invalid token"))
  }

  /** The text after "bearer " is the token: the scheme holds no space, so
      the first space is the one that follows it. */
  lemma BearerToken(scheme: string, token: string)
    requires |scheme| == 6 && Lower(scheme) == "bearer"
    ensures SplitOnce(scheme + " " + token, ' ').value.1 == token
  {
    var a := scheme + " " + token;
    assert a[6] == ' ';
    assert a[..6] == scheme;
    assert ' ' !in scheme by {
      forall i | 0 <= i < 6 ensures scheme[i] != ' ' {
        assert Lower(scheme)[i] == LowerChar(scheme[i]) != ' ';
      }
    }
    IndexOfCharAt(a, ' ', 6);
    assert a[7..] == token;
  }

  /** Any casing of the Bearer scheme passes the lower-cased prefix test. */
  lemma BearerPrefix(scheme: string, token: string)
    requires |scheme| == 6 && Lower(scheme) == "bearer"
    ensures StartsWith(Lower(scheme + " " + token), "bearer ")
  {
    var a := scheme + " " + token;
    assert a[..7] == scheme + " ";
    assert Lower(a)[..7] == Lower(scheme) + " ";
  }

  /** A freshly signed token for a non-empty subject, sent with any casing
      of the Bearer scheme, authenticates that subject. */
  lemma BearerAccepted(scheme: string, user: string, payload: Dict, secret: string, now: int, json: Json, mac: Mac)
    requires |scheme| == 6 && Lower(scheme) == "bearer"
    requires "sub" in payload && payload["sub"] == VStr(user) && user != ""
    requires json.load(json.dump(payload)) == Some(VDict(payload))
    requires !ExpiredAt(payload, now)
    ensures CurrentUser(Some(scheme + " " + JwtEncode(payload, secret, json, mac)), secret, now, json, mac) == Ok(user)
  {
    var token := JwtEncode(payload, secret, json, mac);
    BearerPrefix(scheme, token);
    BearerToken(scheme, token);
    TokenStripped(payload, secret, json, mac);
    JwtRoundTrip(payload, secret, now, json, mac);
  }

  /** A token holds no whitespace at either end. */
  lemma TokenStripped(payload: Dict, secret: string, json: Json, mac: Mac)
    ensures Strip(JwtEncode(payload, secret, json, mac)) == JwtEncode(payload, secret, json, mac)
  {
    EncodeParts(payload, secret, json, mac);
    var h := HeaderPart();
    var p := UrlEncode(json.dump(payload));
    var s := UrlEncode(mac(secret, AsciiEncode(h + "." + p).value));
    var token := Compact(h, p, s);
    assert token[0] == h[0];
    assert !IsSpace(token[|token| - 1]) by {
      if |s| > 0 {
        assert token[|token| - 1] == s[|s| - 1];
      } else {
        assert token[|token| - 1] == '.';
      }
    }
    StripOfStripped(token);
  }
}
