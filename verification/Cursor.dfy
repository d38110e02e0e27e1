/** Page cursors: a key as JSON, in base64url without its padding. */
module Cursor {
  import opened Wrappers

  type Byte = x: int | 0 <= x < 256
  type Sextet = x: int | 0 <= x < 64

  // ---- base64url ----

  function ToChar(n: Sextet): char {
    if n < 26 then 'A' + n as char
    else if n < 52 then 'a' + (n - 26) as char
    else if n < 62 then '0' + (n - 52) as char
    else if n == 62 then '-' else '_'
  }

  function FromChar(c: char): Option<Sextet> {
    if 'A' <= c <= 'Z' then Some((c - 'A') as int)
    else if 'a' <= c <= 'z' then Some((c - 'a') as int + 26)
    else if '0' <= c <= '9' then Some((c - '0') as int + 52)
    else if c == '-' then Some(62) else if c == '_' then Some(63) else None
  }

  lemma CharRoundTrip(n: Sextet)
    ensures FromChar(ToChar(n)) == Some(n) && ToChar(n) != '='
  {
  }

  lemma PadIsNoSextet()
    ensures FromChar('=').None?
  {
  }

  /** The characters for three bytes, and for the one or two at the end. */
  function Quad(a: Byte, b: Byte, c: Byte): string {
    [ToChar(a / 4), ToChar(a % 4 * 16 + b / 16), ToChar(b % 16 * 4 + c / 64), ToChar(c % 64)]
  }

  function Encode(bytes: seq<Byte>): string {
    if bytes == [] then ""
    else if |bytes| == 1 then Quad(bytes[0], 0, 0)[..2] + "=="
    else if |bytes| == 2 then Quad(bytes[0], bytes[1], 0)[..3] + "="
    else Quad(bytes[0], bytes[1], bytes[2]) + Encode(bytes[3..])
  }

  function Bytes(q0: Sextet, q1: Sextet, q2: Sextet, q3: Sextet): seq<Byte> {
    [q0 * 4 + q1 / 16, q1 % 16 * 16 + q2 / 4, q2 % 4 * 64 + q3]
  }

  function Decode(text: string): Option<seq<Byte>> {
    if text == "" then Some([])
    else if |text| < 4 then None
    else
      match (FromChar(text[0]), FromChar(text[1]), FromChar(text[2]), FromChar(text[3]))
      case (Some(q0), Some(q1), Some(q2), Some(q3)) =>
        (match Decode(text[4..]) case None => None case Some(rest) => Some(Bytes(q0, q1, q2, q3) + rest))
      case (Some(q0), Some(q1), Some(q2), None) =>
        if text[3..] == "=" then Some(Bytes(q0, q1, q2, 0)[..2]) else None
      case (Some(q0), Some(q1), None, None) =>
        if text[2..] == "==" then Some(Bytes(q0, q1, 0, 0)[..1]) else None
      case _ => None
  }

  /** Reading the characters for three bytes. */
  lemma ReadQuad(a: Byte, b: Byte, c: Byte)
    ensures var q := Quad(a, b, c);
      && |q| == 4 && '=' !in q && FromChar('=').None?
      && FromChar(q[0]).Some? && FromChar(q[1]).Some? && FromChar(q[2]).Some? && FromChar(q[3]).Some?
      && Bytes(FromChar(q[0]).value, FromChar(q[1]).value, FromChar(q[2]).value, FromChar(q[3]).value) == [a, b, c]
    ensures c == 0 ==> FromChar(Quad(a, b, c)[3]) == Some(0)
    ensures b == 0 && c == 0 ==> FromChar(Quad(a, b, c)[2]) == Some(0)
  {
    hide ToChar, FromChar, Bytes;
    PadIsNoSextet();
    CharRoundTrip(a / 4);
    CharRoundTrip(a % 4 * 16 + b / 16);
    CharRoundTrip(b % 16 * 4 + c / 64);
    CharRoundTrip(c % 64);
    BytesOfQuad(a, b, c);
  }

  lemma {:induction false} DecodeEncode(bytes: seq<Byte>)
    ensures Decode(Encode(bytes)) == Some(bytes)
    decreases |bytes|
  {
    hide FromChar, ToChar, Quad, Bytes;
    if |bytes| == 1 {
      ReadQuad(bytes[0], 0, 0);
      assert Encode(bytes)[2..] == "==" && bytes == [bytes[0], 0, 0][..1];
    } else if |bytes| == 2 {
      ReadQuad(bytes[0], bytes[1], 0);
      assert Encode(bytes)[3..] == "=" && bytes == [bytes[0], bytes[1], 0][..2];
    } else if |bytes| >= 3 {
      ReadQuad(bytes[0], bytes[1], bytes[2]);
      assert Encode(bytes)[4..] == Encode(bytes[3..]);
      DecodeEncode(bytes[3..]);
      assert bytes == [bytes[0], bytes[1], bytes[2]] + bytes[3..];
    }
  }

  lemma BytesOfQuad(a: Byte, b: Byte, c: Byte)
    ensures Bytes(a / 4, a % 4 * 16 + b / 16, b % 16 * 4 + c / 64, c % 64) == [a, b, c]
  {
  }

  /** The alphabet of section 5 of RFC 4648, by character codes. */
  lemma CharIs(n: Sextet)
    ensures ToChar(n) as int == if n < 26 then 65 + n else if n < 52 then 71 + n else if n < 62 then n - 4
      else if n == 62 then 45 else 95
  {
  }

  /** Three bytes and their four characters spell the same number of 24 bits, most significant first; bytes that are
      missing at the end count as zero, and the characters that only they would fill are padding. */
  lemma EncodeIs(bytes: seq<Byte>) returns (q: seq<Sextet>)
    requires bytes != []
    ensures |q| == 4 && Spells(bytes, q)
    ensures var text := Encode(bytes);
      && |text| >= 4 && (forall i :: 0 <= i < 4 ==> text[i] == if i <= |bytes| then ToChar(q[i]) else '=')
      && text[4..] == if |bytes| > 3 then Encode(bytes[3..]) else ""
  {
    hide ToChar;
    var (b, c) := (if |bytes| > 1 then bytes[1] else 0, if |bytes| > 2 then bytes[2] else 0);
    BitsAdd(bytes[0], b, c);
    q := [bytes[0] / 4, bytes[0] % 4 * 16 + b / 16, b % 16 * 4 + c / 64, c % 64];
  }

  ghost predicate Spells(bytes: seq<Byte>, q: seq<Sextet>)
    requires bytes != [] && |q| == 4
  {
    var a: int := bytes[0];
    var b: int := if |bytes| > 1 then bytes[1] else 0;
    var c: int := if |bytes| > 2 then bytes[2] else 0;
    var w: int := q[0];
    var x: int := q[1];
    var y: int := q[2];
    var z: int := q[3];
    a * 0x1_0000 + b * 0x100 + c == w * 0x4_0000 + x * 0x1000 + y * 0x40 + z
  }

  lemma BitsAdd(a: int, b: int, c: int)
    ensures a * 0x1_0000 + b * 0x100 + c
      == a / 4 * 0x4_0000 + (a % 4 * 16 + b / 16) * 0x1000 + (b % 16 * 4 + c / 64) * 0x40 + c % 64
  {
  }

  // ---- without the padding and back ----

  function Strip(text: string): string {
    if text != "" && text[|text| - 1] == '=' then Strip(text[..|text| - 1]) else text
  }

  function Padding(k: nat): string {
    if k == 0 then "" else Padding(k - 1) + "="
  }

  function Repad(token: string): string {
    token + Padding(-|token| % 4)
  }

  /** The characters of a text before its padding. */
  lemma {:induction false} PaddingOf(bytes: seq<Byte>) returns (body: string, k: nat)
    ensures k <= 2 && Encode(bytes) == body + Padding(k) && (|body| + k) % 4 == 0
    ensures '=' !in body
    decreases |bytes|
  {
    hide Quad, FromChar, Bytes;
    if bytes == [] {
      body, k := "", 0;
    } else if |bytes| == 1 {
      ReadQuad(bytes[0], 0, 0);
      body, k := Quad(bytes[0], 0, 0)[..2], 2;
      assert Padding(2) == "==";
    } else if |bytes| == 2 {
      ReadQuad(bytes[0], bytes[1], 0);
      body, k := Quad(bytes[0], bytes[1], 0)[..3], 1;
    } else {
      ReadQuad(bytes[0], bytes[1], bytes[2]);
      var rest;
      rest, k := PaddingOf(bytes[3..]);
      body := Quad(bytes[0], bytes[1], bytes[2]) + rest;
    }
  }

  lemma {:induction false} StripPadding(body: string, k: nat)
    requires '=' !in body
    ensures Strip(body + Padding(k)) == body
  {
    var text := body + Padding(k);
    if k > 0 {
      assert text[..|text| - 1] == body + Padding(k - 1);
      StripPadding(body, k - 1);
    } else {
      assert text == body;
    }
  }

  /** Padding to a multiple of four gives the stripped text back. */
  lemma RepadStrip(bytes: seq<Byte>)
    ensures Repad(Strip(Encode(bytes))) == Encode(bytes)
  {
    hide Encode, Strip, Padding;
    var body, k := PaddingOf(bytes);
    StripPadding(body, k);
    MissingToFour(|body|, k);
  }

  lemma MissingToFour(n: int, k: nat)
    requires k <= 2 && (n + k) % 4 == 0
    ensures -n % 4 == k
  {
  }

  // ---- cursors ----

  datatype Key = Key(createdAt: int, id: nat)

  /** What a JSON text holds: a key, and whether its time carries a time zone. */
  datatype Payload = Payload(key: Key, aware: bool)

  datatype Json = Json(dump: Key -> seq<Byte>, load: seq<Byte> -> Option<Payload>)

  /** Loading a dumped key gives it back; creation times carry a time zone. */
  ghost predicate Faithful(json: Json) {
    forall key :: json.load(json.dump(key)) == Some(Payload(key, true))
  }

  function EncodeCursor(key: Key, json: Json): string {
    Strip(Encode(json.dump(key)))
  }

  function DecodeCursor(token: string, json: Json): Option<Key> {
    match Decode(Repad(token))
    case None => None
    case Some(raw) =>
      match json.load(raw)
      case None => None
      case Some(payload) => if payload.aware then Some(payload.key) else None
  }

  /** A token gives a key exactly when it decodes to a payload with that key whose time carries a time zone. */
  lemma DecodesIff(token: string, json: Json, key: Key)
    ensures DecodeCursor(token, json) == Some(key) <==>
      Decode(token + Padding((4 - |token| % 4) % 4)).Some?
      && json.load(Decode(token + Padding((4 - |token| % 4) % 4)).value) == Some(Payload(key, true))
  {
    hide Decode, Padding;
    assert -|token| % 4 == (4 - |token| % 4) % 4;
  }

  lemma CursorRoundTrip(key: Key, json: Json)
    requires Faithful(json)
    ensures DecodeCursor(EncodeCursor(key, json), json) == Some(key)
  {
    RepadStrip(json.dump(key));
    DecodeEncode(json.dump(key));
  }
}
