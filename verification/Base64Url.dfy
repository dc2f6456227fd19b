/** Unpadded base64url coding (section 5 of RFC 4648, section 2 of RFC 7515): the encoder of
    src/mock_idp/tokens.py, and the re-padding, lenient decoder of src/mock_idp/routers/debug.py. */
module Base64Url {
  import opened Wrappers
  import opened Text

  type byte = n: int | 0 <= n < 256
  type sextet = n: int | 0 <= n < 64

  /** The URL-safe alphabet: A-Z, a-z, 0-9, '-' and '_'. */
  function CharOf(v: sextet): (c: char)
    ensures c != '.' && c != '='
  {
    if v < 26 then 'A' + v as char
    else if v < 52 then 'a' + (v - 26) as char
    else if v < 62 then '0' + (v - 52) as char
    else if v == 62 then '-'
    else '_'
  }

  /** The decoder's table: the URL-safe alphabet, and also '+' and '/', which it maps alike. */
  function ValueOf(c: char): (v: Option<sextet>) {
    if 'A' <= c <= 'Z' then Some((c - 'A') as nat)
    else if 'a' <= c <= 'z' then Some((c - 'a') as nat + 26)
    else if '0' <= c <= '9' then Some((c - '0') as nat + 52)
    else if c == '-' || c == '+' then Some(62)
    else if c == '_' || c == '/' then Some(63)
    else None
  }

  /** The bits of the data, six at a time, the last group filled up with zeros. */
  function Sextets(data: seq<byte>): seq<sextet> {
    if data == [] then []
    else if |data| == 1 then [data[0] / 4, data[0] % 4 * 16]
    else if |data| == 2 then [data[0] / 4, data[0] % 4 * 16 + data[1] / 16, data[1] % 16 * 4]
    else Quad(data[0], data[1], data[2]) + Sextets(data[3..])
  }

  function Quad(a: byte, b: byte, c: byte): seq<sextet> {
    [a / 4, a % 4 * 16 + b / 16, b % 16 * 4 + c / 64, c % 64]
  }

  function Chars(vs: seq<sextet>): string {
    if vs == [] then "" else [CharOf(vs[0])] + Chars(vs[1..])
  }

  function Encode(data: seq<byte>): string {
    Chars(Sextets(data))
  }

  /** The decoder's state between two characters: position in the quad, the bits left over from
      the last character, the pad characters seen in a row, and the output. */
  datatype Scan = Scan(quad: nat, left: nat, pads: nat, out: seq<byte>)

  ghost predicate ScanOk(s: Scan) {
    && s.quad < 4
    && (s.quad == 0 ==> s.left == 0)
    && (s.quad == 1 ==> s.left < 64)
    && (s.quad == 2 ==> s.left < 16)
    && (s.quad == 3 ==> s.left < 4)
  }

  function Push(s: Scan, v: sextet): (r: Scan)
    requires ScanOk(s)
    ensures ScanOk(r)
  {
    match s.quad
    case 0 => Scan(1, v, 0, s.out)
    case 1 => Scan(2, v % 16, 0, s.out + [s.left * 4 + v / 16])
    case 2 => Scan(3, v % 4, 0, s.out + [s.left * 16 + v / 4])
    case _ => Scan(0, 0, 0, s.out + [s.left * 64 + v])
  }

  /** Characters outside the alphabet are skipped; enough padding ends the input. */
  function Decode'(text: string, s: Scan): Option<seq<byte>>
    requires ScanOk(s)
    decreases |text|
  {
    if text == "" then (if s.quad == 0 then Some(s.out) else None)
    else if text[0] == '=' then
      if s.quad >= 2 && s.quad + s.pads + 1 >= 4 then Some(s.out)
      else Decode'(text[1..], if s.quad >= 2 then s.(pads := s.pads + 1) else s)
    else if ValueOf(text[0]).None? then Decode'(text[1..], s)
    else Decode'(text[1..], Push(s, ValueOf(text[0]).value))
  }

  /** `"=" * (-len(seg) % 4)` */
  function Padding(n: nat): string {
    match n % 4
    case 0 => ""
    case 1 => "==="
    case 2 => "=="
    case _ => "="
  }

  predicate Ascii(s: string) {
    forall c :: c in s ==> c < '\U{80}'
  }

  /** A text with a character outside ASCII is refused before anything is decoded. */
  function Decode(segment: string): Option<seq<byte>> {
    if Ascii(segment) then Decode'(segment + Padding(|segment|), Scan(0, 0, 0, [])) else None
  }

  // ── Decoding undoes encoding ──────────────────────────────────────────────

  function PushAll(s: Scan, vs: seq<sextet>): (r: Scan)
    requires ScanOk(s)
    ensures ScanOk(r)
    decreases |vs|
  {
    if vs == [] then s else PushAll(Push(s, vs[0]), vs[1..])
  }

  lemma CharRoundTrip(v: sextet)
    ensures ValueOf(CharOf(v)) == Some(v) && IsUrlChar(CharOf(v))
  {
  }

  /** Reading encoded characters is pushing their values. */
  lemma {:induction false} DecodeChars(vs: seq<sextet>, rest: string, s: Scan)
    requires ScanOk(s)
    ensures Decode'(Chars(vs) + rest, s) == Decode'(rest, PushAll(s, vs))
    decreases |vs|
  {
    if vs == [] {
      assert Chars(vs) + rest == rest;
    } else {
      CharRoundTrip(vs[0]);
      var text := Chars(vs) + rest;
      assert text[0] == CharOf(vs[0]) && text[1..] == Chars(vs[1..]) + rest;
      DecodeChars(vs[1..], rest, Push(s, vs[0]));
    }
  }

  function After(out: seq<byte>, n: nat): Scan {
    Scan(if n % 3 == 0 then 0 else n % 3 + 1, 0, 0, out)
  }

  /** Two characters make the first byte of a quad, a third and a fourth the other two. */
  lemma FirstByte(a: byte, low: sextet, out: seq<byte>, vs: seq<sextet>)
    requires low / 16 == a % 4
    ensures PushAll(Scan(0, 0, 0, out), [a / 4, low] + vs) == PushAll(Scan(2, low % 16, 0, out + [a]), vs)
  {
  }

  lemma SecondByte(b: byte, low: sextet, out: seq<byte>, vs: seq<sextet>)
    requires low / 4 == b % 16
    ensures PushAll(Scan(2, b / 16, 0, out), [low] + vs) == PushAll(Scan(3, low % 4, 0, out + [b]), vs)
  {
  }

  lemma ThirdByte(c: byte, out: seq<byte>, vs: seq<sextet>)
    ensures PushAll(Scan(3, c / 64, 0, out), [c % 64] + vs) == PushAll(Scan(0, 0, 0, out + [c]), vs)
  {
  }

  lemma PushQuad(a: byte, b: byte, c: byte, out: seq<byte>, vs: seq<sextet>)
    ensures PushAll(Scan(0, 0, 0, out), Quad(a, b, c) + vs) == PushAll(Scan(0, 0, 0, out + [a, b, c]), vs)
  {
    var v1: sextet, v2: sextet, v3: sextet := a % 4 * 16 + b / 16, b % 16 * 4 + c / 64, c % 64;
    assert Quad(a, b, c) + vs == [a / 4, v1] + ([v2] + ([v3] + vs));
    FirstByte(a, v1, out, [v2] + ([v3] + vs));
    SecondByte(b, v2, out + [a], [v3] + vs);
    ThirdByte(c, out + [a] + [b], vs);
    assert out + [a] + [b] + [c] == out + [a, b, c];
  }

  lemma PushOneByte(a: byte, out: seq<byte>)
    ensures PushAll(Scan(0, 0, 0, out), [a / 4, a % 4 * 16]) == Scan(2, 0, 0, out + [a])
  {
    FirstByte(a, a % 4 * 16, out, []);
    assert [a / 4, a % 4 * 16] + [] == [a / 4, a % 4 * 16];
  }

  lemma PushTwoBytes(a: byte, b: byte, out: seq<byte>)
    ensures PushAll(Scan(0, 0, 0, out), [a / 4, a % 4 * 16 + b / 16, b % 16 * 4]) == Scan(3, 0, 0, out + [a, b])
  {
    var v1: sextet, v2: sextet := a % 4 * 16 + b / 16, b % 16 * 4;
    assert [a / 4, v1, v2] == [a / 4, v1] + ([v2] + []);
    FirstByte(a, v1, out, [v2] + []);
    SecondByte(b, v2, out + [a], []);
    assert out + [a] + [b] == out + [a, b];
  }

  lemma {:induction false} PushOnly(data: seq<byte>, out: seq<byte>)
    requires |data| == 1
    ensures PushAll(Scan(0, 0, 0, out), Sextets(data)) == Scan(2, 0, 0, out + data)
  {
    var a := data[0];
    assert data == [a];
    assert Sextets(data) == [a / 4, a % 4 * 16];
    PushOneByte(a, out);
  }

  lemma {:induction false} PushPair(data: seq<byte>, out: seq<byte>)
    requires |data| == 2
    ensures PushAll(Scan(0, 0, 0, out), Sextets(data)) == Scan(3, 0, 0, out + data)
  {
    var a, b := data[0], data[1];
    assert data == [a, b];
    assert Sextets(data) == [a / 4, a % 4 * 16 + b / 16, b % 16 * 4];
    PushTwoBytes(a, b, out);
  }

  /** After all groups of the data, the decoder has put the data out and no bits are left over. */
  lemma {:induction false} PushSextets(data: seq<byte>, out: seq<byte>)
    ensures PushAll(Scan(0, 0, 0, out), Sextets(data)) == After(out + data, |data|)
    decreases |data|
  {
    if |data| == 0 {
      assert out + data == out;
    } else if |data| == 1 {
      PushOnly(data, out);
    } else if |data| == 2 {
      PushPair(data, out);
    } else {
      var head, rest := [data[0], data[1], data[2]], data[3..];
      PushQuad(data[0], data[1], data[2], out, Sextets(rest));
      PushSextets(rest, out + head);
      assert (out + head) + rest == out + data by { assert head + rest == data; }
      assert |rest| % 3 == |data| % 3;
    }
  }

  lemma {:induction false} EncodedLength(data: seq<byte>)
    ensures |Sextets(data)| % 4 == (if |data| % 3 == 0 then 0 else |data| % 3 + 1)
    decreases |data|
  {
    if |data| >= 3 {
      EncodedLength(data[3..]);
    }
  }

  lemma {:induction false} CharsLength(vs: seq<sextet>)
    ensures |Chars(vs)| == |vs|
  {
    if vs != [] {
      CharsLength(vs[1..]);
    }
  }

  lemma {:induction false} CharsAreAscii(vs: seq<sextet>)
    ensures Ascii(Chars(vs))
  {
    if vs != [] {
      CharsAreAscii(vs[1..]);
    }
  }

  lemma PaddingEnds(out: seq<byte>, n: nat, length: nat)
    requires length % 4 == (if n % 3 == 0 then 0 else n % 3 + 1)
    ensures Decode'(Padding(length), After(out, n)) == Some(out)
  {
  }

  /** Decoding undoes encoding, for all byte strings. */
  lemma DecodeUndoesEncode(data: seq<byte>)
    ensures Decode(Encode(data)) == Some(data)
  {
    EncodedLength(data);
    CharsLength(Sextets(data));
    CharsAreAscii(Sextets(data));
    DecodeChars(Sextets(data), Padding(|Encode(data)|), Scan(0, 0, 0, []));
    PushSextets(data, []);
    assert [] + data == data;
    PaddingEnds(data, |data|, |Encode(data)|);
  }

  // ── Encoding undoes decoding, exactly on canonical text ───────────────────

  predicate IsUrlChar(c: char) {
    ValueOf(c).Some? && c != '+' && c != '/'
  }

  function UrlValue(c: char): sextet
    requires IsUrlChar(c)
  {
    ValueOf(c).value
  }

  /** No stray bits: the last group of an incomplete quad is filled up with zeros. */
  predicate NoStrayBits(vs: seq<sextet>) {
    && |vs| % 4 != 1
    && (|vs| % 4 == 2 ==> vs[|vs| - 1] % 16 == 0)
    && (|vs| % 4 == 3 ==> vs[|vs| - 1] % 4 == 0)
  }

  function Values(s: string): seq<sextet>
    requires forall c :: c in s ==> IsUrlChar(c)
  {
    if s == "" then []
    else
      assert s[0] in s;
      [UrlValue(s[0])] + Values(s[1..])
  }

  /** URL-safe characters only, a possible length, and no stray bits in the last character. */
  predicate Canonical(s: string) {
    (forall c :: c in s ==> IsUrlChar(c)) && NoStrayBits(Values(s))
  }

  lemma {:induction false} CharsOfValues(s: string)
    requires forall c :: c in s ==> IsUrlChar(c)
    ensures Chars(Values(s)) == s
  {
    if s != "" {
      assert IsUrlChar(s[0]) by { assert s[0] in s; }
      CharsOfValues(s[1..]);
      assert [s[0]] + s[1..] == s;
    }
  }

  lemma {:induction false} ValuesOfChars(vs: seq<sextet>)
    ensures forall c :: c in Chars(vs) ==> IsUrlChar(c)
    ensures Values(Chars(vs)) == vs
  {
    if vs != [] {
      CharRoundTrip(vs[0]);
      ValuesOfChars(vs[1..]);
      assert Chars(vs)[1..] == Chars(vs[1..]);
    }
  }

  lemma {:induction false} SextetsHaveNoStrayBits(data: seq<byte>)
    ensures NoStrayBits(Sextets(data))
    decreases |data|
  {
    if |data| >= 3 {
      SextetsHaveNoStrayBits(data[3..]);
    }
  }

  function HighByte(a: sextet, b: sextet): byte {
    var n: int := a;
    n * 4 + b / 16
  }

  function MiddleByte(b: sextet, c: sextet): byte {
    var n: int := b % 16;
    n * 16 + c / 4
  }

  function LowByte(c: sextet, d: sextet): byte {
    var n: int := c % 4;
    n * 64 + d
  }

  lemma {:induction false} BytesMakeQuad(a: sextet, b: sextet, c: sextet, d: sextet)
    ensures Quad(HighByte(a, b), MiddleByte(b, c), LowByte(c, d)) == [a, b, c, d]
  {
    FirstTwo(a, b, c);
    var m, l := MiddleByte(b, c), LowByte(c, d);
    assert m % 16 * 4 + l / 64 == c && l % 64 == d;
  }

  lemma FirstTwo(a: sextet, b: sextet, c: sextet)
    ensures HighByte(a, b) / 4 == a
    ensures HighByte(a, b) % 4 * 16 + MiddleByte(b, c) / 16 == b
  {
  }

  lemma FromTail(vs: seq<sextet>) returns (data: seq<byte>)
    requires NoStrayBits(vs) && |vs| < 4
    ensures Sextets(data) == vs
  {
    if |vs| == 0 {
      data := [];
    } else if |vs| == 2 {
      FirstTwo(vs[0], vs[1], 0);
      data := [HighByte(vs[0], vs[1])];
    } else {
      FirstTwo(vs[0], vs[1], vs[2]);
      data := [HighByte(vs[0], vs[1]), MiddleByte(vs[1], vs[2])];
    }
  }

  lemma {:induction false} FromSextets(vs: seq<sextet>) returns (data: seq<byte>)
    requires NoStrayBits(vs)
    ensures Sextets(data) == vs
    decreases |vs|
  {
    if |vs| < 4 {
      data := FromTail(vs);
    } else {
      var rest := FromSextets(vs[4..]);
      BytesMakeQuad(vs[0], vs[1], vs[2], vs[3]);
      data := [HighByte(vs[0], vs[1]), MiddleByte(vs[1], vs[2]), LowByte(vs[2], vs[3])] + rest;
      assert data[3..] == rest;
      assert vs == [vs[0], vs[1], vs[2], vs[3]] + vs[4..];
    }
  }

  /** The lenient decoder also accepts other text (skipped characters, '+' and '/', stray bits);
      encoding gives a segment back exactly when it is canonical. */
  lemma EncodeUndoesDecodeExactlyWhen(s: string)
    ensures Decode(s).Some? && Encode(Decode(s).value) == s <==> Canonical(s)
  {
    if Decode(s).Some? && Encode(Decode(s).value) == s {
      ValuesOfChars(Sextets(Decode(s).value));
      SextetsHaveNoStrayBits(Decode(s).value);
    }
    if Canonical(s) {
      var data := FromSextets(Values(s));
      CharsOfValues(s);
      DecodeUndoesEncode(data);
    }
  }

  // ── The alphabet and the bits ─────────────────────────────────────────────

  /** Six bits become one character: A-Z for 0 to 25, a-z for 26 to 51, 0-9 for 52 to 61, then dash and
      underscore (section 5 of RFC 4648, table 2; as ASCII codes). */
  lemma {:induction false} EncodedByTable(vs: seq<sextet>, i: nat)
    requires i < |vs|
    ensures |Chars(vs)| == |vs|
    ensures var v: int, code := vs[i], Chars(vs)[i] as int;
            && (v <= 25 ==> code == 65 + v) && (26 <= v <= 51 ==> code == 97 + (v - 26))
            && (52 <= v <= 61 ==> code == 48 + (v - 52)) && (v == 62 ==> code == 45) && (v == 63 ==> code == 95)
  {
    CharsLength(vs);
    if i > 0 {
      EncodedByTable(vs[1..], i - 1);
    }
  }

  /** The bits of a group of bytes, and of the six-bit values they become, as one number. */
  function Number24(data: seq<byte>, i: nat): int {
    ByteAt(data, i) * 0x10000 + ByteAt(data, i + 1) * 0x100 + ByteAt(data, i + 2)
  }

  function ByteAt(data: seq<byte>, i: nat): int {
    if i < |data| then data[i] else 0
  }

  function SextetAt(vs: seq<sextet>, i: nat): int {
    if i < |vs| then vs[i] else 0
  }

  /** Three bytes become four six-bit values with the same bits in the same order; missing bytes count
      as zero bits, and values beyond the last byte are left away. */
  lemma {:induction false} SextetsAreTheBits(data: seq<byte>, g: nat)
    requires 3 * g < |data|
    ensures var vs := Sextets(data);
            SextetAt(vs, 4 * g) * 0x40000 + SextetAt(vs, 4 * g + 1) * 0x1000 + SextetAt(vs, 4 * g + 2) * 0x40
            + SextetAt(vs, 4 * g + 3) == Number24(data, 3 * g)
    ensures 3 * |Sextets(data)| - 2 <= 4 * |data| <= 3 * |Sextets(data)|
    decreases |data|
  {
    if g > 0 {
      SextetsAreTheBits(data[3..], g - 1);
      ShiftedGroup(data, g);
    } else {
      FirstGroup(data);
      if |data| > 3 {
        SextetsAreTheBits(data[3..], 0);
      }
    }
  }

  lemma FirstGroup(data: seq<byte>)
    requires data != []
    ensures var vs := Sextets(data);
            SextetAt(vs, 0) * 0x40000 + SextetAt(vs, 1) * 0x1000 + SextetAt(vs, 2) * 0x40 + SextetAt(vs, 3)
            == Number24(data, 0)
    ensures |data| <= 3 ==> |Sextets(data)| == |data| + 1
  {
  }

  lemma ShiftedGroup(data: seq<byte>, g: nat)
    requires g > 0 && 3 * g < |data|
    ensures Number24(data, 3 * g) == Number24(data[3..], 3 * (g - 1))
    ensures forall k :: 4 * g <= k ==> SextetAt(Sextets(data), k) == SextetAt(Sextets(data[3..]), k - 4)
  {
  }

  // ── What the decoder forgives ─────────────────────────────────────────────

  predicate InSomeAlphabet(c: char) {
    'A' <= c <= 'Z' || 'a' <= c <= 'z' || '0' <= c <= '9' || c in "-_+/="
  }

  /** A character of neither alphabet makes no difference, wherever it stands; */
  lemma {:induction false} StrangeCharactersAreSkipped(front: string, c: char, rest: string, s: Scan)
    requires ScanOk(s) && !InSomeAlphabet(c)
    ensures Decode'(front + [c] + rest, s) == Decode'(front + rest, s)
    decreases |front|
  {
    if front == "" {
      assert front + [c] + rest == [c] + rest && ([c] + rest)[1..] == rest && front + rest == rest;
    } else {
      assert (front + [c] + rest)[1..] == front[1..] + [c] + rest && (front + rest)[1..] == front[1..] + rest;
      StrangeCharactersAreSkipped(front[1..], c, rest,
                                  if front[0] == '=' then (if s.quad >= 2 then s.(pads := s.pads + 1) else s)
                                  else if ValueOf(front[0]).None? then s else Push(s, ValueOf(front[0]).value));
    }
  }

  /** and the characters of the standard alphabet are read like those of the URL-safe one. */
  lemma {:induction false} StandardIsReadAlike(front: string, rest: string, s: Scan)
    requires ScanOk(s)
    ensures Decode'(front + "+" + rest, s) == Decode'(front + "-" + rest, s)
    ensures Decode'(front + "/" + rest, s) == Decode'(front + "_" + rest, s)
    decreases |front|
  {
    if front == "" {
      forall c: char ensures front + [c] + rest == [c] + rest && ([c] + rest)[1..] == rest {
      }
      assert front + "+" + rest == ['+'] + rest && front + "-" + rest == ['-'] + rest;
      assert front + "/" + rest == ['/'] + rest && front + "_" + rest == ['_'] + rest;
    } else {
      forall t: string ensures (front + t + rest)[1..] == front[1..] + t + rest {
      }
      StandardIsReadAlike(front[1..], rest,
                          if front[0] == '=' then (if s.quad >= 2 then s.(pads := s.pads + 1) else s)
                          else if ValueOf(front[0]).None? then s else Push(s, ValueOf(front[0]).value));
    }
  }

  // ── Unsigned tokens and the debug decoder ─────────────────────────────────

  /** A token as text, from the bytes of its three parts; `make_unsigned_token` leaves the
      signature empty. */
  function Compact(header: seq<byte>, payload: seq<byte>, signature: seq<byte>): string {
    Encode(header) + "." + Encode(payload) + "." + Encode(signature)
  }

  function UnsignedText(header: seq<byte>, payload: seq<byte>): string {
    Encode(header) + "." + Encode(payload) + "."
  }

  datatype Decoded = NotThreeSegments | Undecodable | Parts(header: seq<byte>, payload: seq<byte>)

  function DebugDecode(token: string): Decoded {
    var parts := Split(token, '.');
    if |parts| != 3 then NotThreeSegments
    else
      match (Decode(parts[0]), Decode(parts[1]))
      case (Some(header), Some(payload)) => Parts(header, payload)
      case _ => Undecodable
  }

  lemma NoDot(data: seq<byte>)
    ensures '.' !in Encode(data)
  {
    ValuesOfChars(Sextets(data));
  }

  /** A compact token splits into exactly its three segments, and the debug decoder gives back
      header and payload byte for byte. */
  lemma DebugDecodesCompact(header: seq<byte>, payload: seq<byte>, signature: seq<byte>)
    ensures Split(Compact(header, payload, signature), '.') == [Encode(header), Encode(payload), Encode(signature)]
    ensures DebugDecode(Compact(header, payload, signature)) == Parts(header, payload)
  {
    var h, p, s := Encode(header), Encode(payload), Encode(signature);
    NoDot(header);
    NoDot(payload);
    NoDot(signature);
    assert Compact(header, payload, signature) == h + "." + (p + "." + s);
    SplitAtFirst(h, p + "." + s, '.');
    SplitAtFirst(p, s, '.');
    SplitNoSeparator(s, '.');
    DecodeUndoesEncode(header);
    DecodeUndoesEncode(payload);
  }

  lemma DebugDecodesUnsigned(header: seq<byte>, payload: seq<byte>)
    ensures Split(UnsignedText(header, payload), '.') == [Encode(header), Encode(payload), ""]
    ensures DebugDecode(UnsignedText(header, payload)) == Parts(header, payload)
  {
    assert UnsignedText(header, payload) == Compact(header, payload, []);
    DebugDecodesCompact(header, payload, []);
  }
}
