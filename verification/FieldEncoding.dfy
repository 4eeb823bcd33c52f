/** Field encryption's wire form: unpadded base64url of a 12-byte IV followed by the
    authenticated ciphertext (sections 4 and 5 of RFC 4648).  `Atob` is the browser's
    forgiving decoder. */
module FieldEncoding {
  import opened Helpers
  import opened TextEncoding

  type Sextet = x: int | 0 <= x < 64

  const GCM_IV_BYTES: nat := 12
  const GCM_TAG_BYTES: nat := 16

  // ---------------------------------------------------------------------------
  // Standard base64
  // ---------------------------------------------------------------------------

  function Digit(v: Sextet): char {
    if v < 26 then ('A' as int + v) as char
    else if v < 52 then ('a' as int + v - 26) as char
    else if v < 62 then ('0' as int + v - 52) as char
    else if v == 62 then '+'
    else '/'
  }

  function Value(c: char): Option<Sextet> {
    if 'A' <= c <= 'Z' then Some(c as int - 'A' as int)
    else if 'a' <= c <= 'z' then Some(c as int - 'a' as int + 26)
    else if '0' <= c <= '9' then Some(c as int - '0' as int + 52)
    else if c == '+' then Some(62)
    else if c == '/' then Some(63)
    else None
  }

  /** The bytes regrouped six bits at a time, the last group filled with zero bits. */
  function Sextets(b: seq<Byte>): seq<Sextet> {
    if b == [] then []
    else if |b| == 1 then [b[0] / 4, b[0] % 4 * 16]
    else if |b| == 2 then [b[0] / 4, b[0] % 4 * 16 + b[1] / 16, b[1] % 16 * 4]
    else [b[0] / 4, b[0] % 4 * 16 + b[1] / 16, b[1] % 16 * 4 + b[2] / 64, b[2] % 64] + Sextets(b[3..])
  }

  /** The sextets regrouped eight bits at a time, leftover bits dropped. */
  function Pack(v: seq<Sextet>): seq<Byte> {
    if |v| < 2 then []
    else if |v| == 2 then [Byte0(v[0], v[1])]
    else if |v| == 3 then [Byte0(v[0], v[1]), Byte1(v[1], v[2])]
    else [Byte0(v[0], v[1]), Byte1(v[1], v[2]), Byte2(v[2], v[3])] + Pack(v[4..])
  }

  function Byte0(x: Sextet, y: Sextet): Byte { x as int * 4 + y as int / 16 }

  function Byte1(x: Sextet, y: Sextet): Byte { x as int % 16 * 16 + y as int / 4 }

  function Byte2(x: Sextet, y: Sextet): Byte { x as int % 4 * 64 + y as int }

  function Spell(v: seq<Sextet>): string { if v == [] then "" else [Digit(v[0])] + Spell(v[1..]) }

  function Read(s: string): Option<seq<Sextet>> {
    if s == "" then Some([])
    else
      var v, rest := Value(s[0]), Read(s[1..]);
      if v == None || rest == None then None else Some([v.value] + rest.value)
  }

  function Equals(n: nat): string { if n == 0 then "" else "=" + Equals(n - 1) }

  /** How much padding the standard form of `b` carries. */
  function PadOf(b: seq<Byte>): nat { (3 - |b| % 3) % 3 }

  function Btoa(b: seq<Byte>): string { Spell(Sextets(b)) + Equals(PadOf(b)) }

  predicate IsSpace(c: char) { c == ' ' || c == '\t' || c == '\n' || c == '\r' || c as int == 12 }

  function StripSpace(s: string): string {
    if s == "" then "" else (if IsSpace(s[0]) then "" else [s[0]]) + StripSpace(s[1..])
  }

  function DropPadding(s: string): string {
    if |s| % 4 != 0 || s == "" || s[|s| - 1] != '=' then s
    else if s[|s| - 2] == '=' then s[..|s| - 2]
    else s[..|s| - 1]
  }

  function Atob(s: string): Option<seq<Byte>> {
    var digits := DropPadding(StripSpace(s));
    if |digits| % 4 == 1 then None
    else
      match Read(digits)
      case None => None
      case Some(v) => Some(Pack(v))
  }

  // ---------------------------------------------------------------------------
  // base64url without padding
  // ---------------------------------------------------------------------------

  function Replace(s: string, from: char, to: char): string {
    if s == "" then "" else [if s[0] == from then to else s[0]] + Replace(s[1..], from, to)
  }

  function Delete(s: string, c: char): string {
    if s == "" then "" else (if s[0] == c then "" else [s[0]]) + Delete(s[1..], c)
  }

  function Encode(b: seq<Byte>): string {
    Delete(Replace(Replace(Btoa(b), '+', '-'), '/', '_'), '=')
  }

  /** The standard alphabet, and the padding the length calls for. */
  function Restored(s: string): string {
    var padded := Replace(Replace(s, '-', '+'), '_', '/');
    padded + Equals((4 - |padded| % 4) % 4)
  }

  function Decode(s: string): Option<seq<Byte>> { Atob(Restored(s)) }

  // ---------------------------------------------------------------------------
  // Round trip
  // ---------------------------------------------------------------------------

  lemma ValueOfDigit(v: Sextet)
    ensures Value(Digit(v)) == Some(v)
  {
  }

  predicate IsDigit(c: char) { Value(c).Some? }

  predicate AllDigits(s: string) { forall i :: 0 <= i < |s| ==> IsDigit(s[i]) }

  lemma {:induction false} ReadSpell(v: seq<Sextet>)
    ensures Read(Spell(v)) == Some(v) && AllDigits(Spell(v)) && |Spell(v)| == |v|
  {
    if v != [] {
      ReadSpell(v[1..]);
      ValueOfDigit(v[0]);
      assert Spell(v)[1..] == Spell(v[1..]);
      assert v == [v[0]] + v[1..];
    }
  }

  lemma Regroup(b0: Byte, b1: Byte, b2: Byte)
    ensures b0 / 4 * 4 + (b0 % 4 * 16 + b1 / 16) / 16 == b0
    ensures (b0 % 4 * 16 + b1 / 16) % 16 * 16 + (b1 % 16 * 4 + b2 / 64) / 4 == b1
    ensures (b1 % 16 * 4 + b2 / 64) % 4 * 64 + b2 % 64 == b2
  {
    assert (b0 % 4 * 16 + b1 / 16) / 16 == b0 % 4 && (b0 % 4 * 16 + b1 / 16) % 16 == b1 / 16;
    assert (b1 % 16 * 4 + b2 / 64) / 4 == b1 % 16 && (b1 % 16 * 4 + b2 / 64) % 4 == b2 / 64;
  }

  lemma {:induction false} PackSextets(b: seq<Byte>)
    ensures Pack(Sextets(b)) == b
    ensures |Sextets(b)| == (4 * |b| + 2) / 3
  {
    if 3 <= |b| {
      PackSextets(b[3..]);
      Regroup(b[0], b[1], b[2]);
      assert Sextets(b)[4..] == Sextets(b[3..]);
    } else if |b| == 2 {
      Regroup(b[0], b[1], 0);
    } else if |b| == 1 {
      Regroup(b[0], 0, 0);
    }
  }

  /** Swapping to the URL alphabet and deleting the padding; and back. */
  function ToUrl(c: char): char { if c == '+' then '-' else if c == '/' then '_' else c }

  function ToUrlAll(s: string): string { seq(|s|, i requires 0 <= i < |s| => ToUrl(s[i])) }

  lemma {:induction false} UrlForm(s: string, n: nat)
    requires AllDigits(s)
    ensures Delete(Replace(Replace(s + Equals(n), '+', '-'), '/', '_'), '=') == ToUrlAll(s)
    decreases |s|, n
  {
    if s == "" {
      if n != 0 {
        assert s + Equals(n) == "=" + Equals(n - 1);
        assert Replace("=" + Equals(n - 1), '+', '-') == "=" + Replace(Equals(n - 1), '+', '-');
        assert "" + Equals(n - 1) == Equals(n - 1);
        UrlForm("", n - 1);
      }
    } else {
      assert AllDigits(s[1..]);
      UrlForm(s[1..], n);
      assert (s + Equals(n))[1..] == s[1..] + Equals(n);
      assert IsDigit(s[0]) && s[0] != '=';
      assert ToUrlAll(s) == [ToUrl(s[0])] + ToUrlAll(s[1..]);
    }
  }

  lemma {:induction false} UrlBack(s: string)
    requires AllDigits(s)
    ensures Replace(Replace(ToUrlAll(s), '-', '+'), '_', '/') == s
  {
    if s != "" {
      assert AllDigits(s[1..]);
      UrlBack(s[1..]);
      assert IsDigit(s[0]) && s[0] != '-' && s[0] != '_';
      assert ToUrlAll(s)[1..] == ToUrlAll(s[1..]);
    }
  }

  lemma {:induction false} NoSpace(s: string)
    requires forall i :: 0 <= i < |s| ==> IsDigit(s[i]) || s[i] == '='
    ensures StripSpace(s) == s
  {
    if s != "" {
      NoSpace(s[1..]);
    }
  }

  function Digits(b: seq<Byte>): string { Spell(Sextets(b)) }

  lemma EncodeIsDigits(b: seq<Byte>)
    ensures Encode(b) == ToUrlAll(Digits(b))
    ensures |Encode(b)| == (4 * |b| + 2) / 3
    ensures forall i :: 0 <= i < |Encode(b)| ==> Encode(b)[i] != '+' && Encode(b)[i] != '/' && Encode(b)[i] != '='
  {
    ReadSpell(Sextets(b));
    PackSextets(b);
    UrlForm(Digits(b), PadOf(b));
    var d := Digits(b);
    forall i | 0 <= i < |d| ensures ToUrl(d[i]) != '+' && ToUrl(d[i]) != '/' && ToUrl(d[i]) != '=' {
      assert IsDigit(d[i]);
    }
  }

  // ---------------------------------------------------------------------------
  // What the encoding is: the bytes' number, written in base 64
  // ---------------------------------------------------------------------------

  /** The bytes after `acc`, read as the digits of a base-256 number. */
  function Base256(acc: nat, b: seq<Byte>): nat
    decreases |b|
  {
    if b == [] then acc else Base256(acc * 256 + b[0], b[1..])
  }

  function Base64(acc: nat, v: seq<Sextet>): nat
    decreases |v|
  {
    if v == [] then acc else Base64(acc * 64 + v[0], v[1..])
  }

  /** The zero bits that fill the last sextet, as a factor. */
  function Fill(n: nat): nat { if n % 3 == 0 then 1 else if n % 3 == 1 then 16 else 4 }

  lemma GroupNumber(acc: nat, b0: Byte, b1: Byte, b2: Byte)
    ensures (acc * 64 + b0 / 4) * 64 + b0 % 4 * 16 == (acc * 256 + b0) * 16
    ensures ((acc * 64 + b0 / 4) * 64 + (b0 % 4 * 16 + b1 / 16)) * 64 + b1 % 16 * 4 == ((acc * 256 + b0) * 256 + b1) * 4
    ensures (((acc * 64 + b0 / 4) * 64 + (b0 % 4 * 16 + b1 / 16)) * 64 + (b1 % 16 * 4 + b2 / 64)) * 64 + b2 % 64 ==
            ((acc * 256 + b0) * 256 + b1) * 256 + b2
  {
  }

  lemma Base64Step(acc: nat, x: Sextet, w: seq<Sextet>)
    ensures Base64(acc, [x] + w) == Base64(acc * 64 + x, w)
  {
    assert ([x] + w)[1..] == w;
  }

  lemma Base64Unfold(acc: nat, v0: Sextet, v1: Sextet, v2: Sextet, v3: Sextet, w: seq<Sextet>)
    ensures Base64(acc, [v0, v1, v2, v3] + w) == Base64((((acc * 64 + v0) * 64 + v1) * 64 + v2) * 64 + v3, w)
  {
    var w3 := [v3] + w;
    var w2 := [v2] + w3;
    var w1 := [v1] + w2;
    Base64Step(acc, v0, w1);
    Base64Step(acc * 64 + v0, v1, w2);
    Base64Step((acc * 64 + v0) * 64 + v1, v2, w3);
    Base64Step(((acc * 64 + v0) * 64 + v1) * 64 + v2, v3, w);
    assert [v0, v1, v2, v3] + w == [v0] + w1;
  }

  lemma Base256Unfold(acc: nat, b: seq<Byte>)
    requires |b| >= 3
    ensures Base256(acc, b) == Base256(((acc * 256 + b[0]) * 256 + b[1]) * 256 + b[2], b[3..])
  {
    var b1, b2 := b[1..], b[2..];
    assert b1[1..] == b2 && b2[1..] == b[3..];
    assert Base256(acc, b) == Base256(acc * 256 + b[0], b1);
    assert Base256(acc * 256 + b[0], b1) == Base256((acc * 256 + b[0]) * 256 + b[1], b2);
  }

  lemma OneByteNumber(acc: nat, b: seq<Byte>)
    requires |b| == 1
    ensures Base64(acc, Sextets(b)) == Base256(acc, b) * 16
  {
    GroupNumber(acc, b[0], 0, 0);
    Base64Step(acc, b[0] / 4, [b[0] % 4 * 16]);
    Base64Step(acc * 64 + b[0] / 4, b[0] % 4 * 16, []);
    assert Sextets(b) == [b[0] / 4] + [b[0] % 4 * 16];
    assert b[1..] == [];
  }

  lemma TwoByteNumber(acc: nat, b: seq<Byte>)
    requires |b| == 2
    ensures Base64(acc, Sextets(b)) == Base256(acc, b) * 4
  {
    GroupNumber(acc, b[0], b[1], 0);
    var v0, v1, v2 := b[0] / 4, b[0] % 4 * 16 + b[1] / 16, b[1] % 16 * 4;
    Base64Step(acc, v0, [v1] + [v2]);
    Base64Step(acc * 64 + v0, v1, [v2]);
    Base64Step((acc * 64 + v0) * 64 + v1, v2, []);
    assert Sextets(b) == [v0] + ([v1] + [v2]);
    assert b[1..] == [b[1]];
    assert Base256(acc * 256 + b[0], [b[1]]) == (acc * 256 + b[0]) * 256 + b[1];
  }

  lemma ThreeByteNumber(acc: nat, b: seq<Byte>, next: nat)
    requires |b| >= 3 && next == ((acc * 256 + b[0]) * 256 + b[1]) * 256 + b[2]
    ensures Base64(acc, Sextets(b)) == Base64(next, Sextets(b[3..]))
    ensures Base256(acc, b) == Base256(next, b[3..])
  {
    GroupNumber(acc, b[0], b[1], b[2]);
    Base64Unfold(acc, b[0] / 4, b[0] % 4 * 16 + b[1] / 16, b[1] % 16 * 4 + b[2] / 64, b[2] % 64, Sextets(b[3..]));
    Base256Unfold(acc, b);
  }

  lemma {:induction false} SameNumber(acc: nat, b: seq<Byte>)
    ensures Base64(acc, Sextets(b)) == Base256(acc, b) * Fill(|b|)
    decreases |b|
  {
    if b == [] {
    } else if |b| == 1 {
      OneByteNumber(acc, b);
    } else if |b| == 2 {
      TwoByteNumber(acc, b);
    } else {
      var next := ((acc * 256 + b[0]) * 256 + b[1]) * 256 + b[2];
      ThreeByteNumber(acc, b, next);
      SameNumber(next, b[3..]);
      assert Fill(|b|) == Fill(|b[3..]|);
    }
  }

  lemma {:induction false} SpellAt(v: seq<Sextet>, i: nat)
    requires i < |v|
    ensures |Spell(v)| == |v| && Spell(v)[i] == Digit(v[i])
  {
    ReadSpell(v);
    if i > 0 {
      SpellAt(v[1..], i - 1);
    }
  }

  /** The URL and filename safe alphabet (section 5 of RFC 4648): A to Z, a to z, 0 to 9, `-`
      and `_`, each run in order. */
  lemma AlphabetIsStandard(v: Sextet)
    ensures ToUrl(Digit(0)) == 'A' && ToUrl(Digit(25)) == 'Z' && ToUrl(Digit(26)) == 'a' && ToUrl(Digit(51)) == 'z'
    ensures ToUrl(Digit(52)) == '0' && ToUrl(Digit(61)) == '9' && ToUrl(Digit(62)) == '-' && ToUrl(Digit(63)) == '_'
    ensures v < 61 && v != 25 && v != 51 ==> ToUrl(Digit(v + 1)) as int == ToUrl(Digit(v)) as int + 1
  {
  }

  /** Read in the RFC's alphabet, the encoding is the number the bytes spell, written in
      base 64 and filled up with zero bits to a whole last digit. */
  lemma EncodeIsTheNumber(b: seq<Byte>)
    ensures |Encode(b)| == |Sextets(b)| == (4 * |b| + 2) / 3
    ensures forall i :: 0 <= i < |Encode(b)| ==> Encode(b)[i] == ToUrl(Digit(Sextets(b)[i]))
    ensures Base64(0, Sextets(b)) == Base256(0, b) * Fill(|b|)
  {
    EncodeIsDigits(b);
    SameNumber(0, b);
    PackSextets(b);
    forall i | 0 <= i < |Encode(b)| ensures Encode(b)[i] == ToUrl(Digit(Sextets(b)[i])) {
      SpellAt(Sextets(b), i);
    }
  }

  lemma PaddingDropped(d: string, n: nat)
    requires AllDigits(d) && n <= 2 && (|d| + n) % 4 == 0
    ensures DropPadding(d + Equals(n)) == d
  {
    var s := d + Equals(n);
    assert Equals(1) == "=" && Equals(2) == "==";
    if n == 0 {
      assert s == d;
      assert d != "" ==> IsDigit(d[|d| - 1]);
    } else if n == 1 {
      assert s[|s| - 2] == d[|d| - 1] && IsDigit(d[|d| - 1]);
      assert s[..|s| - 1] == d;
    } else {
      assert s[..|s| - 2] == d;
    }
  }

  lemma Prepared(d: string, n: nat)
    requires AllDigits(d) && n <= 2 && (|d| + n) % 4 == 0
    ensures DropPadding(StripSpace(d + Equals(n))) == d
  {
    assert Equals(1) == "=" && Equals(2) == "==";
    NoSpace(d + Equals(n));
    PaddingDropped(d, n);
  }

  /** The browser's decoder inverts its encoder. */
  lemma AtobBtoa(b: seq<Byte>)
    ensures Atob(Btoa(b)) == Some(b)
  {
    ReadSpell(Sextets(b));
    PackSextets(b);
    PaddingCount(|b|);
    Prepared(Digits(b), PadOf(b));
  }

  /** Decoding the unpadded encoding of any byte sequence returns it. */
  lemma DecodeEncode(b: seq<Byte>)
    ensures Decode(Encode(b)) == Some(b)
  {
    EncodingRestored(b);
    AtobBtoa(b);
  }

  /** The standard alphabet and the padding restored from the length give back the padded
      form. */
  lemma EncodingRestored(b: seq<Byte>)
    ensures Restored(Encode(b)) == Btoa(b)
  {
    EncodeIsDigits(b);
    ReadSpell(Sextets(b));
    PackSextets(b);
    UrlBack(Digits(b));
    PaddingCount(|b|);
  }

  /** The padding restored from the length is the padding that was deleted. */
  lemma PaddingCount(n: nat)
    ensures (4 - (4 * n + 2) / 3 % 4) % 4 == (3 - n % 3) % 3
    ensures ((4 * n + 2) / 3 + (3 - n % 3) % 3) % 4 == 0
    ensures (4 * n + 2) / 3 % 4 != 1
  {
    var q, r := n / 3, n % 3;
    assert n == 3 * q + r;
    assert (4 * n + 2) / 3 == 4 * q + (4 * r + 2) / 3;
  }

  // ---------------------------------------------------------------------------
  // Framing
  // ---------------------------------------------------------------------------

  datatype Error = BadEncoding | TooShort | DecryptFailed
  datatype Result<+T> = Ok(value: T) | Err(error: Error)

  function Frame(iv: seq<Byte>, ciphertext: seq<Byte>): string { Encode(iv + ciphertext) }

  function Unframe(enc: string): Result<(seq<Byte>, seq<Byte>)> {
    match Decode(enc)
    case None => Err(BadEncoding)
    case Some(combined) =>
      if |combined| < GCM_IV_BYTES + GCM_TAG_BYTES then Err(TooShort)
      else Ok((combined[..GCM_IV_BYTES], combined[GCM_IV_BYTES..]))
  }

  /** Framing a 12-byte IV is undone exactly when the ciphertext holds at least a tag;
      a shorter one is refused. */
  lemma UnframeFrame(iv: seq<Byte>, ciphertext: seq<Byte>)
    requires |iv| == 12
    ensures Unframe(Frame(iv, ciphertext)) == if 16 <= |ciphertext| then Ok((iv, ciphertext)) else Err(TooShort)
    ensures Decode(Frame(iv, ciphertext)) == Some(iv + ciphertext) && Frame(iv, ciphertext) != ""
  {
    DecodeEncode(iv + ciphertext);
    EncodeIsDigits(iv + ciphertext);
    assert (iv + ciphertext)[..GCM_IV_BYTES] == iv;
    assert (iv + ciphertext)[GCM_IV_BYTES..] == ciphertext;
  }

  /** The authenticated cipher under one key, as the field layer uses it. */
  datatype Cipher = Cipher(
    seal: (seq<Byte>, seq<Byte>) -> seq<Byte>,
    open: (seq<Byte>, seq<Byte>) -> Option<seq<Byte>>)

  ghost predicate Faithful(c: Cipher) {
    forall iv, p :: |c.seal(iv, p)| == |p| + GCM_TAG_BYTES && c.open(iv, c.seal(iv, p)) == Some(p)
  }

  function EncryptField(c: Cipher, iv: seq<Byte>, value: Text): string {
    Frame(iv, c.seal(iv, Encoded(value)))
  }

  function DecryptField(c: Cipher, enc: string): Result<Text> {
    match Unframe(enc)
    case Err(e) => Err(e)
    case Ok((iv, ciphertext)) =>
      match c.open(iv, ciphertext)
      case None => Err(DecryptFailed)
      case Some(p) => Ok(Decoded(p))
  }

  /** For every value and whatever IV was drawn: decrypting an encrypted field gives the
      value with lone surrogates replaced and a leading byte order mark dropped, hence the
      value itself if and only if it has neither; and the stored form is never empty. */
  lemma FieldRoundTrip(c: Cipher, iv: seq<Byte>, value: Text)
    requires Faithful(c) && |iv| == 12
    ensures DecryptField(c, EncryptField(c, iv, value)) == Ok(ReadBack(value))
    ensures DecryptField(c, EncryptField(c, iv, value)) == Ok(value) <==> WellFormed(value) && !Marked(value)
    ensures EncryptField(c, iv, value) != ""
  {
    UnframeFrame(iv, c.seal(iv, Encoded(value)));
    TextRoundTrip(value);
  }

  /** For every stored text, whoever wrote it: it is refused if it does not decode, if it has
      fewer than 28 bytes, or if the cipher does not authenticate what follows its first
      twelve; otherwise the result is the text of exactly what the cipher opens. */
  lemma DecryptsOnlyAuthentic(c: Cipher, enc: string)
    ensures match Decode(enc)
      case None => DecryptField(c, enc) == Err(BadEncoding)
      case Some(b) =>
        if |b| < 28 then DecryptField(c, enc) == Err(TooShort)
        else if c.open(b[..12], b[12..]).None? then DecryptField(c, enc) == Err(DecryptFailed)
        else DecryptField(c, enc) == Ok(Decoded(c.open(b[..12], b[12..]).value))
  {
  }

  // ---------------------------------------------------------------------------
  // Buffers
  // ---------------------------------------------------------------------------

  method Uint8ToBase64url(bytes: array<Byte>) returns (s: string)
    ensures s == Encode(bytes[..])
  {
    var binary: seq<Byte> := [];
    var len := bytes.Length;
    for i := 0 to len
      invariant binary == bytes[..i]
    {
      binary := binary + [bytes[i]];
    }
    assert bytes[..len] == bytes[..];
    s := Delete(Replace(Replace(Btoa(binary), '+', '-'), '/', '_'), '=');
  }

  method ToUint8(binary: seq<Byte>) returns (bytes: array<Byte>)
    ensures fresh(bytes) && bytes[..] == binary
  {
    bytes := new Byte[|binary|];
    for i := 0 to |binary|
      invariant bytes[..i] == binary[..i]
    {
      bytes[i] := binary[i];
    }
    assert bytes[..] == bytes[..|binary|];
  }

  method Base64urlToUint8(s: string) returns (r: Option<array<Byte>>)
    ensures r.None? <==> Decode(s).None?
    ensures r.Some? ==> fresh(r.value) && Decode(s) == Some(r.value[..])
  {
    var binary := Decode(s);
    if binary.None? {
      return None;
    }
    var bytes := ToUint8(binary.value);
    r := Some(bytes);
  }

  /** `combined.set(iv, 0); combined.set(ciphertext, 12)`. */
  method Combine(iv: array<Byte>, ciphertext: array<Byte>) returns (combined: array<Byte>)
    requires iv.Length == GCM_IV_BYTES
    ensures fresh(combined) && combined[..] == iv[..] + ciphertext[..]
  {
    combined := new Byte[GCM_IV_BYTES + ciphertext.Length];
    for i := 0 to iv.Length
      invariant forall k :: 0 <= k < i ==> combined[k] == iv[k]
    {
      combined[i] := iv[i];
    }
    for i := 0 to ciphertext.Length
      invariant forall k :: 0 <= k < GCM_IV_BYTES ==> combined[k] == iv[k]
      invariant forall k :: 0 <= k < i ==> combined[GCM_IV_BYTES + k] == ciphertext[k]
    {
      combined[GCM_IV_BYTES + i] := ciphertext[i];
    }
    assert combined[..] == iv[..] + ciphertext[..];
  }
}
