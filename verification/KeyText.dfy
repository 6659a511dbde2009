// The text of generated keys, printed and parsed as security/apikey.go does.
// Hexadecimal and unpadded base64url text are those of sections 8 and 5 of
// RFC 4648, read as leniently as Go's decoders read them.
module KeyText {
  import opened Wrappers
  import opened Text

  type Byte = n: nat | n < 256

  type Sextet = n: nat | n < 64

  const DDNS_PREFIX := "hddns_"
  const AGENT_PREFIX := "hagent_"
  const ENROLLMENT_PREFIX := "henroll_"

  const ID_BYTES := 8
  const SECRET_BYTES := 32

  // ----- hexadecimal ------------------------------------------------------------

  const HEX_DIGITS := "0123456789abcdef"

  function HexText(bytes: seq<Byte>): (r: string)
    ensures |r| == 2 * |bytes|
    ensures forall c :: c in r ==> c in HEX_DIGITS
  {
    if bytes == [] then "" else [HEX_DIGITS[bytes[0] / 16], HEX_DIGITS[bytes[0] % 16]] + HexText(bytes[1..])
  }

  function HexValue(c: char): Option<nat> {
    if '0' <= c <= '9' then Some((c - '0') as nat)
    else if 'a' <= c <= 'f' then Some((c - 'a') as nat + 10)
    else if 'A' <= c <= 'F' then Some((c - 'A') as nat + 10)
    else None
  }

  /** hex.DecodeString */
  function FromHex(text: string): Option<seq<Byte>> {
    if text == "" then Some([])
    else if |text| == 1 then None
    else
      match (HexValue(text[0]), HexValue(text[1]), FromHex(text[2..]))
      case (Some(high), Some(low), Some(rest)) =>
        if high < 16 && low < 16 then Some([high * 16 + low] + rest) else None
      case _ => None
  }

  lemma HexDigitValue(v: nat)
    requires v < 16
    ensures HexValue(HEX_DIGITS[v]) == Some(v) && LowerChar(HEX_DIGITS[v]) == HEX_DIGITS[v] && HEX_DIGITS[v] != '.'
  {
  }

  lemma FromHexPair(high: nat, low: nat, rest: string, bytes: seq<Byte>)
    requires high < 16 && low < 16 && FromHex(rest) == Some(bytes)
    ensures FromHex([HEX_DIGITS[high], HEX_DIGITS[low]] + rest) == Some([high * 16 + low] + bytes)
  {
    HexDigitValue(high);
    HexDigitValue(low);
    assert ([HEX_DIGITS[high], HEX_DIGITS[low]] + rest)[2..] == rest;
  }

  lemma Halves(b: Byte)
    ensures b / 16 < 16 && b % 16 < 16 && (b / 16) * 16 + b % 16 == b
  {
  }

  lemma ByteReads(b: Byte, rest: string, bytes: seq<Byte>)
    requires FromHex(rest) == Some(bytes)
    ensures FromHex([HEX_DIGITS[b / 16], HEX_DIGITS[b % 16]] + rest) == Some([b] + bytes)
  {
    Halves(b);
    var high, low := b / 16, b % 16;
    FromHexPair(high, low, rest, bytes);
  }

  lemma HexPrepend(b: Byte, bytes: seq<Byte>)
    requires FromHex(HexText(bytes)) == Some(bytes)
    ensures FromHex(HexText([b] + bytes)) == Some([b] + bytes)
  {
    HexOfMore(b, bytes);
    ByteReads(b, HexText(bytes), bytes);
  }

  lemma HexOfMore(b: Byte, bytes: seq<Byte>)
    ensures HexText([b] + bytes) == [HEX_DIGITS[b / 16], HEX_DIGITS[b % 16]] + HexText(bytes)
  {
    assert ([b] + bytes)[0] == b && ([b] + bytes)[1..] == bytes;
  }

  lemma {:induction false} HexRoundTrip(bytes: seq<Byte>)
    ensures FromHex(HexText(bytes)) == Some(bytes)
  {
    if bytes != [] {
      HexRoundTrip(bytes[1..]);
      HexPrepend(bytes[0], bytes[1..]);
      assert bytes == [bytes[0]] + bytes[1..];
    }
  }

  lemma {:induction false} HexIsLower(bytes: seq<Byte>)
    ensures ToLower(HexText(bytes)) == HexText(bytes) && '.' !in HexText(bytes)
  {
    forall c | c in HEX_DIGITS ensures LowerChar(c) == c && c != '.' {
      var v :| 0 <= v < |HEX_DIGITS| && HEX_DIGITS[v] == c;
      HexDigitValue(v);
    }
    assert forall i :: 0 <= i < |HexText(bytes)| ==> HexText(bytes)[i] in HexText(bytes);
  }

  // ----- base64url without padding -------------------------------------------------

  function Symbol(v: Sextet): char {
    if v < 26 then 'A' + v as char
    else if v < 52 then 'a' + (v - 26) as char
    else if v < 62 then '0' + (v - 52) as char
    else if v == 62 then '-'
    else '_'
  }

  function SymbolValue(c: char): (r: Option<nat>)
    ensures r.Some? ==> r.value < 64
  {
    if 'A' <= c <= 'Z' then Some((c - 'A') as nat)
    else if 'a' <= c <= 'z' then Some((c - 'a') as nat + 26)
    else if '0' <= c <= '9' then Some((c - '0') as nat + 52)
    else if c == '-' then Some(62)
    else if c == '_' then Some(63)
    else None
  }

  /** The sextets of the bytes; the last one is filled up with zero bits. */
  function Sextets(bytes: seq<Byte>): seq<Sextet> {
    if bytes == [] then []
    else
      var a := bytes[0];
      if |bytes| == 1 then [a / 4, a % 4 * 16]
      else
        var b := bytes[1];
        if |bytes| == 2 then [a / 4, a % 4 * 16 + b / 16, b % 16 * 4]
        else
          var c := bytes[2];
          [a / 4, a % 4 * 16 + b / 16, b % 16 * 4 + c / 64, c % 64] + Sextets(bytes[3..])
  }

  function Symbols(values: seq<Sextet>): (r: string)
    ensures |r| == |values|
  {
    if values == [] then "" else [Symbol(values[0])] + Symbols(values[1..])
  }

  /** RawURLEncoding.EncodeToString */
  function Base64Text(bytes: seq<Byte>): string {
    Symbols(Sextets(bytes))
  }

  /** A lone sextet at the end is an error; surplus bits at the end are dropped. */
  function FromSextets(values: seq<Sextet>): Option<seq<Byte>> {
    if values == [] then Some([])
    else if |values| == 1 then None
    else
      var a: nat, b: nat := values[0], values[1];
      var first := a * 4 + b / 16;
      if |values| == 2 then Some([first])
      else
        var c: nat := values[2];
        var second := b % 16 * 16 + c / 4;
        if |values| == 3 then Some([first, second])
        else
          var d: nat := values[3];
          match FromSextets(values[4..])
          case Some(rest) => Some([first, second, c % 4 * 64 + d] + rest)
          case None => None
  }

  /** Line breaks are skipped; any other foreign character is an error. */
  function SymbolValues(text: string): Option<seq<Sextet>> {
    if text == "" then Some([])
    else if text[0] in {'\n', '\r'} then SymbolValues(text[1..])
    else
      match (SymbolValue(text[0]), SymbolValues(text[1..]))
      case (Some(v), Some(rest)) => Some([v] + rest)
      case _ => None
  }

  /** RawURLEncoding.DecodeString */
  function FromBase64(text: string): Option<seq<Byte>> {
    match SymbolValues(text)
    case Some(values) => FromSextets(values)
    case None => None
  }

  lemma SymbolRoundTrip(v: Sextet)
    ensures SymbolValue(Symbol(v)) == Some(v) && Symbol(v) !in {'\n', '\r', '.'}
  {
  }

  lemma {:induction false} SymbolsRoundTrip(values: seq<Sextet>)
    ensures SymbolValues(Symbols(values)) == Some(values)
  {
    if values != [] {
      SymbolRoundTrip(values[0]);
      SymbolsRoundTrip(values[1..]);
      assert values == [values[0]] + values[1..];
    }
  }

  lemma {:induction false} SextetsRoundTrip(bytes: seq<Byte>)
    ensures FromSextets(Sextets(bytes)) == Some(bytes)
  {
    if |bytes| >= 3 {
      SextetsRoundTrip(bytes[3..]);
      ThreeRoundTrip(bytes);
    } else {
      FewRoundTrip(bytes);
    }
  }

  lemma {:induction false} ThreeRoundTrip(bytes: seq<Byte>)
    requires |bytes| >= 3 && FromSextets(Sextets(bytes[3..])) == Some(bytes[3..])
    ensures FromSextets(Sextets(bytes)) == Some(bytes)
  {
    var a, b, c := bytes[0], bytes[1], bytes[2];
    assert Sextets(bytes)[4..] == Sextets(bytes[3..]);
    assert bytes == [a, b, c] + bytes[3..];
  }

  lemma {:induction false} FewRoundTrip(bytes: seq<Byte>)
    requires |bytes| < 3
    ensures FromSextets(Sextets(bytes)) == Some(bytes)
  {
    if |bytes| == 2 {
      assert bytes == [bytes[0], bytes[1]];
    } else if |bytes| == 1 {
      assert bytes == [bytes[0]];
    }
  }

  lemma Base64RoundTrip(bytes: seq<Byte>)
    ensures FromBase64(Base64Text(bytes)) == Some(bytes)
  {
    SymbolsRoundTrip(Sextets(bytes));
    SextetsRoundTrip(bytes);
  }

  // ----- keys -----------------------------------------------------------------------------

  datatype GeneratedKey = GeneratedKey(id: string, plaintext: string, hash: string)

  /** generateKey, given the random bytes and SHA-256 in hexadecimal. */
  function GenerateKey(prefix: string, idRaw: seq<Byte>, secretRaw: seq<Byte>, hash: string -> string): GeneratedKey {
    var id := HexText(idRaw);
    var plain := prefix + id + "." + Base64Text(secretRaw);
    GeneratedKey(id, plain, hash(plain))
  }

  /** The first dot of the text, or its length. */
  function FirstDot(text: string): (r: nat)
    ensures r <= |text| && '.' !in text[..r] && (r < |text| ==> text[r] == '.')
  {
    if text == "" || text[0] == '.' then 0 else 1 + FirstDot(text[1..])
  }

  /** parseKeyID */
  function ParseKeyId(key: string, prefix: string): Option<string> {
    if !HasPrefix(key, prefix) then None
    else
      var rest := key[|prefix|..];
      var dot := FirstDot(rest);
      if dot == |rest| then None
      else
        var id := ToLower(rest[..dot]);
        if |id| != 2 * ID_BYTES || FromHex(id).None? then None
        else
          match FromBase64(rest[dot + 1..])
          case Some(secret) => if |secret| == SECRET_BYTES then Some(id) else None
          case None => None
  }

  /** VerifyAPIKey: two texts of the same length, compared character by character. */
  predicate VerifyKey(hash: string -> string, plain: string, expected: string) {
    var actual := hash(plain);
    |actual| == |expected| && forall i :: 0 <= i < |actual| ==> actual[i] == expected[i]
  }

  lemma VerifyIff(hash: string -> string, plain: string, expected: string)
    ensures VerifyKey(hash, plain, expected) <==> hash(plain) == expected
  {
  }

  /** The texts a key is made of, and that a key can be made of. */
  ghost predicate IsKeyOf(key: string, prefix: string, idText: string, secretText: string) {
    && key == prefix + idText + "." + secretText
    && '.' !in idText && |idText| == 2 * ID_BYTES && FromHex(ToLower(idText)).Some?
    && FromBase64(secretText).Some? && |FromBase64(secretText).value| == SECRET_BYTES
  }

  lemma {:induction false} CutAtDot(idText: string, secretText: string)
    requires '.' !in idText
    ensures var rest := idText + "." + secretText;
            FirstDot(rest) == |idText| && rest[..|idText|] == idText && rest[|idText| + 1..] == secretText
    decreases |idText|
  {
    var rest := idText + "." + secretText;
    if idText != "" {
      assert rest[0] == idText[0] && idText[0] in idText;
      assert rest[1..] == idText[1..] + "." + secretText;
      CutAtDot(idText[1..], secretText);
    }
  }

  lemma CutPrefix(prefix: string, idText: string, secretText: string)
    ensures var key := prefix + idText + "." + secretText;
            key[|prefix|..] == idText + "." + secretText && key[..|prefix|] == prefix
  {
    assert prefix + idText + "." + secretText == prefix + (idText + "." + secretText);
  }

  /** Parsing accepts exactly the texts of that form, and returns the id in lower case. */
  lemma ParseIff(key: string, prefix: string, id: string)
    ensures ParseKeyId(key, prefix) == Some(id)
       <==> exists idText, secretText :: IsKeyOf(key, prefix, idText, secretText) && id == ToLower(idText)
  {
    if ParseKeyId(key, prefix) == Some(id) {
      var rest := key[|prefix|..];
      var dot := FirstDot(rest);
      assert key == prefix + rest[..dot] + "." + rest[dot + 1..];
      assert IsKeyOf(key, prefix, rest[..dot], rest[dot + 1..]);
    }
    forall idText, secretText | IsKeyOf(key, prefix, idText, secretText) && id == ToLower(idText)
      ensures ParseKeyId(key, prefix) == Some(id) {
      CutAtDot(idText, secretText);
      CutPrefix(prefix, idText, secretText);
    }
  }

  lemma GeneratedIsKey(prefix: string, idRaw: seq<Byte>, secretRaw: seq<Byte>, hash: string -> string)
    requires |idRaw| == ID_BYTES && |secretRaw| == SECRET_BYTES
    ensures IsKeyOf(GenerateKey(prefix, idRaw, secretRaw, hash).plaintext, prefix, HexText(idRaw), Base64Text(secretRaw))
    ensures ToLower(HexText(idRaw)) == HexText(idRaw)
  {
    HexIsLower(idRaw);
    HexRoundTrip(idRaw);
    Base64RoundTrip(secretRaw);
  }

  /** A printed key parses under its own prefix to exactly its id, and verifies
      against the hash stored for it. */
  lemma KeyRoundTrip(prefix: string, idRaw: seq<Byte>, secretRaw: seq<Byte>, hash: string -> string)
    requires |idRaw| == ID_BYTES && |secretRaw| == SECRET_BYTES
    ensures var key := GenerateKey(prefix, idRaw, secretRaw, hash);
            ParseKeyId(key.plaintext, prefix) == Some(key.id) && FromHex(key.id) == Some(idRaw)
            && VerifyKey(hash, key.plaintext, key.hash)
  {
    var key := GenerateKey(prefix, idRaw, secretRaw, hash);
    GeneratedIsKey(prefix, idRaw, secretRaw, hash);
    ParseIff(key.plaintext, prefix, key.id);
    HexRoundTrip(idRaw);
    VerifyIff(hash, key.plaintext, key.hash);
  }

  // ----- accepted texts that are not printed ones ------------------------------------

  lemma LowerDigit(c: char)
    requires HexValue(c).Some? && LowerChar(c) == c
    ensures HexValue(c).value < 16 && HEX_DIGITS[HexValue(c).value] == c
  {
  }

  lemma FromHexSplit(text: string) returns (high: nat, low: nat, rest: seq<Byte>)
    requires text != "" && FromHex(text).Some?
    ensures |text| >= 2 && HexValue(text[0]) == Some(high) && HexValue(text[1]) == Some(low) && high < 16 && low < 16
    ensures FromHex(text[2..]) == Some(rest) && FromHex(text) == Some([high * 16 + low] + rest)
  {
    high, low, rest := HexValue(text[0]).value, HexValue(text[1]).value, FromHex(text[2..]).value;
  }

  lemma HexTextFirst(high: nat, low: nat, bytes: seq<Byte>)
    requires high < 16 && low < 16
    ensures HexText([high * 16 + low] + bytes) == [HEX_DIGITS[high], HEX_DIGITS[low]] + HexText(bytes)
  {
    var all: seq<Byte> := [high * 16 + low] + bytes;
    assert all[0] / 16 == high && all[0] % 16 == low && all[1..] == bytes;
  }

  lemma HexFront(text: string)
    requires text != "" && FromHex(text).Some? && ToLower(text) == text
    ensures |text| >= 2 && FromHex(text[2..]).Some? && ToLower(text[2..]) == text[2..]
    ensures HexText(FromHex(text).value) == [text[0], text[1]] + HexText(FromHex(text[2..]).value)
  {
    var high, low, rest := FromHexSplit(text);
    LowerRest(text);
    LowerDigit(text[0]);
    LowerDigit(text[1]);
    HexTextFirst(high, low, rest);
  }

  lemma {:induction false} HexAgain(text: string)
    requires FromHex(text).Some? && ToLower(text) == text
    ensures HexText(FromHex(text).value) == text
    decreases |text|
  {
    if text != "" {
      HexFront(text);
      HexAgain(text[2..]);
      assert text == [text[0], text[1]] + text[2..];
    }
  }

  lemma LowerRest(text: string)
    requires ToLower(text) == text && |text| >= 2
    ensures LowerChar(text[0]) == text[0] && LowerChar(text[1]) == text[1] && ToLower(text[2..]) == text[2..]
  {
    assert forall i :: 0 <= i < |text| ==> LowerChar(text[i]) == ToLower(text)[i] == text[i];
  }

  predicate HasLineBreak(text: string) { '\n' in text || '\r' in text }

  lemma ValueSymbol(c: char)
    requires SymbolValue(c).Some?
    ensures Symbol(SymbolValue(c).value) == c
  {
  }

  lemma {:induction false} SymbolsAgain(text: string)
    requires SymbolValues(text).Some?
    ensures var values := SymbolValues(text).value;
            && |values| <= |text| && (|values| == |text| <==> !HasLineBreak(text))
            && (!HasLineBreak(text) ==> Symbols(values) == text)
    decreases |text|
  {
    if text != "" {
      SymbolsAgain(text[1..]);
      assert text == [text[0]] + text[1..];
      if text[0] !in {'\n', '\r'} {
        ValueSymbol(text[0]);
        assert SymbolValues(text).value[1..] == SymbolValues(text[1..]).value;
      }
    }
  }

  /** The bits of the last sextet that belong to no byte are zero. */
  predicate NoSurplus(values: seq<Sextet>) {
    && (|values| % 4 == 2 ==> values[|values| - 1] % 16 == 0)
    && (|values| % 4 == 3 ==> values[|values| - 1] % 4 == 0)
  }

  lemma {:induction false} SextetsAgain(values: seq<Sextet>)
    requires FromSextets(values).Some?
    ensures Sextets(FromSextets(values).value) == values <==> NoSurplus(values)
    ensures |FromSextets(values).value| == |values| / 4 * 3 + [0, 0, 1, 2][|values| % 4]
    decreases |values|
  {
    if |values| >= 4 {
      SextetsAgain(values[4..]);
      FourSextets(values);
    } else if |values| == 3 {
      assert values == [values[0], values[1], values[2]];
    } else if |values| == 2 {
      assert values == [values[0], values[1]];
    }
  }

  /** Three bytes and the four sextets they are written as. */
  lemma Group(a: nat, b: nat, c: nat, d: nat)
    requires a < 64 && b < 64 && c < 64 && d < 64
    ensures var x, y, z := a * 4 + b / 16, b % 16 * 16 + c / 4, c % 4 * 64 + d;
            x < 256 && y < 256 && z < 256 && x / 4 == a && x % 4 * 16 + y / 16 == b && y % 16 * 4 + z / 64 == c && z % 64 == d
  {
  }

  lemma FourSextets(values: seq<Sextet>)
    requires |values| >= 4 && FromSextets(values).Some?
    ensures FromSextets(values[4..]).Some?
    ensures var bytes, rest := FromSextets(values).value, FromSextets(values[4..]).value;
            |bytes| == 3 + |rest| && Sextets(bytes) == values[..4] + Sextets(rest)
    ensures NoSurplus(values) <==> NoSurplus(values[4..])
  {
    var bytes, rest := FromSextets(values).value, FromSextets(values[4..]).value;
    Group(values[0], values[1], values[2], values[3]);
    assert bytes[3..] == rest;
    assert values[..4] == [values[0], values[1], values[2], values[3]];
    SameSurplus(values);
  }

  lemma SameSurplus(values: seq<Sextet>)
    requires |values| >= 4
    ensures NoSurplus(values) <==> NoSurplus(values[4..])
  {
    if |values| > 4 { assert values[4..][|values| - 5] == values[|values| - 1]; }
  }

  /** A generated key's text under the prefix. */
  ghost predicate IsPrinted(key: string, prefix: string) {
    exists id: seq<Byte>, secret: seq<Byte> ::
      |id| == ID_BYTES && |secret| == SECRET_BYTES && key == prefix + HexText(id) + "." + Base64Text(secret)
  }

  /** The printer's own spelling: a lower-case id, and a secret without line breaks
      whose last symbol has no surplus bits. */
  predicate IsCanonical(idText: string, secretText: string) {
    && idText == ToLower(idText)
    && |secretText| == 43 && !HasLineBreak(secretText)
    && SymbolValue(secretText[42]).Some? && SymbolValue(secretText[42]).value % 4 == 0
  }

  lemma {:induction false} SymbolAt(text: string, i: nat)
    requires SymbolValues(text).Some? && !HasLineBreak(text) && i < |text|
    ensures |SymbolValues(text).value| == |text| && SymbolValue(text[i]) == Some(SymbolValues(text).value[i])
    decreases |text|
  {
    SymbolsAgain(text);
    assert text == [text[0]] + text[1..];
    if i > 0 { SymbolAt(text[1..], i - 1); }
  }

  lemma SecretAgain(secretText: string)
    requires FromBase64(secretText).Some? && |FromBase64(secretText).value| == SECRET_BYTES
    ensures Base64Text(FromBase64(secretText).value) == secretText
       <==> |secretText| == 43 && !HasLineBreak(secretText)
            && SymbolValue(secretText[42]).Some? && SymbolValue(secretText[42]).value % 4 == 0
  {
    var values, secret := SymbolValues(secretText).value, FromBase64(secretText).value;
    SymbolsAgain(secretText);
    SextetsAgain(values);
    assert |values| == 43;
    SymbolsRoundTrip(Sextets(secret));
    if !HasLineBreak(secretText) { SymbolAt(secretText, 42); }
    if Base64Text(secret) == secretText { assert Sextets(secret) == values; }
  }

  /** An accepted text is a printed one exactly when it is spelled as the printer
      spells it. */
  lemma PrintedIff(key: string, prefix: string, idText: string, secretText: string)
    requires IsKeyOf(key, prefix, idText, secretText)
    ensures IsPrinted(key, prefix) <==> IsCanonical(idText, secretText)
  {
    var id, secret := FromHex(ToLower(idText)).value, FromBase64(secretText).value;
    SecretAgain(secretText);
    IdAgain(idText);
    if IsCanonical(idText, secretText) {
      assert key == prefix + HexText(id) + "." + Base64Text(secret);
    }
    forall id: seq<Byte>, secret: seq<Byte> |
      |id| == ID_BYTES && |secret| == SECRET_BYTES && key == prefix + HexText(id) + "." + Base64Text(secret)
      ensures IsCanonical(idText, secretText) {
      HexIsLower(id);
      Base64RoundTrip(secret);
      SameParts(prefix, idText, secretText, HexText(id), Base64Text(secret));
    }
  }

  lemma IdAgain(idText: string)
    requires |idText| == 2 * ID_BYTES && FromHex(ToLower(idText)).Some?
    ensures |FromHex(ToLower(idText)).value| == ID_BYTES
    ensures ToLower(idText) == idText ==> HexText(FromHex(ToLower(idText)).value) == idText
  {
    var low := ToLower(idText);
    assert ToLower(low) == low;
    HexAgain(low);
  }

  lemma SameParts(prefix: string, a: string, b: string, a': string, b': string)
    requires '.' !in a && '.' !in a' && prefix + a + "." + b == prefix + a' + "." + b'
    ensures a == a' && b == b'
  {
    var key := prefix + a + "." + b;
    assert key[|prefix|..] == a + "." + b && key[|prefix|..] == a' + "." + b';
    CutAtDot(a, b);
    CutAtDot(a', b');
  }

  /** For instance, an id with a letter in it, spelled in capitals: accepted as the
      same id, and printed for no key at all. */
  lemma CapitalsAreAccepted(prefix: string, id: seq<Byte>, secret: seq<Byte>)
    requires |id| == ID_BYTES && |secret| == SECRET_BYTES && ToUpper(HexText(id)) != HexText(id)
    ensures var key := prefix + ToUpper(HexText(id)) + "." + Base64Text(secret);
            ParseKeyId(key, prefix) == Some(HexText(id)) && !IsPrinted(key, prefix)
  {
    var capitals, text := ToUpper(HexText(id)), Base64Text(secret);
    var key := prefix + capitals + "." + text;
    HexIsLower(id);
    HexRoundTrip(id);
    Base64RoundTrip(secret);
    UpperThenLower(HexText(id));
    assert IsKeyOf(key, prefix, capitals, text);
    ParseIff(key, prefix, HexText(id));
    PrintedIff(key, prefix, capitals, text);
  }

  lemma UpperThenLower(text: string)
    requires ToLower(text) == text && '.' !in text
    ensures ToLower(ToUpper(text)) == text && '.' !in ToUpper(text)
  {
    forall i | 0 <= i < |text| ensures LowerChar(UpperChar(text[i])) == text[i] && UpperChar(text[i]) != '.' {
      assert LowerChar(text[i]) == ToLower(text)[i] == text[i] && text[i] in text;
    }
  }

  /** No text parses under two of the three prefixes. */
  lemma PrefixesKeepApart(key: string, p: string, q: string)
    requires p in {DDNS_PREFIX, AGENT_PREFIX, ENROLLMENT_PREFIX} && q in {DDNS_PREFIX, AGENT_PREFIX, ENROLLMENT_PREFIX}
    requires p != q && ParseKeyId(key, p).Some?
    ensures ParseKeyId(key, q).None?
  {
    assert key[1] == p[1] && p[1] != q[1];
  }

  /** Different ids or secrets are printed differently, and different ids get
      different parsed ids. */
  lemma PrintingIsInjective(prefix: string, id: seq<Byte>, secret: seq<Byte>, id': seq<Byte>, secret': seq<Byte>,
                            hash: string -> string)
    requires |id| == ID_BYTES == |id'| && |secret| == SECRET_BYTES == |secret'|
    ensures GenerateKey(prefix, id, secret, hash).plaintext == GenerateKey(prefix, id', secret', hash).plaintext
       <==> id == id' && secret == secret'
    ensures GenerateKey(prefix, id, secret, hash).id == GenerateKey(prefix, id', secret', hash).id <==> id == id'
  {
    HexRoundTrip(id);
    HexRoundTrip(id');
    Base64RoundTrip(secret);
    Base64RoundTrip(secret');
    var plain, plain' := GenerateKey(prefix, id, secret, hash).plaintext, GenerateKey(prefix, id', secret', hash).plaintext;
    if plain == plain' {
      var n := |prefix| + 2 * ID_BYTES;
      assert plain[|prefix|..n] == HexText(id) && plain[n + 1..] == Base64Text(secret);
      assert plain'[|prefix|..n] == HexText(id') && plain'[n + 1..] == Base64Text(secret');
    }
  }

  // ----- how keys look -------------------------------------------------------------

  lemma {:induction false} SextetCount(bytes: seq<Byte>)
    ensures 3 * |Sextets(bytes)| == 4 * |bytes| + (if |bytes| % 3 == 0 then 0 else if |bytes| % 3 == 1 then 2 else 1)
    decreases |bytes|
  {
    if |bytes| >= 3 { SextetCount(bytes[3..]); }
  }

  /** A key of one of the three kinds: its name, 16 hexadecimal digits for the id of 8
      bytes, a dot, and 43 symbols for the secret of 32 bytes. It parses to that id. */
  lemma PrintedShape(idRaw: seq<Byte>, secretRaw: seq<Byte>, hash: string -> string)
    requires |idRaw| == 8 && |secretRaw| == 32
    ensures |HexText(idRaw)| == 16 && |Base64Text(secretRaw)| == 43
    ensures forall kind, prefix :: (kind, prefix) in {("hddns_", DDNS_PREFIX), ("hagent_", AGENT_PREFIX), ("henroll_", ENROLLMENT_PREFIX)} ==>
              var key := GenerateKey(prefix, idRaw, secretRaw, hash);
              && key.plaintext == kind + HexText(idRaw) + "." + Base64Text(secretRaw) && key.hash == hash(key.plaintext)
              && key.id == HexText(idRaw) && ParseKeyId(key.plaintext, prefix) == Some(key.id)
  {
    SextetCount(secretRaw);
    KeyRoundTrip(DDNS_PREFIX, idRaw, secretRaw, hash);
    KeyRoundTrip(AGENT_PREFIX, idRaw, secretRaw, hash);
    KeyRoundTrip(ENROLLMENT_PREFIX, idRaw, secretRaw, hash);
  }
}
