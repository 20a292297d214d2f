/** Lower-case hexadecimal: the printer of opaque tickets, and the parser of owner literals. */
module HexCodec {
  import opened Collections
  import opened Envelope
  import opened Text
  import opened Words

  function HexChar(n: nat): char
    requires n < 16
  {
    "0123456789abcdef"[n]
  }

  predicate IsHexDigit(c: char) {
    '0' <= c <= '9' || 'a' <= c <= 'f' || 'A' <= c <= 'F'
  }

  function HexValue(c: char): (n: nat)
    requires IsHexDigit(c)
    ensures n < 16
  {
    if '0' <= c <= '9' then (c - '0') as nat
    else if 'a' <= c <= 'f' then (c - 'a') as nat + 10
    else (c - 'A') as nat + 10
  }

  /** A digit's value determines its lower-case form, and the other way round. */
  lemma HexCharIff(c: char, n: nat)
    requires n < 16
    ensures IsHexDigit(c) && HexValue(c) == n <==> LowerChar(c) == HexChar(n)
    ensures LowerChar(HexChar(n)) == HexChar(n) && !IsWhitespace(HexChar(n))
  {
    assert forall k :: 0 <= k < 10 ==> "0123456789abcdef"[k] == '0' + k as char;
    assert forall k :: 10 <= k < 16 ==> "0123456789abcdef"[k] == 'a' + (k - 10) as char;
  }

  function HexPair(b: u8): string {
    [HexChar(b / 16), HexChar(b % 16)]
  }

  function Hex(bytes: seq<u8>): (s: string)
    ensures |s| == 2 * |bytes|
    ensures forall i :: 0 <= i < |bytes| ==> s[2 * i] == HexChar(bytes[i] / 16) && s[2 * i + 1] == HexChar(bytes[i] % 16)
  {
    if bytes == [] then "" else
      var front := Hex(bytes[..|bytes| - 1]);
      front + HexPair(bytes[|bytes| - 1])
  }

  method HexEncodeLower(bytes: seq<u8>) returns (out: string)
    ensures |out| == 2 * |bytes|
    ensures forall i :: 0 <= i < |bytes| ==> out[2 * i] == "0123456789abcdef"[bytes[i] / 16]
    ensures forall i :: 0 <= i < |bytes| ==> out[2 * i + 1] == "0123456789abcdef"[bytes[i] % 16]
    ensures out == Hex(bytes)
  {
    out := "";
    for i := 0 to |bytes|
      invariant out == Hex(bytes[..i])
    {
      var b := bytes[i];
      out := out + [HexChar(b / 16)];
      out := out + [HexChar(b % 16)];
      assert bytes[..i + 1][..i] == bytes[..i];
    }
    assert bytes[..|bytes|] == bytes;
  }

  datatype OwnerError = NotSixtyFourHexDigits

  predicate IsOwnerLiteral(hex: string) {
    |hex| == 64 && forall i :: 0 <= i < 64 ==> IsHexDigit(hex[i])
  }

  function ByteAt(hex: string, i: nat): u8
    requires IsOwnerLiteral(hex) && i < 32
  {
    16 * HexValue(hex[2 * i]) + HexValue(hex[2 * i + 1])
  }

  function ParseOwner(raw: string): Result<Hash32, OwnerError> {
    var hex := Trim(raw);
    if IsOwnerLiteral(hex) then Ok(seq(32, i requires 0 <= i < 32 => ByteAt(hex, i))) else Err(NotSixtyFourHexDigits)
  }

  method ParseOwnerHex(raw: string) returns (r: Result<Hash32, OwnerError>)
    ensures r == ParseOwner(raw)
  {
    var hex := Trim(raw);
    if !IsOwnerLiteral(hex) {
      return Err(NotSixtyFourHexDigits);
    }
    var bytes := new u8[32](_ => 0);
    for index := 0 to 32
      invariant forall j :: 0 <= j < index ==> bytes[j] == ByteAt(hex, j)
    {
      var start := index * 2;
      bytes[index] := 16 * HexValue(hex[start]) + HexValue(hex[start + 1]);
    }
    assert bytes[..] == seq(32, i requires 0 <= i < 32 => ByteAt(hex, i));
    return Ok(bytes[..]);
  }

  lemma HexIsTrimmed(bytes: Hash32)
    ensures Trim(Hex(bytes)) == Hex(bytes) && Lower(Hex(bytes)) == Hex(bytes)
  {
    var s := Hex(bytes);
    forall i | 0 <= i < 32
      ensures LowerChar(s[2 * i]) == s[2 * i] && LowerChar(s[2 * i + 1]) == s[2 * i + 1]
      ensures !IsWhitespace(s[2 * i]) && !IsWhitespace(s[2 * i + 1])
    {
      HexCharIff('0', bytes[i] / 16);
      HexCharIff('0', bytes[i] % 16);
    }
    forall j | 0 <= j < 64 ensures LowerChar(s[j]) == s[j] && !IsWhitespace(s[j]) {
      assert j == 2 * (j / 2) || j == 2 * (j / 2) + 1;
    }
    TrimKeeps(s);
    assert Lower(s) == s;
  }

  /** One byte of a literal has a given value exactly when its two characters, lowered, are that byte's pair. */
  lemma ByteIff(hex: string, i: nat, b: u8)
    requires |hex| == 64 && i < 32
    ensures IsHexDigit(hex[2 * i]) && IsHexDigit(hex[2 * i + 1])
            && 16 * HexValue(hex[2 * i]) + HexValue(hex[2 * i + 1]) == b
        <==> LowerChar(hex[2 * i]) == HexChar(b / 16) && LowerChar(hex[2 * i + 1]) == HexChar(b % 16)
  {
    HexCharIff(hex[2 * i], b / 16);
    HexCharIff(hex[2 * i + 1], b % 16);
  }

  /**
   Parser and printer are inverse up to surrounding whitespace and letter case: a literal
   parses to given bytes exactly when, trimmed and lowered, it is what those bytes print as.
   */
  lemma ParsesIff(raw: string, bytes: Hash32)
    ensures ParseOwner(raw) == Ok(bytes) <==> Lower(Trim(raw)) == Hex(bytes)
  {
    var hex := Trim(raw);
    if |hex| == 64 {
      forall i: nat | i < 32
        ensures IsHexDigit(hex[2 * i]) && IsHexDigit(hex[2 * i + 1])
            && 16 * HexValue(hex[2 * i]) + HexValue(hex[2 * i + 1]) == bytes[i]
        <==> LowerChar(hex[2 * i]) == HexChar(bytes[i] / 16) && LowerChar(hex[2 * i + 1]) == HexChar(bytes[i] % 16)
      {
        ByteIff(hex, i, bytes[i]);
      }
      if Lower(hex) == Hex(bytes) {
        LoweredParses(hex, bytes);
        assert ParseOwner(raw).value == bytes;
      } else if IsOwnerLiteral(hex) {
        assert exists j :: 0 <= j < 64 && Lower(hex)[j] != Hex(bytes)[j];
        var j :| 0 <= j < 64 && Lower(hex)[j] != Hex(bytes)[j];
        assert j == 2 * (j / 2) || j == 2 * (j / 2) + 1;
        assert ByteAt(hex, j / 2) != bytes[j / 2];
      }
    }
  }

  lemma LoweredParses(hex: string, bytes: Hash32)
    requires |hex| == 64 && Lower(hex) == Hex(bytes)
    ensures IsOwnerLiteral(hex) && forall i :: 0 <= i < 32 ==> ByteAt(hex, i) == bytes[i]
  {
    forall i: nat | i < 32
      ensures IsHexDigit(hex[2 * i]) && IsHexDigit(hex[2 * i + 1])
      ensures 16 * HexValue(hex[2 * i]) + HexValue(hex[2 * i + 1]) == bytes[i]
    {
      assert Lower(hex)[2 * i] == Hex(bytes)[2 * i] && Lower(hex)[2 * i + 1] == Hex(bytes)[2 * i + 1];
      ByteIff(hex, i, bytes[i]);
    }
    forall j | 0 <= j < 64 ensures IsHexDigit(hex[j]) {
      assert j == 2 * (j / 2) || j == 2 * (j / 2) + 1;
    }
  }

  /** Printing and parsing back is the identity on 32 bytes. */
  lemma ParseAfterPrint(bytes: Hash32)
    ensures ParseOwner(Hex(bytes)) == Ok(bytes)
  {
    HexIsTrimmed(bytes);
    ParsesIff(Hex(bytes), bytes);
  }

  /** Whatever parses prints back as its trimmed, lowered self; nothing else parses. */
  lemma PrintAfterParse(raw: string)
    ensures ParseOwner(raw).Ok? <==> IsOwnerLiteral(Trim(raw))
    ensures ParseOwner(raw).Ok? ==> Hex(ParseOwner(raw).value) == Lower(Trim(raw))
  {
    if ParseOwner(raw).Ok? {
      ParsesIff(raw, ParseOwner(raw).value);
    }
  }

  /** White space around an owner literal does not change what it parses to. */
  lemma OwnerPaddingIgnored(before: string, raw: string, after: string)
    requires AllWhitespace(before) && AllWhitespace(after)
    ensures ParseOwner(before + raw + after) == ParseOwner(raw)
  {
    TrimIgnoresPadding(before, raw, after);
    hide Trim, IsOwnerLiteral;
  }
}
