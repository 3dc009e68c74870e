/** Webhook signature verification: the header must be "sha256=" followed by
    the lowercase hexadecimal HMAC-SHA256 of the raw body, keyed by the
    repository's secret. The HMAC itself (RFC 2104 over SHA-256 of FIPS 180-4)
    is not modelled: it is the parameter `mac`, any function giving 32 bytes. */
module Util {
  import opened Models

  newtype byte = x: int | 0 <= x < 256

  type Digest = d: seq<byte> | |d| == 32 witness seq(32, i => 0 as byte)

  /** HMAC-SHA256 keyed by the UTF-8 bytes of the secret. */
  type Mac = (string, seq<byte>) -> Digest

  const SignaturePrefix := "sha256="

  predicate IsLowerHex(c: char)
  {
    '0' <= c <= '9' || 'a' <= c <= 'f'
  }

  /** The digit of a nibble, as `hexdigest` writes it (lowercase). */
  function HexDigit(n: int): (c: char)
    requires 0 <= n < 16
    ensures IsLowerHex(c)
  {
    if n < 10 then ('0' as int + n) as char else ('a' as int + n - 10) as char
  }

  /** The nibble a lowercase digit stands for; None for any other character. */
  function HexValue(c: char): (r: Option<int>)
    ensures r.Some? <==> IsLowerHex(c)
    ensures r.Some? ==> 0 <= r.value < 16 && HexDigit(r.value) == c
  {
    if '0' <= c <= '9' then Some(c as int - '0' as int)
    else if 'a' <= c <= 'f' then Some(c as int - 'a' as int + 10)
    else None
  }

  /** `hexdigest`: two lowercase digits per byte, high nibble first. */
  function HexEncode(d: seq<byte>): (s: string)
    ensures |s| == 2 * |d|
    ensures forall i | 0 <= i < |s| :: IsLowerHex(s[i])
  {
    if d == [] then ""
    else [HexDigit(d[0] as int / 16), HexDigit(d[0] as int % 16)] + HexEncode(d[1..])
  }

  /** Reading lowercase hexadecimal back into bytes; None when the text has
      odd length or a character that `hexdigest` never writes. */
  function HexDecode(s: string): Option<seq<byte>>
    decreases |s|
  {
    if s == "" then Some([])
    else if |s| == 1 then None
    else
      match (HexValue(s[0]), HexValue(s[1]), HexDecode(s[2..]))
      case (Some(hi), Some(lo), Some(rest)) => Some([(hi * 16 + lo) as byte] + rest)
      case _ => None
  }

  lemma {:induction false} DecodeEncode(d: seq<byte>)
    ensures HexDecode(HexEncode(d)) == Some(d)
  {
    if d != [] {
      var s := HexEncode(d);
      assert s[2..] == HexEncode(d[1..]);
      DecodeEncode(d[1..]);
      var hi, lo := d[0] as int / 16, d[0] as int % 16;
      assert HexValue(s[0]) == Some(hi) && HexValue(s[1]) == Some(lo);
      assert [d[0]] + d[1..] == d;
    }
  }

  lemma {:induction false} EncodeDecode(s: string, d: seq<byte>)
    requires HexDecode(s) == Some(d)
    ensures HexEncode(d) == s
  {
    if s != "" {
      var hi, lo := HexValue(s[0]).value, HexValue(s[1]).value;
      var rest := HexDecode(s[2..]).value;
      assert d == [(hi * 16 + lo) as byte] + rest;
      EncodeDecode(s[2..], rest);
      assert d[0] as int / 16 == hi && d[0] as int % 16 == lo;
      assert d[1..] == rest;
      assert s == [s[0], s[1]] + s[2..];
    }
  }

  /** Different digests never share a hexadecimal form. */
  lemma HexEncodeInjective(d1: seq<byte>, d2: seq<byte>)
    requires HexEncode(d1) == HexEncode(d2)
    ensures d1 == d2
  {
    DecodeEncode(d1);
    DecodeEncode(d2);
  }

  /** Every character is in the ASCII range. */
  predicate IsAscii(s: string)
  {
    forall i | 0 <= i < |s| :: s[i] < '\U{80}'
  }

  /** The header value a correct sender puts on `body`. */
  function ExpectedSignature(mac: Mac, body: seq<byte>, secret: string): (s: string)
    ensures |s| == |SignaturePrefix| + 64 == 71
    ensures s[..|SignaturePrefix|] == SignaturePrefix
    ensures forall i | |SignaturePrefix| <= i < |s| :: IsLowerHex(s[i])
    ensures HexDecode(s[|SignaturePrefix|..]) == Some(mac(secret, body))
    ensures IsAscii(s)
  {
    var hex := HexEncode(mac(secret, body));
    DecodeEncode(mac(secret, body));
    assert (SignaturePrefix + hex)[|SignaturePrefix|..] == hex;
    SignaturePrefix + hex
  }

  /** The three ways verification ends: the function returns true, returns
      false, or `hmac.compare_digest` raises `TypeError` because the header
      holds a character outside ASCII. */
  datatype Verdict = Accepted | Refused | RaisesTypeError

  /** A missing or empty header is refused before anything is computed. A
      header with a non-ASCII character makes the comparison raise. Otherwise
      the header is accepted exactly when it equals the expected signature
      character for character. */
  function VerifySignature(mac: Mac, body: seq<byte>, secret: string, header: Option<string>): (v: Verdict)
    ensures header.None? || header == Some("") ==> v == Refused
    ensures v == RaisesTypeError <==> header.Some? && !IsAscii(header.value)
    ensures v == Accepted <==> header == Some(ExpectedSignature(mac, body, secret))
  {
    if header.None? || header.value == "" then Refused
    else if !IsAscii(header.value) then RaisesTypeError
    else if ExpectedSignature(mac, body, secret) == header.value then Accepted
    else Refused
  }

  /** The signature a correct sender computes is always accepted. */
  lemma CorrectSignatureAccepted(mac: Mac, body: seq<byte>, secret: string)
    ensures VerifySignature(mac, body, secret, Some(SignaturePrefix + HexEncode(mac(secret, body)))) == Accepted
  {
  }

  /** A well-formed header carrying any other digest is refused. */
  lemma OtherDigestRejected(mac: Mac, body: seq<byte>, secret: string, d: Digest)
    requires d != mac(secret, body)
    ensures VerifySignature(mac, body, secret, Some(SignaturePrefix + HexEncode(d))) == Refused
  {
    var header := SignaturePrefix + HexEncode(d);
    assert forall i | 0 <= i < |SignaturePrefix| :: header[i] == SignaturePrefix[i];
    assert forall i | |SignaturePrefix| <= i < |header| :: header[i] == HexEncode(d)[i - |SignaturePrefix|];
    if header == ExpectedSignature(mac, body, secret) {
      assert header[|SignaturePrefix|..] == HexEncode(d);
      DecodeEncode(d);
      assert false;
    }
  }

  /** A header without the "sha256=" prefix is never accepted. */
  lemma MissingPrefixRejected(mac: Mac, body: seq<byte>, secret: string, header: string)
    requires |header| < |SignaturePrefix| || header[..|SignaturePrefix|] != SignaturePrefix
    ensures VerifySignature(mac, body, secret, Some(header)) != Accepted
  {
  }

  /** A header holding an uppercase hexadecimal digit anywhere is never
      accepted. */
  lemma UppercaseRejected(mac: Mac, body: seq<byte>, secret: string, header: string, i: nat)
    requires i < |header| && 'A' <= header[i] <= 'F'
    ensures VerifySignature(mac, body, secret, Some(header)) != Accepted
  {
  }

  /** A header with a character outside ASCII makes the comparison raise,
      whatever the body and the secret. */
  lemma NonAsciiHeaderRaises(mac: Mac, body: seq<byte>, secret: string, header: string, i: nat)
    requires i < |header| && header[i] >= '\U{80}'
    ensures VerifySignature(mac, body, secret, Some(header)) == RaisesTypeError
  {
  }

  /** The verdict depends on the body and the secret only through their HMAC:
      nothing else (no clock, no state) enters it. */
  lemma VerdictDependsOnlyOnDigest(mac1: Mac, body1: seq<byte>, secret1: string,
                                   mac2: Mac, body2: seq<byte>, secret2: string, header: Option<string>)
    requires mac1(secret1, body1) == mac2(secret2, body2)
    ensures VerifySignature(mac1, body1, secret1, header) == VerifySignature(mac2, body2, secret2, header)
  {
  }
}
