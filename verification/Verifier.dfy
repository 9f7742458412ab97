/** Request verification: hmacSigner, hmacVerifier (internal/handlers/unidler/helpers.go:41-59) and
    verifyRequest (internal/handlers/unidler/handler.go:220-242). */
module Verifier {
  import opened Options
  import opened Clusters

  type Byte = b: int | 0 <= b < 256

  /** HMAC-SHA-256 (RFC 2104) of a text under a secret; nothing here depends on what it computes. */
  type Hmac = (string, string) -> seq<Byte>

  function HexDigit(n: nat): char
    requires n < 16
  {
    if n < 10 then ('0' as int + n) as char else ('a' as int + n - 10) as char
  }

  /** The value of a hexadecimal digit of either case. */
  function HexValue(c: char): (r: Option<nat>)
    ensures r.Some? ==> r.value < 16
  {
    if '0' <= c <= '9' then Some(c as int - '0' as int)
    else if 'a' <= c <= 'f' then Some(c as int - 'a' as int + 10)
    else if 'A' <= c <= 'F' then Some(c as int - 'A' as int + 10)
    else None
  }

  /** hex.EncodeToString (base 16 of section 8 of RFC 4648, in lower case). */
  function EncodeToString(bytes: seq<Byte>): string {
    if bytes == [] then ""
    else [HexDigit(bytes[0] / 16), HexDigit(bytes[0] % 16)] + EncodeToString(bytes[1..])
  }

  /** hex.DecodeString; None for a bad character or an odd length. */
  function DecodeString(s: string): Option<seq<Byte>> {
    if s == "" then Some([])
    else if |s| == 1 then None
    else
      match (HexValue(s[0]), HexValue(s[1]), DecodeString(s[2..]))
      case (Some(hi), Some(lo), Some(rest)) => Some([hi * 16 + lo] + rest)
      case _ => None
  }

  function Signer(hmac: Hmac, namespace: string, secret: string): string {
    EncodeToString(hmac(namespace, secret))
  }

  predicate Verifies(hmac: Hmac, namespace: string, toVerify: string, secret: string) {
    DecodeString(toVerify) == Some(hmac(namespace, secret))
  }

  /** The letters A-F in lower case, everything else unchanged. */
  function Lower(s: string): string {
    seq(|s|, i requires 0 <= i < |s| => if 'A' <= s[i] <= 'F' then (s[i] as int + 32) as char else s[i])
  }

  lemma HexDigitValue(c: char, n: nat)
    requires n < 16
    ensures HexValue(c) == Some(n) <==> Lower([c]) == [HexDigit(n)]
  {
    var l := Lower([c]);
    assert l[0] == if 'A' <= c <= 'F' then (c as int + 32) as char else c;
    if HexValue(c) == Some(n) {
      assert l == [HexDigit(n)];
    }
  }

  /** A text decodes to `bytes` exactly when it is their encoding up to the case of its letters. */
  lemma {:induction false} DecodesTo(s: string, bytes: seq<Byte>)
    ensures DecodeString(s) == Some(bytes) <==> Lower(s) == EncodeToString(bytes)
  {
    if bytes == [] {
      assert |Lower(s)| == |s|;
    } else if |s| >= 2 {
      DecodesTo(s[2..], bytes[1..]);
      DecodesPair(s, bytes);
      HexDigitValue(s[0], bytes[0] / 16);
      HexDigitValue(s[1], bytes[0] % 16);
      LowerPair(s);
      var e := EncodeToString(bytes);
      assert e[..1] == [HexDigit(bytes[0] / 16)] && e[1..2] == [HexDigit(bytes[0] % 16)]
             && e[2..] == EncodeToString(bytes[1..]);
      assert e == e[..1] + e[1..2] + e[2..];
      assert Lower(s)[..1] == Lower([s[0]]) && Lower(s)[1..2] == Lower([s[1]]) && Lower(s)[2..] == Lower(s[2..]);
    }
  }

  lemma LowerPair(s: string)
    requires |s| >= 2
    ensures Lower(s) == Lower([s[0]]) + Lower([s[1]]) + Lower(s[2..])
  {
  }

  lemma DecodesPair(s: string, bytes: seq<Byte>)
    requires |s| >= 2 && bytes != []
    ensures DecodeString(s) == Some(bytes) <==>
              && HexValue(s[0]) == Some(bytes[0] / 16) && HexValue(s[1]) == Some(bytes[0] % 16)
              && DecodeString(s[2..]) == Some(bytes[1..])
  {
    match (HexValue(s[0]), HexValue(s[1]), DecodeString(s[2..]))
    case (Some(hi), Some(lo), Some(rest)) =>
      assert ([hi * 16 + lo] + rest)[1..] == rest;
      assert bytes == [bytes[0]] + bytes[1..];
    case _ =>
  }

  /** The verifier accepts exactly the case variants of what the signer emits. */
  lemma VerifierAcceptsSigned(hmac: Hmac, namespace: string, secret: string, toVerify: string)
    ensures Verifies(hmac, namespace, toVerify, secret) <==> Lower(toVerify) == Signer(hmac, namespace, secret)
    ensures Verifies(hmac, namespace, Signer(hmac, namespace, secret), secret)
  {
    var bytes := hmac(namespace, secret);
    DecodesTo(toVerify, bytes);
    DecodesTo(EncodeToString(bytes), bytes);
    LowerEncoded(bytes);
  }

  /** A signature works for another namespace or secret only when the two HMACs collide. */
  lemma SignatureTransfers(hmac: Hmac, a: string, b: string, secretA: string, secretB: string)
    ensures Verifies(hmac, b, Signer(hmac, a, secretA), secretB) <==> hmac(a, secretA) == hmac(b, secretB)
  {
    LowerEncoded(hmac(a, secretA));
    DecodesTo(Signer(hmac, a, secretA), hmac(a, secretA));
  }

  lemma {:induction false} LowerEncoded(bytes: seq<Byte>)
    ensures Lower(EncodeToString(bytes)) == EncodeToString(bytes)
  {
    if bytes != [] {
      LowerEncoded(bytes[1..]);
      var s := EncodeToString(bytes);
      assert s[2..] == EncodeToString(bytes[1..]);
      forall i | 0 <= i < |s|
        ensures Lower(s)[i] == s[i]
      {
        if i >= 2 {
          assert s[i] == s[2..][i - 2] && Lower(s[2..])[i - 2] == s[i];
        }
      }
    }
  }

  /** strconv.ParseBool without its error. */
  predicate ParsesTrue(s: string) {
    s in {"1", "t", "T", "TRUE", "true", "True"}
  }

  /** The annotation that switches verification off, on the ingress or on the namespace. */
  predicate Disabled(annotations: Tags) {
    DisableVerification in annotations && ParsesTrue(annotations[DisableVerification])
  }

  /** verifyRequest: the signature for the page, and whether the request is verified. */
  function VerifyRequest(verifiedUnidling: bool, hmac: Hmac, secret: string, name: string,
                         namespace: Tags, ingress: Tags, header: string): (r: (string, bool))
  {
    if !verifiedUnidling || Disabled(ingress) || Disabled(namespace) then ("", true)
    else (Signer(hmac, name, secret), Verifies(hmac, name, header, secret))
  }

  /** The page handed out by an unverified request carries a signature that verifies the next one. */
  lemma CallbackVerifies(hmac: Hmac, secret: string, name: string, namespace: Tags, ingress: Tags,
                         first: string, page: string)
    requires VerifyRequest(true, hmac, secret, name, namespace, ingress, first) == (page, false)
    ensures VerifyRequest(true, hmac, secret, name, namespace, ingress, page).1
  {
    VerifierAcceptsSigned(hmac, name, secret, page);
  }

  /** A request is verified exactly when verification is off, or the ingress's or the namespace's annotation
      reads as true, or its header is the signature up to the case of its letters. An ingress annotation
      that does not read as true leaves the question to the namespace's. */
  lemma VerifiedIff(verifiedUnidling: bool, hmac: Hmac, secret: string, name: string, namespace: Tags, ingress: Tags,
                    header: string)
    ensures var truths := {"1", "t", "T", "TRUE", "true", "True"};
            var skipped := || !verifiedUnidling
                           || (DisableVerification in ingress && ingress[DisableVerification] in truths)
                           || (DisableVerification in namespace && namespace[DisableVerification] in truths);
            VerifyRequest(verifiedUnidling, hmac, secret, name, namespace, ingress, header)
            == if skipped then ("", true)
               else (Signer(hmac, name, secret), Lower(header) == Signer(hmac, name, secret))
  {
    VerifierAcceptsSigned(hmac, name, secret, header);
  }

  /** The encoding byte by byte: two digits each, the high one first. */
  lemma {:induction false} EncodedAt(bytes: seq<Byte>, i: nat)
    requires i < |bytes|
    ensures |EncodeToString(bytes)| == 2 * |bytes|
    ensures EncodeToString(bytes)[2 * i] == "0123456789abcdef"[bytes[i] / 16]
    ensures EncodeToString(bytes)[2 * i + 1] == "0123456789abcdef"[bytes[i] % 16]
  {
    DigitText(bytes[0] / 16);
    DigitText(bytes[0] % 16);
    if i > 0 {
      EncodedAt(bytes[1..], i - 1);
    } else if |bytes| > 1 {
      EncodedAt(bytes[1..], 0);
    }
  }

  lemma DigitText(n: nat)
    requires n < 16
    ensures HexDigit(n) == "0123456789abcdef"[n]
  {
  }
}
