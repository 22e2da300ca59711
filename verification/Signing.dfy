/**
 * Signed roots (src/signing.rs). Ed25519 (section 5.1 of RFC 8032) is a parameter: `verify` takes
 * the key bytes, the message and the signature bytes, and is false for bytes that are no key.
 */
module Signing {
  import opened Text

  type Ed25519 = (string, string, string) -> bool

  datatype ServerSigner = ServerSigner(publicKey: string, sign: string -> string)

  // A signer whose signatures `verify` accepts under its own key.
  ghost predicate Honest(signer: ServerSigner, verify: Ed25519) {
    && |signer.publicKey| == 32 && IsBytes(signer.publicKey)
    && forall m :: var s := signer.sign(m); |s| == 64 && IsBytes(s) && verify(signer.publicKey, m, s)
  }

  function Message(chainId: string, root: string, chainHead: string): string {
    chainId + ":" + root + ":" + chainHead
  }

  // sign_root; the signature is printed in hexadecimal.
  function SignRoot(signer: ServerSigner, chainId: string, root: string, chainHead: string): (s: string)
    requires IsBytes(signer.sign(Message(chainId, root, chainHead)))
  {
    HexEncode(signer.sign(Message(chainId, root, chainHead)))
  }

  function VerifyRoot(verify: Ed25519, chainId: string, root: string, chainHead: string,
                      signatureHex: string, publicKeyHex: string): bool
  {
    match (HexDecode(signatureHex), HexDecode(publicKeyHex))
    case (Some(sig), Some(key)) =>
      |sig| == 64 && |key| == 32 && verify(key, Message(chainId, root, chainHead), sig)
    case _ => false
  }

  datatype SignatureCheck =
    | Valid
    | UntrustedSignerIdentity(pinnedKey: string, proofKey: string)
    | SignatureInvalid(serverIdentity: string)

  function NormalizeKey(key: string): string {
    AsciiLower(Trim(key))
  }

  // Only the pinned key is ever used to verify; the key inside the proof is compared with it.
  function ClassifySignature(verify: Ed25519, proofKey: string, pinnedKey: string, chainId: string,
                             root: string, chainHead: string, signature: string): SignatureCheck
  {
    var proof, pinned := NormalizeKey(proofKey), NormalizeKey(pinnedKey);
    if proof != pinned then UntrustedSignerIdentity(pinned, proof)
    else if VerifyRoot(verify, chainId, root, chainHead, signature, pinned) then Valid
    else SignatureInvalid(pinned)
  }

  // A message made from colon-free fields is made from no other fields, colon-free or not.
  lemma MessageBindsFields(a: string, b: string, c: string, x: string, y: string, z: string)
    requires Message(a, b, c) == Message(x, y, z)
    requires ':' !in x && ':' !in y && ':' !in z
    ensures a == x && b == y && c == z
  {
    var m := Message(x, y, z);
    var p, q := |x|, |x| + 1 + |y|;
    forall i | 0 <= i < |m| && i != p && i != q ensures m[i] != ':' {
      var c := if i < p then x[i] else if i < q then y[i - p - 1] else z[i - q - 1];
      assert m[i] == c;
    }
    MessageCut(a, b, c);
    MessageCut(x, y, z);
  }

  lemma MessageCut(a: string, b: string, c: string)
    ensures var m, p, q := Message(a, b, c), |a|, |a| + 1 + |b|;
      && q < |m| && m[p] == ':' && m[q] == ':'
      && m[..p] == a && m[p + 1..q] == b && m[q + 1..] == c
  {
  }

  // A key printed by the server survives the trimming and lower-casing of both sides.
  lemma PrintedKeyIsNormal(key: string)
    requires IsBytes(key)
    ensures NormalizeKey(HexEncode(key)) == HexEncode(key)
    ensures NormalizeKey(HexEncode(key) + "\n") == HexEncode(key)
  {
    HexIsLower(key);
    TrimGraphic(HexEncode(key));
  }

  lemma SignedRootVerifies(signer: ServerSigner, verify: Ed25519, chainId: string, root: string, chainHead: string)
    requires Honest(signer, verify)
    ensures var m := Message(chainId, root, chainHead);
      && IsBytes(signer.sign(m))
      && VerifyRoot(verify, chainId, root, chainHead, HexEncode(signer.sign(m)), HexEncode(signer.publicKey))
  {
    var s := signer.sign(Message(chainId, root, chainHead));
    assert |s| == 64 && IsBytes(s);
    HexRoundTrip(s);
    HexRoundTrip(signer.publicKey);
  }
}
