/** poly1305aes_53_authenticate.c: the tag of a message under the key kr = (k, r) and the nonce n. */
module Poly1305Aes {
  import opened Bits
  import Fips197
  import Aes
  import Poly1305Spec
  import Poly1305

  method Authenticate(constants: seq<nat>, kr: seq<Byte>, n: seq<Byte>, m: seq<Byte>, ghost S: Fips197.SBox)
      returns (out: seq<Byte>)
    requires |kr| == 32 && |n| == 16 && Aes.TableFor(constants, S) && Poly1305.ClampedKey(kr[16..])
    ensures |out| == 16
    ensures exists s: seq<Byte> ::
      && |s| == 16 && Fips197.Load(s) == Fips197.Cipher(S, Fips197.Load(kr[..16]), Fips197.Load(n))
      && Poly1305Spec.LeNum(out) == Poly1305Spec.Tag(Poly1305Spec.LeNum(kr[16..]), Poly1305Spec.LeNum(s), m)
  {
    var aeskn := Aes.AesBig(constants, kr[..16], n, S);
    out := Poly1305.Poly1305_53(kr[16..], aeskn, m);
  }
}
