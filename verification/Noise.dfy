/** The established secure channel as a pair of nonce counters (internal/adapters/crypto/noise/noise.go). */
module Noise {
  import opened Prelude

  /** The nonce value reserved by section 5.1 of the Noise Protocol Framework, revision 34. */
  const RESERVED_NONCE := 0xFFFF_FFFF_FFFF_FFFF

  /** A sealed record opens only under the nonce it was sealed with. */
  datatype Sealed = Sealed(nonce: nat, plain: Bytes)

  class Channel {
    var sendNonce: nat
    var recvNonce: nat

    constructor ()
      ensures sendNonce == 0 && recvNonce == 0
    {
      sendNonce, recvNonce := 0, 0;
    }

    method Seal(plaintext: Bytes) returns (r: Result<Sealed>)
      modifies this`sendNonce
      ensures r.Err? <==> old(sendNonce) == 0xFFFF_FFFF_FFFF_FFFF
      ensures r.Ok? ==> r.value == Sealed(old(sendNonce), plaintext) && sendNonce == old(sendNonce) + 1
      ensures r.Err? ==> sendNonce == old(sendNonce)
    {
      if sendNonce == RESERVED_NONCE {
        return Err("noise: nonce exhausted");
      }
      r := Ok(Sealed(sendNonce, plaintext));
      sendNonce := sendNonce + 1;
    }

    method Open(ciphertext: Sealed) returns (r: Result<Bytes>)
      modifies this`recvNonce
      ensures r.Ok? <==> ciphertext.nonce == old(recvNonce) != 0xFFFF_FFFF_FFFF_FFFF
      ensures r.Ok? ==> r.value == ciphertext.plain && recvNonce == old(recvNonce) + 1
      ensures r.Err? ==> recvNonce == old(recvNonce) && r.error == "ws: decrypt"
    {
      if ciphertext.nonce != recvNonce || recvNonce == RESERVED_NONCE {
        return Err("ws: decrypt");
      }
      r := Ok(ciphertext.plain);
      recvNonce := recvNonce + 1;
    }
  }
}
