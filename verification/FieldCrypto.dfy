/** Encryption of single columns (`crypto/mod.rs`). The cipher itself is a parameter: sealing takes the
    random nonce as an argument, opening fails on anything that was not sealed with the same data. */
module FieldCrypto {
  import opened Prelude

  const FIELD_PREFIX: string := "enc:v1:"

  datatype Cipher = Cipher(seal: (string, string, nat) -> string, open: (string, string) -> Option<string>)

  ghost predicate Opens(c: Cipher) {
    forall plain, aad, nonce: nat :: c.open(c.seal(plain, aad, nonce), aad) == Some(plain)
  }

  predicate IsEncoded(s: string) {
    FIELD_PREFIX <= s
  }

  function EncodeField(c: Cipher, plain: string, aad: string, nonce: nat): string {
    FIELD_PREFIX + c.seal(plain, aad, nonce)
  }

  /** `decode_field`; text without the prefix is legacy plaintext. */
  function DecodeField(c: Cipher, s: string, aad: string): Option<string> {
    if IsEncoded(s) then c.open(s[|FIELD_PREFIX|..], aad) else Some(s)
  }

  /** What a reader of the table is shown: a field that cannot be opened is shown as stored. */
  function Shown(c: Cipher, s: string, aad: string): string {
    DecodeField(c, s, aad).GetOr(s)
  }

  lemma EncodedReadsBack(c: Cipher, plain: string, aad: string, nonce: nat)
    requires Opens(c)
    ensures IsEncoded(EncodeField(c, plain, aad, nonce))
    ensures "enc:v1:" <= EncodeField(c, plain, aad, nonce)
    ensures DecodeField(c, EncodeField(c, plain, aad, nonce), aad) == Some(plain)
  {
    var s := EncodeField(c, plain, aad, nonce);
    assert s[|FIELD_PREFIX|..] == c.seal(plain, aad, nonce);
  }

  /** Text without that mark is shown as it stands. */
  lemma PlainTextReadsAsItself(c: Cipher, s: string, aad: string)
    requires !("enc:v1:" <= s)
    ensures DecodeField(c, s, aad) == Some(s) && Shown(c, s, aad) == s
  {
  }
}
