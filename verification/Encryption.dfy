/** The `enc:v1:` field format: what `encryptField` writes, `decryptField` reads back. */
module Encryption {

  const ENC_PREFIX := "enc:v1:"

  // The cipher, with base64 already applied to its output; keys are per entity type.
  datatype Cipher = Cipher(
    enabled: bool,
    seal: (string, string, string) -> string,
    open: (string, string, string) -> string)

  // Decryption undoes encryption under the same key and nonce.
  ghost predicate Opens(c: Cipher) {
    forall kind, nonce, plain :: c.open(kind, nonce, c.seal(kind, nonce, plain)) == plain
  }

  predicate IsEncrypted(value: string) {
    ENC_PREFIX <= value
  }

  function EncryptField(c: Cipher, kind: string, nonce: string, plain: string): string {
    if !c.enabled then plain else ENC_PREFIX + nonce + ":" + c.seal(kind, nonce, plain)
  }

  function ColonIndex(s: string): (k: int)
    ensures k == -1 ==> ':' !in s
    ensures k != -1 ==> 0 <= k < |s| && s[k] == ':' && ':' !in s[..k]
  {
    if s == "" then -1
    else if s[0] == ':' then 0
    else
      var k := ColonIndex(s[1..]);
      if k == -1 then -1 else
        assert s[..k + 1] == [s[0]] + s[1..][..k];
        k + 1
  }

  function DecryptField(c: Cipher, kind: string, value: string): string {
    if !c.enabled || !(ENC_PREFIX <= value) then value
    else
      var rest := value[|ENC_PREFIX|..];
      var colon := ColonIndex(rest);
      if colon == -1 then value
      else c.open(kind, rest[..colon], rest[colon + 1..])
  }

  lemma {:induction false} ColonIndexFinds(head: string, tail: string)
    requires ':' !in head
    ensures ColonIndex(head + ":" + tail) == |head|
  {
    var s := head + ":" + tail;
    if head == "" {
      assert s[0] == ':';
    } else {
      ColonIndexFinds(head[1..], tail);
      assert s[0] == head[0] && s[1..] == head[1..] + ":" + tail;
    }
  }

  // Only a value that starts with `enc:v1:` and has a colon behind that is ever opened, and only
  // with encryption on; every other value is read as it stands.
  lemma {:induction false} OthersReadAsTheyStand(c: Cipher, kind: string, value: string)
    ensures IsEncrypted(value) <==> |value| >= 7 && value[..7] == "enc:v1:"
    ensures !c.enabled || |value| < 7 || value[..7] != "enc:v1:" || ':' !in value[7..] ==>
      DecryptField(c, kind, value) == value
  {
    if ENC_PREFIX <= value {
      assert value[..7] == ENC_PREFIX;
    }
  }

  // For every plaintext, including one that already looks encrypted.
  lemma {:induction false} DecryptUndoesEncrypt(c: Cipher, kind: string, nonce: string, plain: string)
    requires Opens(c) && ':' !in nonce
    ensures DecryptField(c, kind, EncryptField(c, kind, nonce, plain)) == plain
    ensures c.enabled ==>
      var value := EncryptField(c, kind, nonce, plain);
      IsEncrypted(value) && |value| >= 7 && value[..7] == "enc:v1:" && nonce + ":" <= value[7..]
    ensures !c.enabled ==> EncryptField(c, kind, nonce, plain) == plain
  {
    if c.enabled {
      var sealed := c.seal(kind, nonce, plain);
      var value := EncryptField(c, kind, nonce, plain);
      var rest := value[|ENC_PREFIX|..];
      assert rest == nonce + ":" + sealed;
      ColonIndexFinds(nonce, sealed);
      assert rest[..|nonce|] == nonce && rest[|nonce| + 1..] == sealed;
    }
  }
}
