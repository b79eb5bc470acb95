/** The sealing of internal/crypto/seal.go over ideal primitives: a box or secretbox is the thing it
    encloses together with the key that opens it, and opens for no other. */
module Crypto {
  import opened Common

  type Bytes = seq<nat>

  /** A vault key; keys are told apart by a number. */
  type VaultKey = nat

  /** A device's X25519 public key, standing for its pair. */
  type BoxKey = nat

  /** What a client stores as an encrypted key: a sealed box, or bytes that are none. */
  datatype Sealed = SealedBox(to: BoxKey, key: VaultKey) | NotABox(raw: Bytes)

  /** What a client stores as a ciphertext: nonce and secretbox, or bytes that are none. */
  datatype Blob = SecretBox(key: VaultKey, nonce: nat, plain: Bytes) | NotASecretBox(raw: Bytes)

  const NONCE_BYTES := 24
  const BOX_OVERHEAD := 16

  function SealVaultKey(k: VaultKey, recipient: BoxKey): Sealed {
    SealedBox(recipient, k)
  }

  function OpenVaultKey(sealed: Sealed, box: BoxKey): Option<VaultKey> {
    if sealed.SealedBox? && sealed.to == box then Some(sealed.key) else None
  }

  function EncryptBlob(k: VaultKey, nonce: nat, plain: Bytes): Blob {
    SecretBox(k, nonce, plain)
  }

  function DecryptBlob(k: VaultKey, blob: Blob): Option<Bytes> {
    if blob.SecretBox? && blob.key == k then Some(blob.plain) else None
  }

  /** What a ciphertext encloses, for whoever has its key. */
  function Enclosed(blob: Blob): Option<Bytes> {
    if blob.SecretBox? then Some(blob.plain) else None
  }

  /** The length of a ciphertext in bytes. */
  function Size(blob: Blob): nat {
    if blob.SecretBox? then NONCE_BYTES + BOX_OVERHEAD + |blob.plain| else |blob.raw|
  }
}
