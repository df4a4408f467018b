/** The algorithms an IKE or ESP suite is made of (src/ipsec/config.rs). */
module IkeSuite {
  import opened Wire

  datatype Encryption = AesCbc128 | AesCbc192 | AesCbc256 | AesGcm128 | AesGcm256
  datatype Prf = PrfSha1 | PrfSha256
  datatype Integrity = NoIntegrity | Sha1_96 | Sha256_128
  datatype Dh = NoDh | Modp2048 | Ecp256 | Ecp384 | X25519

  function EncryptionId(e: Encryption): (id: u16) { if IsAead(e) then 20 else 12 }

  function KeyLen(e: Encryption): (n: nat) {
    match e case AesCbc128 => 16 case AesGcm128 => 16 case AesCbc192 => 24 case AesCbc256 => 32 case AesGcm256 => 32
  }

  function KeyBits(e: Encryption): (n: u16) { 8 * KeyLen(e) }

  predicate IsAead(e: Encryption) { e.AesGcm128? || e.AesGcm256? }

  function IvLen(e: Encryption): (n: nat) { if IsAead(e) then 8 else 16 }

  function SaltLen(e: Encryption): (n: nat) { if IsAead(e) then 4 else 0 }

  const BLOCK_LEN: nat := 16

  function PrfId(p: Prf): (id: u16) { match p case PrfSha1 => 2 case PrfSha256 => 5 }

  function PrfLen(p: Prf): (n: nat) { match p case PrfSha1 => 20 case PrfSha256 => 32 }

  function IntegrityId(i: Integrity): (id: u16) { match i case NoIntegrity => 0 case Sha1_96 => 2 case Sha256_128 => 12 }

  function IcvLen(i: Integrity): (n: nat) { match i case NoIntegrity => 0 case Sha1_96 => 12 case Sha256_128 => 16 }

  function IntegrityKeyLen(i: Integrity): (n: nat) {
    match i case NoIntegrity => 0 case Sha1_96 => 20 case Sha256_128 => 32
  }

  function DhId(d: Dh): (id: u16) {
    match d case NoDh => 0 case Modp2048 => 14 case Ecp256 => 19 case Ecp384 => 20 case X25519 => 31
  }

  /** Key and salt together, as cut from the key material. */
  function CipherKeyLen(e: Encryption): (n: nat) { KeyLen(e) + SaltLen(e) }
}
