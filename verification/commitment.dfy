/** The commit-reveal binding: the 16-byte preimage `LE8(max_score) ++ LE8(salt)` and the hash
    that the creator publishes at setup and must reproduce at settle. */
module Commitment {
  import opened Wrappers
  import opened Types
  import opened LittleEndian

  /** A 32-byte Keccak-256 digest. */
  type Digest = d: seq<u8> | |d| == 32 witness seq(32, i => 0)

  /** The hash primitive. Keccak-256 is not modelled: any function of this type may stand for it,
      and nothing below assumes it is injective or collision resistant. */
  type Hasher = seq<u8> -> Digest

  /** The bytes hashed for a commitment: max_score then salt, each as 8 little-endian bytes. */
  function Preimage(maxScore: u64, salt: u64): (p: seq<u8>)
    ensures |p| == 16
    ensures p[..8] == LE8(maxScore) && p[8..] == LE8(salt)
  {
    LE8(maxScore) + LE8(salt)
  }

  /** Reads (max_score, salt) back out of a 16-byte preimage; any other length is not a preimage. */
  function DecodePreimage(p: seq<u8>): (r: Option<(u64, u64)>)
    ensures r.Some? <==> |p| == 16
  {
    if |p| != 16 then None else Some((DecodeLE8(p[..8]), DecodeLE8(p[8..])))
  }

  /** The preimage encoding is invertible. */
  lemma PreimageRoundTrip(maxScore: u64, salt: u64)
    ensures DecodePreimage(Preimage(maxScore, salt)) == Some((maxScore, salt))
  {
    LE8RoundTrip(maxScore);
    LE8RoundTrip(salt);
  }

  /** Hence two different reveals never produce the same bytes to hash. */
  lemma PreimageInjective(m1: u64, s1: u64, m2: u64, s2: u64)
    ensures Preimage(m1, s1) == Preimage(m2, s2) <==> m1 == m2 && s1 == s2
  {
    PreimageRoundTrip(m1, s1);
    PreimageRoundTrip(m2, s2);
  }

  /** The commitment the off-chain client computes before setup. */
  function Commit(h: Hasher, maxScore: u64, salt: u64): Digest
  {
    h(Preimage(maxScore, salt))
  }

  /** The preimage is the only 16-byte string that decodes to its reveal. */
  lemma PreimageUnique(maxScore: u64, salt: u64)
    ensures forall p :: DecodePreimage(p) == Some((maxScore, salt)) ==> p == Preimage(maxScore, salt)
  {
    forall p | DecodePreimage(p) == Some((maxScore, salt))
      ensures p == Preimage(maxScore, salt)
    {
      LE8Surjective(p[..8]);
      LE8Surjective(p[8..]);
      assert p == p[..8] + p[8..];
    }
  }

  /** The reveal (max_score, salt) opens the commitment under h: every byte string that reads back
      as this reveal hashes to the commitment. */
  predicate Opens(h: Hasher, commitment: Digest, maxScore: u64, salt: u64): (b: bool)
    ensures b <==> forall p :: DecodePreimage(p) == Some((maxScore, salt)) ==> h(p) == commitment
  {
    PreimageRoundTrip(maxScore, salt);
    PreimageUnique(maxScore, salt);
    h(Preimage(maxScore, salt)) == commitment
  }
}
