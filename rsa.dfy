/**
 * An abstraction of RSA keys and of the RSA signature primitives (PKCS #1 v1.5 and PSS,
 * sections 8.1 and 8.2 of RFC 8017). No key arithmetic is modelled: a scheme is any triple of
 * total functions. What the lemmas about tokens need of it is stated as predicates they take as
 * hypotheses: `Sound` holds of RSA itself; `Unique` holds of deterministic PKCS #1 v1.5 padding
 * only; `Binding` and `Unforgeable` are idealised assumptions (the hash is collision-free, keys
 * are honestly generated and secret), not facts about every RSA key.
 */
module Rsa {
  import opened Wrappers

  datatype Hash = SHA256 | SHA384 | SHA512

  datatype Padding = PKCS1v15 | PSS

  /** The parameters a JWS RSA algorithm fixes: the padding and the hash function. */
  datatype Params = Params(padding: Padding, hash: Hash)

  /** A parsed RSA private key, as an opaque handle. */
  datatype PrivateKey = PrivateKey(handle: nat)

  /** A parsed RSA public key, as an opaque handle. */
  datatype PublicKey = PublicKey(handle: nat)

  type Signature = seq<bv8>

  /**
   * A signature scheme over messages of type M: `pub` derives the public half of a private key,
   * `sign` may fail (for instance when the key is too short for the hash), `verify` is a verdict.
   */
  datatype Scheme<-M> = Scheme(
    pub: PrivateKey -> PublicKey,
    sign: (Params, PrivateKey, M) -> Option<Signature>,
    verify: (Params, PublicKey, M, Signature) -> bool)

  /** Every signature the scheme produces verifies under the matching public key. */
  ghost predicate Sound<M(!new)>(s: Scheme<M>) {
    forall p, k, m | s.sign(p, k, m).Some? :: s.verify(p, s.pub(k), m, s.sign(p, k, m).value)
  }

  /**
   * With PKCS #1 v1.5 padding, which is deterministic, the only signature that verifies under a key
   * pair's public half is the one the private half produces. (PSS is randomised, so it is excluded.)
   */
  ghost predicate Unique<M(!new)>(s: Scheme<M>) {
    forall p: Params, k, m, sig | p.padding == PKCS1v15 && s.verify(p, s.pub(k), m, sig) :: s.sign(p, k, m) == Some(sig)
  }

  /** One key never produces the same signature for two different messages (idealised collision resistance). */
  ghost predicate Binding<M(!new)>(s: Scheme<M>) {
    forall p, k, m1, m2 | s.sign(p, k, m1).Some? && s.sign(p, k, m1) == s.sign(p, k, m2) :: m1 == m2
  }

  /** A signature made with one private key does not verify under any public key but its own (idealised). */
  ghost predicate Unforgeable<M(!new)>(s: Scheme<M>) {
    forall p, k, q, m | q != s.pub(k) && s.sign(p, k, m).Some? :: !s.verify(p, q, m, s.sign(p, k, m).value)
  }
}
