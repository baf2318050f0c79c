/** SHA-256 texts and the hash chains built from them.

    A digest is the lower-case hexadecimal text the Python code compares. A hash
    function is a parameter of everything that uses one, and no module assumes it
    to be injective: where the programs rely on collision resistance, the theorem
    concludes "the files are equal, or here are two different files with one
    digest". */
module HashChain {

  predicate IsHexDigit(c: char) {
    '0' <= c <= '9' || 'a' <= c <= 'f'
  }

  predicate IsHex(text: string, length: nat) {
    |text| == length && forall i :: 0 <= i < length ==> IsHexDigit(text[i])
  }

  /** A digest or identifier as the files carry it: any text. */
  datatype Token = Token(text: string)

  /** `[0-9a-f]{64}` */
  predicate IsSha256(token: Token) {
    IsHex(token.text, 64)
  }

  /** The predecessor digest that the first record of every chain names. */
  const ZERO_HASH: Token := Token(seq(64, _ => '0'))

  ghost predicate ProducesSha256<F(!new)>(hash: F -> Token) {
    forall f :: IsSha256(hash(f))
  }

  ghost predicate Collide<F>(hash: F -> Token, a: F, b: F) {
    a != b && hash(a) == hash(b)
  }

  /** Two files under the same path of two directories share a digest but differ. */
  ghost predicate CollisionAtPath<P, F>(hash: F -> Token, a: map<P, F>, b: map<P, F>) {
    exists p :: p in a && p in b && Collide(hash, a[p], b[p])
  }

  /** Two files at the same position of two chains share a digest but differ. */
  ghost predicate CollisionBetween<F>(hash: F -> Token, a: seq<F>, b: seq<F>) {
    exists i :: 0 <= i < |a| && i < |b| && Collide(hash, a[i], b[i])
  }

  /** What the record at position i must name as its predecessor: the digest of
      the record before it. */
  function LinkAt<F>(hash: F -> Token, chain: seq<F>, i: nat): Token
    requires i <= |chain|
  {
    if i == 0 then ZERO_HASH else hash(chain[i - 1])
  }

  /** The digest of the last record. */
  function HeadHash<F>(hash: F -> Token, chain: seq<F>): Token {
    LinkAt(hash, chain, |chain|)
  }

  /** Every file names the digest of the file before it. */
  ghost predicate Linked<F>(hash: F -> Token, previous: F -> Token, chain: seq<F>) {
    forall i :: 0 <= i < |chain| ==> previous(chain[i]) == LinkAt(hash, chain, i)
  }

  /** Backward induction along the links: two linked chains whose k-th files have
      the same digest agree on all of the first k files, or exhibit a collision. */
  lemma {:induction false} SameDigestSamePrefix<F>(
    hash: F -> Token, previous: F -> Token, a: seq<F>, b: seq<F>, k: nat)
    requires Linked(hash, previous, a) && Linked(hash, previous, b)
    requires 0 < k <= |a| && k <= |b|
    requires hash(a[k - 1]) == hash(b[k - 1])
    ensures CollisionBetween(hash, a, b) || forall i :: 0 <= i < k ==> a[i] == b[i]
  {
    if a[k - 1] != b[k - 1] {
      assert Collide(hash, a[k - 1], b[k - 1]);
    } else if k > 1 {
      assert previous(a[k - 1]) == hash(a[k - 2]) && previous(b[k - 1]) == hash(b[k - 2]);
      SameDigestSamePrefix(hash, previous, a, b, k - 1);
    }
  }
}
