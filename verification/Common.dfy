/** What every part of the model shares. */
module Common {

  datatype Option<+T> = None | Some(value: T)

  newtype byte = x: int | 0 <= x < 256

  type Bytes = seq<byte>

  lemma SubsetSize<T>(a: set<T>, b: set<T>)
    requires a <= b
    ensures |a| <= |b|
  {
    assert b == a + (b - a);
  }

  lemma OneMore(n: nat, each: nat)
    requires n > 0
    ensures n * each == (n - 1) * each + each
  {
  }

  /** How many characters base64 takes for `n` bytes. */
  function Base64Length(n: nat): nat { 4 * ((n + 2) / 3) }

  lemma Base64Monotone(a: nat, b: nat)
    requires a <= b
    ensures Base64Length(a) <= Base64Length(b)
  {
    var p, q := (a + 2) / 3, (b + 2) / 3;
    assert 3 * p <= a + 2 <= b + 2 < 3 * q + 3;
  }
}
