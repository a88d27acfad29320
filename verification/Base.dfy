/** Bytes, bounded integers, results, and big-endian fields shared by every format and table. */
module Base {

  type Byte = n: int | 0 <= n < 256
  type Bytes = seq<Byte>

  const U16_LIMIT: nat := 0x1_0000
  const U32_LIMIT: nat := 0x1_0000_0000
  const U64_LIMIT: nat := 0x1_0000_0000_0000_0000

  type U32 = n: int | 0 <= n < U32_LIMIT
  type U64 = n: int | 0 <= n < U64_LIMIT

  /** A 32-byte identifier: queue, message, principal, upload, blob or capability. */
  type Id = s: Bytes | |s| == 32 witness seq(32, _ => 0)
  /** A 16-byte response-correlation identifier. */
  type RequestId = s: Bytes | |s| == 16 witness seq(16, _ => 0)
  /** An 8-byte database cell holding a u64. */
  type Blob8 = s: Bytes | |s| == 8 witness seq(8, _ => 0)

  datatype Option<+T> = None | Some(value: T)

  datatype Result<+T, +E> = Success(value: T) | Failure(error: E) {
    predicate IsFailure() {
      Failure?
    }
    function PropagateFailure<U>(): Result<U, E>
      requires Failure?
    {
      Failure(error)
    }
    function Extract(): T
      requires Success?
    {
      value
    }
  }

  /** 256 to the power k. */
  function Pow256(k: nat): (p: nat)
    ensures p >= 1
  {
    if k == 0 then 1 else 256 * Pow256(k - 1)
  }

  /** The k-byte big-endian form of n. */
  function Be(n: nat, k: nat): (s: Bytes)
    requires n < Pow256(k)
    ensures |s| == k
  {
    if k == 0 then [] else Be(n / 256, k - 1) + [n % 256]
  }

  /** The value of a big-endian byte string. */
  function FromBe(s: Bytes): (n: nat)
    ensures n < Pow256(|s|)
  {
    if s == [] then 0 else 256 * FromBe(s[..|s| - 1]) + s[|s| - 1]
  }

  lemma {:induction false} FromBeOfBe(n: nat, k: nat)
    requires n < Pow256(k)
    ensures FromBe(Be(n, k)) == n
  {
    if k > 0 {
      FromBeOfBe(n / 256, k - 1);
      assert Be(n, k)[..k - 1] == Be(n / 256, k - 1);
    }
  }

  lemma {:induction false} BeOfFromBe(s: Bytes)
    ensures Be(FromBe(s), |s|) == s
  {
    if s != [] {
      var init, last := s[..|s| - 1], s[|s| - 1];
      BeOfFromBe(init);
      var n := FromBe(s);
      assert n == 256 * FromBe(init) + last;
      assert n / 256 == FromBe(init) && n % 256 == last;
      assert Be(n, |s|) == Be(n / 256, |s| - 1) + [n % 256];
      assert s == init + [last];
    }
  }

  /** How a byte-wise comparison orders two strings of one length: at the first difference. */
  predicate BytewiseLess(a: Bytes, b: Bytes)
    requires |a| == |b|
  {
    exists i :: 0 <= i < |a| && a[..i] == b[..i] && a[i] < b[i]
  }

  lemma FromBeInjective(a: Bytes, b: Bytes)
    requires |a| == |b| && FromBe(a) == FromBe(b)
    ensures a == b
  {
    BeOfFromBe(a);
    BeOfFromBe(b);
  }

  lemma BytewiseLessPrefix(a: Bytes, b: Bytes)
    requires |a| == |b| > 0
    ensures var n := |a| - 1;
            BytewiseLess(a, b) <==> BytewiseLess(a[..n], b[..n]) || (a[..n] == b[..n] && a[n] < b[n])
  {
    var n := |a| - 1;
    var a', b' := a[..n], b[..n];
    assert forall i :: 0 <= i <= n ==> a'[..i] == a[..i] && b'[..i] == b[..i];
  }

  /** Comparing big-endian cells byte by byte is comparing the numbers they hold. */
  lemma {:induction false} BytewiseLessIsNumeric(a: Bytes, b: Bytes)
    requires |a| == |b|
    ensures BytewiseLess(a, b) <==> FromBe(a) < FromBe(b)
    decreases |a|
  {
    if a != [] {
      hide BytewiseLess;
      var n := |a| - 1;
      BytewiseLessPrefix(a, b);
      BytewiseLessIsNumeric(a[..n], b[..n]);
      if FromBe(a[..n]) == FromBe(b[..n]) {
        FromBeInjective(a[..n], b[..n]);
      }
    }
  }

  lemma NumbersFit()
    ensures U64_LIMIT <= Pow256(16)
  {
    assert Pow256(8) == U64_LIMIT;
    assert Pow256(16) == 256 * (256 * (256 * (256 * (256 * (256 * (256 * (256 * Pow256(8))))))));
  }

  /** A request identifier for each number. */
  function Numbered(k: U64): (id: RequestId)
    ensures FromBe(id) == k
  {
    NumbersFit();
    FromBeOfBe(k, 16);
    Be(k, 16)
  }
}
