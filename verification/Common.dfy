/** Machine-integer ranges and the types shared by several components. */
module Common {
  datatype Option<+T> = None | Some(value: T)

  type u8 = x: int | 0 <= x < 0x100
  type u16 = x: int | 0 <= x < 0x1_0000
  type u32 = x: int | 0 <= x < 0x1_0000_0000

  // A std::chrono::steady_clock time point: a signed 64-bit count of nanoseconds.
  const TIME_MIN: int := -0x8000_0000_0000_0000
  const TIME_MAX: int := 0x7FFF_FFFF_FFFF_FFFF
  type TimePoint = x: int | TIME_MIN <= x <= TIME_MAX

  datatype Topic = Topic(name: string)  // of the MQTT protocol

  const MS: int := 1_000_000  // nanoseconds in a millisecond

  function RemoveAt<T>(s: seq<T>, k: nat): (r: seq<T>)
    requires k < |s|
  {
    s[..k] + s[k + 1..]
  }

  // Removing one element takes exactly that occurrence out of the collection.
  lemma RemoveAtMultiset<T>(s: seq<T>, k: nat)
    requires k < |s|
    ensures multiset(RemoveAt(s, k)) + multiset{s[k]} == multiset(s)
  {
    assert s == s[..k] + [s[k]] + s[k + 1..];
  }

  // ---------------------------------------------------------------------------------------
  // Multiples of a positive step

  lemma {:induction false} ProductStep(i: int, j: int, d: int)
    requires i < j && d > 0
    ensures i * d + d <= j * d
    decreases j - i
  {
    assert j * d == (j - 1) * d + d;
    if i < j - 1 {
      ProductStep(i, j - 1, d);
    }
  }

  lemma QuotientAtLeast(k: int, x: int, d: int)
    requires d > 0 && k * d <= x
    ensures k <= x / d
  {
    var q := x / d;
    assert x < q * d + d;
    if q < k {
      ProductStep(q, k, d);
    }
  }
}
