/** Lexicographic comparison of equally long integer strings, with the results
    -1, 0 and 1. `memcmp` on clock identities is the instance on unsigned bytes. */
module LexOrder {

  function Sign(a: int, b: int): int {
    if a < b then -1 else if a > b then 1 else 0
  }

  function LexCompare(a: seq<int>, b: seq<int>): (r: int)
    requires |a| == |b|
    ensures -1 <= r <= 1
  {
    if a == [] then 0
    else if a[0] != b[0] then Sign(a[0], b[0])
    else LexCompare(a[1..], b[1..])
  }

  /** Zero means equal, and swapping the arguments flips the sign. */
  lemma {:induction false} LexAntisymmetric(a: seq<int>, b: seq<int>)
    requires |a| == |b|
    ensures LexCompare(a, b) == -LexCompare(b, a)
    ensures LexCompare(a, b) == 0 <==> a == b
  {
    if a != [] && a[0] == b[0] {
      LexAntisymmetric(a[1..], b[1..]);
      assert a == [a[0]] + a[1..] && b == [b[0]] + b[1..];
    }
  }

  lemma {:induction false} LexTransitive(a: seq<int>, b: seq<int>, c: seq<int>)
    requires |a| == |b| == |c|
    requires LexCompare(a, b) <= 0 && LexCompare(b, c) <= 0
    ensures LexCompare(a, c) <= 0
    ensures LexCompare(a, b) < 0 || LexCompare(b, c) < 0 ==> LexCompare(a, c) < 0
  {
    if a != [] && a[0] == b[0] == c[0] {
      LexTransitive(a[1..], b[1..], c[1..]);
    }
  }

  /** The leading parts decide; the trailing parts only break a tie. */
  lemma {:induction false} LexConcat(a: seq<int>, b: seq<int>, c: seq<int>, d: seq<int>)
    requires |a| == |b| && |c| == |d|
    ensures LexCompare(a + c, b + d) ==
            if LexCompare(a, b) != 0 then LexCompare(a, b) else LexCompare(c, d)
  {
    if a == [] {
      assert a + c == c && b + d == d;
    } else {
      assert (a + c)[1..] == a[1..] + c && (b + d)[1..] == b[1..] + d;
      LexConcat(a[1..], b[1..], c, d);
    }
  }
}
