/** Small shared vocabulary: an optional value and integer sums. */
module Common {

  datatype Option<+T> = None | Some(value: T)

  function Sum(s: seq<int>): int
  {
    if s == [] then 0 else s[0] + Sum(s[1..])
  }

  /** Adding `n` at one position of a sequence adds `n` to its sum. */
  lemma {:induction false} SumBump(s: seq<int>, i: int, n: int)
    requires 0 <= i < |s|
    ensures Sum(s[i := s[i] + n]) == Sum(s) + n
  {
    if i > 0 {
      SumBump(s[1..], i - 1, n);
      assert s[i := s[i] + n][1..] == s[1..][i - 1 := s[1..][i - 1] + n];
    }
  }

  /** Sum over a concatenation. */
  lemma {:induction false} SumConcat(a: seq<int>, b: seq<int>)
    ensures Sum(a + b) == Sum(a) + Sum(b)
  {
    if a != [] {
      assert (a + b)[1..] == a[1..] + b;
      SumConcat(a[1..], b);
    } else {
      assert a + b == b;
    }
  }

  /** A non-empty sequence is its front followed by its last element. */
  lemma SplitLast<T>(s: seq<T>)
    requires s != []
    ensures s == s[..|s| - 1] + [s[|s| - 1]]
  {
  }

  function Max(a: int, b: int): int { if a >= b then a else b }
  function Min(a: int, b: int): int { if a <= b then a else b }
}
