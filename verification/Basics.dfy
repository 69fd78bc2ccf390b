/** Types shared by every module of the model. */
module Basics {

  datatype Option<+T> = None | Some(value: T)

  datatype Result<+T, +E> = Ok(value: T) | Err(error: E)

  /** No element occurs twice. */
  predicate Distinct<T(==)>(s: seq<T>) {
    forall i, j :: 0 <= i < j < |s| ==> s[i] != s[j]
  }

  function ToSet<T(==)>(s: seq<T>): set<T> {
    set x | x in s
  }

  /** Appending keeps a sequence free of repetitions exactly when the element is new. */
  lemma DistinctSnoc<T>(s: seq<T>, x: T)
    ensures Distinct(s + [x]) <==> Distinct(s) && x !in s
    ensures ToSet(s + [x]) == ToSet(s) + {x}
  {
    var t := s + [x];
    if Distinct(t) {
      forall i, j | 0 <= i < j < |s| ensures s[i] != s[j] {
        assert t[i] == s[i] && t[j] == s[j];
      }
      assert t[|s|] == x;
      assert forall i :: 0 <= i < |s| ==> t[i] == s[i] && t[i] != t[|s|];
    }
  }

  function Min(a: int, b: int): int {
    if a <= b then a else b
  }

  function Max(a: int, b: int): int {
    if a <= b then b else a
  }

  function Pow2(n: nat): nat {
    if n == 0 then 1 else 2 * Pow2(n - 1)
  }

  lemma {:induction false} PowersGrow(i: nat, j: nat)
    requires i <= j
    ensures 1 <= Pow2(i) <= Pow2(j)
    decreases j
  {
    if i < j {
      PowersGrow(i, j - 1);
    } else if i > 0 {
      PowersGrow(i - 1, j - 1);
    }
  }

  /** A quarter second doubled seven times is beyond half a minute. */
  lemma SevenDoublings(n: nat)
    ensures Min(30000, 250 * Pow2(Min(n, 7))) == Min(30000, 250 * Pow2(n))
  {
    assert Pow2(7) == 128;
    if n > 7 {
      PowersGrow(7, n);
    }
  }

  /** Counting on by one in steps of five. */
  lemma NextFifth(m: nat)
    ensures (m + 1) / 5 == m / 5 + (if m % 5 == 4 then 1 else 0)
    ensures (m + 1) % 5 == if m % 5 == 4 then 0 else m % 5 + 1
  {
  }
}
