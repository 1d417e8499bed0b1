/** Small shared vocabulary: an optional value, duplicate-free lists, the ASCII
    case mappings the engine relies on, and the cyclic player index. */
module Common {

  datatype Option<+T> = None | Some(value: T)

  /** No element of `s` occurs twice. */
  predicate NoDuplicates<T(==)>(s: seq<T>) {
    forall i, j :: 0 <= i < j < |s| ==> s[i] != s[j]
  }

  predicate IsLower(c: char) { 'a' <= c <= 'z' }

  predicate IsUpper(c: char) { 'A' <= c <= 'Z' }

  /** ASCII letters: the cased characters of this model. */
  predicate IsLetter(c: char) { IsLower(c) || IsUpper(c) }

  function UpperChar(c: char): char {
    if IsLower(c) then (c as int - 32) as char else c
  }

  function LowerChar(c: char): char {
    if IsUpper(c) then (c as int + 32) as char else c
  }

  /** Python's `str.upper()` restricted to ASCII letters. */
  function Upper(s: string): (r: string)
    ensures |r| == |s|
    ensures forall i :: 0 <= i < |s| ==> r[i] == UpperChar(s[i])
  {
    seq(|s|, i requires 0 <= i < |s| => UpperChar(s[i]))
  }

  /** Python's `str.lower()` restricted to ASCII letters. */
  function Lower(s: string): (r: string)
    ensures |r| == |s|
    ensures forall i :: 0 <= i < |s| ==> r[i] == LowerChar(s[i])
  {
    seq(|s|, i requires 0 <= i < |s| => LowerChar(s[i]))
  }

  /** A string is in upper case when no character is a lower-case letter. */
  predicate IsUpperCase(s: string) {
    forall i :: 0 <= i < |s| ==> !IsLower(s[i])
  }

  lemma UpperIsUpperCase(s: string)
    ensures IsUpperCase(Upper(s))
    ensures IsUpperCase(s) <==> Upper(s) == s
  {
    if !IsUpperCase(s) {
      var i :| 0 <= i < |s| && IsLower(s[i]);
      assert Upper(s)[i] != s[i];
    }
  }

  /** The player index after one `next_player`: `(i + 1) % n` for a non-empty team,
      unchanged for an empty one. */
  function NextIndex(i: int, n: nat): int {
    if n > 0 then (i + 1) % n else i
  }

  /** The player index after `k` turns of the same team. */
  function AdvanceBy(i: int, n: nat, k: nat): int {
    if k == 0 then i else NextIndex(AdvanceBy(i, n, k - 1), n)
  }

  lemma MulAtLeast(d: int, n: nat)
    requires d >= 1
    ensures d * n >= n
    decreases d
  {
    if d > 1 {
      MulAtLeast(d - 1, n);
      assert d * n == (d - 1) * n + n;
    }
  }

  /** Euclidean remainder is determined by any quotient/remainder split. */
  lemma ModUnique(a: int, q: int, r: int, n: nat)
    requires 0 <= r < n
    requires a == q * n + r
    ensures a % n == r
  {
    var q2, r2 := a / n, a % n;
    assert (q - q2) * n == r2 - r;
    if q > q2 {
      MulAtLeast(q - q2, n);
    } else if q < q2 {
      MulAtLeast(q2 - q, n);
    }
  }

  lemma ModSucc(a: int, n: nat)
    requires n > 0
    ensures (a % n + 1) % n == (a + 1) % n
  {
    var q, r := a / n, a % n;
    assert a == q * n + r;
    if r + 1 < n {
      ModUnique(r + 1, 0, r + 1, n);
      ModUnique(a + 1, q, r + 1, n);
    } else {
      ModUnique(r + 1, 1, 0, n);
      ModUnique(a + 1, q + 1, 0, n);
    }
  }

  /** Each team's player index cycles: after `k` turns it is `(i + k) % n`,
      so after `n` turns the same player is up again. */
  lemma {:induction false} AdvanceByCycles(i: nat, n: nat, k: nat)
    requires i < n
    ensures AdvanceBy(i, n, k) == (i + k) % n
    ensures k == n ==> AdvanceBy(i, n, k) == i
  {
    if k > 0 {
      AdvanceByCycles(i, n, k - 1);
      var prev := AdvanceBy(i, n, k - 1);
      assert AdvanceBy(i, n, k) == (prev + 1) % n;
      ModSucc(i + k - 1, n);
    }
    if k == n {
      ModUnique(i + n, 1, i, n);
    }
  }
}
