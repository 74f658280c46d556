/** Arithmetic that several components share. */
module Numbers {
  function Max(a: nat, b: nat): nat {
    if a < b then b else a
  }

  /** The next multiple of `to` from `n` on: `RALIGN` and `ALIGN`. */
  function Align(n: nat, to: nat): nat
    requires to > 0
  {
    if n % to == 0 then n else n - n % to + to
  }

  predicate AllDigits(s: string) {
    forall i :: 0 <= i < |s| ==> '0' <= s[i] <= '9'
  }

  /** The number that decimal digits stand for. */
  function DecimalValue(s: string): nat
    requires AllDigits(s)
  {
    if s == "" then 0 else 10 * DecimalValue(s[..|s| - 1]) + (s[|s| - 1] as int - 48)
  }

  /** The least multiple of four, and of eight, from a number on. */
  lemma AlignIsLeast(n: nat)
    ensures Align(n, 4) % 4 == 0 && n <= Align(n, 4) < n + 4
    ensures Align(n, 8) % 8 == 0 && n <= Align(n, 8) < n + 8
  {
  }
}
