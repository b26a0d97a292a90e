/** Types shared by every component. */
module Common {

  datatype Option<+T> = None | Some(value: T)

  datatype Result<+T, +E> = Ok(value: T) | Err(error: E)

  type Byte = b: int | 0 <= b < 0x100

  function Min(a: nat, b: nat): nat {
    if a < b then a else b
  }

  function SaturatingSub(a: nat, b: nat): nat {
    if a < b then 0 else a - b
  }
}

/** Bounds that add up over a loop, kept apart from multiplication until the end. */
module Counting {
  // `n` steps of at most `step`.
  function Total(n: nat, step: nat): nat {
    if n == 0 then 0 else Total(n - 1, step) + step
  }

  lemma {:induction false} TotalGrows(k: nat, n: nat, step: nat)
    requires k <= n
    ensures Total(k, step) <= Total(n, step)
    decreases n - k
  {
    if k < n {
      TotalGrows(k + 1, n, step);
    }
  }

  lemma {:induction false} TotalIsProduct(n: nat, step: nat)
    ensures Total(n, step) == n * step
    decreases n
  {
    if n > 0 {
      TotalIsProduct(n - 1, step);
      assert (n - 1) * step + step == n * step;
    }
  }
}
