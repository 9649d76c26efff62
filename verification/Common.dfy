/** Constants of the kernel that several parts share, and a little arithmetic. */
module Common {
  const NCPU := 4
  const PAGE_SIZE := 4096
  const OP_MAX_NUM_BLOCKS := 10        // distinct blocks that one operation may log
  const FILE_NAME_MAX_LENGTH := 14     // with the trailing NUL

  function Min(a: int, b: int): (m: int)
    ensures m <= a && m <= b && (m == a || m == b)
  {
    if a < b then a else b
  }

  function Max(a: int, b: int): (m: int)
    ensures m >= a && m >= b && (m == a || m == b)
  {
    if a > b then a else b
  }

  function Pow2(k: nat): (m: nat)
    ensures m >= 1
  {
    if k == 0 then 1 else 2 * Pow2(k - 1)
  }

  lemma {:induction false} Pow2Less(k: nat, n: nat)
    requires k < n
    ensures Pow2(k) < Pow2(n)
    decreases n
  {
    if k < n - 1 { Pow2Less(k, n - 1); }
  }
}
