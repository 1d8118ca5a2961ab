/** Small vocabulary shared by every component of the model. */
module Common {

  datatype Option<+T> = None | Some(value: T)

  /** The number of values of a Go uint64; its largest value is one less. */
  const TWO_64 := 0x1_0000_0000_0000_0000

  const MAX_UINT64 := TWO_64 - 1

  type uint64 = x: int | 0 <= x < TWO_64

  lemma MulSign(d: int, n: int)
    requires n > 0
    ensures d >= 1 ==> d * n >= n
    ensures d <= -1 ==> d * n <= -n
  {
    if d >= 1 {
      assert (d - 1) * n >= 0;
    } else if d <= -1 {
      assert (-d - 1) * n >= 0;
    }
  }

  type Address = string

  /** utility/unit_of_work/block.go: the state hash that switches the proposal check off. */
  const IGNORE_HASH := "0100000000000000000000000000000000000000000000000000000000000010"

  predicate NoSlash(s: string) {
    forall i :: 0 <= i < |s| ==> s[i] != '/'
  }

  /** A transaction as it travels: its encoded bytes. */
  type Raw = string

  /** The bytes of all transactions of a list. */
  function Size(txs: seq<Raw>): nat {
    if txs == [] then 0 else |txs[0]| + Size(txs[1..])
  }
}
