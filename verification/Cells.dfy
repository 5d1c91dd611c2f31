/** Memory as the programs of this system see it: every scalar lives in the cell
    at its base address, and a cell nobody has written reads as zero, which is
    what a fresh page holds. */
module Cells {
  type Mem = map<nat, nat>

  function Rd(m: Mem, a: nat): nat {
    if a in m then m[a] else 0
  }
}
