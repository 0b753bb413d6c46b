// A truth value as a number, for sums over conditions.
module Counting {
  function Bit(b: bool): nat { if b then 1 else 0 }
}
