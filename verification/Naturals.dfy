/** What two paging loops share. */
module Naturals {
  function Least(a: nat, b: nat): nat {
    if a <= b then a else b
  }
}
