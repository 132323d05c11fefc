/** Strings, byte by byte. */
module Strings {

  /** The first differing character decides, then the length. */
  function CompareString(a: string, b: string): int {
    if a == [] && b == [] then 0
    else if a == [] then -1
    else if b == [] then 1
    else if a[0] < b[0] then -1
    else if a[0] > b[0] then 1
    else CompareString(a[1..], b[1..])
  }

  lemma {:induction false} SameString(a: string, b: string)
    ensures CompareString(a, b) == 0 <==> a == b
  {
    if a != [] && b != [] {
      SameString(a[1..], b[1..]);
      assert a == [a[0]] + a[1..] && b == [b[0]] + b[1..];
    }
  }
}
