/** Lists of numbers. */
module Sequences {
  /** The list with the first x taken out. */
  function Without(s: seq<nat>, x: nat): seq<nat> {
    if |s| == 0 then [] else if s[0] == x then s[1..] else [s[0]] + Without(s[1..], x)
  }
}
