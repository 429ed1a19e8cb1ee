/** Whole numbers as text. */
module Numerals {
  import opened Options

  predicate Number(p: string) { p != "" && forall c | c in p :: '0' <= c <= '9' }

  function Value(p: string): int {
    if p == "" then 0 else 10 * Value(p[..|p| - 1]) + (p[|p| - 1] as int - '0' as int)
  }

  const MAX_INT := 0x7FFF_FFFF_FFFF_FFFF

  /** strconv.Atoi: digits after at most one sign, in the range of Go's int. */
  function Atoi(p: string): Option<int> {
    var digits := if p != "" && p[0] in "+-" then p[1..] else p;
    if !Number(digits) then None
    else
      var v := if p[0] == '-' then -Value(digits) else Value(digits);
      if -MAX_INT - 1 <= v <= MAX_INT then Some(v) else None
  }

  /** A count in decimal, in at least some number of digits. */
  function Decimal(v: nat, width: nat): (p: string)
    ensures Number(p) && Value(p) == v
  {
    if v < 10 && width <= 1 then ['0' + v as char]
    else
      var p := if v < 10 then Decimal(0, width - 1) else Decimal(v / 10, if width == 0 then 0 else width - 1);
      var digit := '0' + (v % 10) as char;
      assert (p + [digit])[..|p|] == p;
      p + [digit]
  }
}
