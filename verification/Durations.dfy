/** How a length of time is named: a number, and the letter of its unit. Lengths are in nanoseconds. */
module Durations {

  /** The number s is the digits of. */
  function Number(s: string): int {
    if s == [] then 0 else 10 * Number(s[..|s| - 1]) + (s[|s| - 1] as int - '0' as int)
  }

  /** Minutes, hours or days. */
  function Unit(c: char): int {
    if c == 'm' then 60_000_000_000 else if c == 'h' then 3_600_000_000_000 else if c == 'd' then 86_400_000_000_000 else 0
  }

  function Lasts(name: string): int {
    if name == "" then 0 else Number(name[..|name| - 1]) * Unit(name[|name| - 1])
  }

  lemma NumberGrows(s: string, d: char)
    ensures Number(s + [d]) == 10 * Number(s) + (d as int - '0' as int)
  {
    assert (s + [d])[..|s|] == s;
  }

  lemma LastsFor(s: string, unit: char)
    ensures Lasts(s + [unit]) == Number(s) * Unit(unit)
  {
    assert (s + [unit])[..|s|] == s;
  }

  lemma OneDigit(d: char, unit: char)
    ensures Lasts([d, unit]) == (d as int - '0' as int) * Unit(unit)
  {
    NumberGrows([], d);
    assert [] + [d] == [d] && [d] + [unit] == [d, unit];
    LastsFor([d], unit);
  }

  lemma TwoDigits(c: char, d: char, unit: char)
    ensures Lasts([c, d, unit]) == (10 * (c as int - '0' as int) + (d as int - '0' as int)) * Unit(unit)
  {
    NumberGrows([], c);
    NumberGrows([c], d);
    assert [] + [c] == [c] && [c] + [d] == [c, d] && [c, d] + [unit] == [c, d, unit];
    LastsFor([c, d], unit);
  }
}
