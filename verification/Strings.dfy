/** Searching in strings, as std::string::find does. */
module Strings {
  import opened Sequences

  predicate OccursAt(s: string, sub: string, i: nat) {
    i + |sub| <= |s| && s[i..i + |sub|] == sub
  }

  /** s.find(sub) != npos. */
  predicate Contains(s: string, sub: string) {
    exists i | 0 <= i <= |s| - |sub| :: OccursAt(s, sub, i)
  }

  /** s.find(sub, start): the first occurrence from start on; None is npos. */
  function Find(s: string, sub: string, start: nat): (pos: Option<nat>)
    requires start <= |s|
    ensures pos.None? ==> forall i | start <= i <= |s| :: !OccursAt(s, sub, i)
    ensures pos.Some? ==>
              start <= pos.value <= |s| - |sub| && OccursAt(s, sub, pos.value) && forall i | start <= i < pos.value :: !OccursAt(s, sub, i)
    decreases |s| - start
  {
    if OccursAt(s, sub, start) then Some(start)
    else if start == |s| then None
    else Find(s, sub, start + 1)
  }

  predicate IsDigit(c: char) {
    '0' <= c <= '9'
  }

  function DigitValue(c: char): (d: nat)
    requires IsDigit(c)
    ensures d < 10
  {
    (c - '0') as nat
  }

  /** The digits at the front, read on from a value; and what follows them. */
  function ReadNumber(value: nat, s: string): (r: (nat, string))
    ensures |r.1| <= |s|
    ensures r.0 >= value && (value > 0 && s != "" && IsDigit(s[0]) ==> r.0 > value)
    ensures r.1 == "" || !IsDigit(r.1[0])
    decreases |s|
  {
    if s == "" || !IsDigit(s[0]) then (value, s)
    else ReadNumber(10 * value + DigitValue(s[0]), s[1..])
  }
}
