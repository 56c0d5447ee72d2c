/** The few `str` operations of Python that the models share. */
module Strings {
  import opened Options

  type CharClass = char -> bool

  /** `str.isspace`, and `\s` in a regular expression, on one character. */
  predicate IsSpace(c: char) {
    var n := c as int;
    || 0x09 <= n <= 0x0D || 0x1C <= n <= 0x20 || n == 0x85 || n == 0xA0 || n == 0x1680
    || 0x2000 <= n <= 0x200A || n == 0x2028 || n == 0x2029 || n == 0x202F || n == 0x205F || n == 0x3000
  }

  function TrimLeft(s: string, drop: CharClass): (r: string)
    ensures |r| <= |s|
  {
    if s != [] && drop(s[0]) then TrimLeft(s[1..], drop) else s
  }

  function TrimRight(s: string, drop: CharClass): (r: string)
    ensures r <= s
  {
    if s != [] && drop(s[|s| - 1]) then TrimRight(s[..|s| - 1], drop) else s
  }

  lemma TrimLeftIsSuffix(s: string, drop: CharClass)
    ensures var r := TrimLeft(s, drop); r == s[|s| - |r|..] && (r == [] || !drop(r[0]))
  {
  }

  lemma TrimRightDrops(s: string, drop: CharClass)
    ensures var r := TrimRight(s, drop);
            (r == [] || !drop(r[|r| - 1])) && forall i :: |r| <= i < |s| ==> drop(s[i])
  {
  }

  /** `str.strip` with the characters to drop. */
  function Strip(s: string, drop: CharClass): string {
    TrimRight(TrimLeft(s, drop), drop)
  }

  /** `str.find` of one character. */
  function Find(s: string, c: char): (r: Option<nat>)
    ensures r.Some? ==> r.value < |s| && s[r.value] == c
  {
    if s == [] then None
    else if s[0] == c then Some(0)
    else
      var later := Find(s[1..], c);
      if later.None? then None else Some(later.value + 1)
  }

  lemma {:induction false} FindPasses(a: string, b: string, c: char)
    requires c !in a
    ensures Find(a + b, c) == if Find(b, c).None? then None else Some(|a| + Find(b, c).value)
  {
    if a == "" {
      assert a + b == b;
    } else {
      assert (a + b)[1..] == a[1..] + b;
      assert forall d :: d in a[1..] ==> d in a;
      FindPasses(a[1..], b, c);
    }
  }

  lemma FindNothing(s: string, c: char)
    requires c !in s
    ensures Find(s, c) == None
  {
    FindPasses(s, "", c);
    assert s + "" == s;
  }
}
