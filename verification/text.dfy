/** String operations used by the queries and the pages: ASCII lowercasing,
    substring search (`String.prototype.includes`), the prefix before a separator
    (`split(sep)[0]`) and the code-point order used for `ORDER BY name`. */
module Text {

  function LowerChar(c: char): char
  {
    if 'A' <= c <= 'Z' then (c as int + 32) as char else c
  }

  /** `toLowerCase` restricted to ASCII letters; every other character is kept. */
  function Lower(s: string): (r: string)
    ensures |r| == |s|
    ensures forall i :: 0 <= i < |s| ==> !('A' <= r[i] <= 'Z')
    ensures forall i :: 0 <= i < |s| && !('A' <= s[i] <= 'Z') ==> r[i] == s[i]
    ensures forall i :: 0 <= i < |s| && 'A' <= s[i] <= 'Z' ==> r[i] == (s[i] as int + 32) as char
  {
    seq(|s|, i requires 0 <= i < |s| => LowerChar(s[i]))
  }

  lemma LowerIdempotent(s: string)
    ensures Lower(Lower(s)) == Lower(s)
  {
  }

  /** `p` occurs in `s` starting at index `i`. */
  predicate OccursAt(p: string, s: string, i: int)
  {
    0 <= i && i + |p| <= |s| && s[i..i + |p|] == p
  }

  /** `s.includes(p)`: the empty string is included in every string. */
  function Includes(s: string, p: string): (b: bool)
    ensures b <==> exists i :: OccursAt(p, s, i)
    decreases |s|
  {
    if |p| > |s| then
      assert forall i :: !OccursAt(p, s, i);
      false
    else if s[..|p|] == p then
      assert OccursAt(p, s, 0);
      true
    else
      var b := Includes(s[1..], p);
      assert b ==> exists i :: OccursAt(p, s, i) by {
        if b {
          var i :| OccursAt(p, s[1..], i);
          assert s[1..][i..i + |p|] == s[i + 1..i + 1 + |p|];
          assert OccursAt(p, s, i + 1);
        }
      }
      assert (exists i :: OccursAt(p, s, i)) ==> b by {
        if exists i :: OccursAt(p, s, i) {
          var i :| OccursAt(p, s, i);
          assert i != 0;
          assert s[1..][i - 1..i - 1 + |p|] == s[i..i + |p|];
          assert OccursAt(p, s[1..], i - 1);
        }
      }
      b
  }

  /** The part of `s` before the first `sep`, or all of `s` when it has none: `s.split(sep)[0]`. */
  function BeforeFirst(s: string, sep: char): (r: string)
    ensures |r| <= |s| && r == s[..|r|]
    ensures sep !in r
    ensures |r| < |s| ==> s[|r|] == sep
  {
    if s == [] || s[0] == sep then [] else [s[0]] + BeforeFirst(s[1..], sep)
  }

  lemma {:induction false} BeforeFirstOfJoin(a: string, sep: char, b: string)
    requires sep !in a
    ensures BeforeFirst(a + [sep] + b, sep) == a
  {
    if a != [] {
      assert (a + [sep] + b)[1..] == a[1..] + [sep] + b;
      BeforeFirstOfJoin(a[1..], sep, b);
    }
  }

  lemma BeforeFirstWithout(a: string, sep: char)
    requires sep !in a
    ensures BeforeFirst(a, sep) == a
  {
  }

  /** `a` sorts before or equal to `b` comparing character codes left to right,
      a proper prefix first (the "C" collation). */
  predicate TextLe(a: string, b: string)
  {
    a == [] || (b != [] && (a[0] < b[0] || (a[0] == b[0] && TextLe(a[1..], b[1..]))))
  }

  lemma {:induction false} TextLeTotal(a: string, b: string)
    ensures TextLe(a, b) || TextLe(b, a)
  {
    if a != [] && b != [] && a[0] == b[0] {
      TextLeTotal(a[1..], b[1..]);
    }
  }

  lemma {:induction false} TextLeTransitive(a: string, b: string, c: string)
    requires TextLe(a, b) && TextLe(b, c)
    ensures TextLe(a, c)
  {
    if a != [] && b != [] && c != [] && a[0] == b[0] == c[0] {
      TextLeTransitive(a[1..], b[1..], c[1..]);
    }
  }

}
