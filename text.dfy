/** The string tests the product search uses: blank terms, case-insensitive containment and
    ordinal ordering of names. A null string is represented by "". */
module Text {
  /** The characters .NET counts as white space. */
  predicate IsWhiteSpace(c: char)
  {
    var n := c as int;
    (0x09 <= n <= 0x0D) || n == 0x20 || n == 0x85 || n == 0xA0 || n == 0x1680 ||
    (0x2000 <= n <= 0x200A) || n == 0x2028 || n == 0x2029 || n == 0x202F || n == 0x205F ||
    n == 0x3000
  }

  /** IsNullOrWhiteSpace: empty, or nothing but white space. */
  predicate IsNullOrWhiteSpace(s: string)
  {
    forall i :: 0 <= i < |s| ==> IsWhiteSpace(s[i])
  }

  /** The upper-case form of an ASCII letter; every other character is unchanged. */
  function UpperAscii(c: char): char
  {
    if 'a' <= c <= 'z' then (c as int - 32) as char else c
  }

  function Fold(s: string): (r: string)
    ensures |r| == |s|
    ensures forall i :: 0 <= i < |s| ==> r[i] == UpperAscii(s[i])
  {
    seq(|s|, i requires 0 <= i < |s| => UpperAscii(s[i]))
  }

  /** Whether `t` occurs in `s` at some position, searching from the front. */
  function Occurs(s: string, t: string): bool
    decreases |s|
  {
    if |t| > |s| then false
    else if s[..|t|] == t then true
    else Occurs(s[1..], t)
  }

  /** Contains(term, StringComparison.OrdinalIgnoreCase): `t` sits somewhere in `s` once both
      are folded; in particular every string contains itself in any letter case. */
  function ContainsIgnoreCase(s: string, t: string): (r: bool)
    ensures r <==> exists i :: OccursAt(Fold(s), Fold(t), i)
    ensures Fold(s) == Fold(t) ==> r
  {
    OccursIff(Fold(s), Fold(t));
    assert Fold(s) == Fold(t) ==> OccursAt(Fold(s), Fold(t), 0);
    Occurs(Fold(s), Fold(t))
  }

  /** `t` sits in `s` starting at position i. */
  predicate OccursAt(s: string, t: string, i: int)
  {
    0 <= i <= |s| - |t| && s[i..i + |t|] == t
  }

  /** The search finds `t` exactly when it sits at some position of `s`. */
  lemma {:induction false} OccursIff(s: string, t: string)
    ensures Occurs(s, t) <==> exists i :: OccursAt(s, t, i)
    decreases |s|
  {
    if |t| > |s| {
    } else if s[..|t|] == t {
      assert OccursAt(s, t, 0);
    } else {
      OccursIff(s[1..], t);
      if Occurs(s[1..], t) {
        var i :| OccursAt(s[1..], t, i);
        assert s[1..][i..i + |t|] == s[i + 1..i + 1 + |t|];
        assert OccursAt(s, t, i + 1);
      } else {
        forall i | 1 <= i <= |s| - |t|
          ensures !OccursAt(s, t, i)
        {
          assert !OccursAt(s[1..], t, i - 1);
          assert s[1..][i - 1..i - 1 + |t|] == s[i..i + |t|];
        }
        assert !OccursAt(s, t, 0);
      }
    }
  }

  /** Ordinal comparison: character codes from the front, a proper prefix first. */
  predicate OrdinalLe(a: string, b: string)
  {
    if a == [] then true
    else if b == [] then false
    else if a[0] != b[0] then a[0] < b[0]
    else OrdinalLe(a[1..], b[1..])
  }

  lemma {:induction false} OrdinalLeTotal(a: string, b: string)
    ensures OrdinalLe(a, b) || OrdinalLe(b, a)
  {
    if a != [] && b != [] && a[0] == b[0] {
      OrdinalLeTotal(a[1..], b[1..]);
    }
  }

  lemma {:induction false} OrdinalLeTrans(a: string, b: string, c: string)
    requires OrdinalLe(a, b) && OrdinalLe(b, c)
    ensures OrdinalLe(a, c)
  {
    if a != [] && b != [] && c != [] && a[0] == b[0] && b[0] == c[0] {
      OrdinalLeTrans(a[1..], b[1..], c[1..]);
    }
  }

  lemma {:induction false} OrdinalLeAntisym(a: string, b: string)
    requires OrdinalLe(a, b) && OrdinalLe(b, a)
    ensures a == b
  {
    if a != [] && b != [] {
      OrdinalLeAntisym(a[1..], b[1..]);
      assert a == [a[0]] + a[1..] && b == [b[0]] + b[1..];
    }
  }
}
