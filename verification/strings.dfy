/**
 The two string primitives the cargo page relies on: JavaScript's
 `String.prototype.includes` (used by both search filters) and the relational
 operators `<` / `>` on strings (used by the sort comparator).
 */
module Strings {

  /** `sub` occurs in `s` starting at offset `i`. */
  ghost predicate OccursAt(s: string, sub: string, i: int) {
    0 <= i && i + |sub| <= |s| && s[i..i + |sub|] == sub
  }

  /** Reference meaning of "contains as a substring": some offset where `sub` occurs. */
  ghost predicate IsSubstring(sub: string, s: string) {
    exists i :: OccursAt(s, sub, i)
  }

  /** `s.includes(sub)`: try every starting offset from the left. The empty string is
      included in every string. */
  predicate Includes(s: string, sub: string) {
    if sub <= s then true
    else if |s| == 0 then false
    else Includes(s[1..], sub)
  }

  /** A slice of the tail is the slice of the whole one position further on. */
  lemma ShiftedSlice(s: string, i: int, j: int)
    requires 0 < |s| && 0 <= i <= j <= |s| - 1
    ensures s[1..][i..j] == s[i + 1..j + 1]
  {
  }

  lemma {:induction false} IncludesIsSubstring(s: string, sub: string)
    ensures Includes(s, sub) <==> IsSubstring(sub, s)
  {
    if sub <= s {
      assert OccursAt(s, sub, 0);
    } else if |s| == 0 {
    } else {
      IncludesIsSubstring(s[1..], sub);
      if IsSubstring(sub, s[1..]) {
        var i :| OccursAt(s[1..], sub, i);
        ShiftedSlice(s, i, i + |sub|);
        assert OccursAt(s, sub, i + 1);
      }
      if IsSubstring(sub, s) {
        var i :| OccursAt(s, sub, i);
        assert i != 0;
        ShiftedSlice(s, i - 1, i - 1 + |sub|);
        assert OccursAt(s[1..], sub, i - 1);
      }
    }
  }

  /** JavaScript's `a < b` on strings: character by character from the left; a proper
      prefix is smaller than the longer string. */
  predicate Less(a: string, b: string) {
    if |a| == 0 then |b| > 0
    else if |b| == 0 then false
    else a[0] < b[0] || (a[0] == b[0] && Less(a[1..], b[1..]))
  }

  /** Neither `b < a`: the non-strict order the sort arranges its keys in. */
  predicate Leq(a: string, b: string) {
    !Less(b, a)
  }

  lemma {:induction false} LessIrreflexive(a: string)
    ensures !Less(a, a)
  {
    if |a| > 0 {
      LessIrreflexive(a[1..]);
    }
  }

  lemma {:induction false} LessAsymmetric(a: string, b: string)
    ensures !(Less(a, b) && Less(b, a))
  {
    if |a| > 0 && |b| > 0 && a[0] == b[0] {
      LessAsymmetric(a[1..], b[1..]);
    }
  }

  lemma {:induction false} LessTransitive(a: string, b: string, c: string)
    requires Less(a, b) && Less(b, c)
    ensures Less(a, c)
  {
    if |a| > 0 && a[0] == b[0] && b[0] == c[0] {
      LessTransitive(a[1..], b[1..], c[1..]);
    }
  }

  /** Any two strings are equal or ordered one way round. */
  lemma {:induction false} LessTrichotomous(a: string, b: string)
    ensures Less(a, b) || a == b || Less(b, a)
  {
    if |a| > 0 && |b| > 0 && a[0] == b[0] {
      LessTrichotomous(a[1..], b[1..]);
      if a[1..] == b[1..] {
        assert a == [a[0]] + a[1..] && b == [b[0]] + b[1..];
      }
    }
  }

  lemma LeqTransitive(a: string, b: string, c: string)
    requires Leq(a, b) && Leq(b, c)
    ensures Leq(a, c)
  {
    LessTrichotomous(a, b);
    LessTrichotomous(b, c);
    LessAsymmetric(a, c);
    if Less(a, b) && Less(b, c) {
      LessTransitive(a, b, c);
    }
  }

  lemma LeqAntisymmetric(a: string, b: string)
    requires Leq(a, b) && Leq(b, a)
    ensures a == b
  {
    LessTrichotomous(a, b);
  }

  lemma LeqTotal(a: string, b: string)
    ensures Leq(a, b) || Leq(b, a)
  {
    LessAsymmetric(a, b);
  }

  /** The sort's comparator: 1 when `a > b`, -1 when `a < b`, 0 otherwise. On strings
      "otherwise" means equal, and swapping the arguments negates the verdict. */
  function Compare(a: string, b: string): (r: int)
    ensures r == 0 <==> a == b
    ensures r > 0 <==> Less(b, a)
    ensures r < 0 <==> Less(a, b)
    ensures r <= 0 <==> Leq(a, b)
    ensures -1 <= r <= 1
  {
    LessTrichotomous(a, b);
    LessAsymmetric(a, b);
    LessIrreflexive(a);
    if Less(b, a) then 1
    else if Less(a, b) then -1
    else 0
  }

  /** Swapping the comparator's arguments negates its verdict. */
  lemma CompareAntisymmetric(a: string, b: string)
    ensures Compare(b, a) == -Compare(a, b)
  {
  }
}
