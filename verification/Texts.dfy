/** Texts joined by a separator that may also occur inside the parts. */
module Texts {
  function Occurrences(s: string, c: char): nat {
    if s == "" then 0 else Occurrences(s[..|s| - 1], c) + if s[|s| - 1] == c then 1 else 0
  }

  lemma {:induction false} NoOccurrence(s: string, c: char)
    ensures Occurrences(s, c) == 0 <==> c !in s
  {
    if s != "" {
      NoOccurrence(s[..|s| - 1], c);
      assert s == s[..|s| - 1] + [s[|s| - 1]];
    }
  }

  /** Two joined texts whose last parts have equally many separators inside are equal only part by part. */
  lemma {:induction false} SplitAtSeparator(p: string, a: string, q: string, b: string, c: char)
    requires p + [c] + a == q + [c] + b && Occurrences(a, c) == Occurrences(b, c)
    ensures p == q && a == b
    decreases |a|
  {
    var k, l := p + [c] + a, q + [c] + b;
    assert k[|k| - 1] == l[|l| - 1];
    if a != "" && b != "" {
      assert k[..|k| - 1] == p + [c] + a[..|a| - 1] && l[..|l| - 1] == q + [c] + b[..|b| - 1];
      SplitAtSeparator(p, a[..|a| - 1], q, b[..|b| - 1], c);
      assert a == a[..|a| - 1] + [k[|k| - 1]] && b == b[..|b| - 1] + [l[|l| - 1]];
    } else {
      assert a == b == "";
      assert k[..|k| - 1] == p && l[..|l| - 1] == q;
    }
  }
}
