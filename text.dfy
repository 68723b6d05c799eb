/** The `kotlin.text` operations the string rules are built from:
    `String.length`, `String.contains(other)`, `String.startsWith(prefix)`
    and `String.endsWith(suffix)`, all case-sensitive. */
module Text {

  /** `t` occurs in `s` at position `k`. */
  predicate OccursAt(s: string, t: string, k: int) {
    0 <= k && k + |t| <= |s| && s[k..k + |t|] == t
  }

  /** How many UTF-16 code units encode `c`: one inside the Basic
      Multilingual Plane, two (a surrogate pair) above it. */
  function CodeUnits(c: char): nat {
    if c < '\U{10000}' then 1 else 2
  }

  /** `String.length`: Kotlin strings are UTF-16, so the length counts code
      units, not characters. It equals the number of characters exactly when
      every character lies in the Basic Multilingual Plane. */
  function Length(s: string): (n: nat)
    ensures |s| <= n <= 2 * |s|
    ensures n == 0 <==> s == []
    ensures n == |s| <==> forall k | 0 <= k < |s| :: s[k] < '\U{10000}'
  {
    if s == [] then 0 else Length(s[..|s| - 1]) + CodeUnits(s[|s| - 1])
  }

  /** `s.contains(t)`, computed the way `indexOf` scans: try position 0, then
      the rest of the string. */
  predicate Contains(s: string, t: string)
    decreases |s|
  {
    |t| <= |s| && (s[..|t|] == t || (|s| > 0 && Contains(s[1..], t)))
  }

  /** `Contains` finds exactly the substrings: it holds iff `t` occurs in `s`
      at some position. */
  lemma {:induction false} ContainsIffOccurs(s: string, t: string)
    ensures Contains(s, t) <==> exists k :: OccursAt(s, t, k)
    decreases |s|
  {
    if |t| <= |s| && |s| > 0 {
      ContainsIffOccurs(s[1..], t);
    }
    if Contains(s, t) {
      if s[..|t|] == t {
        assert OccursAt(s, t, 0);
      } else {
        var k :| OccursAt(s[1..], t, k);
        assert s[k + 1..k + 1 + |t|] == s[1..][k..k + |t|];
        assert OccursAt(s, t, k + 1);
      }
    }
    forall k | OccursAt(s, t, k)
      ensures Contains(s, t)
    {
      if k > 0 {
        assert s[1..][k - 1..k - 1 + |t|] == s[k..k + |t|];
        assert OccursAt(s[1..], t, k - 1);
      }
    }
  }

  predicate StartsWith(s: string, prefix: string) {
    |prefix| <= |s| && s[..|prefix|] == prefix
  }

  predicate EndsWith(s: string, suffix: string) {
    |suffix| <= |s| && s[|s| - |suffix|..] == suffix
  }

  /** A string starts with `prefix` iff it is `prefix` followed by something. */
  lemma StartsWithIffSplit(s: string, prefix: string)
    ensures StartsWith(s, prefix) <==> exists rest :: s == prefix + rest
  {
    if StartsWith(s, prefix) {
      assert s == prefix + s[|prefix|..];
    }
  }

  /** A string ends with `suffix` iff it is something followed by `suffix`. */
  lemma EndsWithIffSplit(s: string, suffix: string)
    ensures EndsWith(s, suffix) <==> exists front :: s == front + suffix
  {
    if EndsWith(s, suffix) {
      assert s == s[..|s| - |suffix|] + suffix;
    }
    forall front | s == front + suffix
      ensures EndsWith(s, suffix)
    {
      assert s[|s| - |suffix|..] == suffix;
    }
  }

  /** `StartsWithIffSplit` and `EndsWithIffSplit` for every string. */
  lemma AffixesSplit(prefix: string, suffix: string)
    ensures forall s :: StartsWith(s, prefix) <==> exists rest :: s == prefix + rest
    ensures forall s :: EndsWith(s, suffix) <==> exists front :: s == front + suffix
  {
    forall s ensures StartsWith(s, prefix) <==> exists rest :: s == prefix + rest {
      StartsWithIffSplit(s, prefix);
    }
    forall s ensures EndsWith(s, suffix) <==> exists front :: s == front + suffix {
      EndsWithIffSplit(s, suffix);
    }
  }

  /** A prefix and a suffix are both substrings. */
  lemma StartsOrEndsWithImpliesContains(s: string, t: string)
    requires StartsWith(s, t) || EndsWith(s, t)
    ensures Contains(s, t)
  {
    if StartsWith(s, t) {
      assert s[..|t|] == t;
    } else {
      assert s[|s| - |t|..|s|] == t;
      assert OccursAt(s, t, |s| - |t|);
      ContainsIffOccurs(s, t);
    }
  }
}
