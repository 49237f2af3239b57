/** The allow-list cleaner `Select._clean_string`: every identifier and
    value substituted into generated SQL is filtered through it. */
module Sanitizer {

  /** The characters `_clean_string` keeps: ASCII letters, digits, space,
      hyphen, underscore, parentheses, full stop and comma. */
  predicate IsAllowed(c: char) {
    ('a' <= c <= 'z') || ('A' <= c <= 'Z') || ('0' <= c <= '9')
    || c == ' ' || c == '-' || c == '_' || c == '(' || c == ')' || c == '.' || c == ','
  }

  predicate IsClean(s: string) {
    forall i :: 0 <= i < |s| ==> IsAllowed(s[i])
  }

  /** `a` can be obtained from `b` by deleting characters (greedy match). */
  predicate IsSubsequence(a: string, b: string)
    decreases |b|
  {
    if |a| == 0 then true
    else if |b| == 0 then false
    else if a[0] == b[0] then IsSubsequence(a[1..], b[1..])
    else IsSubsequence(a, b[1..])
  }

  /** `_clean_string`: drop every character outside the allow-list. It is
      total: it never fails, whatever the input. */
  function Clean(s: string): (r: string)
    ensures IsClean(r)
    ensures IsSubsequence(r, s)
    decreases |s|
  {
    if |s| == 0 then ""
    else if IsAllowed(s[0]) then [s[0]] + Clean(s[1..]) else Clean(s[1..])
  }

  /** Every allowed character survives as often as it occurs, and no other
      character survives. */
  lemma {:induction false} CleanCounts(s: string)
    ensures forall c :: multiset(Clean(s))[c] == if IsAllowed(c) then multiset(s)[c] else 0
    ensures forall c :: c in Clean(s) <==> c in s && IsAllowed(c)
    decreases |s|
  {
    if |s| > 0 {
      CleanCounts(s[1..]);
      assert s == [s[0]] + s[1..];
      assert multiset(s) == multiset{s[0]} + multiset(s[1..]);
      if IsAllowed(s[0]) {
        assert Clean(s) == [s[0]] + Clean(s[1..]);
        assert multiset(Clean(s)) == multiset{s[0]} + multiset(Clean(s[1..]));
      }
    }
  }

  /** Already clean text passes through unchanged. */
  lemma {:induction false} CleanIdentity(s: string)
    requires IsClean(s)
    ensures Clean(s) == s
    decreases |s|
  {
    if |s| > 0 {
      assert IsClean(s[1..]) by {
        forall i | 0 <= i < |s| - 1 ensures IsAllowed(s[1..][i]) {
          assert s[1..][i] == s[i + 1];
        }
      }
      CleanIdentity(s[1..]);
      assert s == [s[0]] + s[1..];
    }
  }

  /** Cleaning twice is the same as cleaning once. */
  lemma CleanIdempotent(s: string)
    ensures Clean(Clean(s)) == Clean(s)
  {
    CleanIdentity(Clean(s));
  }

  /** Cleaning works character by character, so it distributes over
      concatenation. */
  lemma {:induction false} CleanConcat(a: string, b: string)
    ensures Clean(a + b) == Clean(a) + Clean(b)
    decreases |a|
  {
    if |a| == 0 {
      assert a + b == b;
    } else {
      var ab := a + b;
      assert ab[1..] == a[1..] + b;
      assert ab[0] == a[0];
      CleanConcat(a[1..], b);
      var head := if IsAllowed(a[0]) then [a[0]] else [];
      assert Clean(ab) == head + Clean(ab[1..]);
      assert Clean(a) == head + Clean(a[1..]);
    }
  }

  /** A string with no allowed character cleans to the empty string. */
  lemma {:induction false} CleanDropsAll(s: string)
    requires forall i :: 0 <= i < |s| ==> !IsAllowed(s[i])
    ensures Clean(s) == ""
    decreases |s|
  {
    if |s| > 0 {
      assert forall i :: 0 <= i < |s| - 1 ==> s[1..][i] == s[i + 1];
      CleanDropsAll(s[1..]);
    }
  }

  lemma {:induction false} SubsequenceMultiset(a: string, b: string)
    requires IsSubsequence(a, b)
    ensures multiset(a) <= multiset(b)
    decreases |b|
  {
    if |a| > 0 {
      assert b == [b[0]] + b[1..];
      if a[0] == b[0] {
        SubsequenceMultiset(a[1..], b[1..]);
        assert a == [a[0]] + a[1..];
      } else {
        SubsequenceMultiset(a, b[1..]);
      }
    }
  }

  /** Reference characterisation: a clean subsequence of `s` that keeps
      every allowed character of `s` as often as `s` has it is exactly
      `Clean(s)`. */
  lemma {:induction false} CleanUnique(s: string, r: string)
    requires IsClean(r)
    requires IsSubsequence(r, s)
    requires forall c :: IsAllowed(c) ==> multiset(r)[c] == multiset(s)[c]
    ensures r == Clean(s)
    decreases |s|
  {
    if |s| == 0 {
      if |r| > 0 {
        assert false;
      }
    } else {
      var c := s[0];
      var s' := s[1..];
      assert s == [c] + s';
      if !IsAllowed(c) {
        if |r| > 0 {
          assert IsAllowed(r[0]);
        }
        assert IsSubsequence(r, s');
        CleanUnique(s', r);
      } else {
        assert multiset(r)[c] >= 1;
        assert |r| > 0;
        assert r == [r[0]] + r[1..];
        assert IsClean(r[1..]) by {
          forall i | 0 <= i < |r| - 1 ensures IsAllowed(r[1..][i]) {
            assert r[1..][i] == r[i + 1];
          }
        }
        if r[0] == c {
          assert IsSubsequence(r[1..], s');
          CleanUnique(s', r[1..]);
        } else {
          assert IsSubsequence(r, s');
          SubsequenceMultiset(r, s');
          assert false;
        }
      }
    }
  }
}
