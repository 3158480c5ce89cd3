/** String helpers shared by the frontend and backend models: prefix and
    substring tests (JavaScript `includes`, Java `contains`, Python `in`),
    ASCII lower-casing, and literal replace-all. */
module Text {
  import opened Wrappers

  /** JavaScript (and Python) truthiness of an optional string: present and
      non-empty. */
  predicate TruthyText(s: Option<string>)
  {
    s.Some? && s.value != ""
  }

  /** `p` is a prefix of `s` (JavaScript `startsWith`). */
  predicate IsPrefix(p: string, s: string)
  {
    |p| <= |s| && s[..|p|] == p
  }

  /** `sub` occurs somewhere in `s`. */
  predicate Contains(s: string, sub: string)
    decreases |s|
  {
    IsPrefix(sub, s) || (|s| > 0 && Contains(s[1..], sub))
  }

  /** The position-based reading of `Contains`. */
  lemma {:induction false} ContainsAt(s: string, sub: string)
    ensures Contains(s, sub) <==> exists i :: 0 <= i <= |s| && IsPrefix(sub, s[i..])
    decreases |s|
  {
    if IsPrefix(sub, s) {
      assert IsPrefix(sub, s[0..]);
    } else if |s| > 0 {
      ContainsAt(s[1..], sub);
      if Contains(s[1..], sub) {
        var i :| 0 <= i <= |s[1..]| && IsPrefix(sub, s[1..][i..]);
        assert s[1..][i..] == s[i + 1..];
      } else {
        forall i | 0 <= i <= |s| ensures !IsPrefix(sub, s[i..]) {
          if i > 0 {
            assert s[1..][i - 1..] == s[i..];
          }
        }
      }
    }
  }

  /** A string always contains the empty string and itself. */
  lemma ContainsEmpty(s: string)
    ensures Contains(s, "")
  {
  }

  function LowerChar(c: char): (r: char)
    ensures 'A' <= c <= 'Z' ==> r as int == c as int + 32
    ensures !('A' <= c <= 'Z') ==> r == c
  {
    if 'A' <= c <= 'Z' then (c as int + 32) as char else c
  }

  /** `toLowerCase` / `lower` / `equalsIgnoreCase`, on the ASCII letters only. */
  function ToLower(s: string): (r: string)
    ensures |r| == |s|
    ensures forall i :: 0 <= i < |s| ==> r[i] == LowerChar(s[i])
  {
    seq(|s|, i requires 0 <= i < |s| => LowerChar(s[i]))
  }

  lemma ToLowerIdempotent(s: string)
    ensures ToLower(ToLower(s)) == ToLower(s)
  {
  }

  /** Case-insensitive substring test, `a.toLowerCase().includes(b.toLowerCase())`. */
  predicate ContainsIgnoringCase(s: string, sub: string)
  {
    Contains(ToLower(s), ToLower(sub))
  }

  /** Java `equalsIgnoreCase`, for ASCII letters. */
  predicate EqualsIgnoreCase(a: string, b: string)
  {
    ToLower(a) == ToLower(b)
  }

  /** Every occurrence of the literal `pat` replaced by `rep`, scanning left to
      right without overlap, as Java's `replaceAll` does for a pattern that has
      no regular-expression metacharacters left after escaping. */
  function ReplaceAll(s: string, pat: string, rep: string): string
    requires |pat| > 0
    decreases |s|
  {
    if IsPrefix(pat, s) then rep + ReplaceAll(s[|pat|..], pat, rep)
    else if s == [] then []
    else [s[0]] + ReplaceAll(s[1..], pat, rep)
  }

  /** Replacing a pattern that does not occur leaves the string as it was. */
  lemma {:induction false} ReplaceAllAbsent(s: string, pat: string, rep: string)
    requires |pat| > 0
    requires !Contains(s, pat)
    ensures ReplaceAll(s, pat, rep) == s
    decreases |s|
  {
    if s != [] {
      ReplaceAllAbsent(s[1..], pat, rep);
    }
  }

  /** `w` and `rep` agree on their common length. */
  predicate Comparable(w: string, rep: string)
  {
    IsPrefix(w, rep) || IsPrefix(rep, w)
  }

  /** If a prefix of the replaced text cannot have come out of any copy of
      `rep` (none of its non-empty suffixes lines up with `rep`), the same
      prefix was already in the original text. */
  lemma {:induction false} PrefixSurvives(t: string, w: string, pat: string, rep: string)
    requires |pat| > 0
    requires forall k :: 0 <= k < |w| ==> !Comparable(w[k..], rep)
    requires IsPrefix(w, ReplaceAll(t, pat, rep))
    ensures IsPrefix(w, t)
    decreases |t|
  {
    if w == [] {
      return;
    }
    var out := ReplaceAll(t, pat, rep);
    assert w[0..] == w;
    RepFirstWhenMatched(t, pat, rep);
    SharedPrefixComparable(w, rep, out);
    if IsPrefix(pat, t) {
      assert false;
    } else {
      assert t != [];
      var rest := ReplaceAll(t[1..], pat, rep);
      assert out == [t[0]] + rest;
      assert out[1..] == rest;
      assert w[0] == t[0];
      assert IsPrefix(w[1..], rest) by {
        assert out[1..|w|] == rest[..|w| - 1];
      }
      forall k | 0 <= k < |w[1..]| ensures !Comparable(w[1..][k..], rep) {
        assert w[1..][k..] == w[k + 1..];
      }
      PrefixSurvives(t[1..], w[1..], pat, rep);
      assert t[..|w|] == [t[0]] + t[1..][..|w| - 1];
    }
  }

  /** Text that starts with the pattern is replaced by text that starts with `rep`. */
  lemma RepFirstWhenMatched(t: string, pat: string, rep: string)
    requires |pat| > 0
    ensures IsPrefix(pat, t) ==> IsPrefix(rep, ReplaceAll(t, pat, rep))
  {
  }

  /** Two prefixes of the same string agree on their common length. */
  lemma SharedPrefixComparable(w: string, rep: string, out: string)
    ensures IsPrefix(w, out) && IsPrefix(rep, out) ==> Comparable(w, rep)
  {
    if IsPrefix(w, out) && IsPrefix(rep, out) {
      if |w| <= |rep| {
        assert rep[..|w|] == out[..|w|];
      } else {
        assert w[..|rep|] == out[..|rep|];
      }
    }
  }

  /** When the replacement cannot start or finish a fresh copy of the pattern,
      no occurrence of the pattern is left after `ReplaceAll`. */
  lemma {:induction false} ReplaceAllRemoves(s: string, pat: string, rep: string)
    requires |pat| > 0
    requires pat[0] !in rep
    requires forall k :: 1 <= k < |pat| ==> !Comparable(pat[k..], rep)
    ensures !Contains(ReplaceAll(s, pat, rep), pat)
    decreases |s|
  {
    var out := ReplaceAll(s, pat, rep);
    if IsPrefix(pat, s) {
      var rest := ReplaceAll(s[|pat|..], pat, rep);
      ReplaceAllRemoves(s[|pat|..], pat, rep);
      assert out == rep + rest;
      NoOccurrenceInPrefix(rep, rest, pat);
    } else if s == [] {
    } else {
      var rest := ReplaceAll(s[1..], pat, rep);
      ReplaceAllRemoves(s[1..], pat, rep);
      assert out == [s[0]] + rest;
      if IsPrefix(pat, out) {
        assert IsPrefix(pat[1..], rest) by {
          assert out[1..|pat|] == rest[..|pat| - 1];
        }
        forall k | 0 <= k < |pat[1..]| ensures !Comparable(pat[1..][k..], rep) {
          assert pat[1..][k..] == pat[k + 1..];
        }
        PrefixSurvives(s[1..], pat[1..], pat, rep);
        assert false;
      }
      assert out[1..] == rest;
    }
  }

  /** A pattern that starts with a character absent from `u` cannot begin
      inside `u`; so it occurs in `u + v` only if it occurs in `v`. */
  lemma {:induction false} NoOccurrenceInPrefix(u: string, v: string, pat: string)
    requires |pat| > 0
    requires pat[0] !in u
    requires !Contains(v, pat)
    ensures !Contains(u + v, pat)
    decreases |u|
  {
    if u == [] {
      assert u + v == v;
    } else {
      assert (u + v)[0] == u[0];
      assert !IsPrefix(pat, u + v);
      NoOccurrenceInPrefix(u[1..], v, pat);
      assert (u + v)[1..] == u[1..] + v;
    }
  }

  /** Whatever contains `p` contains each piece of `p`. */
  lemma SubstringContained(s: string, p: string, k: nat, len: nat)
    requires k + len <= |p| && Contains(s, p)
    ensures Contains(s, p[k..k + len])
  {
    ContainsAt(s, p);
    var i :| 0 <= i <= |s| && IsPrefix(p, s[i..]);
    assert IsPrefix(p[k..k + len], s[i + k..]) by {
      assert s[i + k..][..len] == s[i..][..|p|][k..k + len];
    }
    ContainsAt(s, p[k..k + len]);
  }

  /** Text holding `a + b + c` holds `b`. */
  lemma InfixContained(s: string, a: string, b: string, c: string)
    requires Contains(s, a + b + c)
    ensures Contains(s, b)
  {
    SubstringContained(s, a + b + c, |a|, |b|);
    assert (a + b + c)[|a|..|a| + |b|] == b;
  }

  /** An occurrence holds the pattern's last character. */
  lemma {:induction false} ContainsLast(s: string, pat: string)
    requires |pat| > 0 && Contains(s, pat)
    ensures pat[|pat| - 1] in s
    decreases |s|
  {
    if IsPrefix(pat, s) {
      assert s[|pat| - 1] == pat[|pat| - 1];
    } else {
      ContainsLast(s[1..], pat);
    }
  }

  /** Text added after `u` that lacks the pattern's last character cannot
      complete an occurrence. */
  lemma {:induction false} NoOccurrenceBeforeSuffix(u: string, v: string, pat: string)
    requires |pat| > 0
    requires pat[|pat| - 1] !in v
    requires !Contains(u, pat)
    ensures !Contains(u + v, pat)
    decreases |u|
  {
    if u == [] {
      assert u + v == v;
      if Contains(v, pat) {
        ContainsLast(v, pat);
      }
    } else {
      NoOccurrenceBeforeSuffix(u[1..], v, pat);
      assert (u + v)[1..] == u[1..] + v;
    }
  }
}
