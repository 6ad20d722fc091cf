/**
 * The request checks of the creation handler that only look at the body and the
 * deployment setting: the creation password, the `url` pattern
 * `/^https?:\/\/.{3,}/i` and the `slug` rule (2 to 10 characters, no file
 * extension at the end).
 */
module Validation {
  import opened Wrappers
  import opened Text

  /** JavaScript truthiness of an optional string: present and non-empty. */
  predicate Truthy(v: Option<string>) { v.Some? && v.value != "" }

  /** `env.ACCESS_PASSWORD` is truthy, so the creation password gate is on. */
  predicate GateConfigured(accessPassword: Option<string>) { Truthy(accessPassword) }

  /**
   * `!password || password !== env.ACCESS_PASSWORD` is false: the gate is off,
   * or the body's password is present, non-empty and equal to the setting.
   */
  predicate PasswordAccepted(accessPassword: Option<string>, password: Option<string>) {
    !GateConfigured(accessPassword) || (Truthy(password) && password.value == accessPassword.value)
  }

  /** With the gate on, acceptance is exactly equality with the configured value. */
  lemma PasswordAcceptedIffEqual(accessPassword: Option<string>, password: Option<string>)
    requires GateConfigured(accessPassword)
    ensures PasswordAccepted(accessPassword, password) <==> password == accessPassword
  {
  }

  /** `u` starts with `p`, ignoring ASCII case (the `i` flag). */
  predicate StartsIgnoringCase(u: string, p: string) {
    |p| <= |u| && forall i :: 0 <= i < |p| ==> ToLower(u[i]) == ToLower(p[i])
  }

  /**
   * Length of the scheme matched by `^https?:\/\/` with the `i` flag: `http`,
   * an optional `s`, then `://`; 0 when it does not match.
   */
  function SchemeLength(u: string): (k: nat)
    ensures k == 0 || k == 7 || k == 8
    ensures k <= |u|
  {
    if StartsIgnoringCase(u, "http") then
      var k := if |u| > 4 && ToLower(u[4]) == 's' then 5 else 4;
      if |u| >= k + 3 && u[k..k + 3] == "://" then k + 3 else 0
    else 0
  }

  /**
   * `/^https?:\/\/.{3,}/i.test(u)`: a scheme, then at least three UTF-16 code
   * units that `.` matches (the pattern is not anchored at the end).
   */
  predicate ValidUrl(u: string) {
    var k := SchemeLength(u);
    k > 0 && Utf16Length(LineOf(u[k..])) >= 3
  }

  /** `.{3,}` matches at position `k`: the run `u[k..j]` has no line terminator and is 3 code units long or more. */
  predicate DotRunAt(u: string, k: nat, j: int) {
    k <= j <= |u| && (forall i :: k <= i < j ==> !IsLineTerminator(u[i])) && Utf16Length(u[k..j]) >= 3
  }

  /** The pattern read as a regular expression: one of its two schemes, then a run of `.` of three code units. */
  ghost predicate MatchesUrlPattern(u: string) {
    (StartsIgnoringCase(u, "http://") && exists j :: DotRunAt(u, 7, j))
    || (StartsIgnoringCase(u, "https://") && exists j :: DotRunAt(u, 8, j))
  }

  lemma LineOfLongest(s: string, j: nat)
    requires j <= |s| && forall i :: 0 <= i < j ==> !IsLineTerminator(s[i])
    ensures j <= |LineOf(s)|
  {
  }

  lemma {:induction false} Utf16LengthPrefix(s: string, j: nat)
    requires j <= |s|
    ensures Utf16Length(s[..j]) <= Utf16Length(s)
  {
    assert s == s[..j] + s[j..];
    Utf16LengthAppend(s[..j], s[j..]);
  }

  /** `.{3,}` at `k` holds exactly when the line starting at `k` is three code units long. */
  lemma DotRunIffLine(u: string, k: nat)
    requires k <= |u|
    ensures (exists j :: DotRunAt(u, k, j)) <==> Utf16Length(LineOf(u[k..])) >= 3
  {
    var r := LineOf(u[k..]);
    if Utf16Length(r) >= 3 {
      assert u[k..k + |r|] == r;
      assert DotRunAt(u, k, k + |r|);
    }
    if exists j :: DotRunAt(u, k, j) {
      var j :| DotRunAt(u, k, j);
      assert u[k..j] == u[k..][..j - k];
      LineOfLongest(u[k..], j - k);
      assert u[k..j] == r[..j - k];
      Utf16LengthPrefix(r, j - k);
    }
  }

  /** A case-insensitive prefix splits into a case-insensitive head and an exact tail of case-free characters. */
  lemma StartsIgnoringCaseSplit(u: string, head: string, tail: string)
    requires forall i :: 0 <= i < |tail| ==> !IsUpper(tail[i]) && !IsLower(tail[i])
    ensures StartsIgnoringCase(u, head + tail)
        <==> StartsIgnoringCase(u, head) && |head| + |tail| <= |u| && u[|head|..|head| + |tail|] == tail
  {
    var p := head + tail;
    if StartsIgnoringCase(u, p) {
      forall i | 0 <= i < |head| ensures ToLower(u[i]) == ToLower(head[i]) {
        assert p[i] == head[i];
      }
      forall i | 0 <= i < |tail| ensures u[|head| + i] == tail[i] {
        assert p[|head| + i] == tail[i];
        assert ToLower(u[|head| + i]) == ToLower(p[|head| + i]);
      }
    }
    if StartsIgnoringCase(u, head) && |p| <= |u| && u[|head|..|p|] == tail {
      forall i | 0 <= i < |p| ensures ToLower(u[i]) == ToLower(p[i]) {
        if i >= |head| {
          assert u[|head|..|p|][i - |head|] == u[i];
        }
      }
    }
  }

  /** The scheme as implemented (`s` taken greedily) is one of the two alternatives of the pattern. */
  lemma SchemeLengthAlternatives(u: string)
    ensures SchemeLength(u) == 7 <==> StartsIgnoringCase(u, "http://")
    ensures SchemeLength(u) == 8 <==> StartsIgnoringCase(u, "https://")
  {
    assert "http://" == "http" + "://";
    assert "https://" == "https" + "://";
    StartsIgnoringCaseSplit(u, "http", "://");
    StartsIgnoringCaseSplit(u, "https", "://");
    if StartsIgnoringCase(u, "https") {
      forall i | 0 <= i < 4 ensures ToLower(u[i]) == ToLower("http"[i]) {
        assert "https"[i] == "http"[i];
      }
      assert ToLower(u[4]) == ToLower("https"[4]);
    }
    if StartsIgnoringCase(u, "http") && |u| > 4 && ToLower(u[4]) == 's' {
      forall i | 0 <= i < 5 ensures ToLower(u[i]) == ToLower("https"[i]) {
        if i < 4 { assert "https"[i] == "http"[i]; }
      }
    }
  }

  /** The implemented URL test accepts exactly the strings the pattern matches. */
  lemma ValidUrlMatchesPattern(u: string)
    ensures ValidUrl(u) <==> MatchesUrlPattern(u)
  {
    SchemeLengthAlternatives(u);
    var k := SchemeLength(u);
    if k > 0 {
      DotRunIffLine(u, k);
    }
  }

  /** The length of the run of ASCII letters at the end of `s`. */
  function TrailingLetters(s: string): (t: nat)
    ensures t <= |s|
    ensures AllLetters(s[|s| - t..])
    ensures t < |s| ==> !IsLetter(s[|s| - t - 1])
  {
    if s == [] || !IsLetter(s[|s| - 1]) then 0 else 1 + TrailingLetters(s[..|s| - 1])
  }

  /** `/\.[a-zA-Z]{1,8}$/.test(s)`, decided by the one dot that can precede the trailing letters. */
  predicate EndsWithExtension(s: string) {
    var t := TrailingLetters(s);
    1 <= t <= 8 && t < |s| && s[|s| - t - 1] == '.'
  }

  /** The pattern read as a regular expression: a dot and then `k` letters, 1 <= k <= 8, end the string. */
  predicate ExtensionOfLength(s: string, k: nat) {
    1 <= k <= 8 && k < |s| && s[|s| - k - 1] == '.' && AllLetters(s[|s| - k..])
  }

  /** An extension suffix can only be the whole trailing run of letters. */
  lemma ExtensionIsTrailingRun(s: string, k: nat)
    requires ExtensionOfLength(s, k)
    ensures k == TrailingLetters(s)
  {
    var t := TrailingLetters(s);
    assert forall i :: |s| - t <= i < |s| ==> IsLetter(s[i]) by {
      forall i | |s| - t <= i < |s| ensures IsLetter(s[i]) {
        assert s[|s| - t..][i - (|s| - t)] == s[i];
      }
    }
    assert forall i :: |s| - k <= i < |s| ==> IsLetter(s[i]) by {
      forall i | |s| - k <= i < |s| ensures IsLetter(s[i]) {
        assert s[|s| - k..][i - (|s| - k)] == s[i];
      }
    }
    assert !IsLetter(s[|s| - k - 1]);
    assert t < |s| ==> !IsLetter(s[|s| - t - 1]);
  }

  lemma EndsWithExtensionMatchesPattern(s: string)
    ensures EndsWithExtension(s) <==> exists k :: ExtensionOfLength(s, k)
  {
    var t := TrailingLetters(s);
    if EndsWithExtension(s) {
      assert ExtensionOfLength(s, t);
    }
    if exists k :: ExtensionOfLength(s, k) {
      var k :| ExtensionOfLength(s, k);
      ExtensionIsTrailingRun(s, k);
    }
  }

  /** The slug rule: 2 to 10 UTF-16 code units and no file extension at the end. */
  predicate ValidSlug(s: string) {
    2 <= Utf16Length(s) <= 10 && !EndsWithExtension(s)
  }

  /** The handler rejects the slug: it is truthy and breaks the slug rule. An empty slug is not rejected. */
  predicate SlugRejected(slug: Option<string>) {
    Truthy(slug) && !ValidSlug(slug.value)
  }
}
