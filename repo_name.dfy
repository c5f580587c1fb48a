/**
 * The repository-name sanitiser of the create-repository dialog.
 *
 * The dialog normalises what the user types in two global replacements:
 * first every character outside the ASCII letters, the digits and `.`, `-`,
 * `_` becomes `-`; then every run of two or more `-` becomes a single `-`.
 * Leading and trailing dashes are kept.
 */
module RepoName {

  /** The characters the first replacement leaves alone: `[a-zA-Z0-9.\-_]`. */
  predicate IsAllowed(c: char) {
    || ('a' <= c <= 'z')
    || ('A' <= c <= 'Z')
    || ('0' <= c <= '9')
    || c == '.' || c == '-' || c == '_'
  }

  /** Every character of `s` is allowed. */
  predicate AllAllowed(s: string) {
    forall i :: 0 <= i < |s| ==> IsAllowed(s[i])
  }

  /** No two adjacent characters of `s` are both `-`. */
  predicate NoDoubleDash(s: string) {
    forall i :: 0 < i < |s| ==> !(s[i - 1] == '-' && s[i] == '-')
  }

  /** The names the sanitiser can produce. */
  predicate IsSanitized(s: string) {
    AllAllowed(s) && NoDoubleDash(s)
  }

  // ---------------------------------------------------------------------
  // Step one: `replace(/[^a-zA-Z0-9.\-_]/g, "-")`

  /** Replaces every character that is not allowed by `-`, keeping length and position. */
  function ReplaceDisallowed(s: string): (r: string)
    ensures |r| == |s|
    ensures forall i :: 0 <= i < |s| && IsAllowed(s[i]) ==> r[i] == s[i]
    ensures forall i :: 0 <= i < |s| && !IsAllowed(s[i]) ==> r[i] == '-'
  {
    if s == [] then []
    else [if IsAllowed(s[0]) then s[0] else '-'] + ReplaceDisallowed(s[1..])
  }

  // ---------------------------------------------------------------------
  // Step two: `replace(/-{2,}/g, "-")`

  /** The length of the longest prefix of `s` made only of `-` (what a greedy `-+` matches at the start). */
  function LeadingDashes(s: string): (n: nat)
    ensures n <= |s|
    ensures forall i :: 0 <= i < n ==> s[i] == '-'
    ensures n < |s| ==> s[n] != '-'
  {
    if s != [] && s[0] == '-' then 1 + LeadingDashes(s[1..]) else 0
  }

  /**
   * A global replacement of `-{2,}` by `-`: scanning from the left, where a
   * greedy match of two or more dashes starts it is replaced by one dash and
   * the scan resumes after it; elsewhere one character is copied.
   */
  function CollapseDashes(s: string): (r: string)
    ensures |r| <= |s|
    decreases |s|
  {
    if s == [] then []
    else
      var k := LeadingDashes(s);
      if k >= 2 then "-" + CollapseDashes(s[k..])
      else [s[0]] + CollapseDashes(s[1..])
  }

  /** The name the dialog stores when the user types `s`. */
  function Sanitize(s: string): (r: string)
    ensures |r| <= |s|
    ensures r == [] <==> s == []
  {
    CollapseDashes(ReplaceDisallowed(s))
  }

  // ---------------------------------------------------------------------
  // An independent statement of the same transformation

  /** A character that ends up as part of a `-` in the output. */
  predicate Dashlike(c: char) {
    !IsAllowed(c) || c == '-'
  }

  /** The length of the longest prefix of `s` made of dashes and disallowed characters. */
  function LeadingDashlike(s: string): (n: nat)
    ensures n <= |s|
    ensures forall i :: 0 <= i < n ==> Dashlike(s[i])
    ensures n < |s| ==> !Dashlike(s[n])
  {
    if s != [] && Dashlike(s[0]) then 1 + LeadingDashlike(s[1..]) else 0
  }

  /** Replaces every maximal non-empty run of dashes and disallowed characters by a single `-`. */
  function CollapseRuns(s: string): string
    decreases |s|
  {
    if s == [] then []
    else
      var k := LeadingDashlike(s);
      if k > 0 then "-" + CollapseRuns(s[k..])
      else [s[0]] + CollapseRuns(s[1..])
  }

  /** The characters of `s` other than `-`, in order. */
  function NonDash(s: string): string {
    if s == [] then []
    else (if s[0] == '-' then [] else [s[0]]) + NonDash(s[1..])
  }

  /** The allowed characters of `s` other than `-`, in order. */
  function KeptChars(s: string): string {
    if s == [] then []
    else (if IsAllowed(s[0]) && s[0] != '-' then [s[0]] else []) + KeptChars(s[1..])
  }

  // ---------------------------------------------------------------------
  // Facts about the two steps

  lemma {:induction false} CollapseHead(s: string)
    requires s != []
    ensures CollapseDashes(s) != [] && CollapseDashes(s)[0] == s[0]
  {
  }

  /** Collapsing neither invents characters nor loses a kind of character. */
  lemma {:induction false} CollapseSameChars(s: string)
    ensures forall c :: c in CollapseDashes(s) <==> c in s
    decreases |s|
  {
    if s != [] {
      var k := LeadingDashes(s);
      if k >= 2 {
        CollapseSameChars(s[k..]);
        forall c | c in s ensures c in CollapseDashes(s) {
          var i :| 0 <= i < |s| && s[i] == c;
          if i >= k {
            assert s[k..][i - k] == c;
          }
        }
        forall c | c in CollapseDashes(s) ensures c in s {
          if c != '-' {
            assert c in CollapseDashes(s[k..]);
            assert c in s[k..];
          }
        }
      } else {
        CollapseSameChars(s[1..]);
        assert s == [s[0]] + s[1..];
      }
    }
  }

  lemma {:induction false} CollapseNoDoubleDash(s: string)
    ensures NoDoubleDash(CollapseDashes(s))
    decreases |s|
  {
    if s != [] {
      var k := LeadingDashes(s);
      var rest := if k >= 2 then s[k..] else s[1..];
      CollapseNoDoubleDash(rest);
      if rest != [] {
        CollapseHead(rest);
      }
      var r := CollapseDashes(s);
      var tail := CollapseDashes(rest);
      assert r == [r[0]] + tail;
      forall i | 0 < i < |r| ensures !(r[i - 1] == '-' && r[i] == '-') {
        if i == 1 {
          assert r[1] == tail[0] == rest[0];
        } else {
          assert r[i - 1] == tail[i - 2] && r[i] == tail[i - 1];
        }
      }
    }
  }

  /** A name with no double dash is left as it is by the second step. */
  lemma {:induction false} CollapseKeepsSingleDashes(s: string)
    requires NoDoubleDash(s)
    ensures CollapseDashes(s) == s
    decreases |s|
  {
    if s != [] {
      assert LeadingDashes(s) < 2 by {
        if |s| >= 2 && s[0] == '-' {
          assert !(s[0] == '-' && s[1] == '-');
        }
      }
      assert NoDoubleDash(s[1..]) by {
        forall i | 0 < i < |s[1..]| ensures !(s[1..][i - 1] == '-' && s[1..][i] == '-') {
          assert s[1..][i - 1] == s[i] && s[1..][i] == s[i + 1];
        }
      }
      CollapseKeepsSingleDashes(s[1..]);
      assert s == [s[0]] + s[1..];
    }
  }

  lemma ReplaceKeepsAllowed(s: string)
    requires AllAllowed(s)
    ensures ReplaceDisallowed(s) == s
  {
  }

  /** Dropping leading dashes does not change the non-dash characters. */
  lemma {:induction false} NonDashDropDashes(s: string, k: nat)
    requires k <= LeadingDashes(s)
    ensures NonDash(s[k..]) == NonDash(s)
    decreases k
  {
    if k > 0 {
      NonDashDropDashes(s[1..], k - 1);
      assert s[1..][k - 1..] == s[k..];
    }
  }

  lemma {:induction false} CollapseNonDash(s: string)
    ensures NonDash(CollapseDashes(s)) == NonDash(s)
    decreases |s|
  {
    if s != [] {
      var k := LeadingDashes(s);
      if k >= 2 {
        CollapseNonDash(s[k..]);
        NonDashDropDashes(s, k);
        assert NonDash("-" + CollapseDashes(s[k..])) == NonDash(CollapseDashes(s[k..])) by {
          assert ("-" + CollapseDashes(s[k..]))[1..] == CollapseDashes(s[k..]);
        }
      } else {
        CollapseNonDash(s[1..]);
        assert ([s[0]] + CollapseDashes(s[1..]))[1..] == CollapseDashes(s[1..]);
      }
    }
  }

  lemma {:induction false} ReplaceNonDash(s: string)
    ensures NonDash(ReplaceDisallowed(s)) == KeptChars(s)
    decreases |s|
  {
    if s != [] {
      ReplaceNonDash(s[1..]);
      var r := ReplaceDisallowed(s);
      assert r[1..] == ReplaceDisallowed(s[1..]);
    }
  }

  lemma ReplaceSuffix(s: string, k: nat)
    requires k <= |s|
    ensures ReplaceDisallowed(s)[k..] == ReplaceDisallowed(s[k..])
  {
  }

  /** After the first step, leading dashes are exactly the leading dashes and disallowed characters. */
  lemma {:induction false} ReplaceLeadingDashes(s: string)
    ensures LeadingDashes(ReplaceDisallowed(s)) == LeadingDashlike(s)
    decreases |s|
  {
    if s != [] {
      ReplaceLeadingDashes(s[1..]);
      ReplaceSuffix(s, 1);
    }
  }

  // ---------------------------------------------------------------------
  // Properties of the sanitiser

  /** Every character of a sanitised name is an ASCII letter, a digit, `.`, `-` or `_`. */
  lemma SanitizeAllowed(s: string)
    ensures AllAllowed(Sanitize(s))
  {
    var t := ReplaceDisallowed(s);
    CollapseSameChars(t);
    forall i | 0 <= i < |Sanitize(s)| ensures IsAllowed(Sanitize(s)[i]) {
      assert Sanitize(s)[i] in t;
    }
  }

  /** A sanitised name never holds two consecutive dashes. */
  lemma SanitizeNoDoubleDash(s: string)
    ensures NoDoubleDash(Sanitize(s))
  {
    CollapseNoDoubleDash(ReplaceDisallowed(s));
  }

  /** The first step keeps the length, the second can only shrink it. */
  lemma SanitizeLength(s: string)
    ensures |ReplaceDisallowed(s)| == |s|
    ensures |Sanitize(s)| <= |s|
  {
  }

  /** The sanitiser leaves exactly the already-sanitised names unchanged; in particular the empty name. */
  lemma SanitizeFixedPoint(s: string)
    ensures Sanitize(s) == s <==> IsSanitized(s)
    ensures Sanitize([]) == []
  {
    if IsSanitized(s) {
      ReplaceKeepsAllowed(s);
      CollapseKeepsSingleDashes(s);
    } else {
      SanitizeAllowed(s);
      SanitizeNoDoubleDash(s);
    }
  }

  /** Sanitising twice is sanitising once. */
  lemma SanitizeIdempotent(s: string)
    ensures Sanitize(Sanitize(s)) == Sanitize(s)
  {
    SanitizeAllowed(s);
    SanitizeNoDoubleDash(s);
    SanitizeFixedPoint(Sanitize(s));
  }

  /** The non-dash characters of the output are the allowed non-dash characters of the input, in order. */
  lemma SanitizeKeepsChars(s: string)
    ensures NonDash(Sanitize(s)) == KeptChars(s)
  {
    CollapseNonDash(ReplaceDisallowed(s));
    ReplaceNonDash(s);
  }

  /** The two replacements together collapse each maximal run of dashes and disallowed characters to one `-`. */
  lemma {:induction false} SanitizeIsCollapseRuns(s: string)
    ensures Sanitize(s) == CollapseRuns(s)
    decreases |s|
  {
    if s != [] {
      var t := ReplaceDisallowed(s);
      var k := LeadingDashlike(s);
      ReplaceLeadingDashes(s);
      assert LeadingDashes(t) == k;
      if k >= 2 {
        ReplaceSuffix(s, k);
        SanitizeIsCollapseRuns(s[k..]);
      } else {
        ReplaceSuffix(s, 1);
        SanitizeIsCollapseRuns(s[1..]);
        if k == 1 {
          assert t[0] == '-';
        } else {
          assert t[0] == s[0];
        }
      }
    }
  }
}
