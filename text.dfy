/**
 * The JavaScript string operations the core relies on: `trim`,
 * `toLowerCase` and `includes`. Strings are sequences of characters; a
 * JavaScript string counts UTF-16 code units, which coincide with
 * characters for text in the Basic Multilingual Plane.
 */
module Text {

  /**
   * The characters `String.prototype.trim` removes: the ECMAScript
   * WhiteSpace set (tab, vertical tab, form feed, the space separators of
   * Unicode category Zs, the byte order mark) and the LineTerminator set
   * (line feed, carriage return, line and paragraph separators).
   */
  predicate IsJsWhitespace(c: char)
  {
    || c == '\t' || c == '\n' || c == '\U{000B}' || c == '\U{000C}' || c == '\r'
    || c == ' ' || c == '\U{00A0}' || c == '\U{1680}'
    || ('\U{2000}' <= c <= '\U{200A}')
    || c == '\U{2028}' || c == '\U{2029}' || c == '\U{202F}' || c == '\U{205F}'
    || c == '\U{3000}' || c == '\U{FEFF}'
  }

  predicate AllWhitespace(s: string)
  {
    forall k :: 0 <= k < |s| ==> IsJsWhitespace(s[k])
  }

  /** No whitespace at either end: what `trim` leaves behind. */
  predicate IsTrimmed(s: string)
  {
    s == [] || (!IsJsWhitespace(s[0]) && !IsJsWhitespace(s[|s| - 1]))
  }

  /** The length of the longest all-whitespace prefix of `s`. */
  function LeadingWhitespace(s: string): (n: nat)
    ensures n <= |s|
    ensures AllWhitespace(s[..n])
    ensures n < |s| ==> !IsJsWhitespace(s[n])
  {
    if s == [] || !IsJsWhitespace(s[0]) then 0
    else
      var m := LeadingWhitespace(s[1..]);
      assert s[..1 + m] == [s[0]] + s[1..][..m];
      1 + m
  }

  /** The length of the longest all-whitespace suffix of `s`. */
  function TrailingWhitespace(s: string): (n: nat)
    ensures n <= |s|
    ensures AllWhitespace(s[|s| - n..])
    ensures n < |s| ==> !IsJsWhitespace(s[|s| - 1 - n])
  {
    if s == [] || !IsJsWhitespace(s[|s| - 1]) then 0
    else
      var init := s[..|s| - 1];
      var m := TrailingWhitespace(init);
      assert s[|s| - (1 + m)..] == init[|init| - m..] + [s[|s| - 1]];
      1 + m
  }

  /**
   * `s.trim()`: `s` with its leading and trailing whitespace removed. The
   * result is the piece of `s` after its leading whitespace, with only
   * whitespace after it; it has no whitespace at either end, and it is
   * empty exactly when `s` is all whitespace.
   */
  function Trim(s: string): (r: string)
    ensures IsTrimmed(r)
    ensures r == [] <==> AllWhitespace(s)
    ensures SurroundedBy(s, LeadingWhitespace(s), r)
  {
    var i := LeadingWhitespace(s);
    var rest := s[i..];
    var r := rest[..|rest| - TrailingWhitespace(rest)];
    TrimFacts(s, i, rest, r);
    r
  }

  lemma TrimFacts(s: string, i: nat, rest: string, r: string)
    requires i == LeadingWhitespace(s) && rest == s[i..]
    requires r == rest[..|rest| - TrailingWhitespace(rest)]
    ensures IsTrimmed(r)
    ensures r == [] <==> AllWhitespace(s)
    ensures SurroundedBy(s, i, r)
  {
    var j := TrailingWhitespace(rest);
    assert s[i..i + |r|] == r;
    assert s[i + |r|..] == rest[|rest| - j..];
    if r == [] {
      AllWhitespaceJoin(s, i);
    } else {
      assert r[0] == s[i];
      assert r[|r| - 1] == rest[|rest| - j - 1];
    }
  }

  /** A string whose two pieces around index `i` are whitespace is all whitespace. */
  lemma AllWhitespaceJoin(s: string, i: nat)
    requires i <= |s| && AllWhitespace(s[..i]) && AllWhitespace(s[i..])
    ensures AllWhitespace(s)
  {
    forall k | 0 <= k < |s| ensures IsJsWhitespace(s[k]) {
      if k < i {
        assert s[..i][k] == s[k];
      } else {
        assert s[i..][k - i] == s[k];
      }
    }
  }

  /** `s` is whitespace, then `r` starting at index `i`, then whitespace. */
  predicate SurroundedBy(s: string, i: int, r: string)
  {
    0 <= i && i + |r| <= |s| && s[i..i + |r|] == r
    && AllWhitespace(s[..i]) && AllWhitespace(s[i + |r|..])
  }

  /** The leading whitespace ends at the first character that is not whitespace. */
  lemma LeadingWhitespaceAt(s: string, i: nat)
    requires i < |s| && AllWhitespace(s[..i]) && !IsJsWhitespace(s[i])
    ensures LeadingWhitespace(s) == i
  {
    var n := LeadingWhitespace(s);
    assert forall k :: 0 <= k < i ==> s[..i][k] == s[k];
    assert forall k :: 0 <= k < n ==> s[..n][k] == s[k];
  }

  /** The trailing whitespace starts after the last character that is not whitespace. */
  lemma TrailingWhitespaceAt(s: string, m: nat)
    requires m < |s| && AllWhitespace(s[|s| - m..]) && !IsJsWhitespace(s[|s| - 1 - m])
    ensures TrailingWhitespace(s) == m
  {
    var n := TrailingWhitespace(s);
    assert forall k :: |s| - m <= k < |s| ==> s[|s| - m..][k - (|s| - m)] == s[k];
    assert forall k :: |s| - n <= k < |s| ==> s[|s| - n..][k - (|s| - n)] == s[k];
  }

  /**
   * The contract of `Trim` determines it: a trimmed string surrounded by
   * whitespace only is what `trim` returns.
   */
  lemma TrimUnique(s: string, i: int, t: string)
    requires SurroundedBy(s, i, t) && IsTrimmed(t)
    ensures Trim(s) == t
  {
    if t == [] {
      assert s == s[..i] + s[i..];
    } else {
      assert s[i] == t[0];
      LeadingWhitespaceAt(s, i);
      var rest := s[i..];
      var m := |rest| - |t|;
      assert rest[|rest| - m..] == s[i + |t|..];
      assert rest[|rest| - 1 - m] == t[|t| - 1];
      TrailingWhitespaceAt(rest, m);
    }
  }

  /** Trimming twice is trimming once; a trimmed string is its own trim. */
  lemma TrimIdempotent(s: string)
    ensures Trim(Trim(s)) == Trim(s)
  {
    TrimOfTrimmed(Trim(s));
  }

  lemma TrimOfTrimmed(t: string)
    requires IsTrimmed(t)
    ensures Trim(t) == t
  {
    assert SurroundedBy(t, 0, t) by {
      assert t[..0] == [] && t[|t|..] == [];
    }
    TrimUnique(t, 0, t);
  }

  /** A string has a non-whitespace character exactly when its trim is non-empty. */
  lemma TrimNonEmpty(s: string)
    ensures Trim(s) != [] <==> exists k :: 0 <= k < |s| && !IsJsWhitespace(s[k])
  {
  }

  /** `toLowerCase` on one character, over the ASCII letters. */
  function LowerChar(c: char): (r: char)
    ensures !('A' <= r <= 'Z')
    ensures 'A' <= c <= 'Z' ==> r as int == c as int + 32
    ensures !('A' <= c <= 'Z') ==> r == c
  {
    if 'A' <= c <= 'Z' then (c as int + 32) as char else c
  }

  /** `s.toLowerCase()`, character by character. */
  function Lower(s: string): (r: string)
    ensures |r| == |s|
    ensures forall k :: 0 <= k < |s| ==> r[k] == LowerChar(s[k])
  {
    if s == [] then [] else [LowerChar(s[0])] + Lower(s[1..])
  }

  /** Lowercasing is idempotent. */
  lemma LowerIdempotent(s: string)
    ensures Lower(Lower(s)) == Lower(s)
  {
  }

  /** `sub` occurs in `s` starting at index `i`. */
  predicate OccursAt(s: string, sub: string, i: int)
  {
    0 <= i && i + |sub| <= |s| && s[i..i + |sub|] == sub
  }

  /** `s.includes(sub)`: does `sub` occur in `s`, scanning from the left. */
  function Contains(s: string, sub: string): bool
  {
    sub <= s || (s != [] && Contains(s[1..], sub))
  }

  /** `Contains` finds `sub` exactly when `sub` occurs at some index of `s`. */
  lemma {:induction false} ContainsIff(s: string, sub: string)
    ensures Contains(s, sub) <==> exists i :: OccursAt(s, sub, i)
  {
    if sub <= s {
      assert OccursAt(s, sub, 0);
    } else if s == [] {
      assert forall i :: !OccursAt(s, sub, i);
    } else {
      ContainsIff(s[1..], sub);
      if Contains(s[1..], sub) {
        var i :| OccursAt(s[1..], sub, i);
        OccursInTail(s, sub, i);
      } else {
        forall i | OccursAt(s, sub, i) ensures false {
          OccursAtStart(s, sub);
          if i > 0 {
            OccursInTail(s, sub, i - 1);
          }
        }
      }
    }
  }

  /** An occurrence at index 0 is a prefix. */
  lemma OccursAtStart(s: string, sub: string)
    ensures OccursAt(s, sub, 0) <==> sub <= s
  {
  }

  /** Occurrences in the tail of `s` are the occurrences in `s` one index further on. */
  lemma OccursInTail(s: string, sub: string, i: int)
    requires s != [] && i >= 0
    ensures OccursAt(s[1..], sub, i) <==> OccursAt(s, sub, i + 1)
  {
    if 0 <= i && i + |sub| <= |s| - 1 {
      assert s[1..][i..i + |sub|] == s[i + 1..i + 1 + |sub|];
    }
  }

  /** Every string includes the empty string. */
  lemma ContainsEmpty(s: string)
    ensures Contains(s, [])
  {
  }
}
