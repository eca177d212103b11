/** The JavaScript string operations the chat component relies on:
    `String.prototype.trim`, `String.prototype.toLowerCase` and
    `String.prototype.includes`, on strings as sequences of Unicode scalar
    values (JavaScript's UTF-16 code units are not modelled). */
module Text {

  /** The characters `trim` removes: ECMAScript WhiteSpace (tab, vertical tab,
      form feed, zero-width no-break space and the Unicode space separators)
      and LineTerminator (line feed, carriage return, line and paragraph
      separators). */
  predicate IsSpace(c: char)
  {
    c == ' ' || c == '\t' || c == '\n' || c == '\r' ||
    c == '\U{000B}' || c == '\U{000C}' || c == '\U{00A0}' || c == '\U{1680}' ||
    ('\U{2000}' <= c <= '\U{200A}') ||
    c == '\U{2028}' || c == '\U{2029}' || c == '\U{202F}' || c == '\U{205F}' ||
    c == '\U{3000}' || c == '\U{FEFF}'
  }

  /** Number of leading whitespace characters of `s`. */
  function LeadingSpaces(s: string): (n: nat)
    ensures n <= |s|
    ensures forall k :: 0 <= k < n ==> IsSpace(s[k])
    ensures n < |s| ==> !IsSpace(s[n])
  {
    if |s| > 0 && IsSpace(s[0]) then 1 + LeadingSpaces(s[1..]) else 0
  }

  /** Length of `s` once its trailing whitespace is dropped. */
  function WithoutTrailingSpaces(s: string): (m: nat)
    ensures m <= |s|
    ensures forall k :: m <= k < |s| ==> IsSpace(s[k])
    ensures m > 0 ==> !IsSpace(s[m - 1])
  {
    if |s| > 0 && IsSpace(s[|s| - 1]) then WithoutTrailingSpaces(s[..|s| - 1]) else |s|
  }

  /** `s.trim()`: `s` without its leading and trailing whitespace. */
  function Trim(s: string): string
  {
    var t := s[LeadingSpaces(s)..];
    t[..WithoutTrailingSpaces(t)]
  }

  /** `trim` keeps exactly the stretch of `s` between its first and its last
      non-whitespace character: what it drops on either side is whitespace,
      and what it keeps neither starts nor ends with whitespace. */
  lemma TrimSlice(s: string)
    ensures var i := LeadingSpaces(s); var r := Trim(s);
      i + |r| <= |s| && r == s[i..i + |r|] &&
      (forall k :: 0 <= k < i ==> IsSpace(s[k])) &&
      (forall k :: i + |r| <= k < |s| ==> IsSpace(s[k])) &&
      (r != [] ==> !IsSpace(r[0]) && !IsSpace(r[|r| - 1]))
  {
    var i := LeadingSpaces(s);
    var t := s[i..];
    var m := WithoutTrailingSpaces(t);
    assert Trim(s) == s[i..i + m];
    forall k | i + m <= k < |s| ensures IsSpace(s[k]) {
      assert s[k] == t[k - i];
    }
  }

  /** A string trims to the empty string exactly when it is all whitespace,
      so the truthiness test `s.trim()` asks for a non-whitespace character. */
  lemma TrimEmptyIff(s: string)
    ensures Trim(s) == [] <==> forall k :: 0 <= k < |s| ==> IsSpace(s[k])
  {
    TrimSlice(s);
  }

  /** Trimming twice is trimming once. */
  lemma TrimIdempotent(s: string)
    ensures Trim(Trim(s)) == Trim(s)
  {
    TrimSlice(s);
    var r := Trim(s);
    TrimSlice(r);
    if r != [] {
      assert LeadingSpaces(r) == 0;
      var t := r[LeadingSpaces(r)..];
      assert t == r;
      assert WithoutTrailingSpaces(t) == |t|;
    }
  }

  /** `s` is non-empty and neither starts nor ends with whitespace. */
  ghost predicate TrimmedNonEmpty(s: string)
  {
    s != [] && !IsSpace(s[0]) && !IsSpace(s[|s| - 1])
  }

  /** The strings `trim` leaves as they are, other than the empty one, are
      exactly those that neither start nor end with whitespace. */
  lemma TrimmedNonEmptyIff(s: string)
    ensures TrimmedNonEmpty(s) <==> s != [] && Trim(s) == s
  {
    TrimSlice(s);
    if TrimmedNonEmpty(s) {
      assert LeadingSpaces(s) == 0;
      assert s[0..] == s;
    }
  }

  /** A non-empty trimmed string neither starts nor ends with whitespace. */
  lemma TrimIsTrimmed(s: string)
    requires Trim(s) != []
    ensures TrimmedNonEmpty(Trim(s))
  {
    TrimSlice(s);
  }

  predicate IsUpper(c: char)
  {
    'A' <= c <= 'Z'
  }

  /** `toLowerCase` on one character, for the ASCII letters only. */
  function LowerChar(c: char): char
  {
    if IsUpper(c) then (c as int + 32) as char else c
  }

  /** `s.toLowerCase()`, character by character. */
  function Lower(s: string): (r: string)
    ensures |r| == |s|
    ensures forall k :: 0 <= k < |s| ==> r[k] == LowerChar(s[k])
  {
    seq(|s|, k requires 0 <= k < |s| => LowerChar(s[k]))
  }

  /** Lower-casing leaves no upper-case letter behind and is idempotent. */
  lemma LowerIdempotent(s: string)
    ensures forall k :: 0 <= k < |s| ==> !IsUpper(Lower(s)[k])
    ensures Lower(Lower(s)) == Lower(s)
  {
  }

  /** A lower-case letter that occurs in `s` neither as itself nor as its
      upper-case form does not occur in the lower-cased `s`. */
  lemma LowerMissing(s: string, c: char, upper: char)
    requires 'a' <= c <= 'z' && upper as int == c as int - 32
    requires c !in s && upper !in s
    ensures c !in Lower(s)
  {
    forall k | 0 <= k < |s| ensures Lower(s)[k] != c {
      assert s[k] in s;
    }
  }

  /** A string without upper-case letters is its own lower-case form. */
  lemma LowerOfLower(s: string)
    requires forall k :: 0 <= k < |s| ==> !IsUpper(s[k])
    ensures Lower(s) == s
  {
  }

  /** `s.includes(t)`: `t` occurs in `s` as a contiguous piece. */
  function Contains(s: string, t: string): bool
    decreases |s|
  {
    if |t| > |s| then false
    else if s[..|t|] == t then true
    else Contains(s[1..], t)
  }

  /** `t` occurs in `s` starting at offset `i`. */
  ghost predicate OccursAt(s: string, t: string, i: nat)
  {
    i + |t| <= |s| && s[i..i + |t|] == t
  }

  /** `Contains` agrees with the definition of an occurrence at some offset. */
  lemma {:induction false} ContainsIff(s: string, t: string)
    ensures Contains(s, t) <==> exists i: nat :: OccursAt(s, t, i)
    decreases |s|
  {
    if |t| > |s| {
    } else if s[..|t|] == t {
      assert OccursAt(s, t, 0);
    } else {
      ContainsIff(s[1..], t);
      forall i: nat | 1 <= i ensures OccursAt(s, t, i) <==> OccursAt(s[1..], t, i - 1) {
        if i + |t| <= |s| {
          assert s[1..][i - 1..i - 1 + |t|] == s[i..i + |t|];
        }
      }
      assert !OccursAt(s, t, 0);
      if Contains(s, t) {
        var j: nat :| OccursAt(s[1..], t, j);
        assert OccursAt(s, t, j + 1);
      }
    }
  }

  /** Every string includes the empty string. */
  lemma ContainsEmpty(s: string)
    ensures Contains(s, [])
  {
    ContainsIff(s, []);
    assert OccursAt(s, [], 0);
  }

  /** A string that lacks one of the characters of `t` does not include `t`. */
  lemma ContainsOnlyPresentChars(s: string, t: string, k: nat)
    requires k < |t| && t[k] !in s
    ensures !Contains(s, t)
  {
    ContainsIff(s, t);
    forall i: nat ensures !OccursAt(s, t, i) {
      if i + |t| <= |s| {
        assert s[i..i + |t|][k] == s[i + k];
      }
    }
  }
}
