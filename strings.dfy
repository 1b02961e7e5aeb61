/** The JavaScript string primitives the backend relies on: `trim()`,
    `toLowerCase()`, `split(' ')`, and the regular-expression classes `\s`,
    `\S` and `\d` of the schema and route patterns. */
module Strings {
  import opened Common

  /** What `String.prototype.trim` strips and `\s` matches: the ECMAScript
      white space and line terminator characters. */
  predicate IsSpace(c: char)
  {
    || c == ' ' || c == '\t' || c == '\n' || c == '\r'
    || c == '\U{000B}' || c == '\U{000C}' || c == '\U{00A0}' || c == '\U{1680}'
    || ('\U{2000}' <= c <= '\U{200A}')
    || c == '\U{2028}' || c == '\U{2029}' || c == '\U{202F}' || c == '\U{205F}'
    || c == '\U{3000}' || c == '\U{FEFF}'
  }

  predicate AllSpace(s: string)
  {
    forall k :: 0 <= k < |s| ==> IsSpace(s[k])
  }

  predicate NoSpace(s: string)
  {
    forall k :: 0 <= k < |s| ==> !IsSpace(s[k])
  }

  // ---------------------------------------------------------------------
  // trim()
  // ---------------------------------------------------------------------

  /** Length of the run of white space that opens `s`. */
  function LeadingSpace(s: string): (n: nat)
    ensures n <= |s|
    ensures forall k :: 0 <= k < n ==> IsSpace(s[k])
    ensures n < |s| ==> !IsSpace(s[n])
  {
    if s == [] || !IsSpace(s[0]) then 0 else 1 + LeadingSpace(s[1..])
  }

  /** Length of the run of white space that closes `s`. */
  function TrailingSpace(s: string): (n: nat)
    ensures n <= |s|
    ensures forall k :: |s| - n <= k < |s| ==> IsSpace(s[k])
    ensures n < |s| ==> !IsSpace(s[|s| - 1 - n])
  {
    if s == [] || !IsSpace(s[|s| - 1]) then 0 else 1 + TrailingSpace(s[..|s| - 1])
  }

  /** `t` is `s` with white space removed at both ends and nowhere else. */
  ghost predicate IsTrimOf(t: string, s: string)
  {
    && (t == [] || (!IsSpace(t[0]) && !IsSpace(t[|t| - 1])))
    && exists i :: 0 <= i <= |s| - |t| && s[i..i + |t|] == t
                   && AllSpace(s[..i]) && AllSpace(s[i + |t|..])
  }

  /** `s.trim()`, what the schemas' `trim: true` setter stores. */
  function Trim(s: string): (t: string)
    ensures |t| <= |s|
  {
    var i := LeadingSpace(s);
    var rest := s[i..];
    rest[..|rest| - TrailingSpace(rest)]
  }

  /** `trim()` strips white space at both ends and nowhere else. */
  lemma TrimStrips(s: string)
    ensures IsTrimOf(Trim(s), s)
  {
    var i := LeadingSpace(s);
    var rest := s[i..];
    var j := TrailingSpace(rest);
    var t := rest[..|rest| - j];
    assert t == Trim(s);
    assert s[i..i + |t|] == t;
    assert AllSpace(s[..i]);
    assert s[i + |t|..] == rest[|rest| - j..];
  }

  /** `trim()` is the only way to strip `s` at both ends: any string that
      strips it that way is `Trim(s)`. */
  lemma TrimUnique(s: string, t: string)
    requires IsTrimOf(t, s)
    ensures t == Trim(s)
  {
    var i :| 0 <= i <= |s| - |t| && s[i..i + |t|] == t
             && AllSpace(s[..i]) && AllSpace(s[i + |t|..]);
    var e := i + |t|;
    assert forall k :: 0 <= k < i ==> s[..i][k] == s[k];
    assert forall k :: e <= k < |s| ==> s[e..][k - e] == s[k];
    assert i < e ==> s[i] == t[0] && s[e - 1] == t[|t| - 1];
    TrimAt(s, i, e);
  }

  /** If `s[..i]` and `s[e..]` are white space and `s[i..e]` neither starts
      nor ends with it, then `s[i..e]` is `Trim(s)`. */
  lemma TrimAt(s: string, i: nat, e: nat)
    requires i <= e <= |s|
    requires forall k :: 0 <= k < i ==> IsSpace(s[k])
    requires forall k :: e <= k < |s| ==> IsSpace(s[k])
    requires i < e ==> !IsSpace(s[i]) && !IsSpace(s[e - 1])
    ensures Trim(s) == s[i..e]
  {
    var n := LeadingSpace(s);
    if i == e {
      assert n == |s|;
    } else {
      assert n == i;
      var rest := s[i..];
      var m := TrailingSpace(rest);
      assert m == |s| - e;
      assert rest[..|rest| - m] == s[i..e];
    }
  }

  /** Trimming twice is trimming once. */
  lemma TrimIdempotent(s: string)
    ensures Trim(Trim(s)) == Trim(s)
  {
    var t := Trim(s);
    TrimStrips(s);
    assert t[0..0 + |t|] == t;
    assert t[..0] == [] && t[|t|..] == [];
    TrimUnique(t, t);
  }

  // ---------------------------------------------------------------------
  // String lengths
  // ---------------------------------------------------------------------

  /** Outside the Basic Multilingual Plane: written in UTF-16 as a
      surrogate pair. */
  predicate IsAstral(c: char)
  {
    c as int >= 0x10000
  }

  /** A variation selector, U+FE0E or U+FE0F. */
  predicate IsVariationSelector(c: char)
  {
    c == '\U{FE0E}' || c == '\U{FE0F}'
  }

  /** `s.length`, what Mongoose's `minlength` and `maxlength` compare: UTF-16
      code units, two for an astral character. */
  function Utf16Length(s: string): (n: nat)
    ensures |s| <= n <= 2 * |s|
    ensures n == |s| <==> forall k :: 0 <= k < |s| ==> !IsAstral(s[k])
    ensures n == 2 * |s| <==> forall k :: 0 <= k < |s| ==> IsAstral(s[k])
  {
    if s == [] then 0 else Utf16Length(s[..|s| - 1]) + (if IsAstral(s[|s| - 1]) then 2 else 1)
  }

  /** What express-validator's `isLength` counts: `s.length` less one per
      surrogate pair and one per variation selector, that is, the code
      points other than U+FE0E and U+FE0F. */
  function ValidatorLength(s: string): (n: nat)
    ensures n <= |s|
    ensures n == |s| <==> forall k :: 0 <= k < |s| ==> !IsVariationSelector(s[k])
  {
    if s == [] then 0 else ValidatorLength(s[..|s| - 1]) + (if IsVariationSelector(s[|s| - 1]) then 0 else 1)
  }

  /** The route counts no more than Mongoose does, so a minimum length the
      route accepts the schema accepts too. */
  lemma ValidatorLengthAtMostUtf16(s: string)
    ensures ValidatorLength(s) <= Utf16Length(s)
  {
  }

  // ---------------------------------------------------------------------
  // toLowerCase()
  // ---------------------------------------------------------------------

  predicate IsUpper(c: char)
  {
    'A' <= c <= 'Z'
  }

  function LowerChar(c: char): (d: char)
    ensures !IsUpper(d)
    ensures !IsUpper(c) ==> d == c
  {
    if IsUpper(c) then (c as int + 32) as char else c
  }

  /** `s.toLowerCase()` on the ASCII letters, what the vendor schema's
      `lowercase: true` setter stores. */
  function Lower(s: string): (r: string)
    ensures |r| == |s|
    ensures forall k :: 0 <= k < |r| ==> !IsUpper(r[k])
    ensures forall k :: 0 <= k < |r| ==> r[k] == s[k] || IsUpper(s[k])
  {
    seq(|s|, k requires 0 <= k < |s| => LowerChar(s[k]))
  }

  lemma LowerIdempotent(s: string)
    ensures Lower(Lower(s)) == Lower(s)
  {
  }

  // ---------------------------------------------------------------------
  // split(' ')
  // ---------------------------------------------------------------------

  /** `s.split(' ')`: the pieces between single spaces, so `n` spaces give
      `n + 1` pieces, and two adjacent spaces give an empty piece. */
  function SplitSpace(s: string): (parts: seq<string>)
    ensures |parts| >= 1
    ensures forall k :: 0 <= k < |parts| ==> ' ' !in parts[k]
  {
    if s == [] then [[]]
    else
      var rest := SplitSpace(s[1..]);
      if s[0] == ' ' then [[]] + rest
      else [[s[0]] + rest[0]] + rest[1..]
  }

  /** `parts.join(' ')`, the inverse of `SplitSpace`. */
  function JoinSpace(parts: seq<string>): string
    requires |parts| >= 1
  {
    if |parts| == 1 then parts[0] else parts[0] + " " + JoinSpace(parts[1..])
  }

  lemma {:induction false} SplitThenJoin(s: string)
    ensures JoinSpace(SplitSpace(s)) == s
  {
    if s != [] {
      var rest := SplitSpace(s[1..]);
      SplitThenJoin(s[1..]);
      if s[0] == ' ' {
        assert ([[]] + rest)[1..] == rest;
      } else {
        var parts := [[s[0]] + rest[0]] + rest[1..];
        if |rest| > 1 {
          assert parts[1..] == rest[1..];
          assert JoinSpace(rest) == rest[0] + " " + JoinSpace(rest[1..]);
        }
      }
    }
  }

  lemma {:induction false} JoinThenSplit(parts: seq<string>)
    requires |parts| >= 1
    requires forall k :: 0 <= k < |parts| ==> ' ' !in parts[k]
    ensures SplitSpace(JoinSpace(parts)) == parts
  {
    if |parts| == 1 {
      NoSpaceSplit(parts[0]);
    } else {
      JoinThenSplit(parts[1..]);
      SplitAfterWord(parts[0], JoinSpace(parts[1..]));
      assert [parts[0]] + parts[1..] == parts;
    }
  }

  /** A string without a space splits into itself. */
  lemma {:induction false} NoSpaceSplit(w: string)
    requires ' ' !in w
    ensures SplitSpace(w) == [w]
  {
    if w != [] {
      NoSpaceSplit(w[1..]);
      assert [w[0]] + w[1..] == w;
    }
  }

  /** A word without a space, then a space, then anything: the word is the
      first piece and the rest splits on its own. */
  lemma {:induction false} SplitAfterWord(w: string, rest: string)
    requires ' ' !in w
    ensures SplitSpace(w + " " + rest) == [w] + SplitSpace(rest)
  {
    if w == [] {
      assert w + " " + rest == [' '] + rest;
      assert (w + " " + rest)[1..] == rest;
    } else {
      var s := w + " " + rest;
      assert s[1..] == w[1..] + " " + rest;
      SplitAfterWord(w[1..], rest);
      assert [w[0]] + w[1..] == w;
    }
  }

  // ---------------------------------------------------------------------
  // The patterns of the schemas and routes
  // ---------------------------------------------------------------------

  /** `/^[6-9]\d{9}$/`: an Indian mobile number, ten digits, the first of
      them 6 to 9. */
  predicate IsIndianPhone(s: string)
  {
    |s| == 10 && '6' <= s[0] <= '9' && forall k :: 1 <= k < 10 ==> IsDigit(s[k])
  }

  /** `/^\S+@\S+\.\S+$/`: no white space anywhere, an `@` after at least one
      character, and a `.` at least one character after the `@` with at
      least one character after it. */
  predicate IsEmailShaped(s: string)
  {
    && NoSpace(s)
    && exists i, j :: 0 < i && i + 1 < j < |s| - 1 && s[i] == '@' && s[j] == '.'
  }

  /** The pattern matches three non-empty space-free words joined by `@`
      and `.`. */
  lemma EmailShapeParts(local: string, domain: string, tld: string)
    requires local != [] && domain != [] && tld != []
    requires NoSpace(local) && NoSpace(domain) && NoSpace(tld)
    ensures IsEmailShaped(local + "@" + domain + "." + tld)
  {
    var s := local + "@" + domain + "." + tld;
    var i, j := |local|, |local| + 1 + |domain|;
    assert s[i] == '@' && s[j] == '.';
    forall k | 0 <= k < |s| ensures !IsSpace(s[k]) {
      if k < i { assert s[k] == local[k]; }
      else if i < k < j { assert s[k] == domain[k - i - 1]; }
      else if j < k { assert s[k] == tld[k - j - 1]; }
    }
  }
}
