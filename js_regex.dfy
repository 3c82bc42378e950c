/**
 * The pieces of ECMAScript regular-expression syntax that the user schema's
 * patterns are built from, each given as a predicate on a whole string.
 * The schema's patterns carry no flags: `^` and `$` anchor at the true start
 * and end of the input, `.` matches any UTF-16 code unit except a line
 * terminator, and `\d`, `\w` are the ASCII classes.
 */
module JsRegex {

  /** LineTerminator: the code points that `.` does not match without the `s` flag. */
  predicate IsLineTerminator(c: char) {
    c == '\n' || c == '\r' || c == '\U{2028}' || c == '\U{2029}'
  }

  /** `\s`: WhiteSpace (TAB, VT, FF, ZWNBSP and the space separators of category Zs) or a LineTerminator. */
  predicate IsSpace(c: char) {
    || c == '\t' || c == '\U{000B}' || c == '\U{000C}' || c == ' ' || c == '\U{00A0}'
    || c == '\U{1680}' || ('\U{2000}' <= c <= '\U{200A}') || c == '\U{202F}' || c == '\U{205F}'
    || c == '\U{3000}' || c == '\U{FEFF}'
    || IsLineTerminator(c)
  }

  /** `\d` */
  predicate IsDigit(c: char) { '0' <= c <= '9' }

  predicate IsLower(c: char) { 'a' <= c <= 'z' }

  predicate IsUpper(c: char) { 'A' <= c <= 'Z' }

  /** `\w`: letters, digits and the underscore, ASCII only. */
  predicate IsWordChar(c: char) { IsLower(c) || IsUpper(c) || IsDigit(c) || c == '_' }

  /** The character classes that occur in the schema's patterns. */
  datatype Class =
    | Digit         // \d
    | Alnum         // [a-zA-Z0-9]
    | Lower         // [a-z]
    | Upper         // [A-Z]
    | NonWord       // \W
    | NotSpaceOrAt  // [^\s@]

  predicate In(cls: Class, c: char) {
    match cls
    case Digit => IsDigit(c)
    case Alnum => IsLower(c) || IsUpper(c) || IsDigit(c)
    case Lower => IsLower(c)
    case Upper => IsUpper(c)
    case NonWord => !IsWordChar(c)
    case NotSpaceOrAt => !IsSpace(c) && c != '@'
  }

  /**
   * JavaScript strings are sequences of UTF-16 code units: a code point above
   * U+FFFF takes two. Its two halves are surrogates, which lie in `\W`, in
   * `[^\s@]` and in `.`, and in no other class above. A counted quantifier over
   * one of those three classes counts code units; the schema counts only `.`
   * (in `.{6,}`), and `DotsAtLeast` counts it by code units.
   */
  function CodeUnits(c: char): (n: nat)
    ensures 1 <= n <= 2
  {
    if c as int < 0x1_0000 then 1 else 2
  }

  function Utf16Length(s: string): nat {
    if s == [] then 0 else CodeUnits(s[0]) + Utf16Length(s[1..])
  }

  lemma {:induction false} Utf16LengthOfBmp(s: string)
    requires forall k :: 0 <= k < |s| ==> s[k] as int < 0x1_0000
    ensures Utf16Length(s) == |s|
  {
    if s != [] {
      Utf16LengthOfBmp(s[1..]);
    }
  }

  /**
   * `s` matches `^[cls]{n}$` for the classes without surrogates (`Digit`,
   * `Alnum`, `Lower`, `Upper`), which are the ones the schema repeats. For
   * `NonWord` and `NotSpaceOrAt` it counts code points, where JavaScript would
   * count a code point above U+FFFF twice.
   */
  predicate Repeat(cls: Class, n: nat, s: string)
    decreases n
  {
    if n == 0 then s == [] else s != [] && In(cls, s[0]) && Repeat(cls, n - 1, s[1..])
  }

  /** `s` matches `^[cls]+$`. */
  predicate Plus(cls: Class, s: string)
    decreases |s|
  {
    s != [] && In(cls, s[0]) && (|s| == 1 || Plus(cls, s[1..]))
  }

  /** `s` matches `^.{n,}$`; each `.` consumes one UTF-16 code unit. */
  predicate DotsAtLeast(n: nat, s: string)
    decreases |s|
  {
    if s == [] then n == 0
    else !IsLineTerminator(s[0]) && DotsAtLeast(if n <= CodeUnits(s[0]) then 0 else n - CodeUnits(s[0]), s[1..])
  }

  /** The lookahead `(?=.*[cls])` succeeds at the start of `s`. */
  predicate DotsThen(cls: Class, s: string)
    decreases |s|
  {
    s != [] && (In(cls, s[0]) || (!IsLineTerminator(s[0]) && DotsThen(cls, s[1..])))
  }

  lemma {:induction false} RepeatIff(cls: Class, n: nat, s: string)
    ensures Repeat(cls, n, s) <==> |s| == n && forall k :: 0 <= k < |s| ==> In(cls, s[k])
    decreases n
  {
    if n != 0 && s != [] {
      RepeatIff(cls, n - 1, s[1..]);
      assert forall k :: 1 <= k < |s| ==> s[k] == s[1..][k - 1];
    }
  }

  lemma {:induction false} PlusIff(cls: Class, s: string)
    ensures Plus(cls, s) <==> |s| > 0 && forall k :: 0 <= k < |s| ==> In(cls, s[k])
    decreases |s|
  {
    if |s| > 1 {
      PlusIff(cls, s[1..]);
      assert forall k :: 1 <= k < |s| ==> s[k] == s[1..][k - 1];
    }
  }

  lemma {:induction false} DotsAtLeastIff(n: nat, s: string)
    ensures DotsAtLeast(n, s) <==> Utf16Length(s) >= n && forall k :: 0 <= k < |s| ==> !IsLineTerminator(s[k])
    decreases |s|
  {
    if s != [] {
      var m := if n <= CodeUnits(s[0]) then 0 else n - CodeUnits(s[0]);
      DotsAtLeastIff(m, s[1..]);
      assert forall k :: 1 <= k < |s| ==> s[k] == s[1..][k - 1];
    }
  }

  lemma {:induction false} DotsThenIff(cls: Class, s: string)
    ensures DotsThen(cls, s) <==>
      exists k :: 0 <= k < |s| && In(cls, s[k]) && forall m :: 0 <= m < k ==> !IsLineTerminator(s[m])
    decreases |s|
  {
    if s != [] {
      DotsThenIff(cls, s[1..]);
      if DotsThen(cls, s) {
        if !In(cls, s[0]) {
          var k :| 0 <= k < |s[1..]| && In(cls, s[1..][k]) && forall m :: 0 <= m < k ==> !IsLineTerminator(s[1..][m]);
          assert forall m :: 0 <= m < k + 1 ==> !IsLineTerminator(s[m]) by {
            forall m | 0 <= m < k + 1 ensures !IsLineTerminator(s[m]) {
              if m > 0 { assert s[m] == s[1..][m - 1]; }
            }
          }
          assert In(cls, s[k + 1]);
        }
      } else {
        assert !In(cls, s[0]);
        forall k | 0 <= k < |s| && In(cls, s[k])
          ensures exists m :: 0 <= m < k && IsLineTerminator(s[m])
        {
          if !IsLineTerminator(s[0]) {
            assert s[1..][k - 1] == s[k];
            var m :| 0 <= m < k - 1 && IsLineTerminator(s[1..][m]);
            assert IsLineTerminator(s[m + 1]);
          }
        }
      }
    }
  }
}
