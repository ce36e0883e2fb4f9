/** The two JavaScript string operations the form checks rely on:
    `String.prototype.trim` and the `length` property.

    A Dafny `char` is a Unicode scalar value, while a JavaScript string is a
    sequence of UTF-16 code units. Every character `trim` removes lies in the
    Basic Multilingual Plane, so trimming code points and trimming code
    units agree; `length` counts code units, so a character outside the
    Basic Multilingual Plane counts twice. */
module JsString {

  /** WhiteSpace and LineTerminator of ECMA-262 (sections 12.2 and 12.3):
      tab, vertical tab, form feed, space, no-break space, the byte order
      mark, the space separators of Unicode category Zs, line feed,
      carriage return, line separator and paragraph separator. */
  predicate IsJsWhitespace(c: char) {
    c == '\U{0009}' || c == '\U{000A}' || c == '\U{000B}' || c == '\U{000C}' ||
    c == '\U{000D}' || c == '\U{0020}' || c == '\U{00A0}' || c == '\U{1680}' ||
    ('\U{2000}' <= c <= '\U{200A}') ||
    c == '\U{2028}' || c == '\U{2029}' || c == '\U{202F}' || c == '\U{205F}' ||
    c == '\U{3000}' || c == '\U{FEFF}'
  }

  predicate AllWhitespace(s: string) {
    forall i :: 0 <= i < |s| ==> IsJsWhitespace(s[i])
  }

  /** Removes the leading whitespace: what is left is a suffix of `s`, what
      was removed is whitespace, and what is left does not start with any. */
  function TrimStart(s: string): (t: string)
    ensures |t| <= |s| && t == s[|s| - |t|..]
    ensures AllWhitespace(s[..|s| - |t|])
    ensures t == [] || !IsJsWhitespace(t[0])
  {
    if |s| > 0 && IsJsWhitespace(s[0]) then
      var t := TrimStart(s[1..]);
      assert s[..|s| - |t|] == [s[0]] + s[1..][..|s| - 1 - |t|];
      t
    else
      s
  }

  /** Removes the trailing whitespace: what is left is a prefix of `s`, what
      was removed is whitespace, and what is left does not end with any. */
  function TrimEnd(s: string): (t: string)
    ensures |t| <= |s| && t == s[..|t|]
    ensures AllWhitespace(s[|t|..])
    ensures t == [] || !IsJsWhitespace(t[|t| - 1])
  {
    if |s| > 0 && IsJsWhitespace(s[|s| - 1]) then
      var t := TrimEnd(s[..|s| - 1]);
      assert s[|t|..] == s[..|s| - 1][|t|..] + [s[|s| - 1]];
      t
    else
      s
  }

  /** `s.trim()`: `s` with its leading and trailing whitespace cut off; what
      is left neither starts nor ends with whitespace, and is empty exactly
      when `s` is whitespace only. */
  function Trim(s: string): (t: string)
    ensures |t| <= |s|
    ensures exists i, j :: 0 <= i <= j <= |s| && t == s[i..j] && AllWhitespace(s[..i]) && AllWhitespace(s[j..])
    ensures t == [] <==> AllWhitespace(s)
    ensures t == [] || (!IsJsWhitespace(t[0]) && !IsJsWhitespace(t[|t| - 1]))
  {
    CutBothEnds(s, TrimStart(s), TrimEnd(TrimStart(s)));
    TrimEnd(TrimStart(s))
  }

  /** Cutting a whitespace prefix and then a whitespace suffix leaves a
      slice of `s` with whitespace on both sides of it. */
  lemma CutBothEnds(s: string, u: string, t: string)
    requires |u| <= |s| && u == s[|s| - |u|..] && AllWhitespace(s[..|s| - |u|])
    requires u == [] || !IsJsWhitespace(u[0])
    requires |t| <= |u| && t == u[..|t|] && AllWhitespace(u[|t|..])
    ensures var i := |s| - |u|;
      && i + |t| <= |s| && t == s[i..i + |t|]
      && AllWhitespace(s[..i]) && AllWhitespace(s[i + |t|..])
    ensures t == [] <==> AllWhitespace(s)
  {
    var i := |s| - |u|;
    assert u[..|t|] == s[i..i + |t|];
    assert u[|t|..] == s[i + |t|..];
    if t == [] {
      assert u == [];
      assert s == s[..i];
    } else {
      assert s[i] == t[0];
    }
  }

  /** Evaluates `!s.trim()`: the trimmed string is the empty, falsy string
      exactly when `s` is whitespace only. */
  method IsBlank(s: string) returns (blank: bool)
    ensures blank <==> AllWhitespace(s)
  {
    blank := Trim(s) == [];
  }

  /** The number of UTF-16 code units a character is encoded with. */
  function Utf16Units(c: char): (units: nat) {
    if c as int >= 0x1_0000 then 2 else 1
  }

  /** `s.length`: between one and two code units per character, and exactly
      one per character when every character is in the Basic Multilingual
      Plane. */
  function Utf16Length(s: string): (n: nat)
    ensures |s| <= n <= 2 * |s|
    ensures n == |s| <==> forall i :: 0 <= i < |s| ==> s[i] as int < 0x1_0000
  {
    if s == [] then 0 else
      var n := Utf16Units(s[0]) + Utf16Length(s[1..]);
      assert (forall i :: 0 <= i < |s| ==> s[i] as int < 0x1_0000) <==>
             s[0] as int < 0x1_0000 && (forall i :: 0 <= i < |s[1..]| ==> s[1..][i] as int < 0x1_0000)
      by {
        if forall i :: 0 <= i < |s[1..]| ==> s[1..][i] as int < 0x1_0000 {
          forall i | 1 <= i < |s| ensures s[i] as int < 0x1_0000 {
            assert s[i] == s[1..][i - 1];
          }
        }
      }
      n
  }

  /** The length of a concatenation is the sum of the lengths; with
      Utf16LengthOfChar this fixes the length of every string. */
  lemma {:induction false} Utf16LengthAppend(a: string, b: string)
    ensures Utf16Length(a + b) == Utf16Length(a) + Utf16Length(b)
  {
    if a == [] {
      assert a + b == b;
    } else {
      assert (a + b)[0] == a[0];
      assert (a + b)[1..] == a[1..] + b;
      Utf16LengthAppend(a[1..], b);
    }
  }

  /** A single character is one code unit, or a surrogate pair of two when
      it lies outside the Basic Multilingual Plane. */
  lemma Utf16LengthOfChar(c: char)
    ensures Utf16Length([c]) == if c as int >= 0x1_0000 then 2 else 1
  {
    assert [c][1..] == [];
  }

  /** An emoji outside the Basic Multilingual Plane counts twice: "a" and
      an emoji are three code units, still short of four, while "ab" and an
      emoji are four code units although they are only three characters. */
  lemma Utf16LengthOfEmojiExamples()
    ensures Utf16Length(['a', '\U{1F600}']) == 3
    ensures Utf16Length(['a', 'b', '\U{1F600}']) == 4
  {
    Utf16LengthOfChar('a');
    Utf16LengthOfChar('b');
    Utf16LengthOfChar('\U{1F600}');
    Utf16LengthAppend(['a'], ['\U{1F600}']);
    Utf16LengthAppend(['a'], ['b']);
    Utf16LengthAppend(['a', 'b'], ['\U{1F600}']);
    assert ['a'] + ['\U{1F600}'] == ['a', '\U{1F600}'];
    assert ['a'] + ['b'] == ['a', 'b'];
    assert ['a', 'b'] + ['\U{1F600}'] == ['a', 'b', '\U{1F600}'];
  }
}
