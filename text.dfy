/**
  String helpers used by the parsers and by the formatting of sample names:
  Unicode whitespace and trimming (Rust's `char::is_whitespace`, `str::trim`),
  ASCII case mapping, UTF-8 byte length (`str::len`), `str::split` on one
  character, and decimal formatting of naturals (`format!("{}", n)`).
*/
module Text {

  /** Rust's `char::is_whitespace`: the Unicode White_Space property. */
  predicate IsWhitespace(c: char) {
    var n := c as int;
    n == 0x20 || (0x09 <= n <= 0x0D) || n == 0x85 || n == 0xA0 || n == 0x1680
    || (0x2000 <= n <= 0x200A) || n == 0x2028 || n == 0x2029 || n == 0x202F
    || n == 0x205F || n == 0x3000
  }

  /** Drop leading whitespace. */
  function TrimStart(s: string): string
    decreases |s|
  {
    if s != [] && IsWhitespace(s[0]) then TrimStart(s[1..]) else s
  }

  /** Drop trailing whitespace. */
  function TrimEnd(s: string): string
    decreases |s|
  {
    if s != [] && IsWhitespace(s[|s| - 1]) then TrimEnd(s[..|s| - 1]) else s
  }

  /** Leading whitespace only is dropped, and all of it. */
  lemma {:induction false} TrimStartMeaning(s: string)
    ensures |TrimStart(s)| <= |s| && TrimStart(s) == s[|s| - |TrimStart(s)|..]
    ensures TrimStart(s) == [] || !IsWhitespace(TrimStart(s)[0])
    ensures forall i :: 0 <= i < |s| - |TrimStart(s)| ==> IsWhitespace(s[i])
    decreases |s|
  {
    if s != [] && IsWhitespace(s[0]) {
      TrimStartMeaning(s[1..]);
      assert forall i :: 1 <= i < |s| ==> s[i] == s[1..][i - 1];
    }
  }

  /** Trailing whitespace only is dropped, and all of it. */
  lemma {:induction false} TrimEndMeaning(s: string)
    ensures |TrimEnd(s)| <= |s| && TrimEnd(s) == s[..|TrimEnd(s)|]
    ensures TrimEnd(s) == [] || !IsWhitespace(TrimEnd(s)[|TrimEnd(s)| - 1])
    ensures forall i :: |TrimEnd(s)| <= i < |s| ==> IsWhitespace(s[i])
    decreases |s|
  {
    if s != [] && IsWhitespace(s[|s| - 1]) {
      TrimEndMeaning(s[..|s| - 1]);
    }
  }

  /** Rust's `str::trim`. */
  function Trim(s: string): (r: string)
  {
    TrimEnd(TrimStart(s))
  }

  /** A trimmed string starts and ends with a non-whitespace character, and
      trimming it again changes nothing. */
  lemma TrimIdempotent(s: string)
    ensures Trim(s) == [] || (!IsWhitespace(Trim(s)[0]) && !IsWhitespace(Trim(s)[|Trim(s)| - 1]))
    ensures Trim(Trim(s)) == Trim(s)
  {
    var t := TrimStart(s);
    var r := TrimEnd(t);
    TrimStartMeaning(s);
    TrimEndMeaning(t);
    if r != [] {
      assert r[0] == t[0];
      assert TrimStart(r) == r;
    }
  }

  /** A string whose trimmed form is empty consists of whitespace only. */
  lemma TrimEmptyIffBlank(s: string)
    ensures Trim(s) == [] <==> forall i :: 0 <= i < |s| ==> IsWhitespace(s[i])
  {
    TrimStartMeaning(s);
    TrimEndMeaning(TrimStart(s));
  }

  function LowerChar(c: char): char {
    if 'A' <= c <= 'Z' then (c as int + 32) as char else c
  }

  function UpperChar(c: char): char {
    if 'a' <= c <= 'z' then (c as int - 32) as char else c
  }

  /** `str::to_lowercase` restricted to ASCII letters; other characters are kept. */
  function ToLower(s: string): (r: string)
    ensures |r| == |s|
    decreases |s|
  {
    if s == [] then [] else [LowerChar(s[0])] + ToLower(s[1..])
  }

  /** `str::to_uppercase` restricted to ASCII letters; other characters are kept. */
  function ToUpper(s: string): (r: string)
    ensures |r| == |s|
    decreases |s|
  {
    if s == [] then [] else [UpperChar(s[0])] + ToUpper(s[1..])
  }

  /** Both case mappings work character by character. */
  lemma {:induction false} CaseChars(s: string)
    ensures forall i :: 0 <= i < |s| ==> ToLower(s)[i] == LowerChar(s[i])
    ensures forall i :: 0 <= i < |s| ==> ToUpper(s)[i] == UpperChar(s[i])
    decreases |s|
  {
    if s != [] {
      CaseChars(s[1..]);
      assert forall i :: 1 <= i < |s| ==> s[i] == s[1..][i - 1];
    }
  }

  /** Upper-casing forgets any earlier lower-casing and vice versa. */
  lemma CaseFolding(s: string)
    ensures ToUpper(ToLower(s)) == ToUpper(s)
    ensures ToLower(ToUpper(s)) == ToLower(s)
  {
    CaseChars(s);
    CaseChars(ToLower(s));
    CaseChars(ToUpper(s));
  }

  /** Case mapping never turns whitespace into non-whitespace or back. */
  lemma CaseKeepsWhitespace(c: char)
    ensures IsWhitespace(LowerChar(c)) <==> IsWhitespace(c)
    ensures IsWhitespace(UpperChar(c)) <==> IsWhitespace(c)
  {
  }

  lemma {:induction false} TrimStartLower(s: string)
    ensures TrimStart(ToLower(s)) == ToLower(TrimStart(s))
    decreases |s|
  {
    if s != [] {
      var t := ToLower(s);
      CaseKeepsWhitespace(s[0]);
      if IsWhitespace(s[0]) {
        assert t[1..] == ToLower(s[1..]);
        TrimStartLower(s[1..]);
        assert TrimStart(t) == TrimStart(t[1..]);
      } else {
        assert !IsWhitespace(t[0]);
        assert TrimStart(t) == t;
      }
    }
  }

  lemma {:induction false} TrimEndLower(s: string)
    ensures TrimEnd(ToLower(s)) == ToLower(TrimEnd(s))
    decreases |s|
  {
    if s != [] {
      var t := ToLower(s);
      CaseChars(s);
      CaseKeepsWhitespace(s[|s| - 1]);
      if IsWhitespace(s[|s| - 1]) {
        CaseChars(s[..|s| - 1]);
        assert t[..|s| - 1] == ToLower(s[..|s| - 1]);
        TrimEndLower(s[..|s| - 1]);
        assert TrimEnd(t) == TrimEnd(t[..|t| - 1]);
      } else {
        assert !IsWhitespace(t[|t| - 1]);
        assert TrimEnd(t) == t;
      }
    }
  }

  lemma {:induction false} TrimStartUpper(s: string)
    ensures TrimStart(ToUpper(s)) == ToUpper(TrimStart(s))
    decreases |s|
  {
    if s != [] {
      var t := ToUpper(s);
      CaseKeepsWhitespace(s[0]);
      if IsWhitespace(s[0]) {
        assert t[1..] == ToUpper(s[1..]);
        TrimStartUpper(s[1..]);
        assert TrimStart(t) == TrimStart(t[1..]);
      } else {
        assert !IsWhitespace(t[0]);
        assert TrimStart(t) == t;
      }
    }
  }

  lemma {:induction false} TrimEndUpper(s: string)
    ensures TrimEnd(ToUpper(s)) == ToUpper(TrimEnd(s))
    decreases |s|
  {
    if s != [] {
      var t := ToUpper(s);
      CaseChars(s);
      CaseKeepsWhitespace(s[|s| - 1]);
      if IsWhitespace(s[|s| - 1]) {
        CaseChars(s[..|s| - 1]);
        assert t[..|s| - 1] == ToUpper(s[..|s| - 1]);
        TrimEndUpper(s[..|s| - 1]);
        assert TrimEnd(t) == TrimEnd(t[..|t| - 1]);
      } else {
        assert !IsWhitespace(t[|t| - 1]);
        assert TrimEnd(t) == t;
      }
    }
  }

  /** Trimming commutes with both case mappings. */
  lemma TrimCase(s: string)
    ensures Trim(ToLower(s)) == ToLower(Trim(s))
    ensures Trim(ToUpper(s)) == ToUpper(Trim(s))
  {
    TrimStartLower(s);
    TrimEndLower(TrimStart(s));
    TrimStartUpper(s);
    TrimEndUpper(TrimStart(s));
  }

  /** One space of padding on each side is trimmed away again. */
  lemma TrimPadded(s: string)
    requires s != [] && !IsWhitespace(s[0]) && !IsWhitespace(s[|s| - 1])
    ensures Trim(" " + s + " ") == s
  {
    var p := " " + s + " ";
    assert p[1..] == s + " ";
    assert TrimStart(s + " ") == s + " ";
    assert (s + " ")[..|s|] == s;
    assert TrimEnd(s) == s;
  }

  /** Lower-casing leaves the padding spaces alone. */
  lemma LowerPadded(s: string)
    ensures ToLower(" " + s + " ") == " " + ToLower(s) + " "
  {
    CaseChars(" " + s + " ");
    CaseChars(s);
  }

  /** Small ASCII letters only. */
  predicate SmallLetters(s: string)
    decreases |s|
  {
    s == [] || ('a' <= s[0] <= 'z' && SmallLetters(s[1..]))
  }

  lemma {:induction false} SmallLettersChars(s: string)
    requires SmallLetters(s)
    ensures forall i :: 0 <= i < |s| ==> 'a' <= s[i] <= 'z'
    decreases |s|
  {
    if s != [] {
      SmallLettersChars(s[1..]);
      assert forall i :: 1 <= i < |s| ==> s[i] == s[1..][i - 1];
    }
  }

  /** Small letters are their own trimmed and their own lower-case form. */
  lemma SmallLettersFixed(s: string)
    requires SmallLetters(s)
    ensures Trim(s) == s
    ensures ToLower(s) == s
  {
    SmallLettersTrim(s);
    SmallLettersLower(s);
  }

  lemma SmallLettersTrim(s: string)
    requires SmallLetters(s)
    ensures Trim(s) == s
  {
    if s != [] {
      SmallLettersChars(s);
      var c, d := s[0], s[|s| - 1];
      assert 'a' <= c <= 'z' && 'a' <= d <= 'z';
      assert !IsWhitespace(c) && !IsWhitespace(d);
      assert TrimStart(s) == s;
    }
  }

  lemma {:induction false} SmallLettersLower(s: string)
    requires SmallLetters(s)
    ensures ToLower(s) == s
    decreases |s|
  {
    if s != [] {
      SmallLettersLower(s[1..]);
      assert [s[0]] + s[1..] == s;
    }
  }

  /** Number of bytes of the UTF-8 encoding of one character. */
  function Utf8Width(c: char): (w: nat)
    ensures 1 <= w <= 4
    ensures w == 1 <==> c as int < 0x80
  {
    var n := c as int;
    if n < 0x80 then 1 else if n < 0x800 then 2 else if n < 0x10000 then 3 else 4
  }

  /** Rust's `str::len`: the length in bytes of the UTF-8 encoding. */
  function Utf8Len(s: string): (n: nat)
    ensures n >= |s|
  {
    if s == [] then 0 else Utf8Width(s[0]) + Utf8Len(s[1..])
  }

  /** Byte length one means exactly one ASCII character. */
  lemma {:induction false} Utf8LenOne(s: string)
    ensures Utf8Len(s) == 1 <==> |s| == 1 && s[0] as int < 0x80
  {
    if s != [] {
      assert Utf8Len(s[1..]) >= |s[1..]|;
    }
  }

  /** Rust's `str::split` on a single character: the fields between separators,
      empty ones included; there is always at least one field. */
  function Split(s: string, sep: char): (r: seq<string>)
    ensures |r| >= 1
    decreases |s|
  {
    if s == [] then [""]
    else
      var rest := Split(s[1..], sep);
      if s[0] == sep then [""] + rest else [[s[0]] + rest[0]] + rest[1..]
  }

  /** No field contains the separator. */
  lemma {:induction false} SplitFieldsFree(s: string, sep: char)
    ensures forall i, j :: 0 <= i < |Split(s, sep)| && 0 <= j < |Split(s, sep)[i]| ==> Split(s, sep)[i][j] != sep
    decreases |s|
  {
    if s != [] {
      SplitFieldsFree(s[1..], sep);
    }
  }

  /** Fields glued back together with the separator. */
  function Join(fields: seq<string>, sep: char): string
    requires |fields| >= 1
    decreases |fields|
  {
    if |fields| == 1 then fields[0] else fields[0] + [sep] + Join(fields[1..], sep)
  }

  /** Splitting loses nothing: joining the fields gives the input back. */
  lemma {:induction false} SplitJoin(s: string, sep: char)
    ensures Join(Split(s, sep), sep) == s
    decreases |s|
  {
    if s != [] {
      var rest := Split(s[1..], sep);
      SplitJoin(s[1..], sep);
      if s[0] != sep {
        if |rest| == 1 {
          assert Split(s, sep) == [[s[0]] + rest[0]];
        } else {
          assert Split(s, sep)[1..] == rest[1..];
          assert rest == [rest[0]] + rest[1..];
          assert Join(rest, sep) == rest[0] + [sep] + Join(rest[1..], sep);
        }
      } else {
        assert Split(s, sep)[1..] == rest;
      }
    }
  }

  function DigitChar(d: nat): char
    requires d < 10
  {
    ('0' as int + d) as char
  }

  /** `format!("{}", n)` for an unsigned integer: its decimal digits. */
  function NatToString(n: nat): (r: string)
    ensures |r| >= 1
    ensures forall i :: 0 <= i < |r| ==> '0' <= r[i] <= '9'
    decreases n
  {
    if n < 10 then [DigitChar(n)] else NatToString(n / 10) + [DigitChar(n % 10)]
  }

  /** Reads a string of decimal digits back as a number. */
  function ParseDecimal(s: string): nat
    requires forall i :: 0 <= i < |s| ==> '0' <= s[i] <= '9'
    decreases |s|
  {
    if s == [] then 0 else 10 * ParseDecimal(s[..|s| - 1]) + (s[|s| - 1] as int - '0' as int)
  }

  /** Formatting a number in decimal is invertible, so distinct ids give distinct names. */
  lemma {:induction false} NatToStringRoundTrip(n: nat)
    ensures ParseDecimal(NatToString(n)) == n
    decreases n
  {
    if n >= 10 {
      var r := NatToString(n);
      NatToStringRoundTrip(n / 10);
      assert r[..|r| - 1] == NatToString(n / 10);
    }
  }

  predicate StartsWith(s: string, prefix: string) {
    |prefix| <= |s| && s[..|prefix|] == prefix
  }
}
