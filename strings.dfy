/** The Python string operations the two scripts rely on: `str.strip()`,
    `str.lower()`, `str.replace(' ', '')`, `str.startswith`, `str(int)`,
    `sep.join(...)` and `str.split(sep)`. */
module Strings {

  /** Python's `str.isspace()` for one character: the characters `str.strip()`
      with no argument removes. */
  predicate IsWhitespace(c: char) {
    || c == ' '
    || ('\t' <= c <= '\r')
    || ('\U{1c}' <= c <= '\U{1f}')
    || c == '\U{85}' || c == '\U{a0}' || c == '\U{1680}'
    || ('\U{2000}' <= c <= '\U{200a}')
    || c == '\U{2028}' || c == '\U{2029}' || c == '\U{202f}' || c == '\U{205f}'
    || c == '\U{3000}'
  }

  /** True when the only whitespace `s` contains is the plain space. */
  predicate OnlySpaceWhitespace(s: string) {
    forall i :: 0 <= i < |s| && IsWhitespace(s[i]) ==> s[i] == ' '
  }

  /** `s.lstrip()`: `r` is a suffix of `s`, what was dropped is whitespace and
      `r` does not start with whitespace. */
  function StripLeft(s: string): (r: string)
    ensures |r| <= |s| && r == s[|s| - |r|..]
    ensures forall i :: 0 <= i < |s| - |r| ==> IsWhitespace(s[i])
    ensures r == [] || !IsWhitespace(r[0])
  {
    if |s| > 0 && IsWhitespace(s[0]) then
      var r := StripLeft(s[1..]);
      assert s[1..][|s| - 1 - |r|..] == s[|s| - |r|..];
      r
    else s
  }

  /** `s.rstrip()`: `r` is a prefix of `s`, what was dropped is whitespace and
      `r` does not end with whitespace. */
  function StripRight(s: string): (r: string)
    ensures |r| <= |s| && r == s[..|r|]
    ensures forall i :: |r| <= i < |s| ==> IsWhitespace(s[i])
    ensures r == [] || !IsWhitespace(r[|r| - 1])
  {
    if |s| > 0 && IsWhitespace(s[|s| - 1]) then StripRight(s[..|s| - 1]) else s
  }

  /** `s.strip()`. */
  function Strip(s: string): string {
    StripRight(StripLeft(s))
  }

  /** ASCII case folding of one character. */
  function LowerChar(c: char): char {
    if 'A' <= c <= 'Z' then (c as int - 'A' as int + 'a' as int) as char else c
  }

  /** `s.lower()`, restricted to ASCII letters. */
  function Lower(s: string): (r: string)
    ensures |r| == |s|
    ensures forall i :: 0 <= i < |s| ==> r[i] == LowerChar(s[i])
  {
    if s == [] then [] else [LowerChar(s[0])] + Lower(s[1..])
  }

  /** `s.replace(' ', '')`: `r` is `s` without its spaces. */
  function RemoveSpaces(s: string): (r: string)
    ensures ' ' !in r
    ensures |r| <= |s|
  {
    if s == [] then []
    else (if s[0] == ' ' then [] else [s[0]]) + RemoveSpaces(s[1..])
  }

  /** `s.startswith(prefix)`. */
  predicate StartsWith(s: string, prefix: string) {
    |prefix| <= |s| && s[..|prefix|] == prefix
  }

  function DigitChar(d: nat): (c: char)
    requires d < 10
    ensures '0' <= c <= '9'
  {
    ('0' as int + d) as char
  }

  /** `str(n)` for a non-negative integer: decimal digits, no leading zero. */
  function NatToString(n: nat): (r: string)
    ensures |r| >= 1
    ensures forall i :: 0 <= i < |r| ==> '0' <= r[i] <= '9'
    ensures n >= 10 <==> |r| >= 2
    decreases n
  {
    if n < 10 then [DigitChar(n)] else NatToString(n / 10) + [DigitChar(n % 10)]
  }

  /** `str(i)` for an integer: a minus sign for negatives, then the digits. */
  function IntToString(i: int): (r: string)
    ensures |r| >= 1
    ensures r[0] == '-' || '0' <= r[0] <= '9'
  {
    if i < 0 then "-" + NatToString(-i) else NatToString(i)
  }

  predicate IsDigits(s: string) {
    forall i :: 0 <= i < |s| ==> '0' <= s[i] <= '9'
  }

  /** `int(s)` for a string of decimal digits. */
  function DecimalValue(s: string): nat
    requires IsDigits(s)
  {
    if s == [] then 0 else DecimalValue(s[..|s| - 1]) * 10 + (s[|s| - 1] as int - '0' as int)
  }

  /** `int(str(n)) == n`. */
  lemma {:induction false} DecimalValueOfNatToString(n: nat)
    ensures DecimalValue(NatToString(n)) == n
    decreases n
  {
    var r := NatToString(n);
    if n >= 10 {
      DecimalValueOfNatToString(n / 10);
      assert r[..|r| - 1] == NatToString(n / 10);
    }
  }

  /** `str(n)` never maps two numbers to the same text. */
  lemma NatToStringInjective(a: nat, b: nat)
    requires NatToString(a) == NatToString(b)
    ensures a == b
  {
    DecimalValueOfNatToString(a);
    DecimalValueOfNatToString(b);
  }

  /** `sep.join(parts)` for a one-character separator. */
  function Join(parts: seq<string>, sep: char): string {
    if |parts| == 0 then ""
    else if |parts| == 1 then parts[0]
    else parts[0] + [sep] + Join(parts[1..], sep)
  }

  /** `s.split(sep)` for a one-character separator: the pieces between
      separators, so there is always at least one piece. */
  function Split(s: string, sep: char): (r: seq<string>)
    ensures |r| >= 1
  {
    if s == [] then [""]
    else
      var rest := Split(s[1..], sep);
      if s[0] == sep then [""] + rest else [[s[0]] + rest[0]] + rest[1..]
  }

  // ---------------------------------------------------------------------------
  // Properties

  lemma LowerAppend(a: string, b: string)
    ensures Lower(a + b) == Lower(a) + Lower(b)
  {
  }

  /** Lower-casing and removing spaces commute, since neither turns a space into
      something else or something else into a space. */
  lemma {:induction false} LowerRemoveSpacesCommute(s: string)
    ensures Lower(RemoveSpaces(s)) == RemoveSpaces(Lower(s))
  {
    if s != [] {
      LowerRemoveSpacesCommute(s[1..]);
      var head := if s[0] == ' ' then [] else [s[0]];
      LowerAppend(head, RemoveSpaces(s[1..]));
      assert Lower(s)[1..] == Lower(s[1..]);
    }
  }

  lemma {:induction false} RemoveSpacesAppend(a: string, b: string)
    ensures RemoveSpaces(a + b) == RemoveSpaces(a) + RemoveSpaces(b)
  {
    if a != [] {
      assert (a + b)[1..] == a[1..] + b;
      RemoveSpacesAppend(a[1..], b);
    } else {
      assert a + b == b;
    }
  }

  /** When a string holds no whitespace but plain spaces, stripping it first
      changes nothing once all spaces are removed. */
  lemma StripThenRemoveSpaces(s: string)
    requires OnlySpaceWhitespace(s)
    ensures RemoveSpaces(Strip(s)) == RemoveSpaces(s)
  {
    StripLeftSpaces(s);
    StripRightSpaces(StripLeft(s));
  }

  lemma {:induction false} StripLeftSpaces(s: string)
    requires OnlySpaceWhitespace(s)
    ensures OnlySpaceWhitespace(StripLeft(s))
    ensures RemoveSpaces(StripLeft(s)) == RemoveSpaces(s)
  {
    if |s| > 0 && IsWhitespace(s[0]) {
      assert s[0] == ' ';
      assert OnlySpaceWhitespace(s[1..]) by {
        forall i | 0 <= i < |s[1..]| && IsWhitespace(s[1..][i]) ensures s[1..][i] == ' ' {
          assert s[1..][i] == s[i + 1];
        }
      }
      StripLeftSpaces(s[1..]);
    }
  }

  lemma {:induction false} StripRightSpaces(s: string)
    requires OnlySpaceWhitespace(s)
    ensures RemoveSpaces(StripRight(s)) == RemoveSpaces(s)
  {
    if |s| > 0 && IsWhitespace(s[|s| - 1]) {
      var init := s[..|s| - 1];
      assert StripRight(s) == StripRight(init);
      assert s[|s| - 1] == ' ';
      assert OnlySpaceWhitespace(init) by {
        forall i | 0 <= i < |init| && IsWhitespace(init[i]) ensures init[i] == ' ' {
          assert init[i] == s[i];
        }
      }
      StripRightSpaces(init);
      assert s == init + [' '];
      RemoveSpacesAppend(init, [' ']);
      assert RemoveSpaces([' ']) == [];
    }
  }

  /** Lower-casing never makes or unmakes whitespace. */
  lemma LowerCharWhitespace(c: char)
    ensures IsWhitespace(LowerChar(c)) <==> IsWhitespace(c)
    ensures LowerChar(c) == ' ' <==> c == ' '
  {
  }

  lemma {:induction false} StripLeftRemoveSpaces(s: string)
    ensures StripLeft(RemoveSpaces(s)) == RemoveSpaces(StripLeft(s))
  {
    if s != [] {
      var rest := RemoveSpaces(s[1..]);
      var rs := RemoveSpaces(s);
      if IsWhitespace(s[0]) {
        assert StripLeft(s) == StripLeft(s[1..]);
        StripLeftRemoveSpaces(s[1..]);
        if s[0] == ' ' {
          assert rs == rest;
        } else {
          assert rs == [s[0]] + rest;
          assert rs[1..] == rest;
          assert StripLeft(rs) == StripLeft(rest);
        }
      } else {
        assert StripLeft(s) == s;
        assert rs == [s[0]] + rest;
        assert StripLeft(rs) == rs;
      }
    }
  }

  lemma {:induction false} StripRightRemoveSpaces(s: string)
    ensures StripRight(RemoveSpaces(s)) == RemoveSpaces(StripRight(s))
  {
    if s != [] {
      var init, last := s[..|s| - 1], s[|s| - 1];
      assert s == init + [last];
      RemoveSpacesAppend(init, [last]);
      var tail := RemoveSpaces([last]);
      assert tail == if last == ' ' then [] else [last];
      if IsWhitespace(last) {
        assert StripRight(s) == StripRight(init);
        StripRightRemoveSpaces(init);
        if last != ' ' {
          assert (RemoveSpaces(init) + tail)[..|RemoveSpaces(init)|] == RemoveSpaces(init);
        } else {
          assert RemoveSpaces(s) == RemoveSpaces(init);
        }
      }
    }
  }

  lemma {:induction false} StripLeftLower(s: string)
    ensures StripLeft(Lower(s)) == Lower(StripLeft(s))
  {
    if s != [] {
      LowerCharWhitespace(s[0]);
      assert Lower(s)[1..] == Lower(s[1..]);
      if IsWhitespace(s[0]) {
        StripLeftLower(s[1..]);
      }
    }
  }

  lemma {:induction false} StripRightLower(s: string)
    ensures StripRight(Lower(s)) == Lower(StripRight(s))
  {
    if s != [] {
      var init := s[..|s| - 1];
      LowerCharWhitespace(s[|s| - 1]);
      assert Lower(s)[..|s| - 1] == Lower(init);
      if IsWhitespace(s[|s| - 1]) {
        assert StripRight(s) == StripRight(init);
        StripRightLower(init);
      }
    }
  }

  /** Stripping commutes with removing spaces and with lower-casing. */
  lemma StripCommutes(s: string)
    ensures Strip(RemoveSpaces(s)) == RemoveSpaces(Strip(s))
    ensures Strip(Lower(s)) == Lower(Strip(s))
  {
    StripLeftRemoveSpaces(s);
    StripRightRemoveSpaces(StripLeft(s));
    StripLeftLower(s);
    StripRightLower(StripLeft(s));
  }

  /** Stripping twice is stripping once. */
  lemma StripIdempotent(s: string)
    ensures Strip(Strip(s)) == Strip(s)
  {
    var t := StripLeft(s);
    var u := StripRight(t);
    if u != [] {
      assert u[0] == t[0];
      assert StripLeft(u) == u;
    } else {
      assert StripLeft(u) == u;
    }
    assert StripRight(u) == u;
  }

  lemma {:induction false} SplitWithoutSeparator(a: string, sep: char)
    requires sep !in a
    ensures Split(a, sep) == [a]
  {
    if a != [] {
      SplitWithoutSeparator(a[1..], sep);
      assert [a[0]] + a[1..] == a;
    }
  }

  lemma {:induction false} SplitAfterPiece(a: string, sep: char, rest: string)
    requires sep !in a
    ensures Split(a + [sep] + rest, sep) == [a] + Split(rest, sep)
  {
    if a == [] {
      assert a + [sep] + rest == [sep] + rest;
      assert ([sep] + rest)[1..] == rest;
    } else {
      assert (a + [sep] + rest)[1..] == a[1..] + [sep] + rest;
      SplitAfterPiece(a[1..], sep, rest);
      assert [a[0]] + a[1..] == a;
    }
  }

  /** Splitting a join gives the parts back, provided no part holds the
      separator: the TSV lines both scripts write read back as their fields. */
  lemma {:induction false} SplitJoin(parts: seq<string>, sep: char)
    requires |parts| >= 1
    requires forall k :: 0 <= k < |parts| ==> sep !in parts[k]
    ensures Split(Join(parts, sep), sep) == parts
  {
    if |parts| == 1 {
      SplitWithoutSeparator(parts[0], sep);
    } else {
      SplitJoin(parts[1..], sep);
      SplitAfterPiece(parts[0], sep, Join(parts[1..], sep));
      assert [parts[0]] + parts[1..] == parts;
    }
  }
  /** A line is its fields joined by `sep` and ended by a newline; fields
      without `sep` split back out of it once the newline is dropped. */
  lemma LineReadsBack(fields: seq<string>, sep: char)
    requires |fields| >= 1
    requires forall k :: 0 <= k < |fields| ==> sep !in fields[k]
    ensures var line := Join(fields, sep) + "\n";
      && |line| >= 1 && line[|line| - 1] == '\n'
      && Split(line[..|line| - 1], sep) == fields
  {
    var line := Join(fields, sep) + "\n";
    assert line[..|line| - 1] == Join(fields, sep);
    SplitJoin(fields, sep);
  }

}
