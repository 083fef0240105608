/** The JavaScript string operations the terminal kit relies on, written out over
    `seq<char>`: `split`/`join` on one character, `trim`, `lastIndexOf`, `padStart`,
    `toLowerCase` (ASCII letters) and the decimal rendering of a number. The
    inverses (`Join` of `Split`, `ParseNat` of `NatToString`) are the partners the
    round-trip lemmas below connect them with. */
module Strings {

  // ---------------------------------------------------------------------------
  // split / join
  // ---------------------------------------------------------------------------

  /** `s.split(sep)`: the pieces between the occurrences of `sep`, in order.
      There is always at least one piece (`"".split(" ")` is `[""]`). */
  function Split(s: string, sep: char): (parts: seq<string>)
    ensures |parts| >= 1
    ensures forall i :: 0 <= i < |parts| ==> sep !in parts[i]
    ensures |parts| == 1 <==> sep !in s
  {
    if s == [] then [[]]
    else
      var rest := Split(s[1..], sep);
      if s[0] == sep then [[]] + rest
      else [[s[0]] + rest[0]] + rest[1..]
  }

  /** `parts.join(sep)`. */
  function Join(parts: seq<string>, sep: char): string
  {
    if |parts| == 0 then []
    else if |parts| == 1 then parts[0]
    else parts[0] + [sep] + Join(parts[1..], sep)
  }

  /** `parts.join(glue)` for a glue string (the candidate list uses two spaces). */
  function JoinWith(parts: seq<string>, glue: string): string
  {
    if |parts| == 0 then []
    else if |parts| == 1 then parts[0]
    else parts[0] + glue + JoinWith(parts[1..], glue)
  }

  lemma {:induction false} JoinConsHead(c: char, head: string, tail: seq<string>, sep: char)
    ensures Join([[c] + head] + tail, sep) == [c] + Join([head] + tail, sep)
  {
    if |tail| > 0 {
      assert ([[c] + head] + tail)[1..] == tail;
      assert ([head] + tail)[1..] == tail;
    }
  }

  /** Joining the pieces of a split gives back the original string. */
  lemma {:induction false} JoinSplit(s: string, sep: char)
    ensures Join(Split(s, sep), sep) == s
  {
    if s != [] {
      var rest := Split(s[1..], sep);
      JoinSplit(s[1..], sep);
      if s[0] == sep {
        assert ([[]] + rest)[1..] == rest;
      } else {
        JoinConsHead(s[0], rest[0], rest[1..], sep);
        assert [rest[0]] + rest[1..] == rest;
      }
    }
  }

  lemma {:induction false} SplitNoSep(a: string, sep: char)
    requires sep !in a
    ensures Split(a, sep) == [a]
  {
    if a != [] {
      assert sep !in a[1..] by {
        forall j | 0 <= j < |a| - 1 ensures a[1..][j] != sep { assert a[1..][j] == a[j + 1]; }
      }
      SplitNoSep(a[1..], sep);
      assert a[0] != sep;
      assert a == [a[0]] + a[1..];
    }
  }

  lemma {:induction false} SplitAtSep(a: string, sep: char, t: string)
    requires sep !in a
    ensures Split(a + [sep] + t, sep) == [a] + Split(t, sep)
  {
    if a == [] {
      assert a + [sep] + t == [sep] + t;
      assert ([sep] + t)[1..] == t;
    } else {
      assert (a + [sep] + t)[1..] == a[1..] + [sep] + t;
      SplitAtSep(a[1..], sep, t);
      assert a == [a[0]] + a[1..];
    }
  }

  /** Splitting a join gives back the pieces, provided no piece contains the separator. */
  lemma {:induction false} SplitJoin(parts: seq<string>, sep: char)
    requires |parts| >= 1
    requires forall i :: 0 <= i < |parts| ==> sep !in parts[i]
    ensures Split(Join(parts, sep), sep) == parts
  {
    if |parts| == 1 {
      SplitNoSep(parts[0], sep);
    } else {
      SplitJoin(parts[1..], sep);
      SplitAtSep(parts[0], sep, Join(parts[1..], sep));
      assert [parts[0]] + parts[1..] == parts;
    }
  }

  /** Appending one more piece to a join appends the separator and that piece. */
  lemma {:induction false} JoinSnoc(ps: seq<string>, x: string, sep: char)
    requires |ps| >= 1
    ensures Join(ps + [x], sep) == Join(ps, sep) + [sep] + x
  {
    if |ps| > 1 {
      assert (ps + [x])[1..] == ps[1..] + [x];
      JoinSnoc(ps[1..], x, sep);
    } else {
      assert (ps + [x])[1..] == [x];
    }
  }

  // ---------------------------------------------------------------------------
  // lastIndexOf
  // ---------------------------------------------------------------------------

  /** `s.lastIndexOf(c)` for a character known to occur in `s`. */
  function LastIndexOf(s: string, c: char): (k: nat)
    requires c in s
    ensures k < |s| && s[k] == c
    ensures c !in s[k + 1..]
  {
    if s[|s| - 1] == c then |s| - 1
    else
      assert c in s[..|s| - 1] by {
        var j :| 0 <= j < |s| && s[j] == c;
        assert s[..|s| - 1][j] == c;
      }
      var k := LastIndexOf(s[..|s| - 1], c);
      assert s[k + 1..] == s[..|s| - 1][k + 1..] + [s[|s| - 1]];
      k
  }

  // ---------------------------------------------------------------------------
  // trim
  // ---------------------------------------------------------------------------

  /** The characters `String.prototype.trim` removes: white space and line terminators. */
  predicate IsSpace(c: char)
  {
    c == ' ' || c == '\t' || c == '\n' || c == '\r' || c == '\U{000B}' || c == '\U{000C}'
    || c == '\U{00A0}' || c == '\U{1680}' || ('\U{2000}' <= c <= '\U{200A}')
    || c == '\U{2028}' || c == '\U{2029}' || c == '\U{202F}' || c == '\U{205F}'
    || c == '\U{3000}' || c == '\U{FEFF}'
  }

  predicate AllSpace(s: string)
  {
    forall i :: 0 <= i < |s| ==> IsSpace(s[i])
  }

  /** `s` without its leading white space. */
  function TrimStart(s: string): (r: string)
    ensures |r| <= |s|
    ensures r == [] || !IsSpace(r[0])
  {
    if s != [] && IsSpace(s[0]) then TrimStart(s[1..]) else s
  }

  /** What `TrimStart` drops is white space, and what it keeps is the rest. */
  lemma {:induction false} TrimStartSplits(s: string)
    ensures var r := TrimStart(s);
      r == s[|s| - |r|..] && AllSpace(s[..|s| - |r|])
  {
    if s != [] && IsSpace(s[0]) {
      TrimStartSplits(s[1..]);
      var r := TrimStart(s);
      assert s[..|s| - |r|] == [s[0]] + s[1..][..|s| - 1 - |r|];
    }
  }

  /** `s` without its trailing white space. */
  function TrimEnd(s: string): (r: string)
    ensures |r| <= |s|
    ensures r == [] || !IsSpace(r[|r| - 1])
  {
    if s != [] && IsSpace(s[|s| - 1]) then TrimEnd(s[..|s| - 1]) else s
  }

  /** What `TrimEnd` drops is white space, and what it keeps is the rest. */
  lemma {:induction false} TrimEndSplits(s: string)
    ensures var r := TrimEnd(s);
      r == s[..|r|] && AllSpace(s[|r|..])
  {
    if s != [] && IsSpace(s[|s| - 1]) {
      TrimEndSplits(s[..|s| - 1]);
      var r := TrimEnd(s);
      assert s[|r|..] == s[..|s| - 1][|r|..] + [s[|s| - 1]];
    }
  }

  /** `s.trim()`: the part of `s` between its leading and its trailing white
      space, neither beginning nor ending with white space, and empty exactly when
      `s` is all white space. */
  function Trim(s: string): (r: string)
    ensures |r| <= |s|
    ensures exists k :: 0 <= k <= |s| - |r| && r == s[k..k + |r|] && AllSpace(s[..k]) && AllSpace(s[k + |r|..])
    ensures r == [] || (!IsSpace(r[0]) && !IsSpace(r[|r| - 1]))
    ensures r == [] <==> AllSpace(s)
  {
    var t := TrimEnd(s);
    var r := TrimStart(t);
    TrimEndSplits(s);
    TrimStartSplits(t);
    var k := |t| - |r|;
    assert r == s[k..k + |r|];
    assert s[..k] == t[..k];
    assert s[k + |r|..] == s[|t|..];
    if r == [] then
      assert s == t + s[|t|..];
      r
    else
      assert r[|r| - 1] == t[|t| - 1];
      assert s[|t| - |r|] == t[|t| - |r|] == r[0];
      r
  }

  // ---------------------------------------------------------------------------
  // padStart, decimal digits
  // ---------------------------------------------------------------------------

  /** `s.padStart(width, c)`: `s` preceded by as many `c` as make it `width` long;
      a string already that long is left alone (never truncated). */
  function PadStart(s: string, width: nat, c: char): (r: string)
    ensures |r| == if |s| >= width then |s| else width
    ensures forall i :: 0 <= i < |s| ==> r[|r| - |s| + i] == s[i]
    ensures forall i :: 0 <= i < |r| - |s| ==> r[i] == c
  {
    if |s| >= width then s else seq(width - |s|, _ => c) + s
  }

  predicate IsDigit(c: char)
  {
    '0' <= c <= '9'
  }

  predicate AllDigits(s: string)
  {
    forall i :: 0 <= i < |s| ==> IsDigit(s[i])
  }

  function DigitChar(d: nat): (c: char)
    requires d < 10
    ensures IsDigit(c)
  {
    ['0', '1', '2', '3', '4', '5', '6', '7', '8', '9'][d]
  }

  function DigitValue(c: char): nat
  {
    if IsDigit(c) then (c as int - '0' as int) else 0
  }

  /** The value of a string of decimal digits. */
  function ParseNat(s: string): nat
  {
    if s == [] then 0 else ParseNat(s[..|s| - 1]) * 10 + DigitValue(s[|s| - 1])
  }

  /** `String(n)` for a natural number: its decimal digits, without leading zeros,
      read back by `ParseNat`. */
  function NatToString(n: nat): (r: string)
    ensures |r| >= 1 && AllDigits(r)
    ensures r[0] == '0' ==> n == 0
    ensures |r| == 1 <==> n < 10
    ensures n < 100 ==> |r| <= 2
    ensures ParseNat(r) == n
  {
    if n < 10 then
      var r := [DigitChar(n)];
      assert r[..0] == [];
      r
    else
      var h := NatToString(n / 10);
      var d := DigitChar(n % 10);
      var r := h + [d];
      assert r[..|r| - 1] == h && r[|r| - 1] == d && r[0] == h[0];
      DigitValueOf(n % 10);
      assert ParseNat(r) == ParseNat(h) * 10 + DigitValue(d);
      r
  }

  lemma DigitValueOf(d: nat)
    requires d < 10
    ensures DigitValue(DigitChar(d)) == d
  {
  }

  /** Leading zeros do not change the value of a digit string. */
  lemma {:induction false} ParseLeadingZero(s: string)
    ensures ParseNat(['0'] + s) == ParseNat(s)
  {
    if s != [] {
      assert (['0'] + s)[..|s|] == ['0'] + s[..|s| - 1];
      ParseLeadingZero(s[..|s| - 1]);
    }
  }

  /** A number below 100 padded to two digits with zeros reads back as itself. */
  lemma TwoDigits(n: nat)
    requires n < 100
    ensures |PadStart(NatToString(n), 2, '0')| == 2
    ensures AllDigits(PadStart(NatToString(n), 2, '0'))
    ensures ParseNat(PadStart(NatToString(n), 2, '0')) == n
  {
    var d := NatToString(n);
    if |d| == 1 {
      assert PadStart(d, 2, '0') == ['0'] + d;
      ParseLeadingZero(d);
    }
  }

  // ---------------------------------------------------------------------------
  // length in UTF-16 code units
  // ---------------------------------------------------------------------------

  /** The code units a character takes in a JavaScript string: two for a character
      outside the Basic Multilingual Plane (a surrogate pair), one otherwise. */
  function Utf16Units(c: char): nat
  {
    if c as int >= 0x10000 then 2 else 1
  }

  /** `s.length` in JavaScript: the number of UTF-16 code units. */
  function Utf16Length(s: string): (n: nat)
    ensures |s| <= n <= 2 * |s|
  {
    if s == [] then 0 else Utf16Units(s[0]) + Utf16Length(s[1..])
  }

  /** A JavaScript string of length one is exactly one character of the Basic
      Multilingual Plane. */
  lemma Utf16LengthOne(s: string)
    ensures Utf16Length(s) == 1 <==> |s| == 1 && (s[0] as int) < 0x10000
  {
    if |s| >= 1 {
      assert Utf16Length(s) == Utf16Units(s[0]) + Utf16Length(s[1..]);
    }
  }

  // ---------------------------------------------------------------------------
  // toLowerCase
  // ---------------------------------------------------------------------------

  function LowerChar(c: char): char
  {
    if 'A' <= c <= 'Z' then (c as int + 32) as char else c
  }

  /** `s.toLowerCase()` on ASCII letters; every other character is kept. */
  function ToLower(s: string): (r: string)
    ensures |r| == |s|
    ensures forall i :: 0 <= i < |s| ==> r[i] == LowerChar(s[i])
  {
    seq(|s|, i requires 0 <= i < |s| => LowerChar(s[i]))
  }
}
