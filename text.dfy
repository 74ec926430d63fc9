/** The JavaScript string built-ins the ledger relies on: `trim`, the
    `/\D/g` digit filter, `toLowerCase`, `includes`, `join`, and the decimal
    text of integers (`String(n)` for a safe integer `n`). */
module Text {
  import opened Common

  /** WhiteSpace and LineTerminator code points as `String.prototype.trim` strips them:
      TAB, LF, VT, FF, CR, SPACE, NBSP, BOM, LS, PS and the space separators. */
  predicate IsSpace(c: char) {
    c == '\t' || c == '\n' || c == '\U{000B}' || c == '\U{000C}' || c == '\r' || c == ' '
    || c == '\U{00A0}' || c == '\U{1680}' || ('\U{2000}' <= c <= '\U{200A}')
    || c == '\U{2028}' || c == '\U{2029}' || c == '\U{202F}' || c == '\U{205F}'
    || c == '\U{3000}' || c == '\U{FEFF}'
  }

  /** What `\d` matches in a regular expression: an ASCII decimal digit. */
  predicate IsDigit(c: char) {
    '0' <= c <= '9'
  }

  predicate AllDigits(s: string) {
    forall i :: 0 <= i < |s| ==> IsDigit(s[i])
  }

  // ---------------------------------------------------------------- trim

  /** Drops leading white space: what is left is a suffix of `s` that is
      empty or starts with a non-space, and everything dropped is space. */
  function TrimStart(s: string): (r: string)
    ensures |r| <= |s|
    ensures r == [] || !IsSpace(r[0])
    ensures forall i :: 0 <= i < |s| - |r| ==> IsSpace(s[i])
  {
    if s != [] && IsSpace(s[0]) then TrimStart(s[1..]) else s
  }

  /** What `TrimStart` keeps is a suffix of its input. */
  lemma {:induction false} TrimStartSuffix(s: string)
    ensures TrimStart(s) == s[|s| - |TrimStart(s)|..]
  {
    if s != [] && IsSpace(s[0]) {
      TrimStartSuffix(s[1..]);
    }
  }

  /** Drops trailing white space: what is left is a prefix of `s` that is
      empty or ends with a non-space, and everything dropped is space. */
  function TrimEnd(s: string): (r: string)
    ensures |r| <= |s|
    ensures r == [] || !IsSpace(r[|r| - 1])
    ensures forall i :: |r| <= i < |s| ==> IsSpace(s[i])
  {
    if s != [] && IsSpace(s[|s| - 1]) then TrimEnd(s[..|s| - 1]) else s
  }

  /** What `TrimEnd` keeps is a prefix of its input. */
  lemma {:induction false} TrimEndPrefix(s: string)
    ensures TrimEnd(s) == s[..|TrimEnd(s)|]
  {
    if s != [] && IsSpace(s[|s| - 1]) {
      TrimEndPrefix(s[..|s| - 1]);
    }
  }

  /** `s.trim()`. */
  function Trim(s: string): string {
    TrimEnd(TrimStart(s))
  }

  /** `trim` keeps one contiguous slice of `s`, with no space at either end,
      and removes only white space around it. */
  lemma TrimSlice(s: string) returns (lo: nat, hi: nat)
    ensures lo <= hi <= |s| && Trim(s) == s[lo..hi]
    ensures Trim(s) == [] || (!IsSpace(Trim(s)[0]) && !IsSpace(Trim(s)[|Trim(s)| - 1]))
    ensures forall i :: 0 <= i < lo ==> IsSpace(s[i])
    ensures forall i :: hi <= i < |s| ==> IsSpace(s[i])
  {
    var t := TrimStart(s);
    var u := TrimEnd(t);
    TrimStartSuffix(s);
    TrimEndPrefix(t);
    lo := |s| - |t|;
    hi := lo + |u|;
    assert t == s[lo..];
    assert u == t[..|u|];
    assert s[lo..hi] == s[lo..][..|u|];
    forall i | hi <= i < |s| ensures IsSpace(s[i]) {
      assert s[i] == t[i - lo];
    }
  }

  /** Neither starts nor ends with white space. */
  predicate Trimmed(s: string) {
    s == [] || (!IsSpace(s[0]) && !IsSpace(s[|s| - 1]))
  }

  /** A trimmed text neither starts nor ends with white space. */
  lemma TrimEnds(s: string)
    ensures Trimmed(Trim(s))
  {
    var _, _ := TrimSlice(s);
  }

  /** The trimmed text is empty exactly when the input is all white space
      (the "name is required" test). */
  lemma TrimEmptyIffAllSpace(s: string)
    ensures Trim(s) == [] <==> forall i :: 0 <= i < |s| ==> IsSpace(s[i])
  {
    var lo, hi := TrimSlice(s);
  }

  /** Trimming twice is trimming once. */
  lemma TrimIdempotent(s: string)
    ensures Trim(Trim(s)) == Trim(s)
  {
    var t := Trim(s);
    var lo, hi := TrimSlice(s);
    assert TrimStart(t) == t;
    assert TrimEnd(t) == t;
  }

  // ---------------------------------------------------------------- digits

  /** `s.replace(/\D/g, "")`: the digits of `s`, in order. */
  function DigitsOf(s: string): (r: string)
    ensures AllDigits(r)
  {
    Filter(s, IsDigit)
  }

  /** The digit filter removes exactly the non-digits: a string that is
      already all digits comes back unchanged, and every digit of the input
      survives. */
  lemma DigitsOfKeeps(s: string)
    ensures AllDigits(s) ==> DigitsOf(s) == s
    ensures forall c :: c in DigitsOf(s) <==> c in s && IsDigit(c)
  {
    if AllDigits(s) {
      FilterAll(s, IsDigit);
    }
    forall c ensures c in DigitsOf(s) <==> c in s && IsDigit(c) {
      FilterMembership(s, IsDigit, c);
    }
  }

  // ---------------------------------------------------------------- case

  /** `toLowerCase` on one character; only A-Z is mapped (see README). */
  function LowerChar(c: char): char {
    if 'A' <= c <= 'Z' then (c as int + 32) as char else c
  }

  /** `s.toLowerCase()`: same length, no upper-case letter left, every
      upper-case letter replaced by its lower-case partner and every other
      character kept. */
  function Lower(s: string): (r: string)
    ensures |r| == |s|
    ensures forall i :: 0 <= i < |r| ==> !IsUpper(r[i])
    ensures forall i :: 0 <= i < |s| && !IsUpper(s[i]) ==> r[i] == s[i]
    ensures forall i :: 0 <= i < |s| && IsUpper(s[i]) ==> r[i] as int == s[i] as int + 32 && 'a' <= r[i] <= 'z'
  {
    seq(|s|, i requires 0 <= i < |s| => LowerChar(s[i]))
  }

  /** An upper-case ASCII letter. */
  predicate IsUpper(c: char) {
    'A' <= c <= 'Z'
  }

  /** Two characters equal once case is ignored. */
  predicate SameIgnoringCase(a: char, b: char) {
    a == b || (IsUpper(a) && b as int == a as int + 32) || (IsUpper(b) && a as int == b as int + 32)
  }

  /** Lower-casing a lower-cased text changes nothing. */
  lemma LowerIdempotent(s: string)
    ensures Lower(Lower(s)) == Lower(s)
  {
    var l := Lower(s);
    assert forall i :: 0 <= i < |l| ==> Lower(l)[i] == l[i];
  }

  /** Two texts lower-case alike exactly when they have the same length and
      agree character by character once case is ignored: the match of
      `filteredCustomers` is case-insensitive and nothing more. */
  lemma LowerEqualIff(s: string, t: string)
    ensures Lower(s) == Lower(t) <==> |s| == |t| && forall i :: 0 <= i < |s| ==> SameIgnoringCase(s[i], t[i])
  {
    if Lower(s) == Lower(t) {
      forall i | 0 <= i < |s| ensures SameIgnoringCase(s[i], t[i]) {
        assert Lower(s)[i] == Lower(t)[i];
      }
    }
    if |s| == |t| && forall i :: 0 <= i < |s| ==> SameIgnoringCase(s[i], t[i]) {
      forall i | 0 <= i < |s| ensures Lower(s)[i] == Lower(t)[i] {
        assert SameIgnoringCase(s[i], t[i]);
      }
    }
  }

  // ---------------------------------------------------------------- includes

  /** `s.includes(q)`: `q` occurs in `s` as a contiguous substring. */
  function Includes(s: string, q: string): bool
    decreases |s|
  {
    |q| <= |s| && (s[..|q|] == q || Includes(s[1..], q))
  }

  /** `q` occurs in `s` starting at offset `i`. */
  predicate OccursAt(s: string, q: string, i: int) {
    0 <= i <= |s| - |q| && s[i..i + |q|] == q
  }

  /** `Includes` finds a substring exactly when one occurs at some offset. */
  lemma {:induction false} IncludesAt(s: string, q: string)
    ensures Includes(s, q) <==> exists i :: OccursAt(s, q, i)
    decreases |s|
  {
    if |q| <= |s| && s != [] {
      IncludesAt(s[1..], q);
      if Includes(s[1..], q) {
        var i :| OccursAt(s[1..], q, i);
        assert s[i + 1..i + 1 + |q|] == s[1..][i..i + |q|];
        assert OccursAt(s, q, i + 1);
      }
      if s[..|q|] == q {
        assert s[0..|q|] == s[..|q|];
        assert OccursAt(s, q, 0);
      }
      if exists i :: OccursAt(s, q, i) {
        var i :| OccursAt(s, q, i);
        if i > 0 {
          assert s[1..][i - 1..i - 1 + |q|] == s[i..i + |q|];
          assert OccursAt(s[1..], q, i - 1);
          assert Includes(s[1..], q);
        } else {
          assert s[..|q|] == s[0..|q|];
        }
        assert Includes(s, q);
      }
    } else if |q| <= |s| {
      assert OccursAt(s, q, 0);
    }
  }

  // ---------------------------------------------------------------- join

  /** `lines.join(sep)`. */
  function Join(lines: seq<string>, sep: string): string
    decreases |lines|
  {
    if lines == [] then ""
    else if |lines| == 1 then lines[0]
    else lines[0] + sep + Join(lines[1..], sep)
  }

  /** Joining two non-empty groups puts exactly one separator between them. */
  lemma {:induction false} JoinAppend(a: seq<string>, b: seq<string>, sep: string)
    requires a != [] && b != []
    ensures Join(a + b, sep) == Join(a, sep) + sep + Join(b, sep)
    decreases |a|
  {
    if |a| == 1 {
      assert (a + b)[1..] == b;
    } else {
      assert (a + b)[1..] == a[1..] + b;
      JoinAppend(a[1..], b, sep);
    }
  }

  /** Splits at every newline: `s.split("\n")`. */
  function SplitLines(s: string): (r: seq<string>)
    ensures r != []
    decreases |s|
  {
    if s == [] then [""]
    else if s[0] == '\n' then [""] + SplitLines(s[1..])
    else var rest := SplitLines(s[1..]); [[s[0]] + rest[0]] + rest[1..]
  }

  /** Splitting `s + "\n" + t` where `s` has no newline gives `s` then the
      lines of `t`. */
  lemma {:induction false} SplitAfterLine(s: string, t: string)
    requires '\n' !in s
    ensures SplitLines(s + "\n" + t) == [s] + SplitLines(t)
    decreases |s|
  {
    if s == [] {
      assert s + "\n" + t == "\n" + t;
      assert ("\n" + t)[1..] == t;
    } else {
      assert (s + "\n" + t)[1..] == s[1..] + "\n" + t;
      SplitAfterLine(s[1..], t);
      assert [s[0]] + s[1..] == s;
    }
  }

  /** A line without newlines splits to itself. */
  lemma {:induction false} SplitSingle(s: string)
    requires '\n' !in s
    ensures SplitLines(s) == [s]
    decreases |s|
  {
    if s != [] {
      SplitSingle(s[1..]);
      assert [s[0]] + s[1..] == s;
    }
  }

  /** Joining lines that hold no newline with "\n" and splitting again
      recovers the lines. */
  lemma {:induction false} SplitJoin(lines: seq<string>)
    requires lines != []
    requires forall i :: 0 <= i < |lines| ==> '\n' !in lines[i]
    ensures SplitLines(Join(lines, "\n")) == lines
    decreases |lines|
  {
    if |lines| == 1 {
      SplitSingle(lines[0]);
    } else {
      SplitAfterLine(lines[0], Join(lines[1..], "\n"));
      SplitJoin(lines[1..]);
    }
  }

  // ---------------------------------------------------------------- numbers

  function DigitChar(d: nat): (c: char)
    requires d < 10
    ensures IsDigit(c) && c as int - '0' as int == d
  {
    ('0' as int + d) as char
  }

  function DigitValue(c: char): (d: nat)
    requires IsDigit(c)
    ensures d < 10 && DigitChar(d) == c
  {
    c as int - '0' as int
  }

  /** `String(n)` for a natural number: its decimal digits, no leading zero. */
  function NatText(n: nat): (r: string)
    ensures r != [] && AllDigits(r)
    ensures r[0] == '0' ==> n == 0
  {
    if n < 10 then [DigitChar(n)] else NatText(n / 10) + [DigitChar(n % 10)]
  }

  /** The value of a two-digit string. */
  lemma ParseNatTwo(a: char, b: char)
    requires IsDigit(a) && IsDigit(b)
    ensures ParseNat([a, b]) == DigitValue(a) * 10 + DigitValue(b)
  {
    assert [a, b][..1] == [a];
    assert [a][..0] == [];
    assert ParseNat([a]) == DigitValue(a);
    assert ParseNat([a, b]) == ParseNat([a]) * 10 + DigitValue(b);
  }

  /** The value of a string of decimal digits (leading zeros allowed). */
  function ParseNat(s: string): nat
    requires AllDigits(s)
  {
    if s == [] then 0 else ParseNat(s[..|s| - 1]) * 10 + DigitValue(s[|s| - 1])
  }

  /** Reading the decimal text back gives the number. */
  lemma {:induction false} ParseNatText(n: nat)
    ensures ParseNat(NatText(n)) == n
  {
    if n >= 10 {
      var t := NatText(n);
      assert t[..|t| - 1] == NatText(n / 10);
      ParseNatText(n / 10);
    }
  }

  /** A leading zero does not change the value. */
  lemma ParseNatLeadingZero(s: string)
    requires AllDigits(s)
    ensures ParseNat("0" + s) == ParseNat(s)
    decreases |s|
  {
    if s != [] {
      assert ("0" + s)[..|"0" + s| - 1] == "0" + s[..|s| - 1];
      ParseNatLeadingZero(s[..|s| - 1]);
    }
  }

  /** `String(i)` for an integer: a minus sign before the digits of a negative one. */
  function IntText(i: int): (r: string)
    ensures r != []
  {
    if i < 0 then "-" + NatText(-i) else NatText(i)
  }

  /** The integer written by a non-empty digit string with an optional minus. */
  function ParseInt(s: string): Option<int> {
    if |s| > 1 && s[0] == '-' && AllDigits(s[1..]) then Some(0 - ParseNat(s[1..]) as int)
    else if s != [] && AllDigits(s) then Some(ParseNat(s))
    else None
  }

  /** Reading an integer's text back gives the integer. */
  lemma ParseIntText(i: int)
    ensures ParseInt(IntText(i)) == Some(i)
  {
    if i < 0 {
      assert IntText(i)[1..] == NatText(-i);
      ParseNatText(-i);
    } else {
      ParseNatText(i);
    }
  }
}
