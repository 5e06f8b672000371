/**
 * The two Python built-ins that the detector-line parser of masker_v2.py
 * leans on: `str.split(sep)` and `int(text)` on a base-10 field.
 * Both are stated as CPython 3.11 and later behaves on ASCII text, including
 * the limit on the number of digits `int()` converts.
 */
module PyText {

  datatype Option<T> = None | Some(value: T)

  /** Number of occurrences of `c` in `s`. */
  function Occurrences(s: string, c: char): (n: nat)
    ensures n <= |s|
  {
    if s == [] then 0 else (if s[0] == c then 1 else 0) + Occurrences(s[1..], c)
  }

  /** A string without `c` holds no occurrence of it. */
  lemma {:induction false} OccurrencesAbsent(s: string, c: char)
    requires c !in s
    ensures Occurrences(s, c) == 0
  {
    if s != [] {
      assert c !in s[1..];
      OccurrencesAbsent(s[1..], c);
    }
  }

  /** `s.split(sep)`: the pieces between the occurrences of `sep`, left to right. */
  function Split(s: string, sep: char): (fields: seq<string>)
    ensures |fields| >= 1
    ensures forall i :: 0 <= i < |fields| ==> sep !in fields[i]
  {
    if s == [] then [[]]
    else
      var rest := Split(s[1..], sep);
      if s[0] == sep then [[]] + rest
      else [[s[0]] + rest[0]] + rest[1..]
  }

  /** `sep.join(fields)`, the inverse of `Split`. */
  function Join(fields: seq<string>, sep: char): string
    requires |fields| >= 1
  {
    if |fields| == 1 then fields[0] else fields[0] + [sep] + Join(fields[1..], sep)
  }

  /** Text appended after a join lands in the last piece. */
  lemma {:induction false} JoinAppend(fields: seq<string>, sep: char, tail: string)
    requires |fields| >= 1
    ensures Join(fields, sep) + tail
         == Join(fields[..|fields| - 1] + [fields[|fields| - 1] + tail], sep)
  {
    var n := |fields| - 1;
    var fs := fields[..n] + [fields[n] + tail];
    if |fields| > 1 {
      JoinAppend(fields[1..], sep, tail);
      assert fs[1..] == fields[1..][..n - 1] + [fields[1..][n - 1] + tail];
      assert fs[0] == fields[0];
    }
  }

  /** A string with n separators splits into exactly n + 1 pieces. */
  lemma {:induction false} SplitCount(s: string, sep: char)
    ensures |Split(s, sep)| == Occurrences(s, sep) + 1
  {
    if s != [] {
      SplitCount(s[1..], sep);
    }
  }

  /** Splitting loses nothing: joining the pieces gives the string back. */
  lemma {:induction false} JoinSplit(s: string, sep: char)
    ensures Join(Split(s, sep), sep) == s
  {
    if s != [] {
      var rest := Split(s[1..], sep);
      JoinSplit(s[1..], sep);
      if s[0] == sep {
        assert Split(s, sep) == [[]] + rest;
        assert ([[]] + rest)[1..] == rest;
      } else {
        var fs := Split(s, sep);
        assert fs == [[s[0]] + rest[0]] + rest[1..];
        if |rest| == 1 {
          assert fs == [[s[0]] + rest[0]];
        } else {
          assert fs[1..] == rest[1..];
          assert Join(rest, sep) == rest[0] + [sep] + Join(rest[1..], sep);
        }
      }
    }
  }

  /** A character other than the separator glues onto the first piece of what follows it. */
  lemma SplitCons(c: char, s: string, sep: char)
    requires c != sep
    ensures Split([c] + s, sep) == [[c] + Split(s, sep)[0]] + Split(s, sep)[1..]
  {
    assert ([c] + s)[0] == c && ([c] + s)[1..] == s;
  }

  /** A separator-free prefix glues onto the first piece of what follows it. */
  lemma {:induction false} SplitPrefix(f: string, t: string, sep: char)
    requires sep !in f
    ensures Split(f + t, sep) == [f + Split(t, sep)[0]] + Split(t, sep)[1..]
  {
    if f != [] {
      var r := Split(t, sep);
      SplitPrefix(f[1..], t, sep);
      assert f + t == [f[0]] + (f[1..] + t);
      SplitCons(f[0], f[1..] + t, sep);
      assert [f[0]] + (f[1..] + r[0]) == f + r[0];
    } else {
      var r := Split(t, sep);
      assert f + t == t;
      assert f + r[0] == r[0];
      assert [r[0]] + r[1..] == r;
    }
  }

  /** Splitting a join of separator-free pieces gives the pieces back. */
  lemma {:induction false} SplitJoin(fields: seq<string>, sep: char)
    requires |fields| >= 1
    requires forall i :: 0 <= i < |fields| ==> sep !in fields[i]
    ensures Split(Join(fields, sep), sep) == fields
  {
    if |fields| == 1 {
      SplitPrefix(fields[0], [], sep);
      assert fields[0] + [] == fields[0];
    } else {
      var tail := Join(fields[1..], sep);
      SplitJoin(fields[1..], sep);
      assert ([sep] + tail)[1..] == tail;
      var r := Split([sep] + tail, sep);
      assert r == [[]] + fields[1..];
      assert r[0] == [] && r[1..] == fields[1..];
      assert fields[0] + [sep] + tail == fields[0] + ([sep] + tail);
      SplitPrefix(fields[0], [sep] + tail, sep);
      assert fields[0] + r[0] == fields[0];
      assert fields == [fields[0]] + fields[1..];
    }
  }

  /**
   * The whitespace `int()` skips around an ASCII literal: tab, line feed,
   * vertical tab, form feed, carriage return and space. (`str.strip()` also
   * removes the separators 0x1C-0x1F, but `int()` rejects them.)
   */
  predicate IsSpace(c: char) {
    c == ' ' || 9 <= c as int <= 13
  }

  predicate IsDigit(c: char) {
    '0' <= c <= '9'
  }

  function TrimLeft(s: string): (t: string)
    ensures |t| <= |s| && t == s[|s| - |t|..]
    ensures t == [] || !IsSpace(t[0])
  {
    if s != [] && IsSpace(s[0]) then TrimLeft(s[1..]) else s
  }

  function TrimRight(s: string): (t: string)
    ensures |t| <= |s| && t == s[..|t|]
    ensures t == [] || !IsSpace(t[|t| - 1])
  {
    if s != [] && IsSpace(s[|s| - 1]) then TrimRight(s[..|s| - 1]) else s
  }

  /** `s` without the whitespace `int()` skips on either side. */
  function Strip(s: string): string {
    TrimLeft(TrimRight(s))
  }

  /**
   * The body of a base-10 integer literal as `int()` reads it: digits, with a
   * single underscore allowed between two digits; None if it is not one.
   */
  function Numeral(b: string): Option<nat> {
    if b == [] || !IsDigit(b[|b| - 1]) then None
    else
      var d := b[|b| - 1] as int - '0' as int;
      if |b| == 1 then Some(d)
      else if b[|b| - 2] == '_' then
        match Numeral(b[..|b| - 2])
        case None => None
        case Some(v) => Some(10 * v + d)
      else
        match Numeral(b[..|b| - 1])
        case None => None
        case Some(v) => Some(10 * v + d)
  }

  /**
   * `sys.int_info.default_max_str_digits`: since Python 3.11, `int()` raises
   * ValueError on a base-10 literal with more digits than this.
   */
  const MaxStrDigits := 4300

  /** The number of decimal digits in `s`. */
  function DigitCount(s: string): (n: nat)
    ensures n <= |s|
  {
    if s == [] then 0 else (if IsDigit(s[0]) then 1 else 0) + DigitCount(s[1..])
  }

  /** A string of digits only counts all its characters. */
  lemma {:induction false} DigitCountAllDigits(s: string)
    requires forall i :: 0 <= i < |s| ==> IsDigit(s[i])
    ensures DigitCount(s) == |s|
  {
    if s != [] {
      DigitCountAllDigits(s[1..]);
    }
  }

  /** A string holding a digit has a positive digit count. */
  lemma {:induction false} DigitCountPositive(s: string, i: nat)
    requires i < |s| && IsDigit(s[i])
    ensures DigitCount(s) >= 1
  {
    if i > 0 {
      DigitCountPositive(s[1..], i - 1);
    }
  }

  /**
   * `int(field)`: None where Python raises ValueError. Surrounding whitespace
   * is dropped and one leading sign is allowed; an accepted literal has at
   * least one and at most `MaxStrDigits` digits.
   */
  function ParseInt(field: string): (r: Option<int>)
    ensures r.Some? ==> 1 <= DigitCount(Strip(field)) <= MaxStrDigits
  {
    SignedNumeral(Strip(field))
  }

  /** A base-10 literal with an optional leading sign, whitespace already dropped. */
  function SignedNumeral(t: string): (r: Option<int>)
    ensures r.Some? ==> 1 <= DigitCount(t) <= MaxStrDigits
  {
    var signed := |t| > 0 && (t[0] == '-' || t[0] == '+');
    var body := if signed then t[1..] else t;
    if DigitCount(body) > MaxStrDigits then None
    else
      match Numeral(body)
      case None => None
      case Some(v) =>
        DigitCountPositive(body, |body| - 1);
        var n: int := v;
        Some(if signed && t[0] == '-' then -n else n)
  }

  function DigitChar(d: nat): (c: char)
    requires d < 10
    ensures IsDigit(c) && c as int - '0' as int == d
  {
    ('0' as int + d) as char
  }

  /** The decimal text of a natural number, without leading zeros. */
  function NatText(n: nat): (s: string)
    ensures |s| >= 1
    ensures forall i :: 0 <= i < |s| ==> IsDigit(s[i])
  {
    if n < 10 then [DigitChar(n)] else NatText(n / 10) + [DigitChar(n % 10)]
  }

  function Magnitude(n: int): nat {
    if n < 0 then -n else n
  }

  /** The text of n has no more digits than `int()` converts. */
  predicate WithinDigitLimit(n: int) {
    |NatText(Magnitude(n))| <= MaxStrDigits
  }

  /** `str(n)` for an integer. */
  function IntText(n: int): string {
    if n < 0 then "-" + NatText(-n) else NatText(n)
  }

  lemma {:induction false} NatTextValue(n: nat)
    ensures Numeral(NatText(n)) == Some(n)
  {
    if n >= 10 {
      NatTextValue(n / 10);
      var s := NatText(n);
      assert s[..|s| - 1] == NatText(n / 10);
      assert s[|s| - 2] != '_';
    }
  }

  /** Whitespace on both sides is dropped by `Strip`. */
  lemma {:induction false} StripPadded(w1: string, s: string, w2: string)
    requires forall i :: 0 <= i < |w1| ==> IsSpace(w1[i])
    requires forall i :: 0 <= i < |w2| ==> IsSpace(w2[i])
    requires |s| > 0 && !IsSpace(s[0]) && !IsSpace(s[|s| - 1])
    ensures Strip(w1 + s + w2) == s
  {
    TrimRightPadded(w1 + s, w2);
    TrimLeftPadded(w1, s);
  }

  lemma {:induction false} TrimRightPadded(s: string, w: string)
    requires forall i :: 0 <= i < |w| ==> IsSpace(w[i])
    requires |s| > 0 && !IsSpace(s[|s| - 1])
    ensures TrimRight(s + w) == s
  {
    if w == [] {
      assert s + w == s;
    } else {
      assert (s + w)[..|s + w| - 1] == s + w[..|w| - 1];
      TrimRightPadded(s, w[..|w| - 1]);
    }
  }

  lemma {:induction false} TrimLeftPadded(w: string, s: string)
    requires forall i :: 0 <= i < |w| ==> IsSpace(w[i])
    requires |s| > 0 && !IsSpace(s[0])
    ensures TrimLeft(w + s) == s
  {
    if w == [] {
      assert w + s == s;
    } else {
      assert (w + s)[1..] == w[1..] + s;
      TrimLeftPadded(w[1..], s);
    }
  }

  /**
   * `int(str(n))` is n, also with `IsSpace` whitespace after it (a field that
   * ends the line carries the newline), when n has at most `MaxStrDigits`
   * digits; with more, `int()` raises.
   */
  lemma ParseIntText(n: int, w: string)
    requires forall i :: 0 <= i < |w| ==> IsSpace(w[i])
    ensures ParseInt(IntText(n) + w) == if WithinDigitLimit(n) then Some(n) else None
  {
    var s := IntText(n);
    IntTextEnds(n);
    StripPadded([], s, w);
    assert [] + s + w == s + w;
    ParseIntOfText(s + w, n);
  }

  /** The text of an integer starts with a sign or a digit and ends with a digit. */
  lemma IntTextEnds(n: int)
    ensures |IntText(n)| >= 1
    ensures IntText(n)[0] == '-' || IsDigit(IntText(n)[0])
    ensures IsDigit(IntText(n)[|IntText(n)| - 1])
  {
    if n < 0 {
      var d := NatText(-n);
      assert IntText(n) == "-" + d;
      assert IntText(n)[|IntText(n)| - 1] == d[|d| - 1];
    }
  }

  /** A field that strips down to the decimal text of n converts to n. */
  lemma ParseIntOfText(field: string, n: int)
    requires Strip(field) == IntText(n)
    ensures ParseInt(field) == if WithinDigitLimit(n) then Some(n) else None
  {
    SignedNumeralText(n);
  }

  /** The decimal text of n, with its sign, reads back as n. */
  lemma SignedNumeralText(n: int)
    ensures SignedNumeral(IntText(n)) == if WithinDigitLimit(n) then Some(n) else None
  {
    var t := IntText(n);
    var m := Magnitude(n);
    NatTextValue(m);
    DigitCountAllDigits(NatText(m));
    if n < 0 {
      assert t[0] == '-' && t[1..] == NatText(m);
    } else {
      assert t == NatText(m) && IsDigit(t[0]);
    }
  }

  /** A literal must end with a digit. */
  lemma SignedNumeralEndsWithDigit(t: string)
    requires |t| > 0 && !IsDigit(t[|t| - 1])
    ensures SignedNumeral(t) == None
  {
    var signed := t[0] == '-' || t[0] == '+';
    var body := if signed then t[1..] else t;
    assert body == [] || body[|body| - 1] == t[|t| - 1];
  }

  /**
   * A separator character 0x1C-0x1F after a number makes `int()` raise, also
   * with whitespace after it, although `str.strip()` would have removed it.
   */
  lemma ParseIntRejectsSeparator(n: int, c: char, w: string)
    requires 28 <= c as int <= 31
    requires forall i :: 0 <= i < |w| ==> IsSpace(w[i])
    ensures ParseInt(IntText(n) + [c] + w) == None
  {
    var s := IntText(n) + [c];
    IntTextEnds(n);
    assert s[0] == IntText(n)[0];
    assert s[|s| - 1] == c;
    StripPadded([], s, w);
    assert [] + s + w == s + w;
    SignedNumeralEndsWithDigit(s);
  }
}
