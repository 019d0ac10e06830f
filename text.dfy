/** String operations of the .NET runtime that the chat protocol relies on:
    String.Split(char), ASCII lower-casing, Int32.ToString() for non-negative
    values and Int32.Parse for plain decimal digits. */
module Text {

  datatype Option<+T> = None | Some(value: T)

  /** String.Split(sep): the pieces between separators, in order. An empty
      string gives one empty piece, a trailing separator a trailing empty piece. */
  function Split(s: string, sep: char): (r: seq<string>)
    ensures |r| >= 1
    ensures SeparatorFree(r, sep)
    decreases |s|
  {
    if s == [] then [""]
    else
      var rest := Split(s[1..], sep);
      if s[0] == sep then [""] + rest
      else [[s[0]] + rest[0]] + rest[1..]
  }

  /** No field holds the separator character. */
  predicate SeparatorFree(fields: seq<string>, sep: char)
  {
    forall k :: 0 <= k < |fields| ==> sep !in fields[k]
  }

  /** Each field followed by the separator: "a#b#" for ["a", "b"]. */
  function Terminated(fields: seq<string>, sep: char): string
  {
    if fields == [] then "" else fields[0] + [sep] + Terminated(fields[1..], sep)
  }

  function CharCount(s: string, c: char): nat
  {
    if s == [] then 0 else (if s[0] == c then 1 else 0) + CharCount(s[1..], c)
  }

  /** Split yields one piece more than there are separators. */
  lemma {:induction false} SplitLength(s: string, sep: char)
    ensures |Split(s, sep)| == CharCount(s, sep) + 1
    decreases |s|
  {
    if s != [] {
      SplitLength(s[1..], sep);
    }
  }

  /** A separator-free prefix ended by a separator becomes exactly one piece. */
  lemma {:induction false} SplitAfter(f: string, sep: char, tail: string)
    requires sep !in f
    ensures Split(f + [sep] + tail, sep) == [f] + Split(tail, sep)
    decreases |f|
  {
    var s := f + [sep] + tail;
    if f == [] {
      assert s[0] == sep && s[1..] == tail;
    } else {
      assert s[0] == f[0] && s[1..] == f[1..] + [sep] + tail;
      SplitAfter(f[1..], sep, tail);
      assert [f[0]] + f[1..] == f;
    }
  }

  /** Splitting separator-terminated fields recovers the fields, in order. */
  lemma {:induction false} SplitTerminated(fields: seq<string>, sep: char, tail: string)
    requires SeparatorFree(fields, sep)
    ensures Split(Terminated(fields, sep) + tail, sep) == fields + Split(tail, sep)
    decreases |fields|
  {
    if fields == [] {
      assert Terminated(fields, sep) + tail == tail;
    } else {
      var head, more := fields[0], fields[1..];
      var rest := Terminated(more, sep) + tail;
      var whole := Terminated(fields, sep) + tail;
      TerminatedHead(fields, sep, tail);
      assert whole == head + [sep] + rest;
      SeparatorFreeTail(fields, sep);
      SplitAfter(head, sep, rest);
      assert Split(whole, sep) == [head] + Split(rest, sep);
      SplitTerminated(more, sep, tail);
      var st := Split(tail, sep);
      assert Split(rest, sep) == more + st;
      assert fields == [head] + more;
      assert [head] + (more + st) == fields + st;
    }
  }

  lemma {:induction false} TerminatedHead(fields: seq<string>, sep: char, tail: string)
    requires fields != []
    ensures Terminated(fields, sep) + tail == fields[0] + [sep] + (Terminated(fields[1..], sep) + tail)
  {
  }

  lemma {:induction false} SeparatorFreeTail(fields: seq<string>, sep: char)
    requires fields != [] && SeparatorFree(fields, sep)
    ensures sep !in fields[0] && SeparatorFree(fields[1..], sep)
  {
    forall k | 0 <= k < |fields[1..]| ensures sep !in fields[1..][k] {
      assert fields[1..][k] == fields[k + 1];
    }
  }

  /** Splitting separator-terminated fields gives the fields and one final empty piece. */
  lemma {:induction false} SplitTerminatedAll(fields: seq<string>, sep: char)
    requires SeparatorFree(fields, sep)
    ensures Split(Terminated(fields, sep), sep) == fields + [""]
  {
    SplitTerminated(fields, sep, "");
    assert Split("", sep) == [""];
    var t := Terminated(fields, sep);
    assert t + "" == t;
  }

  /** A separator-free string is a single piece. */
  lemma {:induction false} SplitSingle(f: string, sep: char)
    requires sep !in f
    ensures Split(f, sep) == [f]
    decreases |f|
  {
    if f != [] {
      SplitSingle(f[1..], sep);
      assert [f[0]] + f[1..] == f;
    }
  }

  lemma {:induction false} TerminatedCons(f: string, rest: seq<string>, sep: char)
    ensures Terminated([f] + rest, sep) == f + [sep] + Terminated(rest, sep)
  {
    assert ([f] + rest)[0] == f && ([f] + rest)[1..] == rest;
  }

  lemma {:induction false} TerminatedAppend(a: seq<string>, b: seq<string>, sep: char)
    ensures Terminated(a + b, sep) == Terminated(a, sep) + Terminated(b, sep)
    decreases |a|
  {
    if a != [] {
      assert (a + b)[1..] == a[1..] + b;
      TerminatedAppend(a[1..], b, sep);
    } else {
      assert a + b == b;
    }
  }

  /** Char.ToLower restricted to ASCII letters. */
  function LowerChar(c: char): char
  {
    if 'A' <= c <= 'Z' then (c as int + 32) as char else c
  }

  /** The upper-case partner of a lower-case ASCII letter. */
  function UpperChar(c: char): char
  {
    if 'a' <= c <= 'z' then (c as int - 32) as char else c
  }

  /** A character lower-cases to a given lower-case letter exactly when it is
      that letter or its capital. */
  lemma {:induction false} LowerCharIs(c: char, l: char)
    requires 'a' <= l <= 'z'
    ensures LowerChar(c) == l <==> c == l || c == UpperChar(l)
  {
  }

  function Lower(s: string): (r: string)
    ensures |r| == |s|
    ensures forall k :: 0 <= k < |s| ==> r[k] == LowerChar(s[k])
  {
    seq(|s|, k requires 0 <= k < |s| => LowerChar(s[k]))
  }

  predicate IsDigit(c: char)
  {
    '0' <= c <= '9'
  }

  predicate AllDigits(s: string)
  {
    forall k :: 0 <= k < |s| ==> IsDigit(s[k])
  }

  function DigitChar(d: nat): (c: char)
    requires d < 10
    ensures IsDigit(c)
  {
    ('0' as int + d) as char
  }

  /** Int32.ToString() of a non-negative value: its decimal digits, no sign, no padding. */
  function NatToString(n: nat): (r: string)
    ensures |r| >= 1 && AllDigits(r)
    decreases n
  {
    if n < 10 then [DigitChar(n)] else NatToString(n / 10) + [DigitChar(n % 10)]
  }

  function DigitsValue(s: string): nat
    requires AllDigits(s)
  {
    if s == [] then 0
    else DigitsValue(s[..|s| - 1]) * 10 + (s[|s| - 1] as int - '0' as int)
  }

  /** Int32.Parse for a string of decimal digits; any other string is refused. */
  function ParseNat(s: string): (r: Option<nat>)
    ensures r.Some? <==> s != [] && AllDigits(s)
  {
    if s != [] && AllDigits(s) then Some(DigitsValue(s)) else None
  }

  /** Printing a number and parsing it back gives the number. */
  lemma {:induction false} ParseNatToString(n: nat)
    ensures ParseNat(NatToString(n)) == Some(n)
    decreases n
  {
    var s := NatToString(n);
    if n < 10 {
      assert s == [DigitChar(n)] && |s| == 1;
      assert s[..0] == [];
      assert s[0] as int - '0' as int == n;
      assert DigitsValue(s) == DigitsValue(s[..0]) * 10 + (s[0] as int - '0' as int);
    } else {
      ParseNatToString(n / 10);
      assert s[..|s| - 1] == NatToString(n / 10);
    }
  }

  lemma {:induction false} NatToStringInjective(a: nat, b: nat)
    requires NatToString(a) == NatToString(b)
    ensures a == b
  {
    ParseNatToString(a);
    ParseNatToString(b);
  }

  /** A decimal numeral contains neither a letter nor a separator. */
  lemma {:induction false} DigitsHaveNoSeparator(s: string, c: char)
    requires AllDigits(s) && !IsDigit(c)
    ensures c !in s
  {
  }

  function IndexOf<T(==)>(s: seq<T>, x: T): (r: Option<nat>)
    ensures r.Some? ==> r.value < |s| && s[r.value] == x
    ensures r.Some? ==> forall k :: 0 <= k < r.value ==> s[k] != x
    ensures r.None? <==> x !in s
  {
    if s == [] then None
    else if s[0] == x then Some(0)
    else match IndexOf(s[1..], x)
      case None => None
      case Some(i) => Some(i + 1)
  }

  function StartsWith(s: string, prefix: string): bool
  {
    |prefix| <= |s| && s[..|prefix|] == prefix
  }
}
