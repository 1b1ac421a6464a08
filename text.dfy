/**
 * The PHP string built-ins the query builder and the helpers rely on:
 * implode, explode, decimal rendering of integers, ASCII strtolower /
 * strtoupper, trim, str_replace of one character.
 */
module Text {

  /** implode(sep, parts) */
  function Join(sep: string, parts: seq<string>): string
  {
    if |parts| == 0 then ""
    else if |parts| == 1 then parts[0]
    else parts[0] + sep + Join(sep, parts[1..])
  }

  lemma {:induction false} JoinAppend(sep: string, a: seq<string>, b: seq<string>)
    requires |a| > 0 && |b| > 0
    ensures Join(sep, a + b) == Join(sep, a) + sep + Join(sep, b)
  {
    if |a| == 1 {
      assert (a + b)[1..] == b;
    } else {
      assert (a + b)[1..] == a[1..] + b;
      JoinAppend(sep, a[1..], b);
    }
  }

  lemma JoinCons(sep: string, x: string, rest: seq<string>)
    requires |rest| > 0
    ensures Join(sep, [x] + rest) == x + sep + Join(sep, rest)
  {
    assert ([x] + rest)[1..] == rest;
  }

  lemma Join2(sep: string, a: string, b: string)
    ensures Join(sep, [a, b]) == a + sep + b
  {
    JoinCons(sep, a, [b]);
    assert [a, b] == [a] + [b];
  }

  lemma PrefixedJoin2(prefix: string, sep: string, a: string, b: string)
    ensures prefix + Join(sep, [a, b]) == prefix + a + sep + b
  {
    Join2(sep, a, b);
    assert prefix + (a + sep + b) == prefix + a + sep + b;
  }

  lemma Join3(sep: string, a: string, b: string, c: string)
    ensures Join(sep, [a, b, c]) == a + sep + b + sep + c
  {
    Join2(sep, b, c);
    JoinCons(sep, a, [b, c]);
    assert [a, b, c] == [a] + [b, c];
  }

  lemma Join4(sep: string, a: string, b: string, c: string, d: string)
    ensures Join(sep, [a, b, c, d]) == a + sep + b + sep + c + sep + d
  {
    Join3(sep, b, c, d);
    JoinCons(sep, a, [b, c, d]);
    assert [a, b, c, d] == [a] + [b, c, d];
  }

  /** explode(sep, s) for a non-empty separator: the pieces between the
      non-overlapping occurrences of sep, scanning left to right. */
  function Explode(sep: string, s: string): (parts: seq<string>)
    requires |sep| > 0
    ensures |parts| > 0
    decreases |s|
  {
    if |s| < |sep| then [s]
    else if s[..|sep|] == sep then [""] + Explode(sep, s[|sep|..])
    else
      var rest := Explode(sep, s[1..]);
      [[s[0]] + rest[0]] + rest[1..]
  }

  /** implode undoes explode. */
  lemma {:induction false} JoinExplode(sep: string, s: string)
    requires |sep| > 0
    ensures Join(sep, Explode(sep, s)) == s
    decreases |s|
  {
    var parts := Explode(sep, s);
    if |s| < |sep| {
      assert parts == [s];
    } else if s[..|sep|] == sep {
      var tail := s[|sep|..];
      var rest := Explode(sep, tail);
      assert parts == [""] + rest;
      JoinExplode(sep, tail);
      JoinCons(sep, "", rest);
      assert s == sep + tail;
    } else {
      var tail := s[1..];
      var rest := Explode(sep, tail);
      assert parts == [[s[0]] + rest[0]] + rest[1..];
      JoinExplode(sep, tail);
      JoinWidenHead(sep, s[0], rest);
      assert s == [s[0]] + tail;
    }
  }

  /** Widening the first part by one character widens the joined string. */
  lemma JoinWidenHead(sep: string, x: char, rest: seq<string>)
    requires |rest| > 0
    ensures Join(sep, [[x] + rest[0]] + rest[1..]) == [x] + Join(sep, rest)
  {
    var head := [x] + rest[0];
    if |rest| == 1 {
      assert [head] + rest[1..] == [head];
      assert rest == [rest[0]];
    } else {
      JoinCons(sep, head, rest[1..]);
      JoinCons(sep, rest[0], rest[1..]);
      assert rest == [rest[0]] + rest[1..];
    }
  }

  /** A string without the separator character explodes to itself. */
  lemma {:induction false} ExplodeWithout(c: char, s: string)
    requires c !in s
    ensures Explode([c], s) == [s]
    decreases |s|
  {
    if |s| >= 1 {
      assert s[0] != c && s[..1][0] == s[0];
      ExplodeWithout(c, s[1..]);
      assert [s[0]] + s[1..] == s;
    }
  }

  /** A leading separator character starts an empty piece. */
  lemma ExplodeConsSep(c: char, t: string)
    ensures Explode([c], [c] + t) == [""] + Explode([c], t)
  {
    var s := [c] + t;
    assert s[..1] == [c] && s[1..] == t;
  }

  /** A leading other character joins the first piece. */
  lemma ExplodeConsOther(c: char, x: char, t: string)
    requires x != c
    ensures var r := Explode([c], t);
      Explode([c], [x] + t) == [[x] + r[0]] + r[1..]
  {
    var s := [x] + t;
    assert s[0] == x && s[..1] != [c] && s[1..] == t;
  }

  /** Exploding at a one-character separator splits at every occurrence: the
      pieces of a + sep + b are those of a followed by those of b. */
  lemma {:induction false} ExplodeAround(c: char, a: string, b: string)
    ensures Explode([c], a + [c] + b) == Explode([c], a) + Explode([c], b)
    decreases |a|
  {
    if a == [] {
      ExplodeConsSep(c, b);
      assert a + [c] + b == [c] + b;
    } else {
      ExplodeAround(c, a[1..], b);
      ExplodeAroundCons(c, a[0], a[1..], b);
      assert a == [a[0]] + a[1..];
    }
  }

  /** The step of ExplodeAround: one more leading character, separator or not. */
  lemma ExplodeAroundCons(c: char, x: char, t: string, b: string)
    requires Explode([c], t + [c] + b) == Explode([c], t) + Explode([c], b)
    ensures Explode([c], [x] + t + [c] + b) == Explode([c], [x] + t) + Explode([c], b)
  {
    var u := t + [c] + b;
    var A, B, R := Explode([c], t), Explode([c], b), Explode([c], u);
    assert [x] + t + [c] + b == [x] + u;
    if x == c {
      ExplodeConsSep(c, u);
      ExplodeConsSep(c, t);
      PrependAssoc("", A, B);
    } else {
      ExplodeConsOther(c, x, u);
      ExplodeConsOther(c, x, t);
      ExtendHead([x], A, B);
    }
  }

  lemma PrependAssoc(h: string, A: seq<string>, B: seq<string>)
    ensures [h] + (A + B) == ([h] + A) + B
  {
  }

  /** Widening the first part of A + B widens the first part of A. */
  lemma ExtendHead(x: string, A: seq<string>, B: seq<string>)
    requires |A| > 0
    ensures var R := A + B;
      [x + R[0]] + R[1..] == ([x + A[0]] + A[1..]) + B
  {
    var R := A + B;
    assert R[0] == A[0] && R[1..] == A[1..] + B;
  }

  /** explode undoes implode when no part holds the one-character separator. */
  lemma {:induction false} ExplodeJoin(c: char, parts: seq<string>)
    requires |parts| > 0
    requires forall i :: 0 <= i < |parts| ==> c !in parts[i]
    ensures Explode([c], Join([c], parts)) == parts
    decreases |parts|
  {
    ExplodeWithout(c, parts[0]);
    if |parts| > 1 {
      JoinCons([c], parts[0], parts[1..]);
      assert [parts[0]] + parts[1..] == parts;
      ExplodeAround(c, parts[0], Join([c], parts[1..]));
      ExplodeJoin(c, parts[1..]);
    }
  }

  /** No piece of an explode contains its one-character separator. */
  lemma {:induction false} ExplodePiecesAvoid(c: char, s: string)
    ensures forall i :: 0 <= i < |Explode([c], s)| ==> c !in Explode([c], s)[i]
    decreases |s|
  {
    if |s| >= 1 {
      ExplodePiecesAvoid(c, s[|[c]|..]);
      ExplodePiecesAvoid(c, s[1..]);
    }
  }

  predicate IsDigit(c: char)
  {
    '0' <= c <= '9'
  }

  predicate AllDigits(s: string)
  {
    forall i :: 0 <= i < |s| ==> IsDigit(s[i])
  }

  function Digit(d: nat): (c: char)
    requires d < 10
    ensures IsDigit(c) && c as int - '0' as int == d
  {
    ('0' as int + d) as char
  }

  /** Decimal rendering of a natural number, as PHP interpolates an int. */
  function NatToString(n: nat): (s: string)
    ensures |s| > 0 && AllDigits(s)
    decreases n
  {
    if n < 10 then [Digit(n)] else NatToString(n / 10) + [Digit(n % 10)]
  }

  function IntToString(i: int): string
  {
    if i < 0 then "-" + NatToString(-i) else NatToString(i)
  }

  /** The number a string of decimal digits denotes. */
  function DigitsValue(s: string): nat
    requires AllDigits(s)
  {
    if s == [] then 0
    else DigitsValue(s[..|s| - 1]) * 10 + (s[|s| - 1] as int - '0' as int)
  }

  /** Reading the digits back gives the number: the rendering is injective. */
  lemma {:induction false} DigitsValueOfNatToString(n: nat)
    ensures DigitsValue(NatToString(n)) == n
    decreases n
  {
    if n >= 10 {
      var s := NatToString(n);
      assert s[..|s| - 1] == NatToString(n / 10);
      DigitsValueOfNatToString(n / 10);
    }
  }

  /** The longest prefix made of decimal digits. */
  function DigitPrefix(s: string): (d: string)
    ensures AllDigits(d) && |d| <= |s| && d == s[..|d|]
  {
    if s != [] && IsDigit(s[0]) then [s[0]] + DigitPrefix(s[1..]) else []
  }

  lemma {:induction false} DigitPrefixStops(ds: string, rest: string)
    requires AllDigits(ds)
    requires rest != [] && !IsDigit(rest[0])
    ensures DigitPrefix(ds + rest) == ds
  {
    if ds != [] {
      assert (ds + rest)[1..] == ds[1..] + rest;
      DigitPrefixStops(ds[1..], rest);
    }
  }

  function LowerChar(c: char): char
  {
    if 'A' <= c <= 'Z' then (c as int + 32) as char else c
  }

  function UpperChar(c: char): char
  {
    if 'a' <= c <= 'z' then (c as int - 32) as char else c
  }

  /** strtolower (ASCII, locale-independent as in PHP 8.2+) */
  function ToLower(s: string): (r: string)
    ensures |r| == |s| && forall i :: 0 <= i < |s| ==> r[i] == LowerChar(s[i])
  {
    seq(|s|, i requires 0 <= i < |s| => LowerChar(s[i]))
  }

  /** strtoupper (ASCII) */
  function ToUpper(s: string): (r: string)
    ensures |r| == |s| && forall i :: 0 <= i < |s| ==> r[i] == UpperChar(s[i])
  {
    seq(|s|, i requires 0 <= i < |s| => UpperChar(s[i]))
  }

  /** Lower-casing forgets any earlier upper-casing. */
  lemma LowerOfUpper(s: string)
    ensures ToLower(ToUpper(s)) == ToLower(s)
  {
    var a, b := ToLower(ToUpper(s)), ToLower(s);
    forall i | 0 <= i < |s| ensures a[i] == b[i] {
      var c := s[i];
      if 'a' <= c <= 'z' {
        assert UpperChar(c) as int == c as int - 32;
      }
    }
  }

  lemma LowerIdempotent(s: string)
    ensures ToLower(ToLower(s)) == ToLower(s)
  {
  }

  /** The characters PHP's trim removes by default: " \t\n\r\0\x0B". */
  predicate IsTrimmed(c: char)
  {
    c == ' ' || c == '\t' || c == '\n' || c == '\r' || c == '\0' || c == '\U{0B}'
  }

  function TrimLeft(s: string): (r: string)
    ensures |r| <= |s| && r == s[|s| - |r|..]
    ensures forall i :: 0 <= i < |s| - |r| ==> IsTrimmed(s[i])
    ensures r != [] ==> !IsTrimmed(r[0])
  {
    if s != [] && IsTrimmed(s[0]) then TrimLeft(s[1..]) else s
  }

  function TrimRight(s: string): (r: string)
    ensures |r| <= |s| && r == s[..|r|]
    ensures forall i :: |r| <= i < |s| ==> IsTrimmed(s[i])
    ensures r != [] ==> !IsTrimmed(r[|r| - 1])
  {
    if s != [] && IsTrimmed(s[|s| - 1]) then TrimRight(s[..|s| - 1]) else s
  }

  /** trim(s): s without its leading and trailing whitespace. */
  function Trim(s: string): (r: string)
    ensures |r| <= |s|
    ensures r != [] ==> !IsTrimmed(r[0]) && !IsTrimmed(r[|r| - 1])
    ensures (forall i :: 0 <= i < |s| ==> IsTrimmed(s[i])) <==> r == []
  {
    TrimRight(TrimLeft(s))
  }

  /** str_replace(c, "", s) */
  function RemoveChar(s: string, c: char): (r: string)
    ensures c !in r
    ensures |r| <= |s|
  {
    if s == [] then []
    else (if s[0] == c then [] else [s[0]]) + RemoveChar(s[1..], c)
  }

  /** Removing a character the string does not hold changes nothing. */
  lemma {:induction false} RemoveAbsentChar(s: string, c: char)
    requires c !in s
    ensures RemoveChar(s, c) == s
  {
    if s != [] {
      RemoveAbsentChar(s[1..], c);
      assert [s[0]] + s[1..] == s;
    }
  }

  /** str_replace(from, to, s) for single characters */
  function ReplaceChar(s: string, from: char, to: char): (r: string)
    ensures |r| == |s|
    ensures forall i :: 0 <= i < |s| ==> r[i] == if s[i] == from then to else s[i]
  {
    seq(|s|, i requires 0 <= i < |s| => if s[i] == from then to else s[i])
  }
}
