// Text operations the Python sources lean on: str.strip, int(text), str(int) and the
// code-point order of strings.
module Texts {
  import opened Options

  // ---- strip ----

  // What strip() and strip(' /') remove.
  datatype CharClass = Whitespace | SpaceOrSlash

  // The characters str.isspace accepts.
  predicate IsSpace(c: char) {
    '\t' <= c <= '\r' || '\U{1C}' <= c <= ' ' || c == '\U{85}' || c == '\U{A0}' || c == '\U{1680}' ||
    '\U{2000}' <= c <= '\U{200A}' || c == '\U{2028}' || c == '\U{2029}' || c == '\U{202F}' ||
    c == '\U{205F}' || c == '\U{3000}'
  }

  predicate Member(c: char, k: CharClass) {
    match k
    case Whitespace => IsSpace(c)
    case SpaceOrSlash => c == ' ' || c == '/'
  }

  function StripLeft(s: string, k: CharClass): (r: string)
    ensures r == "" || !Member(r[0], k)
    ensures |r| <= |s| && r == s[|s| - |r|..]
  {
    if s == "" || !Member(s[0], k) then s else StripLeft(s[1..], k)
  }

  function StripRight(s: string, k: CharClass): (r: string)
    ensures r == "" || !Member(r[|r| - 1], k)
    ensures r <= s
  {
    if s == "" || !Member(s[|s| - 1], k) then s else StripRight(s[..|s| - 1], k)
  }

  function Strip(s: string, k: CharClass): (r: string)
    ensures Trim(r, k)
    ensures Trim(s, k) ==> r == s
  {
    StripRight(StripLeft(s, k), k)
  }

  // Nothing left to strip.
  predicate Trim(s: string, k: CharClass) {
    s == "" || (!Member(s[0], k) && !Member(s[|s| - 1], k))
  }

  // Strip takes off everything of the class at either end and nothing else.
  lemma StripIs(left: string, s: string, right: string, k: CharClass)
    requires Trim(s, k) && (forall c <- left :: Member(c, k)) && (forall c <- right :: Member(c, k))
    requires s == "" ==> right == ""
    ensures Strip(left + s + right, k) == s
  {
    assert left + s + right == left + (s + right);
    LeftIs(left, s + right, k);
    RightIs(s, right, k);
    var rest := s + right;
    assert StripLeft(left + s + right, k) == rest && StripRight(rest, k) == s;
  }

  lemma {:induction false} LeftIs(left: string, s: string, k: CharClass)
    requires (forall c <- left :: Member(c, k)) && (s == "" || !Member(s[0], k))
    ensures StripLeft(left + s, k) == s
  {
    if left == "" {
      assert left + s == s;
    } else {
      assert (left + s)[1..] == left[1..] + s && (left + s)[0] == left[0];
      LeftIs(left[1..], s, k);
    }
  }

  lemma {:induction false} RightIs(s: string, right: string, k: CharClass)
    requires (forall c <- right :: Member(c, k)) && (s == "" || !Member(s[|s| - 1], k))
    ensures StripRight(s + right, k) == s
  {
    if right == "" {
      assert s + right == s;
    } else {
      var all, front := s + right, right[..|right| - 1];
      assert all[..|all| - 1] == s + front && all[|all| - 1] == right[|right| - 1];
      RightIs(s, front, k);
    }
  }

  // ---- decimal integers ----

  predicate IsDigit(c: char) { '0' <= c <= '9' }

  function Digit(n: nat): (c: char)
    requires n < 10
    ensures IsDigit(c) && DigitValue(c) == n
  {
    '0' + n as char
  }

  function DigitValue(c: char): (n: nat)
    requires IsDigit(c)
    ensures n < 10 && '0' + n as char == c
  {
    (c - '0') as nat
  }

  predicate AllDigits(s: string) {
    forall c <- s :: IsDigit(c)
  }

  function Value(s: string): nat
    requires AllDigits(s)
  {
    if s == "" then 0 else 10 * Value(s[..|s| - 1]) + DigitValue(s[|s| - 1])
  }

  // str(n)
  function NatText(n: nat): (s: string)
    ensures s != "" && AllDigits(s) && Value(s) == n
    ensures n != 0 ==> s[0] != '0'
    ensures n == 0 ==> s == "0"
  {
    if n < 10 then
      assert Value([Digit(n)]) == 10 * Value([Digit(n)][..0]) + n;
      [Digit(n)]
    else
      var p := NatText(n / 10);
      assert (p + [Digit(n % 10)])[..|p|] == p;
      p + [Digit(n % 10)]
  }

  function IntText(n: int): string {
    if n < 0 then "-" + NatText(-n) else NatText(n)
  }

  // Digits with single underscores between them.
  predicate Digits(s: string) {
    s != "" && IsDigit(s[|s| - 1]) &&
    (|s| == 1 || Digits(s[..|s| - 1]) || (s[|s| - 2] == '_' && Digits(s[..|s| - 2])))
  }

  function WithoutUnderscores(s: string): (r: string)
    ensures (forall c <- s :: IsDigit(c) || c == '_') ==> AllDigits(r)
    ensures AllDigits(s) ==> r == s
  {
    if s == "" then ""
    else if s[0] == '_' then assert s[0] in s; WithoutUnderscores(s[1..])
    else [s[0]] + WithoutUnderscores(s[1..])
  }

  lemma {:induction false} DigitsChars(s: string)
    requires Digits(s)
    ensures forall c <- s :: IsDigit(c) || c == '_'
  {
    if |s| > 1 {
      if Digits(s[..|s| - 1]) {
        DigitsChars(s[..|s| - 1]);
        assert s == s[..|s| - 1] + [s[|s| - 1]];
      } else {
        DigitsChars(s[..|s| - 2]);
        assert s == s[..|s| - 2] + [s[|s| - 2], s[|s| - 1]];
      }
    }
  }

  lemma {:induction false} DigitsOf(s: string)
    requires s != "" && AllDigits(s)
    ensures Digits(s)
  {
    assert s[|s| - 1] in s;
    if |s| > 1 {
      DigitsOf(s[..|s| - 1]);
    }
  }

  // int(text) on stripped text, restricted to ASCII digits; None is a ValueError.
  function ParseInt(s: string): Option<int> {
    if Digits(s) then DigitsChars(s); Some(Value(WithoutUnderscores(s)))
    else if s != "" && s[0] in "+-" && Digits(s[1..]) then
      DigitsChars(s[1..]);
      var v: int := Value(WithoutUnderscores(s[1..]));
      Some(if s[0] == '-' then -v else v)
    else None
  }

  lemma ParseIntText(n: int)
    ensures ParseInt(IntText(n)) == Some(n)
  {
    if n < 0 {
      DigitsOf(NatText(-n));
      assert IntText(n)[1..] == NatText(-n);
      assert IntText(n)[0] == '-' && '-' in IntText(n);
      if Digits(IntText(n)) {
        DigitsChars(IntText(n));
        assert false;
      }
    } else {
      DigitsOf(NatText(n));
    }
  }

  // ---- the order of strings ----

  predicate LexLeq(a: string, b: string) {
    a == "" || (b != "" && (a[0] < b[0] || (a[0] == b[0] && LexLeq(a[1..], b[1..]))))
  }

  lemma {:induction false} LexTotal(a: string, b: string)
    ensures LexLeq(a, b) || LexLeq(b, a)
  {
    if a != "" && b != "" && a[0] == b[0] {
      LexTotal(a[1..], b[1..]);
    }
  }

  lemma {:induction false} LexAntisymmetric(a: string, b: string)
    requires LexLeq(a, b) && LexLeq(b, a)
    ensures a == b
  {
    if a != "" {
      LexAntisymmetric(a[1..], b[1..]);
      assert a == [a[0]] + a[1..] && b == [b[0]] + b[1..];
    }
  }

  lemma {:induction false} LexTransitive(a: string, b: string, c: string)
    requires LexLeq(a, b) && LexLeq(b, c)
    ensures LexLeq(a, c)
  {
    if a != "" && a[0] == b[0] == c[0] {
      LexTransitive(a[1..], b[1..], c[1..]);
    }
  }

  // ---- split and join on one character ----

  function Split(s: string, c: char): (parts: seq<string>)
    ensures parts != []
  {
    if s == "" then [""]
    else
      var rest := Split(s[1..], c);
      if s[0] == c then [""] + rest else [[s[0]] + rest[0]] + rest[1..]
  }

  function Join(parts: seq<string>, c: char): string {
    if parts == [] then "" else if |parts| == 1 then parts[0] else parts[0] + [c] + Join(parts[1..], c)
  }

  lemma {:induction false} JoinSplit(s: string, c: char)
    ensures Join(Split(s, c), c) == s
  {
    if s != "" {
      JoinSplit(s[1..], c);
      var rest := Split(s[1..], c);
      if s[0] == c {
        assert ([""] + rest)[1..] == rest;
        assert s == [c] + s[1..];
      } else {
        var parts := [[s[0]] + rest[0]] + rest[1..];
        assert parts[1..] == rest[1..];
        assert s == [s[0]] + s[1..];
        if |rest| > 1 {
          assert Join(rest, c) == rest[0] + [c] + Join(rest[1..], c);
          assert [s[0]] + (rest[0] + [c] + Join(rest[1..], c)) == [s[0]] + rest[0] + [c] + Join(rest[1..], c);
        }
      }
    }
  }

  lemma {:induction false} SplitPlain(s: string, c: char)
    requires c !in s
    ensures Split(s, c) == [s]
  {
    if s != "" {
      SplitPlain(s[1..], c);
      assert s[0] in s && [s[0]] + s[1..] == s;
    }
  }

  lemma {:induction false} SplitAtFirst(s: string, rest: string, c: char)
    requires c !in s
    ensures Split(s + [c] + rest, c) == [s] + Split(rest, c)
  {
    var t := s + [c] + rest;
    if s == "" {
      assert t[1..] == rest;
    } else {
      SplitAtFirst(s[1..], rest, c);
      assert t[1..] == s[1..] + [c] + rest && t[0] == s[0] && s[0] in s;
      assert [s[0]] + s[1..] == s;
    }
  }
}
