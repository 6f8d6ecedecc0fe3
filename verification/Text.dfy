// Strings as the controller and the version script use them: decimal
// numerals, and fields separated by one character.
module Text {

  datatype Option<+T> = None | Some(value: T)

  // ----- decimal numerals -----

  predicate IsDigit(c: char) {
    '0' <= c <= '9'
  }

  predicate AllDigits(s: string) {
    forall i :: 0 <= i < |s| ==> IsDigit(s[i])
  }

  // The pattern [0-9]+ .
  predicate Numeral(s: string) {
    s != "" && AllDigits(s)
  }

  function Value(s: string): nat
    requires AllDigits(s)
  {
    if s == "" then 0
    else Value(s[..|s| - 1]) * 10 + (s[|s| - 1] - '0') as nat
  }

  function Digit(d: nat): char
    requires d < 10
  {
    '0' + d as char
  }

  function Show(n: nat): string {
    if n < 10 then [Digit(n)] else Show(n / 10) + [Digit(n % 10)]
  }

  // A numeral without a superfluous leading zero.
  predicate Canonical(s: string) {
    Numeral(s) && (s[0] == '0' ==> |s| == 1)
  }

  lemma {:induction false} ShowIsCanonical(n: nat)
    ensures Canonical(Show(n)) && Value(Show(n)) == n
    ensures n > 0 ==> Show(n)[0] != '0'
  {
    if n < 10 {
      assert Show(n)[..0] == "";
    } else {
      ShowIsCanonical(n / 10);
      assert Show(n)[..|Show(n)| - 1] == Show(n / 10);
    }
  }

  lemma {:induction false} CanonicalIsShow(s: string)
    requires Canonical(s)
    ensures Show(Value(s)) == s
    ensures s[0] != '0' ==> Value(s) > 0
  {
    var init, last := s[..|s| - 1], s[|s| - 1];
    assert s == init + [last];
    if |s| == 1 {
      assert init == "";
    } else {
      assert Canonical(init);
      CanonicalIsShow(init);
      assert Value(s) / 10 == Value(init) && Value(s) % 10 == (last - '0') as nat;
    }
  }

  // A numeral has one value, and a value one canonical numeral.
  lemma ShowInjective(m: nat, n: nat)
    requires Show(m) == Show(n)
    ensures m == n
  {
    ShowIsCanonical(m);
    ShowIsCanonical(n);
  }

  // ----- fields separated by one character -----

  function SplitOn(s: string, c: char): (parts: seq<string>)
    ensures |parts| >= 1
  {
    if s == "" then [""]
    else
      var rest := SplitOn(s[1..], c);
      if s[0] == c then [""] + rest else [[s[0]] + rest[0]] + rest[1..]
  }

  function JoinWith(parts: seq<string>, c: char): string
    requires |parts| >= 1
  {
    if |parts| == 1 then parts[0] else parts[0] + [c] + JoinWith(parts[1..], c)
  }

  lemma JoinTwo(p: string, q: string, c: char)
    ensures JoinWith([p, q], c) == p + [c] + q
  {
    assert [p, q][1..] == [q];
  }

  lemma JoinThree(p: string, q: string, r: string, c: char)
    ensures JoinWith([p, q, r], c) == p + [c] + q + [c] + r
  {
    JoinTwo(q, r, c);
    assert [p, q, r][1..] == [q, r];
    assert p + [c] + (q + [c] + r) == p + [c] + q + [c] + r;
  }

  predicate FreeOf(parts: seq<string>, c: char) {
    forall i :: 0 <= i < |parts| ==> c !in parts[i]
  }

  lemma {:induction false} SplitThenJoin(s: string, c: char)
    ensures FreeOf(SplitOn(s, c), c) && JoinWith(SplitOn(s, c), c) == s
  {
    if s != "" {
      SplitThenJoin(s[1..], c);
      var rest, parts := SplitOn(s[1..], c), SplitOn(s, c);
      if s[0] == c {
        assert parts[1..] == rest;
      } else {
        assert parts[1..] == rest[1..];
        assert c !in parts[0];
        if |rest| > 1 {
          assert JoinWith(parts, c) == [s[0]] + JoinWith(rest, c);
        }
      }
    }
  }

  lemma {:induction false} JoinThenSplit(parts: seq<string>, c: char)
    requires |parts| >= 1 && FreeOf(parts, c)
    ensures SplitOn(JoinWith(parts, c), c) == parts
    decreases |parts|, |parts[0]|
  {
    var s := JoinWith(parts, c);
    if parts[0] == "" {
      if |parts| > 1 {
        assert FreeOf(parts[1..], c);
        JoinThenSplit(parts[1..], c);
        assert s[1..] == JoinWith(parts[1..], c);
        assert parts == [""] + parts[1..];
      }
    } else {
      var shorter := [parts[0][1..]] + parts[1..];
      assert shorter[1..] == parts[1..];
      assert FreeOf(shorter, c);
      JoinThenSplit(shorter, c);
      assert s[1..] == JoinWith(shorter, c);
      assert parts[0][0] in parts[0];
      assert parts[0] == [s[0]] + shorter[0];
      assert parts == [parts[0]] + shorter[1..];
    }
  }
}
