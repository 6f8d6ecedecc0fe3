// Regular expressions, so that a validation pattern can be written out as it
// stands in the schema and compared with what it is meant to accept.
module Regex {

  datatype Re =
    | Empty
    | Class(test: char -> bool)
    | Then(fst: Re, snd: Re)
    | Or(left: Re, right: Re)
    | Many(each: Re)

  // The whole of s matches r.
  ghost predicate Matches(r: Re, s: string)
    decreases r, |s|
  {
    match r
    case Empty => s == ""
    case Class(test) => |s| == 1 && test(s[0])
    case Then(a, b) => exists i :: 0 <= i <= |s| && Matches(a, s[..i]) && Matches(b, s[i..])
    case Or(a, b) => Matches(a, s) || Matches(b, s)
    case Many(a) => s == "" || exists i :: 0 < i <= |s| && Matches(a, s[..i]) && Matches(r, s[i..])
  }

  function Char(c: char): Re {
    Class(d => d == c)
  }

  function Maybe(r: Re): Re {
    Or(Empty, r)
  }

  function UpTo(n: nat, r: Re): Re {
    if n == 0 then Empty else Maybe(Then(r, UpTo(n - 1, r)))
  }

  // A fixed row of character classes.
  function Row(tests: seq<char -> bool>): Re {
    if tests == [] then Empty else Then(Class(tests[0]), Row(tests[1..]))
  }

  lemma ThenAt(a: Re, b: Re, s: string, t: string)
    requires Matches(a, s) && Matches(b, t)
    ensures Matches(Then(a, b), s + t)
  {
    assert (s + t)[..|s|] == s && (s + t)[|s|..] == t;
  }

  // Where a match of a sequence breaks in two.
  lemma ThenBreaks(a: Re, b: Re, s: string) returns (i: nat)
    requires Matches(Then(a, b), s)
    ensures i <= |s| && Matches(a, s[..i]) && Matches(b, s[i..]) && s == s[..i] + s[i..]
  {
    i :| 0 <= i <= |s| && Matches(a, s[..i]) && Matches(b, s[i..]);
    hide Matches;
  }

  // And one of a repetition, after its first round.
  lemma ManyBreaks(a: Re, s: string) returns (i: nat)
    requires Matches(Many(a), s) && s != ""
    ensures 0 < i <= |s| && Matches(a, s[..i]) && Matches(Many(a), s[i..]) && s == s[..i] + s[i..]
  {
    i :| 0 < i <= |s| && Matches(a, s[..i]) && Matches(Many(a), s[i..]);
    hide Matches;
  }

  lemma ClassThen(test: char -> bool, b: Re, s: string)
    ensures Matches(Then(Class(test), b), s) <==> s != "" && test(s[0]) && Matches(b, s[1..])
  {
    if s != "" && test(s[0]) && Matches(b, s[1..]) {
      assert s[..1] == [s[0]];
      assert Matches(Class(test), s[..1]);
    }
  }

  lemma ThenClass(a: Re, test: char -> bool, s: string)
    ensures Matches(Then(a, Class(test)), s) <==>
            s != "" && test(s[|s| - 1]) && Matches(a, s[..|s| - 1])
  {
    if s != "" {
      var n := |s| - 1;
      assert s[n..] == [s[n]];
      if test(s[n]) && Matches(a, s[..n]) {
        assert Matches(Class(test), s[n..]);
      }
    }
  }

  lemma {:induction false} RowMatches(tests: seq<char -> bool>, s: string)
    ensures Matches(Row(tests), s) <==> |s| == |tests| && forall i :: 0 <= i < |s| ==> tests[i](s[i])
  {
    if tests != [] {
      ClassThen(tests[0], Row(tests[1..]), s);
      if s != "" {
        RowMatches(tests[1..], s[1..]);
        var rest, more := s[1..], tests[1..];
        if |s| == |tests| {
          assert forall i {:trigger tests[i]} :: 1 <= i < |s| ==> tests[i] == more[i - 1] && s[i] == rest[i - 1];
          assert forall i {:trigger more[i]} :: 0 <= i < |rest| ==> more[i] == tests[i + 1] && rest[i] == s[i + 1];
        }
      }
    }
  }

  lemma {:induction false} ManyClass(test: char -> bool, s: string)
    ensures Matches(Many(Class(test)), s) <==> forall i :: 0 <= i < |s| ==> test(s[i])
  {
    if s != "" {
      ManyClass(test, s[1..]);
      assert s == [s[0]] + s[1..];
      assert s[..1] == [s[0]];
      if test(s[0]) {
        assert Matches(Class(test), s[..1]);
      }
    }
  }

  lemma {:induction false} UpToClass(n: nat, test: char -> bool, s: string)
    ensures Matches(UpTo(n, Class(test)), s) <==> |s| <= n && forall i :: 0 <= i < |s| ==> test(s[i])
  {
    if n > 0 {
      ClassThen(test, UpTo(n - 1, Class(test)), s);
      if s != "" {
        UpToClass(n - 1, test, s[1..]);
        assert s == [s[0]] + s[1..];
      }
    }
  }
}
