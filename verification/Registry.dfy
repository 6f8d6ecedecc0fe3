// The registry field: the validation pattern as the schema spells it, the
// grammar it stands for, and the image reference it is applied to.
module Registry {
  import opened Text
  import opened Regex

  // ----- the pattern, api/v1alpha1/devenvironment_types.go:150 and 279 -----

  predicate Alnum(c: char) {
    'a' <= c <= 'z' || '0' <= c <= '9'
  }

  predicate Inner(c: char) {
    Alnum(c) || c == '.' || c == '_' || c == '-'
  }

  function Range(lo: char, hi: char): char -> bool {
    c => lo <= c <= hi
  }

  // [a-z0-9]([a-z0-9._-]*[a-z0-9])?
  function SegmentRe(): Re {
    Then(Class(Alnum), Maybe(Then(Many(Class(Inner)), Class(Alnum))))
  }

  // [a0-b0][a1-b1][a2-b2][a3-b3][a4-b4]
  function Five(a0: nat, b0: nat, a1: nat, b1: nat, a2: nat, b2: nat, a3: nat, b3: nat, a4: nat, b4: nat): Re
    requires a0 < 10 && b0 < 10 && a1 < 10 && b1 < 10 && a2 < 10 && b2 < 10
    requires a3 < 10 && b3 < 10 && a4 < 10 && b4 < 10
  {
    Row([Range(Digit(a0), Digit(b0)), Range(Digit(a1), Digit(b1)), Range(Digit(a2), Digit(b2)),
         Range(Digit(a3), Digit(b3)), Range(Digit(a4), Digit(b4))])
  }

  // [1-9][0-9]{0,3}
  function UpToFour(): Re {
    Then(Class(Range('1', '9')), UpTo(3, Class(Range('0', '9'))))
  }

  // 6553[0-5]|655[0-2][0-9]|65[0-4][0-9]{2}|6[0-4][0-9]{3}|[1-5][0-9]{4}|[1-9][0-9]{0,3}
  function PortRe(): Re {
    Or(Five(6, 6, 5, 5, 5, 5, 3, 3, 0, 5),
    Or(Five(6, 6, 5, 5, 5, 5, 0, 2, 0, 9),
    Or(Five(6, 6, 5, 5, 0, 4, 0, 9, 0, 9),
    Or(Five(6, 6, 0, 4, 0, 9, 0, 9, 0, 9),
    Or(Five(1, 5, 0, 9, 0, 9, 0, 9, 0, 9),
       UpToFour())))))
  }

  function TailRe(): Re {
    Many(Then(Char('/'), SegmentRe()))
  }

  function PatternRe(): Re {
    Or(Empty, Then(SegmentRe(), Then(Maybe(Then(Char(':'), PortRe())), TailRe())))
  }

  // ----- the grammar -----

  // host[:port]{/segment}
  datatype Reference = Reference(host: string, port: Option<nat>, path: seq<string>)

  predicate Segment(s: string) {
    s != "" && Alnum(s[0]) && Alnum(s[|s| - 1]) && forall i :: 0 <= i < |s| ==> Inner(s[i])
  }

  predicate WellFormed(x: Reference) {
    && Segment(x.host)
    && (x.port.Some? ==> 1 <= x.port.value <= 65535)
    && (forall i :: 0 <= i < |x.path| ==> Segment(x.path[i]))
  }

  function Authority(x: Reference): string {
    if x.port.None? then x.host else x.host + ":" + Show(x.port.value)
  }

  function Print(x: Reference): string {
    JoinWith([Authority(x)] + x.path, '/')
  }

  function Parse(s: string): Option<Reference> {
    var parts := SplitOn(s, '/');
    var names := SplitOn(parts[0], ':');
    if |names| == 1 && Segment(names[0]) && Segments(parts[1..]) then
      Some(Reference(names[0], None, parts[1..]))
    else if |names| == 2 && Segment(names[0]) && Port(names[1]) && Segments(parts[1..]) then
      Some(Reference(names[0], Some(Value(names[1])), parts[1..]))
    else None
  }

  predicate Segments(path: seq<string>) {
    forall i :: 0 <= i < |path| ==> Segment(path[i])
  }

  // The canonical decimal of a number from 1 to 65535.
  predicate Port(s: string) {
    Canonical(s) && 1 <= Value(s) <= 65535
  }

  // ----- parsing and printing are inverse -----

  lemma SegmentIsFree(s: string)
    requires Segment(s)
    ensures '/' !in s && ':' !in s
  {
  }

  lemma AuthoritySplits(x: Reference)
    requires WellFormed(x)
    ensures '/' !in Authority(x)
    ensures SplitOn(Authority(x), ':') ==
            if x.port.None? then [x.host] else [x.host, Show(x.port.value)]
  {
    SegmentIsFree(x.host);
    if x.port.None? {
      JoinThenSplit([x.host], ':');
    } else {
      ShowIsCanonical(x.port.value);
      JoinThenSplit([x.host, Show(x.port.value)], ':');
    }
  }

  lemma PrintSplits(x: Reference)
    requires WellFormed(x)
    ensures SplitOn(Print(x), '/') == [Authority(x)] + x.path
  {
    AuthoritySplits(x);
    hide SplitOn, JoinWith, Authority;
    forall i | 0 <= i < |x.path| ensures '/' !in x.path[i] {
      SegmentIsFree(x.path[i]);
    }
    hide Segment;
    JoinThenSplit([Authority(x)] + x.path, '/');
  }

  lemma ParsePrint(x: Reference)
    requires WellFormed(x)
    ensures Parse(Print(x)) == Some(x)
  {
    var parts := [Authority(x)] + x.path;
    AuthoritySplits(x);
    PrintSplits(x);
    hide SplitOn, Print, Authority;
    assert parts[1..] == x.path;
    if x.port.Some? {
      ShowIsCanonical(x.port.value);
      assert Port(Show(x.port.value));
    }
  }

  lemma PrintParse(s: string)
    requires Parse(s).Some?
    ensures WellFormed(Parse(s).value) && Print(Parse(s).value) == s
  {
    var parts := SplitOn(s, '/');
    var names := SplitOn(parts[0], ':');
    var x := Parse(s).value;
    SplitThenJoin(s, '/');
    SplitThenJoin(parts[0], ':');
    if x.port.Some? {
      CanonicalIsShow(names[1]);
      assert names[1..] == [names[1]];
    }
    assert Authority(x) == parts[0];
    assert [Authority(x)] + x.path == parts;
  }

  // ----- the pattern accepts exactly the grammar -----

  lemma SegmentMatches(s: string)
    ensures Matches(SegmentRe(), s) <==> Segment(s)
  {
    var middle := Many(Class(Inner));
    ClassThen(Alnum, Maybe(Then(middle, Class(Alnum))), s);
    if |s| > 1 {
      var rest := s[1..];
      ThenClass(middle, Alnum, rest);
      ManyClass(Inner, rest[..|rest| - 1]);
      assert s == [s[0]] + rest[..|rest| - 1] + [s[|s| - 1]];
    }
  }

  lemma {:induction false} ValueBounds(s: string)
    requires Numeral(s)
    ensures Value(s) < Power10(|s|)
    ensures s[0] != '0' ==> Value(s) >= Power10(|s| - 1)
  {
    if |s| == 1 {
      assert s[..0] == "";
    } else {
      ValueBounds(s[..|s| - 1]);
    }
  }

  function At(s: string, i: nat): nat
    requires AllDigits(s) && i < |s|
  {
    (s[i] - '0') as nat
  }

  lemma FiveDigits(s: string)
    requires |s| == 5 && AllDigits(s)
    ensures Value(s) == At(s, 0) * 10000 + At(s, 1) * 1000 + At(s, 2) * 100 + At(s, 3) * 10 + At(s, 4)
    ensures At(s, 0) < 10 && At(s, 1) < 10 && At(s, 2) < 10 && At(s, 3) < 10 && At(s, 4) < 10
  {
    assert s[..4][..3] == s[..3] && s[..3][..2] == s[..2] && s[..2][..1] == s[..1];
    assert s[..1][..0] == "";
    assert Value(s[..1]) == (s[0] - '0') as nat;
    assert Value(s[..2]) == Value(s[..1]) * 10 + (s[1] - '0') as nat;
    assert Value(s[..3]) == Value(s[..2]) * 10 + (s[2] - '0') as nat;
    assert Value(s[..4]) == Value(s[..3]) * 10 + (s[3] - '0') as nat;
  }

  lemma {:induction false} PowerGrows(m: nat, n: nat)
    requires m <= n
    ensures Power10(m) <= Power10(n)
  {
    if m < n {
      PowerGrows(m, n - 1);
    }
  }

  // A numeral without leading zeros is below 10000 with up to four digits and
  // at least 100000 with six or more.
  lemma OtherLengths(s: string)
    requires Numeral(s) && s[0] != '0'
    ensures |s| <= 4 ==> 1 <= Value(s) <= 9999
    ensures |s| >= 6 ==> Value(s) >= 100000
  {
    ValueBounds(s);
    assert Power10(2) == 100;
    assert Power10(4) == 10000;
    assert Power10(5) == 100000;
    if |s| <= 4 {
      PowerGrows(|s|, 4);
    } else if |s| >= 6 {
      PowerGrows(5, |s| - 1);
    }
  }

  function Power10(n: nat): (p: nat)
    ensures p > 0
  {
    if n == 0 then 1 else 10 * Power10(n - 1)
  }

  lemma FiveMatch(a0: nat, b0: nat, a1: nat, b1: nat, a2: nat, b2: nat, a3: nat, b3: nat, a4: nat, b4: nat, s: string)
    requires a0 < 10 && b0 < 10 && a1 < 10 && b1 < 10 && a2 < 10 && b2 < 10
    requires a3 < 10 && b3 < 10 && a4 < 10 && b4 < 10
    ensures Matches(Five(a0, b0, a1, b1, a2, b2, a3, b3, a4, b4), s) <==>
            |s| == 5 && AllDigits(s) && a0 <= At(s, 0) <= b0 && a1 <= At(s, 1) <= b1 &&
            a2 <= At(s, 2) <= b2 && a3 <= At(s, 3) <= b3 && a4 <= At(s, 4) <= b4
  {
    var row := [Range(Digit(a0), Digit(b0)), Range(Digit(a1), Digit(b1)), Range(Digit(a2), Digit(b2)),
                Range(Digit(a3), Digit(b3)), Range(Digit(a4), Digit(b4))];
    RowMatches(row, s);
    hide Matches, Row;
    if |s| == 5 {
      assert (forall i :: 0 <= i < |s| ==> row[i](s[i])) <==>
             row[0](s[0]) && row[1](s[1]) && row[2](s[2]) && row[3](s[3]) && row[4](s[4]);
    }
  }

  lemma ShortMatches(s: string)
    ensures Matches(UpToFour(), s) <==> Numeral(s) && |s| <= 4 && s[0] != '0'
  {
    ClassThen(Range('1', '9'), UpTo(3, Class(Range('0', '9'))), s);
    if s != "" {
      UpToClass(3, Range('0', '9'), s[1..]);
      assert s == [s[0]] + s[1..];
    }
  }

  lemma PortMatches(s: string)
    ensures Matches(PortRe(), s) <==> Port(s)
  {
    OrSix(Five(6, 6, 5, 5, 5, 5, 3, 3, 0, 5), Five(6, 6, 5, 5, 5, 5, 0, 2, 0, 9),
          Five(6, 6, 5, 5, 0, 4, 0, 9, 0, 9), Five(6, 6, 0, 4, 0, 9, 0, 9, 0, 9),
          Five(1, 5, 0, 9, 0, 9, 0, 9, 0, 9), UpToFour(), s);
    hide Matches, Five, UpToFour, Value;
    FiveMatch(6, 6, 5, 5, 5, 5, 3, 3, 0, 5, s);
    FiveMatch(6, 6, 5, 5, 5, 5, 0, 2, 0, 9, s);
    FiveMatch(6, 6, 5, 5, 0, 4, 0, 9, 0, 9, s);
    FiveMatch(6, 6, 0, 4, 0, 9, 0, 9, 0, 9, s);
    FiveMatch(1, 5, 0, 9, 0, 9, 0, 9, 0, 9, s);
    ShortMatches(s);
    PortRanges(s);
    if |s| == 5 && AllDigits(s) {
      FiveDigits(s);
      hide At;
    }
  }

  lemma PortRanges(s: string)
    ensures Port(s) <==>
            || (|s| == 5 && AllDigits(s) && 10000 <= Value(s) <= 65535)
            || (Numeral(s) && |s| <= 4 && s[0] != '0')
  {
    if Numeral(s) {
      if |s| == 5 {
        FiveDigits(s);
      }
      if s[0] != '0' {
        OtherLengths(s);
      } else if |s| == 1 {
        assert s[..|s| - 1] == "";
        assert Value(s) == 0;
      }
    }
  }

  lemma OrSix(r1: Re, r2: Re, r3: Re, r4: Re, r5: Re, r6: Re, s: string)
    ensures Matches(Or(r1, Or(r2, Or(r3, Or(r4, Or(r5, r6))))), s) <==>
            Matches(r1, s) || Matches(r2, s) || Matches(r3, s) || Matches(r4, s) || Matches(r5, s) || Matches(r6, s)
  {
    var o5 := Or(r5, r6);
    var o4 := Or(r4, o5);
    var o3 := Or(r3, o4);
    assert Matches(o5, s) <==> Matches(r5, s) || Matches(r6, s);
    assert Matches(o4, s) <==> Matches(r4, s) || Matches(o5, s);
    assert Matches(o3, s) <==> Matches(r3, s) || Matches(o4, s);
  }

  function Slashed(path: seq<string>): string {
    if path == [] then "" else "/" + path[0] + Slashed(path[1..])
  }

  function PortText(port: Option<nat>): string {
    if port.None? then "" else ":" + Show(port.value)
  }

  lemma {:induction false} JoinSlashed(first: string, path: seq<string>)
    ensures JoinWith([first] + path, '/') == first + Slashed(path)
    decreases |path|
  {
    var parts := [first] + path;
    assert parts[1..] == path;
    if path != [] {
      JoinSlashed(path[0], path[1..]);
      assert [path[0]] + path[1..] == path;
      assert JoinWith(parts, '/') == first + "/" + JoinWith(path, '/');
      hide JoinWith;
      assert first + "/" + (path[0] + Slashed(path[1..])) == first + ("/" + path[0] + Slashed(path[1..]));
    }
  }

  lemma PrintIs(x: Reference)
    ensures Print(x) == x.host + (PortText(x.port) + Slashed(x.path))
  {
    JoinSlashed(Authority(x), x.path);
  }

  lemma {:induction false} TailSound(s: string) returns (path: seq<string>)
    requires Matches(TailRe(), s)
    ensures Segments(path) && Slashed(path) == s
    decreases |s|
  {
    if s == "" {
      path := [];
    } else {
      hide Matches, SegmentRe, Segment;
      var i := ManyBreaks(Then(Char('/'), SegmentRe()), s);
      ClassThen(d => d == '/', SegmentRe(), s[..i]);
      SegmentMatches(s[..i][1..]);
      var rest := TailSound(s[i..]);
      path := [s[..i][1..]] + rest;
      assert path[1..] == rest;
      assert s[..i] == "/" + path[0];
    }
  }

  lemma {:induction false} TailComplete(path: seq<string>)
    requires Segments(path)
    ensures Matches(TailRe(), Slashed(path))
  {
    if path != [] {
      var s, head := Slashed(path), "/" + path[0];
      TailComplete(path[1..]);
      ClassThen(d => d == '/', SegmentRe(), head);
      SegmentMatches(head[1..]);
      assert head[1..] == path[0];
      assert s[..|head|] == head && s[|head|..] == Slashed(path[1..]);
    }
  }

  lemma PortTextMatches(s: string)
    ensures Matches(Maybe(Then(Char(':'), PortRe())), s) <==>
            s == "" || (s[0] == ':' && Port(s[1..]))
  {
    hide PortRe, Port;
    ClassThen(d => d == ':', PortRe(), s);
    if s != "" {
      PortMatches(s[1..]);
    }
  }

  // The optional port, as a number.
  lemma PortSound(s: string) returns (port: Option<nat>)
    requires Matches(Maybe(Then(Char(':'), PortRe())), s)
    ensures PortText(port) == s && (port.Some? ==> 1 <= port.value <= 65535)
  {
    PortTextMatches(s);
    hide Matches, PortRe;
    if s == "" {
      port := None;
    } else {
      CanonicalIsShow(s[1..]);
      port := Some(Value(s[1..]));
      assert s == ":" + s[1..];
    }
  }

  lemma PatternParts(s: string)
    requires Matches(PatternRe(), s) && s != ""
    ensures Matches(Then(SegmentRe(), Then(Maybe(Then(Char(':'), PortRe())), TailRe())), s)
  {
    hide PortRe, SegmentRe, TailRe;
  }

  lemma PatternSound(s: string)
    requires Matches(PatternRe(), s) && s != ""
    ensures Parse(s).Some?
  {
    hide Matches, PatternRe, PortRe, SegmentRe, TailRe, Parse, Print, PortText, Slashed, Segment;
    PatternParts(s);
    var i := ThenBreaks(SegmentRe(), Then(Maybe(Then(Char(':'), PortRe())), TailRe()), s);
    SegmentMatches(s[..i]);
    var after := s[i..];
    var j := ThenBreaks(Maybe(Then(Char(':'), PortRe())), TailRe(), after);
    var port := PortSound(after[..j]);
    var path := TailSound(after[j..]);
    var x := Reference(s[..i], port, path);
    PrintIs(x);
    assert Print(x) == s;
    ParsePrint(x);
  }

  lemma PatternComplete(x: Reference)
    requires WellFormed(x)
    ensures Matches(PatternRe(), Print(x)) && Print(x) != ""
  {
    PrintIs(x);
    SegmentMatches(x.host);
    var port := PortText(x.port);
    PortTextMatches(port);
    if x.port.Some? {
      ShowIsCanonical(x.port.value);
      assert port[1..] == Show(x.port.value);
    }
    hide PortRe, SegmentRe, Matches, TailRe, Print;
    TailComplete(x.path);
    ThenAt(Maybe(Then(Char(':'), PortRe())), TailRe(), port, Slashed(x.path));
    ThenAt(SegmentRe(), Then(Maybe(Then(Char(':'), PortRe())), TailRe()), x.host, port + Slashed(x.path));
    OrRight(Empty, Then(SegmentRe(), Then(Maybe(Then(Char(':'), PortRe())), TailRe())), Print(x));
  }

  lemma OrRight(a: Re, b: Re, s: string)
    requires Matches(b, s)
    ensures Matches(Or(a, b), s)
  {
  }

  // The pattern accepts the empty string and, beside it, exactly the strings
  // that are a host, a port from 1 to 65535 if any, and path segments.
  lemma PatternIsGrammar(s: string)
    ensures Matches(PatternRe(), s) <==> s == "" || Parse(s).Some?
    ensures s != "" ==> (Matches(PatternRe(), s) <==> exists x :: WellFormed(x) && Print(x) == s)
  {
    if s == "" {
      assert Matches(PatternRe(), s) by {
        hide SegmentRe, PortRe, TailRe;
      }
    } else {
      hide PatternRe, Parse, WellFormed, Print;
      if Matches(PatternRe(), s) {
        PatternSound(s);
      }
      if Parse(s).Some? {
        PrintParse(s);
        PatternComplete(Parse(s).value);
      }
      forall x | WellFormed(x) && Print(x) == s ensures Matches(PatternRe(), s) {
        PatternComplete(x);
      }
    }
  }

  // It splits in one way only.
  lemma SplitsOneWay(x: Reference, y: Reference)
    requires WellFormed(x) && WellFormed(y) && Print(x) == Print(y)
    ensures x == y
  {
    ParsePrint(x);
    ParsePrint(y);
  }

  // ----- image references, controller.go:545-580 -----

  function Lower(c: char): char {
    if 'A' <= c <= 'Z' then 'a' + (c - 'A') else c
  }

  function ToLower(s: string): string {
    seq(|s|, i requires 0 <= i < |s| => Lower(s[i]))
  }

  predicate HostLike(first: string) {
    first == "localhost" || '.' in first || ':' in first || ToLower(first) != first
  }

  predicate HasRegistry(image: string) {
    var parts := SplitOn(image, '/');
    |parts| > 1 && HostLike(parts[0])
  }

  function ImageRef(envRegistry: string, serviceRegistry: string, image: string): string {
    var registry := if serviceRegistry == "" then envRegistry else serviceRegistry;
    if registry == "" || HasRegistry(image) then image else registry + "/" + image
  }

  lemma SplitPrefixed(registry: string, image: string)
    ensures SplitOn(registry + "/" + image, '/') == SplitOn(registry, '/') + SplitOn(image, '/')
  {
    var a, b := SplitOn(registry, '/'), SplitOn(image, '/');
    SplitThenJoin(registry, '/');
    SplitThenJoin(image, '/');
    JoinConcat(a, b);
    JoinThenSplit(a + b, '/');
  }

  lemma {:induction false} JoinConcat(a: seq<string>, b: seq<string>)
    requires |a| >= 1 && |b| >= 1
    ensures JoinWith(a + b, '/') == JoinWith(a, '/') + "/" + JoinWith(b, '/')
  {
    if |a| == 1 {
      assert (a + b)[1..] == b;
    } else {
      JoinConcat(a[1..], b);
      assert (a + b)[1..] == a[1..] + b;
    }
  }

  lemma SegmentIsLower(s: string)
    requires Segment(s)
    ensures ToLower(s) == s
  {
  }

  // An accepted registry's first segment is a host to Docker exactly when it
  // has a port, a dot, or is localhost: uppercase cannot occur in it.
  lemma HostLikeAuthority(x: Reference)
    requires WellFormed(x)
    ensures SplitOn(Print(x), '/')[0] == Authority(x)
    ensures HostLike(Authority(x)) <==> x.port.Some? || '.' in x.host || x.host == "localhost"
  {
    PrintSplits(x);
    hide SplitOn, Print, ToLower;
    if x.port.None? {
      SegmentIsFree(x.host);
      SegmentIsLower(x.host);
      hide Segment;
    } else {
      assert Authority(x)[|x.host|] == ':';
    }
  }

  // ----- in plain terms -----

  lemma SplitFree(s: string)
    requires '/' !in s
    ensures SplitOn(s, '/') == [s]
  {
    JoinThenSplit([s], '/');
  }

  lemma LowerExactly(s: string)
    ensures ToLower(s) != s <==> exists c :: c in s && 'A' <= c <= 'Z'
  {
    if c :| c in s && 'A' <= c <= 'Z' {
      var i :| 0 <= i < |s| && s[i] == c;
      assert ToLower(s)[i] != s[i];
    }
    if ToLower(s) != s {
      var i :| 0 <= i < |s| && ToLower(s)[i] != s[i];
      assert s[i] in s;
    }
  }

  // An image that is a single name - with a tag or not - is always put under
  // the registry there is: the service's own, or else the environment's.
  lemma SingleNameResolves(envRegistry: string, serviceRegistry: string, image: string)
    requires '/' !in image
    ensures serviceRegistry != "" ==> ImageRef(envRegistry, serviceRegistry, image) == serviceRegistry + "/" + image
    ensures serviceRegistry == "" && envRegistry != "" ==>
              ImageRef(envRegistry, serviceRegistry, image) == envRegistry + "/" + image
    ensures serviceRegistry == "" && envRegistry == "" ==> ImageRef(envRegistry, serviceRegistry, image) == image
  {
    SplitFree(image);
    hide SplitOn, HostLike;
  }

  predicate PlainHost(first: string) {
    first == "localhost" || '.' in first || ':' in first || exists c :: c in first && 'A' <= c <= 'Z'
  }

  // Of any other image the part before the first slash decides: it is used as
  // written exactly when that part is "localhost", or has a dot, a colon or an
  // uppercase letter.
  lemma PathResolves(envRegistry: string, serviceRegistry: string, first: string, rest: string)
    requires '/' !in first
    ensures var image := first + "/" + rest;
            var registry := if serviceRegistry != "" then serviceRegistry else envRegistry;
            && (registry == "" ==> ImageRef(envRegistry, serviceRegistry, image) == image)
            && (registry != "" ==> (ImageRef(envRegistry, serviceRegistry, image) == image <==> PlainHost(first)))
            && (registry != "" && !PlainHost(first) ==>
                ImageRef(envRegistry, serviceRegistry, image) == registry + "/" + image)
  {
    SplitPrefixed(first, rest);
    SplitFree(first);
    LowerExactly(first);
    hide SplitOn, ToLower;
    var image := first + "/" + rest;
    assert SplitOn(image, '/')[0] == first && |SplitOn(image, '/')| > 1;
    var registry := if serviceRegistry != "" then serviceRegistry else envRegistry;
    assert |registry + "/" + image| > |image|;
  }

  // The part before the first slash is what Docker takes for a host.
  ghost predicate NamesRegistry(image: string) {
    exists first, rest :: Cut(image, first, rest) && PlainHost(first)
  }

  predicate Cut(image: string, first: string, rest: string) {
    image == first + "/" + rest && '/' !in first
  }

  lemma HasRegistryPlainly(image: string)
    ensures HasRegistry(image) <==> NamesRegistry(image)
  {
    hide ToLower;
    var parts := SplitOn(image, '/');
    if HasRegistry(image) {
      SplitThenJoin(image, '/');
      hide SplitOn;
      LowerExactly(parts[0]);
      assert Cut(image, parts[0], JoinWith(parts[1..], '/'));
    }
    if first, rest :| Cut(image, first, rest) && PlainHost(first) {
      SplitPrefixed(first, rest);
      SplitFree(first);
      hide SplitOn;
      LowerExactly(first);
    }
  }

  // An image that names no registry is put under the one configured, whose host
  // and port become its first segment; one that names a registry is used as
  // written. Resolving twice is resolving once exactly when the image names a
  // registry, or the configured one begins with what Docker takes for a host.
  lemma ResolveTwice(envRegistry: string, serviceRegistry: string, x: Reference, image: string)
    requires WellFormed(x)
    requires Print(x) == if serviceRegistry == "" then envRegistry else serviceRegistry
    ensures var once := ImageRef(envRegistry, serviceRegistry, image);
            && (NamesRegistry(image) ==> once == image)
            && (!NamesRegistry(image) ==> once == Print(x) + "/" + image && SplitOn(once, '/')[0] == Authority(x))
            && (ImageRef(envRegistry, serviceRegistry, once) == once <==>
                NamesRegistry(image) || x.port.Some? || '.' in x.host || x.host == "localhost")
  {
    hide NamesRegistry, Print, SplitOn, HostLike, WellFormed, Authority, PatternRe, Matches;
    HasRegistryPlainly(image);
    PatternComplete(x);
    SplitPrefixed(Print(x), image);
    HostLikeAuthority(x);
    var once := Print(x) + "/" + image;
    if !HasRegistry(image) && !HostLike(Authority(x)) {
      assert |ImageRef(envRegistry, serviceRegistry, once)| == |Print(x)| + 1 + |once|;
    }
  }

  // The six alternatives for the port are the numbers from 1 to 65535, written
  // in decimal.
  lemma PortPlainly(s: string)
    ensures Matches(PortRe(), s) <==> exists n: nat :: 1 <= n <= 65535 && s == Show(n)
  {
    PortMatches(s);
    hide Matches, PortRe;
    if Port(s) {
      CanonicalIsShow(s);
    }
    if n: nat :| 1 <= n <= 65535 && s == Show(n) {
      ShowIsCanonical(n);
    }
    hide Canonical, Value;
  }

  // A part of a registry: lowercase letters and digits at both ends, and
  // between them also dots, underscores and dashes.
  predicate PlainPart(s: string) {
    && s != ""
    && ('a' <= s[0] <= 'z' || '0' <= s[0] <= '9')
    && ('a' <= s[|s| - 1] <= 'z' || '0' <= s[|s| - 1] <= '9')
    && forall c :: c in s ==> 'a' <= c <= 'z' || '0' <= c <= '9' || c == '.' || c == '_' || c == '-'
  }

  lemma PlainPartIs(s: string)
    ensures PlainPart(s) <==> Segment(s)
  {
    if PlainPart(s) {
      forall i | 0 <= i < |s| ensures Inner(s[i]) {
        assert s[i] in s;
      }
    }
  }

  predicate PlainReference(x: Reference) {
    && PlainPart(x.host)
    && (x.port.Some? ==> 1 <= x.port.value <= 65535)
    && (forall part :: part in x.path ==> PlainPart(part))
  }

  lemma PlainReferenceIs(x: Reference)
    ensures PlainReference(x) <==> WellFormed(x)
  {
    PlainPartIs(x.host);
    hide PlainPart, Segment;
    forall i | 0 <= i < |x.path| ensures PlainPart(x.path[i]) <==> Segment(x.path[i]) {
      PlainPartIs(x.path[i]);
    }
  }

  // The schema accepts nothing, or a host, a port in decimal if there is one,
  // and any number of parts with a slash before each.
  lemma PatternPlainly(s: string)
    ensures Matches(PatternRe(), s) <==>
            s == "" || exists x :: PlainReference(x) && s == x.host + (PortText(x.port) + Slashed(x.path))
  {
    PatternIsGrammar(s);
    hide Matches, PatternRe, WellFormed, PlainReference, Print, PortText, Slashed;
    if x :| PlainReference(x) && s == x.host + (PortText(x.port) + Slashed(x.path)) {
      PlainReferenceIs(x);
      PrintIs(x);
    }
    if x :| WellFormed(x) && Print(x) == s {
      PlainReferenceIs(x);
      PrintIs(x);
    }
  }
}
