// The tags the version script reads: how they are compared, and what that
// means of them as strings.
module Tags {
  import opened Text

  datatype Triple = Triple(rel: nat, maj: nat, min: nat)

  predicate Below(a: Triple, b: Triple) {
    a.rel < b.rel || (a.rel == b.rel && (a.maj < b.maj || (a.maj == b.maj && a.min < b.min)))
  }

  // ----- tags -----

  // A tag matching ^v[0-9]+(\.[0-9]+){n-1}$ .
  predicate Places(tag: string, n: nat) {
    tag != "" && tag[0] == 'v' &&
    var parts := SplitOn(tag[1..], '.');
    |parts| == n && forall i :: 0 <= i < n ==> Numeral(parts[i])
  }

  // A tag matching ^v[0-9]+\.0\.0$ .
  predicate IsRelease(tag: string) {
    Places(tag, 3) && SplitOn(tag[1..], '.')[1..] == ["0", "0"]
  }

  // What `sort -V` compares: the numbers, whatever their padding. A legacy
  // two-place tag counts as one whose third place is zero.
  function Numbers(tag: string): Triple
    requires Places(tag, 2) || Places(tag, 3)
  {
    var parts := SplitOn(tag[1..], '.');
    Triple(Value(parts[0]), Value(parts[1]), if |parts| == 3 then Value(parts[2]) else 0)
  }

  function Dotted(x: Triple): string {
    JoinWith([Show(x.rel), Show(x.maj), Show(x.min)], '.')
  }

  lemma DottedSplits(x: Triple)
    ensures SplitOn(Dotted(x), '.') == [Show(x.rel), Show(x.maj), Show(x.min)]
    ensures Places("v" + Dotted(x), 3) && Numbers("v" + Dotted(x)) == x
  {
    ShowIsCanonical(x.rel);
    ShowIsCanonical(x.maj);
    ShowIsCanonical(x.min);
    JoinThenSplit([Show(x.rel), Show(x.maj), Show(x.min)], '.');
    assert ("v" + Dotted(x))[1..] == Dotted(x);
  }

  predicate Comparable(tags: set<string>) {
    forall t :: t in tags ==> Places(t, 2) || Places(t, 3)
  }

  // `sort -V | tail -n1` prints a tag no other is numerically above. Which one
  // of several equal tags it prints is left open.
  predicate NewestIn(t: string, tags: set<string>)
    requires Comparable(tags)
  {
    t in tags && forall u :: u in tags ==> !Below(Numbers(t), Numbers(u))
  }

  lemma {:induction false} SomeNewest(tags: set<string>)
    requires Comparable(tags) && tags != {}
    ensures exists t :: NewestIn(t, tags)
  {
    var t :| t in tags;
    if tags == {t} {
      assert NewestIn(t, tags);
    } else {
      SomeNewest(tags - {t});
      var u :| NewestIn(u, tags - {t});
      assert NewestIn(if Below(Numbers(u), Numbers(t)) then t else u, tags);
    }
  }

  method Newest(tags: set<string>) returns (t: Option<string>)
    requires Comparable(tags)
    ensures t.None? <==> tags == {}
    ensures t.Some? ==> NewestIn(t.value, tags)
  {
    if tags == {} {
      return None;
    }
    SomeNewest(tags);
    var u :| u in tags && NewestIn(u, tags);
    return Some(u);
  }

  function OfPlaces(tags: set<string>, n: nat): set<string> {
    set t | t in tags && Places(t, n)
  }

  function Releases(tags: set<string>): set<string> {
    set t | t in tags && IsRelease(t)
  }

  lemma SeedSplits(two: string)
    requires Places(two, 2)
    ensures SplitOn(two[1..] + ".0", '.') == SplitOn(two[1..], '.') + ["0"]
  {
    var parts := SplitOn(two[1..], '.');
    SplitThenJoin(two[1..], '.');
    assert parts[1..][0] == parts[1];
    assert (parts + ["0"])[1..][1..] == ["0"];
    assert two[1..] == parts[0] + "." + parts[1];
    calc {
      JoinWith(parts + ["0"], '.');
      parts[0] + "." + JoinWith((parts + ["0"])[1..], '.');
      { assert (parts + ["0"])[1..] == [parts[1], "0"]; assert [parts[1], "0"][1..] == ["0"]; }
      parts[0] + "." + (parts[1] + "." + "0");
      two[1..] + ".0";
    }
    JoinThenSplit(parts + ["0"], '.');
  }

  // The version everything is counted from: the highest three-place tag; with
  // none, the highest legacy two-place tag; with no tag at all, 0.0.0.
  ghost predicate IsLatest(tags: set<string>, x: Triple) {
    var three, two := OfPlaces(tags, 3), OfPlaces(tags, 2);
    if three != {} then exists t :: NewestIn(t, three) && Numbers(t) == x
    else if two != {} then exists t :: NewestIn(t, two) && Numbers(t) == x
    else tags == {} && x == Triple(0, 0, 0)
  }

  // Tags exist, but none says where to count from.
  predicate Unseeded(tags: set<string>) {
    tags != {} && OfPlaces(tags, 3) == {} && OfPlaces(tags, 2) == {}
  }

  // Whichever of several equal tags `sort -V` prefers, the numbers agree.
  lemma LatestIsUnique(tags: set<string>, x: Triple, y: Triple)
    requires IsLatest(tags, x) && IsLatest(tags, y)
    ensures x == y
  {
  }

  lemma LatestExists(tags: set<string>)
    ensures Unseeded(tags) <==> !exists x :: IsLatest(tags, x)
  {
    var three, two := OfPlaces(tags, 3), OfPlaces(tags, 2);
    if three != {} {
      SomeNewest(three);
      var t :| NewestIn(t, three);
      assert IsLatest(tags, Numbers(t));
    } else if two != {} {
      SomeNewest(two);
      var t :| NewestIn(t, two);
      assert IsLatest(tags, Numbers(t));
    } else if tags == {} {
      assert IsLatest(tags, Triple(0, 0, 0));
    }
  }

  // ----- tags as strings -----

  // A decimal numeral of n, after any number of zeros.
  predicate Spells(p: string, n: nat) {
    var zeros := |p| - |Show(n)|;
    zeros >= 0 && p[zeros..] == Show(n) && forall i :: 0 <= i < zeros ==> p[i] == '0'
  }

  function ThreePlace(p: string, q: string, r: string): string {
    "v" + p + "." + q + "." + r
  }

  function TwoPlace(p: string, q: string): string {
    "v" + p + "." + q
  }

  ghost predicate SpellsThree(t: string, a: nat, b: nat, c: nat) {
    exists p, q, r :: Spells(p, a) && Spells(q, b) && Spells(r, c) && t == ThreePlace(p, q, r)
  }

  ghost predicate SpellsTwo(t: string, a: nat, b: nat) {
    exists p, q :: Spells(p, a) && Spells(q, b) && t == TwoPlace(p, q)
  }

  // A release: n.0.0, of which only n may be padded.
  ghost predicate SpellsRelease(t: string, n: nat) {
    exists p :: Spells(p, n) && t == ThreePlace(p, "0", "0")
  }

  lemma {:induction false} PaddedValue(p: string)
    requires Numeral(p) && |p| > 1 && p[0] == '0'
    ensures Numeral(p[1..]) && Value(p[1..]) == Value(p)
    decreases |p|
  {
    var init := p[..|p| - 1];
    assert p[1..][..|p[1..]| - 1] == init[1..];
    if |init| > 1 {
      PaddedValue(init);
    } else {
      assert init[..0] == "";
    }
  }

  lemma PadOnce(p: string, n: nat)
    requires |p| > 1 && p[0] == '0' && p != Show(n)
    ensures Spells(p, n) <==> Spells(p[1..], n)
  {
    var rest := p[1..];
    var zeros := |p| - |Show(n)|;
    hide Show;
    assert zeros == 0 ==> p[0..] == p;
    assert zeros > 0 ==> rest[zeros - 1..] == p[zeros..];
    if Spells(rest, n) {
      forall i | 0 <= i < zeros ensures p[i] == '0' {
        assert i > 0 ==> p[i] == rest[i - 1];
      }
    }
  }

  lemma SpellsUnpadded(p: string, n: nat)
    requires !(|p| > 1 && p[0] == '0')
    ensures Spells(p, n) <==> p == Show(n)
  {
    ShowIsCanonical(n);
    assert p[0..] == p;
  }

  lemma {:induction false} SpellsExactly(p: string, n: nat)
    ensures Spells(p, n) <==> Numeral(p) && Value(p) == n
    decreases |p|
  {
    ShowIsCanonical(n);
    if |p| > 1 && p[0] == '0' {
      hide Show, Spells;
      PadOnce(p, n);
      SpellsExactly(p[1..], n);
      assert p == [p[0]] + p[1..];
      if Numeral(p[1..]) {
        PaddedValue(p);
      }
    } else {
      SpellsUnpadded(p, n);
      hide Show, Spells;
      if Numeral(p) {
        CanonicalIsShow(p);
      }
    }
  }

  lemma ThreeSplits(p: string, q: string, r: string)
    requires Numeral(p) && Numeral(q) && Numeral(r)
    ensures ThreePlace(p, q, r) != "" && ThreePlace(p, q, r)[0] == 'v'
    ensures SplitOn(ThreePlace(p, q, r)[1..], '.') == [p, q, r]
  {
    JoinThenSplit([p, q, r], '.');
    JoinThree(p, q, r, '.');
    hide SplitOn, JoinWith;
    assert ThreePlace(p, q, r)[1..] == p + "." + q + "." + r;
  }

  lemma TwoSplits(p: string, q: string)
    requires Numeral(p) && Numeral(q)
    ensures TwoPlace(p, q) != "" && TwoPlace(p, q)[0] == 'v'
    ensures SplitOn(TwoPlace(p, q)[1..], '.') == [p, q]
  {
    JoinThenSplit([p, q], '.');
    JoinTwo(p, q, '.');
    hide SplitOn, JoinWith;
    assert TwoPlace(p, q)[1..] == p + "." + q;
  }

  lemma ThreeParts(t: string) returns (p: string, q: string, r: string)
    requires Places(t, 3)
    ensures Numeral(p) && Numeral(q) && Numeral(r) && t == ThreePlace(p, q, r)
  {
    hide SplitOn, JoinWith, Value, Show;
    var parts := SplitOn(t[1..], '.');
    p, q, r := parts[0], parts[1], parts[2];
    SplitThenJoin(t[1..], '.');
    JoinThree(p, q, r, '.');
    assert parts == [p, q, r] && t == "v" + t[1..];
    assert "v" + (p + "." + q + "." + r) == ThreePlace(p, q, r);
  }

  lemma TwoParts(t: string) returns (p: string, q: string)
    requires Places(t, 2)
    ensures Numeral(p) && Numeral(q) && t == TwoPlace(p, q)
  {
    hide SplitOn, JoinWith, Value, Show;
    var parts := SplitOn(t[1..], '.');
    p, q := parts[0], parts[1];
    SplitThenJoin(t[1..], '.');
    JoinTwo(p, q, '.');
    assert parts == [p, q] && t == "v" + t[1..];
    assert "v" + (p + "." + q) == TwoPlace(p, q);
  }

  lemma ThreeExactly(t: string, a: nat, b: nat, c: nat)
    ensures SpellsThree(t, a, b, c) <==> Places(t, 3) && Numbers(t) == Triple(a, b, c)
  {
    hide SplitOn, Value, Spells, ThreePlace;
    if p, q, r :| Spells(p, a) && Spells(q, b) && Spells(r, c) && t == ThreePlace(p, q, r) {
      SpellsExactly(p, a);
      SpellsExactly(q, b);
      SpellsExactly(r, c);
      ThreeSplits(p, q, r);
    }
    if Places(t, 3) && Numbers(t) == Triple(a, b, c) {
      var p, q, r := ThreeParts(t);
      ThreeSplits(p, q, r);
      SpellsExactly(p, a);
      SpellsExactly(q, b);
      SpellsExactly(r, c);
      assert Spells(p, a) && Spells(q, b) && Spells(r, c);
    }
  }

  lemma TwoExactly(t: string, a: nat, b: nat)
    ensures SpellsTwo(t, a, b) <==> Places(t, 2) && Numbers(t) == Triple(a, b, 0)
  {
    hide SplitOn, Value, Spells, TwoPlace;
    if p, q :| Spells(p, a) && Spells(q, b) && t == TwoPlace(p, q) {
      SpellsExactly(p, a);
      SpellsExactly(q, b);
      TwoSplits(p, q);
    }
    if Places(t, 2) && Numbers(t) == Triple(a, b, 0) {
      var p, q := TwoParts(t);
      TwoSplits(p, q);
      SpellsExactly(p, a);
      SpellsExactly(q, b);
      assert Spells(p, a) && Spells(q, b);
    }
  }

  lemma ZeroIs(z: string)
    requires z == "0"
    ensures Numeral(z) && Value(z) == 0
  {
    assert z[..0] == "";
  }

  lemma ReleaseForward(p: string)
    requires Numeral(p)
    ensures IsRelease(ThreePlace(p, "0", "0")) && Numbers(ThreePlace(p, "0", "0")) == Triple(Value(p), 0, 0)
  {
    var z := "0";
    ZeroIs(z);
    hide SplitOn, Value, ThreePlace;
    ThreeSplits(p, z, z);
    assert [p, z, z][1..] == [z, z];
  }

  lemma ReleaseBack(t: string) returns (p: string)
    requires IsRelease(t)
    ensures Numeral(p) && t == ThreePlace(p, "0", "0") && Numbers(t) == Triple(Value(p), 0, 0)
  {
    var z := "0";
    ZeroIs(z);
    hide SplitOn, Value, ThreePlace;
    var q, r;
    p, q, r := ThreeParts(t);
    ThreeSplits(p, q, r);
    assert [z, z][0] == [p, q, r][1..][0] == q && [z, z][1] == [p, q, r][1..][1] == r;
  }

  lemma ReleaseExactly(t: string, n: nat)
    ensures SpellsRelease(t, n) <==> IsRelease(t) && Numbers(t) == Triple(n, 0, 0)
  {
    hide Places, IsRelease, Numbers, Value, Spells, ThreePlace;
    if p :| Spells(p, n) && t == ThreePlace(p, "0", "0") {
      SpellsExactly(p, n);
      ReleaseForward(p);
    }
    if IsRelease(t) {
      var p := ReleaseBack(t);
      SpellsExactly(p, n);
    }
  }

  lemma ReleaseIsWhole(t: string)
    requires IsRelease(t)
    ensures Numbers(t) == Triple(Numbers(t).rel, 0, 0)
  {
    var p := ReleaseBack(t);
    hide Numbers, Value;
  }

  // ----- where the count begins, on strings -----

  ghost predicate NoThree(tags: set<string>) {
    forall t, a, b, c :: SpellsThree(t, a, b, c) ==> t !in tags
  }

  ghost predicate NoTwo(tags: set<string>) {
    forall t, a, b :: SpellsTwo(t, a, b) ==> t !in tags
  }

  // Some tag spells a.b.c, padded or not, and no three-place tag spells more.
  ghost predicate HighestThree(tags: set<string>, a: nat, b: nat, c: nat) {
    && (exists t :: t in tags && SpellsThree(t, a, b, c))
    && (forall t, x: nat, y: nat, z: nat :: SpellsThree(t, x, y, z) && t in tags ==>
          x < a || (x == a && (y < b || (y == b && z <= c))))
  }

  ghost predicate HighestTwo(tags: set<string>, a: nat, b: nat) {
    && (exists t :: t in tags && SpellsTwo(t, a, b))
    && (forall t, x: nat, y: nat :: SpellsTwo(t, x, y) && t in tags ==> x < a || (x == a && y <= b))
  }

  // The highest three-place tag; failing that the highest two-place tag, as
  // a.b.0; and 0.0.0 with no tags at all.
  ghost predicate CountsFrom(tags: set<string>, a: nat, b: nat, c: nat) {
    || HighestThree(tags, a, b, c)
    || (NoThree(tags) && HighestTwo(tags, a, b) && c == 0)
    || (tags == {} && a == b == c == 0)
  }

  lemma NoThreeExactly(tags: set<string>)
    ensures NoThree(tags) <==> OfPlaces(tags, 3) == {}
  {
    hide Places, Numbers, SpellsThree;
    if t :| t in OfPlaces(tags, 3) {
      ThreeExactly(t, Numbers(t).rel, Numbers(t).maj, Numbers(t).min);
    }
    forall t, a, b, c | SpellsThree(t, a, b, c) && t in tags ensures t in OfPlaces(tags, 3) {
      ThreeExactly(t, a, b, c);
    }
  }

  lemma NoTwoExactly(tags: set<string>)
    ensures NoTwo(tags) <==> OfPlaces(tags, 2) == {}
  {
    hide Places, SpellsTwo;
    if t :| t in OfPlaces(tags, 2) {
      TwoThirdIsZero(t);
      hide Numbers;
      TwoExactly(t, Numbers(t).rel, Numbers(t).maj);
    }
    forall t, a, b | SpellsTwo(t, a, b) && t in tags ensures t in OfPlaces(tags, 2) {
      TwoExactly(t, a, b);
    }
  }

  lemma TwoThirdIsZero(t: string)
    requires Places(t, 2)
    ensures Numbers(t) == Triple(Numbers(t).rel, Numbers(t).maj, 0)
  {
    hide SplitOn, Value;
  }

  lemma HighestThreeIsLatest(tags: set<string>, a: nat, b: nat, c: nat)
    requires HighestThree(tags, a, b, c)
    ensures IsLatest(tags, Triple(a, b, c))
  {
    hide Places, Numbers, SpellsThree;
    var t :| t in tags && SpellsThree(t, a, b, c);
    ThreeExactly(t, a, b, c);
    forall u | u in OfPlaces(tags, 3) ensures !Below(Numbers(t), Numbers(u)) {
      ThreeExactly(u, Numbers(u).rel, Numbers(u).maj, Numbers(u).min);
    }
    assert NewestIn(t, OfPlaces(tags, 3));
  }

  lemma HighestTwoIsLatest(tags: set<string>, a: nat, b: nat)
    requires NoThree(tags) && HighestTwo(tags, a, b)
    ensures IsLatest(tags, Triple(a, b, 0))
  {
    hide Places, Numbers, SpellsTwo, NoThree;
    NoThreeExactly(tags);
    var t :| t in tags && SpellsTwo(t, a, b);
    TwoExactly(t, a, b);
    forall u | u in OfPlaces(tags, 2) ensures !Below(Numbers(t), Numbers(u)) {
      TwoThirdIsZero(u);
      TwoExactly(u, Numbers(u).rel, Numbers(u).maj);
    }
    assert NewestIn(t, OfPlaces(tags, 2));
  }

  // Counted as the script counts, or as one reads the tags: it is the same.
  lemma CountsFromIsLatest(tags: set<string>, a: nat, b: nat, c: nat)
    requires CountsFrom(tags, a, b, c)
    ensures IsLatest(tags, Triple(a, b, c))
  {
    hide HighestThree, HighestTwo, NoThree;
    if HighestThree(tags, a, b, c) {
      HighestThreeIsLatest(tags, a, b, c);
    } else if NoThree(tags) && HighestTwo(tags, a, b) && c == 0 {
      HighestTwoIsLatest(tags, a, b);
    }
  }

  // There is a highest release, and this is its tag.
  ghost predicate LastReleaseTag(tags: set<string>, t: string) {
    && t in tags
    && exists n :: SpellsRelease(t, n) && forall u, m: nat :: SpellsRelease(u, m) && u in tags ==> m <= n
  }

  lemma ReleasesExactly(tags: set<string>)
    ensures Releases(tags) == {} <==> forall t, n :: SpellsRelease(t, n) ==> t !in tags
    ensures forall t :: Releases(tags) != {} && NewestIn(t, Releases(tags)) ==> LastReleaseTag(tags, t)
  {
    hide SpellsRelease, Numbers, Places;
    forall t, n | SpellsRelease(t, n) && t in tags ensures t in Releases(tags) {
      ReleaseExactly(t, n);
    }
    forall t | t in Releases(tags) ensures SpellsRelease(t, ReleaseNumber(t)) {
      ReleaseIsWhole(t);
      ReleaseExactly(t, ReleaseNumber(t));
    }
    forall t | Releases(tags) != {} && NewestIn(t, Releases(tags)) ensures LastReleaseTag(tags, t) {
      ReleaseIsWhole(t);
      forall u, m: nat | SpellsRelease(u, m) && u in tags ensures m <= ReleaseNumber(t) {
        ReleaseExactly(u, m);
      }
    }
  }

  function ReleaseNumber(t: string): nat
    requires IsRelease(t)
  {
    Numbers(t).rel
  }
}
