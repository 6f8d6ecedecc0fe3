// hack/next-version.sh over a whole history of bumps: every run of the script
// that prints a version is followed by the tag being pushed.
module VersionHistory {
  import opened Tags
  import opened Text
  import opened Version

  function TagOf(x: Triple): string {
    "v" + Dotted(x)
  }

  ghost function Push(tags: set<string>, kind: Kind): set<string> {
    if x :| IsLatest(tags, x) then
      match Answer(tags, x, kind)
      case Printed(next) => tags + {"v" + next}
      case Refused(_) => tags
    else tags
  }

  // The tags after the first n bumps of a history.
  ghost function TagsAt(tags: set<string>, bumps: seq<Kind>, n: nat): set<string>
    requires n <= |bumps|
  {
    if n == 0 then tags else Push(TagsAt(tags, bumps, n - 1), bumps[n - 1])
  }

  // The version after the first n bumps, counted from x.
  function VersionAt(x: Triple, bumps: seq<Kind>, n: nat): Triple
    requires n <= |bumps|
  {
    if n == 0 then x else Next(VersionAt(x, bumps, n - 1), bumps[n - 1])
  }

  // The shell's integers leave room for so many bumps.
  predicate Room(x: Triple, bumps: nat) {
    x.rel + bumps < LIMIT && x.maj + bumps < LIMIT && x.min + bumps < LIMIT
  }

  lemma {:induction false} RoomKept(x: Triple, bumps: seq<Kind>, n: nat, more: nat)
    requires n <= |bumps| && Room(x, n + more)
    ensures Room(VersionAt(x, bumps, n), more)
  {
    if n > 0 {
      RoomKept(x, bumps, n - 1, more + 1);
    }
  }

  lemma PushMints(tags: set<string>, x: Triple, kind: Kind)
    requires IsLatest(tags, x) && Fits(x, kind)
    ensures Push(tags, kind) == tags + {TagOf(Next(x, kind))}
    ensures IsLatest(Push(tags, kind), Next(x, kind))
    ensures OfPlaces(Push(tags, kind), 3) == OfPlaces(tags, 3) + {TagOf(Next(x, kind))}
  {
    hide Dotted, Places, Numbers, Answer;
    var next := Next(x, kind);
    forall y | IsLatest(tags, y) ensures y == x {
      LatestIsUnique(tags, x, y);
    }
    AnswerWhenFits(tags, x, kind);
    DottedSplits(next);
    assert NewestIn(TagOf(next), OfPlaces(Push(tags, kind), 3));
  }

  // The tags minted by the first n bumps.
  function Minted(x: Triple, bumps: seq<Kind>, n: nat): set<string>
    requires n <= |bumps|
  {
    set i | 1 <= i <= n :: TagOf(VersionAt(x, bumps, i))
  }

  // Every bump mints a tag, and that tag is then the latest.
  lemma {:induction false} HistoryMints(tags: set<string>, x: Triple, bumps: seq<Kind>, n: nat)
    requires IsLatest(tags, x) && n <= |bumps| && Room(x, n)
    ensures IsLatest(TagsAt(tags, bumps, n), VersionAt(x, bumps, n))
    ensures OfPlaces(TagsAt(tags, bumps, n), 3) == OfPlaces(tags, 3) + Minted(x, bumps, n)
  {
    hide IsLatest, OfPlaces, Dotted, Push;
    if n > 0 {
      HistoryMints(tags, x, bumps, n - 1);
      RoomKept(x, bumps, n - 1, 1);
      PushMints(TagsAt(tags, bumps, n - 1), VersionAt(x, bumps, n - 1), bumps[n - 1]);
    }
  }

  // The versions of a history strictly increase.
  lemma {:induction false} HistoryIncreases(x: Triple, bumps: seq<Kind>, i: nat, j: nat)
    requires i < j <= |bumps|
    ensures Below(VersionAt(x, bumps, i), VersionAt(x, bumps, j))
    decreases j
  {
    if i < j - 1 {
      HistoryIncreases(x, bumps, i, j - 1);
    }
  }

  // The version a history mints at any step is above every tag there when it
  // was minted - the legacy tags included, when the count began at them.
  lemma MintedAboveAll(tags: set<string>, x: Triple, bumps: seq<Kind>, n: nat, t: string)
    requires IsLatest(tags, x) && n < |bumps| && Room(x, n + 1)
    requires t in TagsAt(tags, bumps, n)
    requires Places(t, 3) || (Places(t, 2) && OfPlaces(tags, 3) == {} && t in tags)
    ensures Below(Numbers(t), VersionAt(x, bumps, n + 1))
    ensures Answer(TagsAt(tags, bumps, n), VersionAt(x, bumps, n), bumps[n]) ==
            Printed(Dotted(VersionAt(x, bumps, n + 1)))
  {
    HistoryMints(tags, x, bumps, n);
    RoomKept(x, bumps, n, 1);
    AnswerWhenFits(TagsAt(tags, bumps, n), VersionAt(x, bumps, n), bumps[n]);
    if !Places(t, 3) {
      HistoryIncreases(x, bumps, 0, n + 1);
      assert t in OfPlaces(tags, 2);
    }
  }

  // ----- closed form -----

  // How many bumps of this kind there are from step `from` up to step `n`.
  function Count(bumps: seq<Kind>, from: nat, n: nat, kind: Kind): nat
    requires from <= n <= |bumps|
    decreases n
  {
    if n == from then 0
    else Count(bumps, from, n - 1, kind) + (if bumps[n - 1] == kind then 1 else 0)
  }

  // The step just after the last bump of one of these kinds; 0 if none was.
  function Reset(bumps: seq<Kind>, n: nat, kinds: set<Kind>): (step: nat)
    requires n <= |bumps|
    ensures step <= n
    ensures step > 0 ==> bumps[step - 1] in kinds
    ensures forall i :: step <= i < n ==> bumps[i] !in kinds
  {
    if n == 0 || bumps[n - 1] in kinds then n else Reset(bumps, n - 1, kinds)
  }

  // RELEASE counts the releases; MAJOR the majors since the last release;
  // MINOR the minors since the last major or release. A component never yet
  // reset also holds what the count began with.
  function Closed(x: Triple, bumps: seq<Kind>, n: nat): Triple
    requires n <= |bumps|
  {
    var release, either := Reset(bumps, n, {Release}), Reset(bumps, n, {Release, Major});
    Triple(
      x.rel + Count(bumps, 0, n, Release),
      (if release > 0 then 0 else x.maj) + Count(bumps, release, n, Major),
      (if either > 0 then 0 else x.min) + Count(bumps, either, n, Minor))
  }

  lemma {:induction false} ClosedForm(x: Triple, bumps: seq<Kind>, n: nat)
    requires n <= |bumps|
    ensures VersionAt(x, bumps, n) == Closed(x, bumps, n)
  {
    if n > 0 {
      ClosedForm(x, bumps, n - 1);
    }
  }

  lemma HistoryClosedForm(tags: set<string>, x: Triple, bumps: seq<Kind>, n: nat)
    requires IsLatest(tags, x) && n <= |bumps| && Room(x, n)
    ensures IsLatest(TagsAt(tags, bumps, n), Closed(x, bumps, n))
  {
    HistoryMints(tags, x, bumps, n);
    ClosedForm(x, bumps, n);
  }

  // ----- releases -----

  lemma ReleaseShape(x: Triple)
    ensures IsRelease(TagOf(x)) <==> x.maj == 0 && x.min == 0
  {
    DottedSplits(x);
    assert TagOf(x)[1..] == Dotted(x);
    if Show(x.maj) == "0" {
      ShowInjective(x.maj, 0);
    }
    if Show(x.min) == "0" {
      ShowInjective(x.min, 0);
    }
    assert [Show(x.rel), Show(x.maj), Show(x.min)][1..] == [Show(x.maj), Show(x.min)];
  }

  // The tags minted by the release bumps among the first n.
  function MintedByRelease(x: Triple, bumps: seq<Kind>, n: nat): set<string>
    requires n <= |bumps|
  {
    set i | 1 <= i <= n && bumps[i - 1] == Release :: TagOf(VersionAt(x, bumps, i))
  }

  lemma ReleasesHaveThreePlaces(tags: set<string>)
    ensures Releases(tags) == set t | t in OfPlaces(tags, 3) && IsRelease(t)
  {
  }

  // Counted from tags without a three-place one, the tags vR.0.0 are exactly
  // those a release bump minted.
  lemma ReleasesAreReleases(tags: set<string>, x: Triple, bumps: seq<Kind>, n: nat)
    requires IsLatest(tags, x) && n <= |bumps| && Room(x, n) && OfPlaces(tags, 3) == {}
    ensures Releases(TagsAt(tags, bumps, n)) == MintedByRelease(x, bumps, n)
  {
    HistoryMints(tags, x, bumps, n);
    forall i | 1 <= i <= n
      ensures IsRelease(TagOf(VersionAt(x, bumps, i))) <==> bumps[i - 1] == Release
    {
      hide Dotted, IsRelease;
      ReleaseShape(VersionAt(x, bumps, i));
    }
    ReleasesHaveThreePlaces(TagsAt(tags, bumps, n));
    hide Dotted, IsRelease, Releases, OfPlaces, IsLatest, TagsAt;
  }

  // The most recent release is numbered by how many there have been.
  lemma NumberedByCount(x: Triple, bumps: seq<Kind>, n: nat)
    requires n <= |bumps| && Reset(bumps, n, {Release}) > 0
    ensures VersionAt(x, bumps, Reset(bumps, n, {Release})) ==
            Triple(x.rel + Count(bumps, 0, n, Release), 0, 0)
  {
    var last := Reset(bumps, n, {Release});
    ClosedForm(x, bumps, last);
    NoneSince(bumps, last, n);
  }

  lemma {:induction false} NoneSince(bumps: seq<Kind>, last: nat, n: nat)
    requires last <= n <= |bumps| && forall i :: last <= i < n ==> bumps[i] != Release
    ensures Count(bumps, 0, n, Release) == Count(bumps, 0, last, Release)
  {
    if last < n {
      NoneSince(bumps, last, n - 1);
    }
  }

  lemma EarlierReleaseBelow(x: Triple, bumps: seq<Kind>, n: nat, u: string)
    requires n <= |bumps| && u in MintedByRelease(x, bumps, n)
    ensures var newest := VersionAt(x, bumps, Reset(bumps, n, {Release}));
            Places(u, 3) && (u == TagOf(newest) || Below(Numbers(u), newest))
  {
    hide Dotted, Places, Numbers;
    var i :| 1 <= i <= n && bumps[i - 1] == Release && u == TagOf(VersionAt(x, bumps, i));
    DottedSplits(VersionAt(x, bumps, i));
    if i < Reset(bumps, n, {Release}) {
      HistoryIncreases(x, bumps, i, Reset(bumps, n, {Release}));
    }
  }

  lemma OnlyNewest(tags: set<string>, newest: string, t: string)
    requires newest in tags && Comparable(tags)
    requires forall u :: u in tags ==> u == newest || Below(Numbers(u), Numbers(newest))
    ensures NewestIn(t, tags) <==> t == newest
  {
    hide Numbers, Places;
  }

  // last-release prints the tag of the most recent release, which is numbered
  // by how many releases there have been; nothing when there was none.
  lemma LastReleaseIsMostRecent(tags: set<string>, x: Triple, bumps: seq<Kind>, n: nat, t: string)
    requires IsLatest(tags, x) && n <= |bumps| && Room(x, n) && OfPlaces(tags, 3) == {}
    ensures Releases(TagsAt(tags, bumps, n)) == {} <==> Reset(bumps, n, {Release}) == 0
    ensures Reset(bumps, n, {Release}) > 0 ==>
              (NewestIn(t, Releases(TagsAt(tags, bumps, n))) <==>
               t == TagOf(Triple(x.rel + Count(bumps, 0, n, Release), 0, 0)))
  {
    ReleasesAreReleases(tags, x, bumps, n);
    hide Dotted, Places, Numbers, IsLatest, IsRelease, Releases;
    var releases, last := MintedByRelease(x, bumps, n), Reset(bumps, n, {Release});
    if last > 0 {
      NumberedByCount(x, bumps, n);
      var newest := VersionAt(x, bumps, last);
      DottedSplits(newest);
      forall u | u in releases
        ensures Places(u, 3) && (u == TagOf(newest) || Below(Numbers(u), newest))
      {
        EarlierReleaseBelow(x, bumps, n, u);
      }
      OnlyNewest(releases, TagOf(newest), t);
    }
  }
}
