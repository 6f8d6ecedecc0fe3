// hack/next-version.sh: the next RELEASE.MAJOR.MINOR version, from the tags.
module Version {
  import opened Tags
  import opened Text

  datatype Kind = Minor | Major | Release

  datatype Command = Bump(kind: Kind) | LastRelease

  datatype Reason = Malformed | BadVersion | TagExists

  datatype Reply = Printed(text: string) | Refused(why: Reason)

  // ----- bash arithmetic: 64-bit two's complement -----

  const LIMIT: int := 0x8000_0000_0000_0000

  function Wrap(n: int): int {
    (n + LIMIT) % (2 * LIMIT) - LIMIT
  }

  function ShowInt(n: int): string {
    if n < 0 then "-" + Show(-n) else Show(n)
  }

  lemma ShowIntFacts(n: int)
    ensures '.' !in ShowInt(n)
    ensures Numeral(ShowInt(n)) <==> n >= 0
  {
    ShowIsCanonical(if n < 0 then -n else n);
    if n < 0 {
      assert ShowInt(n)[0] == '-';
    }
  }

  // ----- what the script answers -----

  // The version the scheme asks for.
  function Next(x: Triple, kind: Kind): Triple {
    match kind
    case Minor => Triple(x.rel, x.maj, x.min + 1)
    case Major => Triple(x.rel, x.maj + 1, 0)
    case Release => Triple(x.rel + 1, 0, 0)
  }

  // Every component that survives the bump fits the shell's integers, and the
  // one that is incremented does so with room for one more.
  predicate Fits(x: Triple, kind: Kind) {
    match kind
    case Minor => x.rel < LIMIT && x.maj < LIMIT && x.min < LIMIT - 1
    case Major => x.rel < LIMIT && x.maj < LIMIT - 1
    case Release => x.rel < LIMIT - 1
  }

  // The components the shell computes.
  function Computed(x: Triple, kind: Kind): seq<int>
    ensures |Computed(x, kind)| == 3
  {
    var rel, maj, min := Wrap(x.rel), Wrap(x.maj), Wrap(x.min);
    match kind
    case Minor => [rel, maj, Wrap(min + 1)]
    case Major => [rel, Wrap(maj + 1), 0]
    case Release => [Wrap(rel + 1), 0, 0]
  }

  function Answer(tags: set<string>, x: Triple, kind: Kind): Reply {
    var c := Computed(x, kind);
    if c[0] < 0 || c[1] < 0 || c[2] < 0 then Refused(BadVersion)
    else
      var next := Dotted(Triple(c[0], c[1], c[2]));
      if "v" + next in tags then Refused(TagExists) else Printed(next)
  }

  // `IFS=. read -r rel maj min`, followed by 10# on each.
  predicate Reads(latest: string, x: Triple) {
    var parts := SplitOn(latest, '.');
    |parts| == 3 && (forall i :: 0 <= i < 3 ==> Numeral(parts[i])) &&
    x == Triple(Value(parts[0]), Value(parts[1]), Value(parts[2]))
  }

  // Lines 61-80: what to count from.
  method Latest(tags: set<string>) returns (latest: Option<string>, ghost x: Triple)
    ensures latest.None? <==> Unseeded(tags)
    ensures latest.Some? ==> IsLatest(tags, x) && Reads(latest.value, x)
  {
    var three := Newest(OfPlaces(tags, 3));
    var two := Newest(OfPlaces(tags, 2));
    if three.Some? {
      latest, x := Some(three.value[1..]), Numbers(three.value);
    } else if two.Some? {
      SeedSplits(two.value);
      ShowIsCanonical(0);
      latest, x := Some(two.value[1..] + ".0"), Numbers(two.value);
    } else if |tags| > 0 {
      latest, x := None, Triple(0, 0, 0);
    } else {
      x := Triple(0, 0, 0);
      DottedSplits(x);
      ShowIsCanonical(0);
      latest := Some(Dotted(Triple(0, 0, 0)));
    }
  }

  lemma ComponentsPrinted(c: seq<int>)
    requires |c| == 3
    ensures var text := JoinWith([ShowInt(c[0]), ShowInt(c[1]), ShowInt(c[2])], '.');
            && (Places("v" + text, 3) <==> c[0] >= 0 && c[1] >= 0 && c[2] >= 0)
            && (c[0] >= 0 && c[1] >= 0 && c[2] >= 0 ==> text == Dotted(Triple(c[0], c[1], c[2])))
  {
    var parts := [ShowInt(c[0]), ShowInt(c[1]), ShowInt(c[2])];
    ShowIntFacts(c[0]);
    ShowIntFacts(c[1]);
    ShowIntFacts(c[2]);
    JoinThenSplit(parts, '.');
    var text := JoinWith(parts, '.');
    assert ("v" + text)[1..] == text;
    assert forall i :: 0 <= i < 3 ==> (Numeral(parts[i]) <==> c[i] >= 0);
  }

  // Lines 82-105: the arithmetic on the components, and the two guards.
  method Increment(tags: set<string>, latest: string, kind: Kind, ghost x: Triple) returns (reply: Reply)
    requires Reads(latest, x)
    ensures reply == Answer(tags, x, kind)
  {
    var parts := SplitOn(latest, '.');
    var rel, maj, min := Wrap(Value(parts[0])), Wrap(Value(parts[1])), Wrap(Value(parts[2]));

    var c: seq<int>;
    match kind {
      case Minor => c := [rel, maj, Wrap(min + 1)];
      case Major => c := [rel, Wrap(maj + 1), 0];
      case Release => c := [Wrap(rel + 1), 0, 0];
    }
    assert c == Computed(x, kind);
    ComponentsPrinted(c);
    var next := JoinWith([ShowInt(c[0]), ShowInt(c[1]), ShowInt(c[2])], '.');
    if !Places("v" + next, 3) {
      return Refused(BadVersion);
    }
    if "v" + next in tags {
      return Refused(TagExists);
    }
    return Printed(next);
  }

  // What the scheme makes of a.b.c, as a string.
  function Bumped(a: nat, b: nat, c: nat, kind: Kind): string {
    match kind
    case Minor => Show(a) + "." + Show(b) + "." + Show(c + 1)
    case Major => Show(a) + "." + Show(b + 1) + ".0"
    case Release => Show(a + 1) + ".0.0"
  }

  lemma DottedIs(x: Triple)
    ensures Dotted(x) == Show(x.rel) + "." + Show(x.maj) + "." + Show(x.min)
  {
    JoinThree(Show(x.rel), Show(x.maj), Show(x.min), '.');
  }

  lemma BumpedIs(a: nat, b: nat, c: nat, kind: Kind)
    ensures Dotted(Next(Triple(a, b, c), kind)) == Bumped(a, b, c, kind)
  {
    DottedIs(Next(Triple(a, b, c), kind));
    assert Show(0) == "0";
    hide Show, Dotted;
  }

  predicate HasRoom(a: nat, b: nat, c: nat) {
    a < LIMIT - 1 && b < LIMIT - 1 && c < LIMIT - 1
  }

  lemma BumpPlainly(tags: set<string>, a: nat, b: nat, c: nat, kind: Kind)
    requires CountsFrom(tags, a, b, c) && HasRoom(a, b, c)
    ensures IsLatest(tags, Triple(a, b, c))
    ensures Answer(tags, Triple(a, b, c), kind) == Printed(Bumped(a, b, c, kind))
  {
    CountsFromIsLatest(tags, a, b, c);
    hide CountsFrom, Answer, Bumped, Dotted, IsLatest;
    AnswerWhenFits(tags, Triple(a, b, c), kind);
    BumpedIs(a, b, c, kind);
  }

  method NextVersion(repository: set<string>, command: Command) returns (reply: Reply)
    ensures var tags := set t | t in repository && t != "" && t[0] == 'v';
            match command
            case LastRelease =>
              (Releases(tags) == {} ==> reply == Printed("")) &&
              (Releases(tags) != {} ==> reply.Printed? && NewestIn(reply.text, Releases(tags)))
            case Bump(kind) =>
              (Unseeded(tags) ==> reply == Refused(Malformed)) &&
              forall x :: IsLatest(tags, x) ==> reply == Answer(tags, x, kind)
    ensures var tags := set t | t in repository && t != "" && t[0] == 'v';
            match command
            case LastRelease =>
              if forall t, n :: SpellsRelease(t, n) ==> t !in tags then reply == Printed("")
              else reply.Printed? && LastReleaseTag(tags, reply.text)
            case Bump(kind) =>
              (tags != {} && NoThree(tags) && NoTwo(tags) ==> reply == Refused(Malformed)) &&
              forall a, b, c :: CountsFrom(tags, a, b, c) && HasRoom(a, b, c) ==>
                reply == Printed(Bumped(a, b, c, kind))
  {
    var tags := set t | t in repository && t != "" && t[0] == 'v';

    ReleasesExactly(tags);
    NoThreeExactly(tags);
    NoTwoExactly(tags);
    forall a, b, c, kind | CountsFrom(tags, a, b, c) && HasRoom(a, b, c)
      ensures IsLatest(tags, Triple(a, b, c))
      ensures Answer(tags, Triple(a, b, c), kind) == Printed(Bumped(a, b, c, kind))
    {
      BumpPlainly(tags, a, b, c, kind);
    }
    hide NoThree, NoTwo, CountsFrom, Bumped, LastReleaseTag, SpellsRelease, Answer, Numbers, HasRoom;
    var lastRelease := Newest(Releases(tags));
    if command.LastRelease? {
      return Printed(if lastRelease.Some? then lastRelease.value else "");
    }

    var latest, x := Latest(tags);
    if latest.None? {
      LatestExists(tags);
      return Refused(Malformed);
    }
    forall y | IsLatest(tags, y) ensures y == x {
      LatestIsUnique(tags, x, y);
    }
    reply := Increment(tags, latest.value, command.kind, x);
  }

  // ----- monotonicity -----

  lemma WrapFacts(n: nat)
    ensures n < LIMIT ==> Wrap(n) == n
    ensures n >= LIMIT ==> Wrap(n) < n
    ensures -LIMIT <= Wrap(n) < LIMIT
  {
  }

  lemma WrapNext(n: nat)
    ensures n < LIMIT - 1 ==> Wrap(Wrap(n) + 1) == n + 1
    ensures n >= LIMIT - 1 ==> Wrap(Wrap(n) + 1) <= n
  {
    WrapFacts(n);
    if n < LIMIT {
      WrapFacts(n + 1);
    }
  }

  lemma ComputedWhenFits(x: Triple, kind: Kind)
    requires Fits(x, kind)
    ensures var next := Next(x, kind); Computed(x, kind) == [next.rel, next.maj, next.min]
  {
    WrapFacts(x.rel);
    WrapFacts(x.maj);
    WrapNext(x.rel);
    WrapNext(x.maj);
    WrapNext(x.min);
  }

  // When the components fit, the shell answers with the version the scheme
  // asks for, and the "tag already exists" guard is not reached.
  lemma AnswerWhenFits(tags: set<string>, x: Triple, kind: Kind)
    requires IsLatest(tags, x) && Fits(x, kind)
    ensures Answer(tags, x, kind) == Printed(Dotted(Next(x, kind)))
    ensures forall t :: t in tags && Places(t, 3) ==> Below(Numbers(t), Next(x, kind))
    ensures OfPlaces(tags, 3) == {} ==>
              forall t :: t in tags && Places(t, 2) ==> Below(Numbers(t), Next(x, kind))
  {
    hide Dotted, Places, Numbers;
    var next := Next(x, kind);
    ComputedWhenFits(x, kind);
    forall t | t in tags && Places(t, 3)
      ensures Below(Numbers(t), next)
    {
      assert t in OfPlaces(tags, 3);
    }
    forall t | OfPlaces(tags, 3) == {} && t in tags && Places(t, 2)
      ensures Below(Numbers(t), next)
    {
      assert t in OfPlaces(tags, 2);
    }
    DottedSplits(next);
  }

  // When they do not fit, whatever it answers is no higher than the tags.
  lemma AnswerWhenNotFits(tags: set<string>, x: Triple, kind: Kind, y: Triple)
    requires !Fits(x, kind) && Answer(tags, x, kind) == Printed(Dotted(y))
    ensures !Below(x, y)
  {
    WrapFacts(x.rel);
    WrapFacts(x.maj);
    WrapNext(x.rel);
    WrapNext(x.maj);
    WrapNext(x.min);
    var c := Computed(x, kind);
    DottedSplits(y);
    DottedSplits(Triple(c[0], c[1], c[2]));
  }

  // The shell's answer is above the version it counts from exactly when the
  // components fit.
  lemma NextExceedsExactly(tags: set<string>, x: Triple, kind: Kind)
    requires IsLatest(tags, x)
    ensures Fits(x, kind) <==>
            exists y :: Answer(tags, x, kind) == Printed(Dotted(y)) && Below(x, y)
  {
    if Fits(x, kind) {
      AnswerWhenFits(tags, x, kind);
      assert Below(x, Next(x, kind));
    } else {
      forall y | Answer(tags, x, kind) == Printed(Dotted(y)) ensures !Below(x, y) {
        AnswerWhenNotFits(tags, x, kind, y);
      }
    }
  }
}
