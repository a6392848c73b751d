/** The `generate_*` functions and `generate_world` of
    `campaign_generators.py`, with the API and `random` as oracles. Saving
    each generated object to a file is left out.

    Several calls in the builder name methods that do not exist, and the
    model keeps the resulting exceptions:
    - `generate_location` asks the world for `locations_as_system_msg`;
    - both relationship generators ask a character for `as_system_msg`;
    - the item loop asks the world for `world_basics`, after drawing a
      location from a list that is always empty by then.
    None of these raises `ValueError`, so none is retried: each ends the
    build. */
module Generators {
  import opened Wrappers
  import opened Text
  import opened Campaign
  import opened Replies

  /** Reply handling shared by the world, location, character and item
      generators: the `IndexError` of a missing '|' is re-raised as
      `ValueError`, so every rejected reply raises `ValueError`, the one
      exception the retry loops catch. */
  function ParseNamed(reply: Reply): (r: Result<(string, string), Error>)
    ensures r.Success? <==> Usable(reply)
    ensures r.Failure? ==> r.error.ValueError?
    ensures r.Failure? ==> (r.error.reason == TooLong <==> Truncated(reply))
    ensures r.Success? ==> NameAndDescription(reply.content) == Some(r.value)
  {
    ParseReply(reply, ValueError(InvalidResponse))
  }

  // ---------------------------------------------------------------------
  // Generators

  /** The world step of `generate_world`: the name loses all whitespace. */
  function WorldFromReply(reply: Reply): (r: Result<World, Error>)
    ensures r.Success? <==> Usable(reply)
    ensures Truncated(reply) ==> r == Failure(ValueError(TooLong))
    ensures r.Success? ==>
      var nd := NameAndDescription(reply.content).value;
      && r.value.name == RemoveWhitespace(nd.0) && NoWhitespace(r.value.name)
      && r.value.description == nd.1
      && r.value.characters == [] && r.value.relationships == [] && r.value.locations == []
  {
    var nd :- ParseNamed(reply);
    Success(NewWorld(RemoveWhitespace(nd.0), nd.1))
  }

  /** What `generate_location` would do with a reply. It is never reached,
      because `GenerateLocation` raises first. */
  function LocationFromReply(reply: Reply): (r: Result<Location, Error>)
    ensures r.Success? <==> Usable(reply)
    ensures !r.Success? ==> r.error.ValueError?
    ensures r.Success? ==>
      var nd := NameAndDescription(reply.content).value;
      r.value.name == nd.0 && r.value.description == nd.1 && r.value.traits == [] && r.value.inventory == []
  {
    var nd :- ParseNamed(reply);
    Success(NewLocation(nd.0).(description := nd.1))
  }

  /** `generate_location`: the context it builds first reads an attribute
      `World` does not have, so every call raises `AttributeError` before the
      API is reached. */
  function GenerateLocation(w: World, reply: Reply): (a: Attempt<Location>)
    ensures a.Raised? && !Rejected(a)
  {
    Raised(AttributeError("locations_as_system_msg"))
  }

  /** `generate_character`; `id` is the identity of the new object. */
  function GenerateCharacter(w: World, reply: Reply, id: nat): (a: Attempt<Character>)
    ensures a.Made? <==> Usable(reply)
    ensures !a.Made? ==> Rejected(a)
    ensures a.Made? ==>
      var nd := NameAndDescription(reply.content).value;
      && a.value.id == id && a.value.name == nd.0 && a.value.description == nd.1
      && a.value.traits == map[] && a.value.inventory == []
  {
    match ParseNamed(reply)
    case Success(nd) => Made(NewCharacter(id, nd.0).(description := nd.1))
    case Failure(e) => Raised(e)
  }

  /** What `generate_symmetric_relationship` and
      `generate_asymmetric_relationship` would do with a reply. Both call a
      setter `Relationship` does not define (`set_symmetric_relationship`,
      `set_asymmetric_relationship`); the attribute lookup fails before the
      asymmetric one's `message[1]` is read, and the bare `except` turns
      the failure into `ValueError`. Every reply fails. These lines are
      never reached, because `GenerateRelationship` raises first. */
  function RelationshipFromReply(a: Character, b: Character, reply: Reply): (r: Result<Relationship, Error>)
    ensures r.Failure? && r.error.ValueError?
    ensures r.error == ValueError(TooLong) <==> Truncated(reply)
  {
    if Truncated(reply) then Failure(ValueError(TooLong))
    else Failure(ValueError(InvalidResponse))
  }

  /** `generate_symmetric_relationship` and `generate_asymmetric_relationship`:
      the context they build first reads `as_system_msg` on a character,
      which `Character` does not define, so every call raises
      `AttributeError` before the API is reached. */
  function GenerateRelationship(a: Character, b: Character, reply: Reply): (at: Attempt<Relationship>)
    ensures at.Raised? && !Rejected(at)
  {
    Raised(AttributeError("as_system_msg"))
  }

  /** What `generate_item` would do with a reply. It is never reached,
      because `ItemPhase` raises first. */
  function ItemFromReply(reply: Reply): (r: Result<Item, Error>)
    ensures r.Success? <==> Usable(reply)
    ensures !r.Success? ==> r.error.ValueError?
    ensures r.Success? ==>
      var nd := NameAndDescription(reply.content).value;
      && r.value.name == nd.0 && r.value.description == nd.1
      && r.value.traits == map[] && r.value.size == Medium
  {
    var nd :- ParseNamed(reply);
    Success(NewItem(nd.0).(description := nd.1))
  }

  // ---------------------------------------------------------------------
  // The build

  /** The state `generate_world` threads through its loops: the world, the
      number of API requests and random draws made so far, and the loop
      variables that outlive their iterations. */
  datatype Build = Build(
    world: World,
    next: nat,
    draw: nat,
    location: Option<Location>,
    character: Option<Character>)

  /** One iteration of the location loop. */
  function LocationStep(st: Build, api: Api): (r: Result<Build, Error>)
    ensures r == Failure(AttributeError("locations_as_system_msg"))
  {
    match Obtain((k: nat) => GenerateLocation(st.world, api(k)), st.next, st.location, "location")
    case Failure(e) => Failure(e)
    case Success(got) => Success(st.(world := AddLocation(st.world, got.0), next := got.1, location := Some(got.0)))
  }

  /** `for i in range(numLocations)` around the location step. */
  function LocationLoop(st: Build, n: nat, api: Api): (r: Result<Build, Error>)
    ensures n == 0 ==> r == Success(st)
    ensures n > 0 ==> r == Failure(AttributeError("locations_as_system_msg"))
  {
    Times(st, n, (s: Build) => LocationStep(s, api))
  }

  /** The attempt made with reply number `k` of the character loop. */
  function CharacterAttempts(w: World, api: Api): nat -> Attempt<Character> {
    (k: nat) => GenerateCharacter(w, api(k), k)
  }

  /** One iteration of the character loop: up to three requests; the first
      usable reply gives a character whose identity is that reply's index;
      when all three fail, the previous character is added again, and with
      no previous character the build ends in `UnboundLocalError`. */
  function CharacterStep(st: Build, api: Api): (r: Result<Build, Error>)
    ensures r.Failure? <==> st.character.None? && forall k :: st.next <= k < st.next + RetryLimit ==> !Usable(api(k))
    ensures r.Failure? ==> r.error == UnboundLocalError("character")
    ensures r.Success? ==>
      && |r.value.world.characters| == |st.world.characters| + 1
      && r.value.world == AddCharacter(st.world, r.value.world.characters[|st.world.characters|])
      && st.next < r.value.next <= st.next + RetryLimit
      && r.value.draw == st.draw
    ensures r.Success? && (forall k :: st.next <= k < st.next + RetryLimit ==> !Usable(api(k))) ==>
      r.value.world == AddCharacter(st.world, st.character.value)
  {
    var gen := CharacterAttempts(st.world, api);
    assert forall k :: Rejected(gen(k)) <==> !Usable(api(k));
    var o := Obtain(gen, st.next, st.character, "character");
    assert o.Failure? <==> st.character.None? && forall k :: st.next <= k < st.next + RetryLimit ==> Rejected(gen(k));
    match o
    case Failure(e) => Failure(e)
    case Success(got) => Success(st.(world := AddCharacter(st.world, got.0), next := got.1, character := Some(got.0)))
  }

  /** Retrying any character generator that makes a character exactly
      from a usable reply, named after its two halves and identified by the
      reply's index: when one of the three replies is usable, the first
      usable one gives the character. */
  lemma ObtainFirstUsable(gen: nat -> Attempt<Character>, api: Api, cursor: nat, previous: Option<Character>, k: nat)
    requires forall j: nat :: gen(j).Made? <==> Usable(api(j))
    requires forall j: nat :: !gen(j).Made? ==> Rejected(gen(j))
    requires forall j: nat :: gen(j).Made? ==>
      && Usable(api(j)) && gen(j).value.id == j
      && gen(j).value.name == NameAndDescription(api(j).content).value.0
      && gen(j).value.description == NameAndDescription(api(j).content).value.1
    requires cursor <= k < cursor + RetryLimit && Usable(api(k))
    ensures var r := Obtain(gen, cursor, previous, "character");
      && r.Success?
      && var c := r.value.0;
      && c.id == r.value.1 - 1 && cursor <= c.id <= k && Usable(api(c.id))
      && (forall k' :: cursor <= k' < c.id ==> !Usable(api(k')))
      && c.name == NameAndDescription(api(c.id).content).value.0
      && c.description == NameAndDescription(api(c.id).content).value.1
  {
    ObtainFirstMade(gen, cursor, previous, "character", k);
  }

  /** When one of the three replies is usable, the character added is built
      from the first usable one and carries its index as identity. */
  lemma CharacterStepTakesFirstUsable(st: Build, api: Api, k: nat)
    requires st.next <= k < st.next + RetryLimit && Usable(api(k))
    ensures CharacterStep(st, api).Success?
    ensures var r := CharacterStep(st, api).value;
      var c := r.world.characters[|st.world.characters|];
      && c.id == r.next - 1 && st.next <= c.id <= k && Usable(api(c.id))
      && (forall k' :: st.next <= k' < c.id ==> !Usable(api(k')))
      && c.name == NameAndDescription(api(c.id).content).value.0
      && c.description == NameAndDescription(api(c.id).content).value.1
  {
    var gen := CharacterAttempts(st.world, api);
    assert forall j: nat :: gen(j) == GenerateCharacter(st.world, api(j), j);
    ObtainFirstUsable(gen, api, st.next, st.character, k);
  }

  /** `for i in range(numCharacters)` around the character step. */
  function CharacterLoop(st: Build, n: nat, api: Api): Result<Build, Error> {
    Times(st, n, (s: Build) => CharacterStep(s, api))
  }

  /** `after` is `before` with characters appended and nothing else changed. */
  predicate Appends(before: World, after: World, n: nat) {
    && |after.characters| == |before.characters| + n
    && before.characters <= after.characters
    && after.(characters := before.characters) == before
  }

  /** A step that appends one character, makes one to three requests and
      draws nothing. */
  ghost predicate AppendsOne(step: Build -> Result<Build, Error>) {
    forall s :: step(s).Success? ==>
      && Appends(s.world, step(s).value.world, 1)
      && s.next < step(s).value.next <= s.next + RetryLimit
      && step(s).value.draw == s.draw
  }

  /** Repeating such a step `n` times appends `n` characters with between
      `n` and `3 * n` requests. */
  lemma {:induction false} TimesAppends(st: Build, n: nat, step: Build -> Result<Build, Error>)
    requires AppendsOne(step)
    ensures var r := Times(st, n, step);
      r.Success? ==>
        && Appends(st.world, r.value.world, n)
        && st.next + n <= r.value.next <= st.next + RetryLimit * n
        && r.value.draw == st.draw
    decreases n
  {
    if n > 0 {
      match step(st)
      case Failure(e) =>
      case Success(st') =>
        TimesAppends(st', n - 1, step);
        var r := Times(st', n - 1, step);
        if r.Success? {
          AppendsTrans(st.world, st'.world, r.value.world, 1, n - 1);
          assert RetryLimit * n == RetryLimit * (n - 1) + RetryLimit;
        }
    }
  }

  /** The character loop appends exactly `n` characters, changes nothing
      else in the world, and makes between `n` and `3 * n` requests. */
  lemma CharacterLoopAppends(st: Build, n: nat, api: Api)
    ensures var r := CharacterLoop(st, n, api);
      r.Success? ==>
        && Appends(st.world, r.value.world, n)
        && st.next + n <= r.value.next <= st.next + RetryLimit * n
        && r.value.draw == st.draw
  {
    TimesAppends(st, n, (s: Build) => CharacterStep(s, api));
  }

  lemma AppendsTrans(a: World, b: World, c: World, m: nat, n: nat)
    requires Appends(a, b, m) && Appends(b, c, n)
    ensures Appends(a, c, m + n)
  {
  }

  /** The body of the pair loop for `characterA`, `characterB`. A self-pair
      or an already related pair is skipped without a draw. Otherwise one
      draw decides whether to generate at all and a second picks the
      asymmetric or the symmetric generator; either one raises
      `AttributeError` on its first attempt, which escapes the retry loop
      and ends the build. */
  function PairStep(st: Build, a: Character, b: Character, api: Api, draws: Draws): (r: Result<Build, Error>)
    ensures !Unrelated(st.world, a, b) ==> r == Success(st)
    ensures Unrelated(st.world, a, b) && !draws(st.draw) ==> r == Success(st.(draw := st.draw + 1))
    ensures Unrelated(st.world, a, b) && draws(st.draw) ==> r == Failure(AttributeError("as_system_msg"))
  {
    if !Unrelated(st.world, a, b) then Success(st)
    else if !draws(st.draw) then Success(st.(draw := st.draw + 1))
    else Failure(GenerateRelationship(a, b, api(st.next)).error)
  }

  /** The pair loop never changes the world: every step either skips or
      ends the build. */
  lemma PairPhaseLeavesWorld(st: Build, api: Api, draws: Draws)
    ensures var r := PairsLoop(st, st.world.characters, 0, 0, (s: Build, a: Character, b: Character) => PairStep(s, a, b, api, draws));
      r.Success? ==> r.value.world == st.world
  {
    var step := (s: Build, a: Character, b: Character) => PairStep(s, a, b, api, draws);
    var inv := (s: Build) => s.world == st.world;
    PairsLoopPreserves(st, st.world.characters, 0, 0, step, inv);
  }

  /** The item loop: `random.choice` on an empty location list raises
      `IndexError`; otherwise `world.world_basics()` raises `AttributeError`. */
  function ItemPhase(st: Build, numItems: int): (r: Result<Build, Error>)
    ensures numItems <= 0 <==> r.Success?
    ensures r.Success? ==> r.value == st
  {
    if numItems <= 0 then Success(st)
    else if |st.world.locations| == 0 then Failure(IndexError)
    else Failure(AttributeError("world_basics"))
  }

  /** `generate_world(numLocations, numCharacters, numItems)`. */
  function GenerateWorld(numLocations: int, numCharacters: int, numItems: int, api: Api, draws: Draws): (r: Result<World, Error>)
    ensures numLocations < 0 || numLocations > MaxLocations ==> r == Failure(ValueError(OutOfRange))
    ensures 0 <= numLocations <= MaxLocations && Truncated(api(0)) ==> r == Failure(ValueError(TooLong))
    ensures 0 <= numLocations <= MaxLocations && !Truncated(api(0)) && '|' !in api(0).content ==>
      r == Failure(ValueError(InvalidResponse))
    ensures 0 < numLocations <= MaxLocations && Usable(api(0)) ==> r == Failure(AttributeError("locations_as_system_msg"))
    ensures r.Success? ==>
      && numLocations == 0 && numItems <= 0
      && Usable(api(0)) && NoWhitespace(r.value.name)
      && var nd := NameAndDescription(api(0).content).value;
      && r.value.name == RemoveWhitespace(nd.0) && r.value.description == nd.1
      && |r.value.characters| == (if numCharacters < 0 then 0 else numCharacters)
      && r.value.locations == [] && r.value.relationships == []
  {
    var counted :- CheckCounts(numLocations, numCharacters);
    var w :- WorldFromReply(api(0));
    var st0 := Build(w, 1, 0, None, None);
    var st1 :- LocationLoop(st0, numLocations, api);
    var st2 :- CharacterLoop(st1, if numCharacters < 0 then 0 else numCharacters, api);
    CharacterLoopAppends(st1, if numCharacters < 0 then 0 else numCharacters, api);
    PairPhaseLeavesWorld(st2, api, draws);
    var st3 :- PairsLoop(st2, st2.world.characters, 0, 0, (s: Build, a: Character, b: Character) => PairStep(s, a, b, api, draws));
    var st4 :- ItemPhase(st3, numItems);
    Success(st4.world)
  }

  /** Two truncated replies followed by a usable one: the character comes
      from the third request and the next request is the fourth. */
  lemma TwoTruncatedThenUsable(st: Build, api: Api)
    requires Truncated(api(st.next)) && Truncated(api(st.next + 1)) && Usable(api(st.next + 2))
    ensures CharacterStep(st, api).Success?
    ensures var r := CharacterStep(st, api).value;
      && r.next == st.next + 3
      && r.world.characters[|st.world.characters|].id == st.next + 2
  {
    CharacterStepTakesFirstUsable(st, api, st.next + 2);
  }

  /** The world reply `Numenor|A sunken empire` gives the world Numenor. */
  lemma NumenorReply(reply: Reply)
    requires reply == Reply("stop", "Numenor" + "|" + "A sunken empire")
    ensures WorldFromReply(reply) == Success(World("Numenor", "A sunken empire", [], [], []))
  {
    NameAndDescriptionOfJoin("Numenor", "A sunken empire");
    NumenorHasNoWhitespace();
    assert |reply.finishReason| != |"length"|;
  }

  lemma NumenorHasNoWhitespace()
    ensures RemoveWhitespace("Numenor") == "Numenor"
  {
    var name := "Numenor";
    assert forall i :: 0 <= i < |name| ==> name[i] as int > 32;
    RemoveWhitespaceExact(name, "", 'N');
  }

  /** A build with no locations, characters or items returns the world its
      first reply describes. */
  lemma EmptyBuild(api: Api, draws: Draws)
    requires Usable(api(0))
    ensures GenerateWorld(0, 0, 0, api, draws) == WorldFromReply(api(0))
  {
    var w := WorldFromReply(api(0)).value;
    var st0 := Build(w, 1, 0, None, None);
    assert LocationLoop(st0, 0, api) == Success(st0);
    assert CharacterLoop(st0, 0, api) == Success(st0);
    assert PairsLoop(st0, [], 0, 0, (s: Build, a: Character, b: Character) => PairStep(s, a, b, api, draws)) == Success(st0);
  }

  /** The worked example: from the first reply `Numenor|A sunken empire`, a
      build with no locations, characters or items is the world Numenor and
      nothing else. */
  lemma NumenorWorld(api: Api, draws: Draws)
    requires api(0) == Reply("stop", "Numenor" + "|" + "A sunken empire")
    ensures GenerateWorld(0, 0, 0, api, draws) == Success(World("Numenor", "A sunken empire", [], [], []))
  {
    NumenorReply(api(0));
    EmptyBuild(api, draws);
  }
}
