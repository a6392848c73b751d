/** `generate_world` of `main.py`: the earlier builder, on the current
    entity model, with no retries. A truncated reply raises `ValueError`, a
    reply without '|' raises `IndexError`, and either ends the build. Every
    consumed reply is used exactly once, so each entity's identity is the
    index of the reply that made it. */
module Script {
  import opened Wrappers
  import opened Text
  import opened Campaign
  import opened Replies

  /** The state of a run: the world, and the number of API requests and
      random draws made so far. */
  datatype Run = Run(world: World, next: nat, draw: nat)

  function Parse(reply: Reply): Result<(string, string), Error> {
    ParseReply(reply, IndexError)
  }

  /** The location a usable reply describes. */
  function NamedLocation(reply: Reply): Location
    requires Usable(reply)
  {
    var nd := NameAndDescription(reply.content).value;
    NewLocation(nd.0).(description := nd.1)
  }

  /** The character a usable reply describes; `id` is its identity. */
  function NamedCharacter(reply: Reply, id: nat): Character
    requires Usable(reply)
  {
    var nd := NameAndDescription(reply.content).value;
    NewCharacter(id, nd.0).(description := nd.1)
  }

  /** The world step. */
  function WorldFromReply(reply: Reply): (r: Result<World, Error>)
    ensures r.Success? <==> Usable(reply)
    ensures Truncated(reply) ==> r == Failure(ValueError(TooLong))
    ensures !Truncated(reply) && !Usable(reply) ==> r == Failure(IndexError)
    ensures r.Success? ==>
      var nd := NameAndDescription(reply.content).value;
      && r.value.name == RemoveWhitespace(nd.0) && NoWhitespace(r.value.name)
      && r.value.description == nd.1
      && r.value.characters == [] && r.value.relationships == [] && r.value.locations == []
  {
    var nd :- Parse(reply);
    Success(NewWorld(RemoveWhitespace(nd.0), nd.1))
  }

  /** One location request: a usable reply adds the location it describes. */
  function LocationStep(st: Run, api: Api): (r: Result<Run, Error>)
    ensures r.Success? <==> Usable(api(st.next))
    ensures Truncated(api(st.next)) ==> r == Failure(ValueError(TooLong))
    ensures !Truncated(api(st.next)) && '|' !in api(st.next).content ==> r == Failure(IndexError)
    ensures r.Success? ==> r.value == Run(AddLocation(st.world, NamedLocation(api(st.next))), st.next + 1, st.draw)
  {
    var nd :- Parse(api(st.next));
    Success(Run(AddLocation(st.world, NewLocation(nd.0).(description := nd.1)), st.next + 1, st.draw))
  }

  /** One character request: a usable reply adds the character it
      describes, whose identity is the reply's index. */
  function CharacterStep(st: Run, api: Api): (r: Result<Run, Error>)
    ensures r.Success? <==> Usable(api(st.next))
    ensures Truncated(api(st.next)) ==> r == Failure(ValueError(TooLong))
    ensures !Truncated(api(st.next)) && '|' !in api(st.next).content ==> r == Failure(IndexError)
    ensures r.Success? ==> r.value == Run(AddCharacter(st.world, NamedCharacter(api(st.next), st.next)), st.next + 1, st.draw)
  {
    var nd :- Parse(api(st.next));
    Success(Run(AddCharacter(st.world, NewCharacter(st.next, nd.0).(description := nd.1)), st.next + 1, st.draw))
  }

  /** `for i in range(numLocations)` over the location request. */
  function Locations(st: Run, n: nat, api: Api): Result<Run, Error> {
    Times(st, n, (s: Run) => LocationStep(s, api))
  }

  /** `for i in range(numCharacters)` over the character request. */
  function Characters(st: Run, n: nat, api: Api): Result<Run, Error> {
    Times(st, n, (s: Run) => CharacterStep(s, api))
  }

  /** `[mk(from), ..., mk(from + n - 1)]`. */
  function Built<T>(mk: nat -> T, from: nat, n: nat): seq<T>
    decreases n
  {
    if n == 0 then [] else [mk(from)] + Built(mk, from + 1, n - 1)
  }

  lemma {:induction false} BuiltIndex<T>(mk: nat -> T, from: nat, n: nat)
    ensures |Built(mk, from, n)| == n
    ensures forall i :: 0 <= i < n ==> Built(mk, from, n)[i] == mk(from + i)
    decreases n
  {
    if n > 0 {
      BuiltIndex(mk, from + 1, n - 1);
    }
  }

  /** Repeating a step that fails exactly on an unusable reply and
      otherwise moves on to the next reply succeeds exactly when every reply
      in the window is usable. */
  lemma {:induction false} TimesSucceeds(st: Run, n: nat, step: Run -> Result<Run, Error>, api: Api)
    requires forall s: Run :: step(s).Success? <==> Usable(api(s.next))
    requires forall s: Run :: step(s).Success? ==> step(s).value.next == s.next + 1
    ensures Times(st, n, step).Success? <==> forall k :: st.next <= k < st.next + n ==> Usable(api(k))
    decreases n
  {
    if n > 0 && step(st).Success? {
      TimesSucceeds(step(st).value, n - 1, step, api);
    }
  }

  /** Repeating a step that appends `mk` of the request number to the
      locations appends the `n` locations in order. */
  lemma {:induction false} CollectLocations(st: Run, n: nat, step: Run -> Result<Run, Error>, mk: nat -> Location)
    requires forall s: Run :: step(s).Success? ==>
      step(s).value == Run(s.world.(locations := s.world.locations + [mk(s.next)]), s.next + 1, s.draw)
    ensures Times(st, n, step).Success? ==>
      Times(st, n, step).value == Run(st.world.(locations := st.world.locations + Built(mk, st.next, n)), st.next + n, st.draw)
    decreases n
  {
    if n > 0 && step(st).Success? {
      var st' := step(st).value;
      CollectLocations(st', n - 1, step, mk);
      assert st'.world.locations + Built(mk, st'.next, n - 1) == st.world.locations + Built(mk, st.next, n);
    }
  }

  /** The same for a step that appends to the characters. */
  lemma {:induction false} CollectCharacters(st: Run, n: nat, step: Run -> Result<Run, Error>, mk: nat -> Character)
    requires forall s: Run :: step(s).Success? ==>
      step(s).value == Run(s.world.(characters := s.world.characters + [mk(s.next)]), s.next + 1, s.draw)
    ensures Times(st, n, step).Success? ==>
      Times(st, n, step).value == Run(st.world.(characters := st.world.characters + Built(mk, st.next, n)), st.next + n, st.draw)
    decreases n
  {
    if n > 0 && step(st).Success? {
      var st' := step(st).value;
      CollectCharacters(st', n - 1, step, mk);
      assert st'.world.characters + Built(mk, st'.next, n - 1) == st.world.characters + Built(mk, st.next, n);
    }
  }

  /** The location reply `k` describes; the blank location stands in for a
      reply the loop rejects and never reaches a world. */
  function LocationOf(api: Api): nat -> Location {
    (k: nat) => if Usable(api(k)) then NamedLocation(api(k)) else NewLocation("")
  }

  /** The character reply `k` describes, with identity `k`; the blank one
      stands in for a reply the loop rejects. */
  function CharacterOf(api: Api): nat -> Character {
    (k: nat) => if Usable(api(k)) then NamedCharacter(api(k), k) else NewCharacter(k, "")
  }

  /** The location loop succeeds exactly when all `n` replies are usable;
      it then appends the `n` locations they describe, in order, and changes
      nothing else. */
  lemma LocationsContent(st: Run, n: nat, api: Api)
    ensures Locations(st, n, api).Success? <==> forall k :: st.next <= k < st.next + n ==> Usable(api(k))
    ensures Locations(st, n, api).Success? ==>
      Locations(st, n, api).value
      == Run(st.world.(locations := st.world.locations + Built(LocationOf(api), st.next, n)), st.next + n, st.draw)
  {
    TimesSucceeds(st, n, (s: Run) => LocationStep(s, api), api);
    CollectLocations(st, n, (s: Run) => LocationStep(s, api), LocationOf(api));
  }

  /** The character loop succeeds exactly when all `n` replies are usable;
      it then appends the `n` characters they describe, in order, and
      changes nothing else. */
  lemma CharactersContent(st: Run, n: nat, api: Api)
    ensures Characters(st, n, api).Success? <==> forall k :: st.next <= k < st.next + n ==> Usable(api(k))
    ensures Characters(st, n, api).Success? ==>
      Characters(st, n, api).value
      == Run(st.world.(characters := st.world.characters + Built(CharacterOf(api), st.next, n)), st.next + n, st.draw)
  {
    TimesSucceeds(st, n, (s: Run) => CharacterStep(s, api), api);
    CollectCharacters(st, n, (s: Run) => CharacterStep(s, api), CharacterOf(api));
  }

  /** Every relationship identity is below `next`, so a relationship made
      from reply `next` is new to the list. */
  predicate IdsBelow(rs: seq<Relationship>, next: nat) {
    forall i :: 0 <= i < |rs| ==> rs[i].id < next
  }

  /** Each relationship carries the two halves of the reply whose index is
      its identity. */
  predicate FromReplies(rs: seq<Relationship>, api: Api) {
    forall i :: 0 <= i < |rs| ==>
      Usable(api(rs[i].id)) && NameAndDescription(api(rs[i].id).content) == Some((rs[i].relateAB, rs[i].relateBA))
  }

  /** What the pair loop keeps true of the relationship list. */
  predicate Sound(st: Run, api: Api) {
    var rs := st.world.relationships;
    NoSelfRelationship(rs) && NoMirrorPair(rs) && IdsBelow(rs, st.next) && FromReplies(rs, api)
  }

  /** The body of the pair loop for `characterA`, `characterB`: a pair of
      one character with itself, or of two already related characters, is
      skipped without a draw; otherwise one draw decides whether to request
      a relationship, whose reply gives `relateAB` and `relateBA`. */
  function PairStep(st: Run, a: Character, b: Character, api: Api, draws: Draws): (r: Result<Run, Error>)
    ensures a.id == b.id || GetRelationshipBetween(st.world, a, b).Some? ==> r == Success(st)
    ensures a.id != b.id && GetRelationshipBetween(st.world, a, b).None? && !draws(st.draw) ==>
      r == Success(st.(draw := st.draw + 1))
    ensures a.id != b.id && GetRelationshipBetween(st.world, a, b).None? && draws(st.draw) ==>
      && (r.Success? <==> Usable(api(st.next)))
      && (r.Failure? ==> r == Parse(api(st.next)).PropagateFailure())
      && (r.Success? && IdsBelow(st.world.relationships, st.next) ==>
            var nd := NameAndDescription(api(st.next).content).value;
            && r.value.world.relationships == st.world.relationships + [Relationship(st.next, a, b, nd.0, nd.1)]
            && r.value.world.(relationships := st.world.relationships) == st.world
            && r.value.next == st.next + 1 && r.value.draw == st.draw + 1)
  {
    if a.id == b.id || GetRelationshipBetween(st.world, a, b).Some? then Success(st)
    else if !draws(st.draw) then Success(st.(draw := st.draw + 1))
    else
      var nd :- Parse(api(st.next));
      var rel := SetBidirectional(NewRelationship(st.next, a, b), nd.0, nd.1);
      Success(Run(AddRelationship(st.world, rel).0, st.next + 1, st.draw + 1))
  }

  /** Appending the relationship reply `next` describes keeps the list
      sound and moves the request counter past it. */
  lemma AppendKeepsSound(rs: seq<Relationship>, r: Relationship, next: nat, api: Api)
    requires NoSelfRelationship(rs) && NoMirrorPair(rs) && IdsBelow(rs, next) && FromReplies(rs, api)
    requires r.characterA.id != r.characterB.id
    requires forall i :: 0 <= i < |rs| ==> !Connects(rs[i], r.characterA, r.characterB)
    requires r.id == next && Usable(api(next))
    requires NameAndDescription(api(next).content) == Some((r.relateAB, r.relateBA))
    ensures NoSelfRelationship(rs + [r]) && NoMirrorPair(rs + [r])
    ensures IdsBelow(rs + [r], next + 1) && FromReplies(rs + [r], api)
  {
    AppendKeepsDistinctPairs(rs, r);
    var rs' := rs + [r];
    forall i | 0 <= i < |rs'|
      ensures rs'[i].id < next + 1
      ensures Usable(api(rs'[i].id)) && NameAndDescription(api(rs'[i].id).content) == Some((rs'[i].relateAB, rs'[i].relateBA))
    {
      if i < |rs| {
        assert rs'[i] == rs[i];
      }
    }
  }

  /** One pair step keeps the relationship list sound and leaves the rest of
      the world alone. */
  lemma PairStepKeepsSound(st: Run, a: Character, b: Character, api: Api, draws: Draws)
    requires Sound(st, api)
    ensures var r := PairStep(st, a, b, api, draws);
      r.Success? ==> Sound(r.value, api) && r.value.world.(relationships := []) == st.world.(relationships := [])
  {
    if a.id != b.id && GetRelationshipBetween(st.world, a, b).None? && draws(st.draw) && Usable(api(st.next)) {
      var nd := NameAndDescription(api(st.next).content).value;
      AppendKeepsSound(st.world.relationships, Relationship(st.next, a, b, nd.0, nd.1), st.next, api);
    }
  }

  /** The pair loop keeps the relationship list sound and changes nothing
      else in the world. */
  lemma PairPhaseSound(st: Run, api: Api, draws: Draws)
    requires Sound(st, api)
    ensures var r := PairsLoop(st, st.world.characters, 0, 0, (s: Run, a: Character, b: Character) => PairStep(s, a, b, api, draws));
      r.Success? ==> Sound(r.value, api) && r.value.world.(relationships := []) == st.world.(relationships := [])
  {
    var step := (s: Run, a: Character, b: Character) => PairStep(s, a, b, api, draws);
    var base := st.world.(relationships := []);
    var inv := (s: Run) => Sound(s, api) && s.world.(relationships := []) == base;
    forall s: Run, a: Character, b: Character | inv(s) && step(s, a, b).Success?
      ensures inv(step(s, a, b).value)
    {
      PairStepKeepsSound(s, a, b, api, draws);
    }
    PairsLoopPreserves(st, st.world.characters, 0, 0, step, inv);
  }

  /** `range(numCharacters)` is empty for a negative count. */
  function Clamp(n: int): nat {
    if n < 0 then 0 else n
  }

  /** `generate_world(numLocations, numCharacters)` of `main.py`. */
  function GenerateWorld(numLocations: int, numCharacters: int, api: Api, draws: Draws): (r: Result<World, Error>)
    ensures numLocations < 0 || numLocations > MaxLocations ==> r == Failure(ValueError(OutOfRange))
    ensures 0 <= numLocations <= MaxLocations && !Usable(api(0)) ==> r.Failure?
    ensures 0 <= numLocations <= MaxLocations && Truncated(api(0)) ==> r == Failure(ValueError(TooLong))
    ensures 0 <= numLocations <= MaxLocations && !Truncated(api(0)) && '|' !in api(0).content ==> r == Failure(IndexError)
  {
    var counted :- CheckCounts(numLocations, numCharacters);
    var w :- WorldFromReply(api(0));
    var st1 :- Locations(Run(w, 1, 0), numLocations, api);
    var st2 :- Characters(st1, Clamp(numCharacters), api);
    var st3 :- PairsLoop(st2, st2.world.characters, 0, 0, (s: Run, a: Character, b: Character) => PairStep(s, a, b, api, draws));
    Success(st3.world)
  }

  /** The start of the run: the world the first reply describes. */
  function Start(api: Api): Run
    requires Usable(api(0))
  {
    Run(WorldFromReply(api(0)).value, 1, 0)
  }

  /** A finished build went through every stage: the counts were in range,
      the world reply was usable, the location and character loops and the
      pair loop all succeeded, and the world is the pair loop's. */
  lemma GenerateWorldStages(numLocations: int, numCharacters: int, api: Api, draws: Draws)
    requires GenerateWorld(numLocations, numCharacters, api, draws).Success?
    ensures 0 <= numLocations <= MaxLocations && Usable(api(0))
    ensures var st1 := Locations(Start(api), numLocations, api);
      && st1.Success?
      && var st2 := Characters(st1.value, Clamp(numCharacters), api);
      && st2.Success?
      && var st3 := PairsLoop(st2.value, st2.value.world.characters, 0, 0, (s: Run, a: Character, b: Character) => PairStep(s, a, b, api, draws));
      && st3.Success?
      && GenerateWorld(numLocations, numCharacters, api, draws).value == st3.value.world
  {
    assert CheckCounts(numLocations, numCharacters).Success?;
    assert WorldFromReply(api(0)).Success?;
  }

  /** A finished world is named by the first reply: its name is the first
      piece without whitespace and its description the second piece. The
      later stages never touch either. */
  lemma GenerateWorldNamed(numLocations: int, numCharacters: int, api: Api, draws: Draws, w: World)
    requires GenerateWorld(numLocations, numCharacters, api, draws) == Success(w)
    ensures Usable(api(0))
    ensures var nd := NameAndDescription(api(0).content).value;
      w.name == RemoveWhitespace(nd.0) && w.description == nd.1
  {
    GenerateWorldStages(numLocations, numCharacters, api, draws);
    var st0 := Start(api);
    LocationsContent(st0, numLocations, api);
    var st1 := Locations(st0, numLocations, api).value;
    CharactersContent(st1, Clamp(numCharacters), api);
    var st2 := Characters(st1, Clamp(numCharacters), api).value;
    assert st2.world.relationships == [];
    PairPhaseSound(st2, api, draws);
    assert w.name == st2.world.name == st0.world.name;
    assert w.description == st2.world.description == st0.world.description;
  }

  /** A finished build had the location count in range and every reply
      before the pair loop usable. */
  lemma GenerateWorldUsable(numLocations: int, numCharacters: int, api: Api, draws: Draws)
    requires GenerateWorld(numLocations, numCharacters, api, draws).Success?
    ensures 0 <= numLocations <= MaxLocations
    ensures forall k :: 0 <= k < 1 + numLocations + Clamp(numCharacters) ==> Usable(api(k))
  {
    GenerateWorldStages(numLocations, numCharacters, api, draws);
    var nc := Clamp(numCharacters);
    var st0 := Start(api);
    LocationsContent(st0, numLocations, api);
    var st1 := Locations(st0, numLocations, api).value;
    CharactersContent(st1, nc, api);
    assert st0.next == 1 && st1.next == 1 + numLocations;
    forall k | 0 <= k < 1 + numLocations + nc
      ensures Usable(api(k))
    {
      if k == 0 {
      } else if k < 1 + numLocations {
        assert st0.next <= k < st0.next + numLocations;
      } else {
        assert st1.next <= k < st1.next + nc;
      }
    }
  }

  /** A finished world holds exactly the requested locations and
      characters, built from consecutive replies after the world reply. */
  lemma GenerateWorldEntities(numLocations: int, numCharacters: int, api: Api, draws: Draws, w: World)
    requires GenerateWorld(numLocations, numCharacters, api, draws) == Success(w)
    ensures numLocations >= 0
    ensures w.locations == Built(LocationOf(api), 1, numLocations)
    ensures w.characters == Built(CharacterOf(api), 1 + numLocations, Clamp(numCharacters))
  {
    GenerateWorldStages(numLocations, numCharacters, api, draws);
    var nc := Clamp(numCharacters);
    var st0 := Start(api);
    LocationsContent(st0, numLocations, api);
    var st1 := Locations(st0, numLocations, api).value;
    CharactersContent(st1, nc, api);
    var st2 := Characters(st1, nc, api).value;
    PairPhaseSound(st2, api, draws);
    assert st1.world.locations == [] + Built(LocationOf(api), 1, numLocations);
    assert st2.world.characters == [] + Built(CharacterOf(api), 1 + numLocations, nc);
  }

  /** The relationships of a finished world pair distinct characters, never
      the same two twice in either order, and each carries the two halves
      of the reply whose index is its identity. */
  lemma GenerateWorldRelationships(numLocations: int, numCharacters: int, api: Api, draws: Draws, w: World)
    requires GenerateWorld(numLocations, numCharacters, api, draws) == Success(w)
    ensures NoSelfRelationship(w.relationships) && NoMirrorPair(w.relationships)
    ensures FromReplies(w.relationships, api)
  {
    GenerateWorldStages(numLocations, numCharacters, api, draws);
    var st0 := Start(api);
    LocationsContent(st0, numLocations, api);
    var st1 := Locations(st0, numLocations, api).value;
    CharactersContent(st1, Clamp(numCharacters), api);
    var st2 := Characters(st1, Clamp(numCharacters), api).value;
    assert st2.world.relationships == [];
    PairPhaseSound(st2, api, draws);
  }

  /** Over a window of usable replies, the built locations are the ones
      those replies describe, in reply order. */
  lemma BuiltLocations(api: Api, from: nat, n: nat, ls: seq<Location>)
    requires forall k :: from <= k < from + n ==> Usable(api(k))
    requires ls == Built(LocationOf(api), from, n)
    ensures |ls| == n
    ensures forall i :: 0 <= i < |ls| ==> Usable(api(from + i)) && ls[i] == NamedLocation(api(from + i))
  {
    BuiltIndex(LocationOf(api), from, n);
    forall i | 0 <= i < n
      ensures ls[i] == NamedLocation(api(from + i))
    {
      assert ls[i] == LocationOf(api)(from + i);
    }
  }

  /** Over a window of usable replies, the built characters are the ones
      those replies describe, in reply order, each identified by its
      reply's index. */
  lemma BuiltCharacters(api: Api, from: nat, n: nat, cs: seq<Character>)
    requires forall k :: from <= k < from + n ==> Usable(api(k))
    requires cs == Built(CharacterOf(api), from, n)
    ensures |cs| == n
    ensures forall i :: 0 <= i < |cs| ==>
      cs[i].id == from + i && Usable(api(cs[i].id)) && cs[i] == NamedCharacter(api(cs[i].id), cs[i].id)
  {
    BuiltIndex(CharacterOf(api), from, n);
    forall i | 0 <= i < n
      ensures cs[i].id == from + i && Usable(api(cs[i].id)) && cs[i] == NamedCharacter(api(cs[i].id), cs[i].id)
    {
      assert cs[i] == CharacterOf(api)(from + i);
    }
  }

  /** Position i holds the location reply `1 + i` describes. */
  predicate LocationsFromReplies(ls: seq<Location>, api: Api) {
    forall i :: 0 <= i < |ls| ==> Usable(api(1 + i)) && ls[i] == NamedLocation(api(1 + i))
  }

  /** Position i holds the character reply `from + i` describes, identified
      by that index. */
  predicate CharactersFromReplies(cs: seq<Character>, api: Api, from: nat) {
    forall i :: 0 <= i < |cs| ==>
      cs[i].id == from + i && Usable(api(cs[i].id)) && cs[i] == NamedCharacter(api(cs[i].id), cs[i].id)
  }

  /** No two characters share an identity. */
  predicate DistinctIds(cs: seq<Character>) {
    forall i, j :: 0 <= i < j < |cs| ==> cs[i].id != cs[j].id
  }

  /** Locations built from the usable replies `1 .. numLocations` are, in
      order, the ones those replies describe. */
  lemma LocationsInReplyOrder(api: Api, ls: seq<Location>, numLocations: nat)
    requires forall k :: 1 <= k < 1 + numLocations ==> Usable(api(k))
    requires ls == Built(LocationOf(api), 1, numLocations)
    ensures LocationsFromReplies(ls, api)
  {
    BuiltLocations(api, 1, numLocations, ls);
  }

  /** Characters built from a window of usable replies are, in order, the
      ones those replies describe, identified by the reply index; so no two
      share an identity. */
  lemma CharactersInReplyOrder(api: Api, cs: seq<Character>, from: nat, numCharacters: nat)
    requires forall k :: from <= k < from + numCharacters ==> Usable(api(k))
    requires cs == Built(CharacterOf(api), from, numCharacters)
    ensures CharactersFromReplies(cs, api, from)
    ensures DistinctIds(cs)
  {
    BuiltCharacters(api, from, numCharacters, cs);
    forall i, j | 0 <= i < j < |cs|
      ensures cs[i].id != cs[j].id
    {
      assert cs[i].id == from + i && cs[j].id == from + j;
    }
  }

  /** In a finished build the i-th location comes from reply `1 + i`. */
  lemma GenerateWorldLocationOrder(numLocations: int, numCharacters: int, api: Api, draws: Draws, w: World)
    requires GenerateWorld(numLocations, numCharacters, api, draws) == Success(w)
    ensures LocationsFromReplies(w.locations, api)
  {
    GenerateWorldUsable(numLocations, numCharacters, api, draws);
    GenerateWorldEntities(numLocations, numCharacters, api, draws, w);
    LocationsInReplyOrder(api, w.locations, numLocations);
  }

  /** In a finished build the i-th character comes from reply
      `1 + numLocations + i`, whose index is its identity; so no two
      characters share an identity. */
  lemma GenerateWorldCharacterOrder(numLocations: int, numCharacters: int, api: Api, draws: Draws, w: World)
    requires GenerateWorld(numLocations, numCharacters, api, draws) == Success(w)
    ensures numLocations >= 0 && CharactersFromReplies(w.characters, api, 1 + numLocations)
    ensures DistinctIds(w.characters)
  {
    GenerateWorldUsable(numLocations, numCharacters, api, draws);
    GenerateWorldEntities(numLocations, numCharacters, api, draws, w);
    CharactersInReplyOrder(api, w.characters, 1 + numLocations, Clamp(numCharacters));
  }
}
