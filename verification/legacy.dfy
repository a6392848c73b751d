/** The older entity model of `campaign_classes.py`. It differs from
    `campaign.py` in two ways: a `Location` keeps a back-reference to the
    `World` that added it, and a `Character` has no description.

    Everything else is the newer model: `Size`, `Item` and `Relationship`
    are the same classes, and the character methods, `add_character`,
    `add_relationship` and `get_relationship_between` have the same bodies.
    So an older world is a newer one (its `Core`) plus an identity, which
    location back-references name, and a list of older locations. */
module Legacy {
  import opened Wrappers
  import Campaign

  // ---------------------------------------------------------------------
  // Character

  /** `Character(name)` of the older model: the newer character with no
      description, so its description is empty and no method sets it. */
  type Character = c: Campaign.Character | c.description == ""
    witness Campaign.Character(0, "", "", map[], [])

  /** A new character, and the trait and item methods (the same bodies as
      the newer ones), keep a character without description. */
  lemma CharacterMethodsKeepNoDescription(c: Character, id: nat, name: string, quality: string, description: string, item: Campaign.Item)
    ensures Campaign.NewCharacter(id, name).description == ""
    ensures Campaign.CharacterAddTrait(c, quality, description).description == ""
    ensures Campaign.CharacterAddItem(c, item).description == ""
  {
  }

  // ---------------------------------------------------------------------
  // Location

  /** `Location(name, world)`: `world` is the identity of the owning world,
      `None` for Python's `None`. The class has no methods, so its trait
      and inventory lists stay empty. */
  datatype Location = Location(
    name: string,
    description: string,
    traits: seq<(string, string)>,
    inventory: seq<Campaign.Item>,
    world: Option<nat>)

  /** `Location(name, world=None)`. */
  function NewLocation(name: string, world: Option<nat>): (l: Location)
    ensures l.name == name && l.description == "" && l.traits == [] && l.inventory == []
    ensures l.world == world
  {
    Location(name, "", [], [], world)
  }

  // ---------------------------------------------------------------------
  // World

  datatype World = World(
    id: nat,
    name: string,
    description: string,
    characters: seq<Character>,
    relationships: seq<Campaign.Relationship>,
    locations: seq<Location>)

  /** What an older world shares with the newer model: everything but its
      identity and its locations. */
  function Core(w: World): Campaign.World {
    Campaign.World(w.name, w.description, w.characters, w.relationships, [])
  }

  /** `World(name, description)`; `id` is its identity. */
  function NewWorld(id: nat, name: string, description: string): (w: World)
    ensures w.id == id && w.locations == []
    ensures Core(w) == Campaign.NewWorld(name, description)
  {
    World(id, name, description, [], [], [])
  }

  /** `add_character` acts on the shared part as the newer one does. */
  function AddCharacter(w: World, c: Character): (r: World)
    ensures r.characters == w.characters + [c]
    ensures Core(r) == Campaign.AddCharacter(Core(w), c)
    ensures r.id == w.id && r.locations == w.locations
  {
    w.(characters := w.characters + [c])
  }

  /** `add_location`: exactly one location at the end, whose back-reference
      now names this world, whatever it named before. */
  function AddLocation(w: World, l: Location): (r: World)
    ensures |r.locations| == |w.locations| + 1
    ensures r.locations[..|w.locations|] == w.locations
    ensures r.locations[|w.locations|] == l.(world := Some(w.id))
    ensures r.locations[|w.locations|].world == Some(w.id)
    ensures Core(r) == Core(w) && r.id == w.id
  {
    w.(locations := w.locations + [l.(world := Some(w.id))])
  }

  /** `add_relationship` acts on the shared part as the newer one does, and
      returns the same flag. */
  function AddRelationship(w: World, r: Campaign.Relationship): (res: (World, bool))
    ensures res.1 <==> !Campaign.Holds(w.relationships, r)
    ensures res.1 ==> res.0 == w.(relationships := w.relationships + [r])
    ensures !res.1 ==> res.0 == w
    ensures res.1 == Campaign.AddRelationship(Core(w), r).1
    ensures Core(res.0) == Campaign.AddRelationship(Core(w), r).0
    ensures res.0.id == w.id && res.0.locations == w.locations
  {
    var added := Campaign.AddRelationship(Core(w), r);
    (w.(relationships := added.0.relationships), added.1)
  }

  /** Every location of `w` refers back to `w`. */
  predicate OwnsItsLocations(w: World) {
    forall i :: 0 <= i < |w.locations| ==> w.locations[i].world == Some(w.id)
  }

  /** A new world owns its (no) locations, and every world operation keeps
      each location's back-reference pointing at the world holding it. */
  lemma BackReferencesHold(w: World, l: Location, c: Character, r: Campaign.Relationship, id: nat, name: string, description: string)
    ensures OwnsItsLocations(NewWorld(id, name, description))
    ensures OwnsItsLocations(w) ==> OwnsItsLocations(AddLocation(w, l))
    ensures OwnsItsLocations(w) ==> OwnsItsLocations(AddCharacter(w, c))
    ensures OwnsItsLocations(w) ==> OwnsItsLocations(AddRelationship(w, r).0)
  {
    if OwnsItsLocations(w) {
      var w' := AddLocation(w, l);
      forall i | 0 <= i < |w'.locations|
        ensures w'.locations[i].world == Some(w'.id)
      {
        if i < |w.locations| {
          assert w'.locations[i] == w.locations[i];
        }
      }
    }
  }
}
