/** The entity model of `campaign.py`: sizes, items, characters, locations,
    relationships and the world that owns them.

    Python compares these objects by identity, since no class defines
    `__eq__`. Characters and relationships therefore carry an explicit `id`,
    and "the same object" means "the same id". Every mutating method becomes
    a function returning the updated value. The `assert type(x) == ...`
    guards hold by typing. */
module Campaign {
  import opened Wrappers

  // ---------------------------------------------------------------------
  // Size

  /** `Size(enum.IntEnum)`, TINY = 0 through GARGANTUAN = 5. */
  datatype Size = Tiny | Small | Medium | Large | Huge | Gargantuan

  function Ordinal(s: Size): (n: nat)
    ensures n <= 5
  {
    match s
    case Tiny => 0
    case Small => 1
    case Medium => 2
    case Large => 3
    case Huge => 4
    case Gargantuan => 5
  }

  /** `Size(n)`: the member with ordinal `n`, if there is one. */
  function SizeOf(n: int): (r: Option<Size>)
    ensures r.Some? <==> 0 <= n <= 5
    ensures r.Some? ==> Ordinal(r.value) == n
  {
    if n == 0 then Some(Tiny)
    else if n == 1 then Some(Small)
    else if n == 2 then Some(Medium)
    else if n == 3 then Some(Large)
    else if n == 4 then Some(Huge)
    else if n == 5 then Some(Gargantuan)
    else None
  }

  /** Ordinals identify sizes: the enumeration round-trips through its
      integer value. */
  lemma SizeOrdinalRoundTrip(s: Size)
    ensures SizeOf(Ordinal(s)) == Some(s)
  {
  }

  // ---------------------------------------------------------------------
  // Trait maps

  /** A `dict` from trait name to trait description. */
  type Traits = map<string, string>

  /** `traits[quality] = description`: an existing key is overwritten, so the
      key count grows only for a new key. */
  function PutTrait(m: Traits, quality: string, description: string): (r: Traits)
    ensures r.Keys == m.Keys + {quality}
    ensures r[quality] == description
    ensures forall k :: k in m && k != quality ==> r[k] == m[k]
    ensures quality in m ==> |r| == |m|
    ensures quality !in m ==> |r| == |m| + 1
  {
    m[quality := description]
  }

  // ---------------------------------------------------------------------
  // Item

  datatype Item = Item(name: string, description: string, traits: Traits, size: Size)

  /** `Item(name)`. */
  function NewItem(name: string): (it: Item)
    ensures it.name == name && it.description == "" && it.traits == map[]
    ensures it.size == Medium && Ordinal(it.size) == 2
  {
    Item(name, "", map[], Medium)
  }

  /** `Item.add_trait`. */
  function ItemAddTrait(it: Item, quality: string, description: string): (r: Item)
    ensures r.traits.Keys == it.traits.Keys + {quality} && r.traits[quality] == description
    ensures forall k :: k in it.traits && k != quality ==> r.traits[k] == it.traits[k]
    ensures |r.traits| <= |it.traits| + 1
    ensures quality in it.traits ==> |r.traits| == |it.traits|
    ensures r.(traits := it.traits) == it
  {
    it.(traits := PutTrait(it.traits, quality, description))
  }

  // ---------------------------------------------------------------------
  // Character

  datatype Character = Character(id: nat, name: string, description: string, traits: Traits, inventory: seq<Item>)

  /** `Character(name)`; `id` stands for the identity of the new object. */
  function NewCharacter(id: nat, name: string): (c: Character)
    ensures c.id == id && c.name == name
    ensures c.description == "" && c.traits == map[] && c.inventory == []
  {
    Character(id, name, "", map[], [])
  }

  /** `Character.add_trait`. */
  function CharacterAddTrait(c: Character, quality: string, description: string): (r: Character)
    ensures r.traits.Keys == c.traits.Keys + {quality} && r.traits[quality] == description
    ensures forall k :: k in c.traits && k != quality ==> r.traits[k] == c.traits[k]
    ensures |r.traits| <= |c.traits| + 1
    ensures quality in c.traits ==> |r.traits| == |c.traits|
    ensures r.(traits := c.traits) == c
  {
    c.(traits := PutTrait(c.traits, quality, description))
  }

  /** `Character.add_item`: one item at the end of the inventory. */
  function CharacterAddItem(c: Character, item: Item): (r: Character)
    ensures |r.inventory| == |c.inventory| + 1
    ensures r.inventory[..|c.inventory|] == c.inventory && r.inventory[|c.inventory|] == item
    ensures r.(inventory := c.inventory) == c
  {
    c.(inventory := c.inventory + [item])
  }

  // ---------------------------------------------------------------------
  // Location

  /** Location traits are a list of `(quality, description)` tuples, not a
      map. */
  datatype Location = Location(name: string, description: string, traits: seq<(string, string)>, inventory: seq<Item>)

  /** `Location(name)`. */
  function NewLocation(name: string): (l: Location)
    ensures l.name == name && l.description == "" && l.traits == [] && l.inventory == []
  {
    Location(name, "", [], [])
  }

  /** `Location.add_trait`: appends a pair, so a repeated quality is kept
      alongside the earlier ones. */
  function LocationAddTrait(l: Location, quality: string, description: string): (r: Location)
    ensures |r.traits| == |l.traits| + 1
    ensures r.traits[..|l.traits|] == l.traits && r.traits[|l.traits|] == (quality, description)
    ensures r.(traits := l.traits) == l
  {
    l.(traits := l.traits + [(quality, description)])
  }

  /** `Location.add_item`. */
  function LocationAddItem(l: Location, item: Item): (r: Location)
    ensures |r.inventory| == |l.inventory| + 1
    ensures r.inventory[..|l.inventory|] == l.inventory && r.inventory[|l.inventory|] == item
    ensures r.(inventory := l.inventory) == l
  {
    l.(inventory := l.inventory + [item])
  }

  /** Re-adding a trait is idempotent on a character and on an item but not
      on a location, which keeps both pairs. */
  lemma TraitStorageAsymmetry(c: Character, it: Item, l: Location, quality: string, description: string)
    ensures CharacterAddTrait(CharacterAddTrait(c, quality, description), quality, description)
         == CharacterAddTrait(c, quality, description)
    ensures ItemAddTrait(ItemAddTrait(it, quality, description), quality, description)
         == ItemAddTrait(it, quality, description)
    ensures |LocationAddTrait(LocationAddTrait(l, quality, description), quality, description).traits|
         == |l.traits| + 2
  {
  }

  // ---------------------------------------------------------------------
  // Relationship

  datatype Relationship = Relationship(id: nat, characterA: Character, characterB: Character, relateAB: string, relateBA: string)

  /** `r` joins `a` and `b` in either orientation, characters being compared
      by identity. */
  predicate Connects(r: Relationship, a: Character, b: Character) {
    (r.characterA.id == a.id && r.characterB.id == b.id) || (r.characterA.id == b.id && r.characterB.id == a.id)
  }

  /** `Relationship(characterA, characterB)`. */
  function NewRelationship(id: nat, a: Character, b: Character): (r: Relationship)
    ensures r.id == id && r.characterA == a && r.characterB == b
    ensures r.relateAB == "" && r.relateBA == ""
  {
    Relationship(id, a, b, "", "")
  }

  /** `set_reciprocal_relationship`: one description for both directions. */
  function SetReciprocal(r: Relationship, description: string): (r': Relationship)
    ensures r'.relateAB == description && r'.relateBA == description
    ensures r'.(relateAB := r.relateAB, relateBA := r.relateBA) == r
  {
    r.(relateAB := description, relateBA := description)
  }

  /** `set_bidirectional_relationship`: the two directions independently. */
  function SetBidirectional(r: Relationship, relateAB: string, relateBA: string): (r': Relationship)
    ensures r'.relateAB == relateAB && r'.relateBA == relateBA
    ensures r'.(relateAB := r.relateAB, relateBA := r.relateBA) == r
  {
    r.(relateAB := relateAB, relateBA := relateBA)
  }

  /** `flip()`: a NEW relationship object (identity `id`) with the characters
      and the two descriptions swapped; it connects the same two characters. */
  function Flip(r: Relationship, id: nat): (f: Relationship)
    ensures f.id == id
    ensures f.characterA == r.characterB && f.characterB == r.characterA
    ensures f.relateAB == r.relateBA && f.relateBA == r.relateAB
    ensures forall a, b :: Connects(f, a, b) <==> Connects(r, a, b)
  {
    Relationship(id, r.characterB, r.characterA, r.relateBA, r.relateAB)
  }

  /** Flipping twice restores every field; only identity is new. */
  lemma FlipInvolution(r: Relationship, i: nat, j: nat)
    ensures Flip(Flip(r, i), j) == r.(id := j)
    ensures Flip(Flip(r, i), r.id) == r
  {
  }

  /** A reciprocal relationship reads the same after flipping; flipping a
      bidirectional one swaps the two descriptions. */
  lemma FlipDescriptions(r: Relationship, s: string, x: string, y: string, id: nat)
    ensures SetReciprocal(r, s) == SetBidirectional(r, s, s)
    ensures Flip(SetReciprocal(r, s), id).relateAB == s && Flip(SetReciprocal(r, s), id).relateBA == s
    ensures Flip(SetBidirectional(r, x, y), id) == SetBidirectional(Flip(r, id), y, x)
  {
  }

  // ---------------------------------------------------------------------
  // World

  datatype World = World(
    name: string,
    description: string,
    characters: seq<Character>,
    relationships: seq<Relationship>,
    locations: seq<Location>)

  /** `World(name, description)`. */
  function NewWorld(name: string, description: string): (w: World)
    ensures w.name == name && w.description == description
    ensures w.characters == [] && w.relationships == [] && w.locations == []
  {
    World(name, description, [], [], [])
  }

  /** `add_character`: exactly one character at the end, nothing else
      changes. */
  function AddCharacter(w: World, c: Character): (r: World)
    ensures |r.characters| == |w.characters| + 1
    ensures r.characters[..|w.characters|] == w.characters && r.characters[|w.characters|] == c
    ensures r.(characters := w.characters) == w
  {
    w.(characters := w.characters + [c])
  }

  /** `add_location`: exactly one location at the end, nothing else changes. */
  function AddLocation(w: World, l: Location): (r: World)
    ensures |r.locations| == |w.locations| + 1
    ensures r.locations[..|w.locations|] == w.locations && r.locations[|w.locations|] == l
    ensures r.(locations := w.locations) == w
  {
    w.(locations := w.locations + [l])
  }

  /** Some relationship in `rs` has identity `id`. */
  predicate IdInUse(rs: seq<Relationship>, id: nat) {
    exists i :: 0 <= i < |rs| && rs[i].id == id
  }

  /** Python's `r in relationships`: some element is the same object. */
  predicate Holds(rs: seq<Relationship>, r: Relationship) {
    IdInUse(rs, r.id)
  }

  function MaxId(rs: seq<Relationship>): (m: nat)
    ensures forall i :: 0 <= i < |rs| ==> rs[i].id <= m
  {
    if rs == [] then 0
    else
      var m := MaxId(rs[1..]);
      if rs[0].id > m then rs[0].id else m
  }

  /** The identity of an object allocated now: it is above the identity of
      `r` and of every relationship in `rs`, so it differs from all of them. */
  function FreshId(rs: seq<Relationship>, r: Relationship): (id: nat)
    ensures r.id < id
    ensures forall i :: 0 <= i < |rs| ==> rs[i].id < id
    ensures id != r.id
    ensures forall i :: 0 <= i < |rs| ==> rs[i].id != id
  {
    1 + (if r.id > MaxId(rs) then r.id else MaxId(rs))
  }

  /** `add_relationship`. The mirror test `relationship.flip() in
      self.relationships` looks for a freshly allocated object, which is never
      in the list, so the outcome depends on the identity of `r` alone. */
  function AddRelationship(w: World, r: Relationship): (res: (World, bool))
    ensures res.1 <==> !Holds(w.relationships, r)
    ensures res.1 ==> res.0 == w.(relationships := w.relationships + [r])
    ensures !res.1 ==> res.0 == w
  {
    var mirror := Flip(r, FreshId(w.relationships, r));
    if !Holds(w.relationships, r) && !Holds(w.relationships, mirror) then
      (w.(relationships := w.relationships + [r]), true)
    else
      (w, false)
  }

  /** De-duplication is by identity only: the flip of a stored relationship
      is accepted, leaving two mirror-equivalent relationships. */
  lemma MirrorIsAccepted(w: World, i: nat, id: nat)
    requires i < |w.relationships|
    requires !IdInUse(w.relationships, id)
    ensures AddRelationship(w, Flip(w.relationships[i], id)).1
    ensures var rs := AddRelationship(w, Flip(w.relationships[i], id)).0.relationships;
      Connects(rs[i], rs[|rs| - 1].characterA, rs[|rs| - 1].characterB)
  {
  }

  /** Index of the first relationship connecting `a` and `b`, or `|rs|`. */
  function FirstConnecting(rs: seq<Relationship>, a: Character, b: Character): (k: nat)
    ensures k <= |rs|
    ensures k < |rs| ==> Connects(rs[k], a, b)
    ensures forall j :: 0 <= j < k ==> !Connects(rs[j], a, b)
  {
    if rs == [] then 0
    else if Connects(rs[0], a, b) then 0
    else 1 + FirstConnecting(rs[1..], a, b)
  }

  /** `get_relationship_between(a, b)`: the first relationship, in list order,
      that joins `a` and `b` in either orientation; `None` when none does. */
  function GetRelationshipBetween(w: World, a: Character, b: Character): (r: Option<Relationship>)
    ensures r.None? <==> forall i :: 0 <= i < |w.relationships| ==> !Connects(w.relationships[i], a, b)
    ensures r.Some? ==>
      exists i :: (0 <= i < |w.relationships| && w.relationships[i] == r.value
                   && Connects(w.relationships[i], a, b)
                   && forall j :: 0 <= j < i ==> !Connects(w.relationships[j], a, b))
  {
    var k := FirstConnecting(w.relationships, a, b);
    if k < |w.relationships| then Some(w.relationships[k]) else None
  }

  /** The lookup does not care which character is passed first. */
  lemma {:induction false} FirstConnectingSymmetric(rs: seq<Relationship>, a: Character, b: Character)
    ensures FirstConnecting(rs, a, b) == FirstConnecting(rs, b, a)
  {
    if rs != [] {
      FirstConnectingSymmetric(rs[1..], a, b);
    }
  }

  lemma GetRelationshipBetweenSymmetric(w: World, a: Character, b: Character)
    ensures GetRelationshipBetween(w, a, b) == GetRelationshipBetween(w, b, a)
  {
    FirstConnectingSymmetric(w.relationships, a, b);
  }

  /** Adding the very same relationship object twice stores it once. */
  lemma AddRelationshipTwice(w: World, r: Relationship)
    ensures var once := AddRelationship(w, r).0;
      AddRelationship(once, r) == (once, false)
  {
    var once := AddRelationship(w, r).0;
    if AddRelationship(w, r).1 {
      assert once.relationships[|w.relationships|] == r;
    }
  }

  /** A relationship just added is found between its two characters, in
      either order, when no earlier one joins them. */
  lemma AddedRelationshipIsFound(w: World, r: Relationship)
    requires !Holds(w.relationships, r)
    requires GetRelationshipBetween(w, r.characterA, r.characterB).None?
    ensures GetRelationshipBetween(AddRelationship(w, r).0, r.characterA, r.characterB) == Some(r)
    ensures GetRelationshipBetween(AddRelationship(w, r).0, r.characterB, r.characterA) == Some(r)
  {
    var w' := AddRelationship(w, r).0;
    assert w'.relationships[|w.relationships|] == r;
    assert FirstConnecting(w'.relationships, r.characterA, r.characterB) == |w.relationships|;
    GetRelationshipBetweenSymmetric(w', r.characterA, r.characterB);
  }

  // ---------------------------------------------------------------------
  // Invariants the builders keep

  /** No relationship joins a character with itself. */
  predicate NoSelfRelationship(rs: seq<Relationship>) {
    forall i :: 0 <= i < |rs| ==> rs[i].characterA.id != rs[i].characterB.id
  }

  /** No two relationships join the same two characters, in either
      orientation. */
  predicate NoMirrorPair(rs: seq<Relationship>) {
    forall i, j :: 0 <= i < j < |rs| ==> !Connects(rs[i], rs[j].characterA, rs[j].characterB)
  }

  /** Appending a relationship between two distinct characters that no
      stored relationship connects keeps both list invariants. */
  lemma AppendKeepsDistinctPairs(rs: seq<Relationship>, r: Relationship)
    requires NoSelfRelationship(rs) && NoMirrorPair(rs)
    requires r.characterA.id != r.characterB.id
    requires forall i :: 0 <= i < |rs| ==> !Connects(rs[i], r.characterA, r.characterB)
    ensures NoSelfRelationship(rs + [r]) && NoMirrorPair(rs + [r])
  {
    var rs' := rs + [r];
    forall i, j | 0 <= i < j < |rs'|
      ensures !Connects(rs'[i], rs'[j].characterA, rs'[j].characterB)
    {
      assert rs'[i] == rs[i];
      if j < |rs| {
        assert rs'[j] == rs[j];
      }
    }
  }
}
