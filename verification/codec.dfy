/** The JSON encoders and the tolerant decoders of `campaign.py`, at the level
    of parsed JSON values.

    Every `*Encoder.default` returns `o.__dict__`, so an entity is encoded as
    the object of its attributes, nested entities recursively, lists as
    arrays, tuples as arrays and `Size` as its integer value. Identity is not
    an attribute and is not encoded.

    Every `*Decoder.decode(o)` first runs `json.loads(o)`; the text parser is
    the parameter `parse` (rendering and parsing JSON text are not modelled).
    A decoder then copies its required keys, raising on a missing one, and
    stores whatever value the document holds: Python does not check types,
    so the decoded attributes are `Json` values. Optional attributes fall back
    on any failure. A nested collection is read with
    `json.loads(dct[key], cls=<entity decoder>)`, which accepts only TEXT and
    decodes it as ONE entity; an array, which is what the encoders write,
    always falls back to `[]`. */
module Codec {
  import opened Wrappers
  import opened JsonValue
  import opened Campaign

  // ---------------------------------------------------------------------
  // Encoding

  function TraitMapJson(m: Traits): (j: Json)
    ensures j.JObj? && j.fields.Keys == m.Keys
  {
    JObj(map k | k in m :: JStr(m[k]))
  }

  /** A `(quality, description)` tuple is written as a two-element array. */
  function TraitPairsJson(ps: seq<(string, string)>): (j: Json)
    ensures j.JArr? && |j.items| == |ps|
  {
    JArr(seq(|ps|, i requires 0 <= i < |ps| => JArr([JStr(ps[i].0), JStr(ps[i].1)])))
  }

  /** `ItemEncoder`: name, description, traits and the size ordinal. */
  function ItemJson(it: Item): (j: Json)
    ensures j.JObj? && j.fields.Keys == {"name", "description", "traits", "size"}
    ensures j.fields["size"] == JNum(Ordinal(it.size))
  {
    JObj(map[
      "name" := JStr(it.name),
      "description" := JStr(it.description),
      "traits" := TraitMapJson(it.traits),
      "size" := JNum(Ordinal(it.size))])
  }

  function ItemsJson(items: seq<Item>): (j: Json)
    ensures j.JArr? && |j.items| == |items|
  {
    JArr(seq(|items|, i requires 0 <= i < |items| => ItemJson(items[i])))
  }

  /** `CharacterEncoder`: the inventory is an array. */
  function CharacterJson(c: Character): (j: Json)
    ensures j.JObj? && j.fields.Keys == {"name", "description", "traits", "inventory"}
    ensures j.fields["inventory"].JArr?
  {
    JObj(map[
      "name" := JStr(c.name),
      "description" := JStr(c.description),
      "traits" := TraitMapJson(c.traits),
      "inventory" := ItemsJson(c.inventory)])
  }

  /** `LocationEncoder`: traits are an array of pairs, the inventory an
      array. */
  function LocationJson(l: Location): (j: Json)
    ensures j.JObj? && j.fields.Keys == {"name", "description", "traits", "inventory"}
    ensures j.fields["inventory"].JArr?
  {
    JObj(map[
      "name" := JStr(l.name),
      "description" := JStr(l.description),
      "traits" := TraitPairsJson(l.traits),
      "inventory" := ItemsJson(l.inventory)])
  }

  /** `RelationshipEncoder`: both characters are encoded in full. */
  function RelationshipJson(r: Relationship): (j: Json)
    ensures j.JObj? && j.fields.Keys == {"characterA", "characterB", "relateAB", "relateBA"}
  {
    JObj(map[
      "characterA" := CharacterJson(r.characterA),
      "characterB" := CharacterJson(r.characterB),
      "relateAB" := JStr(r.relateAB),
      "relateBA" := JStr(r.relateBA)])
  }

  /** `WorldEncoder`: the three collections are arrays. */
  function WorldJson(w: World): (j: Json)
    ensures j.JObj? && j.fields.Keys == {"name", "description", "characters", "relationships", "locations"}
    ensures j.fields["characters"].JArr? && j.fields["relationships"].JArr? && j.fields["locations"].JArr?
  {
    JObj(map[
      "name" := JStr(w.name),
      "description" := JStr(w.description),
      "characters" := JArr(seq(|w.characters|, i requires 0 <= i < |w.characters| => CharacterJson(w.characters[i]))),
      "relationships" := JArr(seq(|w.relationships|, i requires 0 <= i < |w.relationships| => RelationshipJson(w.relationships[i]))),
      "locations" := JArr(seq(|w.locations|, i requires 0 <= i < |w.locations| => LocationJson(w.locations[i])))])
  }

  // ---------------------------------------------------------------------
  // Decoded objects

  /** `json.loads(text)`: the parsed value, or `None` for invalid JSON. */
  type Parser = string -> Option<Json>

  datatype DecodeError =
    | InvalidJson          // json.loads raised
    | NotAnObject          // dct[key] on a value that is not a dict
    | MissingKey(key: string)

  /** What a nested `json.loads(dct[key], cls=...)` leaves in the attribute:
      the fallback `[]`, or the single entity the text decoded to. */
  datatype Nested<T> = EmptyList | Lone(value: T)

  datatype DecodedItem = DecodedItem(name: Json, description: Json, traits: Json, size: Json)

  datatype DecodedCharacter = DecodedCharacter(name: Json, description: Json, traits: Json, inventory: Nested<DecodedItem>)

  datatype DecodedLocation = DecodedLocation(name: Json, description: Json, traits: Json, inventory: Nested<DecodedItem>)

  datatype DecodedRelationship = DecodedRelationship(characterA: Json, characterB: Json, relateAB: Json, relateBA: Json)

  datatype DecodedWorld = DecodedWorld(
    name: Json,
    description: Json,
    characters: Nested<DecodedCharacter>,
    relationships: Nested<DecodedRelationship>,
    locations: Nested<DecodedLocation>)

  /** `dct[key]` for a required key. */
  function Require(j: Json, key: string): (r: Result<Json, DecodeError>)
    ensures r.Success? <==> j.JObj? && key in j.fields
    ensures r.Success? ==> r.value == j.fields[key]
    ensures !j.JObj? ==> r == Failure(NotAnObject)
  {
    if !j.JObj? then Failure(NotAnObject)
    else if key in j.fields then Success(j.fields[key])
    else Failure(MissingKey(key))
  }

  /** `try: x = dct[key] except: x = fallback`. */
  function Optional(j: Json, key: string, fallback: Json): (r: Json)
    requires j.JObj?
    ensures key !in j.fields ==> r == fallback
    ensures key in j.fields ==> r == j.fields[key]
  {
    if key in j.fields then j.fields[key] else fallback
  }

  /** `<Decoder>().decode(o)`: parse the text, then build from the value. */
  function DecodeText<T>(parse: Parser, o: string, fromValue: Json -> Result<T, DecodeError>): (r: Result<T, DecodeError>)
    ensures parse(o).None? ==> r == Failure(InvalidJson)
    ensures parse(o).Some? ==> r == fromValue(parse(o).value)
  {
    match parse(o)
    case None => Failure(InvalidJson)
    case Some(j) => fromValue(j)
  }

  /** `try: x = json.loads(dct[key], cls=<decoder>) except: x = []`. A
      missing key, a value that is not text, text that is not JSON and a
      failing entity decode all give `[]`. */
  function LoadsNested<T>(parse: Parser, j: Json, key: string, fromValue: Json -> Result<T, DecodeError>): (r: Nested<T>)
    requires j.JObj?
    ensures key !in j.fields || !j.fields[key].JStr? ==> r == EmptyList
    ensures r.Lone? <==>
      (key in j.fields && j.fields[key].JStr? && DecodeText(parse, j.fields[key].s, fromValue).Success?)
    ensures r.Lone? ==> DecodeText(parse, j.fields[key].s, fromValue) == Success(r.value)
  {
    if key in j.fields && j.fields[key].JStr? then
      match DecodeText(parse, j.fields[key].s, fromValue)
      case Success(x) => Lone(x)
      case Failure(_) => EmptyList
    else EmptyList
  }

  // ---------------------------------------------------------------------
  // Decoders

  /** `ItemDecoder`: requires name and description; traits default to `[]`
      and size to MEDIUM, whose integer value is 2. */
  function DecodeItem(j: Json): (r: Result<DecodedItem, DecodeError>)
    ensures r.Success? <==> j.JObj? && "name" in j.fields && "description" in j.fields
    ensures j.JObj? && "name" !in j.fields ==> r == Failure(MissingKey("name"))
    ensures r.Success? ==> r.value.name == j.fields["name"] && r.value.description == j.fields["description"]
    ensures r.Success? && "traits" !in j.fields ==> r.value.traits == JArr([])
    ensures r.Success? && "traits" in j.fields ==> r.value.traits == j.fields["traits"]
    ensures r.Success? && "size" !in j.fields ==> r.value.size == JNum(Ordinal(Medium))
    ensures r.Success? && "size" in j.fields ==> r.value.size == j.fields["size"]
  {
    var name :- Require(j, "name");
    var description :- Require(j, "description");
    Success(DecodedItem(name, description, Optional(j, "traits", JArr([])), Optional(j, "size", JNum(Ordinal(Medium)))))
  }

  /** `CharacterDecoder`: requires only the name. The description is never
      read, so it keeps the constructor's empty string. */
  function DecodeCharacter(parse: Parser, j: Json): (r: Result<DecodedCharacter, DecodeError>)
    ensures r.Success? <==> j.JObj? && "name" in j.fields
    ensures r.Success? ==> r.value.name == j.fields["name"] && r.value.description == JStr("")
    ensures r.Success? && "traits" !in j.fields ==> r.value.traits == JArr([])
    ensures r.Success? && "traits" in j.fields ==> r.value.traits == j.fields["traits"]
    ensures r.Success? && ("inventory" !in j.fields || !j.fields["inventory"].JStr?) ==> r.value.inventory == EmptyList
    ensures r.Success? ==> r.value.inventory == LoadsNested(parse, j, "inventory", DecodeItem)
  {
    var name :- Require(j, "name");
    Success(DecodedCharacter(name, JStr(""), Optional(j, "traits", JArr([])), LoadsNested(parse, j, "inventory", DecodeItem)))
  }

  /** `LocationDecoder`: requires name and description. */
  function DecodeLocation(parse: Parser, j: Json): (r: Result<DecodedLocation, DecodeError>)
    ensures r.Success? <==> j.JObj? && "name" in j.fields && "description" in j.fields
    ensures r.Success? ==> r.value.name == j.fields["name"] && r.value.description == j.fields["description"]
    ensures r.Success? && "traits" !in j.fields ==> r.value.traits == JArr([])
    ensures r.Success? && "traits" in j.fields ==> r.value.traits == j.fields["traits"]
    ensures r.Success? && ("inventory" !in j.fields || !j.fields["inventory"].JStr?) ==> r.value.inventory == EmptyList
    ensures r.Success? ==> r.value.inventory == LoadsNested(parse, j, "inventory", DecodeItem)
  {
    var name :- Require(j, "name");
    var description :- Require(j, "description");
    Success(DecodedLocation(name, description, Optional(j, "traits", JArr([])), LoadsNested(parse, j, "inventory", DecodeItem)))
  }

  /** `RelationshipDecoder`: no fallback, all four keys are required. */
  function DecodeRelationship(j: Json): (r: Result<DecodedRelationship, DecodeError>)
    ensures r.Success? <==> j.JObj? && {"characterA", "characterB", "relateAB", "relateBA"} <= j.fields.Keys
    ensures r.Success? ==> r.value == DecodedRelationship(j.fields["characterA"], j.fields["characterB"],
                                                          j.fields["relateAB"], j.fields["relateBA"])
  {
    var a :- Require(j, "characterA");
    var b :- Require(j, "characterB");
    var ab :- Require(j, "relateAB");
    var ba :- Require(j, "relateBA");
    Success(DecodedRelationship(a, b, ab, ba))
  }

  /** `WorldDecoder`: requires name and description; each collection is read
      as nested text and falls back to `[]`. */
  function DecodeWorld(parse: Parser, j: Json): (r: Result<DecodedWorld, DecodeError>)
    ensures r.Success? <==> j.JObj? && "name" in j.fields && "description" in j.fields
    ensures r.Success? ==> r.value.name == j.fields["name"] && r.value.description == j.fields["description"]
    ensures r.Success? && ("characters" !in j.fields || !j.fields["characters"].JStr?) ==> r.value.characters == EmptyList
    ensures r.Success? && ("relationships" !in j.fields || !j.fields["relationships"].JStr?) ==> r.value.relationships == EmptyList
    ensures r.Success? && ("locations" !in j.fields || !j.fields["locations"].JStr?) ==> r.value.locations == EmptyList
    ensures r.Success? ==>
      && r.value.characters == LoadsNested(parse, j, "characters", (v: Json) => DecodeCharacter(parse, v))
      && r.value.relationships == LoadsNested(parse, j, "relationships", DecodeRelationship)
      && r.value.locations == LoadsNested(parse, j, "locations", (v: Json) => DecodeLocation(parse, v))
  {
    var name :- Require(j, "name");
    var description :- Require(j, "description");
    Success(DecodedWorld(
      name,
      description,
      LoadsNested(parse, j, "characters", (v: Json) => DecodeCharacter(parse, v)),
      LoadsNested(parse, j, "relationships", DecodeRelationship),
      LoadsNested(parse, j, "locations", (v: Json) => DecodeLocation(parse, v))))
  }

  // ---------------------------------------------------------------------
  // Reading decoded values back as entities

  function TraitMapView(j: Json): (r: Option<Traits>)
    ensures r.Some? ==> j.JObj? && r.value.Keys == j.fields.Keys
  {
    if j.JObj? && forall k :: k in j.fields ==> j.fields[k].JStr? then
      Some(map k | k in j.fields :: j.fields[k].s)
    else None
  }

  predicate IsStringPair(j: Json) {
    j.JArr? && |j.items| == 2 && j.items[0].JStr? && j.items[1].JStr?
  }

  function TraitPairsView(j: Json): (r: Option<seq<(string, string)>>)
    ensures r.Some? ==> j.JArr? && |r.value| == |j.items|
  {
    if j.JArr? && forall i :: 0 <= i < |j.items| ==> IsStringPair(j.items[i]) then
      Some(seq(|j.items|, i requires 0 <= i < |j.items| && IsStringPair(j.items[i]) => (j.items[i].items[0].s, j.items[i].items[1].s)))
    else None
  }

  /** The `Item` a decoded item denotes, when every attribute has the type
      the class expects. */
  function ItemView(d: DecodedItem): Option<Item> {
    if d.name.JStr? && d.description.JStr? && TraitMapView(d.traits).Some? && d.size.JNum? && SizeOf(d.size.n).Some? then
      Some(Item(d.name.s, d.description.s, TraitMapView(d.traits).value, SizeOf(d.size.n).value))
    else None
  }

  // ---------------------------------------------------------------------
  // What survives encoding then decoding

  lemma TraitMapRoundTrip(m: Traits)
    ensures TraitMapView(TraitMapJson(m)) == Some(m)
  {
    var j := TraitMapJson(m);
    assert forall k :: k in j.fields ==> j.fields[k].JStr?;
    assert (map k | k in j.fields :: j.fields[k].s) == m;
  }

  lemma TraitPairsRoundTrip(ps: seq<(string, string)>)
    ensures TraitPairsView(TraitPairsJson(ps)) == Some(ps)
  {
    var j := TraitPairsJson(ps);
    assert forall i :: 0 <= i < |j.items| ==> IsStringPair(j.items[i]);
    assert TraitPairsView(j).value == ps;
  }

  /** `Item` is the one entity that round-trips: decoding the encoder's
      document restores name, description, traits and size. */
  lemma ItemRoundTrip(parse: Parser, o: string, it: Item)
    requires parse(o) == Some(ItemJson(it))
    ensures DecodeText(parse, o, DecodeItem).Success?
    ensures ItemView(DecodeText(parse, o, DecodeItem).value) == Some(it)
  {
    TraitMapRoundTrip(it.traits);
    SizeOrdinalRoundTrip(it.size);
  }

  /** A decoded character keeps name and traits, but its description is
      empty and its inventory is `[]`. */
  lemma CharacterDecodeLoses(parse: Parser, c: Character)
    ensures DecodeCharacter(parse, CharacterJson(c)).Success?
    ensures var d := DecodeCharacter(parse, CharacterJson(c)).value;
      d.name == JStr(c.name) && TraitMapView(d.traits) == Some(c.traits)
      && d.description == JStr("") && d.inventory == EmptyList
  {
    TraitMapRoundTrip(c.traits);
  }

  /** A decoded location keeps name, description and traits; its inventory
      is `[]`. */
  lemma LocationDecodeLoses(parse: Parser, l: Location)
    ensures DecodeLocation(parse, LocationJson(l)).Success?
    ensures var d := DecodeLocation(parse, LocationJson(l)).value;
      d.name == JStr(l.name) && d.description == JStr(l.description)
      && TraitPairsView(d.traits) == Some(l.traits) && d.inventory == EmptyList
  {
    TraitPairsRoundTrip(l.traits);
  }

  /** A decoded relationship keeps both descriptions; its characters stay
      plain documents. */
  lemma RelationshipDecodeKeeps(r: Relationship)
    ensures DecodeRelationship(RelationshipJson(r))
         == Success(DecodedRelationship(CharacterJson(r.characterA), CharacterJson(r.characterB),
                                        JStr(r.relateAB), JStr(r.relateBA)))
  {
  }

  /** A decoded world keeps name and description and loses every
      collection. */
  lemma WorldDecodeLoses(parse: Parser, w: World)
    ensures DecodeWorld(parse, WorldJson(w))
         == Success(DecodedWorld(JStr(w.name), JStr(w.description), EmptyList, EmptyList, EmptyList))
  {
  }

  /** When a collection attribute does hold text, the result is the single
      entity that text decodes to, not a list. */
  lemma NestedTextIsOneEntity(parse: Parser, j: Json, text: string, it: Item)
    requires j.JObj? && "name" in j.fields && "inventory" in j.fields
    requires j.fields["inventory"] == JStr(text) && parse(text) == Some(ItemJson(it))
    ensures DecodeCharacter(parse, j).Success?
    ensures DecodeCharacter(parse, j).value.inventory.Lone?
    ensures ItemView(DecodeCharacter(parse, j).value.inventory.value) == Some(it)
  {
    TraitMapRoundTrip(it.traits);
    SizeOrdinalRoundTrip(it.size);
  }
}
