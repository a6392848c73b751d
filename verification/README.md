# Electric Referee campaign builder, modelled in Dafny

Electric Referee builds tabletop-campaign worlds by asking a chat-completion
API for `name|description` replies. The project models four parts of it:

- the entity model of `campaign.py`: worlds, locations, characters,
  relationships, items and sizes. It also covers the JSON encoders and the
  tolerant decoders.
- the text helpers of `campaign_generators.py`, and the `main.py` copies of
  them, which are identical.
- the three builders:
  - the `generate_*` functions and `generate_world` of
    `campaign_generators.py`, with retries;
  - the retry-free `generate_world` of `main.py`;
  - the older entity model of `campaign_classes.py`.
- the count checks, reply parsing and relationship pair loop that the two
  `generate_world` functions share.

The model uses these conventions:

- **API and random numbers.** The API is an oracle `Api = nat -> Reply`:
  the k-th request of a run gets reply `k`. Random numbers are an oracle
  `Draws = nat -> bool`, where entry k says whether the k-th
  `random.random() < p` test passes.
- **Identity.** Python object identity becomes an explicit `id`. A builder
  gives each character and relationship the index of the reply that made
  it. This is what `==` and `in` on entities compare.
- **Exceptions.** Exceptions that end a build are values of `Replies.Error`
  inside a `Result`.
- **Shared classes.** `campaign_classes.py` repeats most of `campaign.py`.
  `Legacy` therefore models only what differs: the location back-reference
  to its world, and a character without a description. It reuses
  `Campaign` for everything else.

Modules:

| file | module | models |
|---|---|---|
| `wrappers.dfy` | `Wrappers` | `Option` and `Result` |
| `json_value.dfy` | `JsonValue` | the value `json.loads` returns |
| `text.dfy` | `Text` | `remove_*`, `make_printable`, `str.split`/`join` on one character |
| `campaign.dfy` | `Campaign` | the entity classes of `campaign.py` |
| `codec.dfy` | `Codec` | the `*Encoder` and `*Decoder` classes of `campaign.py` |
| `replies.dfy` | `Replies` | count checks, reply parsing, the retry loop, the pair loop |
| `generators.dfy` | `Generators` | the generators and `generate_world` of `campaign_generators.py` |
| `script.dfy` | `Script` | `generate_world` of `main.py` |
| `legacy.dfy` | `Legacy` | the entity classes of `campaign_classes.py` |

What the code does, where it differs from what its comments and docstrings
suggest (the model follows the code):

- **Missing methods.** `generate_location` calls
  `world.locations_as_system_msg()`, which does not exist. The
  `AttributeError` escapes the `except ValueError` retry, so in
  `campaign_generators.py` any `numLocations > 0` ends the build.
- Both relationship generators call `characterA.as_system_msg()`, which
  `Character` lacks. A relationship request therefore never happens: the
  first successful draw ends the build. As a result, that builder never
  adds a relationship.
- The item loop calls `random.choice` on the locations, which are always
  empty by then, and then `world.world_basics()`, which does not exist. So
  `numItems > 0` ends the build.
- **Retry fallback.** The test `x in locals()` asks whether an object is a
  key of the locals dictionary, and it never is. So when three attempts all
  raise `ValueError`, the loop adds the value from the previous iteration
  again. If there was none, it raises `UnboundLocalError`.
- **Count checks.** Both builders check `numLocations` twice and never
  check `numCharacters`. A negative character count means no iterations.
- **Reply errors.** In `main.py` a reply without `|` raises `IndexError`
  instead of `ValueError`. Nothing is retried.
- **Cleanup.** `remove_double_newlines` says it removes all newline
  characters, but it only deletes ` \n\n` and then `\n\n`: a lone `\n`
  survives, and so does the third `\n` of `\n\n\n`.
- `make_printable` says it removes all non-printable characters, but the
  only character class it removes is non-ASCII. ASCII control characters
  such as `\t` and `\x07` survive between the first non-whitespace
  character and the last '.'.
- **Decoders.** The encoders write nested collections as arrays. The
  decoders read a nested collection with `json.loads(text, cls=...)`, which
  needs text. So the nested entity collections of a decoded world,
  character or location (inventory, characters, relationships, locations)
  are always empty, and a character always loses its description.

## Model

| member | source | states |
|---|---|---|
| Campaign.Ordinal | campaign.py:9-16 | a size's value is one of 0..5 |
| Campaign.SizeOf | campaign.py:9-16 | `Size(n)` exists exactly for 0 <= n <= 5, and its value is n |
| Campaign.SizeOrdinalRoundTrip | campaign.py:9-16 | converting a size to its integer and back gives the same size |
| Campaign.PutTrait | campaign.py:104-107 | `traits[quality] = description`: the key is added or overwritten, every other key is kept, and the count grows only for a new key |
| Campaign.NewItem | campaign.py:158-162 | a new item has the name, an empty description, no traits and size MEDIUM (2) |
| Campaign.ItemAddTrait | campaign.py:170-173 | `Item.add_trait` sets or overwrites one trait, keeps every other trait and its value, and changes nothing else |
| Campaign.NewCharacter | campaign.py:91-96 | a new character has the name, an empty description, no traits and an empty inventory |
| Campaign.CharacterAddTrait | campaign.py:104-107 | `Character.add_trait` sets or overwrites one trait, keeps the others and changes nothing else |
| Campaign.CharacterAddItem | campaign.py:109-111 | `Character.add_item` appends the item and changes nothing else |
| Campaign.NewLocation | campaign.py:61-65 | a new location has the name, an empty description, no traits and an empty inventory |
| Campaign.LocationAddTrait | campaign.py:73-76 | `Location.add_trait` appends one (quality, description) pair and changes nothing else |
| Campaign.LocationAddItem | campaign.py:78-80 | `Location.add_item` appends the item and changes nothing else |
| Campaign.TraitStorageAsymmetry | campaign.py:73-76 | adding the same trait twice is idempotent for characters and items (dictionaries) but grows a location's trait list by two (a list) |
| Campaign.NewRelationship | campaign.py:118-122 | a new relationship joins the two characters in order, with both descriptions empty |
| Campaign.SetReciprocal | campaign.py:130-133 | both directions get the same description and nothing else changes |
| Campaign.SetBidirectional | campaign.py:135-139 | each direction gets its own description and nothing else changes |
| Campaign.Flip | campaign.py:150-154 | `flip` makes a new relationship with the characters swapped and the descriptions swapped, connecting the same pair |
| Campaign.FlipInvolution | campaign.py:150-154 | flipping twice gives back the relationship, up to object identity |
| Campaign.FlipDescriptions | campaign.py:130-154 | a reciprocal relationship is a bidirectional one with equal halves and reads the same when flipped; flipping swaps the halves of a bidirectional one |
| Campaign.NewWorld | campaign.py:20-25 | a new world has the name and description and no characters, relationships or locations |
| Campaign.AddCharacter | campaign.py:33-35 | `add_character` appends the character and changes nothing else |
| Campaign.AddLocation | campaign.py:44-46 | `add_location` appends the location and changes nothing else |
| Campaign.FreshId | campaign.py:150-154 | the identity `flip` gives its new object is above that of the original and of every stored relationship, so it is not used by the original or by any stored relationship |
| Campaign.AddRelationship | campaign.py:37-42 | `add_relationship` appends and returns True exactly when this object is not already stored; otherwise the world is unchanged and it returns False |
| Campaign.MirrorIsAccepted | campaign.py:37-42 | the `flip() in relationships` test never fires, because `flip` makes a fresh object: a mirror of a stored relationship is accepted, so two relationships connect the same pair |
| Campaign.FirstConnecting | campaign.py:48-53 | the index of the first relationship connecting the pair in either orientation, or the length when there is none |
| Campaign.GetRelationshipBetween | campaign.py:48-53 | returns None exactly when no relationship connects the pair in either orientation; otherwise returns the first one that does |
| Campaign.FirstConnectingSymmetric | campaign.py:48-53 | the search result does not depend on the order of the two characters |
| Campaign.GetRelationshipBetweenSymmetric | campaign.py:48-53 | `get_relationship_between(a, b)` equals `get_relationship_between(b, a)` |
| Campaign.AddRelationshipTwice | campaign.py:37-42 | adding the same relationship object a second time changes nothing and returns False |
| Campaign.AddedRelationshipIsFound | campaign.py:37-53 | after a new relationship between unrelated characters is added, the lookup finds it in both orientations |
| Campaign.AppendKeepsDistinctPairs | campaign.py:37-53 | appending a relationship between two distinct, unconnected characters keeps the list free of self-pairs and of duplicate pairs |
| Codec.TraitMapJson | campaign.py:183-185 | a trait dictionary encodes as an object with the same keys |
| Codec.TraitPairsJson | campaign.py:179-181 | a location's trait list encodes as an array with one entry per trait |
| Codec.ItemJson | campaign.py:191-193 | an item encodes as an object with exactly its four attributes, and its size as the integer value |
| Codec.ItemsJson | campaign.py:191-193 | an inventory encodes as an array with one entry per item |
| Codec.CharacterJson | campaign.py:183-185 | a character encodes as an object with exactly its four attributes, and its inventory as an array |
| Codec.LocationJson | campaign.py:179-181 | a location encodes as an object with exactly its four attributes, and its inventory as an array |
| Codec.RelationshipJson | campaign.py:187-189 | a relationship encodes as an object with its two characters and two descriptions |
| Codec.WorldJson | campaign.py:175-177 | a world encodes as an object with its five attributes, the three collections as arrays |
| Codec.LoadsNested | campaign.py:199-202 | a nested `json.loads(dct[key], cls=...)` gives one decoded entity when the key holds text that decodes, and the fallback `[]` otherwise |
| Codec.DecodeItem | campaign.py:250-263 | `ItemDecoder` needs `name` and `description`, raises on a missing name first, copies `traits` and `size` when present, and defaults them to `[]` and MEDIUM otherwise |
| Codec.DecodeCharacter | campaign.py:228-240 | `CharacterDecoder` needs only `name`, always leaves the description empty, copies `traits` when present and defaults it to `[]`, and reads the inventory as one nested decode of its key |
| Codec.DecodeLocation | campaign.py:213-226 | `LocationDecoder` needs `name` and `description`, copies `traits` when present and defaults it to `[]`, and reads the inventory as one nested decode of its key |
| Codec.DecodeRelationship | campaign.py:242-248 | `RelationshipDecoder` needs all four keys and copies them |
| Codec.DecodeWorld | campaign.py:195-211 | `WorldDecoder` needs `name` and `description`; each collection is one nested decode of its key, so one that is not text falls back to `[]` |
| Codec.TraitMapView | campaign.py:256 | reading a decoded trait object back as a dictionary keeps its keys |
| Codec.TraitPairsView | campaign.py:219 | reading a decoded trait array back as pairs keeps its length |
| Codec.TraitMapRoundTrip | campaign.py:183-185 | decoding an encoded trait dictionary gives it back |
| Codec.TraitPairsRoundTrip | campaign.py:179-181 | decoding an encoded trait list gives it back |
| Codec.ItemRoundTrip | campaign.py:250-263 | decoding the JSON of an item gives back the same item, size included |
| Codec.CharacterDecodeLoses | campaign.py:228-240 | decoding an encoded character keeps name and traits but loses the description and the inventory |
| Codec.LocationDecodeLoses | campaign.py:213-226 | decoding an encoded location keeps name and description, reads its traits back as the same pairs (as two-element lists, not tuples), and loses the inventory |
| Codec.RelationshipDecodeKeeps | campaign.py:242-248 | decoding an encoded relationship keeps all four attributes, the characters as raw objects |
| Codec.WorldDecodeLoses | campaign.py:195-211 | decoding an encoded world keeps name and description and loses every collection |
| Codec.NestedTextIsOneEntity | campaign.py:236-237 | a nested inventory stored as text decodes to one item, not a list |
| Text.Keep | campaign_generators.py:26-28 | deleting a character class keeps only characters of the other class, and never lengthens the text |
| Text.KeepConcat | campaign_generators.py:26-28 | deleting a character class distributes over concatenation, so order is kept |
| Text.KeepCount | campaign_generators.py:26-28 | each kept character survives with its multiplicity, and each deleted one vanishes |
| Text.KeepFixed | campaign_generators.py:26-28 | deleting leaves the text unchanged exactly when no character is deletable |
| Text.KeepIdempotent | campaign_generators.py:26-28 | deleting a character class twice equals deleting it once |
| Text.RemoveNonAscii | campaign_generators.py:26-28 | the result is all ASCII and no longer than the input |
| Text.RemoveNonAsciiExact | campaign_generators.py:26-28 | ASCII characters survive in order with their counts, others vanish; ASCII text is unchanged; the function is idempotent |
| Text.RemoveWhitespace | campaign_generators.py:43-45 | the result has no whitespace and is no longer than the input |
| Text.RemoveWhitespaceExact | campaign_generators.py:43-45 | non-whitespace survives in order with its counts, whitespace vanishes, and the function is idempotent |
| Text.Strip | campaign_generators.py:30-33 | deleting a literal never lengthens the text and never adds characters; which text survives is fixed by `Text.StripAtFirst` and `Text.StripAbsent` |
| Text.StripAtFirst | campaign_generators.py:30-33 | the text before the first occurrence survives unchanged, the occurrence is deleted, and the scan resumes right after it |
| Text.StripFrom | campaign_generators.py:30-33 | from any position up to the first later occurrence, each character survives in order, and the occurrence itself is deleted |
| Text.StripAbsent | campaign_generators.py:30-33 | text without the literal is unchanged |
| Text.StripDoubleNewline | campaign_generators.py:33 | deleting `\n\n` leaves no `\n\n`, even where deletion brings line feeds together |
| Text.SpaceDoubleNewlineHasDoubleNewline | campaign_generators.py:32 | every ` \n\n` contains a `\n\n` |
| Text.NoDoubleNewlineAbsent | campaign_generators.py:33 | text with no adjacent line feeds contains no `\n\n` |
| Text.StripAscii | campaign_generators.py:30-33 | deleting a literal keeps ASCII text ASCII |
| Text.RemoveDoubleNewlines | campaign_generators.py:30-33 | the result has no two adjacent line feeds, uses only input characters, and keeps ASCII text ASCII; it is two `Text.Strip` passes, so `Text.StripAtFirst` fixes which text survives |
| Text.RemoveDoubleNewlinesIdempotent | campaign_generators.py:30-33 | text without `\n\n` is unchanged, so applying it twice equals applying it once |
| Text.LastDot | campaign_generators.py:37 | the position of the last '.', or the length when there is none |
| Text.RemoveIncompleteSentences | campaign_generators.py:35-37 | the result is the input up to its last '.', then one '.'; without a '.', a '.' is appended; it adds no `\n\n` |
| Text.RemoveIncompleteSentencesIdempotent | campaign_generators.py:35-37 | trimming twice equals trimming once |
| Text.RemoveLeadingWhitespace | campaign_generators.py:39-41 | the result is a suffix of the input; everything removed is whitespace; the result does not start with whitespace; it adds no `\n\n` |
| Text.RemoveLeadingWhitespaceIdempotent | campaign_generators.py:39-41 | trimming twice equals trimming once |
| Text.MakePrintable | campaign_generators.py:47-49 | the result is ASCII, has no `\n\n`, ends with '.' and does not start with whitespace |
| Text.MakePrintableFixed | campaign_generators.py:47-49 | text that is ASCII, free of `\n\n`, ends with '.' and does not start with whitespace passes unchanged |
| Text.MakePrintableIdempotent | campaign_generators.py:47-49 | cleaning twice equals cleaning once |
| Text.IndexOf | campaign_generators.py:133 | the position of the first separator, or the length when there is none |
| Text.Split | campaign_generators.py:133 | `split` gives at least one piece, no piece holds the separator, and joining the pieces gives back the text |
| Text.SplitJoin | campaign_generators.py:133 | splitting the join of separator-free pieces gives the pieces back |
| Text.SplitCons | campaign_generators.py:133 | splitting a separator-free piece, the separator and a rest gives that piece, then the rest's pieces |
| Text.IndexOfPrefix | campaign_generators.py:133 | the first separator after a separator-free prefix is right after it |
| Text.SplitHasSecondPiece | campaign_generators.py:133-135 | `message[1]` exists exactly when the separator occurs |
| Replies.CheckCounts | campaign_generators.py:282-289 | the checks raise ValueError exactly when `numLocations` is outside 0..10, whatever `numCharacters` is |
| Replies.NameAndDescription | campaign_generators.py:133-135 | `message[0]` and `message[1]` exist exactly when the reply holds the separator; they are the text before the first separator and the text between the first and second |
| Replies.ParseReply | campaign_generators.py:130-137 | a truncated reply raises ValueError first, a reply without the separator raises the given error, and a usable reply gives its name and description |
| Generators.ParseNamed | campaign_generators.py:130-137 | every rejected reply raises ValueError, the one exception the retry loops catch: TooLong exactly for a truncated reply; a reply is accepted exactly when usable, and then gives its first two pieces |
| Replies.NameAndDescriptionOfJoin | campaign_generators.py:133-135 | a reply joining a name and a description, neither holding the separator, gives back the name and description |
| Replies.FirstTwoPieces | campaign_generators.py:133-135 | the first two pieces of `message.split("|")` are the text before the first separator and the text between the first and second |
| Replies.Retry | campaign_generators.py:319-324 | the retry loop stops at the first attempt that does not raise ValueError: it returns a value after only rejected attempts, gives up only when every attempt is rejected, and otherwise re-raises the first other exception |
| Replies.Obtain | campaign_generators.py:318-327 | one iteration uses one to three replies; after three rejections the result is the previous value or UnboundLocalError; a new value comes from the last attempt, after only rejections; an attempt raising another exception ends the build |
| Replies.ObtainFirstMade | campaign_generators.py:319-324 | when some attempt in the window succeeds and the others are only rejected, the loop returns the first successful attempt |
| Replies.PairsLoopPreserves | campaign_generators.py:329-354 | a property each pair step preserves holds after the nested loop over all ordered pairs |
| Generators.WorldFromReply | campaign_generators.py:299-305 | the world exists exactly when the reply is usable; its name is the reply's first piece without whitespace, its description the second, and it starts empty |
| Generators.LocationFromReply | campaign_generators.py:130-137 | (unreachable lines) the location would exist exactly when the reply is usable, with the reply's name and description; otherwise ValueError |
| Generators.GenerateLocation | campaign_generators.py:123 | `generate_location` always raises an exception other than ValueError |
| Generators.GenerateCharacter | campaign_generators.py:142-172 | a character is made exactly when the reply is usable, with its name, its description and the reply's index as identity; otherwise ValueError |
| Generators.RelationshipFromReply | campaign_generators.py:194-201 | (unreachable lines) the symmetric parse, and the asymmetric one at lines 226-233, would always raise ValueError, because neither setter exists; length is reported exactly for a truncated reply |
| Generators.GenerateRelationship | campaign_generators.py:187 | both relationship generators raise an exception other than ValueError before any request |
| Generators.ItemFromReply | campaign_generators.py:257-264 | (unreachable lines) the item would exist exactly when the reply is usable and has its name and description, no traits and size MEDIUM |
| Generators.LocationStep | campaign_generators.py:307-316 | one location iteration always ends the build with AttributeError |
| Generators.LocationLoop | campaign_generators.py:307-316 | the location loop succeeds unchanged only for zero locations |
| Generators.CharacterStep | campaign_generators.py:318-327 | a character iteration fails exactly when no earlier character exists and its three replies are all unusable; it appends exactly one character using one to three requests; after three failures it appends the previous character again |
| Generators.ObtainFirstUsable | campaign_generators.py:319-324 | when a usable reply lies in the window, the retry returns the character from the first usable reply, with that reply's index, name and description |
| Generators.CharacterStepTakesFirstUsable | campaign_generators.py:318-327 | the appended character comes from the first usable reply of the iteration's window |
| Generators.TimesAppends | campaign_generators.py:318-327 | repeating a one-character step n times appends n characters, using n to 3n requests, and changes nothing else |
| Generators.CharacterLoopAppends | campaign_generators.py:318-327 | the character loop appends exactly `numCharacters` characters, using between n and 3n requests |
| Generators.AppendsTrans | campaign_generators.py:318-327 | appending m and then n characters appends m + n |
| Generators.PairStep | campaign_generators.py:331-354 | a self pair or an already related pair is skipped without a draw; otherwise a failed draw moves on, and a successful one ends the build with AttributeError |
| Generators.PairPhaseLeavesWorld | campaign_generators.py:329-354 | a pair loop that completes leaves the world unchanged |
| Generators.ItemPhase | campaign_generators.py:356-366 | the item loop completes, unchanged, exactly when `numItems <= 0` |
| Generators.GenerateWorld | campaign_generators.py:269-370 | out-of-range location counts, a truncated world reply and a world reply without the separator raise ValueError; any location request raises AttributeError; a successful build is named by the first reply's first piece without whitespace and described by its second piece, has no locations, relationships or items, and has `max(numCharacters, 0)` characters |
| Generators.TwoTruncatedThenUsable | campaign_generators.py:318-327 | after two truncated replies the third gives the character, after three requests |
| Generators.NumenorReply | campaign_generators.py:299-305 | the reply that joins `Numenor` and `A sunken empire` with the separator gives the empty world Numenor |
| Generators.NumenorHasNoWhitespace | campaign_generators.py:303 | removing whitespace leaves `Numenor` unchanged |
| Generators.EmptyBuild | campaign_generators.py:269-370 | with all counts zero, the build is the world step alone |
| Generators.NumenorWorld | campaign_generators.py:269-370 | the zero-count build on the Numenor reply gives that empty world |
| Script.WorldFromReply | main.py:100-103 | the world exists exactly when the reply is usable; a truncated reply raises ValueError and one without the separator raises IndexError |
| Script.LocationStep | main.py:112-120 | a location iteration succeeds exactly when its reply is usable, and appends that reply's location using one request; a truncated reply raises ValueError and one without the separator IndexError |
| Script.CharacterStep | main.py:131-139 | a character iteration succeeds exactly when its reply is usable, and appends that reply's character, with the reply's index as identity; a truncated reply raises ValueError and one without the separator IndexError |
| Script.BuiltIndex | main.py:106-139 | the list of entities built from consecutive replies has one entry per reply, in order |
| Script.TimesSucceeds | main.py:106-139 | a loop whose one-request steps fail only on unusable replies succeeds exactly when every reply in its window is usable |
| Script.CollectLocations | main.py:106-120 | repeating an append-one-location step appends the locations of consecutive replies, in order |
| Script.CollectCharacters | main.py:124-139 | repeating an append-one-character step appends the characters of consecutive replies, in order |
| Script.LocationsContent | main.py:106-120 | the location loop succeeds exactly when its n replies are usable, and then appends their n locations in order |
| Script.CharactersContent | main.py:124-139 | the character loop succeeds exactly when its n replies are usable, and then appends their n characters in order |
| Script.PairStep | main.py:142-165 | a self pair or a related pair is skipped without a draw; a failed draw moves on; a successful draw uses one reply, fails on an unusable one, and otherwise appends a relationship with the reply's two halves |
| Script.AppendKeepsSound | main.py:157-163 | appending a fresh relationship between distinct, unrelated characters from a usable reply keeps the relationship list sound |
| Script.PairStepKeepsSound | main.py:142-165 | a pair step keeps the list free of self and duplicate pairs, keeps each relationship tied to its reply, and touches nothing but relationships |
| Script.PairPhaseSound | main.py:142-165 | the whole pair loop keeps those invariants |
| Script.GenerateWorld | main.py:74-169 | out-of-range location counts raise ValueError; a truncated world reply raises ValueError and one without the separator IndexError |
| Script.GenerateWorldNamed | main.py:100-103 | a successful build is named by the first reply's first piece without whitespace and described by its second piece |
| Script.GenerateWorldStages | main.py:74-169 | a successful build is the world step, then the location loop, the character loop and the pair loop, each succeeding in turn |
| Script.GenerateWorldUsable | main.py:74-139 | a successful build read 1 + numLocations + max(numCharacters, 0) usable replies |
| Script.GenerateWorldEntities | main.py:106-139 | a successful build holds the locations of replies 1..numLocations and then the characters of the following replies |
| Script.GenerateWorldRelationships | main.py:142-165 | a built world has no relationship of a character with itself, no two relationships for one pair in either orientation, and each relationship carries its reply's two halves |
| Script.BuiltLocations | main.py:114-119 | the built locations are those the consecutive usable replies describe |
| Script.BuiltCharacters | main.py:133-138 | the built characters are those the consecutive usable replies describe, with consecutive identities |
| Script.LocationsInReplyOrder | main.py:106-120 | locations built from replies 1..n are, in order, the ones those replies describe |
| Script.CharactersInReplyOrder | main.py:124-139 | characters built from a window of replies are, in order, the ones those replies describe, with distinct identities |
| Script.GenerateWorldLocationOrder | main.py:106-120 | every location of a built world is the one reply 1 + i describes |
| Script.GenerateWorldCharacterOrder | main.py:124-139 | every character of a built world is the one reply 1 + numLocations + i describes, and identities are distinct |
| Legacy.CharacterMethodsKeepNoDescription | campaign_classes.py:77-97 | a new character and the trait and item methods leave an older character without a description |
| Legacy.NewLocation | campaign_classes.py:68-73 | an older location starts with an empty description, traits and inventory, and holds the given world reference |
| Legacy.NewWorld | campaign_classes.py:20-25 | a new world has its identity and no locations, and its shared part is a new newer-model world |
| Legacy.AddCharacter | campaign_classes.py:39-41 | `add_character` appends the character, acts on the shared part as the newer method does, and leaves identity and locations alone |
| Legacy.AddLocation | campaign_classes.py:50-53 | `add_location` appends one location whose back-reference is set to this world, whatever it was before; nothing else changes |
| Legacy.AddRelationship | campaign_classes.py:43-48 | `add_relationship` appends and returns True exactly when this object is not already stored, otherwise changes nothing; it agrees with the newer method on the shared part |
| Legacy.BackReferencesHold | campaign_classes.py:39-53 | every location of a world refers back to that world, and every world operation keeps it so |

`main.py:19-42` repeats the text helpers of `campaign_generators.py:26-49`
character for character, so the `Text` members model both.

`campaign_classes.py` repeats several parts of `campaign.py` with the same
bodies, so the `Campaign` members model both files:

- `Size` and `Item`: lines 9-16 and 142-159.
- `Character.add_trait` and `add_item`: lines 90-97.
- The `Relationship` class: lines 102-140.
- `add_relationship` and `get_relationship_between`: lines 43-60.

An older world's relationships are looked up with
`Campaign.GetRelationshipBetween` on `Legacy.Core` of the world.

## Left out

- API calls become the reply oracle. Prompts and message lists, the model
  name, temperature and token limits are left out, because they only shape
  the request.
- Logging and saving are left out: `create_and_log`, `save_campaign_object`
  and their file I/O, including their I/O errors.
- `estimate_cost` and its floating-point cost table are left out. They do
  not affect a build.
- `random.random() < p` becomes one boolean draw. The probabilities 0.3 and
  0.25 are left out, because they are floating point. The second draw in
  `campaign_generators.py:336`, which chooses between the asymmetric and
  symmetric generators, is not modelled separately, because both choices
  end the build the same way.
- `random.choice` in the item loop is modelled only for the empty list it
  always receives.
- `__str__`, `__repr__`, `encode` and `as_system_msg` are left out, because
  they render JSON text. The encoders are modelled at the level of JSON
  values, and parsing text is the parameter `parse`. Key order and
  `ensure_ascii` escaping are therefore not modelled.
- The string-building `__str__` of `campaign_classes.py` is left out for
  the same reason. That file has no decoders.
- `\s` is taken to be ASCII whitespace. Unicode whitespace above 0x7F is
  not modelled.
- The `assert(type(x) == ...)` checks are left out. The Dafny types enforce
  them.
- Legacy.Character: the older character has no `description` attribute.
  It is modelled as a newer character whose description is empty, so that
  relationships can be shared. Reading that missing attribute, which would
  raise `AttributeError` in Python, is therefore not modelled.
- Python aliasing in `campaign.py` is left out. Every entity is a value,
  and every mutating method returns the updated value. In Python, a
  character mutated after `add_character`, or shared by a `Relationship`,
  changes everywhere it is referenced; in the model each copy is
  independent. The builders mutate no entity after adding it, except
  `location.add_item` in the item loop, which no build reaches. A
  character re-added after three rejections is one object twice in
  Python, and two equal values with one identity in the model.
- JSON numbers are integers only, so a document holding a float is not
  modelled. The encoders never write one: a size is written as its
  integer value.
- Legacy: a `campaign_classes.py` location added to two worlds is one
  shared object in Python, so its `world` reference ends at the last world.
  The model gives each world its own copy, so that aliasing is not
  modelled.
- `api_test.py` and the `__main__` blocks are left out, because they are
  scripts that call the API.
- `Generators.LocationFromReply`, `Generators.RelationshipFromReply` and
  `Generators.ItemFromReply` model source lines that no build reaches,
  because an earlier call raises. No lemma relies on them.
- Generators.GenerateWorld: for `numCharacters > 0`, the contract bounds
  what a successful build contains. It does not describe each character,
  because after three rejected replies the model repeats the previous
  character, as the code does. `Generators.CharacterStepTakesFirstUsable`
  describes each character that comes from a usable reply.
