/**
 * The catalog's in-memory "database": pet-type records by id, each type's
 * pets keyed by lower-cased name, the lower-cased type names that guard
 * against duplicates, and the counter that hands out pet-type ids.
 */
module CatalogStore {
  import opened Wrappers
  import opened Text
  import opened Seqs
  import Json
  import Dates

  /** A pet as the store holds it; `pictureUrl` is the JSON value it was last given. */
  datatype Pet = Pet(name: string, birthdate: string, picture: string, pictureUrl: Json.Value)

  /** A pet as the API shows it. */
  datatype PetJson = PetJson(name: string, birthdate: string, picture: string)

  /** A pet-type record; `pets` lists the names of its pets as they were first spelled. */
  datatype PetType = PetType(
    id: string, typeName: string, family: string, genus: string,
    attributes: seq<string>, lifespan: Option<int>, pets: seq<string>)

  /** The pets the catalog service stores: "NA" or a date `parse_date` accepts. */
  predicate WellFormedPet(p: Pet) {
    p.birthdate == "NA" || Dates.ParseDate(p.birthdate).Some?
  }

  /** `pet_to_json`: the picture URL stays internal. */
  function PetToJson(p: Pet): (j: PetJson)
    ensures j.name == p.name && j.birthdate == p.birthdate && j.picture == p.picture
  {
    PetJson(p.name, p.birthdate, p.picture)
  }

  /**
   * Two pets look the same from outside exactly when their name, birthdate and
   * picture agree: the picture URL never shows.
   */
  lemma PetToJsonHidesUrl(p: Pet, q: Pet)
    ensures PetToJson(p) == PetToJson(q) <==>
      p.name == q.name && p.birthdate == q.birthdate && p.picture == q.picture
  {
  }

  function LoweredNames(names: seq<string>): set<string> {
    set n | n in names :: Lower(n)
  }

  /** `[n for n in names if n.lower() != key]`. */
  function WithoutName(names: seq<string>, key: string): seq<string> {
    if names == [] then []
    else if Lower(names[0]) == key then WithoutName(names[1..], key)
    else [names[0]] + WithoutName(names[1..], key)
  }

  /** Filtering keeps exactly the names of another lower-cased spelling, and no repeats. */
  lemma {:induction false} WithoutNameKeeps(names: seq<string>, key: string)
    ensures forall n :: n in WithoutName(names, key) <==> n in names && Lower(n) != key
    ensures NoDuplicates(names) ==> NoDuplicates(WithoutName(names, key))
    ensures LoweredNames(WithoutName(names, key)) == LoweredNames(names) - {key}
  {
    if names != [] {
      WithoutNameKeeps(names[1..], key);
      assert names == [names[0]] + names[1..];
    }
  }

  // ----- the store's invariant, stated over the three maps and the counter -----

  /** Every type's record names it; the name index is exactly the inverse of the records. */
  ghost predicate TypesIndexed(petTypes: map<string, PetType>, typeNameToId: map<string, string>) {
    && (forall id :: id in petTypes ==> petTypes[id].id == id)
    && (forall id :: id in petTypes ==>
          Lower(petTypes[id].typeName) in typeNameToId
          && typeNameToId[Lower(petTypes[id].typeName)] == id)
    && (forall n :: n in typeNameToId ==>
          typeNameToId[n] in petTypes && Lower(petTypes[typeNameToId[n]].typeName) == n)
  }

  /** A type's name list and its pet map agree, up to case, and the list has no repeats. */
  ghost predicate PetsIndexed(petTypes: map<string, PetType>, petsByType: map<string, map<string, Pet>>) {
    && petTypes.Keys == petsByType.Keys
    && (forall id :: id in petTypes ==> TypePetsIndexed(petTypes[id], petsByType[id]))
  }

  ghost predicate TypePetsIndexed(pt: PetType, pets: map<string, Pet>) {
    && LoweredNames(pt.pets) == pets.Keys
    && NoDuplicates(pt.pets)
    && forall key :: key in pets ==> Lower(pets[key].name) == key && WellFormedPet(pets[key])
  }

  /** No id in use is one the counter has still to hand out. */
  ghost predicate IdsIssued(petTypes: map<string, PetType>, nextId: nat) {
    nextId >= 1 && forall k: nat :: k >= nextId ==> NatToString(k) !in petTypes
  }

  /** The store's invariant: the three maps agree and the counter is ahead of every id in use. */
  ghost predicate Indexed(
    petTypes: map<string, PetType>, petsByType: map<string, map<string, Pet>>,
    typeNameToId: map<string, string>, nextId: nat)
  {
    TypesIndexed(petTypes, typeNameToId) && PetsIndexed(petTypes, petsByType) && IdsIssued(petTypes, nextId)
  }

  /** What every caller of `register_pet_type` guarantees: a new id from the counter, a new name, no pets. */
  ghost predicate Registrable(
    petTypes: map<string, PetType>, typeNameToId: map<string, string>, nextId: nat, pt: PetType)
  {
    && pt.id !in petTypes
    && Lower(pt.typeName) !in typeNameToId
    && pt.pets == []
    && forall k: nat :: k >= nextId ==> NatToString(k) != pt.id
  }

  lemma RegisterKeepsIndexes(
    petTypes: map<string, PetType>, petsByType: map<string, map<string, Pet>>,
    typeNameToId: map<string, string>, nextId: nat, pt: PetType)
    requires Indexed(petTypes, petsByType, typeNameToId, nextId)
    requires Registrable(petTypes, typeNameToId, nextId, pt)
    ensures Indexed(petTypes[pt.id := pt], petsByType[pt.id := map[]], typeNameToId[Lower(pt.typeName) := pt.id], nextId)
  {
    RegisterKeepsTypesIndexed(petTypes, typeNameToId, pt);
    RegisterKeepsPetsIndexed(petTypes, petsByType, pt);
  }

  lemma RegisterKeepsTypesIndexed(petTypes: map<string, PetType>, typeNameToId: map<string, string>, pt: PetType)
    requires TypesIndexed(petTypes, typeNameToId)
    requires pt.id !in petTypes && Lower(pt.typeName) !in typeNameToId
    ensures TypesIndexed(petTypes[pt.id := pt], typeNameToId[Lower(pt.typeName) := pt.id])
  {
  }

  lemma RegisterKeepsPetsIndexed(petTypes: map<string, PetType>, petsByType: map<string, map<string, Pet>>, pt: PetType)
    requires PetsIndexed(petTypes, petsByType)
    requires pt.pets == []
    ensures PetsIndexed(petTypes[pt.id := pt], petsByType[pt.id := map[]])
  {
    assert LoweredNames([]) == {};
  }

  lemma RemoveKeepsIndexes(
    petTypes: map<string, PetType>, petsByType: map<string, map<string, Pet>>,
    typeNameToId: map<string, string>, nextId: nat, id: string)
    requires Indexed(petTypes, petsByType, typeNameToId, nextId)
    requires id in petTypes
    ensures Indexed(petTypes - {id}, petsByType - {id}, typeNameToId - {Lower(petTypes[id].typeName)}, nextId)
  {
  }

  lemma ReplacePetsKeepsIndexes(
    petTypes: map<string, PetType>, petsByType: map<string, map<string, Pet>>,
    typeNameToId: map<string, string>, nextId: nat, id: string, pt: PetType, pets: map<string, Pet>)
    requires Indexed(petTypes, petsByType, typeNameToId, nextId)
    requires id in petTypes && pt.id == petTypes[id].id && pt.typeName == petTypes[id].typeName
    requires TypePetsIndexed(pt, pets)
    ensures Indexed(petTypes[id := pt], petsByType[id := pets], typeNameToId, nextId)
  {
    SameNamesKeepTypesIndexed(petTypes, typeNameToId, id, pt);
    SameKeysKeepIdsIssued(petTypes, nextId, id, pt);
  }

  lemma SameKeysKeepIdsIssued(petTypes: map<string, PetType>, nextId: nat, id: string, pt: PetType)
    requires IdsIssued(petTypes, nextId) && id in petTypes
    ensures IdsIssued(petTypes[id := pt], nextId)
  {
    assert petTypes[id := pt].Keys == petTypes.Keys;
  }

  lemma SameNamesKeepTypesIndexed(
    petTypes: map<string, PetType>, typeNameToId: map<string, string>, id: string, pt: PetType)
    requires TypesIndexed(petTypes, typeNameToId)
    requires id in petTypes && pt.id == petTypes[id].id && pt.typeName == petTypes[id].typeName
    ensures TypesIndexed(petTypes[id := pt], typeNameToId)
  {
    var pts := petTypes[id := pt];
    assert forall i :: i in pts ==> i in petTypes && pts[i].id == petTypes[i].id && pts[i].typeName == petTypes[i].typeName;
  }

  lemma AddKeepsTypeIndexed(pt: PetType, pets: map<string, Pet>, pet: Pet)
    requires TypePetsIndexed(pt, pets) && WellFormedPet(pet)
    ensures TypePetsIndexed(
      pt.(pets := if pet.name in pt.pets then pt.pets else pt.pets + [pet.name]),
      pets[Lower(pet.name) := pet])
  {
    var key := Lower(pet.name);
    if pet.name !in pt.pets {
      var names := pt.pets + [pet.name];
      assert LoweredNames(names) == LoweredNames(pt.pets) + {key} by {
        assert forall n :: n in names <==> n in pt.pets || n == pet.name;
      }
      assert NoDuplicates(names) by {
        forall i, j | 0 <= i < j < |names| ensures names[i] != names[j] {
          if j == |names| - 1 {
            assert names[i] in pt.pets;
          }
        }
      }
    } else {
      assert key in LoweredNames(pt.pets);
    }
  }

  lemma DeleteKeepsTypeIndexed(pt: PetType, pets: map<string, Pet>, key: string)
    requires TypePetsIndexed(pt, pets)
    ensures TypePetsIndexed(pt.(pets := WithoutName(pt.pets, key)), pets - {key})
  {
    WithoutNameKeeps(pt.pets, key);
  }

  lemma DeleteKeepsIndexes(
    petTypes: map<string, PetType>, petsByType: map<string, map<string, Pet>>,
    typeNameToId: map<string, string>, nextId: nat, id: string, key: string)
    requires Indexed(petTypes, petsByType, typeNameToId, nextId)
    requires id in petsByType && key in petsByType[id]
    ensures id in petTypes
    ensures Indexed(
      petTypes[id := petTypes[id].(pets := WithoutName(petTypes[id].pets, key))],
      petsByType[id := petsByType[id] - {key}], typeNameToId, nextId)
  {
    var pt := petTypes[id];
    DeleteKeepsTypeIndexed(pt, petsByType[id], key);
    ReplacePetsKeepsIndexes(petTypes, petsByType, typeNameToId, nextId, id,
      pt.(pets := WithoutName(pt.pets, key)), petsByType[id] - {key});
  }

  class Store {
    var petTypes: map<string, PetType>
    var petsByType: map<string, map<string, Pet>>
    var typeNameToId: map<string, string>
    var nextId: nat

    ghost predicate Valid()
      reads this
    {
      Indexed(petTypes, petsByType, typeNameToId, nextId)
    }

    constructor ()
      ensures Valid()
      ensures petTypes == map[] && petsByType == map[] && typeNameToId == map[] && nextId == 1
    {
      petTypes, petsByType, typeNameToId, nextId := map[], map[], map[], 1;
    }

    /** `generate_pet_type_id`: the decimal string of the counter, which then moves on by one. */
    method GeneratePetTypeId() returns (id: string)
      requires Valid()
      modifies this`nextId
      ensures Valid()
      ensures id == NatToString(old(nextId)) && nextId == old(nextId) + 1
      ensures id !in petTypes
    {
      id := NatToString(nextId);
      nextId := nextId + 1;
    }

    /** `pet_type_exists_by_name`: some stored type has this name, ignoring case. */
    function PetTypeExistsByName(typeName: string): (b: bool)
      reads this
      requires Valid()
      ensures b <==> exists id :: id in petTypes && Lower(petTypes[id].typeName) == Lower(typeName)
    {
      Lower(typeName) in typeNameToId
    }

    ghost predicate CanRegister(pt: PetType)
      reads this
    {
      Registrable(petTypes, typeNameToId, nextId, pt)
    }

    /** `register_pet_type`. */
    method RegisterPetType(pt: PetType)
      requires Valid() && CanRegister(pt)
      modifies this`petTypes, this`petsByType, this`typeNameToId
      ensures Valid()
      ensures petTypes == old(petTypes)[pt.id := pt]
      ensures petsByType == old(petsByType)[pt.id := map[]]
      ensures typeNameToId == old(typeNameToId)[Lower(pt.typeName) := pt.id]
      ensures forall s :: Lower(s) == Lower(pt.typeName) ==> PetTypeExistsByName(s)
    {
      RegisterKeepsIndexes(petTypes, petsByType, typeNameToId, nextId, pt);
      petTypes := petTypes[pt.id := pt];
      petsByType := petsByType[pt.id := map[]];
      typeNameToId := typeNameToId[Lower(pt.typeName) := pt.id];
    }

    /** `remove_pet_type`: the id leaves all three maps; an unknown id changes nothing. */
    method RemovePetType(id: string)
      requires Valid()
      modifies this
      ensures Valid()
      ensures id !in old(petTypes) ==>
        petTypes == old(petTypes) && petsByType == old(petsByType) && typeNameToId == old(typeNameToId)
      ensures id in old(petTypes) ==>
        && petTypes == old(petTypes) - {id}
        && petsByType == old(petsByType) - {id}
        && typeNameToId == old(typeNameToId) - {Lower(old(petTypes)[id].typeName)}
      ensures nextId == old(nextId)
    {
      if id in petTypes {
        var pt := petTypes[id];
        RemoveKeepsIndexes(petTypes, petsByType, typeNameToId, nextId, id);
        petTypes := petTypes - {id};
        petsByType := petsByType - {id};
        typeNameToId := typeNameToId - {Lower(pt.typeName)};
      }
    }

    /** `get_pets_for_type`: the type's pets by lower-cased name, or none. */
    function PetsForType(id: string): (pets: map<string, Pet>)
      reads this
      requires Valid()
      ensures id !in petTypes ==> pets == map[]
      ensures forall key :: key in pets ==> Lower(pets[key].name) == key
      ensures id in petTypes ==> pets.Keys == LoweredNames(petTypes[id].pets)
    {
      if id in petsByType then petsByType[id] else map[]
    }

    /** `add_pet`: store the pet under its lower-cased name; list its name if that exact spelling is new. */
    method AddPet(id: string, pet: Pet)
      requires Valid() && id in petTypes && WellFormedPet(pet)
      modifies this`petTypes, this`petsByType
      ensures Valid()
      ensures petsByType == old(petsByType)[id := old(petsByType)[id][Lower(pet.name) := pet]]
      ensures petTypes == old(petTypes)[id := old(petTypes)[id].(pets :=
        if pet.name in old(petTypes)[id].pets then old(petTypes)[id].pets
        else old(petTypes)[id].pets + [pet.name])]
    {
      var pets := petsByType[id][Lower(pet.name) := pet];
      var pt := petTypes[id];
      var names := if pet.name in pt.pets then pt.pets else pt.pets + [pet.name];
      AddKeepsTypeIndexed(pt, petsByType[id], pet);
      ReplacePetsKeepsIndexes(petTypes, petsByType, typeNameToId, nextId, id, pt.(pets := names), pets);
      petsByType := petsByType[id := pets];
      petTypes := petTypes[id := pt.(pets := names)];
    }

    /**
     * `delete_pet`: None and no change when the type has no pet of that name
     * (ignoring case); otherwise the stored pet, gone from the map, with every
     * spelling of its name gone from the type's list.
     */
    method DeletePet(id: string, name: string) returns (r: Option<Pet>)
      requires Valid()
      modifies this`petTypes, this`petsByType
      ensures Valid()
      ensures r.None? <==> id !in old(petsByType) || Lower(name) !in old(petsByType)[id]
      ensures r.None? ==> petsByType == old(petsByType) && petTypes == old(petTypes)
      ensures r.Some? ==>
        && id in old(petTypes)
        && r.value == old(petsByType)[id][Lower(name)]
        && petsByType == old(petsByType)[id := old(petsByType)[id] - {Lower(name)}]
        && petTypes == old(petTypes)[id := old(petTypes)[id].(pets := WithoutName(old(petTypes)[id].pets, Lower(name)))]
    {
      var key := Lower(name);
      if id in petsByType && key in petsByType[id] {
        var pet := RemovePet(id, key);
        r := Some(pet);
      } else {
        r := None;
      }
    }

    /** The removal `delete_pet` performs once it has found the pet stored under `key`. */
    method RemovePet(id: string, key: string) returns (pet: Pet)
      requires Valid() && id in petsByType && key in petsByType[id]
      modifies this`petTypes, this`petsByType
      ensures Valid()
      ensures id in old(petTypes) && pet == old(petsByType)[id][key]
      ensures petsByType == old(petsByType)[id := old(petsByType)[id] - {key}]
      ensures petTypes == old(petTypes)[id := old(petTypes)[id].(pets := WithoutName(old(petTypes)[id].pets, key))]
    {
      DeleteKeepsIndexes(petTypes, petsByType, typeNameToId, nextId, id, key);
      pet := petsByType[id][key];
      petTypes := petTypes[id := petTypes[id].(pets := WithoutName(petTypes[id].pets, key))];
      petsByType := petsByType[id := petsByType[id] - {key}];
    }
  }
}
