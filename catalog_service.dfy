/**
 * The decisions the catalog's request handlers make over the store: which
 * bodies and query arguments are malformed, which outcome each route returns,
 * and, for pets, which fields an update keeps and when a picture is
 * downloaded or an old picture file removed. HTTP, the upstream taxonomy call
 * and the picture download are inputs; a file removal is a returned effect.
 */
module CatalogService {
  import opened Wrappers
  import opened Text
  import Json
  import Dates
  import opened CatalogStore
  import Taxonomy

  // ======================= POST /pet-types =======================

  datatype CreateTypeResult =
    | TypeCreated(pt: PetType)       // 201 with the record
    | TypeMalformed                  // 400 "Malformed data"
    | TypeServerError(status: int)   // 500 "API response code <status>"
    | TypeCallFailed                 // 500 "API call failed"

  /** `data["type"]`, when the body is a non-empty object whose `type` is a string. */
  function RequestedType(body: Option<Json.Object>): Option<string> {
    if body.Some? && body.value != map[] && "type" in body.value && body.value["type"].Str?
    then Some(body.value["type"].s)
    else None
  }

  /** `create_pet_type`. */
  method CreatePetType(store: Store, body: Option<Json.Object>, upstream: Taxonomy.Upstream)
    returns (r: CreateTypeResult)
    requires store.Valid()
    modifies store`petTypes, store`petsByType, store`typeNameToId, store`nextId
    ensures store.Valid()
    ensures RequestedType(body).None? ==> r == TypeMalformed && unchanged(store)
    ensures RequestedType(body).Some? && old(store.PetTypeExistsByName(RequestedType(body).value)) ==>
      r == TypeMalformed && unchanged(store)
    ensures RequestedType(body).Some? && !old(store.PetTypeExistsByName(RequestedType(body).value)) ==>
      var t := RequestedType(body).value;
      match Taxonomy.Resolve(t, upstream)
      case NotFound => r == TypeMalformed && unchanged(store)
      case ApiError(s) => r == TypeServerError(s) && unchanged(store)
      case CallFailed => r == TypeCallFailed && unchanged(store)
      case Found(info) =>
        && r == TypeCreated(PetType(NatToString(old(store.nextId)), t,
             info.family, info.genus, info.attributes, info.lifespan, []))
        && store.petTypes == old(store.petTypes)[r.pt.id := r.pt]
        && store.petsByType == old(store.petsByType)[r.pt.id := map[]]
        && store.typeNameToId == old(store.typeNameToId)[Lower(t) := r.pt.id]
        && store.nextId == old(store.nextId) + 1
  {
    var t := RequestedType(body);
    if t.None? {
      return TypeMalformed;
    }
    var typeName := t.value;
    if store.PetTypeExistsByName(typeName) {
      return TypeMalformed;
    }
    var outcome := Taxonomy.FetchPetTypeData(typeName, upstream);
    match outcome {
      case NotFound => return TypeMalformed;
      case ApiError(s) => return TypeServerError(s);
      case CallFailed => return TypeCallFailed;
      case Found(info) =>
        var pt := StoreNewType(store, typeName, info);
        r := TypeCreated(pt);
    }
  }

  /** The id the counter hands out, the record with the taxonomy fields and no pets, registered. */
  method StoreNewType(store: Store, typeName: string, info: Taxonomy.Info) returns (pt: PetType)
    requires store.Valid() && !store.PetTypeExistsByName(typeName)
    modifies store`petTypes, store`petsByType, store`typeNameToId, store`nextId
    ensures store.Valid()
    ensures pt == PetType(NatToString(old(store.nextId)), typeName,
      info.family, info.genus, info.attributes, info.lifespan, [])
    ensures store.petTypes == old(store.petTypes)[pt.id := pt]
    ensures store.petsByType == old(store.petsByType)[pt.id := map[]]
    ensures store.typeNameToId == old(store.typeNameToId)[Lower(typeName) := pt.id]
    ensures store.nextId == old(store.nextId) + 1
  {
    ghost var counter := store.nextId;
    var id := store.GeneratePetTypeId();
    pt := PetType(id, typeName, info.family, info.genus, info.attributes, info.lifespan, []);
    forall k: nat | k >= store.nextId
      ensures NatToString(k) != pt.id
    {
      NatToStringInjective(k, counter);
    }
    store.RegisterPetType(pt);
  }

  // ======================= GET /pet-types =======================

  /** The query arguments `list_pet_types` filters on, in the order it applies them. */
  const FilterFields: seq<string> := ["id", "type", "family", "genus", "lifespan"]

  /** `str(pt[field])` for the four text fields. */
  function FieldText(pt: PetType, field: string): string {
    if field == "id" then pt.id
    else if field == "type" then pt.typeName
    else if field == "family" then pt.family
    else pt.genus
  }

  /** Whether one `field=value` filter keeps `pt`: case-insensitive text, or an integer lifespan. */
  predicate Kept(pt: PetType, field: string, value: string) {
    if field == "lifespan" then
      var n := ParseInt(value);
      n.Some? && pt.lifespan == Some(n.value)
    else Lower(FieldText(pt, field)) == Lower(value)
  }

  /** `hasAttribute`: some attribute equals the argument, ignoring case. */
  predicate HasAttribute(pt: PetType, attr: string) {
    exists a :: a in pt.attributes && Lower(a) == Lower(attr)
  }

  /** A record passes the first `n` of the field filters the query sets. */
  predicate PassesFilters(pt: PetType, args: map<string, string>, n: nat)
    requires n <= |FilterFields|
  {
    forall k :: 0 <= k < n && FilterFields[k] in args ==> Kept(pt, FilterFields[k], args[FilterFields[k]])
  }

  /** A record passes every filter the query sets, and `hasAttribute` when it is set. */
  predicate Selected(pt: PetType, args: map<string, string>) {
    && PassesFilters(pt, args, |FilterFields|)
    && ("hasAttribute" in args ==> HasAttribute(pt, args["hasAttribute"]))
  }

  /** The one argument that makes the listing a 400: a lifespan `int()` rejects. */
  predicate LifespanMalformed(args: map<string, string>) {
    "lifespan" in args && ParseInt(args["lifespan"]).None?
  }

  lemma PassesStep(pt: PetType, args: map<string, string>, i: nat)
    requires i < |FilterFields|
    ensures PassesFilters(pt, args, i + 1) <==>
      PassesFilters(pt, args, i) && (FilterFields[i] in args ==> Kept(pt, FilterFields[i], args[FilterFields[i]]))
  {
  }

  /** One `field=value` filter over the records left so far; None when the lifespan is not an integer. */
  method ApplyFilter(result: set<PetType>, field: string, value: string) returns (kept: Option<set<PetType>>)
    ensures kept.None? <==> field == "lifespan" && ParseInt(value).None?
    ensures kept.Some? ==> kept.value == set pt | pt in result && Kept(pt, field, value)
  {
    if field == "lifespan" {
      var n := ParseInt(value);
      if n.None? {
        return None;
      }
      kept := Some(set pt | pt in result && pt.lifespan == Some(n.value));
    } else {
      kept := Some(set pt | pt in result && Lower(FieldText(pt, field)) == Lower(value));
    }
  }

  /** `list_pet_types`; the listing is a set because the model does not keep insertion order. */
  datatype ListTypesResult = TypesListed(types: set<PetType>) | ListMalformed

  method ListPetTypes(store: Store, args: map<string, string>) returns (r: ListTypesResult)
    ensures r == ListMalformed <==> LifespanMalformed(args)
    ensures r.TypesListed? ==> r.types == set pt | pt in store.petTypes.Values && Selected(pt, args)
  {
    var all := store.petTypes.Values;
    var result := all;
    var i := 0;
    while i < |FilterFields|
      invariant 0 <= i <= |FilterFields|
      invariant i == |FilterFields| ==> !LifespanMalformed(args)
      invariant result == set pt | pt in all && PassesFilters(pt, args, i)
    {
      var field := FilterFields[i];
      if field in args {
        var kept := ApplyFilter(result, field, args[field]);
        if kept.None? {
          return ListMalformed;
        }
        result := kept.value;
      }
      forall pt ensures pt in result <==> pt in all && PassesFilters(pt, args, i + 1) {
        PassesStep(pt, args, i);
      }
      i := i + 1;
    }
    if "hasAttribute" in args {
      var attr := args["hasAttribute"];
      result := set pt | pt in result && HasAttribute(pt, attr);
    }
    r := TypesListed(result);
  }

  /** Any spelling of a type's name, and of any of its attributes, finds it. */
  lemma FiltersIgnoreCase(pt: PetType, s: string, a: string)
    requires Lower(s) == Lower(pt.typeName) && a in pt.attributes
    ensures Kept(pt, "type", s)
    ensures forall b :: Lower(b) == Lower(a) ==> HasAttribute(pt, b)
  {
  }

  /** A lifespan filter keeps exactly the records with that lifespan; one with none never matches. */
  lemma LifespanFilter(pt: PetType, n: nat)
    ensures Kept(pt, "lifespan", NatToString(n)) <==> pt.lifespan == Some(n)
  {
    ParseIntOfNumeral(n);
  }

  // ======================= /pet-types/{id} =======================

  /** `get_pet_type`: the record, which carries its own id, or None for a 404. */
  function GetPetType(store: Store, id: string): (r: Option<PetType>)
    reads store
    requires store.Valid()
    ensures r.Some? <==> id in store.petTypes
    ensures r.Some? ==> r.value.id == id && r.value == store.petTypes[id]
  {
    if id in store.petTypes then Some(store.petTypes[id]) else None
  }

  datatype DeleteTypeResult = TypeDeleted | TypeNotFound | TypeHasPets

  /** `delete_pet_type`: 404 when absent, 400 while it lists pets, else removed. */
  method DeletePetType(store: Store, id: string) returns (r: DeleteTypeResult)
    requires store.Valid()
    modifies store
    ensures store.Valid()
    ensures r == TypeNotFound <==> id !in old(store.petTypes)
    ensures r == TypeHasPets <==> id in old(store.petTypes) && old(store.petTypes)[id].pets != []
    ensures r != TypeDeleted ==> unchanged(store)
    ensures r == TypeDeleted ==>
      && store.petTypes == old(store.petTypes) - {id}
      && store.petsByType == old(store.petsByType) - {id}
      && store.typeNameToId == old(store.typeNameToId) - {Lower(old(store.petTypes)[id].typeName)}
      && store.nextId == old(store.nextId)
  {
    if id !in store.petTypes {
      return TypeNotFound;
    }
    if store.petTypes[id].pets != [] {
      return TypeHasPets;
    }
    store.RemovePetType(id);
    r := TypeDeleted;
  }

  /** A type can be deleted only once its pets are gone, and then it owns no pets at all. */
  lemma DeletableTypeHasNoPets(petTypes: map<string, PetType>, petsByType: map<string, map<string, Pet>>, id: string)
    requires PetsIndexed(petTypes, petsByType) && id in petTypes && petTypes[id].pets == []
    ensures petsByType[id] == map[]
  {
    assert petsByType[id].Keys == LoweredNames([]);
  }

  // ======================= building a pet =======================

  /**
   * What fetching a picture gave: a response status (and the file written on
   * 200), a `ValueError` from `requests` for a value that is not a URL, or any
   * other exception.
   */
  datatype Fetch = Fetched(status: int, fileName: string) | Refused | Failed

  /** `_build_or_update_pet`'s outcome: the pet and the old picture file to remove, or the error. */
  datatype Upsert =
    | Built(pet: Pet, removed: Option<string>)
    | UpsertMalformed               // ValueError: 400
    | DownloadError(status: int)    // NinjaApiError from the download: 500
    | UpsertCrashed                 // any other exception escapes: 500

  /** `data["name"]` when it is a string. */
  function NameOf(body: Json.Object): Option<string> {
    if "name" in body && body["name"].Str? then Some(body["name"].s) else None
  }

  /** `data.get("birthdate", "NA")`. */
  function BirthdateArg(body: Json.Object): Json.Value {
    if "birthdate" in body then body["birthdate"] else Json.Str("NA")
  }

  /** The birthdate check: "NA" or a date `parse_date` accepts; anything else raises. */
  predicate BirthdateOk(body: Json.Object) {
    var b := BirthdateArg(body);
    b.Str? && (b.s == "NA" || Dates.ParseDate(b.s).Some?)
  }

  /** `data.get("picture-url")`. */
  function UrlArg(body: Json.Object): Json.Value {
    Json.Get(body, "picture-url")
  }

  predicate UrlGiven(body: Json.Object) {
    "picture-url" in body
  }

  /** A new pet, or an update that supplies a different URL, the name and birthdate being valid. */
  predicate Accepted(body: Json.Object) {
    NameOf(body).Some? && BirthdateOk(body)
  }

  /** The picture before any download: kept from the stored pet unless a different URL is supplied. */
  function PictureBeforeDownload(body: Json.Object, existing: Option<Pet>): string {
    if existing.Some? && (!UrlGiven(body) || UrlArg(body) == existing.value.pictureUrl)
    then existing.value.picture
    else "NA"
  }

  /**
   * When the picture is downloaded: the URL is truthy, and the pet is new or
   * the update supplies a URL different from the stored one.
   */
  predicate Downloads(body: Json.Object, existing: Option<Pet>) {
    Json.Truthy(UrlArg(body))
    && (existing.None? || (UrlGiven(body) && UrlArg(body) != existing.value.pictureUrl))
  }

  /** The download condition as line 233 of the handler writes it. */
  predicate DownloadsAsWritten(body: Json.Object, existing: Option<Pet>) {
    Json.Truthy(UrlArg(body))
    && (existing.None? || PictureBeforeDownload(body, existing) != existing.value.picture)
  }

  /** The old file to remove: the stored picture, when a different URL is supplied and there is a file. */
  function Removal(body: Json.Object, existing: Option<Pet>): Option<string> {
    if existing.Some? && UrlGiven(body) && UrlArg(body) != existing.value.pictureUrl
       && existing.value.picture != "" && existing.value.picture != "NA"
    then Some(existing.value.picture)
    else None
  }

  /** The pet the handler stores, given the picture it ends up with. */
  function Merged(body: Json.Object, existing: Option<Pet>, picture: string): Pet
    requires Accepted(body)
  {
    Pet(
      NameOf(body).value,
      if existing.Some? && "birthdate" !in body then existing.value.birthdate else BirthdateArg(body).s,
      picture,
      if existing.Some? && !UrlGiven(body) then existing.value.pictureUrl else UrlArg(body))
  }

  /** `_build_or_update_pet` as one value (with the download condition corrected, see `Downloads`). */
  function Upserted(body: Json.Object, existing: Option<Pet>, fetch: Fetch): Upsert {
    if !Accepted(body) then UpsertMalformed
    else if Downloads(body, existing) then
      match fetch
      case Refused => UpsertMalformed
      case Failed => UpsertCrashed
      case Fetched(status, file) =>
        if status != 200 then DownloadError(status)
        else Built(Merged(body, existing, file), Removal(body, existing))
    else Built(Merged(body, existing, PictureBeforeDownload(body, existing)), Removal(body, existing))
  }

  /** `_build_or_update_pet`, with its local variables updated branch by branch. */
  method BuildOrUpdatePet(body: Json.Object, existing: Option<Pet>, fetch: Fetch) returns (u: Upsert)
    ensures u == Upserted(body, existing, fetch)
  {
    if "name" !in body || !body["name"].Str? {
      return UpsertMalformed;
    }
    var name := body["name"].s;
    var birthdateArg := BirthdateArg(body);
    var pictureUrl := UrlArg(body);
    if birthdateArg != Json.Str("NA") {
      if !birthdateArg.Str? || Dates.ParseDate(birthdateArg.s).None? {
        return UpsertMalformed;
      }
    }
    var birthdate := birthdateArg.s;
    var picture := "NA";
    var oldPictureFile: Option<string> := None;
    if existing.Some? {
      var e := existing.value;
      if "birthdate" !in body {
        birthdate := e.birthdate;
      }
      if "picture-url" !in body {
        picture := e.picture;
        pictureUrl := e.pictureUrl;
      } else if pictureUrl == e.pictureUrl {
        picture := e.picture;
      } else {
        oldPictureFile := Some(e.picture);
      }
    }
    if Json.Truthy(pictureUrl) && (existing.None? || oldPictureFile.Some?) {
      match fetch {
        case Refused => return UpsertMalformed;
        case Failed => return UpsertCrashed;
        case Fetched(status, file) =>
          if status != 200 {
            return DownloadError(status);
          }
          picture := file;
      }
    }
    var removed: Option<string> := None;
    if oldPictureFile.Some? && oldPictureFile.value != "" && oldPictureFile.value != "NA" {
      removed := oldPictureFile;
    }
    u := Built(Pet(name, birthdate, picture, pictureUrl), removed);
  }

  // ----- what the upsert promises -----

  /** A missing or non-string name, or a birthdate that is neither "NA" nor a date, is a 400. */
  lemma UpsertRejects(body: Json.Object, existing: Option<Pet>, fetch: Fetch)
    ensures !Accepted(body) ==> Upserted(body, existing, fetch) == UpsertMalformed
    ensures NameOf(body).None? || !BirthdateOk(body) ==> !Accepted(body)
    ensures "birthdate" !in body ==> BirthdateOk(body)
  {
  }

  /** Every pet the upsert builds is one the store accepts, when the old one was. */
  lemma UpsertWellFormed(body: Json.Object, existing: Option<Pet>, fetch: Fetch)
    requires existing.Some? ==> WellFormedPet(existing.value)
    ensures Upserted(body, existing, fetch).Built? ==> WellFormedPet(Upserted(body, existing, fetch).pet)
  {
  }

  /** An update that omits a field keeps the stored value of it; omitting the URL keeps the picture too. */
  lemma OmittedFieldsKept(body: Json.Object, p: Pet, fetch: Fetch)
    requires Accepted(body)
    ensures var u := Upserted(body, Some(p), fetch);
      && ("birthdate" !in body && u.Built? ==> u.pet.birthdate == p.birthdate)
      && (!UrlGiven(body) ==>
            u == Built(Merged(body, Some(p), p.picture), None)
            && u.pet.picture == p.picture && u.pet.pictureUrl == p.pictureUrl)
  {
  }

  /** Supplying the stored URL again keeps the picture: no download and no removal. */
  lemma SameUrlKeepsPicture(body: Json.Object, p: Pet, fetch: Fetch)
    requires Accepted(body) && UrlGiven(body) && UrlArg(body) == p.pictureUrl
    ensures Upserted(body, Some(p), fetch) == Built(Merged(body, Some(p), p.picture), None)
  {
  }

  /**
   * A supplied URL that differs from the stored one replaces the picture: a
   * download when the URL is truthy, "NA" when not, and the old file, if any, is removed.
   */
  lemma NewUrlReplacesPicture(body: Json.Object, p: Pet, file: string)
    requires Accepted(body) && UrlGiven(body) && UrlArg(body) != p.pictureUrl
    requires p.picture != "" && p.picture != "NA"
    ensures Json.Truthy(UrlArg(body)) ==>
      Upserted(body, Some(p), Fetched(200, file)) == Built(Merged(body, Some(p), file), Some(p.picture))
    ensures !Json.Truthy(UrlArg(body)) ==>
      Upserted(body, Some(p), Fetched(200, file)) == Built(Merged(body, Some(p), "NA"), Some(p.picture))
  {
  }

  /** A new pet is downloaded exactly when its URL is truthy, and nothing is removed. */
  lemma NewPetDownload(body: Json.Object)
    ensures Downloads(body, None) <==> Json.Truthy(UrlArg(body))
    ensures Removal(body, None) == None
  {
  }

  /** A failed download leaves nothing built: another status is a 500 with that code. */
  lemma DownloadFailure(body: Json.Object, existing: Option<Pet>, status: int, file: string)
    requires Accepted(body) && Downloads(body, existing) && status != 200
    ensures Upserted(body, existing, Fetched(status, file)) == DownloadError(status)
    ensures Upserted(body, existing, Refused) == UpsertMalformed
    ensures Upserted(body, existing, Failed) == UpsertCrashed
  {
  }

  /**
   * The condition as written differs from the intended one in exactly one
   * case: an existing pet whose picture is "NA", given a different truthy URL.
   */
  lemma AsWrittenDiffersOnlyOnNA(body: Json.Object, existing: Option<Pet>)
    ensures DownloadsAsWritten(body, existing) != Downloads(body, existing) <==>
      existing.Some? && existing.value.picture == "NA" && UrlGiven(body)
      && UrlArg(body) != existing.value.pictureUrl && Json.Truthy(UrlArg(body))
    ensures DownloadsAsWritten(body, existing) ==> Downloads(body, existing)
  {
  }

  /** As written, a pet that has no picture never gets one from an update. */
  lemma AsWrittenNeverDownloadsForNA(body: Json.Object, p: Pet)
    requires p.picture == "NA"
    ensures !DownloadsAsWritten(body, Some(p))
  {
  }

  /** Rex has no picture; an update giving him a first URL downloads nothing as written. */
  lemma AsWrittenCounterexample()
    ensures var p := Pet("Rex", "NA", "NA", Json.Null);
      var body := map["name" := Json.Str("Rex"), "picture-url" := Json.Str("http://example.com/rex.jpg")];
      !DownloadsAsWritten(body, Some(p)) && Downloads(body, Some(p))
  {
  }

  // ======================= /pet-types/{id}/pets =======================

  datatype PetResult =
    | PetCreated(json: PetJson)   // 201
    | PetUpdated(json: PetJson)   // 200
    | PetNotFound                 // 404
    | PetMalformed                // 400
    | PetServerError(status: int) // 500 "API response code <status>"
    | PetCrashed                  // 500 from an exception the handler does not catch

  /** How the route reports an upsert that did not build a pet. */
  function FailureOf(u: Upsert): PetResult
    requires !u.Built?
  {
    match u
    case UpsertMalformed => PetMalformed
    case DownloadError(s) => PetServerError(s)
    case UpsertCrashed => PetCrashed
  }

  /** `create_pet`: the pet is built as new and stored; `removed` is the picture file deleted. */
  method CreatePet(store: Store, id: string, body: Option<Json.Object>, fetch: Fetch)
    returns (r: PetResult, removed: Option<string>)
    requires store.Valid()
    modifies store`petTypes, store`petsByType
    ensures store.Valid()
    ensures id !in old(store.petTypes) ==> r == PetNotFound
    ensures id in old(store.petTypes) && body.None? ==> r == PetMalformed
    ensures id in old(store.petTypes) && body.Some? ==>
      var u := Upserted(body.value, None, fetch);
      r == (if u.Built? then PetCreated(PetToJson(u.pet)) else FailureOf(u))
    ensures removed == None
    ensures r.PetCreated? ==>
      && id in old(store.petTypes) && body.Some? && Upserted(body.value, None, fetch).Built?
      && var pet := Upserted(body.value, None, fetch).pet;
      && store.petsByType == old(store.petsByType)[id := old(store.petsByType)[id][Lower(pet.name) := pet]]
      && store.petTypes == old(store.petTypes)[id := old(store.petTypes)[id].(pets :=
           if pet.name in old(store.petTypes)[id].pets then old(store.petTypes)[id].pets
           else old(store.petTypes)[id].pets + [pet.name])]
    ensures !r.PetCreated? ==> store.petTypes == old(store.petTypes) && store.petsByType == old(store.petsByType)
  {
    removed := None;
    if id !in store.petTypes {
      return PetNotFound, None;
    }
    if body.None? {
      return PetMalformed, None;
    }
    var u := BuildOrUpdatePet(body.value, None, fetch);
    if !u.Built? {
      return FailureOf(u), None;
    }
    UpsertWellFormed(body.value, None, fetch);
    store.AddPet(id, u.pet);
    r := PetCreated(PetToJson(u.pet));
  }

  /**
   * `update_pet`: the stored pet named in the path is merged with the body and
   * stored again under the body's name (a body that renames the pet leaves the
   * old entry in place, as the handler does).
   */
  method UpdatePet(store: Store, id: string, name: string, body: Option<Json.Object>, fetch: Fetch)
    returns (r: PetResult, removed: Option<string>)
    requires store.Valid()
    modifies store`petTypes, store`petsByType
    ensures store.Valid()
    ensures id in old(store.petTypes) <==> id in old(store.petsByType)
    ensures id !in old(store.petTypes) ==> r == PetNotFound
    ensures id in old(store.petTypes) && body.None? ==> r == PetMalformed
    ensures id in old(store.petTypes) && body.Some? && Lower(name) !in old(store.petsByType)[id] ==> r == PetNotFound
    ensures id in old(store.petTypes) && body.Some? && Lower(name) in old(store.petsByType)[id] ==>
      var u := Upserted(body.value, Some(old(store.petsByType)[id][Lower(name)]), fetch);
      r == (if u.Built? then PetUpdated(PetToJson(u.pet)) else FailureOf(u))
      && removed == (if u.Built? then u.removed else None)
    ensures !r.PetUpdated? ==> removed == None
    ensures r.PetUpdated? ==>
      && id in old(store.petsByType) && body.Some? && Lower(name) in old(store.petsByType)[id]
      && var u := Upserted(body.value, Some(old(store.petsByType)[id][Lower(name)]), fetch);
      && u.Built?
      && store.petsByType == old(store.petsByType)[id := old(store.petsByType)[id][Lower(u.pet.name) := u.pet]]
      && store.petTypes == old(store.petTypes)[id := old(store.petTypes)[id].(pets :=
           if u.pet.name in old(store.petTypes)[id].pets then old(store.petTypes)[id].pets
           else old(store.petTypes)[id].pets + [u.pet.name])]
    ensures !r.PetUpdated? ==> store.petTypes == old(store.petTypes) && store.petsByType == old(store.petsByType)
  {
    removed := None;
    if id !in store.petTypes {
      return PetNotFound, None;
    }
    if body.None? {
      return PetMalformed, None;
    }
    var pets := store.PetsForType(id);
    var key := Lower(name);
    if key !in pets {
      return PetNotFound, None;
    }
    var existing := pets[key];
    var u := BuildOrUpdatePet(body.value, Some(existing), fetch);
    if !u.Built? {
      return FailureOf(u), None;
    }
    UpsertWellFormed(body.value, Some(existing), fetch);
    store.AddPet(id, u.pet);
    r := PetUpdated(PetToJson(u.pet));
    removed := u.removed;
  }

  // ======================= /pet-types/{id}/pets/{name} =======================

  /** `get_pet`: the pet stored under the lower-cased name, as JSON. */
  function GetPet(store: Store, id: string, name: string): (r: Option<PetJson>)
    reads store
    requires store.Valid()
    ensures r.Some? <==> id in store.petTypes && Lower(name) in store.petsByType[id]
    ensures r.Some? ==> Lower(r.value.name) == Lower(name)
    ensures r.Some? ==> r.value == PetToJson(store.petsByType[id][Lower(name)])
  {
    if id !in store.petTypes then None
    else
      var pets := store.PetsForType(id);
      if Lower(name) in pets then Some(PetToJson(pets[Lower(name)])) else None
  }

  datatype DeletePetResult = PetDeleted | PetAbsent

  /** `delete_pet_route`: the pet leaves the store, and its picture file, if it has one, is removed. */
  method DeletePetRoute(store: Store, id: string, name: string) returns (r: DeletePetResult, removed: Option<string>)
    requires store.Valid()
    modifies store`petTypes, store`petsByType
    ensures store.Valid()
    ensures id in old(store.petTypes) <==> id in old(store.petsByType)
    ensures r == PetAbsent <==> id !in old(store.petTypes) || Lower(name) !in old(store.petsByType)[id]
    ensures r == PetAbsent ==>
      removed == None && store.petTypes == old(store.petTypes) && store.petsByType == old(store.petsByType)
    ensures r == PetDeleted ==>
      && id in old(store.petsByType) && Lower(name) in old(store.petsByType)[id]
      && var p := old(store.petsByType)[id][Lower(name)];
      && removed == (if p.picture != "NA" then Some(p.picture) else None)
      && store.petsByType == old(store.petsByType)[id := old(store.petsByType)[id] - {Lower(name)}]
      && store.petTypes == old(store.petTypes)[id := old(store.petTypes)[id].(pets :=
           WithoutName(old(store.petTypes)[id].pets, Lower(name)))]
  {
    assert id in store.petTypes <==> id in store.petsByType;
    if id !in store.petTypes {
      return PetAbsent, None;
    }
    var pet := store.DeletePet(id, name);
    if pet.None? {
      return PetAbsent, None;
    }
    r := PetDeleted;
    removed := if pet.value.picture != "NA" then Some(pet.value.picture) else None;
  }

  // ======================= GET /pet-types/{id}/pets =======================

  datatype ListPetsResult = PetsListed(pets: set<PetJson>) | PetsNotFound | PetsMalformed

  /** `if gt:` on a query argument. */
  predicate Set(arg: Option<string>) {
    arg.Some? && arg.value != ""
  }

  /** The bound checks of one pet, as the comprehensions write them. */
  predicate InRange(p: Pet, gt: Option<string>, lt: Option<string>) {
    && (Set(gt) ==> p.birthdate != "NA" && var c := Dates.CompareDates(p.birthdate, gt.value); c.Some? && c.value > 0)
    && (Set(lt) ==> p.birthdate != "NA" && var c := Dates.CompareDates(p.birthdate, lt.value); c.Some? && c.value < 0)
  }

  /** `list_pets`: 404 for an unknown type, 400 for a bound that is not a date, else the pets in range. */
  function ListPets(store: Store, id: string, gt: Option<string>, lt: Option<string>): (r: ListPetsResult)
    reads store
    requires store.Valid()
    ensures r == PetsNotFound <==> id !in store.petTypes
    ensures r == PetsMalformed <==>
      id in store.petTypes &&
      ((Set(gt) && Dates.ParseDate(gt.value).None?) || (Set(lt) && Dates.ParseDate(lt.value).None?))
  {
    if id !in store.petTypes then PetsNotFound
    else if (Set(gt) && Dates.ParseDate(gt.value).None?) || (Set(lt) && Dates.ParseDate(lt.value).None?) then PetsMalformed
    else PetsListed(set p | p in store.PetsForType(id).Values && InRange(p, gt, lt) :: PetToJson(p))
  }

  /**
   * The listing holds a stored pet exactly when its birthdate is a date strictly
   * after `birthdateGT` and strictly before `birthdateLT` (each when set); a
   * pet born "NA" is in it only when neither bound is set.
   */
  lemma ListPetsFilters(store: Store, id: string, gt: Option<string>, lt: Option<string>, p: Pet)
    requires store.Valid()
    requires ListPets(store, id, gt, lt).PetsListed?
    requires p in store.petsByType[id].Values
    ensures PetToJson(p) in ListPets(store, id, gt, lt).pets <==>
      && (Set(gt) ==>
            p.birthdate != "NA" &&
            Dates.Before(Dates.ParseDate(gt.value).value, Dates.ParseDate(p.birthdate).value))
      && (Set(lt) ==>
            p.birthdate != "NA" &&
            Dates.Before(Dates.ParseDate(p.birthdate).value, Dates.ParseDate(lt.value).value))
    ensures p.birthdate == "NA" ==> (PetToJson(p) in ListPets(store, id, gt, lt).pets <==> !Set(gt) && !Set(lt))
  {
    var pets := store.petsByType[id];
    var key :| key in pets && pets[key] == p;
    assert WellFormedPet(p);
    if p.birthdate != "NA" {
      if Set(gt) { Dates.CompareDatesOrder(p.birthdate, gt.value); }
      if Set(lt) { Dates.CompareDatesOrder(p.birthdate, lt.value); }
    }
  }
}
