/**
 * The pet-order service: a purchase is checked, the two pet stores are tried
 * in a fixed order for a pet of the requested type, the chosen pet is deleted
 * from its store, and the sale is appended to the transaction ledger, which
 * the owner can query. The stores are snapshots of what their HTTP endpoints
 * answer; the purchase id is a parameter.
 */
module Orders {
  import opened Wrappers
  import opened Text
  import Json
  import opened Seqs

  // ======================= the remote pet stores =======================

  /** One entry of a store's `GET /pet-types` listing. */
  datatype RemoteType = RemoteType(typeName: string, id: string)

  /**
   * What one catalog answers: the status and entries of its type listing, the
   * pet names its `GET /pet-types/{id}/pets` returns with status 200 (an id
   * that is absent answers otherwise), and the status its `DELETE` answers.
   */
  datatype Remote = Remote(
    listingStatus: int, types: seq<RemoteType>, pets: map<string, seq<string>>, deleteStatus: int)

  /** Store 1 and store 2. */
  datatype Stores = Stores(first: Remote, second: Remote) {
    /** The store an id from the store order names. */
    function At(id: int): Remote {
      if id == 1 then first else second
    }
  }

  function TypeName(t: RemoteType): string {
    t.typeName
  }

  function PetName(n: string): string {
    n
  }

  /**
   * `get_pet_type_id`: None on a listing that is not 200; otherwise the id of
   * the first type whose name matches, ignoring case, or None.
   */
  function TypeIdOf(remote: Remote, petType: string): (r: Option<string>)
    ensures r.Some? ==>
      remote.listingStatus == 200 &&
      exists i :: 0 <= i < |remote.types| && remote.types[i].id == r.value
        && Lower(remote.types[i].typeName) == Lower(petType)
        && forall j :: 0 <= j < i ==> Lower(remote.types[j].typeName) != Lower(petType)
    ensures r.None? <==>
      remote.listingStatus != 200 ||
      forall i :: 0 <= i < |remote.types| ==> Lower(remote.types[i].typeName) != Lower(petType)
  {
    if remote.listingStatus != 200 then None
    else match FirstCaseless(remote.types, TypeName, petType)
      case None => None
      case Some(i) => Some(remote.types[i].id)
  }

  /** `get_pet_type_id`, with its loop over the listing. */
  method GetPetTypeId(remote: Remote, petType: string) returns (r: Option<string>)
    ensures r == TypeIdOf(remote, petType)
  {
    if remote.listingStatus != 200 {
      return None;
    }
    var i := 0;
    while i < |remote.types|
      invariant 0 <= i <= |remote.types|
      invariant forall j :: 0 <= j < i ==> Lower(TypeName(remote.types[j])) != Lower(petType)
    {
      if Lower(remote.types[i].typeName) == Lower(petType) {
        return Some(remote.types[i].id);
      }
      i := i + 1;
    }
    r := None;
  }

  /** `get_pets`: a listing that is not 200 reads as no pets. */
  function PetsOf(remote: Remote, typeId: string): seq<string> {
    if typeId in remote.pets then remote.pets[typeId] else []
  }

  // ======================= checking the purchase =======================

  /** A purchase that passed the checks: who buys, which type, the stores to try, the pet name given. */
  datatype Order = Order(purchaser: string, petType: string, stores: seq<int>, petName: Json.Value)

  /** The store number a JSON value equals in Python, where `True == 1` and `False == 0`. */
  function StoreNumber(v: Json.Value): Option<int> {
    match v
    case Int(i) => Some(i)
    case Bool(b) => Some(if b then 1 else 0)
    case _ => None
  }

  /** `store is not None and store not in [1, 2]`. */
  predicate BadStore(v: Json.Value) {
    v != Json.Null && StoreNumber(v) != Some(1) && StoreNumber(v) != Some(2)
  }

  /** The checks at the top of `create_purchase`, and the store order it then builds. */
  function ReadOrder(body: Option<Json.Object>): (r: Option<Order>)
    ensures r.None? <==>
      || body.None?
      || !Json.Get(body.value, "purchaser").Str?
      || !Json.Get(body.value, "pet-type").Str?
      || BadStore(Json.Get(body.value, "store"))
      || (Json.Get(body.value, "store") == Json.Null && Json.Get(body.value, "pet-name") != Json.Null)
    ensures r.Some? ==>
      && Json.Get(body.value, "purchaser") == Json.Str(r.value.purchaser)
      && Json.Get(body.value, "pet-type") == Json.Str(r.value.petType)
      && r.value.petName == Json.Get(body.value, "pet-name")
    ensures r.Some? ==> r.value.stores == [1] || r.value.stores == [2] || r.value.stores == [1, 2]
    ensures r.Some? ==> (r.value.stores == [1, 2] <==> Json.Get(body.value, "store") == Json.Null)
    ensures r.Some? && r.value.stores == [1, 2] ==> r.value.petName == Json.Null
  {
    if body.None? then None
    else
      var d := body.value;
      var purchaser, petType, store, petName :=
        Json.Get(d, "purchaser"), Json.Get(d, "pet-type"), Json.Get(d, "store"), Json.Get(d, "pet-name");
      if !purchaser.Str? || !petType.Str? then None
      else if BadStore(store) then None
      else if store == Json.Null && petName != Json.Null then None
      else
        var stores := if StoreNumber(store) == Some(1) then [1]
          else if StoreNumber(store) == Some(2) then [2]
          else [1, 2];
        Some(Order(purchaser.s, petType.s, stores, petName))
  }

  /** A body that names its store is answered from that store alone, whatever else it holds. */
  lemma PinnedStore(body: Json.Object, n: int)
    requires n == 1 || n == 2
    requires Json.Get(body, "purchaser").Str? && Json.Get(body, "pet-type").Str?
    requires Json.Get(body, "store") == Json.Int(n)
    ensures ReadOrder(Some(body)).Some? && ReadOrder(Some(body)).value.stores == [n]
  {
  }

  // ======================= choosing a pet =======================

  /** The store has the type under a non-empty id, and lists pets of it. */
  predicate Usable(remote: Remote, petType: string) {
    var id := TypeIdOf(remote, petType);
    id.Some? && id.value != "" && PetsOf(remote, id.value) != []
  }

  /** The pets the store lists for the type, once it is usable. */
  function Offered(remote: Remote, petType: string): seq<string>
    requires Usable(remote, petType)
  {
    PetsOf(remote, TypeIdOf(remote, petType).value)
  }

  /** A usable store where a truthy pet name is not a string: its `.lower()` raises. */
  predicate Crashes(remote: Remote, petType: string, petName: Json.Value) {
    Usable(remote, petType) && Json.Truthy(petName) && !petName.Str?
  }

  /** The search stops at this store: it crashes, or it offers a pet the request accepts. */
  predicate Halts(remote: Remote, petType: string, petName: Json.Value) {
    Usable(remote, petType) &&
      (Json.Truthy(petName) ==>
        !petName.Str? || FirstCaseless(Offered(remote, petType), PetName, petName.s).Some?)
  }

  /** `Halts` at the store an id names. */
  function HaltsAt(stores: Stores, petType: string, petName: Json.Value): int -> bool {
    (id: int) => Halts(stores.At(id), petType, petName)
  }

  /** The position in `order` of the first store at which the search stops. */
  function FirstHalt(stores: Stores, order: seq<int>, petType: string, petName: Json.Value): Option<nat> {
    FirstWhere(order, HaltsAt(stores, petType, petName))
  }

  /**
   * The pet the search may take at a store where it stops without crashing:
   * the first whose name matches a truthy pet name, spelled as the store
   * spells it; with no pet name, any pet the store lists.
   */
  predicate Picked(remote: Remote, petType: string, petName: Json.Value, typeId: string, name: string) {
    && Usable(remote, petType)
    && typeId == TypeIdOf(remote, petType).value
    && var pets := Offered(remote, petType);
       if Json.Truthy(petName) then
         petName.Str? && var i := FirstCaseless(pets, PetName, petName.s); i.Some? && name == pets[i.value]
       else name in pets
  }

  datatype Search = Chosen(store: int, typeId: string, name: string) | NoneFound | SearchCrashed

  /** `for p in pets: if p["name"].lower() == pet_name.lower(): ... break`. */
  method MatchByName(pets: seq<string>, petName: string) returns (r: Option<nat>)
    ensures r == FirstCaseless(pets, PetName, petName)
  {
    var i := 0;
    while i < |pets|
      invariant 0 <= i <= |pets|
      invariant forall j :: 0 <= j < i ==> Lower(PetName(pets[j])) != Lower(petName)
    {
      if Lower(pets[i]) == Lower(petName) {
        return Some(i);
      }
      i := i + 1;
    }
    r := None;
  }

  datatype Answer = Take(typeId: string, name: string) | Skip | Crash

  /** One round of the selection loop: resolve the type, list its pets, pick one. */
  method TryStore(remote: Remote, petType: string, petName: Json.Value) returns (a: Answer)
    ensures a.Skip? <==> !Halts(remote, petType, petName)
    ensures a.Crash? <==> Crashes(remote, petType, petName)
    ensures a.Take? ==> Picked(remote, petType, petName, a.typeId, a.name)
  {
    var typeId := GetPetTypeId(remote, petType);
    if typeId.None? || typeId.value == "" {
      return Skip;
    }
    var pets := PetsOf(remote, typeId.value);
    if pets == [] {
      return Skip;
    }
    if Json.Truthy(petName) {
      if !petName.Str? {
        return Crash;
      }
      var m := MatchByName(pets, petName.s);
      if m.None? {
        return Skip;
      }
      return Take(typeId.value, pets[m.value]);
    }
    assert pets[0] in pets;
    var p :| p in pets;
    a := Take(typeId.value, p);
  }

  /** The selection loop of `create_purchase`; without a pet name the pet is any one listed. */
  method FindPet(stores: Stores, order: seq<int>, petType: string, petName: Json.Value) returns (res: Search)
    ensures res.NoneFound? <==> FirstHalt(stores, order, petType, petName).None?
    ensures res.SearchCrashed? <==>
      FirstHalt(stores, order, petType, petName).Some? &&
      Crashes(stores.At(order[FirstHalt(stores, order, petType, petName).value]), petType, petName)
    ensures res.Chosen? ==>
      var k := FirstHalt(stores, order, petType, petName).value;
      res.store == order[k] && Picked(stores.At(order[k]), petType, petName, res.typeId, res.name)
  {
    var i := 0;
    while i < |order|
      invariant 0 <= i <= |order|
      invariant forall j :: 0 <= j < i ==> !Halts(stores.At(order[j]), petType, petName)
    {
      var answer := TryStore(stores.At(order[i]), petType, petName);
      match answer {
        case Take(typeId, name) =>
          FirstWhereAt(order, HaltsAt(stores, petType, petName), i);
          return Chosen(order[i], typeId, name);
        case Crash =>
          FirstWhereAt(order, HaltsAt(stores, petType, petName), i);
          return SearchCrashed;
        case Skip =>
      }
      i := i + 1;
    }
    res := NoneFound;
  }

  /** Without a store, store 2 is tried exactly when store 1 does not stop the search. */
  lemma FallsThroughToSecond(stores: Stores, petType: string, petName: Json.Value)
    ensures !Halts(stores.first, petType, petName) ==>
      FirstHalt(stores, [1, 2], petType, petName) ==
        (if Halts(stores.second, petType, petName) then Some(1) else None)
    ensures Halts(stores.first, petType, petName) ==> FirstHalt(stores, [1, 2], petType, petName) == Some(0)
  {
  }

  /** A request pinned to one store never depends on what the other store holds. */
  lemma PinnedIgnoresOther(stores: Stores, other: Remote, petType: string, petName: Json.Value)
    ensures FirstHalt(stores, [1], petType, petName) == FirstHalt(stores.(second := other), [1], petType, petName)
    ensures FirstHalt(stores, [2], petType, petName) == FirstHalt(stores.(first := other), [2], petType, petName)
  {
  }

  // ======================= the ledger =======================

  datatype Transaction = Transaction(purchaser: string, petType: string, store: int, petName: string, purchaseId: string)

  /** The transactions collection, in insertion order. */
  class Ledger {
    var transactions: seq<Transaction>

    /** No two transactions share a purchase id. */
    ghost predicate Valid()
      reads this
    {
      forall i, j :: 0 <= i < j < |transactions| ==> transactions[i].purchaseId != transactions[j].purchaseId
    }

    /** The purchase ids already recorded, which a new purchase must avoid. */
    ghost function Ids(): (ids: set<string>)
      reads this
      ensures forall t :: t in transactions ==> t.purchaseId in ids
      ensures forall id :: id in ids ==> exists t :: t in transactions && t.purchaseId == id
    {
      set t | t in transactions :: t.purchaseId
    }

    constructor ()
      ensures Valid() && transactions == []
    {
      transactions := [];
    }

    /** `insert_one`. */
    method Append(t: Transaction)
      requires Valid() && t.purchaseId !in Ids()
      modifies this
      ensures Valid()
      ensures transactions == old(transactions) + [t]
    {
      transactions := transactions + [t];
    }
  }

  // ======================= POST /purchases =======================

  datatype PurchaseResult =
    | Purchased(t: Transaction)  // 201 with the transaction
    | PurchaseMalformed          // 400 "Malformed data"
    | NoPetAvailable             // 400 "No pet of this type is available"
    | PurchaseCrashed            // 500: `.lower()` on a pet name that is not a string

  /**
   * `create_purchase`. `freshId` stands for `uuid4()`, which never repeats an
   * id already in the ledger.
   */
  method CreatePurchase(ledger: Ledger, stores: Stores, body: Option<Json.Object>, freshId: string)
    returns (r: PurchaseResult)
    requires ledger.Valid() && freshId !in ledger.Ids()
    modifies ledger
    ensures ledger.Valid()
    ensures !r.Purchased? ==> ledger.transactions == old(ledger.transactions)
    ensures r.Purchased? ==> ledger.transactions == old(ledger.transactions) + [r.t]
    ensures r == PurchaseMalformed <==> ReadOrder(body).None?
    ensures ReadOrder(body).Some? ==>
      var o := ReadOrder(body).value;
      var k := FirstHalt(stores, o.stores, o.petType, o.petName);
      && (r == PurchaseCrashed <==> k.Some? && Crashes(stores.At(o.stores[k.value]), o.petType, o.petName))
      && (k.None? ==> r == NoPetAvailable)
      && (r.Purchased? ==>
            && k.Some? && r.t.store == o.stores[k.value]
            && stores.At(r.t.store).deleteStatus == 204
            && r.t.purchaser == o.purchaser && r.t.petType == o.petType && r.t.purchaseId == freshId
            && exists typeId :: Picked(stores.At(r.t.store), o.petType, o.petName, typeId, r.t.petName))
      && (r == NoPetAvailable ==>
            k.None? || stores.At(o.stores[k.value]).deleteStatus != 204)
  {
    var order := ReadOrder(body);
    if order.None? {
      return PurchaseMalformed;
    }
    var o := order.value;
    var found := FindPet(stores, o.stores, o.petType, o.petName);
    match found {
      case NoneFound => return NoPetAvailable;
      case SearchCrashed => return PurchaseCrashed;
      case Chosen(store, typeId, name) =>
        if stores.At(store).deleteStatus != 204 {
          return NoPetAvailable;
        }
        var t := Transaction(o.purchaser, o.petType, store, name, freshId);
        ledger.Append(t);
        r := Purchased(t);
    }
  }

  // ======================= GET /transactions =======================

  const OwnerHeader: string := "OwnerPC"
  const OwnerValue: string := "LovesPetsL2M3n4"

  datatype QueryValue = QInt(n: int) | QStr(s: string)

  /** The filter `list_transactions` builds: `store` read as an integer (or dropped), the rest verbatim. */
  function QueryOf(args: map<string, string>): map<string, QueryValue> {
    map k | k in args && (k != "store" || ParseInt(args[k]).Some?) ::
      if k == "store" then QInt(ParseInt(args[k]).value) else QStr(args[k])
  }

  /** The query loop of `list_transactions`, one argument at a time. */
  method BuildQuery(args: map<string, string>) returns (query: map<string, QueryValue>)
    ensures query == QueryOf(args)
  {
    query := map[];
    var remaining := args.Keys;
    while remaining != {}
      invariant remaining <= args.Keys
      invariant forall k :: k in query <==> k in args && k !in remaining && (k != "store" || ParseInt(args[k]).Some?)
      invariant forall k :: k in query ==> query[k] == QueryOf(args)[k]
      decreases |remaining|
    {
      var k :| k in remaining;
      if k == "store" {
        var n := ParseInt(args[k]);
        if n.Some? {
          query := query[k := QInt(n.value)];
        }
      } else {
        query := query[k := QStr(args[k])];
      }
      remaining := remaining - {k};
    }
  }

  /** Whether a stored document has this field with this value; no document has any other field. */
  predicate FieldMatches(t: Transaction, key: string, v: QueryValue) {
    if key == "purchaser" then v == QStr(t.purchaser)
    else if key == "pet-type" then v == QStr(t.petType)
    else if key == "store" then v == QInt(t.store)
    else if key == "pet-name" then v == QStr(t.petName)
    else if key == "purchase-id" then v == QStr(t.purchaseId)
    else false
  }

  predicate Matches(t: Transaction, query: map<string, QueryValue>) {
    forall k :: k in query ==> FieldMatches(t, k, query[k])
  }

  /** `find(query)`: the matching transactions, in ledger order. */
  function Select(ts: seq<Transaction>, query: map<string, QueryValue>): (r: seq<Transaction>)
    ensures |r| <= |ts|
    ensures forall t :: t in r <==> t in ts && Matches(t, query)
  {
    if ts == [] then []
    else if Matches(ts[0], query) then [ts[0]] + Select(ts[1..], query)
    else Select(ts[1..], query)
  }

  datatype ListResult = Listed(ts: seq<Transaction>) | Unauthorized

  /** `list_transactions`: 401 unless the owner header carries the secret. */
  method ListTransactions(ledger: Ledger, header: Option<string>, args: map<string, string>) returns (r: ListResult)
    ensures r == Unauthorized <==> header != Some(OwnerValue)
    ensures r.Listed? ==> r.ts == Select(ledger.transactions, QueryOf(args))
  {
    if header != Some(OwnerValue) {
      return Unauthorized;
    }
    var query := BuildQuery(args);
    r := Listed(Select(ledger.transactions, query));
  }

  // ----- what the query promises -----

  /** A `store` argument that is not an integer filters nothing. */
  lemma NonNumericStoreDropped(args: map<string, string>)
    requires "store" in args && ParseInt(args["store"]).None?
    ensures QueryOf(args) == QueryOf(args - {"store"})
  {
  }

  /** Any argument other than the five fields leaves nothing listed. */
  lemma UnknownFieldSelectsNothing(ts: seq<Transaction>, args: map<string, string>, k: string)
    requires k in args && k !in {"purchaser", "pet-type", "store", "pet-name", "purchase-id"}
    ensures Select(ts, QueryOf(args)) == []
  {
    assert k in QueryOf(args);
  }

  /** Appending a transaction extends every listing it matches by it, at the end, and no other. */
  lemma {:induction false} SelectAppend(ts: seq<Transaction>, t: Transaction, query: map<string, QueryValue>)
    ensures Select(ts + [t], query) == Select(ts, query) + (if Matches(t, query) then [t] else [])
  {
    if ts == [] {
      assert [] + [t] == [t];
    } else {
      assert (ts + [t])[1..] == ts[1..] + [t];
      SelectAppend(ts[1..], t, query);
    }
  }

  /** Adding arguments only narrows a listing, and keeps its order. */
  lemma {:induction false} SelectNarrows(ts: seq<Transaction>, q: map<string, QueryValue>, q2: map<string, QueryValue>)
    requires forall k :: k in q ==> k in q2 && q2[k] == q[k]
    ensures forall t :: t in Select(ts, q2) ==> t in Select(ts, q)
    ensures |Select(ts, q2)| <= |Select(ts, q)|
  {
    if ts != [] {
      SelectNarrows(ts[1..], q, q2);
    }
  }

  /** A query no transaction matches lists nothing. */
  lemma {:induction false} SelectNone(ts: seq<Transaction>, q: map<string, QueryValue>)
    requires forall u :: u in ts ==> !Matches(u, q)
    ensures Select(ts, q) == []
  {
    if ts != [] {
      SelectNone(ts[1..], q);
    }
  }

  /** After a purchase, its id lists exactly its transaction. */
  lemma PurchaseListedById(ts: seq<Transaction>, t: Transaction)
    requires forall u :: u in ts ==> u.purchaseId != t.purchaseId
    ensures Select(ts + [t], QueryOf(map["purchase-id" := t.purchaseId])) == [t]
  {
    var q := QueryOf(map["purchase-id" := t.purchaseId]);
    assert q.Keys == {"purchase-id"} && q["purchase-id"] == QStr(t.purchaseId);
    SelectAppend(ts, t, q);
    SelectNone(ts, q);
  }
}
