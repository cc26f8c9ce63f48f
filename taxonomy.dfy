/**
 * `fetch_pet_type_data`: a species name becomes its family, genus, attribute
 * words and shortest lifespan, from a fixed table of four species or from the
 * upstream animals service, whose response is an input here.
 */
module Taxonomy {
  import opened Wrappers
  import opened Text
  import Json
  import Attributes

  /**
   * One entry of the upstream list: its `name`, the `taxonomy` fields and the
   * `characteristics` fields the client reads. None is an absent (or null) field.
   */
  datatype Entry = Entry(
    name: Option<string>, family: Option<string>, genus: Option<string>,
    temperament: Option<string>, groupBehavior: Option<string>, lifespan: Json.Value)

  /** What the upstream call gave: a status and the entries of the body, or an exception. */
  datatype Upstream = Reply(status: int, entries: seq<Entry>) | Unreachable

  /** The four fields a pet-type record takes from the taxonomy. */
  datatype Info = Info(family: string, genus: string, attributes: seq<string>, lifespan: Option<int>)

  /** The result, with `NinjaNotFound`, `NinjaApiError` and any other exception as values. */
  datatype Outcome = Found(info: Info) | NotFound | ApiError(status: int) | CallFailed

  /** The fixed answers for four species, keyed by stripped lower-case name. */
  function Canned(key: string): Option<Info> {
    if key == "golden retriever" then Some(Info("Canidae", "Canis", [], Some(12)))
    else if key == "australian shepherd" then
      Some(Info("Canidae", "Canis", ["Loyal", "outgoing", "and", "friendly"], Some(15)))
    else if key == "abyssinian" then Some(Info("Felidae", "Felis", ["Intelligent", "and", "curious"], Some(13)))
    else if key == "bulldog" then Some(Info("Canidae", "Canis", ["Gentle", "calm", "and", "affectionate"], None))
    else None
  }

  /** `entry.get("name", "")`. */
  function EntryName(e: Entry): string {
    if e.name.Some? then e.name.value else ""
  }

  // ----- lifespan: the smallest number written in the string -----

  /** The length of the run of decimal digits that starts `s`. */
  function LeadingDigits(s: string): (n: nat)
    ensures n <= |s| && AllDigits(s[..n])
    ensures n < |s| ==> !IsDigit(s[n])
  {
    if s == [] || !IsDigit(s[0]) then 0
    else
      var n := 1 + LeadingDigits(s[1..]);
      assert s[..n] == [s[0]] + s[1..][..n - 1];
      n
  }

  /** `[int(n) for n in re.findall(r"\d+", s)]`: the values of the maximal digit runs, in order. */
  function DigitRuns(s: string): seq<nat>
    decreases |s|
  {
    if s == [] then []
    else if !IsDigit(s[0]) then DigitRuns(s[1..])
    else
      var n := LeadingDigits(s);
      [DigitsValue(s[..n])] + DigitRuns(s[n..])
  }

  predicate NoDigit(s: string) {
    forall i :: 0 <= i < |s| ==> !IsDigit(s[i])
  }

  /** `findall` finds nothing exactly when the string has no digit. */
  lemma {:induction false} DigitRunsEmpty(s: string)
    ensures DigitRuns(s) == [] <==> NoDigit(s)
    decreases |s|
  {
    if s != [] && !IsDigit(s[0]) {
      DigitRunsEmpty(s[1..]);
      assert forall i :: 1 <= i < |s| ==> s[i] == s[1..][i - 1];
    }
  }

  /** `min(...)` of a non-empty list. */
  function MinOf(xs: seq<nat>): (m: nat)
    requires xs != []
    ensures m in xs && forall x :: x in xs ==> m <= x
  {
    if |xs| == 1 then xs[0]
    else
      var m := MinOf(xs[1..]);
      assert forall x :: x in xs ==> x == xs[0] || x in xs[1..];
      if xs[0] <= m then xs[0] else m
  }

  /** The `lifespan` field: None unless it is a string with a digit; then its smallest number. */
  function LifespanOf(v: Json.Value): (r: Option<int>)
    ensures r.None? <==> !v.Str? || NoDigit(v.s)
    ensures r.Some? ==> r.value in DigitRuns(v.s) && forall x :: x in DigitRuns(v.s) ==> r.value <= x
  {
    match v
    case Str(s) =>
      DigitRunsEmpty(s);
      var runs := DigitRuns(s);
      if runs == [] then None else Some(MinOf(runs))
    case _ => None
  }

  /** The digit run at the front of `a + rest` is exactly `a`. */
  lemma {:induction false} LeadingDigitsOf(a: string, rest: string)
    requires AllDigits(a) && (rest == [] || !IsDigit(rest[0]))
    ensures LeadingDigits(a + rest) == |a|
  {
    if a != [] {
      LeadingDigitsOf(a[1..], rest);
      assert (a + rest)[1..] == a[1..] + rest;
    }
  }

  /** A run of digits followed by a non-digit or the end is one number, and the search goes on after it. */
  lemma RunsOfNumeral(a: string, rest: string)
    requires a != [] && AllDigits(a) && (rest == [] || !IsDigit(rest[0]))
    ensures DigitRuns(a + rest) == [DigitsValue(a)] + DigitRuns(rest)
  {
    LeadingDigitsOf(a, rest);
    var s := a + rest;
    assert s[..|a|] == a;
    assert s[|a|..] == rest;
  }

  /** A character that is not a digit is passed over. */
  lemma RunsSkip(c: char, rest: string)
    requires !IsDigit(c)
    ensures DigitRuns([c] + rest) == DigitRuns(rest)
  {
    assert ([c] + rest)[1..] == rest;
  }

  /** The two numbers of "lo-hi", in order. */
  lemma RangeRuns(a: string, sep: char, b: string)
    requires a != [] && AllDigits(a) && b != [] && AllDigits(b) && !IsDigit(sep)
    ensures DigitRuns(a + [sep] + b) == [DigitsValue(a), DigitsValue(b)]
  {
    var t := [sep] + b;
    assert a + [sep] + b == a + t;
    RunsOfNumeral(a, t);
    RunsSkip(sep, b);
    RunsOfNumeral(b, []);
    assert b + [] == b;
  }

  /** A lifespan written "lo-hi", with any separator that is not a digit, is the smaller bound. */
  lemma LifespanOfRange(lo: nat, hi: nat, sep: char, s: string)
    requires !IsDigit(sep) && s == NatToString(lo) + [sep] + NatToString(hi)
    ensures LifespanOf(Json.Str(s)) == Some(if lo <= hi then lo else hi)
  {
    DigitsValueOfNatToString(lo);
    DigitsValueOfNatToString(hi);
    RangeRuns(NatToString(lo), sep, NatToString(hi));
    assert MinOf([lo, hi]) == if lo <= hi then lo else hi;
  }

  // ----- attributes -----

  /** Temperament when it is non-empty, else group behaviour when that is, else nothing. */
  function AttributeText(e: Entry): Option<string> {
    if e.temperament.Some? && e.temperament.value != "" then e.temperament
    else if e.groupBehavior.Some? && e.groupBehavior.value != "" then e.groupBehavior
    else None
  }

  /** The record built from the chosen entry; absent taxonomy fields read as "". */
  function Extract(e: Entry): (info: Info)
    ensures forall w :: w in info.attributes ==> Attributes.IsWord(w)
  {
    Info(
      if e.family.Some? then e.family.value else "",
      if e.genus.Some? then e.genus.value else "",
      Attributes.TemperamentToAttributes(AttributeText(e)),
      LifespanOf(e.lifespan))
  }

  /** The whole of `fetch_pet_type_data`, as one value. */
  function Resolve(typeName: string, upstream: Upstream): Outcome {
    var key := Lower(Strip(typeName));
    if Canned(key).Some? then Found(Canned(key).value)
    else match upstream
      case Unreachable => CallFailed
      case Reply(status, entries) =>
        if status == 400 then NotFound
        else if status != 200 then ApiError(status)
        else match FirstCaseless(entries, EntryName, typeName)
          case None => NotFound
          case Some(i) => Found(Extract(entries[i]))
  }

  /** The loop that picks the first entry whose name matches, ignoring case. */
  method ChooseEntry(entries: seq<Entry>, typeName: string) returns (chosen: Option<Entry>)
    ensures chosen.None? <==> FirstCaseless(entries, EntryName, typeName).None?
    ensures chosen.Some? ==> chosen.value == entries[FirstCaseless(entries, EntryName, typeName).value]
  {
    chosen := None;
    var i := 0;
    while i < |entries|
      invariant 0 <= i <= |entries|
      invariant forall j :: 0 <= j < i ==> Lower(EntryName(entries[j])) != Lower(typeName)
    {
      if Lower(EntryName(entries[i])) == Lower(typeName) {
        chosen := Some(entries[i]);
        return;
      }
      i := i + 1;
    }
  }

  /** `fetch_pet_type_data`, step by step. */
  method FetchPetTypeData(typeName: string, upstream: Upstream) returns (r: Outcome)
    ensures r == Resolve(typeName, upstream)
  {
    var key := Lower(Strip(typeName));
    var canned := Canned(key);
    if canned.Some? {
      return Found(canned.value);
    }
    if upstream.Unreachable? {
      return CallFailed;
    }
    if upstream.status == 400 {
      return NotFound;
    } else if upstream.status != 200 {
      return ApiError(upstream.status);
    }
    var chosen := ChooseEntry(upstream.entries, typeName);
    if chosen.None? {
      return NotFound;
    }
    r := Found(Extract(chosen.value));
  }

  // ----- what the client promises -----

  /** A name in the table, once stripped and lower-cased, never reaches upstream. */
  lemma CannedBypassesUpstream(typeName: string, u1: Upstream, u2: Upstream)
    requires Canned(Lower(Strip(typeName))).Some?
    ensures Resolve(typeName, u1) == Resolve(typeName, u2) == Found(Canned(Lower(Strip(typeName))).value)
  {
  }

  /** Off the table, 400 means the species is unknown and any other non-200 an upstream error. */
  lemma StatusClassified(typeName: string, status: int, entries: seq<Entry>)
    requires Canned(Lower(Strip(typeName))).None? && status != 200
    ensures status == 400 ==> Resolve(typeName, Reply(status, entries)) == NotFound
    ensures status != 400 ==> Resolve(typeName, Reply(status, entries)) == ApiError(status)
  {
  }

  /**
   * On a 200 answer the record comes from the first entry whose name matches the
   * request ignoring case (the request is not stripped for this); with none, NotFound.
   */
  lemma FirstMatchChosen(typeName: string, entries: seq<Entry>, i: nat)
    requires Canned(Lower(Strip(typeName))).None?
    requires i < |entries| && Lower(EntryName(entries[i])) == Lower(typeName)
    requires forall j :: 0 <= j < i ==> Lower(EntryName(entries[j])) != Lower(typeName)
    ensures Resolve(typeName, Reply(200, entries)) == Found(Extract(entries[i]))
  {
    FirstCaselessAt(entries, EntryName, typeName, i);
    assert Resolve(typeName, Reply(200, entries)) == Found(Extract(entries[i]));
  }

  lemma NoMatchNotFound(typeName: string, entries: seq<Entry>)
    requires Canned(Lower(Strip(typeName))).None?
    requires forall j :: 0 <= j < |entries| ==> Lower(EntryName(entries[j])) != Lower(typeName)
    ensures Resolve(typeName, Reply(200, entries)) == NotFound
  {
  }

  /**
   * The record built from an entry: "" for a missing family or genus, attributes from
   * the temperament when it is non-empty, else from the group behaviour, else none,
   * and the lifespan from the `lifespan` string.
   */
  lemma ExtractFields(e: Entry)
    ensures e.family.None? ==> Extract(e).family == ""
    ensures e.genus.None? ==> Extract(e).genus == ""
    ensures e.temperament.Some? && e.temperament.value != "" ==>
      Extract(e).attributes == Attributes.TemperamentToAttributes(e.temperament)
    ensures (e.temperament.None? || e.temperament.value == "") && e.groupBehavior.Some? ==>
      Extract(e).attributes == Attributes.TemperamentToAttributes(e.groupBehavior)
    ensures (e.temperament.None? || e.temperament.value == "") && e.groupBehavior.None? ==>
      Extract(e).attributes == []
    ensures Extract(e).lifespan == LifespanOf(e.lifespan)
  {
  }

  /** The key of an already stripped, lower-case name is the name itself. */
  lemma KeyOfPlainName(name: string)
    requires name != [] && !IsSpace(name[0]) && !IsSpace(name[|name| - 1])
    requires forall i :: 0 <= i < |name| ==> !IsUpper(name[i])
    ensures Lower(Strip(name)) == name
  {
    StripUnspaced(name);
    LowerOfLowercase(name);
  }

  /**
   * The Australian Shepherd record, however the name is spaced or capitalised
   * and whatever upstream would say; its attribute list is the table's own,
   * capital letter included.
   */
  lemma AustralianShepherd(typeName: string, u: Upstream)
    requires Lower(Strip(typeName)) == "australian shepherd"
    ensures Resolve(typeName, u)
      == Found(Info("Canidae", "Canis", ["Loyal", "outgoing", "and", "friendly"], Some(15)))
  {
  }
}
