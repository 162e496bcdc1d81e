/**
 * The entity-information refresher: one `information` row is refreshed from
 * ESI, and the answer decides what is written back to the row and which
 * referenced entities are queued for their own refresh.
 *
 * A row is a document: an ordered list of fields.  The HTTP answer is an
 * input value, `now` is `Math.floor(Date.now() / 1000)` and `appNow` is
 * `app.now()`; the collection is a sequence of rows.
 */
module UpdateInformation {
  import opened Common
  import opened JsValue

  type Row = seq<(string, Js)>

  /**
   * The lookup tables `adds`, `maps` and `urls` and the structures template.
   * The operations take them as a parameter, so that their properties hold
   * for any tables; `EsiTables.Esi` holds the ones the job uses.
   */
  datatype Tables = Tables(addKeys: seq<string>, maps: seq<(string, string)>, urls: seq<(string, string)>, structure: string)

  /** Seconds a transient failure shaves off a full day: the row is retried after 300 s. */
  const RetryOffset: int := 86100
  const Day: int := 86400

  // ---------------------------------------------------------------------
  // URL choice
  // ---------------------------------------------------------------------

  predicate IsStructure(row: Row) {
    Get(Obj(row), "type") == Str("location_id") && Get(Obj(row), "id").Num? && Get(Obj(row), "id").n > 69999999
  }

  /** The request URL; `None` when `urls[row.type]` is undefined (the `.replace` throws). */
  function UrlFor(t: Tables, esiUrl: string, row: Row): Option<string> {
    var id := ToString(Get(Obj(row), "id"));
    if IsStructure(row) then Some(esiUrl + ReplaceFirst(t.structure, ":id", id))
    else
      match Lookup(t.urls, ToString(Get(Obj(row), "type")))
      case Some(tpl) => Some(esiUrl + ReplaceFirst(tpl, ":id", id))
      case None => None
  }

  /**
   * Location ids above 69999999 use the structures endpoint, with the id
   * written in place of `:id`; any other row whose type has no template has
   * no URL.
   */
  lemma UrlChoice(t: Tables, esiUrl: string, row: Row, p: string)
    requires t.structure == p + ":id/" && ':' !in p
    ensures IsStructure(row) ==> UrlFor(t, esiUrl, row) == Some(esiUrl + p + ToString(Get(Obj(row), "id")) + "/")
    ensures !IsStructure(row) && !HasKey(t.urls, ToString(Get(Obj(row), "type"))) ==> UrlFor(t, esiUrl, row) == None
  {
    if IsStructure(row) {
      var id := ToString(Get(Obj(row), "id"));
      assert p + ":id/" == p + ":id" + "/";
      ReplaceFirstAt(p, ":id", "/", id);
      assert esiUrl + (p + id + "/") == esiUrl + p + id + "/";
    }
  }

  /** A template `p + ":id/"` whose path `p` has no `:` gets the id in place of `:id`. */
  lemma TemplateFill(t: Tables, esiUrl: string, row: Row, p: string)
    requires !IsStructure(row)
    requires Lookup(t.urls, ToString(Get(Obj(row), "type"))) == Some(p + ":id/") && ':' !in p
    ensures UrlFor(t, esiUrl, row) == Some(esiUrl + p + ToString(Get(Obj(row), "id")) + "/")
  {
    var id := ToString(Get(Obj(row), "id"));
    assert p + ":id/" == p + ":id" + "/";
    ReplaceFirstAt(p, ":id", "/", id);
    assert esiUrl + (p + id + "/") == esiUrl + p + id + "/";
  }

  // ---------------------------------------------------------------------
  // Referenced entities
  // ---------------------------------------------------------------------

  /** `maps[key] || key` */
  function MappedType(t: Tables, key: string): (r: string)
    ensures HasKey(t.maps, key) ==> Some(r) == Lookup(t.maps, key)
    ensures !HasKey(t.maps, key) ==> r == key
  {
    match Lookup(t.maps, key)
    case Some(r) => r
    case None => key
  }

  datatype EntityAdd = EntityAdd(entityType: string, value: Js)

  /** The adds for one body key: one per array element, else one for the value. */
  function AddsFor(t: Tables, key: string, value: Js): seq<EntityAdd> {
    if key !in t.addKeys then []
    else if value.Arr? then AddEach(MappedType(t, key), value.elems)
    else [EntityAdd(MappedType(t, key), value)]
  }

  /** `for (let v of value) entity.add(type, v)` */
  function AddEach(entityType: string, elems: seq<Js>): (r: seq<EntityAdd>)
    ensures |r| == |elems|
    ensures forall i :: 0 <= i < |elems| ==> r[i] == EntityAdd(entityType, elems[i])
  {
    if elems == [] then [] else [EntityAdd(entityType, elems[0])] + AddEach(entityType, elems[1..])
  }

  /** The adds issued for `keys` (the body's keys, in order). */
  function ExpectedAdds(t: Tables, body: Js, keys: seq<string>): seq<EntityAdd> {
    if keys == [] then [] else AddsFor(t, keys[0], Get(body, keys[0])) + ExpectedAdds(t, body, keys[1..])
  }

  /**
   * Every add comes from a listed key of the body, with type `maps[key] || key`
   * and either the key's value or an element of it when it is an array.
   */
  lemma {:induction false} AddsComeFromKeys(t: Tables, body: Js, keys: seq<string>, a: EntityAdd)
    requires a in ExpectedAdds(t, body, keys)
    ensures exists j :: 0 <= j < |keys| && keys[j] in t.addKeys && a.entityType == MappedType(t, keys[j]) &&
              var v := Get(body, keys[j]);
              if v.Arr? then a.value in v.elems else a.value == v
  {
    if a in AddsFor(t, keys[0], Get(body, keys[0])) {
      var v := Get(body, keys[0]);
      if v.Arr? {
        var i :| 0 <= i < |v.elems| && AddsFor(t, keys[0], v)[i] == a;
      }
    } else {
      AddsComeFromKeys(t, body, keys[1..], a);
      var j :| 0 <= j < |keys[1..]| && keys[1..][j] in t.addKeys && a.entityType == MappedType(t, keys[1..][j]) &&
               var v := Get(body, keys[1..][j]);
               if v.Arr? then a.value in v.elems else a.value == v;
      assert keys[j + 1] == keys[1..][j];
    }
  }

  /** Conversely a listed key yields an add of its type for its value, or for each element of an array. */
  lemma {:induction false} KeysYieldAdds(t: Tables, body: Js, keys: seq<string>, j: nat)
    requires j < |keys| && keys[j] in t.addKeys
    ensures var v := Get(body, keys[j]);
            if v.Arr? then forall e :: e in v.elems ==> EntityAdd(MappedType(t, keys[j]), e) in ExpectedAdds(t, body, keys)
            else EntityAdd(MappedType(t, keys[j]), v) in ExpectedAdds(t, body, keys)
  {
    var v := Get(body, keys[j]);
    if j == 0 {
      if v.Arr? {
        forall e | e in v.elems
          ensures EntityAdd(MappedType(t, keys[0]), e) in ExpectedAdds(t, body, keys)
        {
          var i :| 0 <= i < |v.elems| && v.elems[i] == e;
          assert AddsFor(t, keys[0], v)[i] == EntityAdd(MappedType(t, keys[0]), e);
        }
      } else {
        assert AddsFor(t, keys[0], v)[0] == EntityAdd(MappedType(t, keys[0]), v);
      }
    } else {
      KeysYieldAdds(t, body, keys[1..], j - 1);
      assert keys[1..][j - 1] == keys[j];
    }
  }

  /** The add loop: `for (let key of Object.keys(body))`. */
  method IssueAdds(t: Tables, body: Js, keys: seq<string>) returns (adds: seq<EntityAdd>)
    ensures adds == ExpectedAdds(t, body, keys)
  {
    adds := [];
    for k := 0 to |keys|
      invariant adds + ExpectedAdds(t, body, keys[k..]) == ExpectedAdds(t, body, keys)
    {
      var more := AddsForKey(t, keys[k], Get(body, keys[k]));
      IssueStep(t, body, keys, k, adds, more);
      adds := adds + more;
    }
  }

  /** One round of the add loop keeps the issued adds a prefix of the expected ones. */
  lemma IssueStep(t: Tables, body: Js, keys: seq<string>, k: nat, adds: seq<EntityAdd>, more: seq<EntityAdd>)
    requires k < |keys| && more == AddsFor(t, keys[k], Get(body, keys[k]))
    requires adds + ExpectedAdds(t, body, keys[k..]) == ExpectedAdds(t, body, keys)
    ensures (adds + more) + ExpectedAdds(t, body, keys[k + 1..]) == ExpectedAdds(t, body, keys)
  {
    ExpectedAddsUnfold(t, body, keys, k);
    AppendAssoc(adds, more, ExpectedAdds(t, body, keys[k + 1..]));
  }

  lemma AppendAssoc<T>(a: seq<T>, b: seq<T>, c: seq<T>)
    ensures (a + b) + c == a + (b + c)
  {
  }

  lemma ExpectedAddsUnfold(t: Tables, body: Js, keys: seq<string>, k: nat)
    requires k < |keys|
    ensures ExpectedAdds(t, body, keys[k..]) == AddsFor(t, keys[k], Get(body, keys[k])) + ExpectedAdds(t, body, keys[k + 1..])
  {
    assert keys[k..][1..] == keys[k + 1..];
  }

  /** One key's adds: one `entity.add` per element of an array value, else one. */
  method AddsForKey(t: Tables, key: string, value: Js) returns (adds: seq<EntityAdd>)
    ensures adds == AddsFor(t, key, value)
  {
    adds := [];
    if key in t.addKeys {
      var entityType := MappedType(t, key);
      if value.Arr? {
        for e := 0 to |value.elems|
          invariant |adds| == e
          invariant forall i :: 0 <= i < e ==> adds[i] == EntityAdd(entityType, value.elems[i])
        {
          adds := adds + [EntityAdd(entityType, value.elems[e])];
        }
      } else {
        adds := [EntityAdd(entityType, value)];
      }
    }
  }

  // ---------------------------------------------------------------------
  // The 200 body
  // ---------------------------------------------------------------------

  /** `x || 0` on a number field; a non-number counts as 0. */
  function KillCount(j: Js): int {
    if j.Num? then j.n else 0
  }

  predicate IsPlayerEntity(row: Row) {
    Get(Obj(row), "type") in [Str("character_id"), Str("corporation_id"), Str("alliance_id")]
  }

  /** `body.inactive = false; body.last_updated = now; body.waiting = false` */
  function Stamp(body: Row, now: int): Row {
    Set(Set(Set(body, "inactive", Bool(false)), "last_updated", Num(now)), "waiting", Bool(false))
  }

  lemma StampWrites(body: Row, now: int)
    ensures Get(Obj(Stamp(body, now)), "inactive") == Bool(false) && Get(Obj(Stamp(body, now)), "last_updated") == Num(now)
    ensures Get(Obj(Stamp(body, now)), "waiting") == Bool(false)
  {
  }

  lemma StampKeeps(body: Row, now: int, k: string)
    requires k != "inactive" && k != "last_updated" && k != "waiting"
    ensures Get(Obj(Stamp(body, now)), k) == Get(Obj(body), k)
  {
  }

  /** `(body.aggressor.ships_killed || 0) + (body.defender.ships_killed || 0)` */
  function WarTotal(body: Row): int {
    KillCount(Get(Get(Obj(body), "aggressor"), "ships_killed")) + KillCount(Get(Get(Obj(body), "defender"), "ships_killed"))
  }

  /** The war kill-total check, or the search-name flag for every other type. */
  function Flag(row: Row, b: Row): Row {
    if Get(Obj(row), "type") == Str("war_id") then
      if KillCount(Get(Obj(row), "total_kills")) != WarTotal(b)
      then Set(Set(b, "total_kills", Num(WarTotal(b))), "check_wars", Bool(true))
      else b
    else Set(b, "update_search", Bool(true))
  }

  lemma FlagWrites(row: Row, b: Row)
    ensures Get(Obj(row), "type") != Str("war_id") ==> Get(Obj(Flag(row, b)), "update_search") == Bool(true)
    ensures Get(Obj(row), "type") == Str("war_id") && KillCount(Get(Obj(row), "total_kills")) != WarTotal(b) ==>
              Get(Obj(Flag(row, b)), "check_wars") == Bool(true) && Get(Obj(Flag(row, b)), "total_kills") == Num(WarTotal(b))
    ensures Get(Obj(row), "type") == Str("war_id") && KillCount(Get(Obj(row), "total_kills")) == WarTotal(b) ==> Flag(row, b) == b
  {
  }

  lemma FlagKeeps(row: Row, b: Row, k: string)
    requires k != "update_search" && k != "check_wars" && k != "total_kills"
    ensures Get(Obj(Flag(row, b)), k) == Get(Obj(b), k)
  {
  }

  /** `body.alliance_id = body.alliance_id || 0; body.faction_id = body.faction_id || 0` for player entities. */
  function PlayerFill(row: Row, b: Row): Row {
    if IsPlayerEntity(row)
    then Set(Set(b, "alliance_id", Or(Get(Obj(b), "alliance_id"), Num(0))), "faction_id", Or(Get(Obj(b), "faction_id"), Num(0)))
    else b
  }

  lemma PlayerFillWrites(row: Row, b: Row)
    ensures IsPlayerEntity(row) ==>
              Get(Obj(PlayerFill(row, b)), "alliance_id") == Or(Get(Obj(b), "alliance_id"), Num(0)) &&
              Get(Obj(PlayerFill(row, b)), "faction_id") == Or(Get(Obj(b), "faction_id"), Num(0))
    ensures !IsPlayerEntity(row) ==> PlayerFill(row, b) == b
  {
  }

  lemma PlayerFillKeeps(row: Row, b: Row, k: string)
    requires k != "alliance_id" && k != "faction_id"
    ensures Get(Obj(PlayerFill(row, b)), k) == Get(Obj(b), k)
  {
  }

  /** `body.type = row.type; body.id = row.id` */
  function SetIdentity(row: Row, b: Row): Row {
    Set(Set(b, "type", Get(Obj(row), "type")), "id", Get(Obj(row), "id"))
  }

  lemma SetIdentityWrites(row: Row, b: Row)
    ensures Get(Obj(SetIdentity(row, b)), "type") == Get(Obj(row), "type") && Get(Obj(SetIdentity(row, b)), "id") == Get(Obj(row), "id")
  {
  }

  lemma SetIdentityKeeps(row: Row, b: Row, k: string)
    requires k != "type" && k != "id"
    ensures Get(Obj(SetIdentity(row, b)), k) == Get(Obj(b), k)
  {
  }

  /** Whether a location's answer without a name would overwrite the name the row has. */
  predicate NameGuard(row: Row, b: Row) {
    Get(Obj(row), "type") == Str("location_id") && IsNullish(Get(Obj(b), "name")) && !IsNullish(Get(Obj(row), "name"))
  }

  /** `delete body.name` under the guard. */
  function KeepName(row: Row, b: Row): Row {
    if NameGuard(row, b) then Remove(b, "name") else b
  }

  lemma KeepNameWrites(row: Row, b: Row)
    ensures NameGuard(row, b) ==> !Has(Obj(KeepName(row, b)), "name")
    ensures !NameGuard(row, b) ==> KeepName(row, b) == b
  {
  }

  lemma KeepNameKeeps(row: Row, b: Row, k: string)
    requires k != "name"
    ensures Get(Obj(KeepName(row, b)), k) == Get(Obj(b), k)
  {
  }

  /** The steps after the war check leave every other key alone. */
  lemma LaterKeeps(row: Row, b: Row, k: string)
    requires k != "alliance_id" && k != "faction_id" && k != "type" && k != "id" && k != "name"
    ensures Get(Obj(KeepName(row, SetIdentity(row, PlayerFill(row, b)))), k) == Get(Obj(b), k)
  {
    PlayerFillKeeps(row, b, k);
    SetIdentityKeeps(row, PlayerFill(row, b), k);
    KeepNameKeeps(row, SetIdentity(row, PlayerFill(row, b)), k);
  }

  /**
   * The body as written back after a 200, or `None` when it throws: a war
   * whose `aggressor` or `defender` is missing.
   */
  function NormaliseBody(row: Row, body: Row, now: int): Option<Row> {
    var b1 := Stamp(body, now);
    if Get(Obj(row), "type") == Str("war_id") && (IsNullish(Get(Obj(b1), "aggressor")) || IsNullish(Get(Obj(b1), "defender")))
    then None
    else Some(KeepName(row, SetIdentity(row, PlayerFill(row, Flag(row, b1)))))
  }

  // ---------------------------------------------------------------------
  // Status dispatch
  // ---------------------------------------------------------------------

  /** What `phin` gave: it threw, or a status (None: undefined) and a body (None: not JSON). */
  datatype HttpOutcome = Threw | Answer(status: Option<int>, body: Option<Js>)

  /** The `updateOne` writes `fetch` makes, one variant per call site. */
  datatype Write =
    | Touch(at: int)                        // `$set: {last_updated: at}`
    | RetryLater(appNow: int)               // `$set: {last_updated: app.now() - 86100}`
    | WriteBody(fields: Row)                // `$set: body`
    | NotFound(character: bool, now: int, appNow: int)
    | NameStructure(name: string, appNow: int)

  datatype FetchResult = FetchResult(url: Option<string>, write: Option<Write>, adds: seq<EntityAdd>)

  /** `findOne({type: 'solar_system_id', id})`: the first matching row. */
  function FindSystem(info: seq<Row>, id: Js): Option<Row> {
    if info == [] then None
    else if Get(Obj(info[0]), "type") == Str("solar_system_id") && Get(Obj(info[0]), "id") == id then Some(info[0])
    else FindSystem(info[1..], id)
  }

  /** `(system && system.name ? system.name : row.solar_system_id) + ' Structure'` */
  function StructureName(info: seq<Row>, row: Row): string {
    var system := FindSystem(info, Get(Obj(row), "solar_system_id"));
    var base :=
      if system.Some? && Truthy(Get(Obj(system.value), "name")) then Get(Obj(system.value), "name")
      else Get(Obj(row), "solar_system_id");
    ToString(base) + " Structure"
  }

  predicate IsTransient(status: Option<int>) {
    status.None? || status.value in {401, 420, 500, 502, 503, 504}
  }

  /** `fetch(app, row)` on the answer `outcome`. */
  function FetchSpec(t: Tables, info: seq<Row>, row: Row, esiUrl: string, now: int, appNow: int, outcome: HttpOutcome): FetchResult {
    if Get(Obj(row), "no_fetch") == Bool(true) then FetchResult(None, Some(Touch(now)), [])
    else
      match UrlFor(t, esiUrl, row)
      case None => FetchResult(None, Some(RetryLater(appNow)), [])
      case Some(url) =>
        match outcome
        case Threw => FetchResult(Some(url), Some(RetryLater(appNow)), [])
        case Answer(status, body) =>
          if status == Some(200) then
            if body.None? || !body.value.Obj? then FetchResult(Some(url), Some(RetryLater(appNow)), [])
            else BodyResult(t, row, url, body.value.fields, now, appNow)
          else FetchResult(Some(url), StatusWrite(info, row, now, appNow, status), [])
  }

  /** A 200 with an object body: write the normalised body and add what it references. */
  function BodyResult(t: Tables, row: Row, url: string, body: Row, now: int, appNow: int): FetchResult {
    match NormaliseBody(row, body, now)
    case None => FetchResult(Some(url), Some(RetryLater(appNow)), [])
    case Some(b) => FetchResult(Some(url), Some(WriteBody(b)), ExpectedAdds(t, Obj(b), KeysOf(b)))
  }

  /** The write for an answer other than 200. */
  function StatusWrite(info: seq<Row>, row: Row, now: int, appNow: int, status: Option<int>): Option<Write> {
    if status == Some(304) then Some(Touch(now))
    else if status == Some(404) then Some(NotFound(Get(Obj(row), "type") == Str("character_id"), now, appNow))
    else if status == Some(400) then None
    else if IsTransient(status) then
      if Get(Obj(row), "type") == Str("location_id")
      then Some(NameStructure(StructureName(info, row), appNow))
      else Some(RetryLater(appNow))
    else None
  }

  /** `fetch(app, row)`: the dispatch, with the body's adds issued by the key loop. */
  method Fetch(t: Tables, info: seq<Row>, row: Row, esiUrl: string, now: int, appNow: int, outcome: HttpOutcome)
    returns (r: FetchResult)
    ensures r == FetchSpec(t, info, row, esiUrl, now, appNow, outcome)
  {
    if Get(Obj(row), "no_fetch") == Bool(true) {
      return FetchResult(None, Some(Touch(now)), []);
    }
    var url := UrlFor(t, esiUrl, row);
    if url.None? {
      return FetchResult(None, Some(RetryLater(appNow)), []);
    }
    if outcome.Threw? {
      return FetchResult(url, Some(RetryLater(appNow)), []);
    }
    if outcome.status != Some(200) {
      return FetchResult(url, StatusWrite(info, row, now, appNow, outcome.status), []);
    }
    if outcome.body.None? || !outcome.body.value.Obj? {
      return FetchResult(url, Some(RetryLater(appNow)), []);
    }
    var body := NormaliseBody(row, outcome.body.value.fields, now);
    if body.None? {
      return FetchResult(url, Some(RetryLater(appNow)), []);
    }
    var adds := IssueAdds(t, Obj(body.value), KeysOf(body.value));
    r := FetchResult(url, Some(WriteBody(body.value)), adds);
  }

  // ---------------------------------------------------------------------
  // Writes and staleness
  // ---------------------------------------------------------------------

  function SetAll(row: Row, sets: Row): Row
    decreases |sets|
  {
    if sets == [] then row else SetAll(Set(row, sets[0].0, sets[0].1), sets[1..])
  }

  /** The row after `updateOne(row, update)`. */
  function Apply(row: Row, w: Option<Write>): Row {
    match w
    case None => row
    case Some(Touch(at)) => Set(row, "last_updated", Num(at))
    case Some(RetryLater(appNow)) => Set(row, "last_updated", Num(appNow - RetryOffset))
    case Some(WriteBody(fields)) => SetAll(row, fields)
    case Some(NotFound(character, now, appNow)) => NotFoundRow(row, character, now, appNow)
    case Some(NameStructure(name, appNow)) => Set(Set(row, "name", Str(name)), "last_updated", Num(appNow))
  }

  /**
   * The 404 write: a character gets `$set: {no_fetch, update_name,
   * last_updated: app.now(), corporation_id: 1000001}` and `$unset:
   * {alliance_id, faction_id}`; anything else `$set: {no_fetch, update_name,
   * last_updated: now}`.
   */
  function NotFoundRow(row: Row, character: bool, now: int, appNow: int): Row {
    var flagged := Set(Set(row, "no_fetch", Bool(true)), "update_name", Bool(true));
    if character
    then Remove(Remove(Set(Set(flagged, "last_updated", Num(appNow)), "corporation_id", Num(1000001)), "alliance_id"), "faction_id")
    else Set(flagged, "last_updated", Num(now))
  }


  /** After `$set`, a key takes the last value set for it, or keeps its old one. */
  lemma {:induction false} SetAllGet(row: Row, sets: Row, k: string)
    ensures Get(Obj(SetAll(row, sets)), k) == if HasKey(sets, k) then LastValue(sets, k) else Get(Obj(row), k)
    decreases |sets|
  {
    if sets != [] {
      SetAllGet(Set(row, sets[0].0, sets[0].1), sets[1..], k);
      if sets[0].0 != k {
        HasKeyTail(sets, k);
      } else if !HasKey(sets[1..], k) {
        assert HasKey(sets, k);
      }
    }
  }

  /** The value of the last entry for `k`. */
  function LastValue(sets: Row, k: string): Js
    requires HasKey(sets, k)
    decreases |sets|
  {
    if HasKey(sets[1..], k) then LastValue(sets[1..], k) else sets[0].1
  }

  /** For an object's fields (distinct keys) the last value set for a key is its only one. */
  lemma {:induction false} LastValueDistinct(sets: Row, k: string)
    requires DistinctKeys(sets) && HasKey(sets, k)
    ensures LastValue(sets, k) == Get(Obj(sets), k)
    decreases |sets|
  {
    HeadNotInTail(sets);
    if HasKey(sets[1..], k) {
      LastValueDistinct(sets[1..], k);
    } else if sets[0].0 != k {
      HasKeyTail(sets, k);
    }
  }

  /** `$set` with an object: every key it has takes its value, every other key is kept. */
  lemma SetAllObject(row: Row, sets: Row, k: string)
    requires DistinctKeys(sets)
    ensures Get(Obj(SetAll(row, sets)), k) == if HasKey(sets, k) then Get(Obj(sets), k) else Get(Obj(row), k)
  {
    SetAllGet(row, sets, k);
    if HasKey(sets, k) {
      LastValueDistinct(sets, k);
    }
  }

  /** `last_updated < dayAgo` as a Mongo number comparison. */
  predicate Stale(row: Row, dayAgo: int) {
    Get(Obj(row), "last_updated").Num? && Get(Obj(row), "last_updated").n < dayAgo
  }

  // ---------------------------------------------------------------------
  // What the refresher promises
  // ---------------------------------------------------------------------

  /** Normalising a 200 body throws only for a war whose aggressor or defender is missing. */
  lemma NormaliseThrows(row: Row, body: Row, now: int)
    ensures NormaliseBody(row, body, now).None? <==>
              Get(Obj(row), "type") == Str("war_id") &&
              (IsNullish(Get(Obj(body), "aggressor")) || IsNullish(Get(Obj(body), "defender")))
  {
    StampKeeps(body, now, "aggressor");
    StampKeeps(body, now, "defender");
  }

  /** The body is written back with the row's own type and id, whatever the answer said. */
  lemma NormaliseIdentity(row: Row, body: Row, now: int)
    requires NormaliseBody(row, body, now).Some?
    ensures Get(Obj(NormaliseBody(row, body, now).value), "type") == Get(Obj(row), "type")
    ensures Get(Obj(NormaliseBody(row, body, now).value), "id") == Get(Obj(row), "id")
  {
    var b3 := PlayerFill(row, Flag(row, Stamp(body, now)));
    SetIdentityWrites(row, b3);
    KeepNameKeeps(row, SetIdentity(row, b3), "type");
    KeepNameKeeps(row, SetIdentity(row, b3), "id");
  }

  /** The body is written back marked active, not waiting and updated now. */
  lemma NormaliseStamped(row: Row, body: Row, now: int)
    requires NormaliseBody(row, body, now).Some?
    ensures var b := Obj(NormaliseBody(row, body, now).value);
            Get(b, "inactive") == Bool(false) && Get(b, "waiting") == Bool(false) && Get(b, "last_updated") == Num(now)
  {
    var b1 := Stamp(body, now);
    StampWrites(body, now);
    FlagKeeps(row, b1, "inactive");
    FlagKeeps(row, b1, "waiting");
    FlagKeeps(row, b1, "last_updated");
    LaterKeeps(row, Flag(row, b1), "inactive");
    LaterKeeps(row, Flag(row, b1), "waiting");
    LaterKeeps(row, Flag(row, b1), "last_updated");
  }

  /**
   * Wars: when the kill total changed the new total is stored and the war is
   * flagged for `check_wars`; otherwise the answer's own fields are kept.
   */
  lemma WarTotals(row: Row, body: Row, now: int)
    requires NormaliseBody(row, body, now).Some? && Get(Obj(row), "type") == Str("war_id")
    ensures var b := Obj(NormaliseBody(row, body, now).value);
            if KillCount(Get(Obj(row), "total_kills")) != WarTotal(body)
            then Get(b, "check_wars") == Bool(true) && Get(b, "total_kills") == Num(WarTotal(body))
            else Get(b, "check_wars") == Get(Obj(body), "check_wars") && Get(b, "total_kills") == Get(Obj(body), "total_kills")
  {
    var b1 := Stamp(body, now);
    StampTotal(body, now);
    FlagWrites(row, b1);
    LaterKeeps(row, Flag(row, b1), "check_wars");
    LaterKeeps(row, Flag(row, b1), "total_kills");
    if KillCount(Get(Obj(row), "total_kills")) == WarTotal(body) {
      StampKeeps(body, now, "check_wars");
      StampKeeps(body, now, "total_kills");
    }
  }

  lemma StampTotal(body: Row, now: int)
    ensures WarTotal(Stamp(body, now)) == WarTotal(body)
  {
    StampKeeps(body, now, "aggressor");
    StampKeeps(body, now, "defender");
  }

  /** Every entity but a war is flagged for a search-name update. */
  lemma SearchFlagged(row: Row, body: Row, now: int)
    requires NormaliseBody(row, body, now).Some? && Get(Obj(row), "type") != Str("war_id")
    ensures Get(Obj(NormaliseBody(row, body, now).value), "update_search") == Bool(true)
  {
    FlagWrites(row, Stamp(body, now));
    LaterKeeps(row, Flag(row, Stamp(body, now)), "update_search");
  }

  /** Characters, corporations and alliances get alliance and faction 0 when the answer's are falsy. */
  lemma PlayerDefaults(row: Row, body: Row, now: int)
    requires NormaliseBody(row, body, now).Some? && IsPlayerEntity(row)
    ensures var b := Obj(NormaliseBody(row, body, now).value);
            && Get(b, "alliance_id") == Or(Get(Obj(body), "alliance_id"), Num(0))
            && Get(b, "faction_id") == Or(Get(Obj(body), "faction_id"), Num(0))
  {
    var b1 := Stamp(body, now);
    var b3 := PlayerFill(row, Flag(row, b1));
    PlayerFillWrites(row, Flag(row, b1));
    StampKeeps(body, now, "alliance_id");
    StampKeeps(body, now, "faction_id");
    FlagKeeps(row, b1, "alliance_id");
    FlagKeeps(row, b1, "faction_id");
    SetIdentityKeeps(row, b3, "alliance_id");
    SetIdentityKeeps(row, b3, "faction_id");
    KeepNameKeeps(row, SetIdentity(row, b3), "alliance_id");
    KeepNameKeeps(row, SetIdentity(row, b3), "faction_id");
  }

  /** A location whose answer has no name keeps the name the row already had once written back. */
  lemma LocationNameKept(row: Row, body: Row, now: int)
    requires NormaliseBody(row, body, now).Some?
    requires Get(Obj(row), "type") == Str("location_id")
    requires IsNullish(Get(Obj(body), "name")) && !IsNullish(Get(Obj(row), "name"))
    ensures Get(Obj(Apply(row, Some(WriteBody(NormaliseBody(row, body, now).value)))), "name") == Get(Obj(row), "name")
  {
    var b1 := Stamp(body, now);
    var b3 := PlayerFill(row, Flag(row, b1));
    StampKeeps(body, now, "name");
    FlagKeeps(row, b1, "name");
    PlayerFillKeeps(row, Flag(row, b1), "name");
    SetIdentityKeeps(row, b3, "name");
    assert NameGuard(row, SetIdentity(row, b3));
    KeepNameWrites(row, SetIdentity(row, b3));
    var b := NormaliseBody(row, body, now).value;
    assert !HasKey(b, "name");
    SetAllGet(row, b, "name");
  }

  lemma StampDistinct(body: Row, now: int)
    requires DistinctKeys(body)
    ensures DistinctKeys(Stamp(body, now))
  {
    PutDistinct(body, "inactive", Bool(false));
    PutDistinct(Set(body, "inactive", Bool(false)), "last_updated", Num(now));
    PutDistinct(Set(Set(body, "inactive", Bool(false)), "last_updated", Num(now)), "waiting", Bool(false));
  }

  lemma FlagDistinct(row: Row, b: Row)
    requires DistinctKeys(b)
    ensures DistinctKeys(Flag(row, b))
  {
    PutDistinct(b, "total_kills", Num(WarTotal(b)));
    PutDistinct(Set(b, "total_kills", Num(WarTotal(b))), "check_wars", Bool(true));
    PutDistinct(b, "update_search", Bool(true));
  }

  lemma PlayerFillDistinct(row: Row, b: Row)
    requires DistinctKeys(b)
    ensures DistinctKeys(PlayerFill(row, b))
  {
    PutDistinct(b, "alliance_id", Or(Get(Obj(b), "alliance_id"), Num(0)));
    PutDistinct(Set(b, "alliance_id", Or(Get(Obj(b), "alliance_id"), Num(0))), "faction_id", Or(Get(Obj(b), "faction_id"), Num(0)));
  }

  lemma IdentityDistinct(row: Row, b: Row)
    requires DistinctKeys(b)
    ensures DistinctKeys(KeepName(row, SetIdentity(row, b)))
  {
    PutDistinct(b, "type", Get(Obj(row), "type"));
    PutDistinct(Set(b, "type", Get(Obj(row), "type")), "id", Get(Obj(row), "id"));
    DeleteDistinct(SetIdentity(row, b), "name");
  }

  /** A parsed JSON object has distinct keys, and so has the normalised body. */
  lemma NormaliseDistinct(row: Row, body: Row, now: int)
    requires DistinctKeys(body) && NormaliseBody(row, body, now).Some?
    ensures DistinctKeys(NormaliseBody(row, body, now).value)
  {
    StampDistinct(body, now);
    FlagDistinct(row, Stamp(body, now));
    PlayerFillDistinct(row, Flag(row, Stamp(body, now)));
    IdentityDistinct(row, PlayerFill(row, Flag(row, Stamp(body, now))));
  }

  /**
   * A 200 answer with a JSON object writes the normalised body over the row
   * and queues the entities it names.
   */
  lemma OkFetch(t: Tables, info: seq<Row>, row: Row, esiUrl: string, now: int, appNow: int, body: Row)
    requires Get(Obj(row), "no_fetch") != Bool(true) && UrlFor(t, esiUrl, row).Some?
    requires NormaliseBody(row, body, now).Some?
    ensures var b := NormaliseBody(row, body, now).value;
            FetchSpec(t, info, row, esiUrl, now, appNow, Answer(Some(200), Some(Obj(body)))) ==
            FetchResult(UrlFor(t, esiUrl, row), Some(WriteBody(b)), ExpectedAdds(t, Obj(b), KeysOf(b)))
  {
    ObjectAnswer(t, info, row, esiUrl, now, appNow, body);
  }

  lemma ObjectAnswer(t: Tables, info: seq<Row>, row: Row, esiUrl: string, now: int, appNow: int, body: Row)
    requires Get(Obj(row), "no_fetch") != Bool(true) && UrlFor(t, esiUrl, row).Some?
    ensures FetchSpec(t, info, row, esiUrl, now, appNow, Answer(Some(200), Some(Obj(body)))) ==
            BodyResult(t, row, UrlFor(t, esiUrl, row).value, body, now, appNow)
  {
    var outcome := Answer(Some(200), Some(Obj(body)));
    assert outcome.Answer? && outcome.status == Some(200) && outcome.body == Some(Obj(body));
  }

  /** Afterwards the row keeps its type and id, and is active, not waiting and updated now. */
  lemma OkWriteBack(row: Row, body: Row, now: int)
    requires DistinctKeys(body) && NormaliseBody(row, body, now).Some?
    ensures var after := Obj(Apply(row, Some(WriteBody(NormaliseBody(row, body, now).value))));
            && Get(after, "type") == Get(Obj(row), "type") && Get(after, "id") == Get(Obj(row), "id")
            && Get(after, "inactive") == Bool(false) && Get(after, "waiting") == Bool(false)
            && Get(after, "last_updated") == Num(now)
  {
    var b := NormaliseBody(row, body, now).value;
    NormaliseDistinct(row, body, now);
    NormaliseIdentity(row, body, now);
    NormaliseStamped(row, body, now);
    assert Apply(row, Some(WriteBody(b))) == SetAll(row, b);
    SetAllObject(row, b, "type");
    SetAllObject(row, b, "id");
    SetAllObject(row, b, "inactive");
    SetAllObject(row, b, "waiting");
    SetAllObject(row, b, "last_updated");
  }

  /** A row marked `no_fetch` is never requested again: it is only touched, whatever would have come back. */
  lemma NoFetchNoRequest(t: Tables, info: seq<Row>, row: Row, esiUrl: string, now: int, appNow: int, outcome: HttpOutcome)
    requires Get(Obj(row), "no_fetch") == Bool(true)
    ensures FetchSpec(t, info, row, esiUrl, now, appNow, outcome) == FetchResult(None, Some(Touch(now)), [])
  {
  }

  /**
   * A 404 marks the row `no_fetch` and for a name update; a character is
   * moved to corporation 1000001 (Doomheim) and loses its alliance and
   * faction, and is stamped with `app.now()` instead of `now`.
   */
  lemma NotFoundWrite(row: Row, character: bool, now: int, appNow: int)
    ensures var after := Obj(NotFoundRow(row, character, now, appNow));
            && Get(after, "no_fetch") == Bool(true) && Get(after, "update_name") == Bool(true)
            && Get(after, "last_updated") == Num(if character then appNow else now)
            && (character ==> Get(after, "corporation_id") == Num(1000001) &&
                              Get(after, "alliance_id") == Undef && Get(after, "faction_id") == Undef)
  {
    var flagged := Set(Set(row, "no_fetch", Bool(true)), "update_name", Bool(true));
    FlaggedBoth(row);
    if character {
      CharacterKeeps(flagged, appNow, "no_fetch");
      CharacterKeeps(flagged, appNow, "update_name");
      CharacterWrites(flagged, appNow);
    } else {
      FlagsKeptByStamp(flagged, now);
    }
  }

  lemma FlaggedBoth(row: Row)
    ensures var flagged := Set(Set(row, "no_fetch", Bool(true)), "update_name", Bool(true));
            Get(Obj(flagged), "no_fetch") == Bool(true) && Get(Obj(flagged), "update_name") == Bool(true)
  {
    assert |"no_fetch"| != |"update_name"|;
  }

  lemma FlagsKeptByStamp(flagged: Row, now: int)
    ensures Get(Obj(Set(flagged, "last_updated", Num(now))), "no_fetch") == Get(Obj(flagged), "no_fetch")
    ensures Get(Obj(Set(flagged, "last_updated", Num(now))), "update_name") == Get(Obj(flagged), "update_name")
  {
    assert |"no_fetch"| != |"last_updated"| && |"update_name"| != |"last_updated"|;
  }

  lemma CharacterWrites(flagged: Row, appNow: int)
    ensures var after := Remove(Remove(Set(Set(flagged, "last_updated", Num(appNow)), "corporation_id", Num(1000001)), "alliance_id"), "faction_id");
            && Get(Obj(after), "last_updated") == Num(appNow) && Get(Obj(after), "corporation_id") == Num(1000001)
            && Get(Obj(after), "alliance_id") == Undef && Get(Obj(after), "faction_id") == Undef
  {
    assert |"last_updated"| == 12 && |"corporation_id"| == 14 && |"alliance_id"| == 11 && |"faction_id"| == 10;
  }

  /** The character-only writes of a 404 leave the flags set before them alone. */
  lemma CharacterKeeps(flagged: Row, appNow: int, k: string)
    requires k != "last_updated" && k != "corporation_id" && k != "alliance_id" && k != "faction_id"
    ensures var after := Remove(Remove(Set(Set(flagged, "last_updated", Num(appNow)), "corporation_id", Num(1000001)), "alliance_id"), "faction_id");
            Get(Obj(after), k) == Get(Obj(flagged), k)
  {
  }

  /** So after a 404 the next refresh of the row makes no request. */
  lemma NotFoundStopsFetching(t: Tables, info: seq<Row>, row: Row, esiUrl: string, now: int, appNow: int,
                              body: Option<Js>, info': seq<Row>, now': int, appNow': int, outcome': HttpOutcome)
    requires Get(Obj(row), "no_fetch") != Bool(true) && UrlFor(t, esiUrl, row).Some?
    ensures var character := Get(Obj(row), "type") == Str("character_id");
            && FetchSpec(t, info, row, esiUrl, now, appNow, Answer(Some(404), body)) ==
               FetchResult(UrlFor(t, esiUrl, row), Some(NotFound(character, now, appNow)), [])
            && FetchSpec(t, info', Apply(row, Some(NotFound(character, now, appNow))), esiUrl, now', appNow', outcome') ==
               FetchResult(None, Some(Touch(now')), [])
  {
    var character := Get(Obj(row), "type") == Str("character_id");
    NotFoundAnswer(t, info, row, esiUrl, now, appNow, body);
    NotFoundIdle(t, info', row, esiUrl, character, now, appNow, now', appNow', outcome');
  }

  lemma NotFoundIdle(t: Tables, info: seq<Row>, row: Row, esiUrl: string, character: bool, now: int, appNow: int,
                     now': int, appNow': int, outcome: HttpOutcome)
    ensures FetchSpec(t, info, Apply(row, Some(NotFound(character, now, appNow))), esiUrl, now', appNow', outcome) ==
            FetchResult(None, Some(Touch(now')), [])
  {
    NotFoundApplied(row, character, now, appNow);
    NotFoundRowIdle(t, info, row, esiUrl, character, now, appNow, now', appNow', outcome);
  }

  lemma NotFoundApplied(row: Row, character: bool, now: int, appNow: int)
    ensures Apply(row, Some(NotFound(character, now, appNow))) == NotFoundRow(row, character, now, appNow)
  {
  }

  lemma NotFoundRowIdle(t: Tables, info: seq<Row>, row: Row, esiUrl: string, character: bool, now: int, appNow: int,
                        now': int, appNow': int, outcome: HttpOutcome)
    ensures FetchSpec(t, info, NotFoundRow(row, character, now, appNow), esiUrl, now', appNow', outcome) ==
            FetchResult(None, Some(Touch(now')), [])
  {
    NotFoundWrite(row, character, now, appNow);
    NoFetchNoRequest(t, info, NotFoundRow(row, character, now, appNow), esiUrl, now', appNow', outcome);
  }

  lemma NotFoundAnswer(t: Tables, info: seq<Row>, row: Row, esiUrl: string, now: int, appNow: int, body: Option<Js>)
    requires Get(Obj(row), "no_fetch") != Bool(true) && UrlFor(t, esiUrl, row).Some?
    ensures FetchSpec(t, info, row, esiUrl, now, appNow, Answer(Some(404), body)) ==
            FetchResult(UrlFor(t, esiUrl, row), Some(NotFound(Get(Obj(row), "type") == Str("character_id"), now, appNow)), [])
  {
    AnswerWrite(t, info, row, esiUrl, now, appNow, Some(404), body);
  }

  /** Every answer but a 200 is handled by the status dispatch alone. */
  lemma AnswerWrite(t: Tables, info: seq<Row>, row: Row, esiUrl: string, now: int, appNow: int, status: Option<int>, body: Option<Js>)
    requires Get(Obj(row), "no_fetch") != Bool(true) && UrlFor(t, esiUrl, row).Some? && status != Some(200)
    ensures FetchSpec(t, info, row, esiUrl, now, appNow, Answer(status, body)) ==
            FetchResult(UrlFor(t, esiUrl, row), StatusWrite(info, row, now, appNow, status), [])
  {
  }

  /** The fetches that failed and are retried: no URL, an exception, a transient status, an unusable 200 body. */
  predicate Failed(t: Tables, row: Row, esiUrl: string, now: int, outcome: HttpOutcome) {
    || UrlFor(t, esiUrl, row).None?
    || outcome.Threw?
    || (outcome.status == Some(200) &&
        (outcome.body.None? || !outcome.body.value.Obj? || NormaliseBody(row, outcome.body.value.fields, now).None?))
    || (IsTransient(outcome.status) && Get(Obj(row), "type") != Str("location_id"))
  }

  /** Such a row becomes due again exactly 300 seconds after `app.now()`. */
  lemma FailureRetried(t: Tables, info: seq<Row>, row: Row, esiUrl: string, now: int, appNow: int,
                       outcome: HttpOutcome, later: int)
    requires Get(Obj(row), "no_fetch") != Bool(true) && Failed(t, row, esiUrl, now, outcome)
    ensures var after := Apply(row, FetchSpec(t, info, row, esiUrl, now, appNow, outcome).write);
            && Get(Obj(after), "last_updated") == Num(appNow - RetryOffset)
            && (Stale(after, later - Day) <==> later > appNow + 300)
  {
    FailedRetries(t, info, row, esiUrl, now, appNow, outcome);
    RetryLaterApplied(row, appNow, later);
  }

  lemma FailedRetries(t: Tables, info: seq<Row>, row: Row, esiUrl: string, now: int, appNow: int, outcome: HttpOutcome)
    requires Get(Obj(row), "no_fetch") != Bool(true) && Failed(t, row, esiUrl, now, outcome)
    ensures FetchSpec(t, info, row, esiUrl, now, appNow, outcome).write == Some(RetryLater(appNow))
  {
    if UrlFor(t, esiUrl, row).None? || outcome.Threw? {
      EarlyRetries(t, info, row, esiUrl, now, appNow, outcome);
    } else if outcome.status != Some(200) {
      TransientRetries(t, info, row, esiUrl, now, appNow, outcome);
    } else {
      BodyRetries(t, info, row, esiUrl, now, appNow, outcome);
    }
  }

  lemma EarlyRetries(t: Tables, info: seq<Row>, row: Row, esiUrl: string, now: int, appNow: int, outcome: HttpOutcome)
    requires Get(Obj(row), "no_fetch") != Bool(true) && (UrlFor(t, esiUrl, row).None? || outcome.Threw?)
    ensures FetchSpec(t, info, row, esiUrl, now, appNow, outcome).write == Some(RetryLater(appNow))
  {
  }

  lemma TransientRetries(t: Tables, info: seq<Row>, row: Row, esiUrl: string, now: int, appNow: int, outcome: HttpOutcome)
    requires Get(Obj(row), "no_fetch") != Bool(true) && UrlFor(t, esiUrl, row).Some? && outcome.Answer?
    requires IsTransient(outcome.status) && outcome.status != Some(200) && Get(Obj(row), "type") != Str("location_id")
    ensures FetchSpec(t, info, row, esiUrl, now, appNow, outcome).write == Some(RetryLater(appNow))
  {
    AnswerWrite(t, info, row, esiUrl, now, appNow, outcome.status, outcome.body);
    TransientWrite(info, row, now, appNow, outcome.status);
  }

  lemma BodyRetries(t: Tables, info: seq<Row>, row: Row, esiUrl: string, now: int, appNow: int, outcome: HttpOutcome)
    requires Get(Obj(row), "no_fetch") != Bool(true) && UrlFor(t, esiUrl, row).Some?
    requires outcome.Answer? && outcome.status == Some(200)
    requires outcome.body.None? || !outcome.body.value.Obj? || NormaliseBody(row, outcome.body.value.fields, now).None?
    ensures FetchSpec(t, info, row, esiUrl, now, appNow, outcome).write == Some(RetryLater(appNow))
  {
    if outcome.body.Some? && outcome.body.value.Obj? {
      ObjectAnswer(t, info, row, esiUrl, now, appNow, outcome.body.value.fields);
    }
  }

  /** The status dispatch on a transient failure. */
  lemma TransientWrite(info: seq<Row>, row: Row, now: int, appNow: int, status: Option<int>)
    requires IsTransient(status)
    ensures StatusWrite(info, row, now, appNow, status) ==
            if Get(Obj(row), "type") == Str("location_id") then Some(NameStructure(StructureName(info, row), appNow))
            else Some(RetryLater(appNow))
  {
  }

  lemma RetryLaterApplied(row: Row, appNow: int, later: int)
    ensures var after := Apply(row, Some(RetryLater(appNow)));
            && Get(Obj(after), "last_updated") == Num(appNow - RetryOffset)
            && (Stale(after, later - Day) <==> later > appNow + 300)
  {
  }

  /** A transient failure on a location names it after its system and stamps it with `app.now()`. */
  lemma StructureFallbackName(t: Tables, info: seq<Row>, row: Row, esiUrl: string, now: int, appNow: int, status: Option<int>, body: Option<Js>)
    requires Get(Obj(row), "no_fetch") != Bool(true) && UrlFor(t, esiUrl, row).Some?
    requires IsTransient(status) && Get(Obj(row), "type") == Str("location_id")
    ensures var name := StructureName(info, row);
            && FetchSpec(t, info, row, esiUrl, now, appNow, Answer(status, body)) ==
               FetchResult(UrlFor(t, esiUrl, row), Some(NameStructure(name, appNow)), [])
            && Get(Obj(Apply(row, Some(NameStructure(name, appNow)))), "name") == Str(name)
            && Get(Obj(Apply(row, Some(NameStructure(name, appNow)))), "last_updated") == Num(appNow)
  {
    StructureAnswer(t, info, row, esiUrl, now, appNow, status, body);
    NameStructureApplied(row, StructureName(info, row), appNow);
  }

  lemma StructureAnswer(t: Tables, info: seq<Row>, row: Row, esiUrl: string, now: int, appNow: int, status: Option<int>, body: Option<Js>)
    requires Get(Obj(row), "no_fetch") != Bool(true) && UrlFor(t, esiUrl, row).Some?
    requires IsTransient(status) && Get(Obj(row), "type") == Str("location_id")
    ensures FetchSpec(t, info, row, esiUrl, now, appNow, Answer(status, body)) ==
            FetchResult(UrlFor(t, esiUrl, row), Some(NameStructure(StructureName(info, row), appNow)), [])
  {
    AnswerWrite(t, info, row, esiUrl, now, appNow, status, body);
    TransientWrite(info, row, now, appNow, status);
  }

  lemma NameStructureApplied(row: Row, name: string, appNow: int)
    ensures Get(Obj(Apply(row, Some(NameStructure(name, appNow)))), "name") == Str(name)
    ensures Get(Obj(Apply(row, Some(NameStructure(name, appNow)))), "last_updated") == Num(appNow)
  {
    assert |"name"| != |"last_updated"|;
  }

  /** A 400 or an unhandled status leaves the row as it was (it is picked up again when due). */
  lemma UnhandledLeavesRow(t: Tables, info: seq<Row>, row: Row, esiUrl: string, now: int, appNow: int, s: int, body: Option<Js>)
    requires Get(Obj(row), "no_fetch") != Bool(true)
    requires s !in {200, 304, 404} && !IsTransient(Some(s))
    ensures FetchSpec(t, info, row, esiUrl, now, appNow, Answer(Some(s), body)).write.Some? <==> UrlFor(t, esiUrl, row).None?
    ensures UrlFor(t, esiUrl, row).Some? ==> Apply(row, FetchSpec(t, info, row, esiUrl, now, appNow, Answer(Some(s), body)).write) == row
  {
  }

  /** A 304 only refreshes the stamp: the row is not due again for a day. */
  lemma NotModifiedTouch(t: Tables, info: seq<Row>, row: Row, esiUrl: string, now: int, appNow: int, body: Option<Js>, later: int)
    requires Get(Obj(row), "no_fetch") != Bool(true) && UrlFor(t, esiUrl, row).Some?
    ensures var after := Apply(row, FetchSpec(t, info, row, esiUrl, now, appNow, Answer(Some(304), body)).write);
            && Get(Obj(after), "last_updated") == Num(now)
            && (Stale(after, later - Day) <==> later > now + Day)
  {
    AnswerWrite(t, info, row, esiUrl, now, appNow, Some(304), body);
    assert StatusWrite(info, row, now, appNow, Some(304)) == Some(Touch(now));
  }
}
