/**
 * The lookup tables of the entity-information refresher, as the job
 * defines them.
 */
module EsiTables {
  import opened Common
  import opened JsValue
  import opened UpdateInformation

  /** Body keys that name other entities. */
  const AddKeys: seq<string> := [
    "character_id", "corporation_id", "alliance_id", "group_id", "category_id",
    "location_id", "constellation_id", "region_id", "creator_corporation_id",
    "executor_corporation_id", "creator_id", "ceo_id", "types", "groups",
    "systems", "constellations", "star_id", "stargates"]

  /** The entity type a body key refers to, where it differs from the key. */
  const TypeMaps: seq<(string, string)> := [
    ("creator_corporation_id", "corporation_id"),
    ("executor_corporation_id", "corporation_id"),
    ("creator_id", "character_id"),
    ("ceo_id", "character_id"),
    ("types", "item_id"),
    ("groups", "group_id"),
    ("systems", "solar_system_id"),
    ("constellations", "constellation_id"),
    ("stargates", "stargate_id")]

  /** ESI path templates per entity type. */
  const UrlTable: seq<(string, string)> := [
    ("item_id", "/v3/universe/types/:id/"),
    ("group_id", "/v1/universe/groups/:id/"),
    ("category_id", "/v1/universe/categories/:id/"),
    ("market_id", "/v1/markets/groups/:id/"),
    ("character_id", "/v5/characters/:id/"),
    ("corporation_id", "/v4/corporations/:id/"),
    ("alliance_id", "/v4/alliances/:id/"),
    ("location_id", "/latest/universe/stations/:id/"),
    ("solar_system_id", "/v4/universe/systems/:id/"),
    ("constellation_id", "/v1/universe/constellations/:id/"),
    ("region_id", "/v1/universe/regions/:id/")]

  const StructureTemplate: string := "/latest/universe/structures/:id/"

  const Esi: Tables := Tables(AddKeys, TypeMaps, UrlTable, StructureTemplate)

  lemma EsiFields()
    ensures Esi.urls == UrlTable && Esi.structure == StructureTemplate
  {
  }

  /** Structures (location ids above 69999999) are fetched from `/latest/universe/structures/<id>/`. */
  lemma EsiStructureUrl(esiUrl: string, row: Row)
    requires IsStructure(row)
    ensures UrlFor(Esi, esiUrl, row) == Some(esiUrl + "/latest/universe/structures/" + ToString(Get(Obj(row), "id")) + "/")
  {
    EsiFields();
    StructurePath();
    UrlChoice(Esi, esiUrl, row, "/latest/universe/structures/");
  }

  lemma StructurePath()
    ensures StructureTemplate == "/latest/universe/structures/" + ":id/" && ':' !in "/latest/universe/structures/"
  {
  }

  /**
   * The job's table has no `war_id` template, so a war row never gets a
   * URL: `urls[row.type].replace` throws and the row takes the retry stamp.
   */
  lemma EsiWarHasNoUrl(esiUrl: string, row: Row)
    requires Get(Obj(row), "type") == Str("war_id")
    ensures UrlFor(Esi, esiUrl, row) == None
  {
    EsiFields();
    StructurePath();
    assert !HasKey(UrlTable, "war_id") by {
      forall i | 0 <= i < |UrlTable| ensures UrlTable[i].0 != "war_id" {
        assert |UrlTable[i].0| != |"war_id"|;
      }
    }
    assert ToString(Str("war_id")) == "war_id";
    UrlChoice(Esi, esiUrl, row, "/latest/universe/structures/");
  }

  /** Characters, for instance, are fetched from `/v5/characters/<id>/`. */
  lemma EsiCharacterUrl(esiUrl: string, row: Row)
    requires Get(Obj(row), "type") == Str("character_id")
    ensures UrlFor(Esi, esiUrl, row) == Some(esiUrl + "/v5/characters/" + ToString(Get(Obj(row), "id")) + "/")
  {
    CharacterEntry();
    EsiFields();
    CharacterPath();
    TemplateFill(Esi, esiUrl, row, "/v5/characters/");
  }

  lemma CharacterEntry()
    ensures Lookup(UrlTable, "character_id") == Some("/v5/characters/:id/")
  {
    assert UrlTable[4] == ("character_id", "/v5/characters/:id/");
    assert |UrlTable[0].0| == 7 && |UrlTable[1].0| == 8 && |UrlTable[2].0| == 11 && |UrlTable[3].0| == 9;
    LookupFirst(UrlTable, 4);
  }

  lemma CharacterPath()
    ensures "/v5/characters/:id/" == "/v5/characters/" + ":id/" && ':' !in "/v5/characters/"
  {
  }
}
