/**
 * The document shaping of `ConvertPatchNotesToDocuments` in `storer.py`: the
 * in-place swap of hero, ability and item ids for their names, and the
 * metadata builders that `convert` hands to each `JSONLoader`.
 */
module Storer {
  import opened Text
  import opened Wrappers
  import opened Values
  import opened Documents
  import opened PassageFilter
  import opened FilterDict

  /** An id-to-name mapper, keyed by `str(id)` (`df.set_index(df['id'].astype(str))['name'].to_dict()`). */
  type NameMap = map<string, Scalar>

  /** `metadata.get(key)`: `None` for a missing key. */
  function GetOrNone(metadata: Metadata, key: string): Scalar {
    if key in metadata then metadata[key] else Null
  }

  /** The metadata after the lookup: the mapped name replaces the id when `str(id)` is a key of the mapper. */
  function SwapId(metadata: Metadata, dictMap: NameMap, field: string): Metadata {
    var strId := PyStr(GetOrNone(metadata, field));
    if strId in dictMap then metadata[field := dictMap[strId]] else metadata
  }

  /**
   * One pass of the loop body on one document, or `None` for the `KeyError`
   * that `doc.metadata[field]` raises when the field is missing and `"None"`
   * is not a key of the mapper.
   */
  function ReplaceOne(p: Passage, dictMap: NameMap, fieldName: string, field: string): Option<Passage> {
    var metadata := SwapId(p.metadata, dictMap, field);
    if field in metadata then Some(Passage(fieldName + ": " + PyStr(metadata[field]) + ". " + p.content, metadata))
    else None
  }

  /** How many leading documents the loop gets through before the first `KeyError` (all of them if none). */
  function Completed(ps: seq<Passage>, dictMap: NameMap, fieldName: string, field: string): (n: nat)
    ensures n <= |ps|
    ensures forall j :: 0 <= j < n ==> ReplaceOne(ps[j], dictMap, fieldName, field).Some?
    ensures n < |ps| ==> ReplaceOne(ps[n], dictMap, fieldName, field).None?
  {
    if ps == [] || ReplaceOne(ps[0], dictMap, fieldName, field).None? then 0
    else
      var n := Completed(ps[1..], dictMap, fieldName, field);
      assert forall j :: 0 < j <= n ==> ps[j] == ps[1..][j - 1];
      assert ReplaceOne(ps[0], dictMap, fieldName, field).Some?;
      1 + n
  }

  /** The documents after `replace_id_with_name`, and whether it stopped with a `KeyError`. */
  datatype Replaced = Replaced(passages: seq<Passage>, keyError: bool)

  /** The documents before the failing one are updated; it and the ones after it are as they were. */
  function ReplaceAll(ps: seq<Passage>, dictMap: NameMap, fieldName: string, field: string): Replaced {
    var n := Completed(ps, dictMap, fieldName, field);
    Replaced(seq(|ps|, j requires 0 <= j < |ps| =>
                   if j < n then ReplaceOne(ps[j], dictMap, fieldName, field).value else ps[j]),
             n < |ps|)
  }

  /**
   * The loop body of `replace_id_with_name` on one document: `ok` is false
   * for the `KeyError`, which leaves the document as it was.
   */
  method ReplaceInDocument(doc: Document, dictMap: NameMap, fieldName: string, field: string) returns (ok: bool)
    modifies doc
    ensures ok == ReplaceOne(old(Snap(doc)), dictMap, fieldName, field).Some?
    ensures Snap(doc) == if ok then ReplaceOne(old(Snap(doc)), dictMap, fieldName, field).value else old(Snap(doc))
  {
    var metadata := doc.metadata;
    var id := GetOrNone(metadata, field);
    var strId := PyStr(id);
    if strId in dictMap {
      metadata := metadata[field := dictMap[strId]];
      doc.metadata := metadata;
    }
    if field !in metadata {
      return false;
    }
    doc.pageContent := fieldName + ": " + PyStr(metadata[field]) + ". " + doc.pageContent;
    return true;
  }

  /**
   * `replace_id_with_name`: the documents are changed in place (the list it
   * returns is the one it was given); `keyError` reports the exception that
   * ends the loop early.
   */
  method ReplaceIdWithName(documents: seq<Document>, dictMap: NameMap, fieldName: string, field: string)
    returns (keyError: bool)
    requires Distinct(documents)
    modifies documents
    ensures Snapshot(documents) == ReplaceAll(old(Snapshot(documents)), dictMap, fieldName, field).passages
    ensures keyError == ReplaceAll(old(Snapshot(documents)), dictMap, fieldName, field).keyError
  {
    ghost var before := Snapshot(documents);
    ghost var target := seq(|before|, j requires 0 <= j < |before| => ReplaceOne(before[j], dictMap, fieldName, field));
    for i := 0 to |documents|
      invariant forall j :: 0 <= j < i ==> target[j].Some? && Snap(documents[j]) == target[j].value
      invariant forall j :: i <= j < |documents| ==> Snap(documents[j]) == before[j]
    {
      var doc := documents[i];
      assert Snap(doc) == before[i];
      assert forall j :: 0 <= j < |documents| && j != i ==> documents[j] != doc;
      var ok := ReplaceInDocument(doc, dictMap, fieldName, field);
      if !ok {
        ghost var now := Snapshot(documents);
        ReplaceAllStopsAt(before, dictMap, fieldName, field, now, i);
        return true;
      }
    }
    ghost var now := Snapshot(documents);
    ReplaceAllStopsAt(before, dictMap, fieldName, field, now, |documents|);
    return false;
  }

  /**
   * `ReplaceAll` is what a loop leaves when it has updated the documents
   * before index `i` and stopped there, at a `KeyError` or at the end.
   */
  lemma ReplaceAllStopsAt(ps: seq<Passage>, dictMap: NameMap, fieldName: string, field: string, qs: seq<Passage>, i: nat)
    requires |qs| == |ps| && i <= |ps|
    requires forall j :: 0 <= j < i ==> ReplaceOne(ps[j], dictMap, fieldName, field).Some?
    requires forall j :: 0 <= j < i ==> qs[j] == ReplaceOne(ps[j], dictMap, fieldName, field).value
    requires i < |ps| ==> ReplaceOne(ps[i], dictMap, fieldName, field).None?
    requires forall j :: i <= j < |ps| ==> qs[j] == ps[j]
    ensures ReplaceAll(ps, dictMap, fieldName, field) == Replaced(qs, i < |ps|)
  {
    var n := Completed(ps, dictMap, fieldName, field);
    assert n == i;
    assert ReplaceAll(ps, dictMap, fieldName, field).passages == qs;
  }

  /**
   * What the swap does to one document: the id becomes the mapped name iff
   * `str(id)` is a key of the mapper, no other key changes, and the content
   * gains the prefix `"{field_name}: {value}. "` with the value after the swap.
   * It fails iff the field is missing and `"None"` is not a key of the mapper.
   */
  lemma ReplaceOneSwapsAndPrefixes(p: Passage, dictMap: NameMap, fieldName: string, field: string)
    ensures var r := ReplaceOne(p, dictMap, fieldName, field);
      (r.None? <==> field !in p.metadata && "None" !in dictMap)
      && (r.Some? ==>
            r.value.metadata.Keys == p.metadata.Keys + {field}
            && (forall k :: k in p.metadata && k != field ==> r.value.metadata[k] == p.metadata[k])
            && (PyStr(GetOrNone(p.metadata, field)) in dictMap ==>
                  r.value.metadata[field] == dictMap[PyStr(GetOrNone(p.metadata, field))])
            && (PyStr(GetOrNone(p.metadata, field)) !in dictMap ==> r.value.metadata[field] == p.metadata[field])
            && |r.value.content| >= |p.content|
            && r.value.content[|r.value.content| - |p.content|..] == p.content
            && r.value.content[..|r.value.content| - |p.content|] == fieldName + ": " + PyStr(r.value.metadata[field]) + ". ")
  {
    var r := ReplaceOne(p, dictMap, fieldName, field);
    if r.Some? {
      var pre := fieldName + ": " + PyStr(r.value.metadata[field]) + ". ";
      assert r.value.content == pre + p.content;
    }
  }

  /**
   * The whole loop: the list keeps its length and order; every document up
   * to the first one that raises is swapped and prefixed, the rest are as
   * they were; and it raises iff some document lacks the field while the
   * mapper has no `"None"` key.
   */
  lemma ReplaceAllKeepsOrder(ps: seq<Passage>, dictMap: NameMap, fieldName: string, field: string)
    ensures var r := ReplaceAll(ps, dictMap, fieldName, field);
      |r.passages| == |ps|
      && (r.keyError <==> "None" !in dictMap && exists j :: 0 <= j < |ps| && field !in ps[j].metadata)
      && (!r.keyError ==> forall j :: 0 <= j < |ps| ==> Some(r.passages[j]) == ReplaceOne(ps[j], dictMap, fieldName, field))
      && (forall j :: 0 <= j < |ps| ==> r.passages[j] == ps[j] || Some(r.passages[j]) == ReplaceOne(ps[j], dictMap, fieldName, field))
  {
    var n := Completed(ps, dictMap, fieldName, field);
    if n < |ps| {
      ReplaceOneSwapsAndPrefixes(ps[n], dictMap, fieldName, field);
    }
    forall j | 0 <= j < |ps|
      ensures ("None" !in dictMap && field !in ps[j].metadata) ==> n <= j
    {
      ReplaceOneSwapsAndPrefixes(ps[j], dictMap, fieldName, field);
    }
  }

  /**
   * Why the filter's id values are names: after the swap, a filter on the
   * field with value `name` keeps the document iff `name` is the mapped name
   * up to ASCII case.
   */
  lemma SwappedIdMatchesName(p: Passage, dictMap: NameMap, fieldName: string, field: string, name: string)
    requires PyStr(GetOrNone(p.metadata, field)) in dictMap
    ensures var r := ReplaceOne(p, dictMap, fieldName, field);
      r.Some?
      && (Matches(map[field := One(name)], r.value.metadata) <==>
            Lower(name) == Lower(PyStr(dictMap[PyStr(GetOrNone(p.metadata, field))])))
  {
    var r := ReplaceOne(p, dictMap, fieldName, field);
    var criteria := map[field := One(name)];
    assert AllowedValues(One(name)) == [Lower(name)];
    if Matches(criteria, r.value.metadata) {
      assert AcceptsKey(criteria, r.value.metadata, field);
    }
  }

  // ---------------------------------------------------------------------------
  // Metadata builders of `convert`
  // ---------------------------------------------------------------------------

  /** A JSON record (one element of `.heroes[]`, `.items[]` or `.generic[]`). */
  type Record = map<string, Json>

  /** The record's value at `key` is a scalar or absent (ids are numbers or strings). */
  predicate ScalarOrAbsent(record: Record, key: string) {
    key in record ==> record[key].Leaf?
  }

  /** `record.get(key)` for a scalar-or-absent field. */
  function FieldOrNone(record: Record, key: string): Scalar
    requires ScalarOrAbsent(record, key)
  {
    if key in record then record[key].v else Null
  }

  /** `if abilities:` with `abilities = record.get("abilities", [])`: the key is present and its value truthy. */
  predicate HasAbilities(record: Record) {
    "abilities" in record && !IsFalsy(record["abilities"])
  }

  /**
   * What `abilities[0].get("ability_id")` can read: `abilities` is absent or
   * falsy (`null`, `[]`, ...), or a non-empty list whose first entry is an
   * object with a scalar-or-absent `ability_id`.
   */
  predicate AbilitiesReadable(record: Record) {
    !HasAbilities(record)
    || (record["abilities"].List? && record["abilities"].items != []
        && record["abilities"].items[0].Obj? && ScalarOrAbsent(record["abilities"].items[0].fields, "ability_id"))
  }

  /** The `**metadata_func(r, m), "patch_timestamp": ..., "patch_version": ...` merge every loader does. */
  function WithPatch(metadata: Metadata, patchTimestamp: Scalar, patchNumber: Scalar): Metadata {
    metadata["patch_timestamp" := patchTimestamp]["patch_version" := patchNumber]
  }

  /** `extract_hero_abilities_metadata`, merged with the patch keys. */
  function HeroAbilitiesMetadata(record: Record, metadata: Metadata, patchTimestamp: Scalar, patchNumber: Scalar): Metadata
    requires ScalarOrAbsent(record, "hero_id") && AbilitiesReadable(record)
  {
    var abilityId := if HasAbilities(record) then FieldOrNone(record["abilities"].items[0].fields, "ability_id") else Str("N/A");
    WithPatch(metadata["hero_id" := FieldOrNone(record, "hero_id")]["ability_id" := abilityId]["category" := Str("heroes-abilities")],
              patchTimestamp, patchNumber)
  }

  /** `extract_metadata_heroes_talents`, merged with the patch keys. */
  function HeroTalentsMetadata(record: Record, metadata: Metadata, patchTimestamp: Scalar, patchNumber: Scalar): Metadata
    requires ScalarOrAbsent(record, "hero_id")
  {
    WithPatch(metadata["hero_id" := FieldOrNone(record, "hero_id")]["category" := Str("heroes-talents")], patchTimestamp, patchNumber)
  }

  /** `extract_metadata_heroes_base`, merged with the patch keys. */
  function HeroBaseMetadata(record: Record, metadata: Metadata, patchTimestamp: Scalar, patchNumber: Scalar): Metadata
    requires ScalarOrAbsent(record, "hero_id")
  {
    WithPatch(metadata["hero_id" := FieldOrNone(record, "hero_id")]["category" := Str("heroes-base")], patchTimestamp, patchNumber)
  }

  /** `extract_metadata_items`, merged with the patch keys: the item id is the record's `ability_id`. */
  function ItemsMetadata(record: Record, metadata: Metadata, patchTimestamp: Scalar, patchNumber: Scalar): Metadata
    requires ScalarOrAbsent(record, "ability_id")
  {
    WithPatch(metadata["item_id" := FieldOrNone(record, "ability_id")]["category" := Str("items")], patchTimestamp, patchNumber)
  }

  /** The generic-updates metadata function: the loader's metadata plus the category and the patch keys. */
  function GenericMetadata(metadata: Metadata, patchTimestamp: Scalar, patchNumber: Scalar): Metadata {
    WithPatch(metadata["category" := Str("generic-updates")], patchTimestamp, patchNumber)
  }

  /** Every builder keeps the loader's own keys and adds the category and both patch keys. */
  predicate Extends(metadata: Metadata, built: Metadata, category: string, patchTimestamp: Scalar, patchNumber: Scalar) {
    metadata.Keys <= built.Keys
    && (forall k :: k in metadata && k !in FilterKeys && k != "patch_timestamp" ==> built[k] == metadata[k])
    && "category" in built && built["category"] == Str(category)
    && "patch_timestamp" in built && built["patch_timestamp"] == patchTimestamp
    && "patch_version" in built && built["patch_version"] == patchNumber
  }

  /**
   * The hero-ability builder: the hero id is the record's, the ability id
   * is the first ability's (`None` if it has none) or `"N/A"` when
   * `abilities` is missing or falsy (`null`, an empty list, ...), and the
   * category is `heroes-abilities`.
   */
  lemma HeroAbilitiesMetadataShape(record: Record, metadata: Metadata, patchTimestamp: Scalar, patchNumber: Scalar)
    requires ScalarOrAbsent(record, "hero_id") && AbilitiesReadable(record)
    ensures var m := HeroAbilitiesMetadata(record, metadata, patchTimestamp, patchNumber);
      Extends(metadata, m, "heroes-abilities", patchTimestamp, patchNumber)
      && m.Keys == metadata.Keys + {"hero_id", "ability_id", "category", "patch_timestamp", "patch_version"}
      && m["hero_id"] == FieldOrNone(record, "hero_id")
      && (HasAbilities(record) ==> m["ability_id"] == FieldOrNone(record["abilities"].items[0].fields, "ability_id"))
      && (!HasAbilities(record) ==> m["ability_id"] == Str("N/A"))
      && ("abilities" in record && record["abilities"] in {Leaf(Null), List([])} ==> m["ability_id"] == Str("N/A"))
      && (m["ability_id"] == Str("N/A") <==>
            (!HasAbilities(record) || FieldOrNone(record["abilities"].items[0].fields, "ability_id") == Str("N/A")))
  {
  }

  /** The talent builder sets the hero id and the `heroes-talents` category. */
  lemma HeroTalentsMetadataShape(record: Record, metadata: Metadata, patchTimestamp: Scalar, patchNumber: Scalar)
    requires ScalarOrAbsent(record, "hero_id")
    ensures var m := HeroTalentsMetadata(record, metadata, patchTimestamp, patchNumber);
      Extends(metadata, m, "heroes-talents", patchTimestamp, patchNumber) && m["hero_id"] == FieldOrNone(record, "hero_id")
      && m.Keys == metadata.Keys + {"hero_id", "category", "patch_timestamp", "patch_version"}
  {
  }

  /** The base-stats builder sets the hero id and the `heroes-base` category. */
  lemma HeroBaseMetadataShape(record: Record, metadata: Metadata, patchTimestamp: Scalar, patchNumber: Scalar)
    requires ScalarOrAbsent(record, "hero_id")
    ensures var m := HeroBaseMetadata(record, metadata, patchTimestamp, patchNumber);
      Extends(metadata, m, "heroes-base", patchTimestamp, patchNumber) && m["hero_id"] == FieldOrNone(record, "hero_id")
      && m.Keys == metadata.Keys + {"hero_id", "category", "patch_timestamp", "patch_version"}
  {
  }

  /** The item builder takes the item id from the record's `ability_id` and sets the `items` category. */
  lemma ItemsMetadataShape(record: Record, metadata: Metadata, patchTimestamp: Scalar, patchNumber: Scalar)
    requires ScalarOrAbsent(record, "ability_id")
    ensures var m := ItemsMetadata(record, metadata, patchTimestamp, patchNumber);
      Extends(metadata, m, "items", patchTimestamp, patchNumber) && m["item_id"] == FieldOrNone(record, "ability_id")
      && m.Keys == metadata.Keys + {"item_id", "category", "patch_timestamp", "patch_version"}
  {
  }

  /** The generic builder sets only the `generic-updates` category and the patch keys. */
  lemma GenericMetadataShape(metadata: Metadata, patchTimestamp: Scalar, patchNumber: Scalar)
    ensures var m := GenericMetadata(metadata, patchTimestamp, patchNumber);
      Extends(metadata, m, "generic-updates", patchTimestamp, patchNumber)
      && m.Keys == metadata.Keys + {"category", "patch_timestamp", "patch_version"}
  {
  }

  /** The category a builder wrote is one of the stored categories. */
  predicate CategoryStored(m: Metadata) {
    "category" in m && m["category"].Str? && m["category"].s in StoredCategories
  }

  /**
   * Every builder writes one of the five stored categories; in particular no
   * passage carries `heroes`, the first entry of the default hero filter.
   */
  lemma BuildersWriteStoredCategories(record: Record, metadata: Metadata, patchTimestamp: Scalar, patchNumber: Scalar)
    requires ScalarOrAbsent(record, "hero_id") && ScalarOrAbsent(record, "ability_id") && AbilitiesReadable(record)
    ensures CategoryStored(HeroAbilitiesMetadata(record, metadata, patchTimestamp, patchNumber))
    ensures CategoryStored(HeroTalentsMetadata(record, metadata, patchTimestamp, patchNumber))
    ensures CategoryStored(HeroBaseMetadata(record, metadata, patchTimestamp, patchNumber))
    ensures CategoryStored(ItemsMetadata(record, metadata, patchTimestamp, patchNumber))
    ensures CategoryStored(GenericMetadata(metadata, patchTimestamp, patchNumber))
    ensures "heroes" !in StoredCategories
  {
  }

  /**
   * The three hero builders write categories of the default hero filter, so
   * a hero query without a keyword keeps passages of all three kinds.
   */
  lemma HeroPassagesPassDefaultCategories(record: Record, metadata: Metadata, patchTimestamp: Scalar, patchNumber: Scalar)
    requires ScalarOrAbsent(record, "hero_id") && AbilitiesReadable(record)
    ensures var byCategory := map["category" := Many(HeroCategoryNames)];
      Matches(byCategory, HeroAbilitiesMetadata(record, metadata, patchTimestamp, patchNumber))
      && Matches(byCategory, HeroTalentsMetadata(record, metadata, patchTimestamp, patchNumber))
      && Matches(byCategory, HeroBaseMetadata(record, metadata, patchTimestamp, patchNumber))
  {
    var allowed := AllowedValues(Many(HeroCategoryNames));
    LowerCategoryNames("heroes-abilities");
    LowerCategoryNames("heroes-talents");
    LowerCategoryNames("heroes-base");
    LowerCategoryNames("heroes");
    assert allowed == HeroCategoryNames;
  }

  /**
   * A generic-updates passage is kept by no filter the classifiers assemble
   * with a category: hero, item, ability and bare "item" filters alike.
   */
  lemma GenericPassageFailsCategoryFilters(metadata: Metadata, patchTimestamp: Scalar, patchNumber: Scalar,
                                           version: Option<string>, subject: Subject)
    requires subject.HeroSubject? ==> forall k :: 0 <= k < |subject.categories| ==> subject.categories[k] in HeroCategoryNames
    ensures !subject.NoSubject? ==> !Matches(Assemble(version, subject), GenericMetadata(metadata, patchTimestamp, patchNumber))
  {
    if !subject.NoSubject? {
      var f := Assemble(version, subject);
      var g := GenericMetadata(metadata, patchTimestamp, patchNumber);
      LowerCategoryNames("generic-updates");
      assert DocValue(g, "category") == "generic-updates";
      assert "category" in f;
      match subject
      case HeroSubject(h, cats) =>
        forall k | 0 <= k < |cats|
          ensures Lower(cats[k]) != "generic-updates"
        {
          LowerCategoryNames(cats[k]);
        }
        assert !AcceptsKey(f, g, "category");
      case ItemSubject(_) =>
        LowerCategoryNames("items");
        assert !AcceptsKey(f, g, "category");
      case AbilitySubject(_) =>
        LowerCategoryNames("heroes-abilities");
        assert !AcceptsKey(f, g, "category");
      case AllItems =>
        LowerCategoryNames("items");
        assert !AcceptsKey(f, g, "category");
    }
  }
}
