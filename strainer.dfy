/**
 * `FilterRetrievedDocuments` of `strainer.py`: the classifier that reads a
 * metadata filter off the user's query (falling back on the previous query
 * for the patch version and the hero, and resolving "latest" against the
 * patch-note directory), and the filter it applies to retrieved passages.
 * The name catalogs and the directory listing are parameters.
 */
module Strainer {
  import opened Text
  import opened Wrappers
  import opened Values
  import opened VersionPattern
  import opened VersionResolver
  import opened Catalog
  import opened Documents
  import opened PassageFilter
  import opened FilterDict

  /** `self.previous_query.lower() if self.previous_query else ""`. */
  function PrevLower(previousQuery: Option<string>): string {
    if previousQuery.Some? then Lower(previousQuery.value) else ""
  }

  /** Step 1: the latest version when the query says "latest", else the first version named in the query or, failing that, in the previous one. */
  function VersionOf(lq: string, lp: string, patchFiles: seq<string>): Option<string> {
    if Contains(lq, "latest") then Latest(PatchVersions(patchFiles))
    else FirstVersion(lq).OrElse(FirstVersion(lp))
  }

  /** The hero lookup: the first hero named in the query, unless that is absent or empty, then the first named in the previous query. */
  function HeroOf(lq: string, lp: string, heroes: seq<string>): Option<string> {
    var h := FirstMatch(heroes, lq);
    if Truthy(h) then h else FirstMatch(heroes, lp)
  }

  /** Step 2: the hero, else an item, else an ability named in the query, else a bare mention of items. */
  function SubjectOf(lq: string, lp: string, catalogs: Catalogs): Subject {
    var hero := HeroOf(lq, lp, catalogs.heroes);
    if Truthy(hero) then HeroSubject(hero.value, HeroCategories(lq))
    else if AnyMatch(catalogs.items, lq) then ItemSubject(FirstMatch(catalogs.items, lq).value)
    else if AnyMatch(catalogs.abilities, lq) then AbilitySubject(FirstMatch(catalogs.abilities, lq).value)
    else if Contains(lq, "item") then AllItems
    else NoSubject
  }

  /** The filter dict `dynamic_filter` returns for a query and its predecessor. */
  function QueryFilter(query: string, previousQuery: Option<string>, catalogs: Catalogs, patchFiles: seq<string>): Criteria {
    var lq := Lower(query);
    var lp := PrevLower(previousQuery);
    Assemble(VersionOf(lq, lp, patchFiles), SubjectOf(lq, lp, catalogs))
  }

  /** Step 1 of `dynamic_filter`: the `patch_version` key. */
  method PatchVersionStep(queryLower: string, prevQueryLower: string, patchFiles: seq<string>) returns (filterDict: Criteria)
    ensures filterDict == Assemble(VersionOf(queryLower, prevQueryLower, patchFiles), NoSubject)
  {
    filterDict := map[];
    if Contains(queryLower, "latest") {
      var latestPatch := GetLatestPatchVersion(patchFiles);
      if latestPatch.Some? {
        filterDict := filterDict["patch_version" := One(latestPatch.value)];
      }
    } else {
      var patchMatch := FindAll(queryLower);
      if patchMatch == [] {
        patchMatch := FindAll(prevQueryLower);
      }
      if patchMatch != [] {
        filterDict := filterDict["patch_version" := One(patchMatch[0])];
      }
    }
  }

  /** Step 2 of `dynamic_filter`: the id and category keys, added to the dict of step 1. */
  method SubjectStep(queryLower: string, prevQueryLower: string, catalogs: Catalogs,
                     versionDict: Criteria, ghost version: Option<string>)
    returns (filterDict: Criteria)
    requires versionDict == Assemble(version, NoSubject)
    ensures filterDict == Assemble(version, SubjectOf(queryLower, prevQueryLower, catalogs))
  {
    filterDict := versionDict;
    var heroId := FirstMatch(catalogs.heroes, queryLower);
    if !Truthy(heroId) {
      heroId := FirstMatch(catalogs.heroes, prevQueryLower);
    }
    if Truthy(heroId) {
      filterDict := filterDict["hero_id" := One(heroId.value)];
      if Contains(queryLower, "talent") {
        filterDict := filterDict["category" := Many(["heroes-talents"])];
      } else if Contains(queryLower, "skill") || Contains(queryLower, "ability") {
        filterDict := filterDict["category" := Many(["heroes-abilities"])];
      } else if Contains(queryLower, "base") {
        filterDict := filterDict["category" := Many(["heroes-base"])];
      } else {
        filterDict := filterDict["category" := Many(["heroes", "heroes-abilities", "heroes-base", "heroes-talents"])];
      }
    } else if AnyMatch(catalogs.items, queryLower) {
      var itemId := FirstMatch(catalogs.items, queryLower).value;
      filterDict := filterDict["item_id" := One(itemId)];
      filterDict := filterDict["category" := One("items")];
    } else if AnyMatch(catalogs.abilities, queryLower) {
      var abilityId := FirstMatch(catalogs.abilities, queryLower).value;
      filterDict := filterDict["ability_id" := One(abilityId)];
      filterDict := filterDict["category" := One("heroes-abilities")];
    } else if Contains(queryLower, "item") {
      filterDict := filterDict["category" := One("items")];
    } else if Contains(queryLower, "summarize") || Contains(queryLower, "updates") {
      filterDict := filterDict - {"category"};
    }
  }

  /** The classifier object: the query and the previous query it was built with. */
  datatype FilterRetrievedDocuments = FilterRetrievedDocuments(query: string, previousQuery: Option<string>)
  {
    /**
     * `dynamic_filter`: the dict built key by key. The catalogs stand for the
     * three mapper CSV files and `patchFiles` for the listing of the patch-note
     * directory.
     */
    method DynamicFilter(catalogs: Catalogs, patchFiles: seq<string>) returns (filterDict: Criteria)
      ensures filterDict == QueryFilter(query, previousQuery, catalogs, patchFiles)
    {
      var queryLower := Lower(query);
      var prevQueryLower := if previousQuery.Some? then Lower(previousQuery.value) else "";
      filterDict := PatchVersionStep(queryLower, prevQueryLower, patchFiles);
      ghost var version := VersionOf(queryLower, prevQueryLower, patchFiles);
      filterDict := SubjectStep(queryLower, prevQueryLower, catalogs, filterDict, version);
    }

    /** `get_filtered_docs`: the passages that match the dict built from the query, in their order. */
    method GetFilteredDocs(catalogs: Catalogs, patchFiles: seq<string>, retrievedDocs: seq<Document>)
      returns (filteredDocs: seq<Document>)
      ensures filteredDocs == FilterDocs(QueryFilter(query, previousQuery, catalogs, patchFiles), retrievedDocs)
    {
      var filterCriteria := DynamicFilter(catalogs, patchFiles);
      filteredDocs := FilterByCriteria(filterCriteria, retrievedDocs);
    }
  }

  /**
   * The keys of the filter: only the five known ones, at most one id, and a
   * category exactly when an id was found or the query mentions "item" (a
   * "summarize" or "updates" query without a subject gets no category). Every
   * category value is one the storer gives passages or `heroes`.
   */
  lemma QueryFilterShape(query: string, previousQuery: Option<string>, catalogs: Catalogs, patchFiles: seq<string>)
    ensures var f := QueryFilter(query, previousQuery, catalogs, patchFiles);
      f.Keys <= FilterKeys
      && !("hero_id" in f && "item_id" in f) && !("hero_id" in f && "ability_id" in f)
      && !("item_id" in f && "ability_id" in f)
      && ("category" in f <==> "hero_id" in f || "item_id" in f || "ability_id" in f || Contains(Lower(query), "item"))
      && ("category" in f ==> forall c :: c in AllowedValues(f["category"]) ==> c in FilterCategories)
  {
    var lq := Lower(query);
    var lp := PrevLower(previousQuery);
    AssembleShape(VersionOf(lq, lp, patchFiles), SubjectOf(lq, lp, catalogs));
  }

  /**
   * A query that says "latest" is filtered by the latest patch version in the
   * directory: there is a version key iff some `.json` file name starts with
   * a version, and its value is the version a stable sort by the split-digit
   * key puts last.
   */
  lemma LatestQueryVersion(query: string, previousQuery: Option<string>, catalogs: Catalogs, patchFiles: seq<string>)
    requires Contains(Lower(query), "latest")
    ensures var f := QueryFilter(query, previousQuery, catalogs, patchFiles);
      ("patch_version" in f <==> exists fn :: fn in patchFiles && IsPatchFile(fn))
      && ("patch_version" in f ==>
            exists k :: IsLastMaximum(PatchVersions(patchFiles), k) && f["patch_version"] == One(PatchVersions(patchFiles)[k]))
  {
    var f := QueryFilter(query, previousQuery, catalogs, patchFiles);
    var vs := PatchVersions(patchFiles);
    QueryFilterVersion(query, previousQuery, catalogs, patchFiles);
    assert VersionOf(Lower(query), PrevLower(previousQuery), patchFiles) == Latest(vs);
    PatchVersionsFromFiles(patchFiles);
    LatestIsLastMaximum(vs);
    if "patch_version" in f {
      var k :| IsLastMaximum(vs, k) && vs[k] == Latest(vs).value;
      assert f["patch_version"] == One(vs[k]);
    }
  }

  /** The `patch_version` key holds the version step 1 found, and is absent when it found none. */
  lemma QueryFilterVersion(query: string, previousQuery: Option<string>, catalogs: Catalogs, patchFiles: seq<string>)
    ensures var f := QueryFilter(query, previousQuery, catalogs, patchFiles);
      var v := VersionOf(Lower(query), PrevLower(previousQuery), patchFiles);
      ("patch_version" in f <==> v.Some?) && (v.Some? ==> f["patch_version"] == One(v.value))
  {
    var lq := Lower(query);
    var lp := PrevLower(previousQuery);
    AssembleShape(VersionOf(lq, lp, patchFiles), SubjectOf(lq, lp, catalogs));
  }

  /**
   * Any other query is filtered by the leftmost version it names; when it
   * names none, by the leftmost version the previous query names; when
   * neither does, by no version at all.
   */
  lemma NamedQueryVersion(query: string, previousQuery: Option<string>, catalogs: Catalogs, patchFiles: seq<string>)
    requires !Contains(Lower(query), "latest")
    ensures var f := QueryFilter(query, previousQuery, catalogs, patchFiles);
      var lq := Lower(query);
      var lp := PrevLower(previousQuery);
      ("patch_version" in f <==> !NoMatchFrom(lq, 0) || !NoMatchFrom(lp, 0))
      && (!NoMatchFrom(lq, 0) ==> exists i: nat :: LeftmostFrom(lq, 0, i, f["patch_version"].value))
      && (NoMatchFrom(lq, 0) && !NoMatchFrom(lp, 0) ==> exists i: nat :: LeftmostFrom(lp, 0, i, f["patch_version"].value))
  {
    var lq := Lower(query);
    var lp := PrevLower(previousQuery);
    FirstVersionIsLeftmost(lq);
    FirstVersionIsLeftmost(lp);
    QueryFilterVersion(query, previousQuery, catalogs, patchFiles);
  }

  /**
   * The hero named first in the query (in catalog order) wins over the
   * previous query, and the categories come from the keywords of the current
   * query alone.
   */
  lemma HeroFromQuery(query: string, previousQuery: Option<string>, catalogs: Catalogs, patchFiles: seq<string>, k: int)
    requires IsFirstMatch(catalogs.heroes, Lower(query), k) && catalogs.heroes[k] != ""
    ensures var f := QueryFilter(query, previousQuery, catalogs, patchFiles);
      "hero_id" in f && f["hero_id"] == One(catalogs.heroes[k])
      && "category" in f && f["category"] == Many(HeroCategories(Lower(query)))
  {
    var lq := Lower(query);
    FirstMatchIsFirst(catalogs.heroes, lq, k);
  }

  /**
   * A query that names no hero takes the hero of the previous query, and
   * still takes its categories from its own keywords.
   */
  lemma HeroFromPreviousQuery(query: string, previousQuery: Option<string>, catalogs: Catalogs, patchFiles: seq<string>, k: int)
    requires forall j :: 0 <= j < |catalogs.heroes| ==> !Contains(Lower(query), catalogs.heroes[j])
    requires IsFirstMatch(catalogs.heroes, PrevLower(previousQuery), k) && catalogs.heroes[k] != ""
    ensures var f := QueryFilter(query, previousQuery, catalogs, patchFiles);
      "hero_id" in f && f["hero_id"] == One(catalogs.heroes[k])
      && f["category"] == Many(HeroCategories(Lower(query)))
  {
    FirstMatchIsFirst(catalogs.heroes, PrevLower(previousQuery), k);
  }

  /**
   * A `hero_id` is always a non-empty catalog name that occurs in the query,
   * or, when no non-empty name occurs first in the query, in the previous
   * query.
   */
  lemma HeroIdIsNamed(query: string, previousQuery: Option<string>, catalogs: Catalogs, patchFiles: seq<string>)
    ensures var f := QueryFilter(query, previousQuery, catalogs, patchFiles);
      var lq := Lower(query);
      var lp := PrevLower(previousQuery);
      "hero_id" in f ==>
        exists j :: 0 <= j < |catalogs.heroes| && f["hero_id"] == One(catalogs.heroes[j]) && catalogs.heroes[j] != ""
          && (IsFirstMatch(catalogs.heroes, lq, j)
              || (!Truthy(FirstMatch(catalogs.heroes, lq)) && IsFirstMatch(catalogs.heroes, lp, j)))
  {
    var lq := Lower(query);
    var lp := PrevLower(previousQuery);
    AssembleShape(VersionOf(lq, lp, patchFiles), SubjectOf(lq, lp, catalogs));
  }

  /**
   * Without a hero, the item and ability lookups read the current query only:
   * the first item it names, else the first ability it names, with the
   * matching category.
   */
  lemma ItemOrAbilityFromQuery(query: string, previousQuery: Option<string>, catalogs: Catalogs, patchFiles: seq<string>)
    requires !Truthy(HeroOf(Lower(query), PrevLower(previousQuery), catalogs.heroes))
    ensures var f := QueryFilter(query, previousQuery, catalogs, patchFiles);
      var lq := Lower(query);
      "hero_id" !in f
      && ("item_id" in f <==> exists j :: 0 <= j < |catalogs.items| && Contains(lq, catalogs.items[j]))
      && ("item_id" in f ==>
            (exists j :: IsFirstMatch(catalogs.items, lq, j) && f["item_id"] == One(catalogs.items[j]))
            && f["category"] == One("items"))
      && ("ability_id" in f <==> "item_id" !in f && exists j :: 0 <= j < |catalogs.abilities| && Contains(lq, catalogs.abilities[j]))
      && ("ability_id" in f ==>
            (exists j :: IsFirstMatch(catalogs.abilities, lq, j) && f["ability_id"] == One(catalogs.abilities[j]))
            && f["category"] == One("heroes-abilities"))
  {
    var lq := Lower(query);
    var lp := PrevLower(previousQuery);
    AssembleShape(VersionOf(lq, lp, patchFiles), SubjectOf(lq, lp, catalogs));
  }

  /**
   * The bare mention of items: with no hero, and no item or ability named in
   * the query, the filter gets the scalar category `items` and no id exactly
   * when the query contains "item"; otherwise it gets no category at all.
   */
  lemma BareItemQuery(query: string, previousQuery: Option<string>, catalogs: Catalogs, patchFiles: seq<string>)
    requires !Truthy(HeroOf(Lower(query), PrevLower(previousQuery), catalogs.heroes))
    requires !AnyMatch(catalogs.items, Lower(query)) && !AnyMatch(catalogs.abilities, Lower(query))
    ensures var f := QueryFilter(query, previousQuery, catalogs, patchFiles);
      "hero_id" !in f && "item_id" !in f && "ability_id" !in f
      && ("category" in f <==> Contains(Lower(query), "item"))
      && ("category" in f ==> f["category"] == One("items"))
  {
    var lq := Lower(query);
    var lp := PrevLower(previousQuery);
    AssembleShape(VersionOf(lq, lp, patchFiles), SubjectOf(lq, lp, catalogs));
  }
}
