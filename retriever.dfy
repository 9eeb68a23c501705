/**
 * `RetrieveFilteredDocuments` of `retriever.py`: the single-query classifier,
 * with no previous query, no "latest" and no bare mention of items, and the
 * same passage filter as the strainer.
 */
module Retriever {
  import opened Text
  import opened Wrappers
  import opened VersionPattern
  import opened Catalog
  import opened Documents
  import opened PassageFilter
  import opened FilterDict
  import Strainer

  /** Step 2: a hero (tested with `any`, so an empty name counts), else an item, else an ability. */
  function SubjectOf(lq: string, catalogs: Catalogs): Subject {
    if AnyMatch(catalogs.heroes, lq) then HeroSubject(FirstMatch(catalogs.heroes, lq).value, HeroCategories(lq))
    else if AnyMatch(catalogs.items, lq) then ItemSubject(FirstMatch(catalogs.items, lq).value)
    else if AnyMatch(catalogs.abilities, lq) then AbilitySubject(FirstMatch(catalogs.abilities, lq).value)
    else NoSubject
  }

  /** The filter dict `dynamic_filter(query)` returns. */
  function QueryFilter(query: string, catalogs: Catalogs): Criteria {
    var lq := Lower(query);
    Assemble(FirstVersion(lq), SubjectOf(lq, catalogs))
  }

  /** `dynamic_filter`: the catalogs stand for the three mapper CSV files. */
  method DynamicFilter(query: string, catalogs: Catalogs) returns (filterDict: Criteria)
    ensures filterDict == QueryFilter(query, catalogs)
  {
    var queryLower := Lower(query);
    filterDict := map[];
    var patchMatch := FindAll(queryLower);
    if patchMatch != [] {
      filterDict := filterDict["patch_version" := One(patchMatch[0])];
    }
    ghost var version := FirstVersion(queryLower);
    assert filterDict == Assemble(version, NoSubject);
    if AnyMatch(catalogs.heroes, queryLower) {
      var heroId := FirstMatch(catalogs.heroes, queryLower).value;
      filterDict := filterDict["hero_id" := One(heroId)];
      if Contains(queryLower, "talent") {
        filterDict := filterDict["category" := Many(["heroes-talents"])];
      } else if Contains(queryLower, "skill") || Contains(queryLower, "ability") {
        filterDict := filterDict["category" := Many(["heroes-abilities"])];
      } else if Contains(queryLower, "base") {
        filterDict := filterDict["category" := Many(["heroes-base"])];
      } else {
        filterDict := filterDict["category" := Many(["heroes", "heroes-abilities", "heroes-base", "heroes-talents"])];
      }
    } else if AnyMatch(catalogs.items, queryLower) {
      var itemId := FirstMatch(catalogs.items, queryLower).value;
      filterDict := filterDict["item_id" := One(itemId)];
      filterDict := filterDict["category" := One("items")];
    } else if AnyMatch(catalogs.abilities, queryLower) {
      var abilityId := FirstMatch(catalogs.abilities, queryLower).value;
      filterDict := filterDict["ability_id" := One(abilityId)];
      filterDict := filterDict["category" := One("heroes-abilities")];
    } else if Contains(queryLower, "summarize") || Contains(queryLower, "updates") {
      filterDict := filterDict - {"category"};
    }
  }

  /** `get_filtered_docs(query, retrieved_docs)`. */
  method GetFilteredDocs(query: string, catalogs: Catalogs, retrievedDocs: seq<Document>)
    returns (filteredDocs: seq<Document>)
    ensures filteredDocs == FilterDocs(QueryFilter(query, catalogs), retrievedDocs)
  {
    var filterCriteria := DynamicFilter(query, catalogs);
    filteredDocs := FilterByCriteria(filterCriteria, retrievedDocs);
  }

  /**
   * The filter of a single query: the leftmost version it names, if any; the
   * five known keys only; and a category exactly when a hero, item or ability
   * is named, with every category value one the storer gives passages or `heroes`.
   */
  lemma QueryFilterShape(query: string, catalogs: Catalogs)
    ensures var f := QueryFilter(query, catalogs);
      var lq := Lower(query);
      f.Keys <= FilterKeys
      && ("patch_version" in f <==> !NoMatchFrom(lq, 0))
      && ("patch_version" in f ==> exists i: nat :: LeftmostFrom(lq, 0, i, f["patch_version"].value))
      && ("category" in f <==> "hero_id" in f || "item_id" in f || "ability_id" in f)
      && ("category" in f ==> forall c :: c in AllowedValues(f["category"]) ==> c in FilterCategories)
  {
    var lq := Lower(query);
    FirstVersionIsLeftmost(lq);
    AssembleShape(FirstVersion(lq), SubjectOf(lq, catalogs));
  }

  /** Hero before item before ability: at most one id is set, and it is set when a name of its catalog occurs and no earlier catalog's does. */
  lemma EntityPriority(query: string, catalogs: Catalogs)
    ensures var f := QueryFilter(query, catalogs);
      var lq := Lower(query);
      var hero := exists j :: 0 <= j < |catalogs.heroes| && Contains(lq, catalogs.heroes[j]);
      var item := exists j :: 0 <= j < |catalogs.items| && Contains(lq, catalogs.items[j]);
      var ability := exists j :: 0 <= j < |catalogs.abilities| && Contains(lq, catalogs.abilities[j]);
      ("hero_id" in f <==> hero)
      && ("item_id" in f <==> !hero && item)
      && ("ability_id" in f <==> !hero && !item && ability)
  {
  }

  /** The id set is the first name of its catalog that occurs in the query, and the category goes with it. */
  lemma EntityChosen(query: string, catalogs: Catalogs)
    ensures var f := QueryFilter(query, catalogs);
      var lq := Lower(query);
      ("hero_id" in f ==>
         "category" in f && f["category"] == Many(HeroCategories(lq))
         && exists j :: IsFirstMatch(catalogs.heroes, lq, j) && f["hero_id"] == One(catalogs.heroes[j]))
      && ("item_id" in f ==>
            "category" in f && f["category"] == One("items")
            && exists j :: IsFirstMatch(catalogs.items, lq, j) && f["item_id"] == One(catalogs.items[j]))
      && ("ability_id" in f ==>
            "category" in f && f["category"] == One("heroes-abilities")
            && exists j :: IsFirstMatch(catalogs.abilities, lq, j) && f["ability_id"] == One(catalogs.abilities[j]))
  {
  }

  /**
   * The strainer is this classifier plus three additions: for a query with
   * no previous query and no "latest", whose hero names are non-empty, the two
   * agree, except that a query naming no hero, item or ability but mentioning
   * "item" gets the `items` category from the strainer only.
   */
  lemma {:induction false} StrainerExtendsRetriever(query: string, catalogs: Catalogs, patchFiles: seq<string>)
    requires !Contains(Lower(query), "latest")
    requires "" !in catalogs.heroes
    ensures var lq := Lower(query);
      var bareItems := !AnyMatch(catalogs.heroes, lq) && !AnyMatch(catalogs.items, lq)
                       && !AnyMatch(catalogs.abilities, lq) && Contains(lq, "item");
      Strainer.QueryFilter(query, None, catalogs, patchFiles)
        == if bareItems then QueryFilter(query, catalogs)["category" := One("items")] else QueryFilter(query, catalogs)
  {
    var lq := Lower(query);
    assert FindAllFrom("", 0) == [];
    assert Strainer.VersionOf(lq, "", patchFiles) == FirstVersion(lq);
    var h := FirstMatch(catalogs.heroes, lq);
    if h.None? {
      NoMatchInEmpty(catalogs.heroes, lq);
      assert Strainer.HeroOf(lq, "", catalogs.heroes).None?;
    } else {
      assert h.value in catalogs.heroes;
      assert Strainer.HeroOf(lq, "", catalogs.heroes) == h;
    }
  }
}
