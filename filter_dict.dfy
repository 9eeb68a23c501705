/**
 * The pieces the query classifiers (`dynamic_filter` in `strainer.py`,
 * `retriever.py` and `test.py`) have in common: what a query is about, the
 * hero category ladder, and the filter dict they assemble from a patch version
 * and a subject.
 */
module FilterDict {
  import opened Text
  import opened Wrappers
  import opened PassageFilter

  /** What a query is about, in the order the classifiers test for it. */
  datatype Subject =
    | HeroSubject(hero: string, categories: seq<string>)
    | ItemSubject(item: string)
    | AbilitySubject(ability: string)
    | AllItems
    | NoSubject

  /** The categories of a hero query that names no particular kind of change. */
  const HeroCategoryNames: seq<string> := ["heroes", "heroes-abilities", "heroes-base", "heroes-talents"]

  /** Every category a stored passage can carry: the ones the metadata builders of the storer write. */
  const StoredCategories: set<string> :=
    {"heroes-abilities", "heroes-base", "heroes-talents", "items", "generic-updates"}

  /**
   * Every category a filter can ask for: the stored ones and `heroes`, which
   * the default hero filter lists although no passage carries it.
   */
  const FilterCategories: set<string> := StoredCategories + {"heroes"}

  /**
   * The keyword ladder of a hero query: `talent`, then `skill` or `ability`,
   * then `base`, each narrowing the categories to one; with none of them, all
   * four hero categories.
   */
  function HeroCategories(lq: string): (r: seq<string>)
    ensures 0 < |r| && forall k :: 0 <= k < |r| ==> r[k] in HeroCategoryNames
    ensures r == HeroCategoryNames <==>
              !Contains(lq, "talent") && !Contains(lq, "skill") && !Contains(lq, "ability") && !Contains(lq, "base")
    ensures Contains(lq, "talent") ==> r == ["heroes-talents"]
    ensures !Contains(lq, "talent") && (Contains(lq, "skill") || Contains(lq, "ability")) ==> r == ["heroes-abilities"]
    ensures (!Contains(lq, "talent") && !Contains(lq, "skill") && !Contains(lq, "ability") && Contains(lq, "base"))
              ==> r == ["heroes-base"]
  {
    if Contains(lq, "talent") then ["heroes-talents"]
    else if Contains(lq, "skill") || Contains(lq, "ability") then ["heroes-abilities"]
    else if Contains(lq, "base") then ["heroes-base"]
    else HeroCategoryNames
  }

  /** A `next(..., None)` result that Python treats as true: present and not the empty string. */
  predicate Truthy(o: Option<string>) {
    o.Some? && o.value != ""
  }

  /** The filter dict for a patch version and a subject. */
  function Assemble(version: Option<string>, subject: Subject): Criteria {
    var base: Criteria := if version.Some? then map["patch_version" := One(version.value)] else map[];
    match subject
    case HeroSubject(h, cats) => base["hero_id" := One(h)]["category" := Many(cats)]
    case ItemSubject(i) => base["item_id" := One(i)]["category" := One("items")]
    case AbilitySubject(a) => base["ability_id" := One(a)]["category" := One("heroes-abilities")]
    case AllItems => base["category" := One("items")]
    case NoSubject => base
  }

  /** The keys a classifier may set. */
  const FilterKeys: set<string> := {"patch_version", "hero_id", "item_id", "ability_id", "category"}

  /**
   * The shape of every assembled filter: only the five known keys, at most one
   * id, a category exactly when there is a subject, and every category value
   * one the storer gives passages or the never-stored `heroes`.
   */
  lemma AssembleShape(version: Option<string>, subject: Subject)
    requires subject.HeroSubject? ==> forall k :: 0 <= k < |subject.categories| ==> subject.categories[k] in HeroCategoryNames
    ensures var f := Assemble(version, subject);
      f.Keys <= FilterKeys
      && ("patch_version" in f <==> version.Some?)
      && (version.Some? ==> f["patch_version"] == One(version.value))
      && !("hero_id" in f && "item_id" in f) && !("hero_id" in f && "ability_id" in f)
      && !("item_id" in f && "ability_id" in f)
      && ("category" in f <==> !subject.NoSubject?)
      && ("category" in f ==> forall c :: c in AllowedValues(f["category"]) ==> c in FilterCategories)
  {
    var f := Assemble(version, subject);
    if "category" in f {
      forall c | c in AllowedValues(f["category"])
        ensures c in FilterCategories
      {
        match subject
        case HeroSubject(h, cats) =>
          var k :| 0 <= k < |cats| && c == Lower(cats[k]);
          assert cats[k] in HeroCategoryNames;
          LowerCategoryNames(cats[k]);
        case ItemSubject(_) =>
          LowerCategoryNames("items");
        case AbilitySubject(_) =>
          LowerCategoryNames("heroes-abilities");
        case AllItems =>
          LowerCategoryNames("items");
      }
    }
  }

  /** The category names are already lower case, so `str(val).lower()` leaves them as they are. */
  lemma LowerCategoryNames(c: string)
    requires c in FilterCategories
    ensures Lower(c) == c
  {
  }
}
