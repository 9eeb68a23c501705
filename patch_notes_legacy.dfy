/**
 * `add_default_hero_values` of `src/modify_patch_notes.py`, the older variant:
 * a hero missing `talent_notes`, `hero_notes` or `abilities` gets a
 * placeholder for it, and nothing else changes.
 */
module PatchNotesLegacy {
  import opened Values

  const NoChanges: string := "No updates/changes"

  /** The placeholder ability list: an id-only entry followed by a notes-only entry. */
  const DefaultAbilities: seq<Json> :=
    [Obj(map["ability_id" := Leaf(NaN)]), Obj(map["ability_notes" := List([JStr(NoChanges)])])]

  /** The keys the function may add to a hero. */
  const FilledKeys: set<string> := {"talent_notes", "hero_notes", "abilities"}

  /** The source writes keys into each hero, so every hero must be a dict. */
  predicate IsPatchNote(data: map<string, Json>) {
    "heroes" in data ==>
      data["heroes"].List? && forall k :: 0 <= k < |data["heroes"].items| ==> data["heroes"].items[k].Obj?
  }

  /** One hero with its missing keys filled in. */
  function FilledHero(hero: map<string, Json>): map<string, Json> {
    var h := if "talent_notes" in hero then hero else hero["talent_notes" := List([JStr(NoChanges)])];
    var h := if "hero_notes" in h then h else h["hero_notes" := List([JStr(NoChanges)])];
    if "abilities" in h then h else h["abilities" := List(DefaultAbilities)]
  }

  function FilledHeroes(heroes: seq<Json>): seq<Json>
    requires forall k :: 0 <= k < |heroes| ==> heroes[k].Obj?
  {
    seq(|heroes|, k requires 0 <= k < |heroes| => Obj(FilledHero(heroes[k].fields)))
  }

  /** A whole patch note after the older `add_default_hero_values`. */
  function Filled(data: map<string, Json>): map<string, Json>
    requires IsPatchNote(data)
  {
    if "heroes" in data then data["heroes" := List(FilledHeroes(data["heroes"].items))] else data
  }

  /** The body of the loop over heroes: three independent checks. */
  method FillHero(hero: map<string, Json>) returns (h: map<string, Json>)
    ensures h == FilledHero(hero)
  {
    h := hero;
    if "talent_notes" !in h {
      h := h["talent_notes" := List([JStr(NoChanges)])];
    }
    if "hero_notes" !in h {
      h := h["hero_notes" := List([JStr(NoChanges)])];
    }
    if "abilities" !in h {
      h := h["abilities" := List(DefaultAbilities)];
    }
  }

  /** `add_default_hero_values(data)`. */
  method AddDefaultHeroValues(data: map<string, Json>) returns (result: map<string, Json>)
    requires IsPatchNote(data)
    ensures result == Filled(data)
  {
    result := data;
    if "heroes" in data {
      var heroes := data["heroes"].items;
      var filled := [];
      for i := 0 to |heroes|
        invariant |filled| == i && forall k :: 0 <= k < i ==> filled[k] == Obj(FilledHero(heroes[k].fields))
      {
        var hero := FillHero(heroes[i].fields);
        filled := filled + [Obj(hero)];
      }
      assert filled == FilledHeroes(heroes);
      result := data["heroes" := List(filled)];
    }
  }

  /**
   * A filled hero has the three keys; a key it already had keeps its value
   * exactly, a missing one gets its placeholder, and no other key appears.
   */
  lemma FilledHeroDefaults(hero: map<string, Json>)
    ensures var r := FilledHero(hero);
      r.Keys == hero.Keys + FilledKeys
      && (forall k :: k in hero ==> r[k] == hero[k])
      && ("talent_notes" !in hero ==> r["talent_notes"] == List([JStr(NoChanges)]))
      && ("hero_notes" !in hero ==> r["hero_notes"] == List([JStr(NoChanges)]))
      && ("abilities" !in hero ==> r["abilities"] == List(DefaultAbilities))
  {
  }

  /** Filling a hero a second time changes nothing. */
  lemma FilledHeroIdempotent(hero: map<string, Json>)
    ensures FilledHero(FilledHero(hero)) == FilledHero(hero)
  {
    FilledHeroDefaults(hero);
  }

  /**
   * Only `data["heroes"]` changes: a patch note without heroes is returned as
   * it was, and each hero is filled in its place.
   */
  lemma FilledKeepsOtherKeys(data: map<string, Json>)
    requires IsPatchNote(data)
    ensures var r := Filled(data);
      r.Keys == data.Keys
      && (forall k :: k in data && k != "heroes" ==> r[k] == data[k])
      && ("heroes" !in data ==> r == data)
      && ("heroes" in data ==>
            var before := data["heroes"].items;
            r["heroes"].List? && |r["heroes"].items| == |before|
            && forall k :: 0 <= k < |before| ==> r["heroes"].items[k] == Obj(FilledHero(before[k].fields)))
  {
  }

  /** Running the script twice gives what running it once gives. */
  lemma FilledIdempotent(data: map<string, Json>)
    requires IsPatchNote(data)
    ensures IsPatchNote(Filled(data)) && Filled(Filled(data)) == Filled(data)
  {
    if "heroes" in data {
      var once := FilledHeroes(data["heroes"].items);
      forall k | 0 <= k < |once|
        ensures FilledHero(once[k].fields) == once[k].fields
      {
        FilledHeroIdempotent(data["heroes"].items[k].fields);
      }
      assert FilledHeroes(once) == once;
    }
  }
}
