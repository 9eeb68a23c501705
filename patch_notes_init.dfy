/**
 * `add_default_hero_values` of `src/init_setup/modify_patch_notes.py`: every
 * hero of a loaded patch note gets talent, base-stat and ability notes (a
 * default where one is missing, a change prefix on every existing note with a
 * `note` text), and its facet subsections are flattened into its abilities
 * and base-stat notes, after which the subsections are deleted.
 *
 * `json.load` builds a tree in which no dict or list is shared, so changing a
 * hero's dicts in place and rebuilding the hero as a value give the same tree;
 * the methods below do the latter.
 */
module PatchNotesInit {
  import opened Text
  import opened Values

  const NoTalentChanges: string := "No updates/changes in talents"
  const NoBaseChanges: string := "No updates/changes in base stats"
  const TalentPrefix: string := "Changes in talent: "
  const BasePrefix: string := "Changes in hero's base or general stats: "
  const AbilityPrefix: string := "Changes in ability: "

  /** The keys of a hero that the normalisation writes or deletes. */
  const HeroKeys: set<string> := {"talent_notes", "hero_notes", "abilities", "subsections"}

  // The shape of a patch note that the function relies on: anywhere else it
  // raises (a `.get` on a non-dict, a `+` of a prefix and a non-string, a
  // `{**note}` of a non-mapping), apart from the shapes `IsNote` admits.

  /**
   * A note the prefix loops accept: a dict whose `note`, when present, is a
   * string, or a plain string in which `"note" in s`, a substring test, is
   * false, so the loop passes over it.
   */
  predicate IsNote(j: Json) {
    (j.Obj? && ("note" in j.fields ==> j.fields["note"].Leaf? && j.fields["note"].v.Str?))
    || (j.Leaf? && j.v.Str? && !Contains(j.v.s, "note"))
  }

  predicate IsNoteList(j: Json) {
    j.List? && forall k :: 0 <= k < |j.items| ==> IsNote(j.items[k])
  }

  /** A list of dicts: the notes of a subsection, which are only copied. */
  predicate IsDictList(j: Json) {
    j.List? && forall k :: 0 <= k < |j.items| ==> j.items[k].Obj?
  }

  predicate IsAbility(j: Json) {
    j.Obj? && ("ability_notes" in j.fields ==> IsNoteList(j.fields["ability_notes"]))
  }

  predicate IsSubsectionAbility(j: Json) {
    j.Obj? && ("ability_notes" in j.fields ==> IsDictList(j.fields["ability_notes"]))
  }

  predicate IsSubsection(j: Json) {
    j.Obj?
    && ("abilities" in j.fields ==>
          j.fields["abilities"].List?
          && forall k :: 0 <= k < |j.fields["abilities"].items| ==> IsSubsectionAbility(j.fields["abilities"].items[k]))
    && ("general_notes" in j.fields ==> IsDictList(j.fields["general_notes"]))
  }

  predicate AllSubsections(subs: seq<Json>) {
    forall k :: 0 <= k < |subs| ==> IsSubsection(subs[k])
  }

  predicate IsHero(hero: map<string, Json>) {
    ("talent_notes" in hero ==> IsNoteList(hero["talent_notes"]))
    && ("hero_notes" in hero ==> IsNoteList(hero["hero_notes"]))
    && ("abilities" in hero ==>
          hero["abilities"].List?
          && forall k :: 0 <= k < |hero["abilities"].items| ==> IsAbility(hero["abilities"].items[k]))
    && ("subsections" in hero ==> hero["subsections"].List? && AllSubsections(hero["subsections"].items))
  }

  predicate IsHeroList(heroes: seq<Json>) {
    forall k :: 0 <= k < |heroes| ==> heroes[k].Obj? && IsHero(heroes[k].fields)
  }

  predicate IsPatchNote(data: map<string, Json>) {
    "heroes" in data ==> data["heroes"].List? && IsHeroList(data["heroes"].items)
  }

  // What the function does, one piece at a time.

  /** A note with the prefix in front of its `note` text; a note without one is left alone. */
  function PrefixNote(note: Json, prefix: string): Json
    requires IsNote(note)
  {
    if note.Obj? && "note" in note.fields then Obj(note.fields["note" := JStr(prefix + note.fields["note"].v.s)]) else note
  }

  function PrefixNotes(notes: seq<Json>, prefix: string): seq<Json>
    requires forall k :: 0 <= k < |notes| ==> IsNote(notes[k])
  {
    seq(|notes|, k requires 0 <= k < |notes| => PrefixNote(notes[k], prefix))
  }

  /** An existing ability with its notes prefixed. */
  function PrefixAbility(ability: Json): Json
    requires IsAbility(ability)
  {
    if "ability_notes" in ability.fields then
      Obj(ability.fields["ability_notes" := List(PrefixNotes(ability.fields["ability_notes"].items, AbilityPrefix))])
    else ability
  }

  function PrefixAbilities(abilities: seq<Json>): seq<Json>
    requires forall k :: 0 <= k < |abilities| ==> IsAbility(abilities[k])
  {
    seq(|abilities|, k requires 0 <= k < |abilities| => PrefixAbility(abilities[k]))
  }

  /** `subsection.get("title", "")`. */
  function Title(sub: Json): Json
    requires sub.Obj?
  {
    if "title" in sub.fields then sub.fields["title"] else JStr("")
  }

  /** `{**note, "facet": facet}`. */
  function Tagged(note: Json, facet: Json): Json
    requires note.Obj?
  {
    Obj(note.fields["facet" := facet])
  }

  function TagNotes(notes: seq<Json>, facet: Json): seq<Json>
    requires forall k :: 0 <= k < |notes| ==> notes[k].Obj?
  {
    seq(|notes|, k requires 0 <= k < |notes| => Tagged(notes[k], facet))
  }

  /** The items of a list-valued key of a dict, or `[]` when the key is missing. */
  function ListAt(fields: map<string, Json>, key: string): seq<Json> {
    if key in fields then ItemsOf(fields[key]) else []
  }

  /** The ability appended for one ability of a subsection. */
  function FacetAbility(ability: Json, facet: Json): Json
    requires IsSubsectionAbility(ability)
  {
    var f := ability.fields;
    Obj(map["ability_id" := (if "ability_id" in f then f["ability_id"] else Leaf(NaN)),
            "ability_notes" := List(TagNotes(ListAt(f, "ability_notes"), facet))])
  }

  /** The abilities one subsection contributes. */
  function SubsectionAbilities(sub: Json): seq<Json>
    requires IsSubsection(sub)
  {
    var abilities := ListAt(sub.fields, "abilities");
    seq(|abilities|, k requires 0 <= k < |abilities| => FacetAbility(abilities[k], Title(sub)))
  }

  /** The base-stat notes one subsection contributes. */
  function SubsectionNotes(sub: Json): seq<Json>
    requires IsSubsection(sub)
  {
    TagNotes(ListAt(sub.fields, "general_notes"), Title(sub))
  }

  /** The abilities all subsections contribute, in order. */
  function FlatAbilities(subs: seq<Json>): seq<Json>
    requires AllSubsections(subs)
  {
    if subs == [] then [] else FlatAbilities(subs[..|subs| - 1]) + SubsectionAbilities(subs[|subs| - 1])
  }

  /** The base-stat notes all subsections contribute, in order. */
  function FlatNotes(subs: seq<Json>): seq<Json>
    requires AllSubsections(subs)
  {
    if subs == [] then [] else FlatNotes(subs[..|subs| - 1]) + SubsectionNotes(subs[|subs| - 1])
  }

  /** A note list after the first three steps: prefixed when present, the default otherwise. */
  function NotesOrDefault(hero: map<string, Json>, key: string, prefix: string, default: string): seq<Json>
    requires key in hero ==> IsNoteList(hero[key])
  {
    if key in hero then PrefixNotes(hero[key].items, prefix) else [JStr(default)]
  }

  function AbilitiesOrDefault(hero: map<string, Json>): seq<Json>
    requires IsHero(hero)
  {
    if "abilities" in hero then PrefixAbilities(hero["abilities"].items) else []
  }

  /** The subsections of a hero, or none. */
  function Subsections(hero: map<string, Json>): seq<Json>
    requires IsHero(hero)
  {
    if "subsections" in hero then hero["subsections"].items else []
  }

  /** One hero after `add_default_hero_values`. */
  function NormalizedHero(hero: map<string, Json>): map<string, Json>
    requires IsHero(hero)
  {
    var talents := NotesOrDefault(hero, "talent_notes", TalentPrefix, NoTalentChanges);
    var notes := NotesOrDefault(hero, "hero_notes", BasePrefix, NoBaseChanges);
    var abilities := AbilitiesOrDefault(hero);
    var h := hero["talent_notes" := List(talents)]["hero_notes" := List(notes)]["abilities" := List(abilities)];
    if "subsections" in hero then
      var subs := hero["subsections"].items;
      h["abilities" := List(abilities + FlatAbilities(subs))]["hero_notes" := List(notes + FlatNotes(subs))] - {"subsections"}
    else h
  }

  function NormalizedHeroes(heroes: seq<Json>): seq<Json>
    requires IsHeroList(heroes)
  {
    seq(|heroes|, k requires 0 <= k < |heroes| => Obj(NormalizedHero(heroes[k].fields)))
  }

  /** A whole patch note after `add_default_hero_values`. */
  function Normalized(data: map<string, Json>): map<string, Json>
    requires IsPatchNote(data)
  {
    if "heroes" in data then data["heroes" := List(NormalizedHeroes(data["heroes"].items))] else data
  }

  // What the source promises about the result.

  /**
   * `after` is `before` with exactly one `prefix` in front of its `note` text,
   * if it has one, and nothing else changed; a string note stays as it was.
   */
  predicate PrefixedOnce(before: Json, after: Json, prefix: string) {
    if !before.Obj? then after == before
    else
    after.Obj? && after.fields.Keys == before.fields.Keys
    && (forall k :: k in before.fields && k != "note" ==> after.fields[k] == before.fields[k])
    && ("note" in before.fields ==>
          before.fields["note"].Leaf? && before.fields["note"].v.Str?
          && after.fields["note"] == JStr(prefix + before.fields["note"].v.s))
  }

  lemma PrefixNotesPrefixOnce(notes: seq<Json>, prefix: string)
    requires forall k :: 0 <= k < |notes| ==> IsNote(notes[k])
    ensures |PrefixNotes(notes, prefix)| == |notes|
    ensures forall k :: 0 <= k < |notes| ==> PrefixedOnce(notes[k], PrefixNotes(notes, prefix)[k], prefix)
  {
  }

  /** `after` is `before` with the `facet` key set and every other key, its `note` included, as it was. */
  predicate TaggedWith(before: Json, after: Json, facet: Json)
    requires before.Obj?
  {
    after.Obj? && after.fields.Keys == before.fields.Keys + {"facet"} && after.fields["facet"] == facet
    && forall k :: k in before.fields && k != "facet" ==> after.fields[k] == before.fields[k]
  }

  /**
   * An ability appended from a subsection keeps its id (`nan` when it has
   * none) and carries its notes in order, each tagged with the facet and none
   * of them prefixed.
   */
  lemma FacetAbilityShape(ability: Json, facet: Json)
    requires IsSubsectionAbility(ability)
    ensures var r := FacetAbility(ability, facet);
      var notes := ListAt(ability.fields, "ability_notes");
      r.Obj? && r.fields.Keys == {"ability_id", "ability_notes"}
      && r.fields["ability_id"] == (if "ability_id" in ability.fields then ability.fields["ability_id"] else Leaf(NaN))
      && r.fields["ability_notes"].List? && |r.fields["ability_notes"].items| == |notes|
      && forall k :: 0 <= k < |notes| ==> TaggedWith(notes[k], r.fields["ability_notes"].items[k], facet)
  {
  }

  /** The number of abilities over all subsections. */
  function AbilityCount(subs: seq<Json>): nat
    requires AllSubsections(subs)
  {
    if subs == [] then 0 else AbilityCount(subs[..|subs| - 1]) + |ListAt(subs[|subs| - 1].fields, "abilities")|
  }

  /** The number of general notes over all subsections. */
  function GeneralNoteCount(subs: seq<Json>): nat
    requires AllSubsections(subs)
  {
    if subs == [] then 0 else GeneralNoteCount(subs[..|subs| - 1]) + |ListAt(subs[|subs| - 1].fields, "general_notes")|
  }

  lemma AllSubsectionsConcat(a: seq<Json>, b: seq<Json>)
    requires AllSubsections(a) && AllSubsections(b)
    ensures AllSubsections(a + b)
  {
    var ab := a + b;
    forall k | 0 <= k < |ab|
      ensures IsSubsection(ab[k])
    {
      if k >= |a| {
        assert ab[k] == b[k - |a|];
      }
    }
  }

  /** Subsections are flattened one after the other: the abilities for `a + b` are those for `a`, then those for `b`. */
  lemma {:induction false} FlatAbilitiesConcat(a: seq<Json>, b: seq<Json>)
    requires AllSubsections(a) && AllSubsections(b)
    ensures AllSubsections(a + b) && FlatAbilities(a + b) == FlatAbilities(a) + FlatAbilities(b)
    decreases |b|
  {
    AllSubsectionsConcat(a, b);
    if b == [] {
      assert a + b == a;
    } else {
      var b' := b[..|b| - 1];
      var last := b[|b| - 1];
      assert (a + b)[..|a + b| - 1] == a + b';
      assert (a + b)[|a + b| - 1] == last;
      FlatAbilitiesConcat(a, b');
      calc {
        FlatAbilities(a + b);
        FlatAbilities(a + b') + SubsectionAbilities(last);
        FlatAbilities(a) + FlatAbilities(b') + SubsectionAbilities(last);
        FlatAbilities(a) + FlatAbilities(b);
      }
    }
  }

  /** The same for the base-stat notes. */
  lemma {:induction false} FlatNotesConcat(a: seq<Json>, b: seq<Json>)
    requires AllSubsections(a) && AllSubsections(b)
    ensures AllSubsections(a + b) && FlatNotes(a + b) == FlatNotes(a) + FlatNotes(b)
    decreases |b|
  {
    AllSubsectionsConcat(a, b);
    if b == [] {
      assert a + b == a;
    } else {
      var b' := b[..|b| - 1];
      var last := b[|b| - 1];
      assert (a + b)[..|a + b| - 1] == a + b';
      assert (a + b)[|a + b| - 1] == last;
      FlatNotesConcat(a, b');
      calc {
        FlatNotes(a + b);
        FlatNotes(a + b') + SubsectionNotes(last);
        FlatNotes(a) + FlatNotes(b') + SubsectionNotes(last);
        FlatNotes(a) + FlatNotes(b);
      }
    }
  }

  /** One subsection contributes its own abilities and notes. */
  lemma FlattenOne(sub: Json)
    requires IsSubsection(sub)
    ensures FlatAbilities([sub]) == SubsectionAbilities(sub)
    ensures FlatNotes([sub]) == SubsectionNotes(sub)
  {
    assert [sub][..0] == [];
  }

  /** Every ability and general note of every subsection is appended, and nothing else. */
  lemma {:induction false} FlattenCounts(subs: seq<Json>)
    requires AllSubsections(subs)
    ensures |FlatAbilities(subs)| == AbilityCount(subs)
    ensures |FlatNotes(subs)| == GeneralNoteCount(subs)
  {
    if subs != [] {
      FlattenCounts(subs[..|subs| - 1]);
    }
  }

  /**
   * Afterwards a hero has `talent_notes`, `hero_notes` and `abilities`, all
   * lists, and no `subsections`; every other key is as it was.
   */
  lemma NormalizedHeroKeys(hero: map<string, Json>)
    requires IsHero(hero)
    ensures var r := NormalizedHero(hero);
      r.Keys == hero.Keys - {"subsections"} + {"talent_notes", "hero_notes", "abilities"}
      && "subsections" !in r
      && r["talent_notes"].List? && r["hero_notes"].List? && r["abilities"].List?
      && forall k :: k in hero && k !in HeroKeys ==> r[k] == hero[k]
  {
  }

  /**
   * Missing note lists get their defaults (the base-stat default and an empty
   * ability list then receive what the subsections append).
   */
  lemma NormalizedHeroDefaults(hero: map<string, Json>)
    requires IsHero(hero)
    ensures var r := NormalizedHero(hero);
      var subs := Subsections(hero);
      AllSubsections(subs)
      && ("talent_notes" !in hero ==> r["talent_notes"] == List([JStr(NoTalentChanges)]))
      && ("hero_notes" !in hero ==> r["hero_notes"] == List([JStr(NoBaseChanges)] + FlatNotes(subs)))
      && ("abilities" !in hero ==> r["abilities"] == List(FlatAbilities(subs)))
  {
    if "subsections" !in hero {
      assert Subsections(hero) == [];
    }
  }

  /**
   * Every note a hero had gets exactly one prefix, in place; the subsection
   * notes and abilities follow them, and the lists grow by exactly the number
   * of those.
   */
  lemma NormalizedHeroNotes(hero: map<string, Json>)
    requires IsHero(hero)
    ensures var r := NormalizedHero(hero);
      var subs := Subsections(hero);
      var talents := r["talent_notes"].items;
      var notes := r["hero_notes"].items;
      var abilities := r["abilities"].items;
      var notes0 := if "hero_notes" in hero then hero["hero_notes"].items else [JStr(NoBaseChanges)];
      var abilities0 := ListAt(hero, "abilities");
      AllSubsections(subs)
      && ("talent_notes" in hero ==>
            var before := hero["talent_notes"].items;
            |talents| == |before| && forall k :: 0 <= k < |before| ==> PrefixedOnce(before[k], talents[k], TalentPrefix))
      && |notes| == |notes0| + GeneralNoteCount(subs) && notes[|notes0|..] == FlatNotes(subs)
      && ("hero_notes" in hero ==>
            forall k :: 0 <= k < |notes0| ==> PrefixedOnce(notes0[k], notes[k], BasePrefix))
      && |abilities| == |abilities0| + AbilityCount(subs) && abilities[|abilities0|..] == FlatAbilities(subs)
      && forall k :: 0 <= k < |abilities0| ==> abilities[k] == PrefixAbility(abilities0[k])
  {
    var subs := Subsections(hero);
    if "subsections" !in hero {
      assert subs == [];
    }
    FlattenCounts(subs);
    if "talent_notes" in hero {
      PrefixNotesPrefixOnce(hero["talent_notes"].items, TalentPrefix);
    }
    if "hero_notes" in hero {
      PrefixNotesPrefixOnce(hero["hero_notes"].items, BasePrefix);
    }
  }

  /** Each existing ability keeps every key but `ability_notes`, whose notes each get exactly one prefix. */
  lemma PrefixAbilityShape(ability: Json)
    requires IsAbility(ability)
    ensures var r := PrefixAbility(ability);
      r.Obj? && r.fields.Keys == ability.fields.Keys
      && (forall k :: k in ability.fields && k != "ability_notes" ==> r.fields[k] == ability.fields[k])
      && ("ability_notes" in ability.fields ==>
            var before := ability.fields["ability_notes"].items;
            var after := r.fields["ability_notes"].items;
            |after| == |before| && forall k :: 0 <= k < |before| ==> PrefixedOnce(before[k], after[k], AbilityPrefix))
  {
    if "ability_notes" in ability.fields {
      PrefixNotesPrefixOnce(ability.fields["ability_notes"].items, AbilityPrefix);
    }
  }

  /**
   * Only `data["heroes"]` changes: a patch note without heroes is returned as
   * it was, and every hero is normalised in its place.
   */
  lemma NormalizedKeepsOtherKeys(data: map<string, Json>)
    requires IsPatchNote(data)
    ensures var r := Normalized(data);
      r.Keys == data.Keys
      && (forall k :: k in data && k != "heroes" ==> r[k] == data[k])
      && ("heroes" !in data ==> r == data)
      && ("heroes" in data ==>
            var before := data["heroes"].items;
            r["heroes"].List? && |r["heroes"].items| == |before|
            && forall k :: 0 <= k < |before| ==> r["heroes"].items[k] == Obj(NormalizedHero(before[k].fields)))
  {
  }

  /** Afterwards every hero has the three note lists and no subsections. */
  lemma NormalizedHeroesComplete(data: map<string, Json>)
    requires IsPatchNote(data) && "heroes" in data
    ensures var heroes := Normalized(data)["heroes"].items;
      forall k :: 0 <= k < |heroes| ==>
        heroes[k].Obj? && "subsections" !in heroes[k].fields
        && "talent_notes" in heroes[k].fields && "hero_notes" in heroes[k].fields && "abilities" in heroes[k].fields
  {
    var before := data["heroes"].items;
    forall k | 0 <= k < |before|
      ensures var h := NormalizedHero(before[k].fields);
        "subsections" !in h && "talent_notes" in h && "hero_notes" in h && "abilities" in h
    {
      NormalizedHeroKeys(before[k].fields);
    }
  }

  // The loops of the source.

  /** The loop that prefixes the `note` of every note that has one. */
  method PrefixEach(notes: seq<Json>, prefix: string) returns (r: seq<Json>)
    requires forall k :: 0 <= k < |notes| ==> IsNote(notes[k])
    ensures r == PrefixNotes(notes, prefix)
  {
    r := [];
    for i := 0 to |notes|
      invariant |r| == i && forall k :: 0 <= k < i ==> r[k] == PrefixNote(notes[k], prefix)
    {
      var note := notes[i];
      if note.Obj? && "note" in note.fields {
        note := Obj(note.fields["note" := JStr(prefix + note.fields["note"].v.s)]);
      }
      r := r + [note];
    }
  }

  /** The loop over the existing abilities, prefixing the notes of each. */
  method PrefixEachAbility(abilities: seq<Json>) returns (r: seq<Json>)
    requires forall k :: 0 <= k < |abilities| ==> IsAbility(abilities[k])
    ensures r == PrefixAbilities(abilities)
  {
    r := [];
    for i := 0 to |abilities|
      invariant |r| == i && forall k :: 0 <= k < i ==> r[k] == PrefixAbility(abilities[k])
    {
      var ability := abilities[i];
      if "ability_notes" in ability.fields {
        var notes := PrefixEach(ability.fields["ability_notes"].items, AbilityPrefix);
        ability := Obj(ability.fields["ability_notes" := List(notes)]);
      }
      r := r + [ability];
    }
  }

  /** The comprehension that copies notes with a `facet`. */
  method TagEach(notes: seq<Json>, facet: Json) returns (r: seq<Json>)
    requires forall k :: 0 <= k < |notes| ==> notes[k].Obj?
    ensures r == TagNotes(notes, facet)
  {
    r := [];
    for i := 0 to |notes|
      invariant |r| == i && forall k :: 0 <= k < i ==> r[k] == Tagged(notes[k], facet)
    {
      r := r + [Obj(notes[i].fields["facet" := facet])];
    }
  }

  /** The loop over one subsection: its abilities, then its general notes, are appended. */
  method FlattenSubsection(sub: Json, abilities0: seq<Json>, notes0: seq<Json>)
    returns (abilities: seq<Json>, notes: seq<Json>)
    requires IsSubsection(sub)
    ensures abilities == abilities0 + SubsectionAbilities(sub)
    ensures notes == notes0 + SubsectionNotes(sub)
  {
    var title := if "title" in sub.fields then sub.fields["title"] else JStr("");
    var subAbilities := ListAt(sub.fields, "abilities");
    abilities := abilities0;
    for k := 0 to |subAbilities|
      invariant abilities == abilities0 + SubsectionAbilities(sub)[..k]
    {
      var ability := subAbilities[k].fields;
      var tagged := TagEach(ListAt(ability, "ability_notes"), title);
      var id := if "ability_id" in ability then ability["ability_id"] else Leaf(NaN);
      abilities := abilities + [Obj(map["ability_id" := id, "ability_notes" := List(tagged)])];
      assert SubsectionAbilities(sub)[..k + 1] == SubsectionAbilities(sub)[..k] + [SubsectionAbilities(sub)[k]];
    }
    assert SubsectionAbilities(sub)[..|subAbilities|] == SubsectionAbilities(sub);
    var generalNotes := ListAt(sub.fields, "general_notes");
    notes := notes0;
    for k := 0 to |generalNotes|
      invariant notes == notes0 + SubsectionNotes(sub)[..k]
    {
      notes := notes + [Obj(generalNotes[k].fields["facet" := title])];
      assert SubsectionNotes(sub)[..k + 1] == SubsectionNotes(sub)[..k] + [SubsectionNotes(sub)[k]];
    }
    assert SubsectionNotes(sub)[..|generalNotes|] == SubsectionNotes(sub);
  }

  /** The loop over all subsections of a hero. */
  method FlattenSubsections(subs: seq<Json>, abilities0: seq<Json>, notes0: seq<Json>)
    returns (abilities: seq<Json>, notes: seq<Json>)
    requires AllSubsections(subs)
    ensures abilities == abilities0 + FlatAbilities(subs)
    ensures notes == notes0 + FlatNotes(subs)
  {
    abilities, notes := abilities0, notes0;
    for i := 0 to |subs|
      invariant abilities == abilities0 + FlatAbilities(subs[..i])
      invariant notes == notes0 + FlatNotes(subs[..i])
    {
      assert subs[..i + 1][..i] == subs[..i];
      abilities, notes := FlattenSubsection(subs[i], abilities, notes);
    }
    assert subs[..|subs|] == subs;
  }

  /** The body of the loop over heroes. */
  method NormalizeHero(hero: map<string, Json>) returns (h: map<string, Json>)
    requires IsHero(hero)
    ensures h == NormalizedHero(hero)
  {
    h := hero;
    if "talent_notes" !in h {
      h := h["talent_notes" := List([JStr(NoTalentChanges)])];
    } else {
      var notes := PrefixEach(h["talent_notes"].items, TalentPrefix);
      h := h["talent_notes" := List(notes)];
    }
    if "hero_notes" !in h {
      h := h["hero_notes" := List([JStr(NoBaseChanges)])];
    } else {
      var notes := PrefixEach(h["hero_notes"].items, BasePrefix);
      h := h["hero_notes" := List(notes)];
    }
    if "abilities" !in h {
      h := h["abilities" := List([])];
    } else {
      var abilities := PrefixEachAbility(h["abilities"].items);
      h := h["abilities" := List(abilities)];
    }
    if "subsections" in h {
      var abilities, notes := FlattenSubsections(h["subsections"].items, h["abilities"].items, h["hero_notes"].items);
      h := h["abilities" := List(abilities)]["hero_notes" := List(notes)] - {"subsections"};
    }
  }

  /** `add_default_hero_values(data)`: every entry of `data["heroes"]` is normalised. */
  method AddDefaultHeroValues(data: map<string, Json>) returns (result: map<string, Json>)
    requires IsPatchNote(data)
    ensures result == Normalized(data)
  {
    result := data;
    if "heroes" in data {
      var heroes := data["heroes"].items;
      var normalized := [];
      for i := 0 to |heroes|
        invariant |normalized| == i && forall k :: 0 <= k < i ==> normalized[k] == Obj(NormalizedHero(heroes[k].fields))
      {
        var hero := NormalizeHero(heroes[i].fields);
        normalized := normalized + [Obj(hero)];
      }
      assert normalized == NormalizedHeroes(heroes);
      result := data["heroes" := List(normalized)];
    }
  }
}
