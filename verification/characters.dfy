/** Player characters, NPCs and per-system creation templates, and their
    conversion to and from plain dictionaries for storage. Timestamps are
    carried as their ISO text, `isoformat` and `fromisoformat` being taken as
    inverse. */
module Characters {
  import opened Wrappers
  import opened Values

  // ---------------------------------------------------------------------
  // Readers: `d[key]` and `d.get(key, default)` at a given type

  function ReqStr(d: map<string, Value>, key: string): (r: Decoded<string>)
    ensures key !in d ==> r == Failure(MissingKey(key))
    ensures key in d ==> r == AsStr(d[key], key)
  {
    var v :- Required(d, key);
    AsStr(v, key)
  }

  function ReqInt(d: map<string, Value>, key: string): (r: Decoded<int>)
    ensures key !in d ==> r == Failure(MissingKey(key))
    ensures key in d ==> r == AsInt(d[key], key)
  {
    var v :- Required(d, key);
    AsInt(v, key)
  }

  function ReqStrList(d: map<string, Value>, key: string): (r: Decoded<seq<string>>)
    ensures key !in d ==> r == Failure(MissingKey(key))
    ensures key in d ==> r == AsStrList(d[key], key)
  {
    var v :- Required(d, key);
    AsStrList(v, key)
  }

  function StrOr(d: map<string, Value>, key: string, default: string): (r: Decoded<string>)
    ensures key !in d ==> r == Success(default)
  {
    AsStr(GetOr(d, key, Str(default)), key)
  }

  function IntOr(d: map<string, Value>, key: string, default: int): (r: Decoded<int>)
    ensures key !in d ==> r == Success(default)
  {
    AsInt(GetOr(d, key, Int(default)), key)
  }

  function BoolOr(d: map<string, Value>, key: string, default: bool): (r: Decoded<bool>)
    ensures key !in d ==> r == Success(default)
  {
    AsBool(GetOr(d, key, Bool(default)), key)
  }

  /** `d.get(key)`: absent and `None` both read as `None`. */
  function OptStrAt(d: map<string, Value>, key: string): (r: Decoded<Option<string>>)
    ensures key !in d ==> r == Success(None)
  {
    AsOptStr(GetOr(d, key, Null), key)
  }

  function OptIntAt(d: map<string, Value>, key: string): (r: Decoded<Option<int>>)
    ensures key !in d ==> r == Success(None)
  {
    AsOptInt(GetOr(d, key, Null), key)
  }

  function OptRealAt(d: map<string, Value>, key: string): (r: Decoded<Option<real>>)
    ensures key !in d ==> r == Success(None)
  {
    AsOptReal(GetOr(d, key, Null), key)
  }

  /** `d.get(key, [])` for a list of strings. */
  function StrListOr(d: map<string, Value>, key: string): (r: Decoded<seq<string>>)
    ensures key !in d ==> r == Success([])
  {
    AsStrList(GetOr(d, key, List([])), key)
  }

  /** `[dec(x) for x in d.get(key, [])]`. */
  function RecordsOr<T>(d: map<string, Value>, key: string, dec: Value -> Decoded<T>): (r: Decoded<seq<T>>)
    ensures key !in d ==> r == Success([])
  {
    var items :- AsList(GetOr(d, key, List([])), key);
    DecodeAll(items, dec)
  }

  lemma RecordsOrRoundTrip<T>(d: map<string, Value>, key: string, xs: seq<T>, enc: T -> Value, dec: Value -> Decoded<T>)
    requires key in d && d[key] == EncodeAll(xs, enc)
    requires forall i :: 0 <= i < |xs| ==> dec(enc(xs[i])) == Success(xs[i])
    ensures RecordsOr(d, key, dec) == Success(xs)
  {
    DecodeAllRoundTrip(EncodeAll(xs, enc).items, xs, dec);
  }

  // ---------------------------------------------------------------------
  // Features, equipment, spells, abilities, skills

  datatype Feature = Feature(name: string, source: string, description: string,
                             levelAcquired: Option<int>, usesPerDay: Option<int>, recharge: Option<string>)

  function FeatureToValue(f: Feature): (v: Value)
    ensures v.Dict? && v.fields.Keys == {"name", "source", "description", "level_acquired", "uses_per_day", "recharge"}
  {
    Dict(map["name" := Str(f.name), "source" := Str(f.source), "description" := Str(f.description),
             "level_acquired" := OptInt(f.levelAcquired), "uses_per_day" := OptInt(f.usesPerDay),
             "recharge" := OptStr(f.recharge)])
  }

  /** `create_feature`: name, source and description are required, the rest
      default to `None`. */
  function FeatureFromValue(v: Value): (r: Decoded<Feature>)
    ensures v.Dict? && ("name" !in v.fields || "source" !in v.fields || "description" !in v.fields) ==> r.Failure?
  {
    var d :- AsDict(v, "feature");
    var name :- ReqStr(d, "name");
    var source :- ReqStr(d, "source");
    var description :- ReqStr(d, "description");
    var level :- OptIntAt(d, "level_acquired");
    var uses :- OptIntAt(d, "uses_per_day");
    var recharge :- OptStrAt(d, "recharge");
    Success(Feature(name, source, description, level, uses, recharge))
  }

  lemma FeatureRoundTrip(f: Feature)
    ensures FeatureFromValue(FeatureToValue(f)) == Success(f)
  {
    var d := FeatureToValue(f).fields;
    assert d["level_acquired"] == OptInt(f.levelAcquired) && d["uses_per_day"] == OptInt(f.usesPerDay);
    assert d["recharge"] == OptStr(f.recharge);
  }

  lemma FeaturesRoundTrip(fs: seq<Feature>)
    ensures forall i :: 0 <= i < |fs| ==> FeatureFromValue(FeatureToValue(fs[i])) == Success(fs[i])
  {
    forall i | 0 <= i < |fs| ensures FeatureFromValue(FeatureToValue(fs[i])) == Success(fs[i]) {
      FeatureRoundTrip(fs[i]);
    }
  }

  datatype Equipment = Equipment(name: string, kind: string, quantity: int, weight: Option<real>,
                                 value: Option<string>, description: Option<string>,
                                 properties: Option<seq<string>>, equipped: bool)

  function OptStrList(o: Option<seq<string>>): Value
  {
    if o.Some? then StrList(o.value) else Null
  }

  /** `d.get(key)` for an optional list of strings. */
  function OptStrListAt(d: map<string, Value>, key: string): (r: Decoded<Option<seq<string>>>)
    ensures key !in d ==> r == Success(None)
  {
    var v := GetOr(d, key, Null);
    if v.Null? then Success(None)
    else
      var xs :- AsStrList(v, key);
      Success(Some(xs))
  }

  function EquipmentToValue(e: Equipment): (v: Value)
    ensures v.Dict? && v.fields.Keys == {"name", "type", "quantity", "weight", "value", "description", "properties", "equipped"}
  {
    Dict(map["name" := Str(e.name), "type" := Str(e.kind), "quantity" := Int(e.quantity),
             "weight" := OptReal(e.weight), "value" := OptStr(e.value), "description" := OptStr(e.description),
             "properties" := OptStrList(e.properties), "equipped" := Bool(e.equipped)])
  }

  /** `create_equipment`: name and type are required; quantity defaults to
      1, equipped to `False`, the rest to `None`. */
  function EquipmentFromValue(v: Value): (r: Decoded<Equipment>)
    ensures v.Dict? && ("name" !in v.fields || "type" !in v.fields) ==> r.Failure?
    ensures r.Success? ==> v.Dict? && ("quantity" in v.fields || r.value.quantity == 1)
    ensures r.Success? ==> v.Dict? && ("equipped" in v.fields || !r.value.equipped)
    ensures r.Success? ==> v.Dict? && ("properties" in v.fields || r.value.properties == None)
  {
    var d :- AsDict(v, "equipment");
    var name :- ReqStr(d, "name");
    var kind :- ReqStr(d, "type");
    var quantity :- IntOr(d, "quantity", 1);
    var weight :- OptRealAt(d, "weight");
    var value :- OptStrAt(d, "value");
    var description :- OptStrAt(d, "description");
    var properties :- OptStrListAt(d, "properties");
    var equipped :- BoolOr(d, "equipped", false);
    Success(Equipment(name, kind, quantity, weight, value, description, properties, equipped))
  }

  lemma EquipmentRoundTrip(e: Equipment)
    ensures EquipmentFromValue(EquipmentToValue(e)) == Success(e)
  {
    var d := EquipmentToValue(e).fields;
    assert d["weight"] == OptReal(e.weight) && d["value"] == OptStr(e.value);
    assert d["description"] == OptStr(e.description);
    assert d["properties"] == OptStrList(e.properties);
    if e.properties.Some? {
      StrListRoundTrip(e.properties.value, "properties");
    }
  }

  lemma EquipmentListRoundTrip(es: seq<Equipment>)
    ensures forall i :: 0 <= i < |es| ==> EquipmentFromValue(EquipmentToValue(es[i])) == Success(es[i])
  {
    forall i | 0 <= i < |es| ensures EquipmentFromValue(EquipmentToValue(es[i])) == Success(es[i]) {
      EquipmentRoundTrip(es[i]);
    }
  }

  datatype Spell = Spell(name: string, level: int, school: string, castingTime: string, range: string,
                         components: string, duration: string, description: string,
                         damage: Option<string>, save: Option<string>, prepared: bool)

  function SpellToValue(s: Spell): (v: Value)
    ensures v.Dict? && v.fields.Keys == {"name", "level", "school", "casting_time", "range", "components",
                                         "duration", "description", "damage", "save", "prepared"}
  {
    Dict(map["name" := Str(s.name), "level" := Int(s.level), "school" := Str(s.school),
             "casting_time" := Str(s.castingTime), "range" := Str(s.range), "components" := Str(s.components),
             "duration" := Str(s.duration), "description" := Str(s.description),
             "damage" := OptStr(s.damage), "save" := OptStr(s.save), "prepared" := Bool(s.prepared)])
  }

  /** The eight descriptive fields of a spell, all required. */
  function SpellText(d: map<string, Value>): (r: Decoded<(string, int, string, string, string, string, string, string)>)
  {
    var name :- ReqStr(d, "name");
    var level :- ReqInt(d, "level");
    var school :- ReqStr(d, "school");
    var castingTime :- ReqStr(d, "casting_time");
    var range :- ReqStr(d, "range");
    var components :- ReqStr(d, "components");
    var duration :- ReqStr(d, "duration");
    var description :- ReqStr(d, "description");
    Success((name, level, school, castingTime, range, components, duration, description))
  }

  /** `create_spell`: damage and save default to `None`, prepared to
      `False`. */
  function SpellFromValue(v: Value): (r: Decoded<Spell>)
    ensures r.Success? ==> v.Dict? && ("prepared" in v.fields || !r.value.prepared)
  {
    var d :- AsDict(v, "spell");
    var t :- SpellText(d);
    var damage :- OptStrAt(d, "damage");
    var save :- OptStrAt(d, "save");
    var prepared :- BoolOr(d, "prepared", false);
    Success(Spell(t.0, t.1, t.2, t.3, t.4, t.5, t.6, t.7, damage, save, prepared))
  }

  lemma SpellTextRoundTrip(s: Spell)
    ensures SpellText(SpellToValue(s).fields)
         == Success((s.name, s.level, s.school, s.castingTime, s.range, s.components, s.duration, s.description))
  {
    SpellLookups(s);
  }

  lemma SpellLookups(s: Spell)
    ensures var d := SpellToValue(s).fields;
      && d["name"] == Str(s.name) && d["level"] == Int(s.level) && d["school"] == Str(s.school)
      && d["casting_time"] == Str(s.castingTime)
    ensures var d := SpellToValue(s).fields;
      && d["range"] == Str(s.range) && d["components"] == Str(s.components)
      && d["duration"] == Str(s.duration) && d["description"] == Str(s.description)
  {
  }

  lemma SpellRoundTrip(s: Spell)
    ensures SpellFromValue(SpellToValue(s)) == Success(s)
  {
    var d := SpellToValue(s).fields;
    SpellTextRoundTrip(s);
    assert d["damage"] == OptStr(s.damage) && d["save"] == OptStr(s.save);
    assert d["prepared"] == Bool(s.prepared);
  }

  lemma SpellsRoundTrip(ss: seq<Spell>)
    ensures forall i :: 0 <= i < |ss| ==> SpellFromValue(SpellToValue(ss[i])) == Success(ss[i])
  {
    forall i | 0 <= i < |ss| ensures SpellFromValue(SpellToValue(ss[i])) == Success(ss[i]) {
      SpellRoundTrip(ss[i]);
    }
  }

  datatype Ability = Ability(name: string, value: int, modifier: Option<int>, description: Option<string>)

  function AbilityToValue(a: Ability): (v: Value)
    ensures v.Dict? && v.fields.Keys == {"name", "value", "modifier", "description"}
  {
    Dict(map["name" := Str(a.name), "value" := Int(a.value), "modifier" := OptInt(a.modifier),
             "description" := OptStr(a.description)])
  }

  function AbilityFromValue(v: Value): (r: Decoded<Ability>)
    ensures v.Dict? && ("name" !in v.fields || "value" !in v.fields) ==> r.Failure?
  {
    var d :- AsDict(v, "ability");
    var name :- ReqStr(d, "name");
    var value :- ReqInt(d, "value");
    var modifier :- OptIntAt(d, "modifier");
    var description :- OptStrAt(d, "description");
    Success(Ability(name, value, modifier, description))
  }

  lemma AbilityRoundTrip(a: Ability)
    ensures AbilityFromValue(AbilityToValue(a)) == Success(a)
  {
    var d := AbilityToValue(a).fields;
    assert d["modifier"] == OptInt(a.modifier) && d["description"] == OptStr(a.description);
  }

  datatype Skill = Skill(name: string, ability: string, proficient: bool, expertise: bool,
                         modifier: Option<int>, description: Option<string>)

  function SkillToValue(s: Skill): (v: Value)
    ensures v.Dict? && v.fields.Keys == {"name", "ability", "proficient", "expertise", "modifier", "description"}
  {
    Dict(map["name" := Str(s.name), "ability" := Str(s.ability), "proficient" := Bool(s.proficient),
             "expertise" := Bool(s.expertise), "modifier" := OptInt(s.modifier), "description" := OptStr(s.description)])
  }

  function SkillFromValue(v: Value): (r: Decoded<Skill>)
    ensures r.Success? ==> v.Dict? && ("proficient" in v.fields || !r.value.proficient)
    ensures r.Success? ==> v.Dict? && ("expertise" in v.fields || !r.value.expertise)
  {
    var d :- AsDict(v, "skill");
    var name :- ReqStr(d, "name");
    var ability :- ReqStr(d, "ability");
    var proficient :- BoolOr(d, "proficient", false);
    var expertise :- BoolOr(d, "expertise", false);
    var modifier :- OptIntAt(d, "modifier");
    var description :- OptStrAt(d, "description");
    Success(Skill(name, ability, proficient, expertise, modifier, description))
  }

  lemma SkillRoundTrip(s: Skill)
    ensures SkillFromValue(SkillToValue(s)) == Success(s)
  {
    var d := SkillToValue(s).fields;
    assert d["modifier"] == OptInt(s.modifier) && d["description"] == OptStr(s.description);
  }

  // ---------------------------------------------------------------------
  // Race, class, background

  datatype Race = Race(name: string, subrace: Option<string>, abilityScoreIncreases: map<string, int>,
                       size: string, speed: int, languages: seq<string>, proficiencies: seq<string>,
                       traits: seq<Feature>)

  function RaceToValue(r: Race): (v: Value)
    ensures v.Dict? && v.fields.Keys == {"name", "subrace", "ability_score_increases", "size", "speed",
                                         "languages", "proficiencies", "traits"}
  {
    Dict(map["name" := Str(r.name), "subrace" := OptStr(r.subrace),
             "ability_score_increases" := IntMap(r.abilityScoreIncreases), "size" := Str(r.size),
             "speed" := Int(r.speed), "languages" := StrList(r.languages),
             "proficiencies" := StrList(r.proficiencies), "traits" := EncodeAll(r.traits, FeatureToValue)])
  }

  /** The race read by `from_dict`: only the name is required; size
      defaults to `"Medium"`, speed to 30, collections to empty. */
  function RaceFromValue(v: Value): (r: Decoded<Race>)
    ensures v.Dict? && "name" !in v.fields ==> r.Failure?
    ensures r.Success? ==> v.Dict? && ("size" in v.fields || r.value.size == "Medium")
    ensures r.Success? ==> v.Dict? && ("speed" in v.fields || r.value.speed == 30)
  {
    var d :- AsDict(v, "race");
    var name :- ReqStr(d, "name");
    var subrace :- OptStrAt(d, "subrace");
    var increases :- AsIntMap(GetOr(d, "ability_score_increases", Dict(map[])), "ability_score_increases");
    var size :- StrOr(d, "size", "Medium");
    var speed :- IntOr(d, "speed", 30);
    var languages :- StrListOr(d, "languages");
    var proficiencies :- StrListOr(d, "proficiencies");
    var traits :- RecordsOr(d, "traits", FeatureFromValue);
    Success(Race(name, subrace, increases, size, speed, languages, proficiencies, traits))
  }

  lemma RaceLookups(r: Race)
    ensures var d := RaceToValue(r).fields;
      && d["name"] == Str(r.name) && d["subrace"] == OptStr(r.subrace)
      && d["ability_score_increases"] == IntMap(r.abilityScoreIncreases) && d["size"] == Str(r.size)
    ensures var d := RaceToValue(r).fields;
      && d["speed"] == Int(r.speed) && d["languages"] == StrList(r.languages)
      && d["proficiencies"] == StrList(r.proficiencies) && d["traits"] == EncodeAll(r.traits, FeatureToValue)
  {
  }

  lemma RaceRoundTrip(r: Race)
    ensures RaceFromValue(RaceToValue(r)) == Success(r)
  {
    var d := RaceToValue(r).fields;
    RaceLookups(r);
    IntMapRoundTrip(r.abilityScoreIncreases, "ability_score_increases");
    StrListRoundTrip(r.languages, "languages");
    StrListRoundTrip(r.proficiencies, "proficiencies");
    FeaturesRoundTrip(r.traits);
    RecordsOrRoundTrip(d, "traits", r.traits, FeatureToValue, FeatureFromValue);
  }

  datatype CharacterClass = CharacterClass(name: string, level: int, hitDie: string,
                                           primaryAbilities: seq<string>, savingThrowProficiencies: seq<string>,
                                           features: seq<Feature>, spellsKnown: Option<seq<Spell>>,
                                           spellSlots: Option<map<int, int>>)

  function OptSlots(o: Option<map<int, int>>): Value
  {
    if o.Some? then SlotMap(o.value) else Null
  }

  /** `spells_known or []` is what gets written, so an absent spell list is
      written as an empty one. */
  function ClassToValue(k: CharacterClass): (v: Value)
    ensures v.Dict? && v.fields.Keys == {"name", "level", "hit_die", "primary_abilities",
                                         "saving_throw_proficiencies", "features", "spells_known", "spell_slots"}
    ensures v.fields["spells_known"] == EncodeAll(k.spellsKnown.GetOr([]), SpellToValue)
  {
    Dict(map["name" := Str(k.name), "level" := Int(k.level), "hit_die" := Str(k.hitDie),
             "primary_abilities" := StrList(k.primaryAbilities),
             "saving_throw_proficiencies" := StrList(k.savingThrowProficiencies),
             "features" := EncodeAll(k.features, FeatureToValue),
             "spells_known" := EncodeAll(k.spellsKnown.GetOr([]), SpellToValue),
             "spell_slots" := OptSlots(k.spellSlots)])
  }

  /** The class read by `from_dict`: name, level, hit die and both ability
      lists are required; the spell list always comes back as a list. */
  function ClassFromValue(v: Value): (r: Decoded<CharacterClass>)
    ensures r.Success? ==> r.value.spellsKnown.Some?
  {
    var d :- AsDict(v, "character_class");
    var name :- ReqStr(d, "name");
    var level :- ReqInt(d, "level");
    var hitDie :- ReqStr(d, "hit_die");
    var primary :- ReqStrList(d, "primary_abilities");
    var saving :- ReqStrList(d, "saving_throw_proficiencies");
    var features :- RecordsOr(d, "features", FeatureFromValue);
    var spells :- RecordsOr(d, "spells_known", SpellFromValue);
    var slotsValue := GetOr(d, "spell_slots", Null);
    var slots :- if slotsValue.Null? then Success(None) else
                   var m :- AsSlotMap(slotsValue, "spell_slots"); Success(Some(m));
    Success(CharacterClass(name, level, hitDie, primary, saving, features, Some(spells), slots))
  }

  /** A class with no spell list is read back with an empty one. */
  function KnownSpells(k: CharacterClass): CharacterClass
  {
    k.(spellsKnown := Some(k.spellsKnown.GetOr([])))
  }

  lemma ClassLookups(k: CharacterClass)
    ensures var d := ClassToValue(k).fields;
      && d["name"] == Str(k.name) && d["level"] == Int(k.level) && d["hit_die"] == Str(k.hitDie)
      && d["primary_abilities"] == StrList(k.primaryAbilities)
    ensures var d := ClassToValue(k).fields;
      && d["saving_throw_proficiencies"] == StrList(k.savingThrowProficiencies)
      && d["features"] == EncodeAll(k.features, FeatureToValue)
      && d["spell_slots"] == OptSlots(k.spellSlots)
  {
  }

  lemma ClassRoundTrip(k: CharacterClass)
    ensures ClassFromValue(ClassToValue(k)) == Success(KnownSpells(k))
  {
    var d := ClassToValue(k).fields;
    ClassLookups(k);
    StrListRoundTrip(k.primaryAbilities, "primary_abilities");
    StrListRoundTrip(k.savingThrowProficiencies, "saving_throw_proficiencies");
    FeaturesRoundTrip(k.features);
    RecordsOrRoundTrip(d, "features", k.features, FeatureToValue, FeatureFromValue);
    SpellsRoundTrip(k.spellsKnown.GetOr([]));
    RecordsOrRoundTrip(d, "spells_known", k.spellsKnown.GetOr([]), SpellToValue, SpellFromValue);
    if k.spellSlots.Some? {
      SlotMapRoundTrip(k.spellSlots.value, "spell_slots");
    }
  }

  datatype Background = Background(name: string, skillProficiencies: seq<string>, languages: seq<string>,
                                   equipment: seq<Equipment>, features: seq<Feature>,
                                   ideals: seq<string>, bonds: seq<string>, flaws: seq<string>)

  function BackgroundToValue(b: Background): (v: Value)
    ensures v.Dict? && v.fields.Keys == {"name", "skill_proficiencies", "languages", "equipment", "features",
                                         "ideals", "bonds", "flaws"}
  {
    Dict(map["name" := Str(b.name), "skill_proficiencies" := StrList(b.skillProficiencies),
             "languages" := StrList(b.languages), "equipment" := EncodeAll(b.equipment, EquipmentToValue),
             "features" := EncodeAll(b.features, FeatureToValue), "ideals" := StrList(b.ideals),
             "bonds" := StrList(b.bonds), "flaws" := StrList(b.flaws)])
  }

  /** The background read by `from_dict`: only the name is required. */
  function BackgroundFromValue(v: Value): (r: Decoded<Background>)
    ensures v.Dict? && "name" !in v.fields ==> r.Failure?
  {
    var d :- AsDict(v, "background");
    var name :- ReqStr(d, "name");
    var skills :- StrListOr(d, "skill_proficiencies");
    var languages :- StrListOr(d, "languages");
    var equipment :- RecordsOr(d, "equipment", EquipmentFromValue);
    var features :- RecordsOr(d, "features", FeatureFromValue);
    var ideals :- StrListOr(d, "ideals");
    var bonds :- StrListOr(d, "bonds");
    var flaws :- StrListOr(d, "flaws");
    Success(Background(name, skills, languages, equipment, features, ideals, bonds, flaws))
  }

  lemma BackgroundLookups(b: Background)
    ensures var d := BackgroundToValue(b).fields;
      && d["name"] == Str(b.name) && d["skill_proficiencies"] == StrList(b.skillProficiencies)
      && d["languages"] == StrList(b.languages) && d["equipment"] == EncodeAll(b.equipment, EquipmentToValue)
    ensures var d := BackgroundToValue(b).fields;
      && d["features"] == EncodeAll(b.features, FeatureToValue) && d["ideals"] == StrList(b.ideals)
      && d["bonds"] == StrList(b.bonds) && d["flaws"] == StrList(b.flaws)
  {
  }

  lemma BackgroundRoundTrip(b: Background)
    ensures BackgroundFromValue(BackgroundToValue(b)) == Success(b)
  {
    var d := BackgroundToValue(b).fields;
    BackgroundLookups(b);
    StrListRoundTrip(b.skillProficiencies, "skill_proficiencies");
    StrListRoundTrip(b.languages, "languages");
    StrListRoundTrip(b.ideals, "ideals");
    StrListRoundTrip(b.bonds, "bonds");
    StrListRoundTrip(b.flaws, "flaws");
    EquipmentListRoundTrip(b.equipment);
    RecordsOrRoundTrip(d, "equipment", b.equipment, EquipmentToValue, EquipmentFromValue);
    FeaturesRoundTrip(b.features);
    RecordsOrRoundTrip(d, "features", b.features, FeatureToValue, FeatureFromValue);
  }

  // ---------------------------------------------------------------------
  // Characters

  datatype Character = Character(
    id: string, name: string, system: string,
    race: Race, characterClass: CharacterClass, background: Background, level: int,
    abilities: map<string, Ability>, skills: map<string, Skill>, proficiencies: seq<string>,
    armorClass: int, hitPoints: int, maxHitPoints: int, hitDice: string,
    equipment: seq<Equipment>, spells: seq<Spell>, spellSlots: map<int, int>, features: seq<Feature>,
    personalityTraits: seq<string>, ideals: seq<string>, bonds: seq<string>, flaws: seq<string>,
    createdAt: string, updatedAt: string, campaignId: Option<string>, playerName: Option<string>, notes: string)

  /** The keys `Character.from_dict` reads with `data[key]`. */
  const CharacterRequired: set<string> :=
    {"id", "name", "system", "race", "character_class", "background", "level", "abilities", "skills",
     "created_at", "updated_at"}

  /** `Character.to_dict`. */
  function CharacterToDict(c: Character): map<string, Value>
  {
    CharacterDict(c, RaceToValue(c.race), ClassToValue(c.characterClass), BackgroundToValue(c.background),
                  EncodeMap(c.abilities, AbilityToValue), EncodeMap(c.skills, SkillToValue),
                  EncodeAll(c.equipment, EquipmentToValue), EncodeAll(c.spells, SpellToValue),
                  EncodeAll(c.features, FeatureToValue))
  }

  /** Every key `to_dict` writes. */
  const CharacterKeys: set<string> := CharacterRequired +
    {"proficiencies", "armor_class", "hit_points", "max_hit_points", "hit_dice", "equipment", "spells",
     "spell_slots", "features", "personality_traits", "ideals", "bonds", "flaws", "campaign_id",
     "player_name", "notes"}

  /** The dictionary `to_dict` builds, given its nested parts already encoded. */
  function CharacterDict(c: Character, race: Value, klass: Value, background: Value, abilities: Value,
                         skills: Value, equipment: Value, spells: Value, features: Value): map<string, Value>
  {
    map["id" := Str(c.id), "name" := Str(c.name), "system" := Str(c.system),
        "race" := race, "character_class" := klass, "background" := background, "level" := Int(c.level),
        "abilities" := abilities, "skills" := skills, "proficiencies" := StrList(c.proficiencies),
        "armor_class" := Int(c.armorClass), "hit_points" := Int(c.hitPoints),
        "max_hit_points" := Int(c.maxHitPoints), "hit_dice" := Str(c.hitDice),
        "equipment" := equipment, "spells" := spells, "spell_slots" := SlotMap(c.spellSlots), "features" := features,
        "personality_traits" := StrList(c.personalityTraits), "ideals" := StrList(c.ideals),
        "bonds" := StrList(c.bonds), "flaws" := StrList(c.flaws),
        "created_at" := Str(c.createdAt), "updated_at" := Str(c.updatedAt),
        "campaign_id" := OptStr(c.campaignId), "player_name" := OptStr(c.playerName), "notes" := Str(c.notes)]
  }

  /** Race, class and background, each required. */
  function CharacterParts(d: map<string, Value>): (r: Decoded<(Race, CharacterClass, Background)>)
    ensures !({"race", "character_class", "background"} <= d.Keys) ==> r.Failure?
  {
    var rv :- Required(d, "race");
    var race :- RaceFromValue(rv);
    var kv :- Required(d, "character_class");
    var klass :- ClassFromValue(kv);
    var bv :- Required(d, "background");
    var background :- BackgroundFromValue(bv);
    Success((race, klass, background))
  }

  /** The ability and skill tables, each required and keyed as stored. */
  function CharacterScores(d: map<string, Value>): (r: Decoded<(map<string, Ability>, map<string, Skill>)>)
    ensures !({"abilities", "skills"} <= d.Keys) ==> r.Failure?
    ensures r.Success? ==> d["abilities"].Dict? && r.value.0.Keys == d["abilities"].fields.Keys
    ensures r.Success? ==> d["skills"].Dict? && r.value.1.Keys == d["skills"].fields.Keys
  {
    var av :- Required(d, "abilities");
    var abilities :- DecodeMap(av, AbilityFromValue, "abilities");
    var sv :- Required(d, "skills");
    var skills :- DecodeMap(sv, SkillFromValue, "skills");
    Success((abilities, skills))
  }

  function CharacterHeader(d: map<string, Value>): (r: Decoded<(string, string, string, int)>)
    ensures !({"id", "name", "system", "level"} <= d.Keys) ==> r.Failure?
  {
    var id :- ReqStr(d, "id");
    var name :- ReqStr(d, "name");
    var system :- ReqStr(d, "system");
    var level :- ReqInt(d, "level");
    Success((id, name, system, level))
  }

  /** Proficiencies and combat numbers, all defaulted. */
  function CharacterCombat(d: map<string, Value>): (r: Decoded<(seq<string>, int, int, int, string)>)
    ensures r.Success? && "armor_class" !in d ==> r.value.1 == 10
    ensures r.Success? && "hit_points" !in d ==> r.value.2 == 1
    ensures r.Success? && "max_hit_points" !in d ==> r.value.3 == 1
    ensures r.Success? && "hit_dice" !in d ==> r.value.4 == "1d8"
  {
    var proficiencies :- StrListOr(d, "proficiencies");
    var armorClass :- IntOr(d, "armor_class", 10);
    var hitPoints :- IntOr(d, "hit_points", 1);
    var maxHitPoints :- IntOr(d, "max_hit_points", 1);
    var hitDice :- StrOr(d, "hit_dice", "1d8");
    Success((proficiencies, armorClass, hitPoints, maxHitPoints, hitDice))
  }

  /** `data.get("spell_slots", {})`; an empty dictionary is the same Python
      value whichever key type it is written with. */
  function SlotsOr(d: map<string, Value>, key: string): (r: Decoded<map<int, int>>)
    ensures key !in d ==> r == Success(map[])
  {
    var v := GetOr(d, key, IntDict(map[]));
    if v == Dict(map[]) then Success(map[]) else AsSlotMap(v, key)
  }

  function CharacterKit(d: map<string, Value>): (r: Decoded<(seq<Equipment>, seq<Spell>, map<int, int>, seq<Feature>)>)
  {
    var equipment :- RecordsOr(d, "equipment", EquipmentFromValue);
    var spells :- RecordsOr(d, "spells", SpellFromValue);
    var slots :- SlotsOr(d, "spell_slots");
    var features :- RecordsOr(d, "features", FeatureFromValue);
    Success((equipment, spells, slots, features))
  }

  function CharacterPersona(d: map<string, Value>): (r: Decoded<(seq<string>, seq<string>, seq<string>, seq<string>)>)
  {
    var traits :- StrListOr(d, "personality_traits");
    var ideals :- StrListOr(d, "ideals");
    var bonds :- StrListOr(d, "bonds");
    var flaws :- StrListOr(d, "flaws");
    Success((traits, ideals, bonds, flaws))
  }

  function CharacterMeta(d: map<string, Value>): (r: Decoded<(string, string, Option<string>, Option<string>, string)>)
    ensures !({"created_at", "updated_at"} <= d.Keys) ==> r.Failure?
    ensures r.Success? && "notes" !in d ==> r.value.4 == ""
  {
    var createdAt :- ReqStr(d, "created_at");
    var updatedAt :- ReqStr(d, "updated_at");
    var campaignId :- OptStrAt(d, "campaign_id");
    var playerName :- OptStrAt(d, "player_name");
    var notes :- StrOr(d, "notes", "");
    Success((createdAt, updatedAt, campaignId, playerName, notes))
  }

  /** `Character.from_dict`. */
  function CharacterFromDict(d: map<string, Value>): (r: Decoded<Character>)
    ensures r.Success? <==> CharacterParts(d).Success? && CharacterScores(d).Success? && CharacterHeader(d).Success?
                            && CharacterCombat(d).Success? && CharacterKit(d).Success?
                            && CharacterPersona(d).Success? && CharacterMeta(d).Success?
  {
    var parts :- CharacterParts(d);
    var scores :- CharacterScores(d);
    var header :- CharacterHeader(d);
    var combat :- CharacterCombat(d);
    var kit :- CharacterKit(d);
    var persona :- CharacterPersona(d);
    var meta :- CharacterMeta(d);
    Success(Character(header.0, header.1, header.2, parts.0, parts.1, parts.2, header.3,
                      scores.0, scores.1, combat.0, combat.1, combat.2, combat.3, combat.4,
                      kit.0, kit.1, kit.2, kit.3, persona.0, persona.1, persona.2, persona.3,
                      meta.0, meta.1, meta.2, meta.3, meta.4))
  }

  /** Every key read with `data[key]` must be present. */
  lemma CharacterNeedsRequiredKeys(d: map<string, Value>)
    ensures !(CharacterRequired <= d.Keys) ==> CharacterFromDict(d).Failure?
  {
    if !(CharacterRequired <= d.Keys) {
      var k :| k in CharacterRequired && k !in d;
      if k in {"race", "character_class", "background"} {
        assert CharacterParts(d).Failure?;
      } else if k in {"abilities", "skills"} {
        assert CharacterScores(d).Failure?;
      } else if k in {"id", "name", "system", "level"} {
        assert CharacterHeader(d).Failure?;
      } else {
        assert CharacterMeta(d).Failure?;
      }
    }
  }

  /** Absent optional keys read as the dataclass defaults. */
  lemma CharacterDefaults(d: map<string, Value>)
    requires CharacterFromDict(d).Success?
    ensures var c := CharacterFromDict(d).value;
      && ("armor_class" in d || c.armorClass == 10)
      && ("hit_points" in d || c.hitPoints == 1)
      && ("max_hit_points" in d || c.maxHitPoints == 1)
      && ("hit_dice" in d || c.hitDice == "1d8")
      && ("notes" in d || c.notes == "")
      && ("size" in d["race"].fields || c.race.size == "Medium")
      && ("speed" in d["race"].fields || c.race.speed == 30)
  {
    var rv := d["race"];
    assert RaceFromValue(rv).Success?;
  }

  /** The ability and skill tables keep exactly their keys. */
  lemma CharacterKeepsTableKeys(d: map<string, Value>)
    requires CharacterFromDict(d).Success?
    ensures d["abilities"].Dict? && CharacterFromDict(d).value.abilities.Keys == d["abilities"].fields.Keys
    ensures d["skills"].Dict? && CharacterFromDict(d).value.skills.Keys == d["skills"].fields.Keys
  {
  }

  lemma CharacterLookupsParts(c: Character, race: Value, klass: Value, background: Value, abilities: Value, skills: Value, equipment: Value, spells: Value, features: Value)
    ensures var d := CharacterDict(c, race, klass, background, abilities, skills, equipment, spells, features);
      && Holds(d, "race", race) && Holds(d, "character_class", klass) && Holds(d, "background", background)
    ensures var d := CharacterDict(c, race, klass, background, abilities, skills, equipment, spells, features);
      && Holds(d, "abilities", abilities) && Holds(d, "skills", skills)
  {
  }

  lemma CharacterLookupsHeader(c: Character, race: Value, klass: Value, background: Value, abilities: Value, skills: Value, equipment: Value, spells: Value, features: Value)
    ensures var d := CharacterDict(c, race, klass, background, abilities, skills, equipment, spells, features);
      && Holds(d, "id", Str(c.id)) && Holds(d, "name", Str(c.name)) && Holds(d, "system", Str(c.system))
      && Holds(d, "level", Int(c.level))
  {
  }

  lemma CharacterLookupsCombat(c: Character, race: Value, klass: Value, background: Value, abilities: Value, skills: Value, equipment: Value, spells: Value, features: Value)
    ensures var d := CharacterDict(c, race, klass, background, abilities, skills, equipment, spells, features);
      && Holds(d, "proficiencies", StrList(c.proficiencies)) && Holds(d, "armor_class", Int(c.armorClass))
      && Holds(d, "hit_points", Int(c.hitPoints)) && Holds(d, "max_hit_points", Int(c.maxHitPoints))
      && Holds(d, "hit_dice", Str(c.hitDice))
    ensures var d := CharacterDict(c, race, klass, background, abilities, skills, equipment, spells, features);
      && Holds(d, "equipment", equipment) && Holds(d, "spells", spells)
      && Holds(d, "spell_slots", SlotMap(c.spellSlots)) && Holds(d, "features", features)
  {
  }

  lemma CharacterLookupsPersona(c: Character, race: Value, klass: Value, background: Value, abilities: Value, skills: Value, equipment: Value, spells: Value, features: Value)
    ensures var d := CharacterDict(c, race, klass, background, abilities, skills, equipment, spells, features);
      && Holds(d, "personality_traits", StrList(c.personalityTraits)) && Holds(d, "ideals", StrList(c.ideals))
      && Holds(d, "bonds", StrList(c.bonds)) && Holds(d, "flaws", StrList(c.flaws))
    ensures var d := CharacterDict(c, race, klass, background, abilities, skills, equipment, spells, features);
      && Holds(d, "created_at", Str(c.createdAt)) && Holds(d, "updated_at", Str(c.updatedAt))
      && Holds(d, "campaign_id", OptStr(c.campaignId)) && Holds(d, "player_name", OptStr(c.playerName))
      && Holds(d, "notes", Str(c.notes))
  {
  }

  /** `to_dict` writes exactly the dataclass's fields. */
  lemma CharacterToDictKeys(c: Character)
    ensures CharacterToDict(c).Keys == CharacterKeys
  {
  }

  /** What `to_dict` writes under each key, in the form the group lemmas below read. */
  predicate WrittenFrom(d: map<string, Value>, c: Character)
  {
    && Holds(d, "race", RaceToValue(c.race)) && Holds(d, "character_class", ClassToValue(c.characterClass))
    && Holds(d, "background", BackgroundToValue(c.background))
    && Holds(d, "abilities", EncodeMap(c.abilities, AbilityToValue)) && Holds(d, "skills", EncodeMap(c.skills, SkillToValue))
    && Holds(d, "id", Str(c.id)) && Holds(d, "name", Str(c.name)) && Holds(d, "system", Str(c.system))
    && Holds(d, "level", Int(c.level))
    && Holds(d, "proficiencies", StrList(c.proficiencies)) && Holds(d, "armor_class", Int(c.armorClass))
    && Holds(d, "hit_points", Int(c.hitPoints)) && Holds(d, "max_hit_points", Int(c.maxHitPoints))
    && Holds(d, "hit_dice", Str(c.hitDice))
    && Holds(d, "equipment", EncodeAll(c.equipment, EquipmentToValue)) && Holds(d, "spells", EncodeAll(c.spells, SpellToValue))
    && Holds(d, "spell_slots", SlotMap(c.spellSlots)) && Holds(d, "features", EncodeAll(c.features, FeatureToValue))
    && Holds(d, "personality_traits", StrList(c.personalityTraits)) && Holds(d, "ideals", StrList(c.ideals))
    && Holds(d, "bonds", StrList(c.bonds)) && Holds(d, "flaws", StrList(c.flaws))
    && Holds(d, "created_at", Str(c.createdAt)) && Holds(d, "updated_at", Str(c.updatedAt))
    && Holds(d, "campaign_id", OptStr(c.campaignId)) && Holds(d, "player_name", OptStr(c.playerName))
    && Holds(d, "notes", Str(c.notes))
  }

  lemma CharacterLookups(c: Character)
    ensures WrittenFrom(CharacterToDict(c), c)
  {
    var race, klass, background := RaceToValue(c.race), ClassToValue(c.characterClass), BackgroundToValue(c.background);
    var abilities, skills := EncodeMap(c.abilities, AbilityToValue), EncodeMap(c.skills, SkillToValue);
    var equipment, spells := EncodeAll(c.equipment, EquipmentToValue), EncodeAll(c.spells, SpellToValue);
    var features := EncodeAll(c.features, FeatureToValue);
    CharacterLookupsParts(c, race, klass, background, abilities, skills, equipment, spells, features);
    CharacterLookupsHeader(c, race, klass, background, abilities, skills, equipment, spells, features);
    CharacterLookupsCombat(c, race, klass, background, abilities, skills, equipment, spells, features);
    CharacterLookupsPersona(c, race, klass, background, abilities, skills, equipment, spells, features);
  }

  lemma CharacterPartsRoundTrip(d: map<string, Value>, c: Character)
    requires Holds(d, "race", RaceToValue(c.race)) && Holds(d, "character_class", ClassToValue(c.characterClass))
    requires Holds(d, "background", BackgroundToValue(c.background))
    ensures CharacterParts(d) == Success((c.race, KnownSpells(c.characterClass), c.background))
  {
    RaceRoundTrip(c.race);
    ClassRoundTrip(c.characterClass);
    BackgroundRoundTrip(c.background);
  }

  lemma CharacterScoresRoundTrip(d: map<string, Value>, c: Character)
    requires Holds(d, "abilities", EncodeMap(c.abilities, AbilityToValue))
    requires Holds(d, "skills", EncodeMap(c.skills, SkillToValue))
    ensures CharacterScores(d) == Success((c.abilities, c.skills))
  {
    forall k | k in c.abilities
      ensures AbilityFromValue(AbilityToValue(c.abilities[k])) == Success(c.abilities[k])
    {
      AbilityRoundTrip(c.abilities[k]);
    }
    forall k | k in c.skills
      ensures SkillFromValue(SkillToValue(c.skills[k])) == Success(c.skills[k])
    {
      SkillRoundTrip(c.skills[k]);
    }
    DecodeMapRoundTrip(c.abilities, AbilityToValue, AbilityFromValue, "abilities");
    DecodeMapRoundTrip(c.skills, SkillToValue, SkillFromValue, "skills");
  }

  lemma CharacterCombatRoundTrip(d: map<string, Value>, c: Character)
    requires WrittenFrom(d, c)
    ensures CharacterHeader(d) == Success((c.id, c.name, c.system, c.level))
    ensures CharacterCombat(d) == Success((c.proficiencies, c.armorClass, c.hitPoints, c.maxHitPoints, c.hitDice))
    ensures CharacterPersona(d) == Success((c.personalityTraits, c.ideals, c.bonds, c.flaws))
    ensures CharacterMeta(d) == Success((c.createdAt, c.updatedAt, c.campaignId, c.playerName, c.notes))
  {
    HeaderRead(d, c);
    CombatRead(d, c);
    PersonaRead(d, c);
    MetaRead(d, c);
  }

  lemma HeaderRead(d: map<string, Value>, c: Character)
    requires Holds(d, "id", Str(c.id)) && Holds(d, "name", Str(c.name)) && Holds(d, "system", Str(c.system))
    requires Holds(d, "level", Int(c.level))
    ensures CharacterHeader(d) == Success((c.id, c.name, c.system, c.level))
  {
  }

  lemma MetaRead(d: map<string, Value>, c: Character)
    requires Holds(d, "created_at", Str(c.createdAt)) && Holds(d, "updated_at", Str(c.updatedAt))
    requires Holds(d, "campaign_id", OptStr(c.campaignId)) && Holds(d, "player_name", OptStr(c.playerName))
    requires Holds(d, "notes", Str(c.notes))
    ensures CharacterMeta(d) == Success((c.createdAt, c.updatedAt, c.campaignId, c.playerName, c.notes))
  {
  }

  lemma CombatRead(d: map<string, Value>, c: Character)
    requires Holds(d, "proficiencies", StrList(c.proficiencies)) && Holds(d, "armor_class", Int(c.armorClass))
    requires Holds(d, "hit_points", Int(c.hitPoints)) && Holds(d, "max_hit_points", Int(c.maxHitPoints))
    requires Holds(d, "hit_dice", Str(c.hitDice))
    ensures CharacterCombat(d) == Success((c.proficiencies, c.armorClass, c.hitPoints, c.maxHitPoints, c.hitDice))
  {
    StrListRoundTrip(c.proficiencies, "proficiencies");
  }

  lemma PersonaRead(d: map<string, Value>, c: Character)
    requires Holds(d, "personality_traits", StrList(c.personalityTraits)) && Holds(d, "ideals", StrList(c.ideals))
    requires Holds(d, "bonds", StrList(c.bonds)) && Holds(d, "flaws", StrList(c.flaws))
    ensures CharacterPersona(d) == Success((c.personalityTraits, c.ideals, c.bonds, c.flaws))
  {
    StrListRoundTrip(c.personalityTraits, "personality_traits");
    StrListRoundTrip(c.ideals, "ideals");
    StrListRoundTrip(c.bonds, "bonds");
    StrListRoundTrip(c.flaws, "flaws");
  }


  lemma CharacterKitRoundTrip(d: map<string, Value>, c: Character)
    requires Holds(d, "equipment", EncodeAll(c.equipment, EquipmentToValue))
    requires Holds(d, "spells", EncodeAll(c.spells, SpellToValue))
    requires Holds(d, "spell_slots", SlotMap(c.spellSlots)) && Holds(d, "features", EncodeAll(c.features, FeatureToValue))
    ensures CharacterKit(d) == Success((c.equipment, c.spells, c.spellSlots, c.features))
  {
    EquipmentListRoundTrip(c.equipment);
    RecordsOrRoundTrip(d, "equipment", c.equipment, EquipmentToValue, EquipmentFromValue);
    SpellsRoundTrip(c.spells);
    RecordsOrRoundTrip(d, "spells", c.spells, SpellToValue, SpellFromValue);
    SlotMapRoundTrip(c.spellSlots, "spell_slots");
    FeaturesRoundTrip(c.features);
    RecordsOrRoundTrip(d, "features", c.features, FeatureToValue, FeatureFromValue);
  }

  /** `Character.from_dict(c.to_dict())` gives back `c`, up to a class spell
      list that was absent and reads back empty. */
  lemma CharacterRoundTrip(c: Character)
    ensures CharacterFromDict(CharacterToDict(c)) == Success(c.(characterClass := KnownSpells(c.characterClass)))
  {
    var d := CharacterToDict(c);
    CharacterLookups(c);
    CharacterPartsRoundTrip(d, c);
    CharacterScoresRoundTrip(d, c);
    CharacterCombatRoundTrip(d, c);
    CharacterKitRoundTrip(d, c);
  }

  // ---------------------------------------------------------------------
  // Non-player characters

  datatype Npc = Npc(
    id: string, name: string, system: string,
    race: Option<string>, characterClass: Option<string>, level: Option<int>,
    role: string, occupation: Option<string>, location: Option<string>,
    personalityTraits: seq<string>, ideals: seq<string>, bonds: seq<string>, flaws: seq<string>,
    appearance: Option<string>, mannerisms: seq<string>, relationships: map<string, string>,
    armorClass: Option<int>, hitPoints: Option<int>, abilities: Option<map<string, int>>,
    equipment: seq<Equipment>, wealth: Option<string>,
    secrets: seq<string>, motivations: seq<string>, plotHooks: seq<string>,
    createdAt: string, updatedAt: string, campaignId: Option<string>, notes: string)

  /** The keys `NPC.from_dict` reads with `data[key]`. */
  const NpcRequired: set<string> := {"id", "name", "system", "created_at", "updated_at"}

  function OptIntMap(o: Option<map<string, int>>): Value
  {
    if o.Some? then IntMap(o.value) else Null
  }

  function OptIntMapAt(d: map<string, Value>, key: string): (r: Decoded<Option<map<string, int>>>)
    ensures key !in d ==> r == Success(None)
  {
    var v := GetOr(d, key, Null);
    if v.Null? then Success(None) else var m :- AsIntMap(v, key); Success(Some(m))
  }

  function StrMapOr(d: map<string, Value>, key: string): (r: Decoded<map<string, string>>)
    ensures key !in d ==> r == Success(map[])
  {
    AsStrMap(GetOr(d, key, Dict(map[])), key)
  }

  /** `NPC.to_dict`. */
  function NpcToDict(n: Npc): map<string, Value>
  {
    NpcDict(n, EncodeAll(n.equipment, EquipmentToValue))
  }

  /** The dictionary `NPC.to_dict` builds, given its equipment list already encoded. */
  function NpcDict(n: Npc, equipment: Value): map<string, Value>
  {
    map["id" := Str(n.id), "name" := Str(n.name), "system" := Str(n.system),
        "race" := OptStr(n.race), "character_class" := OptStr(n.characterClass), "level" := OptInt(n.level),
        "role" := Str(n.role), "occupation" := OptStr(n.occupation), "location" := OptStr(n.location),
        "personality_traits" := StrList(n.personalityTraits), "ideals" := StrList(n.ideals),
        "bonds" := StrList(n.bonds), "flaws" := StrList(n.flaws),
        "appearance" := OptStr(n.appearance), "mannerisms" := StrList(n.mannerisms),
        "relationships" := StrMap(n.relationships),
        "armor_class" := OptInt(n.armorClass), "hit_points" := OptInt(n.hitPoints),
        "abilities" := OptIntMap(n.abilities), "equipment" := equipment, "wealth" := OptStr(n.wealth),
        "secrets" := StrList(n.secrets), "motivations" := StrList(n.motivations), "plot_hooks" := StrList(n.plotHooks),
        "created_at" := Str(n.createdAt), "updated_at" := Str(n.updatedAt),
        "campaign_id" := OptStr(n.campaignId), "notes" := Str(n.notes)]
  }

  function NpcHeader(d: map<string, Value>)
    : (r: Decoded<(string, string, string, Option<string>, Option<string>, Option<int>, string, Option<string>, Option<string>)>)
    ensures !({"id", "name", "system"} <= d.Keys) ==> r.Failure?
    ensures r.Success? && "role" !in d ==> r.value.6 == "civilian"
  {
    var id :- ReqStr(d, "id");
    var name :- ReqStr(d, "name");
    var system :- ReqStr(d, "system");
    var race :- OptStrAt(d, "race");
    var klass :- OptStrAt(d, "character_class");
    var level :- OptIntAt(d, "level");
    var role :- StrOr(d, "role", "civilian");
    var occupation :- OptStrAt(d, "occupation");
    var location :- OptStrAt(d, "location");
    Success((id, name, system, race, klass, level, role, occupation, location))
  }

  function NpcPersona(d: map<string, Value>)
    : (r: Decoded<(seq<string>, seq<string>, seq<string>, seq<string>, Option<string>, seq<string>, map<string, string>)>)
  {
    var traits :- StrListOr(d, "personality_traits");
    var ideals :- StrListOr(d, "ideals");
    var bonds :- StrListOr(d, "bonds");
    var flaws :- StrListOr(d, "flaws");
    var appearance :- OptStrAt(d, "appearance");
    var mannerisms :- StrListOr(d, "mannerisms");
    var relationships :- StrMapOr(d, "relationships");
    Success((traits, ideals, bonds, flaws, appearance, mannerisms, relationships))
  }

  function NpcStats(d: map<string, Value>)
    : (r: Decoded<(Option<int>, Option<int>, Option<map<string, int>>, seq<Equipment>, Option<string>)>)
  {
    var armorClass :- OptIntAt(d, "armor_class");
    var hitPoints :- OptIntAt(d, "hit_points");
    var abilities :- OptIntMapAt(d, "abilities");
    var equipment :- RecordsOr(d, "equipment", EquipmentFromValue);
    var wealth :- OptStrAt(d, "wealth");
    Success((armorClass, hitPoints, abilities, equipment, wealth))
  }

  function NpcStory(d: map<string, Value>)
    : (r: Decoded<(seq<string>, seq<string>, seq<string>, string, string, Option<string>, string)>)
    ensures !({"created_at", "updated_at"} <= d.Keys) ==> r.Failure?
    ensures r.Success? && "notes" !in d ==> r.value.6 == ""
  {
    var secrets :- StrListOr(d, "secrets");
    var motivations :- StrListOr(d, "motivations");
    var plotHooks :- StrListOr(d, "plot_hooks");
    var createdAt :- ReqStr(d, "created_at");
    var updatedAt :- ReqStr(d, "updated_at");
    var campaignId :- OptStrAt(d, "campaign_id");
    var notes :- StrOr(d, "notes", "");
    Success((secrets, motivations, plotHooks, createdAt, updatedAt, campaignId, notes))
  }

  /** `NPC.from_dict`. */
  function NpcFromDict(d: map<string, Value>): (r: Decoded<Npc>)
    ensures r.Success? <==> NpcHeader(d).Success? && NpcPersona(d).Success? && NpcStats(d).Success?
                            && NpcStory(d).Success?
    ensures !(NpcRequired <= d.Keys) ==> r.Failure?
    ensures r.Success? && "role" !in d ==> r.value.role == "civilian"
    ensures r.Success? && "notes" !in d ==> r.value.notes == ""
  {
    var h :- NpcHeader(d);
    var p :- NpcPersona(d);
    var st :- NpcStats(d);
    var sy :- NpcStory(d);
    Success(Npc(h.0, h.1, h.2, h.3, h.4, h.5, h.6, h.7, h.8, p.0, p.1, p.2, p.3, p.4, p.5, p.6,
                st.0, st.1, st.2, st.3, st.4, sy.0, sy.1, sy.2, sy.3, sy.4, sy.5, sy.6))
  }

  /** Absent optional keys read as empty: no stats, no relationships, no equipment. */
  lemma NpcAbsentKeys(d: map<string, Value>)
    requires NpcFromDict(d).Success?
    ensures var n := NpcFromDict(d).value;
      && ("race" in d || n.race == None) && ("level" in d || n.level == None)
      && ("armor_class" in d || n.armorClass == None) && ("hit_points" in d || n.hitPoints == None)
      && ("abilities" in d || n.abilities == None) && ("relationships" in d || n.relationships == map[])
      && ("equipment" in d || n.equipment == [])
  {
  }

  lemma NpcLookupsHeader(n: Npc, equipment: Value)
    ensures var d := NpcDict(n, equipment);
      && Holds(d, "id", Str(n.id)) && Holds(d, "name", Str(n.name)) && Holds(d, "system", Str(n.system))
  {
  }

  lemma NpcLookupsBasics(n: Npc, equipment: Value)
    ensures var d := NpcDict(n, equipment);
      && Holds(d, "race", OptStr(n.race)) && Holds(d, "character_class", OptStr(n.characterClass))
  {
  }

  lemma NpcLookupsRole(n: Npc, equipment: Value)
    ensures var d := NpcDict(n, equipment);
      && Holds(d, "level", OptInt(n.level)) && Holds(d, "role", Str(n.role))
      && Holds(d, "occupation", OptStr(n.occupation)) && Holds(d, "location", OptStr(n.location))
  {
  }

  lemma NpcLookupsPersona(n: Npc, equipment: Value)
    ensures var d := NpcDict(n, equipment);
      && Holds(d, "personality_traits", StrList(n.personalityTraits)) && Holds(d, "ideals", StrList(n.ideals))
      && Holds(d, "bonds", StrList(n.bonds)) && Holds(d, "flaws", StrList(n.flaws))
    ensures var d := NpcDict(n, equipment);
      && Holds(d, "appearance", OptStr(n.appearance)) && Holds(d, "mannerisms", StrList(n.mannerisms))
      && Holds(d, "relationships", StrMap(n.relationships))
  {
  }

  lemma NpcLookupsRest(n: Npc, equipment: Value)
    ensures var d := NpcDict(n, equipment);
      && Holds(d, "armor_class", OptInt(n.armorClass)) && Holds(d, "hit_points", OptInt(n.hitPoints))
      && Holds(d, "abilities", OptIntMap(n.abilities)) && Holds(d, "equipment", equipment)
      && Holds(d, "wealth", OptStr(n.wealth))
    ensures var d := NpcDict(n, equipment);
      && Holds(d, "secrets", StrList(n.secrets)) && Holds(d, "motivations", StrList(n.motivations))
      && Holds(d, "plot_hooks", StrList(n.plotHooks)) && Holds(d, "created_at", Str(n.createdAt))
    ensures var d := NpcDict(n, equipment);
      && Holds(d, "updated_at", Str(n.updatedAt)) && Holds(d, "campaign_id", OptStr(n.campaignId))
      && Holds(d, "notes", Str(n.notes))
  {
  }

  lemma NpcGroupsRoundTrip(d: map<string, Value>, n: Npc)
    requires d == NpcToDict(n)
    ensures NpcHeader(d) == Success((n.id, n.name, n.system, n.race, n.characterClass, n.level, n.role,
                                     n.occupation, n.location))
    ensures NpcPersona(d) == Success((n.personalityTraits, n.ideals, n.bonds, n.flaws, n.appearance,
                                      n.mannerisms, n.relationships))
  {
    NpcLookupsHeader(n, EncodeAll(n.equipment, EquipmentToValue));
    NpcLookupsBasics(n, EncodeAll(n.equipment, EquipmentToValue));
    NpcLookupsRole(n, EncodeAll(n.equipment, EquipmentToValue));
    NpcLookupsPersona(n, EncodeAll(n.equipment, EquipmentToValue));
    NpcPersonaRead(d, n);
  }

  lemma NpcPersonaRead(d: map<string, Value>, n: Npc)
    requires Holds(d, "personality_traits", StrList(n.personalityTraits)) && Holds(d, "ideals", StrList(n.ideals))
    requires Holds(d, "bonds", StrList(n.bonds)) && Holds(d, "flaws", StrList(n.flaws))
    requires Holds(d, "appearance", OptStr(n.appearance)) && Holds(d, "mannerisms", StrList(n.mannerisms))
    requires Holds(d, "relationships", StrMap(n.relationships))
    ensures NpcPersona(d) == Success((n.personalityTraits, n.ideals, n.bonds, n.flaws, n.appearance,
                                      n.mannerisms, n.relationships))
  {
    StrListRoundTrip(n.personalityTraits, "personality_traits");
    StrListRoundTrip(n.ideals, "ideals");
    StrListRoundTrip(n.bonds, "bonds");
    StrListRoundTrip(n.flaws, "flaws");
    StrListRoundTrip(n.mannerisms, "mannerisms");
    StrMapRoundTrip(n.relationships, "relationships");
  }


  lemma NpcRestRoundTrip(d: map<string, Value>, n: Npc)
    requires d == NpcToDict(n)
    ensures NpcStats(d) == Success((n.armorClass, n.hitPoints, n.abilities, n.equipment, n.wealth))
    ensures NpcStory(d) == Success((n.secrets, n.motivations, n.plotHooks, n.createdAt, n.updatedAt,
                                    n.campaignId, n.notes))
  {
    NpcLookupsRest(n, EncodeAll(n.equipment, EquipmentToValue));
    NpcStatsRead(d, n);
    NpcStoryRead(d, n);
  }

  lemma NpcStatsRead(d: map<string, Value>, n: Npc)
    requires Holds(d, "armor_class", OptInt(n.armorClass)) && Holds(d, "hit_points", OptInt(n.hitPoints))
    requires Holds(d, "abilities", OptIntMap(n.abilities)) && Holds(d, "wealth", OptStr(n.wealth))
    requires Holds(d, "equipment", EncodeAll(n.equipment, EquipmentToValue))
    ensures NpcStats(d) == Success((n.armorClass, n.hitPoints, n.abilities, n.equipment, n.wealth))
  {
    if n.abilities.Some? {
      IntMapRoundTrip(n.abilities.value, "abilities");
    }
    EquipmentListRoundTrip(n.equipment);
    RecordsOrRoundTrip(d, "equipment", n.equipment, EquipmentToValue, EquipmentFromValue);
  }

  lemma NpcStoryRead(d: map<string, Value>, n: Npc)
    requires Holds(d, "secrets", StrList(n.secrets)) && Holds(d, "motivations", StrList(n.motivations))
    requires Holds(d, "plot_hooks", StrList(n.plotHooks)) && Holds(d, "created_at", Str(n.createdAt))
    requires Holds(d, "updated_at", Str(n.updatedAt)) && Holds(d, "campaign_id", OptStr(n.campaignId))
    requires Holds(d, "notes", Str(n.notes))
    ensures NpcStory(d) == Success((n.secrets, n.motivations, n.plotHooks, n.createdAt, n.updatedAt,
                                    n.campaignId, n.notes))
  {
    StrListRoundTrip(n.secrets, "secrets");
    StrListRoundTrip(n.motivations, "motivations");
    StrListRoundTrip(n.plotHooks, "plot_hooks");
  }


  /** `NPC.from_dict(n.to_dict())` gives back `n`. */
  lemma NpcRoundTrip(n: Npc)
    ensures NpcFromDict(NpcToDict(n)) == Success(n)
  {
    var d := NpcToDict(n);
    NpcGroupsRoundTrip(d, n);
    NpcRestRoundTrip(d, n);
  }

  // ---------------------------------------------------------------------
  // Character-creation templates

  /** The template's fields are copied in and out without inspection, so each
      is kept as the stored value. */
  datatype CharacterTemplate = CharacterTemplate(
    system: Value, races: Value, classes: Value, backgrounds: Value, abilityNames: Value,
    skillList: Value, equipmentPacks: Value, creationRules: Value)

  const TemplateKeys: set<string> :=
    {"system", "races", "classes", "backgrounds", "ability_names", "skill_list", "equipment_packs", "creation_rules"}

  /** `CharacterTemplate.to_dict`. */
  function TemplateToDict(t: CharacterTemplate): (d: map<string, Value>)
    ensures d.Keys == TemplateKeys
  {
    map["system" := t.system, "races" := t.races, "classes" := t.classes, "backgrounds" := t.backgrounds,
        "ability_names" := t.abilityNames, "skill_list" := t.skillList, "equipment_packs" := t.equipmentPacks,
        "creation_rules" := t.creationRules]
  }

  /** `CharacterTemplate.from_dict`: every field is required, none is checked. */
  function TemplateFromDict(d: map<string, Value>): (r: Decoded<CharacterTemplate>)
    ensures r.Success? <==> TemplateKeys <= d.Keys
  {
    var system :- Required(d, "system");
    var races :- Required(d, "races");
    var classes :- Required(d, "classes");
    var backgrounds :- Required(d, "backgrounds");
    var abilityNames :- Required(d, "ability_names");
    var skillList :- Required(d, "skill_list");
    var equipmentPacks :- Required(d, "equipment_packs");
    var creationRules :- Required(d, "creation_rules");
    Success(CharacterTemplate(system, races, classes, backgrounds, abilityNames, skillList, equipmentPacks,
                              creationRules))
  }

  lemma TemplateRoundTrip(t: CharacterTemplate)
    ensures TemplateFromDict(TemplateToDict(t)) == Success(t)
  {
  }

  /** Reading a template and writing it back keeps exactly the template's keys. */
  lemma TemplateRestrict(d: map<string, Value>)
    requires TemplateKeys <= d.Keys
    ensures TemplateToDict(TemplateFromDict(d).value) == map k | k in d && k in TemplateKeys :: d[k]
  {
  }
}
