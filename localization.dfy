/**
 * The spell record of the reference API and its Portuguese localization
 * (src/hooks/useDnDAPI.ts): two fixed translation tables with pass-through
 * for unknown names, and `formatSpell`, which translates the school name and
 * every class name of a spell and leaves the rest of the record alone.
 */
module Localization {
  import opened Wrappers

  /** A reference to another catalog entry, as the API nests it (`{index, name, ...}`). */
  datatype School = School(index: string, name: string)
  datatype ClassRef = ClassRef(index: string, name: string)

  datatype Spell = Spell(
    index: string,
    name: string,
    desc: seq<string>,
    higherLevel: Option<seq<string>>,
    range: string,
    components: seq<string>,
    material: Option<string>,
    ritual: bool,
    duration: string,
    concentration: bool,
    castingTime: string,
    level: int,
    school: School,
    classes: seq<ClassRef>)

  const SchoolNames: map<string, string> := map[
    "Abjuration" := "Abjuração",
    "Conjuration" := "Conjuração",
    "Divination" := "Adivinhação",
    "Enchantment" := "Encantamento",
    "Evocation" := "Evocação",
    "Illusion" := "Ilusão",
    "Necromancy" := "Necromancia",
    "Transmutation" := "Transmutação"]

  const ClassNames: map<string, string> := map[
    "Bard" := "Bardo",
    "Cleric" := "Clérigo",
    "Druid" := "Druida",
    "Paladin" := "Paladino",
    "Ranger" := "Patrulheiro",
    "Sorcerer" := "Feiticeiro",
    "Warlock" := "Bruxo",
    "Wizard" := "Mago"]

  /** Looks a name up in a translation table; a name the table lacks is kept. */
  function Translate(table: map<string, string>, name: string): (r: string)
    ensures name in table ==> r == table[name]
    ensures name !in table ==> r == name
  {
    if name in table then table[name] else name
  }

  /** `translateSchool`: the Portuguese name of a listed school, any other name unchanged. */
  function TranslateSchool(school: string): (r: string)
    ensures school in SchoolNames ==> r == SchoolNames[school]
    ensures school !in SchoolNames ==> r == school
  {
    Translate(SchoolNames, school)
  }

  /** `translateClass`: the Portuguese name of a listed class, any other name unchanged. */
  function TranslateClass(className: string): (r: string)
    ensures className in ClassNames ==> r == ClassNames[className]
    ensures className !in ClassNames ==> r == className
  {
    Translate(ClassNames, className)
  }

  /** The eight school names the table lists and their translations. */
  lemma SchoolTable()
    ensures TranslateSchool("Abjuration") == "Abjuração"
    ensures TranslateSchool("Conjuration") == "Conjuração"
    ensures TranslateSchool("Divination") == "Adivinhação"
    ensures TranslateSchool("Enchantment") == "Encantamento"
    ensures TranslateSchool("Evocation") == "Evocação"
    ensures TranslateSchool("Illusion") == "Ilusão"
    ensures TranslateSchool("Necromancy") == "Necromancia"
    ensures TranslateSchool("Transmutation") == "Transmutação"
    ensures |SchoolNames| == 8
  {
  }

  /** The eight class names the table lists and their translations. */
  lemma ClassTable()
    ensures TranslateClass("Bard") == "Bardo"
    ensures TranslateClass("Cleric") == "Clérigo"
    ensures TranslateClass("Druid") == "Druida"
    ensures TranslateClass("Paladin") == "Paladino"
    ensures TranslateClass("Ranger") == "Patrulheiro"
    ensures TranslateClass("Sorcerer") == "Feiticeiro"
    ensures TranslateClass("Warlock") == "Bruxo"
    ensures TranslateClass("Wizard") == "Mago"
    ensures |ClassNames| == 8
  {
  }

  /** No translation is itself a key of its table ... */
  lemma TablesDisjoint()
    ensures forall k :: k in SchoolNames ==> SchoolNames[k] !in SchoolNames
    ensures forall k :: k in ClassNames ==> ClassNames[k] !in ClassNames
  {
  }

  /** ... so translating an already translated name changes nothing. */
  lemma TranslateIdempotent(table: map<string, string>, name: string)
    requires forall k :: k in table ==> table[k] !in table
    ensures Translate(table, Translate(table, name)) == Translate(table, name)
  {
  }

  lemma TranslateSchoolIdempotent(school: string)
    ensures TranslateSchool(TranslateSchool(school)) == TranslateSchool(school)
  {
    TablesDisjoint();
    TranslateIdempotent(SchoolNames, school);
  }

  lemma TranslateClassIdempotent(className: string)
    ensures TranslateClass(TranslateClass(className)) == TranslateClass(className)
  {
    TablesDisjoint();
    TranslateIdempotent(ClassNames, className);
  }

  function TranslateClasses(classes: seq<ClassRef>): (r: seq<ClassRef>)
    ensures |r| == |classes|
    ensures forall i :: 0 <= i < |r| ==>
      r[i].name == TranslateClass(classes[i].name) && r[i].index == classes[i].index
  {
    if classes == [] then []
    else [classes[0].(name := TranslateClass(classes[0].name))] + TranslateClasses(classes[1..])
  }

  /**
   * `formatSpell`: the spread `{...spell, school: {...}, classes: [...]}`
   * replaces the school name and the class names by their translations.
   */
  function FormatSpell(spell: Spell): (r: Spell)
    ensures r.school == spell.school.(name := TranslateSchool(spell.school.name))
    ensures |r.classes| == |spell.classes|
    ensures forall i :: 0 <= i < |r.classes| ==>
      r.classes[i] == spell.classes[i].(name := TranslateClass(spell.classes[i].name))
    ensures r.(school := spell.school, classes := spell.classes) == spell
  {
    spell.(school := spell.school.(name := TranslateSchool(spell.school.name)),
           classes := TranslateClasses(spell.classes))
  }

  /** Formatting an already formatted spell changes nothing. */
  lemma FormatSpellIdempotent(spell: Spell)
    ensures FormatSpell(FormatSpell(spell)) == FormatSpell(spell)
  {
    var once := FormatSpell(spell);
    var twice := FormatSpell(once);
    TranslateSchoolIdempotent(spell.school.name);
    forall i | 0 <= i < |spell.classes|
      ensures twice.classes[i] == once.classes[i]
    {
      TranslateClassIdempotent(spell.classes[i].name);
    }
    assert twice.classes == once.classes;
  }

  // The tables are JavaScript object literals, and `table[key]` also finds
  // the members every object inherits from Object.prototype. Those are truthy,
  // so `table[key] || key` returns them instead of the key.

  /** The property names every object literal inherits from Object.prototype. */
  const ObjectPrototypeMembers: set<string> := {
    "constructor", "hasOwnProperty", "isPrototypeOf", "propertyIsEnumerable",
    "toLocaleString", "toString", "valueOf", "__proto__",
    "__defineGetter__", "__defineSetter__", "__lookupGetter__", "__lookupSetter__"}

  /** A JavaScript value as far as the lookups below can produce one. */
  datatype JsValue = Text(text: string) | InheritedMember(member: string)

  /** `table[key]` on an object literal: own entry, inherited member, or undefined. */
  function PropertyLookup(table: map<string, string>, key: string): Option<JsValue>
  {
    if key in table then Some(Text(table[key]))
    else if key in ObjectPrototypeMembers then Some(InheritedMember(key))
    else None
  }

  predicate Truthy(v: Option<JsValue>)
  {
    match v
    case None => false
    case Some(Text(s)) => s != ""
    case Some(InheritedMember(_)) => true
  }

  /** `table[key] || key`, as the source writes both translations. */
  function TranslateAsWritten(table: map<string, string>, key: string): (r: JsValue)
    ensures key !in ObjectPrototypeMembers && (forall k :: k in table ==> table[k] != "") ==>
      r == Text(Translate(table, key))
  {
    var v := PropertyLookup(table, key);
    if Truthy(v) then v.value else Text(key)
  }

  function TranslateSchoolAsWritten(school: string): JsValue
  {
    TranslateAsWritten(SchoolNames, school)
  }

  function TranslateClassAsWritten(className: string): JsValue
  {
    TranslateAsWritten(ClassNames, className)
  }

  /** As written, the school "toString" translates to a function, not to a string. */
  lemma TranslateSchoolAsWrittenLeaks()
    ensures TranslateSchoolAsWritten("toString") == InheritedMember("toString")
    ensures TranslateSchoolAsWritten("toString") != Text(TranslateSchool("toString"))
  {
  }

  /** As written, the class "constructor" translates to the Object constructor. */
  lemma TranslateClassAsWrittenLeaks()
    ensures TranslateClassAsWritten("constructor") == InheritedMember("constructor")
    ensures TranslateClassAsWritten("constructor") != Text(TranslateClass("constructor"))
  {
  }

  /** On every other name the code as written and the own-entry lookup agree. */
  lemma AsWrittenAgreesElsewhere(name: string)
    requires name !in ObjectPrototypeMembers
    ensures TranslateSchoolAsWritten(name) == Text(TranslateSchool(name))
    ensures TranslateClassAsWritten(name) == Text(TranslateClass(name))
  {
  }
}
