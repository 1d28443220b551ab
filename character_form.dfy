/**
 * The character form (src/components/CharacterForm.tsx): the ability
 * modifier and proficiency bonus formulas, the hit point total the form
 * derives from class, level and constitution, field-by-field edits of the
 * form state, and the submit gate that hands a finished record to the store.
 */
module CharacterForm {
  import opened Wrappers
  import opened Characters

  /** `calculateModifier`: `floor((score - 10) / 2)`. */
  function Modifier(score: int): (r: int)
    ensures 2 * r <= score - 10 < 2 * r + 2
  {
    (score - 10) / 2
  }

  lemma ModifierExamples()
    ensures Modifier(10) == 0 && Modifier(11) == 0
    ensures Modifier(1) == -5 && Modifier(20) == 5
  {
  }

  lemma ModifierMonotone(a: int, b: int)
    requires a <= b
    ensures Modifier(a) <= Modifier(b)
  {
  }

  /** `calculateProficiencyBonus`: `floor((level - 1) / 4) + 2`. */
  function ProficiencyBonus(level: int): (r: int)
    ensures 4 * (r - 2) <= level - 1 < 4 * (r - 2) + 4
  {
    (level - 1) / 4 + 2
  }

  lemma ProficiencyExamples()
    ensures ProficiencyBonus(1) == 2 && ProficiencyBonus(4) == 2
    ensures ProficiencyBonus(5) == 3 && ProficiencyBonus(20) == 6
  {
  }

  /** The bonus never drops as the level rises, and stays within 2..6 on levels 1..20. */
  lemma ProficiencyMonotone(a: int, b: int)
    requires a <= b
    ensures ProficiencyBonus(a) <= ProficiencyBonus(b)
    ensures 1 <= a && b <= 20 ==> 2 <= ProficiencyBonus(a) && ProficiencyBonus(b) <= 6
  {
  }

  /** The average gain of one level after the first: half the die, plus one, plus the modifier. */
  function LevelGain(hitDie: int, constitution: int): int
  {
    hitDie / 2 + 1 + Modifier(constitution)
  }

  /** The total the HP effect computes: a full die at level 1, the average gain at every later level. */
  function MaxHitPoints(hitDie: int, level: int, constitution: int): (r: int)
    ensures level >= 1 ==> r == HitPointsAtLevel(hitDie, level, constitution)
  {
    ClosedFormByLevel(hitDie, level, constitution);
    hitDie + Modifier(constitution) + (level - 1) * LevelGain(hitDie, constitution)
  }

  /** The same total counted level by level. */
  function HitPointsAtLevel(hitDie: int, level: nat, constitution: int): int
  {
    if level <= 1 then hitDie + Modifier(constitution)
    else HitPointsAtLevel(hitDie, level - 1, constitution) + LevelGain(hitDie, constitution)
  }

  /** The closed formula of `MaxHitPoints` sums the level-by-level gains. */
  lemma {:induction false} ClosedFormByLevel(hitDie: int, level: int, constitution: int)
    ensures level >= 1 ==>
      hitDie + Modifier(constitution) + (level - 1) * LevelGain(hitDie, constitution)
        == HitPointsAtLevel(hitDie, level, constitution)
  {
    if level > 1 {
      ClosedFormByLevel(hitDie, level - 1, constitution);
      var g := LevelGain(hitDie, constitution);
      assert (level - 1) * g == (level - 2) * g + g;
    }
  }

  /** A d8 class with constitution 14: 10 at level 1, 24 at level 3. */
  lemma MaxHitPointsExamples()
    ensures MaxHitPoints(8, 1, 14) == 10
    ensures MaxHitPoints(8, 3, 14) == 24
  {
  }

  /** An entry of `options.classes`: its index and its `hit_die`. */
  datatype ClassOption = ClassOption(index: string, hitDie: int)

  /** `options.classes.find(c => c.index === index)`. */
  function FindClass(classes: seq<ClassOption>, index: string): (r: Option<ClassOption>)
    ensures r.None? <==> forall i :: 0 <= i < |classes| ==> classes[i].index != index
    ensures r.Some? ==>
      exists i :: (0 <= i < |classes| && classes[i] == r.value && r.value.index == index
        && forall j :: 0 <= j < i ==> classes[j].index != index)
  {
    if classes == [] then None
    else if classes[0].index == index then Some(classes[0])
    else
      var r := FindClass(classes[1..], index);
      if r.Some? then
        var i :| 0 <= i < |classes[1..]| && classes[1..][i] == r.value
          && r.value.index == index && forall j :: 0 <= j < i ==> classes[1..][j].index != index;
        assert classes[i + 1] == r.value;
        r
      else r
  }

  /** The form state: a character without id and proficiency bonus. */
  datatype FormData = FormData(
    name: string,
    race: string,
    className: string,
    level: int,
    background: string,
    alignment: string,
    experience: int,
    attributes: Attributes,
    hitPoints: HitPoints,
    skills: map<string, Skill>,
    savingThrows: map<string, bool>,
    equipment: seq<Item>,
    spells: map<int, seq<string>>,
    features: seq<string>)

  const DefaultAttributes := Attributes(10, 10, 10, 10, 10, 10)

  /**
   * The initial form state. Every field is `initialCharacter?.field || default`:
   * strings and numbers fall back when empty or zero, objects never do.
   */
  function InitialFormData(initial: Option<Character>): (r: FormData)
    ensures initial.None? ==>
      && r.name == "" && r.race == "" && r.className == "" && r.background == ""
      && r.level == 1 && r.alignment == "Neutro" && r.experience == 0
      && r.attributes == DefaultAttributes && r.hitPoints == HitPoints(0, 0, 0)
      && r.skills == map[] && r.savingThrows == map[] && r.equipment == []
      && r.spells == map[] && r.features == []
    ensures initial.Some? ==>
      var c := initial.value;
      ToCharacter(r, c.id) == c.(proficiencyBonus := None,
                                 level := if c.level == 0 then 1 else c.level,
                                 alignment := if c.alignment == "" then "Neutro" else c.alignment)
  {
    match initial
    case None =>
      FormData("", "", "", 1, "", "Neutro", 0, DefaultAttributes, HitPoints(0, 0, 0),
               map[], map[], [], map[], [])
    case Some(c) =>
      FormData(c.name, c.race, c.className, if c.level == 0 then 1 else c.level, c.background,
               if c.alignment == "" then "Neutro" else c.alignment, c.experience,
               c.attributes, c.hitPoints, c.skills, c.savingThrows, c.equipment, c.spells, c.features)
  }

  /** `{...formData, id}`: the record the form saves; it carries no proficiency bonus. */
  function ToCharacter(fd: FormData, id: string): (r: Character)
    ensures r.id == id && r.proficiencyBonus.None?
    ensures && r.name == fd.name && r.race == fd.race && r.className == fd.className
            && r.level == fd.level && r.background == fd.background && r.alignment == fd.alignment
            && r.experience == fd.experience && r.attributes == fd.attributes
            && r.hitPoints == fd.hitPoints && r.skills == fd.skills
            && r.savingThrows == fd.savingThrows && r.equipment == fd.equipment
            && r.spells == fd.spells && r.features == fd.features
  {
    Character(id, fd.name, fd.race, fd.className, fd.level, fd.background, fd.alignment,
              fd.experience, fd.attributes, fd.skills, fd.hitPoints, None, fd.savingThrows,
              fd.equipment, fd.spells, fd.features)
  }

  /**
   * Saving a form and opening the saved record again gives the same form,
   * whatever id it was saved under, as long as the level and alignment do not
   * take the fallbacks.
   */
  lemma FormRoundTrip(fd: FormData, id: string)
    requires fd.level != 0 && fd.alignment != ""
    ensures InitialFormData(Some(ToCharacter(fd, id))) == fd
  {
  }

  // handleChange(field, value, section?) as the form calls it.

  datatype TextField = Name | Race | ClassName | Background | Alignment
  datatype Ability = Strength | Dexterity | Constitution | Intelligence | Wisdom | Charisma
  datatype HitPointField = Maximum | Current | Temporary
  datatype NumberField = Level | Experience | Attribute(ability: Ability) | HitPoint(part: HitPointField)

  /** One call of `handleChange`: a top-level field, or a field of the `attributes` or `hitPoints` section. */
  datatype Edit = SetText(textField: TextField, text: string) | SetNumber(numberField: NumberField, number: int)

  function ReadText(fd: FormData, f: TextField): string
  {
    match f
    case Name => fd.name
    case Race => fd.race
    case ClassName => fd.className
    case Background => fd.background
    case Alignment => fd.alignment
  }

  function ReadNumber(fd: FormData, f: NumberField): int
  {
    match f
    case Level => fd.level
    case Experience => fd.experience
    case Attribute(Strength) => fd.attributes.strength
    case Attribute(Dexterity) => fd.attributes.dexterity
    case Attribute(Constitution) => fd.attributes.constitution
    case Attribute(Intelligence) => fd.attributes.intelligence
    case Attribute(Wisdom) => fd.attributes.wisdom
    case Attribute(Charisma) => fd.attributes.charisma
    case HitPoint(Maximum) => fd.hitPoints.maximum
    case HitPoint(Current) => fd.hitPoints.current
    case HitPoint(Temporary) => fd.hitPoints.temporary
  }

  /** The parts of the form that no `handleChange` call reaches. */
  predicate SameCollections(a: FormData, b: FormData)
  {
    a.skills == b.skills && a.savingThrows == b.savingThrows && a.equipment == b.equipment
    && a.spells == b.spells && a.features == b.features
  }

  /** A form state is fully described by its fields and collections. */
  lemma FormDataExtensional(a: FormData, b: FormData)
    requires forall f :: ReadText(a, f) == ReadText(b, f)
    requires forall f :: ReadNumber(a, f) == ReadNumber(b, f)
    requires SameCollections(a, b)
    ensures a == b
  {
    assert ReadText(a, Name) == ReadText(b, Name) && ReadText(a, Race) == ReadText(b, Race);
    assert ReadText(a, ClassName) == ReadText(b, ClassName);
    assert ReadText(a, Background) == ReadText(b, Background);
    assert ReadText(a, Alignment) == ReadText(b, Alignment);
    assert ReadNumber(a, Level) == ReadNumber(b, Level);
    assert ReadNumber(a, Experience) == ReadNumber(b, Experience);
    assert a.attributes == b.attributes by {
      assert ReadNumber(a, Attribute(Strength)) == ReadNumber(b, Attribute(Strength));
      assert ReadNumber(a, Attribute(Dexterity)) == ReadNumber(b, Attribute(Dexterity));
      assert ReadNumber(a, Attribute(Constitution)) == ReadNumber(b, Attribute(Constitution));
      assert ReadNumber(a, Attribute(Intelligence)) == ReadNumber(b, Attribute(Intelligence));
      assert ReadNumber(a, Attribute(Wisdom)) == ReadNumber(b, Attribute(Wisdom));
      assert ReadNumber(a, Attribute(Charisma)) == ReadNumber(b, Attribute(Charisma));
    }
    assert a.hitPoints == b.hitPoints by {
      assert ReadNumber(a, HitPoint(Maximum)) == ReadNumber(b, HitPoint(Maximum));
      assert ReadNumber(a, HitPoint(Current)) == ReadNumber(b, HitPoint(Current));
      assert ReadNumber(a, HitPoint(Temporary)) == ReadNumber(b, HitPoint(Temporary));
    }
  }

  function SetAbility(a: Attributes, ability: Ability, v: int): Attributes
  {
    match ability
    case Strength => a.(strength := v)
    case Dexterity => a.(dexterity := v)
    case Constitution => a.(constitution := v)
    case Intelligence => a.(intelligence := v)
    case Wisdom => a.(wisdom := v)
    case Charisma => a.(charisma := v)
  }

  function SetHitPointPart(hp: HitPoints, part: HitPointField, v: int): HitPoints
  {
    match part
    case Maximum => hp.(maximum := v)
    case Current => hp.(current := v)
    case Temporary => hp.(temporary := v)
  }

  /** The new state `handleChange` builds with its spreads. */
  function ApplyEdit(fd: FormData, e: Edit): (r: FormData)
    ensures e.SetText? ==> ReadText(r, e.textField) == e.text
    ensures e.SetNumber? ==> ReadNumber(r, e.numberField) == e.number
    ensures SameCollections(r, fd)
  {
    match e
    case SetText(Name, v) => fd.(name := v)
    case SetText(Race, v) => fd.(race := v)
    case SetText(ClassName, v) => fd.(className := v)
    case SetText(Background, v) => fd.(background := v)
    case SetText(Alignment, v) => fd.(alignment := v)
    case SetNumber(Level, v) => fd.(level := v)
    case SetNumber(Experience, v) => fd.(experience := v)
    case SetNumber(Attribute(ability), v) => fd.(attributes := SetAbility(fd.attributes, ability, v))
    case SetNumber(HitPoint(part), v) => fd.(hitPoints := SetHitPointPart(fd.hitPoints, part, v))
  }

  /** A text edit sets its own field to its value and leaves every other field and collection alone. */
  lemma TextEditChangesOnlyItsField(fd: FormData, f: TextField, v: string)
    ensures ReadText(ApplyEdit(fd, SetText(f, v)), f) == v
    ensures forall g :: g != f ==> ReadText(ApplyEdit(fd, SetText(f, v)), g) == ReadText(fd, g)
    ensures forall g :: ReadNumber(ApplyEdit(fd, SetText(f, v)), g) == ReadNumber(fd, g)
    ensures SameCollections(ApplyEdit(fd, SetText(f, v)), fd)
  {
  }

  /** A number edit, top-level or in a section, sets its own field and leaves everything else alone. */
  lemma NumberEditChangesOnlyItsField(fd: FormData, f: NumberField, v: int)
    ensures ReadNumber(ApplyEdit(fd, SetNumber(f, v)), f) == v
    ensures forall g :: g != f ==> ReadNumber(ApplyEdit(fd, SetNumber(f, v)), g) == ReadNumber(fd, g)
    ensures forall g :: ReadText(ApplyEdit(fd, SetNumber(f, v)), g) == ReadText(fd, g)
    ensures SameCollections(ApplyEdit(fd, SetNumber(f, v)), fd)
  {
  }

  /** The edit that writes back what a field held before. */
  function Undo(fd: FormData, e: Edit): Edit
  {
    match e
    case SetText(f, _) => SetText(f, ReadText(fd, f))
    case SetNumber(f, _) => SetNumber(f, ReadNumber(fd, f))
  }

  lemma EditUndo(fd: FormData, e: Edit)
    ensures ApplyEdit(ApplyEdit(fd, e), Undo(fd, e)) == fd
  {
    var back := ApplyEdit(ApplyEdit(fd, e), Undo(fd, e));
    match e
    case SetText(f, v) =>
      TextEditChangesOnlyItsField(fd, f, v);
      TextEditChangesOnlyItsField(ApplyEdit(fd, e), f, ReadText(fd, f));
      FormDataExtensional(back, fd);
    case SetNumber(f, v) =>
      NumberEditChangesOnlyItsField(fd, f, v);
      NumberEditChangesOnlyItsField(ApplyEdit(fd, e), f, ReadNumber(fd, f));
      FormDataExtensional(back, fd);
  }

  /** The guard of the HP effect: class, level and constitution set, and the class known. */
  predicate RecomputesHitPoints(fd: FormData, classes: seq<ClassOption>)
  {
    fd.className != "" && fd.level != 0 && fd.attributes.constitution != 0
    && FindClass(classes, fd.className).Some?
  }

  /**
   * The body of the HP effect. It touches nothing but the hit points, never
   * the temporary ones; it writes the maximum exactly when its guard holds,
   * and the current ones only for a new character, where they follow the
   * maximum.
   */
  function DerivedHitPoints(fd: FormData, classes: seq<ClassOption>, isNew: bool): (r: FormData)
    ensures r.(hitPoints := fd.hitPoints) == fd
    ensures r.hitPoints.temporary == fd.hitPoints.temporary
    ensures !RecomputesHitPoints(fd, classes) ==> r == fd
    ensures RecomputesHitPoints(fd, classes) ==>
      r.hitPoints.maximum ==
        MaxHitPoints(FindClass(classes, fd.className).value.hitDie, fd.level, fd.attributes.constitution)
    ensures RecomputesHitPoints(fd, classes) && isNew ==> r.hitPoints.current == r.hitPoints.maximum
    ensures !isNew ==> r.hitPoints.current == fd.hitPoints.current
  {
    if RecomputesHitPoints(fd, classes) then
      var total := MaxHitPoints(FindClass(classes, fd.className).value.hitDie, fd.level, fd.attributes.constitution);
      fd.(hitPoints := fd.hitPoints.(maximum := total, current := if isNew then total else fd.hitPoints.current))
    else fd
  }

  /** Running the effect a second time changes nothing. */
  lemma DerivedHitPointsIdempotent(fd: FormData, classes: seq<ClassOption>, isNew: bool)
    ensures DerivedHitPoints(DerivedHitPoints(fd, classes, isNew), classes, isNew) == DerivedHitPoints(fd, classes, isNew)
  {
  }

  /** The effect's dependencies: class, level and constitution (the class list is the caller's). */
  predicate DependenciesChanged(before: FormData, after: FormData)
  {
    before.className != after.className || before.level != after.level
    || before.attributes.constitution != after.attributes.constitution
  }

  /** One edit and the effect run it provokes, if any. */
  function EditAndRecompute(fd: FormData, e: Edit, classes: seq<ClassOption>, isNew: bool): FormData
  {
    var edited := ApplyEdit(fd, e);
    if DependenciesChanged(fd, edited) then DerivedHitPoints(edited, classes, isNew) else edited
  }

  /** A hit point typed in by hand stays: editing hit points does not rerun the effect. */
  lemma HitPointEditKept(fd: FormData, part: HitPointField, v: int, classes: seq<ClassOption>, isNew: bool)
    ensures EditAndRecompute(fd, SetNumber(HitPoint(part), v), classes, isNew) == ApplyEdit(fd, SetNumber(HitPoint(part), v))
    ensures ReadNumber(EditAndRecompute(fd, SetNumber(HitPoint(part), v), classes, isNew), HitPoint(part)) == v
  {
  }

  /** Changing the constitution of a known class recomputes the maximum from the new score. */
  lemma ConstitutionEditRecomputes(fd: FormData, v: int, classes: seq<ClassOption>, isNew: bool)
    requires v != fd.attributes.constitution && v != 0
    requires fd.className != "" && fd.level != 0 && FindClass(classes, fd.className).Some?
    ensures EditAndRecompute(fd, SetNumber(Attribute(Constitution), v), classes, isNew).hitPoints.maximum
      == MaxHitPoints(FindClass(classes, fd.className).value.hitDie, fd.level, v)
  {
  }

  predicate RequiredFieldsPresent(fd: FormData)
  {
    fd.name != "" && fd.race != "" && fd.className != ""
  }

  const RequiredFieldsMessage := "Por favor, preencha todos os campos obrigatórios"

  /** What `handleSubmit` does with the store. */
  datatype SubmitAction = Reject(message: string) | Update(id: string, character: Character) | Add(character: Character)

  /** `initialCharacter?.id || Date.now().toString()`, the clock reading given as `newId`. */
  function SavedId(initial: Option<Character>, newId: string): string
  {
    if initial.Some? && initial.value.id != "" then initial.value.id else newId
  }

  /**
   * A form without name, race or class is rejected; otherwise an edit
   * updates the record under the initial character's id (the new id when
   * that one is empty) and a new form adds a record under the new id, each
   * holding exactly the form's fields.
   */
  function Submit(fd: FormData, initial: Option<Character>, newId: string): (r: SubmitAction)
    ensures r.Reject? <==> (fd.name == "" || fd.race == "" || fd.className == "")
    ensures r.Reject? ==> r.message == RequiredFieldsMessage
    ensures r.Update? <==> RequiredFieldsPresent(fd) && initial.Some?
    ensures r.Update? ==>
      && r.id == (if initial.value.id != "" then initial.value.id else newId)
      && r.character == ToCharacter(fd, r.id)
    ensures r.Add? ==> r.character == ToCharacter(fd, newId)
  {
    if !RequiredFieldsPresent(fd) then Reject(RequiredFieldsMessage)
    else
      var c := ToCharacter(fd, SavedId(initial, newId));
      if initial.Some? then Update(c.id, c) else Add(c)
  }

  /** Saving an opened character unchanged replaces it with itself, less its bonus. */
  lemma SubmitUnchangedEdit(c: Character, newId: string)
    requires c.id != "" && c.level != 0 && c.alignment != ""
    requires c.name != "" && c.race != "" && c.className != ""
    ensures Submit(InitialFormData(Some(c)), Some(c), newId) == Update(c.id, c.(proficiencyBonus := None))
  {
  }

  /** The form component: its options, its state and the store it writes to. */
  class CharacterFormView {
    const store: CharacterStore
    const initialCharacter: Option<Character>
    var classOptions: seq<ClassOption>
    var formData: FormData
    var error: Option<string>

    constructor (store: CharacterStore, initialCharacter: Option<Character>)
      ensures this.store == store && this.initialCharacter == initialCharacter
      ensures classOptions == [] && error == None
      ensures formData == InitialFormData(initialCharacter)
    {
      this.store := store;
      this.initialCharacter := initialCharacter;
      classOptions := [];
      formData := InitialFormData(initialCharacter);
      error := None;
    }

    /** `handleChange`: one field of the form state is replaced. */
    method HandleChange(e: Edit)
      modifies this`formData
      ensures formData == ApplyEdit(old(formData), e)
    {
      formData := ApplyEdit(formData, e);
    }

    /** The HP effect body, writing through `handleChange` as the source does. */
    method UpdateHitPoints()
      modifies this`formData
      ensures formData == DerivedHitPoints(old(formData), classOptions, initialCharacter.None?)
    {
      if formData.className != "" && formData.level != 0 && formData.attributes.constitution != 0 {
        var selectedClass := FindClass(classOptions, formData.className);
        if selectedClass.Some? {
          var totalHP := MaxHitPoints(selectedClass.value.hitDie, formData.level, formData.attributes.constitution);
          HandleChange(SetNumber(HitPoint(Maximum), totalHP));
          if initialCharacter.None? {
            HandleChange(SetNumber(HitPoint(Current), totalHP));
          }
        }
      }
    }

    /** A user edit, followed by the HP effect when one of its dependencies changed. */
    method Change(e: Edit)
      modifies this`formData
      ensures formData == EditAndRecompute(old(formData), e, classOptions, initialCharacter.None?)
    {
      var before := formData;
      HandleChange(e);
      if DependenciesChanged(before, formData) {
        UpdateHitPoints();
      }
    }

    /** Loaded class options; the class list is a dependency of the HP effect, so it reruns. */
    method SetClassOptions(classes: seq<ClassOption>)
      modifies this`classOptions, this`formData
      ensures classOptions == classes
      ensures formData == DerivedHitPoints(old(formData), classes, initialCharacter.None?)
    {
      classOptions := classes;
      UpdateHitPoints();
    }

    /** `handleSubmit`, with the clock reading as `newId`. */
    method HandleSubmit(newId: string)
      modifies this`error, store`characters
      ensures match Submit(formData, initialCharacter, newId)
        case Reject(message) => error == Some(message) && store.characters == old(store.characters)
        case Update(id, c) => error == old(error) && store.characters == Replaced(old(store.characters), id, c)
        case Add(c) => error == old(error) && store.characters == old(store.characters) + [c]
    {
      if formData.name == "" || formData.race == "" || formData.className == "" {
        error := Some(RequiredFieldsMessage);
        return;
      }
      var character := ToCharacter(formData, SavedId(initialCharacter, newId));
      if initialCharacter.Some? {
        store.UpdateCharacter(character.id, character);
      } else {
        store.AddCharacter(character);
      }
    }
  }
}
