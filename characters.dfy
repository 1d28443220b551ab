/**
 * The character store (src/context/CharacterContext.tsx): the list of saved
 * characters with append, replace-by-id and remove-by-id, and the character
 * currently selected.
 */
module Characters {
  import opened Wrappers
  import opened Seqs

  datatype Attributes = Attributes(
    strength: int,
    dexterity: int,
    constitution: int,
    intelligence: int,
    wisdom: int,
    charisma: int)

  datatype HitPoints = HitPoints(maximum: int, current: int, temporary: int)

  datatype Skill = Skill(proficient: bool, value: int)

  datatype Item = Item(item: string, quantity: int)

  /**
   * A character sheet. `proficiencyBonus` is optional because the form never
   * fills it in: a record saved by the form carries none.
   */
  datatype Character = Character(
    id: string,
    name: string,
    race: string,
    className: string,
    level: int,
    background: string,
    alignment: string,
    experience: int,
    attributes: Attributes,
    skills: map<string, Skill>,
    hitPoints: HitPoints,
    proficiencyBonus: Option<int>,
    savingThrows: map<string, bool>,
    equipment: seq<Item>,
    spells: map<int, seq<string>>,
    features: seq<string>)

  /** No two records share an id. */
  predicate UniqueIds(cs: seq<Character>)
  {
    forall i, j :: 0 <= i < j < |cs| ==> cs[i].id != cs[j].id
  }

  predicate HasId(cs: seq<Character>, id: string)
  {
    exists i :: 0 <= i < |cs| && cs[i].id == id
  }

  /** `characters.map(char => char.id === id ? updated : char)`. */
  function Replaced(cs: seq<Character>, id: string, updated: Character): (r: seq<Character>)
    ensures |r| == |cs|
    ensures forall i :: 0 <= i < |cs| && cs[i].id == id ==> r[i] == updated
    ensures forall i :: 0 <= i < |cs| && cs[i].id != id ==> r[i] == cs[i]
  {
    if cs == [] then []
    else [if cs[0].id == id then updated else cs[0]] + Replaced(cs[1..], id, updated)
  }

  /** Replacing an id that no record carries leaves the list as it was. */
  lemma ReplacedAbsent(cs: seq<Character>, id: string, updated: Character)
    requires !HasId(cs, id)
    ensures Replaced(cs, id, updated) == cs
  {
  }

  /** A replacement that keeps the id keeps the ids unique. */
  lemma ReplacedKeepsUnique(cs: seq<Character>, id: string, updated: Character)
    requires UniqueIds(cs) && updated.id == id
    ensures UniqueIds(Replaced(cs, id, updated))
    ensures forall i :: 0 <= i < |cs| ==> Replaced(cs, id, updated)[i].id == cs[i].id
  {
  }

  /** Appending a record whose id is new keeps the ids unique. */
  lemma AppendKeepsUnique(cs: seq<Character>, c: Character)
    requires UniqueIds(cs) && !HasId(cs, c.id)
    ensures UniqueIds(cs + [c])
  {
    var r := cs + [c];
    forall i, j | 0 <= i < j < |r| ensures r[i].id != r[j].id {
      if j == |cs| {
        assert r[i] == cs[i];
      }
    }
  }

  /** `characters.filter(char => char.id !== id)`. */
  function Removed(cs: seq<Character>, id: string): (r: seq<Character>)
    ensures forall c :: c in r <==> c in cs && c.id != id
    ensures IsSubsequence(r, cs)
  {
    var keep := (ch: Character) => ch.id != id;
    FilterMembers(cs, keep);
    FilterIsSubsequence(cs, keep);
    Filter(cs, keep)
  }

  /** The records that carry `id`. */
  function WithId(cs: seq<Character>, id: string): seq<Character>
  {
    Filter(cs, (ch: Character) => ch.id == id)
  }

  /** Removal shrinks the list by the number of records that carried the id. */
  lemma RemovedLength(cs: seq<Character>, id: string)
    ensures |Removed(cs, id)| == |cs| - |WithId(cs, id)|
  {
    FilterComplementLength(cs, (ch: Character) => ch.id != id, (ch: Character) => ch.id == id);
  }

  /** Deleting the same id twice is deleting it once. */
  lemma RemovedIdempotent(cs: seq<Character>, id: string)
    ensures Removed(Removed(cs, id), id) == Removed(cs, id)
  {
    FilterIdempotent(cs, (ch: Character) => ch.id != id);
  }

  /** Deleting an id that no record carries leaves the list as it was. */
  lemma RemovedAbsent(cs: seq<Character>, id: string)
    requires !HasId(cs, id)
    ensures Removed(cs, id) == cs
  {
    forall c | c in cs ensures c.id != id {
      var i :| 0 <= i < |cs| && cs[i] == c;
    }
    FilterKeepsAll(cs, (ch: Character) => ch.id != id);
  }

  /** With unique ids, deleting a present id removes exactly one record. */
  lemma RemovedUniqueShrinksByOne(cs: seq<Character>, id: string)
    requires UniqueIds(cs) && HasId(cs, id)
    ensures |Removed(cs, id)| == |cs| - 1
  {
    RemovedLength(cs, id);
    var i :| 0 <= i < |cs| && cs[i].id == id;
    var hit := (ch: Character) => ch.id == id;
    FilterCount(cs, hit);
    FilterMembers(cs, hit);
    var w := WithId(cs, id);
    forall c | c in w ensures c == cs[i] {
      var j :| 0 <= j < |cs| && cs[j] == c;
      assert i == j;
    }
    DistinctCount(cs, cs[i]) by {
      assert Distinct(cs);
    }
    assert multiset(w)[cs[i]] == multiset(cs)[cs[i]];
    assert cs[i] in cs;
    assert multiset(w) == multiset{cs[i]} by {
      forall c ensures multiset(w)[c] == multiset{cs[i]}[c] {
        if c != cs[i] {
          assert c !in w;
        }
      }
    }
    assert |w| == |multiset(w)| == 1;
  }

  /** The state the provider holds: `characters` and `selectedCharacter`. */
  class CharacterStore {
    var characters: seq<Character>
    var selectedCharacter: Option<Character>

    constructor ()
      ensures characters == [] && selectedCharacter == None
    {
      characters := [];
      selectedCharacter := None;
    }

    /** `addCharacter`: the record goes at the end; the records before it stay where they were. */
    method AddCharacter(c: Character)
      modifies this`characters
      ensures characters == old(characters) + [c]
      ensures old(UniqueIds(characters)) && !old(HasId(characters, c.id)) ==> UniqueIds(characters)
    {
      if UniqueIds(characters) && !HasId(characters, c.id) {
        AppendKeepsUnique(characters, c);
      }
      characters := characters + [c];
    }

    /** `updateCharacter`: every record with the id is replaced, in place. */
    method UpdateCharacter(id: string, updated: Character)
      modifies this`characters
      ensures characters == Replaced(old(characters), id, updated)
      ensures !old(HasId(characters, id)) ==> characters == old(characters)
      ensures old(UniqueIds(characters)) && updated.id == id ==> UniqueIds(characters)
    {
      if !HasId(characters, id) {
        ReplacedAbsent(characters, id, updated);
      }
      if UniqueIds(characters) && updated.id == id {
        ReplacedKeepsUnique(characters, id, updated);
      }
      characters := Replaced(characters, id, updated);
    }

    /** `deleteCharacter`: the records with the id go, the rest keep their order. */
    method DeleteCharacter(id: string)
      modifies this`characters
      ensures characters == Removed(old(characters), id)
      ensures forall c :: c in characters <==> c in old(characters) && c.id != id
      ensures IsSubsequence(characters, old(characters))
    {
      characters := Removed(characters, id);
    }

    /** `setSelectedCharacter`: only the pointer moves. */
    method SetSelectedCharacter(c: Option<Character>)
      modifies this`selectedCharacter
      ensures selectedCharacter == c
    {
      selectedCharacter := c;
    }
  }
}
