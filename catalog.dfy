/**
 * The spell catalog page (src/pages/SpellsPage.tsx): fetched details are
 * grouped into level buckets ("circles"), each bucket is sorted by name, and
 * the page derives the list of circles, the list of classes and a filtered
 * copy of the buckets for the current search, circle and class selection.
 */
module Catalog {
  import opened Wrappers
  import opened Seqs
  import opened Text
  import opened Localization

  /** Spells keyed by level, as in the `spellsByCircle` state. */
  type Buckets = map<int, seq<Spell>>

  /** `details.filter(Boolean)`: the detail requests that produced a spell. */
  function Present(details: seq<Option<Spell>>): (r: seq<Spell>)
    ensures |r| == |details| - multiset(details)[None]
    ensures forall s :: multiset(r)[s] == multiset(details)[Some(s)]
  {
    if details == [] then []
    else
      var init, last := details[..|details| - 1], details[|details| - 1];
      assert details == init + [last];
      Present(init) + (if last.Some? then [last.value] else [])
  }

  /** `.map(formatSpell)`. */
  function FormatAll(spells: seq<Spell>): seq<Spell>
  {
    seq(|spells|, i requires 0 <= i < |spells| => FormatSpell(spells[i]))
  }

  /** The localized spells that reach the grouping loop. */
  function Formatted(details: seq<Option<Spell>>): seq<Spell>
  {
    FormatAll(Present(details))
  }

  /** The spells of one level, in their original order. */
  function OfLevel(spells: seq<Spell>, level: int): seq<Spell>
  {
    Filter(spells, (s: Spell) => s.level == level)
  }

  function Levels(spells: seq<Spell>): set<int>
  {
    set s | s in spells :: s.level
  }

  lemma OfLevelSnoc(spells: seq<Spell>, x: Spell)
    ensures forall level :: OfLevel(spells + [x], level) == OfLevel(spells, level) + (if x.level == level then [x] else [])
  {
    assert (spells + [x])[..|spells|] == spells;
  }

  lemma {:induction false} OfLevelAbsent(spells: seq<Spell>, level: int)
    requires level !in Levels(spells)
    ensures OfLevel(spells, level) == []
  {
    if spells != [] {
      var init, last := spells[..|spells| - 1], spells[|spells| - 1];
      assert spells == init + [last];
      assert last in spells;
      assert Levels(init) <= Levels(spells);
      OfLevelAbsent(init, level);
    }
  }

  lemma OfLevelMembers(spells: seq<Spell>, level: int)
    ensures forall s :: s in OfLevel(spells, level) <==> s in spells && s.level == level
  {
    FilterMembers(spells, (s: Spell) => s.level == level);
  }

  lemma OfLevelCount(spells: seq<Spell>, level: int)
    ensures forall x :: multiset(OfLevel(spells, level))[x] == if x.level == level then multiset(spells)[x] else 0
  {
    FilterCount(spells, (s: Spell) => s.level == level);
  }

  /**
   * The `forEach` loop of `loadSpells`: creates a bucket the first time a
   * level is seen and pushes each spell onto the bucket of its level.
   */
  method GroupByLevel(spells: seq<Spell>) returns (byCircle: Buckets)
    ensures byCircle.Keys == Levels(spells)
    ensures forall level :: level in byCircle ==> byCircle[level] == OfLevel(spells, level)
  {
    byCircle := map[];
    var i := 0;
    while i < |spells|
      invariant 0 <= i <= |spells|
      invariant byCircle.Keys == Levels(spells[..i])
      invariant forall level :: level in byCircle ==> byCircle[level] == OfLevel(spells[..i], level)
    {
      var spell, prefix := spells[i], spells[..i];
      assert spells[..i + 1] == prefix + [spell];
      OfLevelSnoc(prefix, spell);
      if spell.level !in byCircle {
        OfLevelAbsent(prefix, spell.level);
        byCircle := byCircle[spell.level := []];
      }
      byCircle := byCircle[spell.level := byCircle[spell.level] + [spell]];
      assert Levels(prefix + [spell]) == Levels(prefix) + {spell.level};
      i := i + 1;
    }
    assert spells[..i] == spells;
  }

  /** The order of `a.name.localeCompare(b.name)`, taken here as character-code order. */
  predicate NameLe(a: Spell, b: Spell)
  {
    StrLe(a.name, b.name)
  }

  lemma StrLeIsPreorder()
    ensures TotalPreorder(StrLe)
  {
    forall a, b ensures StrLe(a, b) || StrLe(b, a) {
      StrLeTotal(a, b);
    }
    forall a, b, c | StrLe(a, b) && StrLe(b, c) ensures StrLe(a, c) {
      StrLeTransitive(a, b, c);
    }
  }

  lemma NameLeIsPreorder()
    ensures TotalPreorder(NameLe)
  {
    forall a, b ensures NameLe(a, b) || NameLe(b, a) {
      StrLeTotal(a.name, b.name);
    }
    forall a, b, c | NameLe(a, b) && NameLe(b, c) ensures NameLe(a, c) {
      StrLeTransitive(a.name, b.name, c.name);
    }
  }

  predicate IsLeast(m: int, keys: set<int>)
  {
    m in keys && forall k :: k in keys ==> m <= k
  }

  lemma {:induction false} LeastExists(keys: set<int>)
    requires keys != {}
    ensures exists m :: IsLeast(m, keys)
  {
    if forall k :: k !in keys {
      assert false;
    }
    var x :| x in keys;
    var rest := keys - {x};
    if rest == {} {
      assert keys == {x};
      assert IsLeast(x, keys);
    } else {
      LeastExists(rest);
      var m :| IsLeast(m, rest);
      var least := if x < m then x else m;
      forall k | k in keys ensures least <= k {
        if k != x {
          assert k in rest;
        }
      }
      assert IsLeast(least, keys);
    }
  }

  /**
   * The keys in ascending numeric order: `Object.keys(..).map(Number).sort((a, b) => a - b)`.
   * `Object.keys` itself lists integer keys in this order.
   */
  function SortedKeys(keys: set<int>): (r: seq<int>)
    ensures forall k :: k in r <==> k in keys
    ensures forall i, j :: 0 <= i < j < |r| ==> r[i] < r[j]
    decreases keys
  {
    if keys == {} then []
    else
      LeastExists(keys);
      var m :| IsLeast(m, keys);
      [m] + SortedKeys(keys - {m})
  }

  /** `circles`: the levels that have a bucket, ascending. */
  function Circles(byCircle: Buckets): (r: seq<int>)
    ensures forall level :: level in r <==> level in byCircle
    ensures forall i, j :: 0 <= i < j < |r| ==> r[i] < r[j]
  {
    SortedKeys(byCircle.Keys)
  }

  /** `bucket.sort((a, b) => a.name.localeCompare(b.name))`. */
  function ByName(bucket: seq<Spell>): seq<Spell>
  {
    SortBy(bucket, NameLe)
  }

  /**
   * The second loop of `loadSpells`: every bucket is replaced by its sorted
   * copy, visiting the keys in the order `levels` lists them.
   */
  method SortBuckets(byCircle: Buckets, levels: seq<int>) returns (sorted: Buckets)
    requires forall level :: level in byCircle <==> level in levels
    ensures sorted.Keys == byCircle.Keys
    ensures forall level :: level in sorted ==> sorted[level] == ByName(byCircle[level])
  {
    sorted := byCircle;
    ghost var done: set<int> := {};
    for i := 0 to |levels|
      invariant sorted.Keys == byCircle.Keys
      invariant forall j :: 0 <= j < i ==> levels[j] in done
      invariant forall level :: level in done ==> level in sorted && sorted[level] == ByName(byCircle[level])
    {
      var level := levels[i];
      sorted := sorted[level := ByName(byCircle[level])];
      done := done + {level};
    }
    VisitedAll(levels, byCircle.Keys, done);
  }

  /** A loop that marked every listed key has marked every key. */
  lemma VisitedAll(levels: seq<int>, keys: set<int>, done: set<int>)
    requires forall k :: k in keys ==> k in levels
    requires forall j :: 0 <= j < |levels| ==> levels[j] in done
    ensures keys <= done
  {
    forall k | k in keys ensures k in done {
      var j :| 0 <= j < |levels| && levels[j] == k;
    }
  }

  /** What `loadSpells` stores in `spellsByCircle` for the given detail results. */
  function Catalogued(details: seq<Option<Spell>>): Buckets
  {
    Grouped(Formatted(details))
  }

  /** The spells bucketed by level, each bucket sorted by name. */
  function Grouped(spells: seq<Spell>): Buckets
  {
    map level | level in Levels(spells) :: ByName(OfLevel(spells, level))
  }

  /**
   * Each bucket holds exactly the spells of its level, sorted by name, and a
   * bucket exists only for a level some fetched spell has.
   */
  lemma CataloguedBuckets(details: seq<Option<Spell>>, level: int)
    ensures level in Catalogued(details) <==> exists s :: s in Formatted(details) && s.level == level
    ensures level in Catalogued(details) ==>
      && SortedBy(Catalogued(details)[level], NameLe)
      && multiset(Catalogued(details)[level]) == multiset(OfLevel(Formatted(details), level))
      && (forall s :: s in Catalogued(details)[level] ==> s.level == level)
  {
    var spells := Formatted(details);
    var b := Catalogued(details);
    assert level in b <==> level in Levels(spells);
    if level in b {
      var bucket := OfLevel(spells, level);
      assert b[level] == ByName(bucket) == SortBy(bucket, NameLe);
      NameLeIsPreorder();
      SortBySorted(bucket, NameLe);
      OfLevelMembers(spells, level);
      forall s: Spell | s in b[level] ensures s.level == level {
        assert s in multiset(b[level]);
        assert s in multiset(bucket);
      }
    }
  }

  /** `Object.values(byCircle).flat()` over the given keys. */
  function FlatOver(byCircle: Buckets, keys: seq<int>): seq<Spell>
  {
    if keys == [] then []
    else (if keys[0] in byCircle then byCircle[keys[0]] else []) + FlatOver(byCircle, keys[1..])
  }

  lemma {:induction false} FlatOverMembers(byCircle: Buckets, keys: seq<int>, s: Spell)
    ensures s in FlatOver(byCircle, keys) <==> exists k :: k in keys && k in byCircle && s in byCircle[k]
  {
    if keys != [] {
      FlatOverMembers(byCircle, keys[1..], s);
      assert forall k :: k in keys <==> k == keys[0] || k in keys[1..] by {
        assert keys == [keys[0]] + keys[1..];
      }
    }
  }

  /** Every spell in every bucket, by ascending level. */
  function Values(byCircle: Buckets): (r: seq<Spell>)
    ensures forall s :: s in r <==> exists level :: level in byCircle && s in byCircle[level]
  {
    var keys := SortedKeys(byCircle.Keys);
    forall s ensures s in FlatOver(byCircle, keys) <==> exists level :: level in byCircle && s in byCircle[level] {
      FlatOverMembers(byCircle, keys, s);
    }
    FlatOver(byCircle, keys)
  }

  lemma {:induction false} FlatOverCount(byCircle: Buckets, keys: seq<int>, spells: seq<Spell>, x: Spell)
    requires Distinct(keys)
    requires forall k :: k in keys ==> k in byCircle && multiset(byCircle[k]) == multiset(OfLevel(spells, k))
    ensures multiset(FlatOver(byCircle, keys))[x] == if x.level in keys then multiset(spells)[x] else 0
  {
    if keys != [] {
      var first, rest := keys[0], keys[1..];
      assert keys == [first] + rest;
      assert Distinct(rest) by {
        forall i, j | 0 <= i < j < |rest| ensures rest[i] != rest[j] {
          assert rest[i] == keys[i + 1] && rest[j] == keys[j + 1];
        }
      }
      FlatOverCount(byCircle, rest, spells, x);
      OfLevelCount(spells, first);
      assert first !in rest by {
        forall i | 0 <= i < |rest| ensures rest[i] != first {
          assert rest[i] == keys[i + 1];
        }
      }
      assert x.level in keys <==> x.level == first || x.level in rest;
      assert FlatOver(byCircle, keys) == byCircle[first] + FlatOver(byCircle, rest);
    }
  }

  /**
   * Nothing is lost or duplicated: the buckets together hold exactly the
   * fetched spells, so their number is the number of non-null details.
   */
  lemma CataloguedCount(details: seq<Option<Spell>>, x: Spell)
    ensures multiset(Values(Catalogued(details)))[x] == multiset(Formatted(details))[x]
  {
    var spells := Formatted(details);
    var b := Catalogued(details);
    var keys := SortedKeys(b.Keys);
    assert Distinct(keys);
    forall k | k in keys ensures k in b && multiset(b[k]) == multiset(OfLevel(spells, k)) {
      assert k in b.Keys;
    }
    FlatOverCount(b, keys, spells, x);
    assert x in spells ==> x.level in Levels(spells);
    assert x.level in keys <==> x.level in Levels(spells);
  }

  lemma CataloguedPartition(details: seq<Option<Spell>>)
    ensures multiset(Values(Catalogued(details))) == multiset(Formatted(details))
    ensures |Values(Catalogued(details))| == |details| - multiset(details)[None]
  {
    var spells := Formatted(details);
    var v := Values(Catalogued(details));
    forall x ensures multiset(v)[x] == multiset(spells)[x] {
      CataloguedCount(details, x);
    }
    assert multiset(v) == multiset(spells);
    assert |v| == |multiset(v)| == |multiset(spells)| == |spells|;
  }

  /** Spells whose names tell them apart: two spells with one name are the same spell. */
  predicate NamesIdentify(spells: seq<Spell>)
  {
    forall a, b :: a in spells && b in spells && a.name == b.name ==> a == b
  }

  /** Localizing a permuted list gives a permutation of the localized list. */
  lemma FormatAllPermutation(s1: seq<Spell>, s2: seq<Spell>)
    requires multiset(s1) == multiset(s2)
    ensures multiset(FormatAll(s1)) == multiset(FormatAll(s2))
  {
    assert FormatAll(s1) == Map(s1, FormatSpell);
    assert FormatAll(s2) == Map(s2, FormatSpell);
    MapPermutation(s1, s2, FormatSpell);
  }

  /** The spells that reach the grouping loop do not depend on the order the details came in. */
  lemma FormattedPermutation(d1: seq<Option<Spell>>, d2: seq<Option<Spell>>)
    requires multiset(d1) == multiset(d2)
    ensures multiset(Formatted(d1)) == multiset(Formatted(d2))
  {
    var p1, p2 := Present(d1), Present(d2);
    assert multiset(p1) == multiset(p2) by {
      forall s ensures multiset(p1)[s] == multiset(p2)[s] {
      }
    }
    FormatAllPermutation(p1, p2);
  }

  lemma OfLevelPermutation(spells1: seq<Spell>, spells2: seq<Spell>, level: int)
    requires multiset(spells1) == multiset(spells2)
    ensures multiset(OfLevel(spells1, level)) == multiset(OfLevel(spells2, level))
  {
    OfLevelCount(spells1, level);
    OfLevelCount(spells2, level);
  }

  /** Within a bucket, two spells that sort both ways have one name and so are one spell. */
  lemma NameTiesEqual(spells: seq<Spell>, level: int)
    requires NamesIdentify(spells)
    ensures var sorted := ByName(OfLevel(spells, level));
      forall x, y :: x in sorted && y in sorted && NameLe(x, y) && NameLe(y, x) ==> x == y
  {
    var bucket := OfLevel(spells, level);
    OfLevelMembers(spells, level);
    forall x, y | x in ByName(bucket) && y in ByName(bucket) && NameLe(x, y) && NameLe(y, x)
      ensures x == y
    {
      assert x in multiset(ByName(bucket)) && y in multiset(ByName(bucket));
      StrLeAntisymmetric(x.name, y.name);
    }
  }

  /** One level's bucket comes out the same from two permutations of the same spells. */
  lemma SameBucket(spells1: seq<Spell>, spells2: seq<Spell>, level: int)
    requires multiset(spells1) == multiset(spells2)
    requires NamesIdentify(spells1)
    ensures ByName(OfLevel(spells1, level)) == ByName(OfLevel(spells2, level))
  {
    var o1, o2 := OfLevel(spells1, level), OfLevel(spells2, level);
    OfLevelPermutation(spells1, spells2, level);
    NameTiesEqual(spells1, level);
    NameLeIsPreorder();
    SortBySorted(o1, NameLe);
    SortBySorted(o2, NameLe);
    SortedUnique(ByName(o1), ByName(o2), NameLe);
  }

  /** Permuted spells have the same levels. */
  lemma SameLevels(spells1: seq<Spell>, spells2: seq<Spell>)
    requires multiset(spells1) == multiset(spells2)
    ensures Levels(spells1) == Levels(spells2)
  {
    forall s ensures s in spells1 <==> s in spells2 {
      assert s in spells1 <==> s in multiset(spells1);
      assert s in spells2 <==> s in multiset(spells2);
    }
  }

  /** When names tell spells apart, the buckets do not depend on the order of the spells. */
  lemma GroupedPermutation(spells1: seq<Spell>, spells2: seq<Spell>)
    requires multiset(spells1) == multiset(spells2)
    requires NamesIdentify(spells1)
    ensures Grouped(spells1) == Grouped(spells2)
  {
    SameLevels(spells1, spells2);
    var g1, g2 := Grouped(spells1), Grouped(spells2);
    assert g1.Keys == g2.Keys;
    forall level | level in g1 ensures g1[level] == g2[level] {
      SameBucket(spells1, spells2, level);
    }
  }

  /**
   * The catalog does not depend on the order the detail requests come back
   * in, as long as no two different spells share a name: the sort by name
   * then leaves nothing to the input order.
   */
  lemma CataloguedShuffle(d1: seq<Option<Spell>>, d2: seq<Option<Spell>>)
    requires multiset(d1) == multiset(d2)
    requires NamesIdentify(Formatted(d1))
    ensures Catalogued(d1) == Catalogued(d2)
  {
    FormattedPermutation(d1, d2);
    GroupedPermutation(Formatted(d1), Formatted(d2));
  }



  /** `spell.classes.some(c => c.name === className)`. */
  predicate HasClass(spell: Spell, className: string)
  {
    exists c :: c in spell.classes && c.name == className
  }

  function ClassNamesOf(spells: seq<Spell>): (r: seq<string>)
    ensures forall n :: n in r <==> exists s :: s in spells && HasClass(s, n)
  {
    if spells == [] then []
    else
      var names := seq(|spells[0].classes|, i requires 0 <= i < |spells[0].classes| => spells[0].classes[i].name);
      assert forall n :: n in names <==> HasClass(spells[0], n) by {
        forall n | HasClass(spells[0], n) ensures n in names {
          var c :| c in spells[0].classes && c.name == n;
          var i :| 0 <= i < |spells[0].classes| && spells[0].classes[i] == c;
          assert names[i] == n;
        }
      }
      assert spells == [spells[0]] + spells[1..];
      names + ClassNamesOf(spells[1..])
  }

  /**
   * `allClasses`: the class names of every bucketed spell, without
   * repetitions, in the default `sort()` order.
   */
  function AllClasses(byCircle: Buckets): (r: seq<string>)
    ensures forall n :: n in r <==> exists s :: s in Values(byCircle) && HasClass(s, n)
    ensures forall i, j :: 0 <= i < j < |r| ==> StrLe(r[i], r[j]) && r[i] != r[j]
  {
    var names := Dedup(ClassNamesOf(Values(byCircle)));
    var r := SortBy(names, StrLe);
    StrLeIsPreorder();
    SortBySorted(names, StrLe);
    DistinctPermutation(names, r);
    assert forall n :: n in r <==> n in names by {
      forall n ensures n in r <==> n in names {
        assert n in r <==> n in multiset(r);
        assert n in names <==> n in multiset(names);
      }
    }
    r
  }

  /** The search box and class filter of `getFilteredSpells` for one spell. */
  predicate Matches(spell: Spell, search: string, selectedClass: string)
    ensures search == "" && selectedClass == "all" ==> Matches(spell, search, selectedClass)
  {
    ContainsEmptyAndSelf(Lower(spell.name));
    && Contains(Lower(spell.name), Lower(search))
    && (selectedClass == "all" || HasClass(spell, selectedClass))
  }

  /** A filtered bucket keeps the matching spells of the bucket, in the bucket's order. */
  function FilterBucket(bucket: seq<Spell>, search: string, selectedClass: string): (r: seq<Spell>)
    ensures forall s :: s in r <==> s in bucket && Matches(s, search, selectedClass)
    ensures IsSubsequence(r, bucket)
  {
    var keep := (s: Spell) => Matches(s, search, selectedClass);
    FilterMembers(bucket, keep);
    FilterIsSubsequence(bucket, keep);
    Filter(bucket, keep)
  }

  /** With an empty search and class "all" every bucket is shown whole. */
  lemma NoFilterKeepsBucket(bucket: seq<Spell>)
    ensures FilterBucket(bucket, "", "all") == bucket
  {
    FilterKeepsAll(bucket, (s: Spell) => Matches(s, "", "all"));
  }

  /** The circle selector: `'all'` or one level. */
  datatype CircleChoice = AllCircles | Circle(level: int)

  /** `circlesToShow`: every circle for 'all', else just the selected one. */
  function CirclesToShow(byCircle: Buckets, choice: CircleChoice): (r: seq<int>)
    ensures choice.AllCircles? ==> forall level :: level in r <==> level in byCircle
    ensures choice.Circle? ==> r == [choice.level]
  {
    if choice.AllCircles? then Circles(byCircle) else [choice.level]
  }

  /** `spellsByCircle[level] || []`. */
  function BucketAt(byCircle: Buckets, level: int): seq<Spell>
  {
    if level in byCircle then byCircle[level] else []
  }

  /**
   * The `forEach` loop of `getFilteredSpells`: a fresh map with one key per
   * circle listed, holding the matching spells of that circle's bucket.
   */
  method FilterCircles(byCircle: Buckets, circlesToShow: seq<int>, search: string, selectedClass: string)
    returns (filtered: Buckets)
    ensures forall level :: level in filtered <==> level in circlesToShow
    ensures forall level :: level in filtered ==>
      filtered[level] == FilterBucket(BucketAt(byCircle, level), search, selectedClass)
  {
    filtered := map[];
    for i := 0 to |circlesToShow|
      invariant forall level :: level in filtered ==> level in circlesToShow
      invariant forall j :: 0 <= j < i ==> circlesToShow[j] in filtered
      invariant forall level :: level in filtered ==>
        filtered[level] == FilterBucket(BucketAt(byCircle, level), search, selectedClass)
    {
      var level := circlesToShow[i];
      filtered := filtered[level := FilterBucket(BucketAt(byCircle, level), search, selectedClass)];
    }
    forall level | level in circlesToShow ensures level in filtered {
      var j :| 0 <= j < |circlesToShow| && circlesToShow[j] == level;
    }
  }

  /** The spell as the detail dialog shows it. */
  datatype ModalSpell = ModalSpell(
    name: string,
    school: string,
    level: int,
    castingTime: string,
    range: string,
    components: string,
    duration: string,
    description: seq<string>,
    classes: seq<string>)

  /** `components.join(', ')`, followed by ` (material)` when there is a material text. */
  function ComponentsText(components: seq<string>, material: Option<string>): (r: string)
    ensures |r| == |Join(components, ", ")| + if material.Some? && material.value != "" then |material.value| + 3 else 0
    ensures r[..|Join(components, ", ")|] == Join(components, ", ")
    ensures r == Join(components, ", ") <==> material.None? || material.value == ""
    ensures material.Some? && material.value != "" ==>
      && r[|Join(components, ", ")|..|Join(components, ", ")| + 2] == " ("
      && r[|r| - |material.value| - 1..] == material.value + ")"
  {
    var list := Join(components, ", ");
    if material.Some? && material.value != "" then
      var r := list + " (" + material.value + ")";
      assert |r| > |list|;
      r
    else list
  }

  /** `adaptSpellForModal`. */
  function AdaptSpellForModal(spell: Option<Spell>): (r: Option<ModalSpell>)
    ensures r.None? <==> spell.None?
    ensures spell.Some? ==>
      && r.value.name == spell.value.name
      && r.value.school == spell.value.school.name
      && r.value.level == spell.value.level
      && r.value.castingTime == spell.value.castingTime
      && r.value.range == spell.value.range
      && r.value.components == ComponentsText(spell.value.components, spell.value.material)
      && r.value.duration == spell.value.duration
      && r.value.description == spell.value.desc
      && |r.value.classes| == |spell.value.classes|
      && forall i :: 0 <= i < |r.value.classes| ==> r.value.classes[i] == spell.value.classes[i].name
  {
    match spell
    case None => None
    case Some(s) =>
      Some(ModalSpell(
        s.name, s.school.name, s.level, s.castingTime, s.range,
        ComponentsText(s.components, s.material), s.duration, s.desc,
        seq(|s.classes|, i requires 0 <= i < |s.classes| => s.classes[i].name)))
  }

  /** The state of the spells page that the catalog logic reads and writes. */
  class SpellsPage {
    var spellsByCircle: Buckets
    var search: string
    var selectedCircle: CircleChoice
    var selectedClass: string

    constructor ()
      ensures spellsByCircle == map[] && search == ""
      ensures selectedCircle == AllCircles && selectedClass == "all"
    {
      spellsByCircle := map[];
      search := "";
      selectedCircle := AllCircles;
      selectedClass := "all";
    }

    /** The body of `loadSpells` after the requests: drop, localize, group, sort, store. */
    method LoadSpells(details: seq<Option<Spell>>)
      modifies this`spellsByCircle
      ensures spellsByCircle == Catalogued(details)
    {
      var formatted := Formatted(details);
      var byCircle := GroupByLevel(formatted);
      byCircle := SortBuckets(byCircle, SortedKeys(byCircle.Keys));
      spellsByCircle := byCircle;
    }

    /** The three filter inputs of the page. */
    method SetFilters(search: string, circle: CircleChoice, selectedClass: string)
      modifies this`search, this`selectedCircle, this`selectedClass
      ensures this.search == search && selectedCircle == circle && this.selectedClass == selectedClass
    {
      this.search := search;
      this.selectedCircle := circle;
      this.selectedClass := selectedClass;
    }

    /**
     * `getFilteredSpells`: a fresh map with one key per circle shown (every
     * circle for 'all', else the selected one, even without a bucket), each
     * holding the matching spells of that bucket. The page state is only read.
     */
    method GetFilteredSpells() returns (filtered: Buckets)
      ensures filtered.Keys == if selectedCircle.AllCircles? then spellsByCircle.Keys else {selectedCircle.level}
      ensures forall level :: level in filtered ==>
        filtered[level] == FilterBucket(BucketAt(spellsByCircle, level), search, selectedClass)
    {
      var circlesToShow := CirclesToShow(spellsByCircle, selectedCircle);
      filtered := FilterCircles(spellsByCircle, circlesToShow, search, selectedClass);
      if selectedCircle.AllCircles? {
        assert forall level :: level in filtered <==> level in spellsByCircle;
        assert filtered.Keys == spellsByCircle.Keys;
      } else {
        assert forall level :: level in filtered <==> level == selectedCircle.level;
        assert filtered.Keys == {selectedCircle.level};
      }
    }
  }
}
