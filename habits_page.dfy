/** The habit management page `src/app/habits/page.tsx`: the habit list with
    its add and update steps, and the grouping of habits by category that
    the page renders one card per group from. */
module HabitsPage {
  import opened Wrappers
  import opened HabitTypes
  import SeqUtil

  /** `CATEGORY_MAP`: the heading of each category's card. */
  function CategoryLabel(c: Category): (heading: string)
    ensures heading != ""
  {
    match c
    case Morning => "Pagi"
    case AfterDhuhr => "Setelah Dzuhur"
    case AfternoonEvening => "Sore & Malam"
    case SleepPrep => "Persiapan & Kualitas Tidur"
    case All => "Semua"
  }

  /** Different categories get different headings. */
  lemma CategoryLabelInjective(a: Category, b: Category)
    ensures CategoryLabel(a) == CategoryLabel(b) ==> a == b
  {
  }

  function HabitCategory(h: Habit): Category {
    h.category
  }

  /** Each habit's category, in list order. */
  function CategoriesOf(habits: seq<Habit>): seq<Category> {
    SeqUtil.Keys(habits, HabitCategory)
  }

  function InCategory(c: Category): Habit -> bool {
    (h: Habit) => h.category == c
  }

  /** The habits of one category, in list order. */
  function Group(habits: seq<Habit>, c: Category): seq<Habit> {
    SeqUtil.Filter(habits, InCategory(c))
  }

  /** `groupedHabits`: a dictionary from category to the habits of that
      category, built by pushing each habit onto its category's entry and
      creating the entry on first use. `keys` is the dictionary's key order,
      which for these string keys is the order of insertion. */
  method GroupByCategory(habits: seq<Habit>) returns (keys: seq<Category>, groups: map<Category, seq<Habit>>)
    ensures keys == SeqUtil.FirstSeen(CategoriesOf(habits))
    ensures forall c :: c in groups <==> c in keys
    ensures forall c :: c in groups ==> groups[c] == Group(habits, c)
  {
    keys := [];
    groups := map[];
    var i := 0;
    while i < |habits|
      invariant 0 <= i <= |habits|
      invariant GroupedUpTo(habits, i, keys, groups)
    {
      var c := habits[i].category;
      var entry := if c in groups then groups[c] else [];
      var keys' := if c in groups then keys else keys + [c];
      GroupedStep(habits, i, keys, groups, keys', entry);
      keys, groups := keys', groups[c := entry + [habits[i]]];
      i := i + 1;
    }
    assert habits[..i] == habits && CategoriesOf(habits)[..i] == CategoriesOf(habits);
  }

  /** The dictionary after the first `i` habits. */
  ghost predicate GroupedUpTo(habits: seq<Habit>, i: nat, keys: seq<Category>, groups: map<Category, seq<Habit>>)
    requires i <= |habits|
  {
    keys == SeqUtil.FirstSeen(CategoriesOf(habits)[..i]) &&
    (forall c :: c in groups <==> c in keys) &&
    (forall c :: c in groups ==> groups[c] == Group(habits[..i], c))
  }

  /** One step of the fold keeps the dictionary in step with the prefix:
      the habit is pushed onto its category's entry, which starts empty and
      joins the key order when the category is new. */
  lemma GroupedStep(habits: seq<Habit>, i: nat, keys: seq<Category>, groups: map<Category, seq<Habit>>,
                    keys': seq<Category>, entry: seq<Habit>)
    requires i < |habits| && GroupedUpTo(habits, i, keys, groups)
    requires keys' == if habits[i].category in groups then keys else keys + [habits[i].category]
    requires entry == if habits[i].category in groups then groups[habits[i].category] else []
    ensures GroupedUpTo(habits, i + 1, keys', groups[habits[i].category := entry + [habits[i]]])
  {
    var c := habits[i].category;
    KeyOrderStep(habits, i, keys, keys');
    if c !in groups {
      GroupUnused(habits, i, keys);
    }
    GroupsStep(habits, i, groups, entry);
  }

  /** The key order grows by the habit's category when it is new. */
  lemma KeyOrderStep(habits: seq<Habit>, i: nat, keys: seq<Category>, keys': seq<Category>)
    requires i < |habits| && keys == SeqUtil.FirstSeen(CategoriesOf(habits)[..i])
    requires keys' == if habits[i].category in keys then keys else keys + [habits[i].category]
    ensures keys' == SeqUtil.FirstSeen(CategoriesOf(habits)[..i + 1])
  {
    assert HabitCategory(habits[i]) == habits[i].category;
    SeqUtil.KeysStep(habits, i, HabitCategory);
  }

  /** The entries after the step: the habit's category gets the habit added,
      the others stay. */
  lemma GroupsStep(habits: seq<Habit>, i: nat, groups: map<Category, seq<Habit>>, entry: seq<Habit>)
    requires i < |habits|
    requires forall d :: d in groups ==> groups[d] == Group(habits[..i], d)
    requires entry == Group(habits[..i], habits[i].category)
    ensures var groups' := groups[habits[i].category := entry + [habits[i]]];
      forall d :: d in groups' ==> groups'[d] == Group(habits[..i + 1], d)
  {
    GroupStep(habits, i);
  }

  /** Taking one more habit extends its own category's group by it. */
  lemma GroupStep(habits: seq<Habit>, i: nat)
    requires i < |habits|
    ensures forall c ::
      Group(habits[..i + 1], c) == Group(habits[..i], c) + (if habits[i].category == c then [habits[i]] else [])
  {
    assert habits[..i + 1][..i] == habits[..i];
  }

  /** A category not yet seen has an empty group so far. */
  lemma GroupUnused(habits: seq<Habit>, i: nat, keys: seq<Category>)
    requires i < |habits|
    requires keys == SeqUtil.FirstSeen(CategoriesOf(habits)[..i])
    requires habits[i].category !in keys
    ensures Group(habits[..i], habits[i].category) == []
  {
    SeqUtil.KeyUnseenBefore(habits, i, HabitCategory, keys);
    SeqUtil.FilterNone(habits[..i], InCategory(habits[i].category));
  }

  /** The group sizes of distinct categories add up to the number of habits
      in one of those categories. */
  lemma {:induction false} GroupSizesUpTo(habits: seq<Habit>, keys: seq<Category>)
    requires forall i, j :: 0 <= i < j < |keys| ==> keys[i] != keys[j]
    ensures SeqUtil.SumBy(keys, GroupSize(habits)) == |SeqUtil.Filter(habits, InKeys(keys))|
  {
    if keys == [] {
      SeqUtil.FilterNone(habits, InKeys(keys));
    } else {
      var front, k := keys[..|keys| - 1], keys[|keys| - 1];
      GroupSizesUpTo(habits, front);
      assert keys == front + [k];
      SeqUtil.FilterUnion(habits, InKeys(front), InCategory(k), InKeys(keys));
    }
  }

  function GroupSize(habits: seq<Habit>): Category -> int {
    (c: Category) => |Group(habits, c)|
  }

  function InKeys(keys: seq<Category>): Habit -> bool {
    (h: Habit) => h.category in keys
  }

  /** The grouping is a partition of the habit list: a group exists exactly
      for the categories in use and is never empty, each habit sits in the
      group of its own category and in no other, and the group sizes add up
      to the number of habits. */
  lemma GroupsPartition(habits: seq<Habit>)
    ensures var keys := SeqUtil.FirstSeen(CategoriesOf(habits));
      (forall c :: c in keys <==> exists i :: 0 <= i < |habits| && habits[i].category == c) &&
      (forall c :: c in keys ==> Group(habits, c) != []) &&
      (forall c, h :: h in Group(habits, c) <==> h in habits && h.category == c) &&
      SeqUtil.SumBy(keys, GroupSize(habits)) == |habits|
  {
    var cats := CategoriesOf(habits);
    var keys := SeqUtil.FirstSeen(cats);
    forall c
      ensures c in keys <==> exists i :: 0 <= i < |habits| && habits[i].category == c
    {
      if c in keys {
        var i :| 0 <= i < |cats| && cats[i] == c;
      }
      if exists i :: 0 <= i < |habits| && habits[i].category == c {
        var i :| 0 <= i < |habits| && habits[i].category == c;
        assert cats[i] == c;
      }
    }
    forall c
      ensures forall h :: h in Group(habits, c) <==> h in habits && h.category == c
    {
      SeqUtil.FilterMembers(habits, InCategory(c));
    }
    forall c | c in keys
      ensures Group(habits, c) != []
    {
      var i :| 0 <= i < |habits| && habits[i].category == c;
      assert habits[i] in Group(habits, c);
    }
    GroupSizesUpTo(habits, keys);
    SeqUtil.FilterAll(habits, InKeys(keys));
  }

  function HabitId(h: Habit): string {
    h.id
  }

  /** `prev.map(h => h.id === habit.id ? habit : h)`. */
  function ReplaceById(habits: seq<Habit>, habit: Habit): seq<Habit> {
    SeqUtil.ReplaceByKey(habits, habit, HabitId)
  }

  /** The page's state: the habit list and the habit open in the edit dialog. */
  class HabitsBoard {
    var habits: seq<Habit>
    var editing: Option<Habit>

    constructor(habits: seq<Habit>)
      ensures this.habits == habits && editing == None
    {
      this.habits := habits;
      editing := None;
    }

    /** `handleAddHabit` after a successful POST: the returned habit goes last. */
    method AddHabit(habit: Habit)
      modifies this
      ensures habits == old(habits) + [habit] && editing == old(editing)
    {
      habits := habits + [habit];
    }

    /** The "Ubah" button opens the edit dialog on a habit. */
    method StartEdit(habit: Habit)
      modifies this
      ensures editing == Some(habit) && habits == old(habits)
    {
      editing := Some(habit);
    }

    /** `handleUpdateHabit`: nothing without a habit being edited; after a
        successful PUT the returned habit replaces its id and the dialog closes. */
    method UpdateHabit(returned: Habit)
      modifies this
      ensures old(editing).None? ==> habits == old(habits) && editing == None
      ensures old(editing).Some? ==> habits == ReplaceById(old(habits), returned) && editing == None
    {
      if editing == None {
        return;
      }
      habits := ReplaceById(habits, returned);
      editing := None;
    }
  }
}
