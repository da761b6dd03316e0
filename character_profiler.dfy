/**
 * The NPC profile form (`CharacterProfiler`). Every control replaces the
 * profile record with a copy in which one field differs: the name and
 * background inputs, the role and tone buttons, and the personality buttons,
 * which toggle a trait in or out of the trait list.
 */
module CharacterProfiler {
  import opened Wrappers

  datatype Profile = Profile(
    name: string,
    role: string,
    personality: seq<string>,
    background: string,
    tone: string)

  /** The form's starting record. */
  const InitialProfile := Profile("", "quest_giver", [], "", "friendly")

  // ---------------------------------------------------------------------------
  // Traits
  // ---------------------------------------------------------------------------

  /** `traits.filter(t => t !== trait)`. */
  function Without(traits: seq<string>, choice: string): (r: seq<string>)
    ensures choice !in r
    ensures forall t | t != choice :: multiset(r)[t] == multiset(traits)[t]
    ensures |r| <= |traits|
  {
    if traits == [] then []
    else
      var rest := Without(traits[1..], choice);
      assert traits == [traits[0]] + traits[1..];
      if traits[0] == choice then rest else [traits[0]] + rest
  }

  /** Filtering distributes over concatenation, so the kept traits stay in their order. */
  lemma {:induction false} WithoutAppend(a: seq<string>, b: seq<string>, choice: string)
    ensures Without(a + b, choice) == Without(a, choice) + Without(b, choice)
  {
    if a == [] {
      assert a + b == b;
    } else {
      assert (a + b)[0] == a[0];
      assert (a + b)[1..] == a[1..] + b;
      WithoutAppend(a[1..], b, choice);
    }
  }

  /** Filtering a list that does not hold the trait keeps it as it is. */
  lemma {:induction false} WithoutAbsent(traits: seq<string>, choice: string)
    requires choice !in traits
    ensures Without(traits, choice) == traits
  {
    if traits != [] {
      WithoutAbsent(traits[1..], choice);
    }
  }

  /** `togglePersonality(trait)`: drop every copy of a trait that is present, append one that is not. */
  function TogglePersonality(p: Profile, choice: string): Profile {
    p.(personality :=
      if choice in p.personality then Without(p.personality, choice)
      else p.personality + [choice])
  }

  /**
   * A toggle flips whether the trait is selected: a present trait loses
   * every copy, an absent one is added once at the end. The other traits
   * keep their counts and, with the toggled trait struck out of both lists,
   * their order; name, role, background and tone do not change.
   */
  lemma ToggleFlips(p: Profile, choice: string)
    ensures var q := TogglePersonality(p, choice);
      && (choice in q.personality <==> choice !in p.personality)
      && (choice !in p.personality ==> q.personality == p.personality + [choice])
      && (forall t | t != choice :: multiset(q.personality)[t] == multiset(p.personality)[t])
      && Without(q.personality, choice) == Without(p.personality, choice)
      && q.name == p.name && q.role == p.role && q.background == p.background && q.tone == p.tone
  {
    var q := TogglePersonality(p, choice);
    if choice in p.personality {
      WithoutAbsent(q.personality, choice);
    } else {
      WithoutAppend(p.personality, [choice], choice);
      assert Without([choice], choice) == [];
      assert multiset(q.personality) == multiset(p.personality) + multiset{choice};
    }
  }

  predicate NoDuplicates(traits: seq<string>) {
    forall i, j | 0 <= i < j < |traits| :: traits[i] != traits[j]
  }

  /** Filtering keeps a duplicate-free list duplicate-free. */
  lemma {:induction false} WithoutKeepsDistinct(traits: seq<string>, choice: string)
    requires NoDuplicates(traits)
    ensures NoDuplicates(Without(traits, choice))
  {
    if traits != [] {
      WithoutKeepsDistinct(traits[1..], choice);
      var rest := Without(traits[1..], choice);
      if traits[0] != choice {
        assert traits[0] !in traits[1..];
        assert multiset(rest)[traits[0]] == multiset(traits[1..])[traits[0]] == 0;
        assert traits[0] !in rest;
      }
    }
  }

  /** A trait list without repeats stays without repeats, whatever is toggled. */
  lemma ToggleKeepsDistinct(p: Profile, choice: string)
    requires NoDuplicates(p.personality)
    ensures NoDuplicates(TogglePersonality(p, choice).personality)
  {
    if choice in p.personality {
      WithoutKeepsDistinct(p.personality, choice);
    }
  }

  /** Toggling an absent trait twice gives back the list as it was. */
  lemma ToggleTwiceRestores(p: Profile, choice: string)
    requires choice !in p.personality
    ensures TogglePersonality(TogglePersonality(p, choice), choice) == p
  {
    WithoutAppend(p.personality, [choice], choice);
    WithoutAbsent(p.personality, choice);
    assert Without([choice], choice) == [];
  }

  /** The profile after a run of trait toggles. */
  function Toggles(p: Profile, traits: seq<string>): Profile
    decreases |traits|
  {
    if traits == [] then p else Toggles(TogglePersonality(p, traits[0]), traits[1..])
  }

  lemma {:induction false} TogglesKeepDistinct(p: Profile, traits: seq<string>)
    requires NoDuplicates(p.personality)
    ensures NoDuplicates(Toggles(p, traits).personality)
    decreases |traits|
  {
    if traits != [] {
      ToggleKeepsDistinct(p, traits[0]);
      TogglesKeepDistinct(TogglePersonality(p, traits[0]), traits[1..]);
    }
  }

  /** Every profile the form reaches from its start has no repeated trait. */
  lemma TogglesFromStartStayDistinct(traits: seq<string>)
    ensures NoDuplicates(Toggles(InitialProfile, traits).personality)
  {
    TogglesKeepDistinct(InitialProfile, traits);
  }

  // ---------------------------------------------------------------------------
  // Single-field controls
  // ---------------------------------------------------------------------------

  /** The name input. */
  function SetName(p: Profile, name: string): (q: Profile)
    ensures q.name == name
    ensures q.(name := p.name) == p
  {
    p.(name := name)
  }

  /** A role button. */
  function SetRole(p: Profile, role: string): (q: Profile)
    ensures q.role == role
    ensures q.(role := p.role) == p
  {
    p.(role := role)
  }

  /** The background text area. */
  function SetBackground(p: Profile, background: string): (q: Profile)
    ensures q.background == background
    ensures q.(background := p.background) == p
  {
    p.(background := background)
  }

  /** A tone button. */
  function SetTone(p: Profile, tone: string): (q: Profile)
    ensures q.tone == tone
    ensures q.(tone := p.tone) == p
  {
    p.(tone := tone)
  }

  // ---------------------------------------------------------------------------
  // The summary card
  // ---------------------------------------------------------------------------

  datatype Entry = Entry(id: string, name: string)

  const Roles: seq<Entry> := [
    Entry("quest_giver", "Quest Giver"),
    Entry("merchant", "Merchant"),
    Entry("companion", "Companion"),
    Entry("villain", "Villain"),
    Entry("civilian", "Civilian")
  ]

  const Tones: seq<Entry> := [
    Entry("friendly", "Friendly"),
    Entry("hostile", "Hostile"),
    Entry("mysterious", "Mysterious"),
    Entry("comedic", "Comedic"),
    Entry("serious", "Serious")
  ]

  /** `table.find(e => e.id === id)?.name`. */
  function LabelOf(table: seq<Entry>, id: string): (r: Option<string>)
    ensures r.Some? <==> exists k | 0 <= k < |table| :: table[k].id == id
    ensures r.Some? ==> exists k | 0 <= k < |table| :: table[k].id == id && table[k].name == r.value
  {
    if table == [] then None
    else if table[0].id == id then Some(table[0].name)
    else
      var r := LabelOf(table[1..], id);
      assert forall k | 1 <= k < |table| :: table[k] == table[1..][k - 1];
      r
  }

  predicate IdsDistinct(table: seq<Entry>) {
    forall i, j | 0 <= i < j < |table| :: table[i].id != table[j].id
  }

  /** Ids in a table are distinct, so a lookup finds the label beside the id. */
  lemma {:induction false} LabelOfDistinct(table: seq<Entry>, k: nat)
    requires k < |table|
    requires IdsDistinct(table)
    ensures LabelOf(table, table[k].id) == Some(table[k].name)
  {
    if k > 0 {
      LabelOfDistinct(table[1..], k - 1);
    }
  }

  /**
   * The summary card is shown once a name is typed; the role and tone lines
   * show the label of the selected button, and both are found for the
   * starting record.
   */
  function Summary(p: Profile): Option<(Option<string>, Option<string>)> {
    if p.name == "" then None else Some((LabelOf(Roles, p.role), LabelOf(Tones, p.tone)))
  }

  lemma SummaryLabels(p: Profile, k: nat)
    requires k < 5
    ensures Summary(p).Some? <==> p.name != ""
    ensures p.name != "" && p.role == Roles[k].id ==> Summary(p).value.0 == Some(Roles[k].name)
    ensures p.name != "" && p.tone == Tones[k].id ==> Summary(p).value.1 == Some(Tones[k].name)
  {
    DistinctIds();
    LabelOfDistinct(Roles, k);
    LabelOfDistinct(Tones, k);
  }

  /** No two role buttons, and no two tone buttons, share an id. */
  lemma DistinctIds()
    ensures IdsDistinct(Roles) && IdsDistinct(Tones)
  {
  }
}
