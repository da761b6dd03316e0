/**
 * The NPC dialog generator (`NPCDialogGenerator`). An NPC type selects a
 * personality; the personality's template lists supply the line for a
 * context; the context alone fixes the emotion and the player's choices.
 * `random.choice` is a `pick` index supplied by the caller: any index selects
 * some entry of the list, and every entry is selected by some index.
 */
module NpcDialog {
  import opened Wrappers

  datatype Personality = Friendly | Mysterious | Aggressive | Wise

  /** The name the dialog's `personality` field carries. */
  function PersonalityName(p: Personality): string {
    match p
    case Friendly => "friendly"
    case Mysterious => "mysterious"
    case Aggressive => "aggressive"
    case Wise => "wise"
  }

  /** `personality_map.get(npc_type, 'friendly')`. */
  function PersonalityOf(npcType: string): Personality {
    if npcType == "merchant" then Friendly
    else if npcType == "guard" then Aggressive
    else if npcType == "wizard" then Mysterious
    else if npcType == "elder" then Wise
    else if npcType == "villager" then Friendly
    else if npcType == "quest_giver" then Wise
    else if npcType == "enemy" then Aggressive
    else Friendly
  }

  /** The seven mapped NPC types; everything else falls back to friendly. */
  lemma PersonalityTable(npcType: string)
    ensures PersonalityOf(npcType) == Aggressive <==> npcType == "guard" || npcType == "enemy"
    ensures PersonalityOf(npcType) == Mysterious <==> npcType == "wizard"
    ensures PersonalityOf(npcType) == Wise <==> npcType == "elder" || npcType == "quest_giver"
    ensures PersonalityOf(npcType) == Friendly <==>
      npcType !in {"guard", "enemy", "wizard", "elder", "quest_giver"}
  {
  }

  /** `personality_templates[personality].get(key)`: the lists each personality defines. */
  function Templates(p: Personality, key: string): (r: Option<seq<string>>)
    ensures r.Some? ==> r.value != []
    ensures r.Some? <==>
      (key in {"greetings", "farewells"} ||
       (p, key) in {(Friendly, "trades"), (Mysterious, "quests"), (Aggressive, "threats"), (Wise, "advice")})
  {
    match p
    case Friendly =>
      if key == "greetings" then Some(["Hello there!", "Good to see you!", "Welcome, friend!"])
      else if key == "farewells" then Some(["Take care!", "Safe travels!", "Come back soon!"])
      else if key == "trades" then Some(["I have some goods for you!", "Looking to buy or sell?"])
      else None
    case Mysterious =>
      if key == "greetings" then Some(["...", "You've come far.", "Interesting timing."])
      else if key == "farewells" then Some(["We'll meet again.", "The path ahead is unclear.", "Go, if you must."])
      else if key == "quests" then Some(["I have a task, if you dare accept it."])
      else None
    case Aggressive =>
      if key == "greetings" then Some(["What do you want?", "State your business!", "Move along!"])
      else if key == "farewells" then Some(["Get out of here!", "Don't come back!", "Hmph."])
      else if key == "threats" then Some(["Don't test me!", "I'm warning you!"])
      else None
    case Wise =>
      if key == "greetings" then Some(["Ah, a visitor.", "Welcome, seeker.", "I sensed your approach."])
      else if key == "advice" then Some(["Listen carefully...", "The wise know when to wait.", "Patience is key."])
      else if key == "farewells" then Some(["May wisdom guide you.", "Remember my words."])
      else None
  }

  datatype Emotion = Neutral | Happy | Serious | Angry

  datatype Dialog = Dialog(
    npcName: string,
    npcType: string,
    personality: string,
    context: string,
    text: string,
    emotion: Emotion,
    playerChoices: seq<string>)

  const GreetingChoices: seq<string> := ["[Greet back]", "[Ask about quests]", "[Leave]"]
  const TradeChoices: seq<string> := ["[Buy items]", "[Sell items]", "[Browse]", "[Leave]"]
  const QuestChoices: seq<string> := ["[Accept quest]", "[Decline]", "[Ask for more information]"]

  /** `random.choice(options)`: the entry the caller's `pick` selects. */
  function Choice(options: seq<string>, pick: nat): (s: string)
    requires options != []
    ensures s in options
  {
    options[pick % |options|]
  }

  /** Every entry of the list is what `random.choice` returns for some pick. */
  lemma EveryOptionReachable(options: seq<string>, s: string)
    requires s in options
    ensures exists pick: nat :: Choice(options, pick) == s
  {
    var k :| 0 <= k < |options| && options[k] == s;
    assert Choice(options, k) == s;
  }

  /**
   * The list `random.choice` draws the line from (the template with its
   * fallback), or `[]` when the branch taken leaves the text empty.
   */
  function Options(npcType: string, context: string): seq<string> {
    var t := PersonalityOf(npcType);
    if context == "greeting" then Templates(t, "greetings").GetOr(["Hello."])
    else if context == "farewell" then Templates(t, "farewells").GetOr(["Goodbye."])
    else if context == "trade" && npcType == "merchant" then Templates(t, "trades").GetOr(["Welcome to my shop!"])
    else if context == "quest" then Templates(t, "quests").GetOr(["I need your help."])
    else if context == "combat" then Templates(t, "threats").GetOr(["Prepare yourself!"])
    else []
  }

  /** Whether `context` is one the if/elif chain answers for this NPC type. */
  predicate Handled(npcType: string, context: string) {
    || context == "greeting" || context == "farewell" || context == "quest" || context == "combat"
    || (context == "trade" && npcType == "merchant")
  }

  /** The emotion each branch sets; `'neutral'` when no branch is taken. */
  function EmotionFor(npcType: string, context: string): Emotion {
    if context == "greeting" then (if PersonalityOf(npcType) == Friendly then Happy else Neutral)
    else if context == "trade" && npcType == "merchant" then Happy
    else if context == "quest" then Serious
    else if context == "combat" then Angry
    else Neutral
  }

  /** The choices each branch offers; `[]` for farewell, combat and unanswered contexts. */
  function ChoicesFor(npcType: string, context: string): seq<string> {
    if context == "greeting" then GreetingChoices
    else if context == "trade" && npcType == "merchant" then TradeChoices
    else if context == "quest" then QuestChoices
    else []
  }

  /** Every dialog `generate_dialog(npc_type, context, name)` can return, over all random draws. */
  predicate Drawn(d: Dialog, npcType: string, context: string, name: string) {
    && d.npcName == name && d.npcType == npcType && d.context == context
    && d.personality == PersonalityName(PersonalityOf(npcType))
    && (if Options(npcType, context) == [] then d.text == "" else d.text in Options(npcType, context))
    && d.emotion == EmotionFor(npcType, context)
    && d.playerChoices == ChoicesFor(npcType, context)
  }

  /** Exactly the answered contexts have a non-empty list to draw from. */
  lemma OptionsExactlyWhenHandled(npcType: string, context: string)
    ensures Options(npcType, context) != [] <==> Handled(npcType, context)
  {
  }

  /**
   * `generate_dialog`: the dialog starts with the echoed fields, text `''`,
   * emotion `'neutral'` and no choices, and the branch for the context fills it in.
   */
  method GenerateDialog(npcType: string, context: string, name: string, pick: nat) returns (d: Dialog)
    ensures Drawn(d, npcType, context, name)
    ensures Options(npcType, context) != [] ==> d.text == Choice(Options(npcType, context), pick)
  {
    var personality := PersonalityOf(npcType);
    d := Dialog(name, npcType, PersonalityName(personality), context, "", Neutral, []);
    if context == "greeting" {
      d := d.(text := Choice(Templates(personality, "greetings").GetOr(["Hello."]), pick));
      d := d.(emotion := if personality == Friendly then Happy else Neutral);
      d := d.(playerChoices := GreetingChoices);
    } else if context == "farewell" {
      d := d.(text := Choice(Templates(personality, "farewells").GetOr(["Goodbye."]), pick));
      d := d.(emotion := Neutral);
    } else if context == "trade" && npcType == "merchant" {
      d := d.(text := Choice(Templates(personality, "trades").GetOr(["Welcome to my shop!"]), pick));
      d := d.(emotion := Happy);
      d := d.(playerChoices := TradeChoices);
    } else if context == "quest" {
      d := d.(text := Choice(Templates(personality, "quests").GetOr(["I need your help."]), pick));
      d := d.(emotion := Serious);
      d := d.(playerChoices := QuestChoices);
    } else if context == "combat" {
      d := d.(text := Choice(Templates(personality, "threats").GetOr(["Prepare yourself!"]), pick));
      d := d.(emotion := Angry);
    }
  }

  // ---------------------------------------------------------------------------
  // What each context yields
  // ---------------------------------------------------------------------------

  /** A greeting is one of the personality's greetings, happy only when friendly, with three choices. */
  lemma GreetingDialog(d: Dialog, npcType: string, name: string)
    requires Drawn(d, npcType, "greeting", name)
    ensures d.text in Templates(PersonalityOf(npcType), "greetings").value
    ensures d.emotion == Happy <==> PersonalityOf(npcType) == Friendly
    ensures d.emotion == Happy || d.emotion == Neutral
    ensures |d.playerChoices| == 3
  {
  }

  /** A farewell is one of the personality's farewells, neutral, without choices. */
  lemma FarewellDialog(d: Dialog, npcType: string, name: string)
    requires Drawn(d, npcType, "farewell", name)
    ensures d.text in Templates(PersonalityOf(npcType), "farewells").value
    ensures d.emotion == Neutral && d.playerChoices == []
  {
  }

  /** Only a merchant trades; any other NPC answers trade with the empty default dialog. */
  lemma TradeDialog(d: Dialog, npcType: string, name: string)
    requires Drawn(d, npcType, "trade", name)
    ensures npcType == "merchant" ==>
      d.text in ["I have some goods for you!", "Looking to buy or sell?"] && d.emotion == Happy && |d.playerChoices| == 4
    ensures npcType != "merchant" ==> d.text == "" && d.emotion == Neutral && d.playerChoices == []
  {
  }

  /** Only the mysterious personality has quest lines; the rest ask for help. Quests are serious, with three choices. */
  lemma QuestDialog(d: Dialog, npcType: string, name: string)
    requires Drawn(d, npcType, "quest", name)
    ensures PersonalityOf(npcType) == Mysterious ==> d.text == "I have a task, if you dare accept it."
    ensures PersonalityOf(npcType) != Mysterious ==> d.text == "I need your help."
    ensures d.emotion == Serious && |d.playerChoices| == 3
  {
  }

  /** Only the aggressive personality has threats; the rest say "Prepare yourself!". Combat is angry. */
  lemma CombatDialog(d: Dialog, npcType: string, name: string)
    requires Drawn(d, npcType, "combat", name)
    ensures PersonalityOf(npcType) == Aggressive ==> d.text in ["Don't test me!", "I'm warning you!"]
    ensures PersonalityOf(npcType) != Aggressive ==> d.text == "Prepare yourself!"
    ensures d.emotion == Angry && d.playerChoices == []
  {
  }

  /** A context no branch answers keeps the initial dialog: echoed fields, empty text, neutral, no choices. */
  lemma UnhandledDialog(d: Dialog, npcType: string, context: string, name: string)
    requires Drawn(d, npcType, context, name) && !Handled(npcType, context)
    ensures d == Dialog(name, npcType, PersonalityName(PersonalityOf(npcType)), context, "", Neutral, [])
  {
  }

  // ---------------------------------------------------------------------------
  // Conversation trees
  // ---------------------------------------------------------------------------

  datatype Branch = Branch(choiceIndex: nat, dialog: Dialog)
  datatype Tree = Tree(start: Dialog, branches: seq<Branch>)

  const BranchContexts: seq<string> := ["quest", "trade", "farewell"]

  /**
   * `generate_conversation_tree(npc_type, num_branches)`: a greeting, then one
   * branch per `i in range(num_branches)` whose context cycles through quest,
   * trade and farewell. Draw `0` is the greeting's and draw `i + 1` branch `i`'s.
   * Every dialog is spoken by the default name, `"Stranger"`.
   */
  method GenerateConversationTree(npcType: string, numBranches: int, pick: nat -> nat) returns (tree: Tree)
    ensures Drawn(tree.start, npcType, "greeting", "Stranger")
    ensures numBranches >= 0 ==> |tree.branches| == numBranches
    ensures numBranches < 0 ==> tree.branches == []
    ensures forall i | 0 <= i < |tree.branches| ::
      && tree.branches[i].choiceIndex == i
      && Drawn(tree.branches[i].dialog, npcType, BranchContexts[i % 3], "Stranger")
  {
    var start := GenerateDialog(npcType, "greeting", "Stranger", pick(0));
    var branches: seq<Branch> := [];
    var n := if numBranches < 0 then 0 else numBranches;
    for i := 0 to n
      invariant |branches| == i
      invariant forall k | 0 <= k < i ::
        && branches[k].choiceIndex == k
        && Drawn(branches[k].dialog, npcType, BranchContexts[k % 3], "Stranger")
    {
      var dialog := GenerateDialog(npcType, BranchContexts[i % |BranchContexts|], "Stranger", pick(i + 1));
      branches := branches + [Branch(i, dialog)];
    }
    tree := Tree(start, branches);
  }

  /** The default three branches of a tree are a quest, a trade and a farewell, in that order. */
  lemma DefaultTreeContexts(tree: Tree, npcType: string)
    requires |tree.branches| == 3
    requires forall i | 0 <= i < 3 :: Drawn(tree.branches[i].dialog, npcType, BranchContexts[i % 3], "Stranger")
    ensures tree.branches[0].dialog.context == "quest"
    ensures tree.branches[1].dialog.context == "trade"
    ensures tree.branches[2].dialog.context == "farewell"
    ensures tree.branches[2].dialog.playerChoices == []
  {
    assert Drawn(tree.branches[0].dialog, npcType, BranchContexts[0], "Stranger");
    assert Drawn(tree.branches[1].dialog, npcType, BranchContexts[1], "Stranger");
    assert Drawn(tree.branches[2].dialog, npcType, BranchContexts[2], "Stranger");
  }
}
