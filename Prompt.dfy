/** The request sent to the language model: the ingredients, the optional
    dietary preference and goal, and the five items the answer must give. */
module Prompt {
  import opened Wrappers
  import opened Text
  import RecipeForm

  /** Python truthiness of an optional string argument: None and "" are
      false, any other string is true. */
  predicate Given(v: Option<string>)
  {
    v.Some? && v.value != []
  }

  /** The words before the ingredient list. */
  const Lead := "Create a recipe using these ingredients: "

  /** The words before a truthy preference. */
  const ShouldBe := " The recipe should be "

  /** The words before a truthy goal. */
  const ShouldSupport := " The recipe should support "

  /** The lines of the fixed request that closes every prompt. */
  const Intro := " Please provide the following information:\n"
  const Item1 := "1. Recipe name\n"
  const Item2 := "2. Ingredients with quantities\n"
  const Item3 := "3. Step-by-step cooking instructions\n"
  const Item4 := "4. Nutritional information (calories, protein, carbs, fat)\n"
  const Item5 := "5. Suggestions for modifications to better meet dietary preferences or goals\n"

  /** The whole request. */
  const Request := Intro + (Item1 + (Item2 + (Item3 + (Item4 + Item5))))

  /** The first sentence: the ingredients joined with ", ". */
  function Opening(ingredients: seq<string>): string
  {
    Lead + Join(ingredients, ", ") + "."
  }

  /** The preference sentence, present only for a truthy preference. */
  function PreferenceClause(preference: Option<string>): string
  {
    if Given(preference) then ShouldBe + preference.value + "." else ""
  }

  /** The goal sentence, present only for a truthy goal. */
  function GoalClause(goal: Option<string>): string
  {
    if Given(goal) then ShouldSupport + goal.value + "." else ""
  }

  /** The prompt: opening, preference, goal and request, in that order. */
  function PromptText(ingredients: seq<string>, preference: Option<string>, goal: Option<string>): string
  {
    Opening(ingredients) + PreferenceClause(preference) + GoalClause(goal) + Request
  }

  /** _construct_prompt: the opening, then each optional sentence appended
      when its argument is truthy, then the request line by line. */
  method ConstructPrompt(ingredients: seq<string>, dietaryPreference: Option<string>, goal: Option<string>)
      returns (prompt: string)
    ensures prompt == PromptText(ingredients, dietaryPreference, goal)
  {
    var ingredientsStr := Join(ingredients, ", ");
    prompt := Lead + ingredientsStr + ".";
    ghost var opening := prompt;
    if dietaryPreference.Some? && dietaryPreference.value != [] {
      prompt := prompt + (ShouldBe + dietaryPreference.value + ".");
    } else {
      assert prompt == opening + PreferenceClause(dietaryPreference);
    }
    ghost var preferred := prompt;
    if goal.Some? && goal.value != [] {
      prompt := prompt + (ShouldSupport + goal.value + ".");
    } else {
      assert prompt == preferred + GoalClause(goal);
    }
    ghost var asked := prompt;
    prompt := prompt + Intro;
    prompt := prompt + Item1;
    prompt := prompt + Item2;
    prompt := prompt + Item3;
    prompt := prompt + Item4;
    prompt := prompt + Item5;
    RequestAppended(asked);
  }

  /** Appending the request line by line appends Request. */
  lemma RequestAppended(p: string)
    ensures p + Intro + Item1 + Item2 + Item3 + Item4 + Item5 == p + Request
  {
    ConcatAssoc(p + Intro + Item1 + Item2 + Item3, Item4, Item5);
    ConcatAssoc(p + Intro + Item1 + Item2, Item3, Item4 + Item5);
    ConcatAssoc(p + Intro + Item1, Item2, Item3 + (Item4 + Item5));
    ConcatAssoc(p + Intro, Item1, Item2 + (Item3 + (Item4 + Item5)));
    ConcatAssoc(p, Intro, Item1 + (Item2 + (Item3 + (Item4 + Item5))));
  }

  /** Every prompt starts with the opening sentence and ends with the
      request; between them there is nothing unless a preference or goal
      is given, and the preference sentence comes first. */
  lemma PromptLayout(ingredients: seq<string>, preference: Option<string>, goal: Option<string>)
    ensures var p := PromptText(ingredients, preference, goal);
            && |p| >= |Opening(ingredients)| + |Request|
            && p[..|Opening(ingredients)|] == Opening(ingredients)
            && p[|p| - |Request|..] == Request
            && (!Given(preference) && !Given(goal) <==> |p| == |Opening(ingredients)| + |Request|)
            && (Given(preference) ==>
                  p[|Opening(ingredients)|..|Opening(ingredients)| + |PreferenceClause(preference)|]
                  == ShouldBe + preference.value + ".")
  {
    var o, c, g := Opening(ingredients), PreferenceClause(preference), GoalClause(goal);
    var p := PromptText(ingredients, preference, goal);
    ConcatAssoc(o + c, g, Request);
    ConcatAssoc(o, c, g + Request);
    ConcatParts(o, c + (g + Request));
    ConcatParts(o + c + g, Request);
    ConcatMiddle(o, c, g + Request);
  }

  /** A missing argument and an empty one give the same prompt. */
  lemma FalsyArgumentsIgnored(ingredients: seq<string>, preference: Option<string>, goal: Option<string>)
    ensures !Given(preference) ==>
              PromptText(ingredients, preference, goal) == PromptText(ingredients, None, goal)
    ensures !Given(goal) ==>
              PromptText(ingredients, preference, goal) == PromptText(ingredients, preference, None)
    ensures PromptText(ingredients, Some(""), Some("")) == PromptText(ingredients, None, None)
  {
  }

  /** The prompt is the lead, the joined list, and the rest. */
  lemma PromptSplitsAtList(ingredients: seq<string>, preference: Option<string>, goal: Option<string>)
    ensures PromptText(ingredients, preference, goal) ==
            Lead + Join(ingredients, ", ") + ("." + PreferenceClause(preference) + GoalClause(goal) + Request)
  {
    var list, c, g := Join(ingredients, ", "), PreferenceClause(preference), GoalClause(goal);
    ConcatAssoc(Lead + list + "." + c, g, Request);
    ConcatAssoc(Lead + list + ".", c, g + Request);
    ConcatAssoc(Lead + list, ".", c + (g + Request));
    ConcatAssoc(".", c, g);
    ConcatAssoc("." + c, g, Request);
    ConcatAssoc(".", c, g + Request);
  }

  /** The ingredient list in the prompt, read back the way the page splits
      its field, gives the page's items again when they are trimmed and free
      of commas. */
  lemma PromptIngredientsReadBack(ingredients: seq<string>, preference: Option<string>, goal: Option<string>)
    requires |ingredients| > 0
    requires forall k :: 0 <= k < |ingredients| ==> Trimmed(ingredients[k], JsWhitespace)
    requires forall k :: 0 <= k < |ingredients| ==> ',' !in ingredients[k]
    ensures var p := PromptText(ingredients, preference, goal);
            var list := Join(ingredients, ", ");
            && |Lead| + |list| <= |p|
            && RecipeForm.SplitIngredients(p[|Lead|..|Lead| + |list|]) == ingredients
  {
    var list := Join(ingredients, ", ");
    var rest := "." + PreferenceClause(preference) + GoalClause(goal) + Request;
    PromptSplitsAtList(ingredients, preference, goal);
    ConcatMiddle(Lead, list, rest);
    RecipeForm.SplitIngredientsRoundTrip(ingredients);
  }
}
