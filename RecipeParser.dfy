/** The recipe text parser of RecipeGenerator._parse_recipe_response: the
    model's reply is cut into lines, each stripped line is either a heading,
    which moves the current-section cursor, or content, which is added to the
    section the cursor is on. */
module RecipeParser {
  import opened Wrappers
  import opened Text
  import opened PyDict

  /** The value of `current_section`: None or one of five section names. */
  datatype Section =
    | NoSection
    | NameSection
    | IngredientsSection
    | InstructionsSection
    | NutritionSection
    | SuggestionsSection

  /** What the chain of heading tests makes of a stripped line. */
  datatype LineKind =
    | NameHeading
    | IngredientsHeading
    | InstructionsHeading
    | NutritionHeading
    | SuggestionsHeading
    | Content

  /** The heading tests, first match wins. */
  function Classify(line: string): LineKind
  {
    if Contains(line, "Recipe name") || StartsWith(line, "# ") then NameHeading
    else if Contains(line, "Ingredients") || StartsWith(line, "## Ingredients") then IngredientsHeading
    else if Contains(line, "Instructions") || Contains(line, "Steps") || StartsWith(line, "## Instructions") then InstructionsHeading
    else if Contains(line, "Nutritional") || StartsWith(line, "## Nutrition") then NutritionHeading
    else if Contains(line, "Suggestions") || Contains(line, "Modifications") || StartsWith(line, "## Suggestions") then SuggestionsHeading
    else Content
  }

  /** The section a heading moves the cursor to. */
  function HeadingSection(k: LineKind): Section
  {
    match k
    case NameHeading => NameSection
    case IngredientsHeading => IngredientsSection
    case InstructionsHeading => InstructionsSection
    case NutritionHeading => NutritionSection
    case SuggestionsHeading => SuggestionsSection
    case Content => NoSection
  }

  /** The name a name heading carries: "Recipe name:" and "# " removed, then
      stripped. */
  function HeadingName(line: string): string
  {
    Strip(Replace(Replace(line, "Recipe name:", ""), "# ", ""), PyWhitespace)
  }

  /** A name written after "Recipe name: " comes back out of the heading,
      when it has no space at either end and holds neither marker. */
  lemma LabelledNameRoundTrip(n: string)
    requires Trimmed(n, PyWhitespace)
    requires !Contains(n, "Recipe name:") && !Contains(n, "# ")
    ensures HeadingName("Recipe name: " + n) == n
  {
    var tag, spaced := "Recipe name:", " " + n;
    assert "Recipe name: " + n == tag + spaced;
    ReplaceAtStart(tag, spaced, "");
    assert "" + Replace(spaced, tag, "") == Replace(spaced, tag, "");
    ContainsCons(' ', n, tag);
    ReplaceAbsent(spaced, tag, "");
    ContainsCons(' ', n, "# ");
    ReplaceAbsent(spaced, "# ", "");
    StripSpacePrefix(" ", n, PyWhitespace);
  }

  /** A name written after "# " comes back out of the heading, when it has
      no space at either end and holds neither marker. */
  lemma MarkedNameRoundTrip(n: string)
    requires Trimmed(n, PyWhitespace)
    requires !Contains(n, "Recipe name:") && !Contains(n, "# ")
    ensures HeadingName("# " + n) == n
  {
    var tag, marked := "Recipe name:", "# " + n;
    assert marked == ['#'] + (" " + n);
    ContainsCons(' ', n, tag);
    ContainsCons('#', " " + n, tag);
    ReplaceAbsent(marked, tag, "");
    ReplaceAtStart("# ", n, "");
    assert "" + Replace(n, "# ", "") == Replace(n, "# ", "");
    ReplaceAbsent(n, "# ", "");
    StripSpacePrefix([], n, PyWhitespace);
    assert [] + n == n;
  }

  /** The keys the nutrition classifier can choose without counting. */
  predicate IsFixedKey(k: string)
  {
    k == "calories" || k == "protein" || k == "carbs" || k == "fat"
  }

  /** f'other_{n}' */
  function OtherKey(n: nat): string
  {
    "other_" + NatToString(n)
  }

  /** Where a nutrition line goes: a fixed key, or the next other_N. */
  datatype Slot = Fixed(key: string) | Unclassified

  /** Case-insensitive keyword tests, first match wins. */
  function NutritionSlot(line: string): (s: Slot)
    ensures s.Fixed? ==> IsFixedKey(s.key)
  {
    var low := Lower(line);
    if Contains(low, "calories") then Fixed("calories")
    else if Contains(low, "protein") then Fixed("protein")
    else if Contains(low, "carbs") || Contains(low, "carbohydrates") then Fixed("carbs")
    else if Contains(low, "fat") then Fixed("fat")
    else Unclassified
  }

  /** The nutrition keyword tests on the lowered line, first match wins:
      calories before protein, protein before carbs or carbohydrates, and
      those before fat; a line matching none is unclassified. */
  lemma NutritionPrecedence(line: string)
    ensures var low := Lower(line);
            var cal, pro := Contains(low, "calories"), Contains(low, "protein");
            var carb := Contains(low, "carbs") || Contains(low, "carbohydrates");
            var fat := Contains(low, "fat");
            && (NutritionSlot(line) == Fixed("calories") <==> cal)
            && (NutritionSlot(line) == Fixed("protein") <==> !cal && pro)
            && (NutritionSlot(line) == Fixed("carbs") <==> !cal && !pro && carb)
            && (NutritionSlot(line) == Fixed("fat") <==> !cal && !pro && !carb && fat)
            && (NutritionSlot(line) == Unclassified <==> !cal && !pro && !carb && !fat)
  {
  }

  /** The classification ignores letter case: a line and its lowered form,
      or any two lines equal once lowered, go to the same slot. */
  lemma NutritionCaseInsensitive(line: string)
    ensures NutritionSlot(Lower(line)) == NutritionSlot(line)
    ensures forall other :: Lower(other) == Lower(line) ==> NutritionSlot(other) == NutritionSlot(line)
  {
    LowerIdempotent(line);
  }

  /** One nutrition line stored into the nutrition dict. */
  function AddNutrition(d: Dict, line: string): Dict
  {
    match NutritionSlot(line)
    case Fixed(k) => d.Put(k, line)
    case Unclassified => d.Put(OtherKey(d.Size()), line)
  }

  /** The recipe dict: exactly the five keys name, ingredients,
      instructions, nutrition and suggestions. */
  datatype Recipe = Recipe(
    name: string,
    ingredients: seq<string>,
    instructions: seq<string>,
    nutrition: Dict,
    suggestions: seq<string>)

  const EmptyRecipe := Recipe("", [], [], Empty, [])

  /** The loop's state: the recipe so far and the cursor. */
  datatype ParseState = ParseState(recipe: Recipe, section: Section)

  const Start := ParseState(EmptyRecipe, NoSection)

  /** A content line stored under the current section; under no section or
      under the name it is dropped. */
  function Store(r: Recipe, section: Section, line: string): Recipe
  {
    match section
    case IngredientsSection => r.(ingredients := r.ingredients + [line])
    case InstructionsSection => r.(instructions := r.instructions + [line])
    case NutritionSection => r.(nutrition := AddNutrition(r.nutrition, line))
    case SuggestionsSection => r.(suggestions := r.suggestions + [line])
    case _ => r
  }

  /** One pass of the loop body on a raw line. */
  function Step(st: ParseState, raw: string): ParseState
  {
    var line := Strip(raw, PyWhitespace);
    if line == [] then st
    else
      match Classify(line)
      case NameHeading => ParseState(st.recipe.(name := HeadingName(line)), NameSection)
      case Content => ParseState(Store(st.recipe, st.section, line), st.section)
      case k => st.(section := HeadingSection(k))
  }

  /** What one line does to the lists and the nutrition dict: content is
      added under the current section, nothing else changes them. */
  lemma StepStores(st: ParseState, raw: string)
    ensures var line := Strip(raw, PyWhitespace);
            var next := Step(st, raw).recipe;
            var content := line != [] && Classify(line) == Content;
            && next.ingredients == st.recipe.ingredients + (if content && st.section == IngredientsSection then [line] else [])
            && next.instructions == st.recipe.instructions + (if content && st.section == InstructionsSection then [line] else [])
            && next.suggestions == st.recipe.suggestions + (if content && st.section == SuggestionsSection then [line] else [])
            && next.nutrition == (if content && st.section == NutritionSection then AddNutrition(st.recipe.nutrition, line) else st.recipe.nutrition)
  {
  }

  /** What one line does to the name and the cursor: only headings move the
      cursor, only name headings set the name. */
  lemma StepMoves(st: ParseState, raw: string)
    ensures var line := Strip(raw, PyWhitespace);
            var next := Step(st, raw);
            && next.recipe.name == (if line != [] && Classify(line) == NameHeading then HeadingName(line) else st.recipe.name)
            && next.section == (if line != [] && Classify(line) != Content then HeadingSection(Classify(line)) else st.section)
  {
  }

  /** The loop run over the given lines, one Step per line in order. */
  function Run(lines: seq<string>): ParseState
  {
    if lines == [] then Start
    else Step(Run(lines[..|lines| - 1]), lines[|lines| - 1])
  }

  /** content.strip().split('\n') */
  function Lines(content: string): seq<string>
  {
    Split(Strip(content, PyWhitespace), '\n')
  }

  /** What _parse_recipe_response returns for the given content. */
  function Parse(content: string): Recipe
  {
    Run(Lines(content)).recipe
  }

  /** The parser as the source runs it: one loop over the lines, moving the
      cursor on headings and storing content lines into the recipe. */
  method ParseRecipeResponse(content: string) returns (recipe: Recipe)
    ensures recipe == Parse(content)
    ensures WellFormed(recipe)
  {
    var lines := Split(Strip(content, PyWhitespace), '\n');
    recipe := EmptyRecipe;
    var section := NoSection;
    for i := 0 to |lines|
      invariant Run(lines[..i]) == ParseState(recipe, section)
    {
      RunSnoc(lines, i);
      recipe, section := ParseLine(recipe, section, lines[i]);
    }
    WholePrefix(lines);
    RunWellFormed(lines);
  }

  /** One pass of the loop body: strip the line, skip it if blank, move the
      cursor on a heading (taking the name from a name heading), otherwise
      store it under the current section. */
  method ParseLine(recipe: Recipe, section: Section, raw: string)
      returns (recipe': Recipe, section': Section)
    ensures ParseState(recipe', section') == Step(ParseState(recipe, section), raw)
  {
    recipe', section' := recipe, section;
    var line := Strip(raw, PyWhitespace);
    if line == [] {
      return;
    }
    var kind := DetectHeading(line);
    match kind
    case NameHeading =>
      recipe' := recipe.(name := HeadingName(line));
      section' := NameSection;
    case IngredientsHeading =>
      section' := IngredientsSection;
    case InstructionsHeading =>
      section' := InstructionsSection;
    case NutritionHeading =>
      section' := NutritionSection;
    case SuggestionsHeading =>
      section' := SuggestionsSection;
    case Content =>
      recipe' := StoreContent(recipe, section, line);
  }

  /** The loop's chain of heading tests, in the source's order; Content
      when none matches. */
  method DetectHeading(line: string) returns (kind: LineKind)
    ensures kind == Classify(line)
  {
    if Contains(line, "Recipe name") || StartsWith(line, "# ") {
      kind := NameHeading;
    } else if Contains(line, "Ingredients") || StartsWith(line, "## Ingredients") {
      kind := IngredientsHeading;
    } else if Contains(line, "Instructions") || Contains(line, "Steps") || StartsWith(line, "## Instructions") {
      kind := InstructionsHeading;
    } else if Contains(line, "Nutritional") || StartsWith(line, "## Nutrition") {
      kind := NutritionHeading;
    } else if Contains(line, "Suggestions") || Contains(line, "Modifications") || StartsWith(line, "## Suggestions") {
      kind := SuggestionsHeading;
    } else {
      kind := Content;
    }
  }

  /** The content branch of the loop: the line is appended to the current
      section's list, or classified into the nutrition dict; under no
      section or under the name it is dropped. */
  method StoreContent(recipe: Recipe, section: Section, line: string) returns (next: Recipe)
    ensures next == Store(recipe, section, line)
  {
    next := recipe;
    if section == IngredientsSection {
      next := next.(ingredients := next.ingredients + [line]);
    } else if section == InstructionsSection {
      next := next.(instructions := next.instructions + [line]);
    } else if section == NutritionSection {
      var low := Lower(line);
      ghost var slot := NutritionSlot(line);
      if Contains(low, "calories") {
        assert slot == Fixed("calories");
        next := next.(nutrition := next.nutrition.Put("calories", line));
      } else if Contains(low, "protein") {
        assert slot == Fixed("protein");
        next := next.(nutrition := next.nutrition.Put("protein", line));
      } else if Contains(low, "carbs") || Contains(low, "carbohydrates") {
        assert slot == Fixed("carbs");
        next := next.(nutrition := next.nutrition.Put("carbs", line));
      } else if Contains(low, "fat") {
        assert slot == Fixed("fat");
        next := next.(nutrition := next.nutrition.Put("fat", line));
      } else {
        assert slot == Unclassified;
        next := next.(nutrition := next.nutrition.Put(OtherKey(next.nutrition.Size()), line));
      }
    } else if section == SuggestionsSection {
      next := next.(suggestions := next.suggestions + [line]);
    }
  }

  /** Running one more line is one more step. */
  lemma RunSnoc(lines: seq<string>, i: nat)
    requires i < |lines|
    ensures Run(lines[..i + 1]) == Step(Run(lines[..i]), lines[i])
  {
    assert lines[..i + 1][..i] == lines[..i];
  }

  lemma WholePrefix(lines: seq<string>)
    ensures lines[..|lines|] == lines
  {
  }

  // ---------------------------------------------------------------------
  // Heading precedence

  /** The `startswith("## ...")` alternatives for ingredients, instructions
      and suggestions never decide anything: a line starting with
      "## Ingredients" already contains "Ingredients", and so on. Only
      "## Nutrition" adds lines ("## Nutrition Facts" has no "Nutritional"). */
  lemma HeadingPrecedence(line: string)
    ensures var isName := Contains(line, "Recipe name") || StartsWith(line, "# ");
            var isIngredients := Contains(line, "Ingredients");
            var isInstructions := Contains(line, "Instructions") || Contains(line, "Steps");
            var isNutrition := Contains(line, "Nutritional") || StartsWith(line, "## Nutrition");
            var isSuggestions := Contains(line, "Suggestions") || Contains(line, "Modifications");
            && (Classify(line) == NameHeading <==> isName)
            && (Classify(line) == IngredientsHeading <==> !isName && isIngredients)
            && (Classify(line) == InstructionsHeading <==> !isName && !isIngredients && isInstructions)
            && (Classify(line) == NutritionHeading <==>
                  !isName && !isIngredients && !isInstructions && isNutrition)
            && (Classify(line) == SuggestionsHeading <==>
                  !isName && !isIngredients && !isInstructions && !isNutrition && isSuggestions)
  {
    PrefixAlternativesRedundant(line);
  }

  /** A line starting with "## Ingredients", "## Instructions" or
      "## Suggestions" contains the keyword checked just before. */
  lemma PrefixAlternativesRedundant(line: string)
    ensures StartsWith(line, "## Ingredients") ==> Contains(line, "Ingredients")
    ensures StartsWith(line, "## Instructions") ==> Contains(line, "Instructions")
    ensures StartsWith(line, "## Suggestions") ==> Contains(line, "Suggestions")
  {
    assert "## Ingredients" == "## " + "Ingredients";
    assert "## Instructions" == "## " + "Instructions";
    assert "## Suggestions" == "## " + "Suggestions";
    if StartsWith(line, "## Ingredients") {
      StartsWithContainsTail(line, "## ", "Ingredients");
    }
    if StartsWith(line, "## Instructions") {
      StartsWithContainsTail(line, "## ", "Instructions");
    }
    if StartsWith(line, "## Suggestions") {
      StartsWithContainsTail(line, "## ", "Suggestions");
    }
  }

  // ---------------------------------------------------------------------
  // What every stored value looks like

  /** A stripped, non-blank line that no heading test matches. */
  predicate ContentLine(s: string)
  {
    s != [] && Trimmed(s, PyWhitespace) && Classify(s) == Content
  }

  /** Every other_N key sits at position N of the dict. */
  ghost predicate OtherKeysIndexed(d: Dict)
  {
    forall i :: 0 <= i < |d.keys| ==> IsFixedKey(d.keys[i]) || d.keys[i] == OtherKey(i)
  }

  ghost predicate WellFormedNutrition(d: Dict)
  {
    d.Valid() && OtherKeysIndexed(d) &&
    forall k :: k in d.values ==> ContentLine(d.values[k])
  }

  /** No list holds a blank line, an unstripped line or a heading. */
  ghost predicate WellFormed(r: Recipe)
  {
    (forall i :: 0 <= i < |r.ingredients| ==> ContentLine(r.ingredients[i])) &&
    (forall i :: 0 <= i < |r.instructions| ==> ContentLine(r.instructions[i])) &&
    (forall i :: 0 <= i < |r.suggestions| ==> ContentLine(r.suggestions[i])) &&
    WellFormedNutrition(r.nutrition)
  }

  /** The next other_N key is new: it is none of the fixed keys, and it
      differs from every earlier other_i because i < N. */
  lemma OtherKeyFresh(d: Dict)
    requires d.Valid() && OtherKeysIndexed(d)
    ensures OtherKey(d.Size()) !in d.values
  {
    var n := d.Size();
    if OtherKey(n) in d.values {
      var i :| 0 <= i < |d.keys| && d.keys[i] == OtherKey(n);
      assert OtherKey(n)[0] == 'o';
      if d.keys[i] == OtherKey(i) {
        assert OtherKey(i)[6..] == NatToString(i);
        assert OtherKey(n)[6..] == NatToString(n);
        NatToStringInjective(i, n);
      }
    }
  }

  /** An unclassified nutrition line never overwrites: the dict grows by
      exactly the entry other_N, N being its old size, and every old entry
      keeps its value. */
  lemma UnclassifiedAppends(d: Dict, line: string)
    requires d.Valid() && OtherKeysIndexed(d)
    requires NutritionSlot(line) == Unclassified
    ensures AddNutrition(d, line).keys == d.keys + [OtherKey(d.Size())]
    ensures AddNutrition(d, line).values == d.values[OtherKey(d.Size()) := line]
    ensures AddNutrition(d, line).Size() == d.Size() + 1
  {
    OtherKeyFresh(d);
  }

  lemma AddNutritionWellFormed(d: Dict, line: string)
    requires WellFormedNutrition(d)
    requires ContentLine(line)
    ensures WellFormedNutrition(AddNutrition(d, line))
  {
    AddNutritionValues(d, line);
    AddNutritionIndexed(d, line);
  }

  /** The stored values stay content lines, and the dict stays valid. */
  lemma AddNutritionValues(d: Dict, line: string)
    requires d.Valid()
    requires forall k :: k in d.values ==> ContentLine(d.values[k])
    requires ContentLine(line)
    ensures AddNutrition(d, line).Valid()
    ensures forall k :: k in AddNutrition(d, line).values ==> ContentLine(AddNutrition(d, line).values[k])
  {
    var r := AddNutrition(d, line);
    var key := match NutritionSlot(line)
               case Fixed(k) => k
               case Unclassified => OtherKey(d.Size());
    assert r == d.Put(key, line);
    forall k | k in r.values
      ensures ContentLine(r.values[k])
    {
      if k != key {
        assert k in d.values && r.values[k] == d.values[k];
      }
    }
  }

  /** Every key stays a fixed key or other_i at its own position i. */
  lemma AddNutritionIndexed(d: Dict, line: string)
    requires d.Valid() && OtherKeysIndexed(d)
    ensures OtherKeysIndexed(AddNutrition(d, line))
  {
    var r := AddNutrition(d, line);
    var key := match NutritionSlot(line)
               case Fixed(k) => k
               case Unclassified => OtherKey(d.Size());
    assert r == d.Put(key, line);
    if NutritionSlot(line) == Unclassified {
      OtherKeyFresh(d);
    }
    assert IsFixedKey(key) || (key == OtherKey(|d.keys|) && key !in d.values);
    forall i | 0 <= i < |r.keys|
      ensures IsFixedKey(r.keys[i]) || r.keys[i] == OtherKey(i)
    {
      if i < |d.keys| {
        assert r.keys[i] == d.keys[i];
      }
    }
  }

  /** One pass of the loop keeps the recipe well formed. */
  lemma StepWellFormed(st: ParseState, raw: string)
    requires WellFormed(st.recipe)
    ensures WellFormed(Step(st, raw).recipe)
  {
    StepStores(st, raw);
    StripSpec(raw, PyWhitespace);
    var line := Strip(raw, PyWhitespace);
    if line != [] && Classify(line) == Content && st.section == NutritionSection {
      AddNutritionWellFormed(st.recipe.nutrition, line);
    }
  }

  lemma {:induction false} RunWellFormed(lines: seq<string>)
    ensures WellFormed(Run(lines).recipe)
  {
    if lines != [] {
      RunWellFormed(lines[..|lines| - 1]);
      StepWellFormed(Run(lines[..|lines| - 1]), lines[|lines| - 1]);
    }
  }

  // ---------------------------------------------------------------------
  // Blank lines

  /** A line that is not empty once stripped. */
  predicate NonBlank(raw: string)
  {
    Strip(raw, PyWhitespace) != []
  }

  /** Appending a non-blank line to non-blank lines keeps them non-blank. */
  lemma NonBlankSnoc(lines: seq<string>, last: string)
    requires forall i :: 0 <= i < |lines| ==> NonBlank(lines[i])
    requires NonBlank(last)
    ensures forall i :: 0 <= i < |lines + [last]| ==> NonBlank((lines + [last])[i])
  {
    forall i | 0 <= i < |lines + [last]|
      ensures NonBlank((lines + [last])[i])
    {
      if i < |lines| {
        assert (lines + [last])[i] == lines[i];
      }
    }
  }

  /** The lines that are not blank, in order. */
  function NonBlankLines(lines: seq<string>): (r: seq<string>)
    ensures |r| <= |lines|
    ensures forall i :: 0 <= i < |r| ==> NonBlank(r[i])
  {
    if lines == [] then []
    else
      var init := NonBlankLines(lines[..|lines| - 1]);
      var last := lines[|lines| - 1];
      if NonBlank(last) then NonBlankSnoc(init, last); init + [last] else init
  }

  /** Blank lines change nothing: parsing only the non-blank lines gives
      the same recipe and leaves the cursor in the same place. */
  lemma {:induction false} BlankLinesIgnored(lines: seq<string>)
    ensures Run(NonBlankLines(lines)) == Run(lines)
  {
    if lines != [] {
      var init := lines[..|lines| - 1];
      var last := lines[|lines| - 1];
      BlankLinesIgnored(init);
      if NonBlank(last) {
        var nb := NonBlankLines(init) + [last];
        assert nb[..|nb| - 1] == NonBlankLines(init);
      }
    }
  }

  // ---------------------------------------------------------------------
  // The name

  /** The name carried by the last name heading, if there is one. */
  function LastName(lines: seq<string>): Option<string>
  {
    if lines == [] then None
    else
      var line := Strip(lines[|lines| - 1], PyWhitespace);
      if line != [] && Classify(line) == NameHeading then Some(HeadingName(line))
      else LastName(lines[..|lines| - 1])
  }

  /** The name is taken from the last name heading (a later one overwrites
      an earlier one) and is empty when there is none. */
  lemma {:induction false} NameFromLastHeading(lines: seq<string>)
    ensures Run(lines).recipe.name == match LastName(lines) case Some(n) => n case None => ""
  {
    if lines != [] {
      NameFromLastHeading(lines[..|lines| - 1]);
      StepMoves(Run(lines[..|lines| - 1]), lines[|lines| - 1]);
    }
  }

  // ---------------------------------------------------------------------
  // The cursor and the lists

  /** The section named by the last heading line, NoSection if none. */
  function LastHeadingSection(lines: seq<string>): Section
  {
    if lines == [] then NoSection
    else
      var line := Strip(lines[|lines| - 1], PyWhitespace);
      if line != [] && Classify(line) != Content then HeadingSection(Classify(line))
      else LastHeadingSection(lines[..|lines| - 1])
  }

  /** The cursor is always on the section of the last heading seen. */
  lemma {:induction false} CursorIsLastHeading(lines: seq<string>)
    ensures Run(lines).section == LastHeadingSection(lines)
  {
    if lines != [] {
      CursorIsLastHeading(lines[..|lines| - 1]);
      StepMoves(Run(lines[..|lines| - 1]), lines[|lines| - 1]);
    }
  }

  /** The stripped content lines whose last preceding heading names
      `section`, in their original order. */
  function ContentUnder(lines: seq<string>, section: Section): seq<string>
  {
    if lines == [] then []
    else
      var init := lines[..|lines| - 1];
      var line := Strip(lines[|lines| - 1], PyWhitespace);
      ContentUnder(init, section) +
        (if line != [] && Classify(line) == Content && LastHeadingSection(init) == section
         then [line] else [])
  }

  /** The nutrition dict built from its lines in order. */
  function NutritionOf(lines: seq<string>): Dict
  {
    if lines == [] then Empty
    else AddNutrition(NutritionOf(lines[..|lines| - 1]), lines[|lines| - 1])
  }

  /** Each list is exactly the in-order sequence of stripped content lines
      met while its section was current, and the nutrition dict is built from
      the nutrition section's lines; content before any heading or under the
      name heading is in none of them. */
  lemma {:induction false} ListsAreSectionContent(lines: seq<string>)
    ensures Run(lines).recipe.ingredients == ContentUnder(lines, IngredientsSection)
    ensures Run(lines).recipe.instructions == ContentUnder(lines, InstructionsSection)
    ensures Run(lines).recipe.suggestions == ContentUnder(lines, SuggestionsSection)
    ensures Run(lines).recipe.nutrition == NutritionOf(ContentUnder(lines, NutritionSection))
  {
    if lines != [] {
      var init := lines[..|lines| - 1];
      ListsAreSectionContent(init);
      CursorIsLastHeading(init);
      StepStores(Run(init), lines[|lines| - 1]);
      var nut := ContentUnder(lines, NutritionSection);
      if nut != ContentUnder(init, NutritionSection) {
        assert nut[..|nut| - 1] == ContentUnder(init, NutritionSection);
      }
    }
  }

  /** Number of non-blank lines no heading test matches. */
  function ContentCount(lines: seq<string>): nat
  {
    if lines == [] then 0
    else
      var line := Strip(lines[|lines| - 1], PyWhitespace);
      ContentCount(lines[..|lines| - 1]) + (if line != [] && Classify(line) == Content then 1 else 0)
  }

  /** Every content line falls under exactly one cursor position, so the
      three lists and the nutrition lines together hold at most every content
      line once, and content lines are at most the non-blank lines. */
  lemma {:induction false} ContentPartition(lines: seq<string>)
    ensures ContentCount(lines) ==
      |ContentUnder(lines, NoSection)| + |ContentUnder(lines, NameSection)| +
      |ContentUnder(lines, IngredientsSection)| + |ContentUnder(lines, InstructionsSection)| +
      |ContentUnder(lines, NutritionSection)| + |ContentUnder(lines, SuggestionsSection)|
    ensures ContentCount(lines) <= |NonBlankLines(lines)|
  {
    if lines != [] {
      ContentPartition(lines[..|lines| - 1]);
    }
  }

  /** The three lists together are no longer than the non-blank lines. */
  lemma ListsBounded(lines: seq<string>)
    ensures |Run(lines).recipe.ingredients| + |Run(lines).recipe.instructions| +
            |Run(lines).recipe.suggestions| <= |NonBlankLines(lines)|
  {
    ListsAreSectionContent(lines);
    ContentPartition(lines);
  }

  // ---------------------------------------------------------------------
  // The nutrition dict

  /** The last line whose slot is the fixed key k. */
  function LastMatch(lines: seq<string>, k: string): Option<string>
  {
    if lines == [] then None
    else if NutritionSlot(lines[|lines| - 1]) == Fixed(k) then Some(lines[|lines| - 1])
    else LastMatch(lines[..|lines| - 1], k)
  }

  /** A fixed key is present exactly when some nutrition line matched it,
      and it holds the last such line. */
  lemma {:induction false} FixedKeyHoldsLastMatch(lines: seq<string>, k: string)
    requires IsFixedKey(k)
    ensures k in NutritionOf(lines).values <==> LastMatch(lines, k).Some?
    ensures k in NutritionOf(lines).values ==> NutritionOf(lines).values[k] == LastMatch(lines, k).value
  {
    if lines != [] {
      var d := NutritionOf(lines[..|lines| - 1]);
      FixedKeyHoldsLastMatch(lines[..|lines| - 1], k);
      var slot := NutritionSlot(lines[|lines| - 1]);
      if slot == Unclassified {
        assert OtherKey(d.Size())[0] == 'o';
      }
    }
  }

  // ---------------------------------------------------------------------
  // Empty content

  /** Content that is empty or only whitespace parses to the empty recipe:
      empty name and empty collections. */
  lemma WhitespaceContentIsEmpty(content: string)
    requires forall j :: 0 <= j < |content| ==> PyWhitespace(content[j])
    ensures Parse(content) == EmptyRecipe
  {
    StripAllSpace(content, PyWhitespace);
    var lines := Lines(content);
    assert lines == [[]];
    assert lines[..0] == [];
    assert Strip([], PyWhitespace) == [];
    assert Run(lines) == Step(Start, []) == Start;
  }
}
