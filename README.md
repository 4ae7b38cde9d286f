# Recipe generator core, modelled in Dafny

The application asks a language model for a recipe built from a list of
ingredients. An optional dietary preference and an optional goal shape the
request. The model's free-text answer is parsed into a recipe dict with five
keys: name, ingredients, instructions, nutrition and suggestions. The web
page can read the recipe aloud. It turns the ingredients and instructions
into one narration text, receives a list of audio segment URLs for it, and
plays the segments one after another.

This project models those parts:

- `Prompt.dfy` models `RecipeGenerator._construct_prompt`. The prompt is
  built by successive appends; `Prompt.PromptText` is the reference
  definition the method is proved against.
- `RecipeParser.dfy` models `RecipeGenerator._parse_recipe_response`, the
  line-by-line parser.
  - The method `ParseRecipeResponse` keeps the source's loop.
  - `Step` and `Run` are the loop body and the loop as functions.
    Per-line facts are stated on `Step`; facts about a whole reply are
    stated on `Run`. The heading chain (`Classify`) and the nutrition
    classifier (`NutritionSlot`, `AddNutrition`, `NutritionOf`) have lemmas
    of their own.
  - The nutrition dict is a `PyDict.Dict`, which keeps Python's
    insertion order.
- `RecipeForm.dfy` models the page's split of the ingredients field at the
  commas, with each item trimmed.
- `Narration.dfy` models the two `forEach` loops of `generateAudio` that
  build the narration text.
- `Playback.dfy` models the audio state kept on `window` and on the page
  elements, as the class `AudioPlayback`. It covers the response handler,
  the error handler, `playNextAudioSegment` and the `onended` handler.
- `Text.dfy` holds the string operations the sources rely on:
  - Python's and JavaScript's whitespace sets, `strip` and `trim`;
  - `in`, `startswith`, `lower` and `replace`;
  - `split` and `join`;
  - decimal rendering of numbers.
- `Wrappers.dfy` holds `Option`.

## Model

| member | source | states |
|---|---|---|
| RecipeParser.ParseRecipeResponse | app/recipe_generator.py:129-191 | The loop over the stripped, newline-split content returns `Parse(content)`, and the result is well formed: every list entry and nutrition value is a non-blank, stripped line that is not a heading, and the nutrition keys are fixed keys or `other_i` at position i. |
| RecipeParser.ParseLine | app/recipe_generator.py:153-189 | One loop pass is exactly `Step`. A blank line is skipped. A name heading sets the name and the name cursor, other headings move the cursor, and content is stored under the current section. |
| RecipeParser.DetectHeading | app/recipe_generator.py:159-169 | The elif chain of heading tests yields `Classify(line)`, first match wins. |
| RecipeParser.StoreContent | app/recipe_generator.py:170-189 | The content branch yields `Store`. It appends to the current list or classifies into the nutrition dict, and drops the line under no section or the name section. |
| RecipeParser.StepStores | app/recipe_generator.py:153-189 | Per line, each list grows by that stripped line exactly when it is content and its section is current; the nutrition dict changes only then, and in no other case. |
| RecipeParser.StepMoves | app/recipe_generator.py:153-169 | Per line, only a name heading changes the name (to its heading text). Only a heading moves the cursor, and it moves to that heading's section. |
| RecipeParser.HeadingPrecedence | app/recipe_generator.py:159-169 | A line is classified as each heading exactly when its own test holds and no earlier test holds (both directions, for all five headings). |
| RecipeParser.PrefixAlternativesRedundant | app/recipe_generator.py:163-169 | A line starting with "## Ingredients", "## Instructions" or "## Suggestions" already passes the keyword test just before it. Those `startswith` alternatives never decide anything. |
| RecipeParser.NutritionSlot | app/recipe_generator.py:176-187 | A fixed slot is always one of the four fixed keys: calories, protein, carbs or fat. |
| RecipeParser.NutritionPrecedence | app/recipe_generator.py:176-187 | On the lowered line, each slot is chosen exactly when its own keyword test holds and no earlier test does: calories, then protein, then carbs or carbohydrates, then fat; the line is unclassified exactly when none holds. Both directions are stated. |
| RecipeParser.NutritionCaseInsensitive | app/recipe_generator.py:176-184 | Letter case does not matter: a line and its lowered form, or any two lines equal once lowered, go to the same slot. |
| RecipeParser.OtherKeyFresh | app/recipe_generator.py:186-187 | In a dict whose other keys are indexed, the next `other_N` (N = len) is not yet a key. |
| RecipeParser.UnclassifiedAppends | app/recipe_generator.py:186-187 | An unclassified nutrition line never overwrites. The dict gains exactly `other_N`, placed last, and its size grows by one. |
| RecipeParser.AddNutritionValues | app/recipe_generator.py:176-187 | Storing a content line keeps the dict valid, and every stored value a content line. |
| RecipeParser.AddNutritionIndexed | app/recipe_generator.py:176-187 | Storing a nutrition line keeps every key a fixed key or `other_i` at its own position i. |
| RecipeParser.AddNutritionWellFormed | app/recipe_generator.py:176-187 | Storing a content line keeps the nutrition dict well formed. |
| RecipeParser.StepWellFormed | app/recipe_generator.py:153-189 | One loop pass keeps the recipe well formed: headings and blank or unstripped lines are never stored. |
| RecipeParser.RunWellFormed | app/recipe_generator.py:141-191 | The recipe is well formed after any number of lines. |
| RecipeParser.NonBlankLines | app/recipe_generator.py:153-155 | Filtering out blank lines gives no more lines than before, and each one kept is non-blank. |
| RecipeParser.BlankLinesIgnored | app/recipe_generator.py:153-156 | Blank lines change nothing. Parsing only the non-blank lines gives the same recipe and the same cursor. |
| RecipeParser.LabelledNameRoundTrip | app/recipe_generator.py:159-161 | The heading "Recipe name: " + n yields the name n, for a name without space at either end and without either marker. |
| RecipeParser.MarkedNameRoundTrip | app/recipe_generator.py:159-161 | The heading "# " + n yields the name n, under the same conditions. |
| RecipeParser.NameFromLastHeading | app/recipe_generator.py:159-161 | The name is the stripped text of the last name heading (a later one overwrites an earlier one), and "" when there is none. |
| RecipeParser.CursorIsLastHeading | app/recipe_generator.py:151-169 | The cursor is always the section of the last heading seen, and None before any heading. |
| RecipeParser.ListsAreSectionContent | app/recipe_generator.py:170-189 | Each list is exactly the in-order sequence of content lines met while its section was current, and the nutrition dict is built from the nutrition section's lines in order. Content before any heading or under the name heading is in none of them. |
| RecipeParser.ContentPartition | app/recipe_generator.py:151-189 | Every content line falls under exactly one cursor position. Content lines number at most the non-blank lines. |
| RecipeParser.ListsBounded | app/recipe_generator.py:170-189 | The three lists together are no longer than the non-blank lines. |
| RecipeParser.FixedKeyHoldsLastMatch | app/recipe_generator.py:176-185 | A fixed nutrition key is present exactly when some nutrition line was classified to it, and it then holds the last such line. |
| RecipeParser.WhitespaceContentIsEmpty | app/recipe_generator.py:141-149 | Empty or all-whitespace content parses to the empty recipe: the five keys with "" and empty collections. |
| PyDict.Dict.Put | app/recipe_generator.py:177-187 | `d[k] = v`: k maps to v, every other key keeps its presence and value, and validity is kept. An existing key keeps its place; a new key goes last. |
| Prompt.ConstructPrompt | app/recipe_generator.py:49-77 | The appended prompt equals `PromptText`: opening, optional preference, optional goal, then the five-item request. |
| Prompt.PromptLayout | app/recipe_generator.py:61-75 | Every prompt starts with the opening sentence and ends with the request, with nothing in between exactly when neither optional argument is truthy. A given preference sentence comes right after the opening. |
| Prompt.FalsyArgumentsIgnored | app/recipe_generator.py:64-68 | A None argument and an empty one give the same prompt. |
| Prompt.PromptSplitsAtList | app/recipe_generator.py:61-62 | The prompt is the lead words, the ", "-joined ingredients, then the rest. |
| Prompt.PromptIngredientsReadBack | app/recipe_generator.py:61-62 | Reading the joined list back out of the prompt with the page's comma split gives the page's items again, for trimmed, comma-free items. |
| RecipeForm.SplitIngredients | frontend/static/js/script.js:37 | There is one item per comma plus one. Each item is trimmed and comma-free, and empty items are kept. |
| RecipeForm.TrimPiece | frontend/static/js/script.js:37 | Trimming a comma-free piece gives a trimmed, comma-free item. |
| RecipeForm.SplitIngredientsOfJoin | frontend/static/js/script.js:37 | The items are the comma-separated pieces, in order, each trimmed. |
| RecipeForm.SplitIngredientsRoundTrip | frontend/static/js/script.js:37 | Splitting `", ".join(items)` gives the items back, for a non-empty list of trimmed, comma-free items. |
| RecipeForm.TrimCommaPieces | frontend/static/js/script.js:37 | Each piece of a ", "-joined list trims back to its item. |
| RecipeForm.JoinWithSpace | frontend/static/js/script.js:37 | Joining with ", " is joining with "," after prefixing every item but the first with a space. |
| Narration.BuildNarration | frontend/static/js/script.js:126-147 | The text is "Ingredients: ", the item texts joined by ", ", ". ", "Instructions: ", then one sentence per instruction. |
| Narration.IngredientList | frontend/static/js/script.js:129-138 | The ingredients loop (separator after every item but the last) yields the items joined by ", ". |
| Narration.IngredientStep | frontend/static/js/script.js:131-137 | One more ingredient adds ", " and the item, or just the item if it is the first. |
| Narration.StepSentences | frontend/static/js/script.js:141-147 | The instructions loop yields `Step k: text. ` for each instruction in order, with k counting from 1. |
| Narration.SentencesNumberedFromOne | frontend/static/js/script.js:143-147 | Sentence k is about the k-th instruction, numbered from 1. |
| Narration.CollapseWhitespace | frontend/static/js/script.js:145 | Collapsing never lengthens the text. |
| Narration.CollapseKeepsWords | frontend/static/js/script.js:145 | `replace(/\s+/g, ' ')` keeps every word (maximal run of non-whitespace characters), in order. Only whitespace changes: between words, and in the leading and trailing runs. |
| Narration.WordsAreWords | frontend/static/js/script.js:145 | Each word is non-empty and holds no whitespace. |
| Narration.StepTextKeepsWords | frontend/static/js/script.js:145 | The tidied instruction text has exactly the words of the item's text. |
| Narration.StepTextIsJoinedWords | frontend/static/js/script.js:145 | The tidied instruction text (`replace(/\s+/g, ' ').trim()`) is the item's words, in order, joined by single spaces. |
| Narration.CollapseSpec | frontend/static/js/script.js:145 | `replace(/\s+/g, ' ')` leaves every whitespace a single space with no two adjacent, and keeps every visible character in order. It leaves the empty string alone and keeps whether the text starts, and whether it ends, with whitespace. |
| Narration.CollapseKeepsSingleSpaced | frontend/static/js/script.js:145 | A single-spaced string is left unchanged. |
| Narration.CollapseIdempotent | frontend/static/js/script.js:145 | Collapsing twice is collapsing once. |
| Narration.StepTextTidy | frontend/static/js/script.js:145 | The tidied instruction text has no whitespace at either end, is single-spaced, and has the same visible characters as the item's text. |
| Narration.VisibleConcat | frontend/static/js/script.js:145 | The visible characters of a concatenation are those of its parts. |
| Playback.AudioPlayback.constructor | frontend/static/js/script.js:191 | Before any audio request there is no list, the cursor is 0, nothing has been played, and loading is hidden with the button enabled. |
| Playback.AudioPlayback.BeginGenerateAudio | frontend/static/js/script.js:117-147 | Hides the player, shows loading and disables the button. Returns the narration text; list, cursor and playback are untouched. |
| Playback.AudioPlayback.RequestFailed | frontend/static/js/script.js:179-186 | The error path hides loading and enables the button. It changes nothing else. |
| Playback.AudioPlayback.ReceiveAudioUrls | frontend/static/js/script.js:166-186 | The response is accepted exactly when the URL list is present and non-empty. A rejected one takes the error path and leaves list, cursor and player alone. An accepted one is stored, the cursor reset to 0, and the first segment played with loading hidden and the button enabled. |
| Playback.AudioPlayback.PlayNextAudioSegment | frontend/static/js/script.js:190-219 | With no list, or the cursor at or past its end, it hides loading, enables the button and plays nothing. Otherwise it plays `urls[index]`, shows the player and installs the ended handler. Only at index 0 does it hide loading and enable the button; later segments leave them alone. |
| Playback.AudioPlayback.OnEnded | frontend/static/js/script.js:208-211 | A segment's end advances the cursor by exactly one and plays the next segment, or stops at the end of the list. |
| Playback.AudioPlayback.PlayThrough | frontend/static/js/script.js:166-219 | After an accepted response and each segment ending in turn, every URL has been played once, in order. The cursor ends at the list length in the stopped state, loading hidden and button enabled. |
| Text.Strip | app/recipe_generator.py:141 | Stripping never lengthens a string. |
| Text.StripSpec | app/recipe_generator.py:141 | `strip()` / `trim()` leave the middle of the string with no whitespace at either end, and only whitespace around it. |
| Text.StripAllSpace | app/recipe_generator.py:154-155 | An all-whitespace string strips to "". |
| Text.StripSpacePrefix | frontend/static/js/script.js:37 | A trimmed string preceded by whitespace trims back to itself. |
| Text.StripKeepsOut | frontend/static/js/script.js:37 | Trimming adds no character. |
| Text.Split | app/recipe_generator.py:141 | `split(c)` gives one piece per separator plus one, none containing the separator. |
| Text.SplitJoin | app/recipe_generator.py:141 | Joining the pieces of a split with the separator gives the string back. |
| Text.JoinSplit | frontend/static/js/script.js:37 | Splitting the join of a non-empty list of separator-free pieces gives the pieces back. |
| Text.JoinSnoc | app/recipe_generator.py:61 | Joining one more piece appends the separator and that piece. |
| Text.StartsWithIsPrefix | app/recipe_generator.py:159 | `startswith` agrees with comparing the leading slice. |
| Text.Lower | app/recipe_generator.py:176-184 | `lower()` keeps the length and leaves no capital letter. Each capital becomes its small letter, and every other character is kept. |
| Text.LowerIdempotent | app/recipe_generator.py:176-184 | Lowering twice is lowering once. |
| Text.ContainsIff | app/recipe_generator.py:159-184 | `sub in s` holds exactly when sub starts at some offset of s (both directions). |
| Text.ContainsCons | app/recipe_generator.py:159-184 | A leading character that cannot start sub adds no occurrence of it. |
| Text.ReplaceAbsent | app/recipe_generator.py:160 | With no occurrence of the target, `replace` returns the string unchanged. |
| Text.ReplaceAtStart | app/recipe_generator.py:160 | An occurrence at the start is replaced, and the scan resumes right after it. |
| Text.ReplaceLeftmost | app/recipe_generator.py:160 | Scanning left to right, the first occurrence is replaced: the text before it is kept, and the scan resumes after it, so occurrences never overlap. |
| Text.JoinLength | app/recipe_generator.py:61 | The length of `sep.join(xs)` for a non-empty list is the pieces' total length plus one separator per gap. |
| Text.NatToString | app/recipe_generator.py:187 | The decimal rendering is a non-empty string of digits, one digit long exactly for n < 10, with no leading zero. |
| Text.NatToStringValue | frontend/static/js/script.js:146 | The rendering spells n: reading its digits back, left to right, gives n. |
| Text.NatToStringCanonical | app/recipe_generator.py:187 | Every non-empty digit string without a leading zero is the rendering of the number it spells, so the rendering is the one canonical decimal spelling. |
| Text.NatToStringInjective | app/recipe_generator.py:187 | Different numbers give different `other_N` suffixes. |

## Left out

- Calls to the language-model and speech SDKs, streaming generation and the choice between streaming and batch generation are left out. They are network I/O.
- The base64 and HTTP handling of the speech service, the Flask routes, the request logger, the example API client and the program entry point are left out. They are not part of the recipe logic.
- `fetch`, `alert`, `console`, the `marked` rendering of the recipe into the page, and `scrollIntoView` are left out. They are browser I/O.
- The audio element itself is not modelled. `play()` is recorded in the ghost sequence `played`, and what happens after it is up to the browser.
- The interleaving of browser events is not modelled: a second audio request while segments are still playing, or an `ended` event arriving after a new list was stored. `PlayThrough` covers the sequential case.
- The initial HTML state of the loading indicator, player and button is taken to be hidden, hidden and enabled. `window.currentAudioIndex` is undefined on the page until the first audio list arrives; the model starts it at 0, which nothing reads while no list is stored.
- RecipeParser.ParseRecipeResponse: `content` is a string. The source would raise on `None`, and non-string JSON content is not modelled.
- RecipeParser.ParseLine: the source's loop body is split into three methods, `ParseLine`, `DetectHeading` and `StoreContent`. The statements and their order are the same.
- Text.Lower: only ASCII letters are lowered. The four keywords are all lower-case ASCII, and no non-ASCII character lowers into one of their letters followed by another of their letters (U+0130 lowers to "i" plus a combining dot, and no keyword ends in "i"). So every keyword test answers as Python's full `lower()` would.
- Text.JsWhitespace: one character set serves both `\s` in `replace(/\s+/g, ' ')` and `trim()`. JavaScript defines both as its WhiteSpace and LineTerminator characters.
- Prompt.ConstructPrompt: the ingredients are a list of strings, and the preference and goal are strings or None. The route passes the request's JSON values through unchecked. The source would raise on a list holding non-strings, would join the characters of a single string, and would render a number or list preference with `str()`, treating `0` and `[]` as not given. None of this is modelled.
- Narration.BuildNarration: each loop's text is built in a local string and then appended to the narration. The source appends to one `recipeText` directly, which gives the same string.
- Narration.BuildNarration: the items' `textContent` values come in as strings. The DOM query that collects them is not part of this model.
- Playback.AudioPlayback.ReceiveAudioUrls: the list's entries are taken to be strings. The source stores whatever the JSON held.
- Playback.AudioPlayback.Valid: the invariant says only that the ended handler implies a stored, non-empty list. It does not say that `src` is in the list.
