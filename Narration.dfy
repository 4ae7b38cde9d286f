/** The text the page sends to speech synthesis: the ingredients as one
    comma-separated clause, then one numbered sentence per instruction with
    its whitespace tidied. */
module Narration {
  import opened Text

  /** The characters of s that are not whitespace, in order. */
  function Visible(s: string): string
  {
    if s == [] then [] else (if JsWhitespace(s[0]) then [] else [s[0]]) + Visible(s[1..])
  }

  /** Visible distributes over concatenation. */
  lemma {:induction false} VisibleConcat(a: string, b: string)
    ensures Visible(a + b) == Visible(a) + Visible(b)
    decreases |a|
  {
    if a != [] {
      var head: string := if JsWhitespace(a[0]) then [] else [a[0]];
      assert (a + b)[0] == a[0];
      assert (a + b)[1..] == a[1..] + b;
      VisibleConcat(a[1..], b);
      assert Visible(a + b) == head + (Visible(a[1..]) + Visible(b));
      assert head + (Visible(a[1..]) + Visible(b)) == (head + Visible(a[1..])) + Visible(b);
    } else {
      assert a + b == b;
    }
  }

  /** A string made only of whitespace has nothing visible. */
  lemma {:induction false} VisibleAllSpace(s: string)
    requires forall j :: 0 <= j < |s| ==> JsWhitespace(s[j])
    ensures Visible(s) == []
    decreases |s|
  {
    if s != [] {
      VisibleAllSpace(s[1..]);
    }
  }

  /** Cutting whitespace off both ends of s keeps what is visible. */
  lemma VisibleOfPadded(s: string, r: string, i: int)
    requires PaddedAt(s, r, i, JsWhitespace)
    ensures Visible(r) == Visible(s)
  {
    var pre, post := s[..i], s[i + |r|..];
    assert s == pre + r + post;
    VisibleAllSpace(pre);
    VisibleAllSpace(post);
    VisibleConcat(pre + r, post);
    VisibleConcat(pre, r);
  }

  /** Every whitespace character is a plain space and no two whitespace
      characters are neighbours. */
  predicate SingleSpaced(s: string)
  {
    (forall i :: 0 <= i < |s| && JsWhitespace(s[i]) ==> s[i] == ' ') &&
    (forall i :: 0 <= i < |s| - 1 ==> !JsWhitespace(s[i]) || !JsWhitespace(s[i + 1]))
  }

  /** text.replace(/\s+/g, ' '): each maximal run of whitespace becomes one
      space. */
  function CollapseWhitespace(s: string): (r: string)
    ensures |r| <= |s|
    decreases |s|
  {
    if s == [] then []
    else if JsWhitespace(s[0]) then
      var rest := StripLeft(s, JsWhitespace);
      StripLeftSpec(s, JsWhitespace);
      assert |rest| < |s|;
      " " + CollapseWhitespace(rest)
    else
      [s[0]] + CollapseWhitespace(s[1..])
  }

  /** Putting a space, or a visible character, in front of a single-spaced
      string keeps it single-spaced unless two spaces meet. */
  lemma SingleSpacedCons(c: char, t: string)
    requires SingleSpaced(t)
    requires c == ' ' || !JsWhitespace(c)
    requires t == [] || !JsWhitespace(c) || !JsWhitespace(t[0])
    ensures SingleSpaced([c] + t)
  {
    var u := [c] + t;
    assert forall i :: 1 <= i < |u| ==> u[i] == t[i - 1];
  }

  /** Visible of a string with one more character in front. */
  lemma VisibleCons(c: char, t: string)
    ensures Visible([c] + t) == (if JsWhitespace(c) then [] else [c]) + Visible(t)
  {
    assert ([c] + t)[1..] == t;
  }

  /** The collapsed string keeps the visible characters in order, leaves no
      run of whitespace longer than one character, or other than a space,
      and starts, and ends, with whitespace exactly when the original does. */
  lemma {:induction false} CollapseSpec(s: string)
    ensures var r := CollapseWhitespace(s);
            && SingleSpaced(r)
            && Visible(r) == Visible(s)
            && (r == [] <==> s == [])
            && (r != [] ==> (JsWhitespace(r[0]) <==> JsWhitespace(s[0])))
            && (r != [] ==> (JsWhitespace(r[|r| - 1]) <==> JsWhitespace(s[|s| - 1])))
    decreases |s|
  {
    if s != [] {
      if JsWhitespace(s[0]) {
        var rest := StripLeft(s, JsWhitespace);
        StripLeftSpec(s, JsWhitespace);
        CollapseSpec(rest);
        VisibleSkipsLeft(s, rest);
        SingleSpacedCons(' ', CollapseWhitespace(rest));
        VisibleCons(' ', CollapseWhitespace(rest));
      } else {
        CollapseSpec(s[1..]);
        SingleSpacedCons(s[0], CollapseWhitespace(s[1..]));
        VisibleCons(s[0], CollapseWhitespace(s[1..]));
        VisibleCons(s[0], s[1..]);
        assert [s[0]] + s[1..] == s;
      }
    }
  }

  /** Dropping leading whitespace keeps what is visible. */
  lemma VisibleSkipsLeft(s: string, rest: string)
    requires |rest| <= |s| && rest == s[|s| - |rest|..]
    requires forall i :: 0 <= i < |s| - |rest| ==> JsWhitespace(s[i])
    ensures Visible(rest) == Visible(s)
  {
    var pre := s[..|s| - |rest|];
    assert s == pre + rest;
    VisibleAllSpace(pre);
    VisibleConcat(pre, rest);
  }

  /** A string already single-spaced is left as it is, so collapsing twice
      is collapsing once. */
  lemma {:induction false} CollapseKeepsSingleSpaced(s: string)
    requires SingleSpaced(s)
    ensures CollapseWhitespace(s) == s
    decreases |s|
  {
    if s != [] {
      var tail := s[1..];
      SingleSpacedTail(s);
      CollapseKeepsSingleSpaced(tail);
      if JsWhitespace(s[0]) {
        assert tail == [] || !JsWhitespace(tail[0]);
        assert StripLeft(tail, JsWhitespace) == tail;
        assert StripLeft(s, JsWhitespace) == tail;
        assert CollapseWhitespace(s) == " " + tail;
        assert s == [' '] + tail;
      } else {
        assert CollapseWhitespace(s) == [s[0]] + tail;
        assert s == [s[0]] + tail;
      }
    }
  }

  /** Dropping the first character keeps a string single-spaced. */
  lemma SingleSpacedTail(s: string)
    requires s != [] && SingleSpaced(s)
    ensures SingleSpaced(s[1..])
  {
    assert forall i :: 0 <= i < |s[1..]| ==> s[1..][i] == s[i + 1];
  }

  /** Collapsing is idempotent. */
  lemma CollapseIdempotent(s: string)
    ensures CollapseWhitespace(CollapseWhitespace(s)) == CollapseWhitespace(s)
  {
    CollapseSpec(s);
    CollapseKeepsSingleSpaced(CollapseWhitespace(s));
  }

  /** item.textContent.replace(/\s+/g, ' ').trim() */
  function StepText(t: string): string
  {
    Strip(CollapseWhitespace(t), JsWhitespace)
  }

  /** The tidied instruction text has no whitespace at either end, single
      spaces inside, and exactly the visible characters of the original. */
  lemma StepTextTidy(t: string)
    ensures Trimmed(StepText(t), JsWhitespace)
    ensures SingleSpaced(StepText(t))
    ensures Visible(StepText(t)) == Visible(t)
  {
    var c := CollapseWhitespace(t);
    CollapseSpec(t);
    StripSpec(c, JsWhitespace);
    var i := |c| - |StripLeft(c, JsWhitespace)|;
    SingleSpacedSlice(c, i, i + |StepText(t)|);
    VisibleOfPadded(c, StepText(t), i);
  }

  /** A slice of a single-spaced string is single-spaced. */
  lemma SingleSpacedSlice(s: string, lo: int, hi: int)
    requires 0 <= lo <= hi <= |s|
    requires SingleSpaced(s)
    ensures SingleSpaced(s[lo..hi])
  {
    assert forall j :: 0 <= j < hi - lo ==> s[lo..hi][j] == s[lo + j];
  }

  // ---------------------------------------------------------------------
  // Words

  /** Length of the run of non-whitespace characters s starts with. */
  function WordLength(s: string): (n: nat)
    ensures n <= |s|
  {
    if s == [] || JsWhitespace(s[0]) then 0 else 1 + WordLength(s[1..])
  }

  /** The run is all visible. */
  lemma {:induction false} WordLengthVisible(s: string)
    ensures forall i :: 0 <= i < WordLength(s) ==> !JsWhitespace(s[i])
    decreases |s|
  {
    if s != [] && !JsWhitespace(s[0]) {
      WordLengthVisible(s[1..]);
      assert forall i :: 1 <= i < |s| ==> s[i] == s[1..][i - 1];
    }
  }

  /** The run ends at whitespace or at the end of s. */
  lemma {:induction false} WordLengthEnds(s: string)
    ensures WordLength(s) < |s| ==> JsWhitespace(s[WordLength(s)])
    decreases |s|
  {
    if s != [] && !JsWhitespace(s[0]) {
      WordLengthEnds(s[1..]);
    }
  }

  /** The words of s: its maximal runs of non-whitespace characters, in
      order. */
  function Words(s: string): seq<string>
    decreases |s|
  {
    if s == [] then []
    else if JsWhitespace(s[0]) then Words(s[1..])
    else
      var n := WordLength(s);
      [s[..n]] + Words(s[n..])
  }

  /** Every word is non-empty and holds no whitespace. */
  lemma {:induction false} WordsAreWords(s: string)
    ensures forall k :: 0 <= k < |Words(s)| ==> Words(s)[k] != []
    ensures forall k, i :: 0 <= k < |Words(s)| && 0 <= i < |Words(s)[k]| ==> !JsWhitespace(Words(s)[k][i])
    decreases |s|
  {
    if s != [] {
      if JsWhitespace(s[0]) {
        WordsAreWords(s[1..]);
      } else {
        var n := WordLength(s);
        WordLengthVisible(s);
        WordsAreWords(s[n..]);
        var ws := Words(s);
        assert ws[1..] == Words(s[n..]);
        forall k, i | 0 <= k < |ws| && 0 <= i < |ws[k]|
          ensures !JsWhitespace(ws[k][i])
        {
          if k == 0 {
            assert ws[0][i] == s[i];
          } else {
            assert ws[k] == Words(s[n..])[k - 1];
          }
        }
      }
    }
  }

  /** Whitespace in front changes no word. */
  lemma {:induction false} WordsSkipSpace(pad: string, s: string)
    requires forall j :: 0 <= j < |pad| ==> JsWhitespace(pad[j])
    ensures Words(pad + s) == Words(s)
    decreases |pad|
  {
    if pad != [] {
      assert (pad + s)[1..] == pad[1..] + s;
      WordsSkipSpace(pad[1..], s);
    } else {
      assert pad + s == s;
    }
  }

  /** A word ending where s ends, or before whitespace, is not lengthened
      by what follows. */
  lemma {:induction false} WordLengthAppend(s: string, t: string)
    requires t == [] || JsWhitespace(t[0])
    ensures WordLength(s + t) == WordLength(s)
    decreases |s|
  {
    if s == [] {
      assert s + t == t;
    } else if !JsWhitespace(s[0]) {
      assert (s + t)[1..] == s[1..] + t;
      WordLengthAppend(s[1..], t);
    }
  }

  /** Whitespace at the end changes no word. */
  lemma {:induction false} WordsDropTrailingSpace(s: string, pad: string)
    requires forall j :: 0 <= j < |pad| ==> JsWhitespace(pad[j])
    ensures Words(s + pad) == Words(s)
    decreases |s|
  {
    if s == [] {
      assert s + pad == pad;
      WordsSkipSpace(pad, []);
      assert pad + [] == pad;
    } else if JsWhitespace(s[0]) {
      assert (s + pad)[1..] == s[1..] + pad;
      WordsDropTrailingSpace(s[1..], pad);
    } else {
      var n := WordLength(s);
      WordLengthAppend(s, pad);
      assert (s + pad)[..n] == s[..n];
      assert (s + pad)[n..] == s[n..] + pad;
      WordsDropTrailingSpace(s[n..], pad);
    }
  }

  /** The words of a visible character put in front of t: a word of its
      own when t is empty or starts with whitespace, otherwise the start of
      t's first word. */
  lemma WordsCons(c: char, t: string)
    requires !JsWhitespace(c)
    ensures t == [] || JsWhitespace(t[0]) ==> Words([c] + t) == [[c]] + Words(t)
    ensures t != [] && !JsWhitespace(t[0]) ==>
              |Words(t)| > 0 && Words([c] + t) == [[c] + Words(t)[0]] + Words(t)[1..]
  {
    var s := [c] + t;
    assert s[0] == c && s[1..] == t;
    var n := WordLength(t);
    assert WordLength(s) == 1 + n;
    if t == [] || JsWhitespace(t[0]) {
      assert s[..1] == [c];
      assert Words(s) == [s[..1]] + Words(s[1..]);
    } else {
      assert Words(t) == [t[..n]] + Words(t[n..]);
      assert s[..1 + n] == [c] + t[..n];
      assert s[1 + n..] == t[n..];
      assert Words(s) == [s[..1 + n]] + Words(s[1 + n..]);
    }
  }

  /** Collapsing whitespace keeps every word: only the whitespace between
      them changes. */
  lemma {:induction false} CollapseKeepsWords(s: string)
    ensures Words(CollapseWhitespace(s)) == Words(s)
    decreases |s|
  {
    if s != [] {
      if JsWhitespace(s[0]) {
        var rest := StripLeft(s, JsWhitespace);
        StripLeftSpec(s, JsWhitespace);
        CollapseKeepsWords(rest);
        var pre := s[..|s| - |rest|];
        assert s == pre + rest;
        WordsSkipSpace(pre, rest);
        WordsSkipSpace(" ", CollapseWhitespace(rest));
      } else {
        var t := s[1..];
        CollapseKeepsWords(t);
        CollapseSpec(t);
        WordsCons(s[0], t);
        WordsCons(s[0], CollapseWhitespace(t));
        assert [s[0]] + t == s;
      }
    }
  }

  /** In a tidy string, a word that does not reach the end is followed by
      one space and then a visible character. */
  lemma SpaceAfterWord(s: string)
    requires SingleSpaced(s) && Trimmed(s, JsWhitespace)
    requires WordLength(s) < |s|
    ensures WordLength(s) + 1 < |s| && s[WordLength(s)] == ' '
    ensures !JsWhitespace(s[WordLength(s) + 1])
  {
    var n := WordLength(s);
    WordLengthEnds(s);
    assert JsWhitespace(s[n]);
    assert n != |s| - 1;
  }

  /** What follows a visible character inside a tidy string is tidy. */
  lemma TidyTail(s: string, k: int)
    requires SingleSpaced(s) && Trimmed(s, JsWhitespace)
    requires 0 < k < |s| && !JsWhitespace(s[k])
    ensures SingleSpaced(s[k..]) && Trimmed(s[k..], JsWhitespace)
  {
    SingleSpacedSlice(s, k, |s|);
    var rest := s[k..];
    assert rest[0] == s[k];
    assert rest[|rest| - 1] == s[|s| - 1];
  }

  /** A string that is one run of visible characters is one word. */
  lemma WordsOfWord(s: string)
    requires s != [] && WordLength(s) == |s|
    ensures Words(s) == [s]
  {
    assert s[..|s|] == s && s[|s|..] == [];
  }

  /** A string starting with a visible character starts with a word. */
  lemma WordsHead(s: string)
    requires s != [] && !JsWhitespace(s[0])
    ensures Words(s) == [s[..WordLength(s)]] + Words(s[WordLength(s)..])
  {
  }

  /** s around its character at n. */
  lemma SplitAround(s: string, n: int)
    requires 0 <= n < |s|
    ensures s[n..] == [s[n]] + s[n + 1..]
    ensures s == s[..n] + [s[n]] + s[n + 1..]
  {
  }

  /** A word followed by a space: the rest after the space gives the other
      words. */
  lemma WordsAfterSpace(s: string)
    requires s != [] && !JsWhitespace(s[0])
    requires WordLength(s) + 1 < |s| && s[WordLength(s)] == ' '
    ensures var n := WordLength(s);
            && Words(s) == [s[..n]] + Words(s[n + 1..])
            && s == s[..n] + " " + s[n + 1..]
  {
    var n := WordLength(s);
    WordsHead(s);
    SplitAround(s, n);
    assert [s[n]] == " ";
    WordsSkipSpace(" ", s[n + 1..]);
  }

  /** Joining one more piece on the left with a separator. */
  lemma JoinCons(x: string, xs: seq<string>, sep: string)
    requires xs != []
    ensures Join([x] + xs, sep) == x + sep + Join(xs, sep)
  {
    assert ([x] + xs)[1..] == xs;
  }

  /** A single-spaced string with no whitespace at either end is its words
      joined by single spaces. */
  lemma {:induction false} TidyIsJoinedWords(s: string)
    requires SingleSpaced(s) && Trimmed(s, JsWhitespace)
    ensures s == Join(Words(s), " ")
    ensures s != [] ==> |Words(s)| > 0
    decreases |s|
  {
    if s != [] {
      var n := WordLength(s);
      if n == |s| {
        WordsOfWord(s);
      } else {
        SpaceAfterWord(s);
        TidyTail(s, n + 1);
        var rest := s[n + 1..];
        TidyIsJoinedWords(rest);
        WordsAfterSpace(s);
        JoinCons(s[..n], Words(rest), " ");
      }
    }
  }

  /** Cutting whitespace off both ends of s keeps every word. */
  lemma WordsOfPadded(s: string, r: string, i: int)
    requires PaddedAt(s, r, i, JsWhitespace)
    ensures Words(r) == Words(s)
  {
    var pre, post := s[..i], s[i + |r|..];
    assert s == pre + (r + post);
    WordsSkipSpace(pre, r + post);
    WordsDropTrailingSpace(r, post);
  }

  /** Tidying an instruction keeps its words. */
  lemma StepTextKeepsWords(t: string)
    ensures Words(StepText(t)) == Words(t)
  {
    var c := CollapseWhitespace(t);
    CollapseKeepsWords(t);
    StripSpec(c, JsWhitespace);
    WordsOfPadded(c, Strip(c, JsWhitespace), |c| - |StripLeft(c, JsWhitespace)|);
  }

  /** The tidied instruction text is the instruction's words, in order,
      joined by single spaces. */
  lemma StepTextIsJoinedWords(t: string)
    ensures StepText(t) == Join(Words(t), " ")
  {
    StepTextKeepsWords(t);
    StepTextTidy(t);
    TidyIsJoinedWords(StepText(t));
  }

  /** `Step ${index + 1}: ${plainText}. ` for the instruction at index. */
  function StepSentence(number: nat, t: string): string
  {
    "Step " + NatToString(number) + ": " + StepText(t) + ". "
  }

  /** The instruction sentences in order, numbered from 1. */
  function Sentences(instructions: seq<string>): string
  {
    if instructions == [] then []
    else
      var n := |instructions|;
      Sentences(instructions[..n - 1]) + StepSentence(n, instructions[n - 1])
  }

  /** The same sentences built from the front, numbered from first. */
  function SentencesFrom(instructions: seq<string>, first: nat): string
    decreases |instructions|
  {
    if instructions == [] then []
    else StepSentence(first, instructions[0]) + SentencesFrom(instructions[1..], first + 1)
  }

  /** The front-built sentences may also be extended at the back. */
  lemma {:induction false} SentencesFromSnoc(ts: seq<string>, t: string, first: nat)
    ensures SentencesFrom(ts + [t], first) == SentencesFrom(ts, first) + StepSentence(first + |ts|, t)
    decreases |ts|
  {
    if ts == [] {
      assert [] + [t] == [t];
      assert [t][1..] == [];
    } else {
      assert (ts + [t])[1..] == ts[1..] + [t];
      SentencesFromSnoc(ts[1..], t, first + 1);
    }
  }

  /** Sentence k (from 1) is about the k-th instruction: the sentences are
      the front-built sequence numbered from 1. */
  lemma {:induction false} SentencesNumberedFromOne(instructions: seq<string>)
    ensures Sentences(instructions) == SentencesFrom(instructions, 1)
    decreases |instructions|
  {
    if instructions != [] {
      var n := |instructions|;
      var init := instructions[..n - 1];
      SentencesNumberedFromOne(init);
      SentencesFromSnoc(init, instructions[n - 1], 1);
      assert init + [instructions[n - 1]] == instructions;
    }
  }

  /** "Ingredients: " followed by the item texts separated by ", " and ". " */
  function IngredientsClause(ingredients: seq<string>): string
  {
    "Ingredients: " + Join(ingredients, ", ") + ". "
  }

  /** The whole narration: the ingredients clause, then "Instructions: "
      and the sentences. */
  function NarrationText(ingredients: seq<string>, instructions: seq<string>): string
  {
    IngredientsClause(ingredients) + "Instructions: " + Sentences(instructions)
  }

  /** generateAudio's text: the opening, the ingredients loop, ". ", the
      instructions heading and the instructions loop, appended in that order. */
  method BuildNarration(ingredients: seq<string>, instructions: seq<string>) returns (text: string)
    ensures text == NarrationText(ingredients, instructions)
  {
    text := "";
    text := text + "Ingredients: ";
    var items := IngredientList(ingredients);
    text := text + items;
    text := text + ". ";
    text := text + "Instructions: ";
    var steps := StepSentences(instructions);
    text := text + steps;
  }

  /** The ingredients forEach: each item's text, followed by ", " unless it
      is the last, so the separator goes between items only. */
  method IngredientList(ingredients: seq<string>) returns (text: string)
    ensures text == Join(ingredients, ", ")
  {
    text := "";
    for index := 0 to |ingredients|
      invariant text == Join(ingredients[..index], ", ") +
                        (if 0 < index < |ingredients| then ", " else "")
    {
      IngredientStep(ingredients, index);
      text := text + ingredients[index];
      if index < |ingredients| - 1 {
        text := text + ", ";
      }
    }
    assert ingredients[..|ingredients|] == ingredients;
  }

  /** The instructions forEach: one `Step ${index + 1}: ${plainText}. `
      per item, in order. */
  method StepSentences(instructions: seq<string>) returns (text: string)
    ensures text == Sentences(instructions)
  {
    text := "";
    for index := 0 to |instructions|
      invariant text == Sentences(instructions[..index])
    {
      assert instructions[..index + 1][..index] == instructions[..index];
      var plainText := Strip(CollapseWhitespace(instructions[index]), JsWhitespace);
      var sentence := "Step " + NatToString(index + 1) + ": " + plainText + ". ";
      text := text + sentence;
    }
    assert instructions[..|instructions|] == instructions;
  }

  /** One more ingredient: the joined prefix grows by the separator, when
      there was an item before, and the item. */
  lemma IngredientStep(ingredients: seq<string>, index: nat)
    requires index < |ingredients|
    ensures Join(ingredients[..index + 1], ", ") ==
            (if index == 0 then [] else Join(ingredients[..index], ", ") + ", ") + ingredients[index]
  {
    var init, item := ingredients[..index], ingredients[index];
    assert ingredients[..index + 1] == init + [item];
    JoinSnoc(init, item, ", ");
    if index == 0 {
      assert init == [];
    }
  }

}
