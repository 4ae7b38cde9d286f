/** The recipe form of the page: the ingredients field is a comma-separated
    list, sent to the server as the list of its trimmed pieces. */
module RecipeForm {
  import opened Text

  /** ingredientsInput.value.split(',').map(item => item.trim()): one item
      per comma plus one, each trimmed and free of commas, empty items kept. */
  function SplitIngredients(field: string): (items: seq<string>)
    ensures |items| == CountChar(field, ',') + 1
    ensures forall i :: 0 <= i < |items| ==> Trimmed(items[i], JsWhitespace)
    ensures forall i :: 0 <= i < |items| ==> ',' !in items[i]
  {
    var pieces := Split(field, ',');
    seq(|pieces|, i requires 0 <= i < |pieces| => TrimPiece(pieces[i]))
  }

  /** item.trim() on a piece without commas, which it keeps comma-free. */
  function TrimPiece(piece: string): (r: string)
    requires ',' !in piece
    ensures Trimmed(r, JsWhitespace)
    ensures ',' !in r
  {
    StripSpec(piece, JsWhitespace);
    StripKeepsOut(piece, JsWhitespace, ',');
    Strip(piece, JsWhitespace)
  }

  /** The items are the trimmed comma-separated pieces, in order: splitting
      the pieces joined with "," gives each piece back, trimmed. */
  lemma SplitIngredientsOfJoin(pieces: seq<string>)
    requires |pieces| > 0
    requires forall k :: 0 <= k < |pieces| ==> ',' !in pieces[k]
    ensures |SplitIngredients(Join(pieces, ","))| == |pieces|
    ensures forall k :: 0 <= k < |pieces| ==>
              SplitIngredients(Join(pieces, ","))[k] == Strip(pieces[k], JsWhitespace)
  {
    JoinSplit(pieces, ',');
  }

  /** The items with a space put in front of each. */
  function SpaceBefore(xs: seq<string>): (r: seq<string>)
    ensures |r| == |xs|
    ensures forall k :: 0 <= k < |xs| ==> r[k] == " " + xs[k]
  {
    seq(|xs|, k requires 0 <= k < |xs| => " " + xs[k])
  }

  /** Joining with ", " is joining with "," after putting a space in front
      of every item but the first. */
  lemma {:induction false} SpacedJoin(xs: seq<string>)
    requires |xs| > 0
    ensures " " + Join(xs, ", ") == Join(SpaceBefore(xs), ",")
    decreases |xs|
  {
    if |xs| > 1 {
      SpacedJoin(xs[1..]);
      assert SpaceBefore(xs)[1..] == SpaceBefore(xs[1..]);
      assert " " + Join(xs, ", ") == (" " + xs[0]) + "," + (" " + Join(xs[1..], ", "));
    }
  }

  /** The pieces ", ".join(items) splits into at the commas: the first item,
      then every other item with the space that followed its comma. */
  function CommaPieces(items: seq<string>): (pieces: seq<string>)
    requires |items| > 0
    ensures |pieces| == |items|
  {
    [items[0]] + SpaceBefore(items[1..])
  }

  /** ", ".join(items) is ",".join of the pieces. */
  lemma JoinWithSpace(items: seq<string>)
    requires |items| > 0
    ensures Join(items, ", ") == Join(CommaPieces(items), ",")
  {
    var pieces := CommaPieces(items);
    if |items| > 1 {
      var rest := Join(items[1..], ", ");
      SpacedJoin(items[1..]);
      assert pieces[1..] == SpaceBefore(items[1..]);
      assert Join(pieces, ",") == items[0] + "," + (" " + rest);
      CommaSpace(items[0], rest);
    }
  }

  /** a + ", " + b, with the space moved to the right-hand side. */
  lemma CommaSpace(a: string, b: string)
    ensures a + ", " + b == a + "," + (" " + b)
  {
    assert ", " == "," + " ";
  }

  /** Each piece trims back to its item. */
  lemma TrimCommaPieces(items: seq<string>, k: nat)
    requires |items| > 0 && k < |items|
    requires Trimmed(items[k], JsWhitespace)
    ensures Strip(CommaPieces(items)[k], JsWhitespace) == items[k]
  {
    if k == 0 {
      StripSpacePrefix([], items[0], JsWhitespace);
      assert [] + items[0] == items[0];
    } else {
      assert CommaPieces(items)[k] == " " + items[k];
      StripSpacePrefix(" ", items[k], JsWhitespace);
    }
  }

  /** Typing back the list as ", ".join(items) gives the same items, for
      trimmed items without commas. */
  lemma SplitIngredientsRoundTrip(items: seq<string>)
    requires |items| > 0
    requires forall k :: 0 <= k < |items| ==> Trimmed(items[k], JsWhitespace)
    requires forall k :: 0 <= k < |items| ==> ',' !in items[k]
    ensures SplitIngredients(Join(items, ", ")) == items
  {
    var pieces := CommaPieces(items);
    JoinWithSpace(items);
    forall k | 0 <= k < |pieces|
      ensures ',' !in pieces[k]
    {
      if k > 0 {
        assert pieces[k] == " " + items[k];
      }
    }
    SplitIngredientsOfJoin(pieces);
    forall k | 0 <= k < |items|
      ensures SplitIngredients(Join(items, ", "))[k] == items[k]
    {
      TrimCommaPieces(items, k);
    }
  }

}
