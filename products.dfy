/**
 * The `productsSupplied` field as the suppliers page edits it: a free-text
 * form field parsed into a list on submit, and a list formatted back into
 * text for the edit form and the table.
 */
module Products {
  import opened JsString

  /** A list element the parser can produce: non-empty, trimmed, comma-free. */
  predicate IsProductName(p: string) {
    p != "" && IsTrimmed(p) && ',' !in p
  }

  /** `.map(p => p.trim()).filter(p => p)` over the pieces of a split. */
  function Clean(pieces: seq<string>): (r: seq<string>)
    requires forall i :: 0 <= i < |pieces| ==> ',' !in pieces[i]
    ensures forall i :: 0 <= i < |r| ==> IsProductName(r[i])
  {
    if |pieces| == 0 then []
    else
      var t := Trim(pieces[0]);
      TrimSpec(pieces[0]);
      TrimSubset(pieces[0], ',');
      if t == "" then Clean(pieces[1..]) else [t] + Clean(pieces[1..])
  }

  /** `text.split(',').map(p => p.trim()).filter(p => p)`, run when the form is submitted. */
  function Parse(text: string): (r: seq<string>)
    ensures forall i :: 0 <= i < |r| ==> IsProductName(r[i])
  {
    Clean(Split(text, ','))
  }

  /** `products.join(', ')`, the text the edit form starts from. */
  function Format(products: seq<string>): string {
    Join(products, ", ")
  }

  /** `products.join(', ') || 'N/A'`, the table cell. */
  function Display(products: seq<string>): string {
    var text := Format(products);
    if text == "" then "N/A" else text
  }

  /**
   * The edit form starts empty exactly when the list is empty or the one
   * empty string; for a list of product names, only when it is empty.
   */
  lemma FormatEmpty(products: seq<string>)
    ensures Format(products) == "" <==> products == [] || products == [""]
    ensures (forall i :: 0 <= i < |products| ==> IsProductName(products[i])) ==>
            (Format(products) == "" <==> products == [])
  {
    JoinEmpty(products, ", ");
    if products == [""] {
      assert !IsProductName(products[0]);
    }
  }

  /** The table cell is never blank: it is the joined list whenever that is not empty. */
  lemma DisplayNeverBlank(products: seq<string>)
    ensures Display(products) != ""
    ensures Format(products) != "" ==> Display(products) == Format(products)
  {
  }

  /** The form's default text parses to the empty list. */
  lemma ParseEmpty()
    ensures Parse("") == []
  {
    assert Split("", ',') == [""];
    assert Trim("") == "";
  }

  /** Splitting a formatted list on ',' gives its elements, all but the first behind one space. */
  lemma {:induction false} SplitFormatted(prefix: string, products: seq<string>)
    requires |products| >= 1
    requires ',' !in prefix
    requires forall i :: 0 <= i < |products| ==> ',' !in products[i]
    ensures Split(prefix + Format(products), ',') ==
            [prefix + products[0]] + SpaceEach(products[1..])
    decreases |products|
  {
    if |products| == 1 {
      assert Format(products) == products[0];
      assert ',' !in prefix + products[0];
      SplitNoSeparator(prefix + products[0], ',');
    } else {
      var head := prefix + products[0];
      var tail := products[1..];
      assert Format(products) == products[0] + ", " + Format(tail);
      assert prefix + Format(products) == head + [','] + (" " + Format(tail));
      assert ',' !in head;
      SplitAtSeparator(head, ',', " " + Format(tail));
      SplitFormatted(" ", tail);
      assert SpaceEach(tail) == [" " + tail[0]] + SpaceEach(tail[1..]);
    }
  }

  function SpaceEach(products: seq<string>): (r: seq<string>)
    ensures |r| == |products|
    ensures forall i :: 0 <= i < |r| ==> r[i] == " " + products[i]
    ensures (forall i :: 0 <= i < |products| ==> ',' !in products[i]) ==>
            forall i :: 0 <= i < |r| ==> ',' !in r[i]
  {
    if |products| == 0 then [] else [" " + products[0]] + SpaceEach(products[1..])
  }

  lemma {:induction false} CleanSpaced(products: seq<string>)
    requires forall i :: 0 <= i < |products| ==> ',' !in products[i]
    requires forall i :: 0 <= i < |products| ==> IsProductName(products[i])
    ensures Clean(SpaceEach(products)) == products
  {
    if |products| > 0 {
      TailNames(products);
      CleanSpaced(products[1..]);
      CleanSpacedStep(products[0], products[1..], SpaceEach(products[1..]));
      assert products == [products[0]] + products[1..];
    }
  }

  /** One element of `CleanSpaced`: a spaced name cleans back to the name, in front of the rest. */
  lemma CleanSpacedStep(p: string, rest: seq<string>, spaced: seq<string>)
    requires IsProductName(p)
    requires forall i :: 0 <= i < |spaced| ==> ',' !in spaced[i]
    requires Clean(spaced) == rest
    ensures forall i :: 0 <= i < |[" " + p] + spaced| ==> ',' !in ([" " + p] + spaced)[i]
    ensures Clean([" " + p] + spaced) == [p] + rest
  {
    assert ',' !in " " + p;
    assert Trim(" " + p) == p by {
      TrimLeadingSpace(" ", p);
    }
    CleanCons(" " + p, spaced);
  }

  /** `Clean` of a piece in front of more pieces, when the piece does not trim to nothing. */
  lemma CleanCons(x: string, tail: seq<string>)
    requires ',' !in x && forall i :: 0 <= i < |tail| ==> ',' !in tail[i]
    requires Trim(x) != ""
    ensures forall i :: 0 <= i < |[x] + tail| ==> ',' !in ([x] + tail)[i]
    ensures Clean([x] + tail) == [Trim(x)] + Clean(tail)
  {
    assert ([x] + tail)[1..] == tail;
  }

  /**
   * Editing and re-submitting a list without touching the text gives the
   * same list back, provided every element is one the parser can produce.
   */
  lemma ParseFormat(products: seq<string>)
    requires forall i :: 0 <= i < |products| ==> IsProductName(products[i])
    ensures Parse(Format(products)) == products
  {
    if |products| == 0 {
      ParseEmpty();
    } else {
      var first, rest := products[0], products[1..];
      assert products == [first] + rest;
      var pieces := Split(Format(products), ',');
      assert pieces == [first] + SpaceEach(rest) && Trim(first) == first && first != "" by {
        PiecesOfFormat(products);
      }
      assert Clean(SpaceEach(rest)) == rest by {
        TailNames(products);
        CleanSpaced(rest);
      }
      assert Clean(pieces) == [first] + Clean(SpaceEach(rest)) by {
        CleanCons(first, SpaceEach(rest));
      }
    }
  }

  lemma PiecesOfFormat(products: seq<string>)
    requires |products| > 0
    requires forall i :: 0 <= i < |products| ==> IsProductName(products[i])
    ensures forall i :: 0 <= i < |products| - 1 ==> ',' !in products[1..][i]
    ensures Split(Format(products), ',') == [products[0]] + SpaceEach(products[1..])
    ensures Trim(products[0]) == products[0] && products[0] != ""
  {
    NoCommas(products);
    SplitFormatted("", products);
    assert "" + Format(products) == Format(products);
    assert "" + products[0] == products[0];
    assert IsProductName(products[0]);
    TrimFixedPoint(products[0]);
  }

  /** Product names hold no separator. */
  lemma NoCommas(products: seq<string>)
    requires forall i :: 0 <= i < |products| ==> IsProductName(products[i])
    ensures forall i :: 0 <= i < |products| ==> ',' !in products[i]
    ensures forall i :: 0 <= i < |products| - 1 ==> ',' !in products[1..][i]
  {
    forall i | 0 <= i < |products|
      ensures ',' !in products[i]
    {
      assert IsProductName(products[i]);
    }
  }

  /** The tail of a list of product names is one too. */
  lemma TailNames(products: seq<string>)
    requires |products| > 0
    requires forall i :: 0 <= i < |products| ==> IsProductName(products[i])
    ensures forall i :: 0 <= i < |products| - 1 ==> IsProductName(products[1..][i])
    ensures forall i :: 0 <= i < |products| - 1 ==> ',' !in products[1..][i]
  {
    forall i | 0 <= i < |products| - 1
      ensures IsProductName(products[1..][i]) && ',' !in products[1..][i]
    {
      assert products[1..][i] == products[i + 1];
      assert IsProductName(products[i + 1]);
    }
  }

  /** Re-submitting an edit form never changes a list that was itself parsed. */
  lemma ParseFormatParse(text: string)
    ensures Parse(Format(Parse(text))) == Parse(text)
  {
    ParseFormat(Parse(text));
  }

  /** The table falls back to 'N/A' exactly when there are no products, or one empty name. */
  lemma DisplayFallback(products: seq<string>)
    ensures Display(products) ==
            if products == [] || products == [""] then "N/A" else Format(products)
  {
    JoinEmpty(products, ", ");
  }

  /** For a list the parser produced, 'N/A' stands exactly for the empty list. */
  lemma DisplayParsed(text: string)
    ensures Display(Parse(text)) ==
            if Parse(text) == [] then "N/A" else Format(Parse(text))
  {
    DisplayFallback(Parse(text));
  }
}
