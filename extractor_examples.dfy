/**
 * What `extract_remedies` returns on small texts that exercise the regular expression
 * `\d\.\s+([^-\n]+)`: order of appearance, truncation at the first hyphen or newline,
 * non-overlapping matches, unanchored matching and backtracking of `\s+`.
 *
 * Each text is a parameter fixed by the precondition, so that the verifier takes it
 * apart with the lemmas of `NumberedLists` instead of evaluating the scanner on a
 * literal.
 */
module ExtractorExamples {
  import opened Text
  import opened RemedyExtractor
  import opened NumberedLists

  /** Texts without any `digit . whitespace` marker yield no remedies. */
  lemma NoItems(t: string)
    requires t == "Lemon Tea" || t == " for mood support" || t == " x"
    ensures Remedies(t) == []
  {
    forall i: nat ensures !ItemMarker(t, i) {
      if i + 2 < |t| { assert !IsDigit(t[i]) || t[i + 1] != '.'; }
    }
    NoMarkerNoRemedies(t);
  }

  /** A single final item. */
  lemma GingerLast(t: string)
    requires t == ['1', '.', ' '] + "Ginger"
    ensures Remedies(t) == ["Ginger"]
  {
    LastItem('1', ' ', "Ginger");
    StripFixedPoint("Ginger");
  }

  /** A single final item. */
  lemma LemonLast(t: string)
    requires t == ['2', '.', ' '] + "Lemon"
    ensures Remedies(t) == ["Lemon"]
  {
    LastItem('2', ' ', "Lemon");
    StripFixedPoint("Lemon");
  }

  /** Items are reported in text order whatever their printed number. */
  lemma OutOfOrderNumbers(t: string)
    requires t == "3. Chamomile\n1. Ginger"
    ensures Remedies(t) == ["Chamomile", "Ginger"]
  {
    var r := ['1', '.', ' '] + "Ginger";
    assert t == ['3', '.', ' '] + "Chamomile" + ['\n'] + r;
    ItemThenRest('3', ' ', "Chamomile", '\n', r);
    GingerLast(r);
    StripFixedPoint("Chamomile");
  }

  /** A label of several digits: the match starts at its last digit and the name is whole. */
  lemma MultiDigitLabel(t: string)
    requires t == "10. Ginger\n"
    ensures Remedies(t) == ["Ginger"]
  {
    assert t == "10" + ". " + "Ginger" + "\n" + [];
    LabelledItemThenRest("10", "Ginger", []);
    NoMatchFindsNothing([], 0);
  }

  /** A later `2. ` inside an item's group does not start a new match. */
  lemma NoOverlap(t: string)
    requires t == "1. Take 2. tablets"
    ensures Remedies(t) == ["Take 2. tablets"]
  {
    assert t == ['1', '.', ' '] + "Take 2. tablets";
    LastItem('1', ' ', "Take 2. tablets");
    StripFixedPoint("Take 2. tablets");
  }

  /** The group stops at a hyphen, and scanning resumes right there. */
  lemma HyphenEndsGroup(t: string)
    requires t == "1. Ginger-2. Lemon"
    ensures Remedies(t) == ["Ginger", "Lemon"]
  {
    var r := ['2', '.', ' '] + "Lemon";
    assert t == ['1', '.', ' '] + "Ginger" + ['-'] + r;
    ItemThenRest('1', ' ', "Ginger", '-', r);
    LemonLast(r);
    StripFixedPoint("Ginger");
  }

  /** A hyphenated name keeps only the part before the hyphen. */
  lemma HyphenatedName(t: string)
    requires t == "1. Ginger-Lemon Tea"
    ensures Remedies(t) == ["Ginger"]
  {
    assert t == ['1', '.', ' '] + "Ginger" + ['-'] + "Lemon Tea";
    ItemThenRest('1', ' ', "Ginger", '-', "Lemon Tea");
    NoItems("Lemon Tea");
    StripFixedPoint("Ginger");
  }

  /** `.strip()` removes the space left before the hyphen. */
  lemma StripWort(n: string)
    requires n == "St. John's Wort "
    ensures Strip(n) == "St. John's Wort"
  {
    assert TrimStart(n) == n;
    assert TrimEnd(n) == "St. John's Wort";
  }

  /** The pieces of the text of `NameBeforeDash`. */
  lemma WortPieces(t: string)
    requires t == "2. St. John's Wort - for mood support"
    ensures t == ['2', '.', ' '] + "St. John's Wort " + ['-'] + " for mood support"
  {
  }

  /** The text before the first hyphen is the name, trimmed of the space before the hyphen. */
  lemma NameBeforeDash(t: string)
    requires t == "2. St. John's Wort - for mood support"
    ensures Remedies(t) == ["St. John's Wort"]
  {
    var n, r := "St. John's Wort ", " for mood support";
    WortPieces(t);
    ItemThenRest('2', ' ', n, '-', r);
    NoItems(r);
    StripWort(n);
  }

  /** The whitespace run may cross a line break. */
  lemma SpaceRunCrossesNewline(t: string)
    requires t == "1.\nGinger"
    ensures Remedies(t) == ["Ginger"]
  {
    assert t == ['1', '.', '\n'] + "Ginger";
    LastItem('1', '\n', "Ginger");
    StripFixedPoint("Ginger");
  }

  /** The pattern is not anchored: in `12. X` the match starts at the `2`. */
  lemma Unanchored(t: string)
    requires t == "12. X"
    ensures Remedies(t) == ["X"]
  {
    assert t == "1" + (['2', '.', ' '] + "X");
    assert NoMatchBetween(t, 0, 1) by {
      assert !ItemMarker(t, 0);
    }
    SkipPrefix("1", ['2', '.', ' '] + "X");
    LastItem('2', ' ', "X");
    StripFixedPoint("X");
  }

  /** With two spaces before a hyphen, `\s+` gives one back and the group is one space: the name is empty. */
  lemma BacktrackingGivesEmptyName(t: string)
    requires t == "1.  - x"
    ensures Remedies(t) == [""]
  {
    assert t == ['1', '.', ' ', ' ', '-'] + " x";
    SpacesThenHyphen('1', ' ', ' ', " x");
    NoItems(" x");
  }

  /** With one space before a hyphen nothing is captured, so there is no match. */
  lemma HyphenRightAfterSpaceNoMatch(t: string)
    requires t == "1. - x"
    ensures Remedies(t) == []
  {
    assert t == ['1', '.', ' ', '-'] + " x";
    SpaceThenHyphen('1', ' ', " x");
    NoItems(" x");
  }
}
