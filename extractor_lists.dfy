/**
 * How whole texts extract: the regex only looks forward from where it is tried, so a
 * match inside a suffix is the suffix's own match moved along (`FindAllShift`), and
 * a text can be taken apart item by item (`ItemThenRest`, `LastItem`). From these
 * follows the intended use: a list of well-formed numbered lines yields exactly its
 * names, in order (`NumberedLinesExtract`).
 */
module NumberedLists {
  import opened Wrappers
  import opened Text
  import opened RemedyExtractor

  function ShiftMatch(m: Match, n: nat): Match {
    Match(m.begin + n, m.capStart + n, m.capEnd + n)
  }

  function ShiftAll(ms: seq<Match>, n: nat): (sh: seq<Match>)
    ensures |sh| == |ms| && forall k :: 0 <= k < |ms| ==> sh[k] == ShiftMatch(ms[k], n)
  {
    if ms == [] then [] else [ShiftMatch(ms[0], n)] + ShiftAll(ms[1..], n)
  }

  function ShiftOpt(r: Option<Match>, n: nat): Option<Match> {
    match r
    case None => None
    case Some(m) => Some(ShiftMatch(m, n))
  }

  lemma {:induction false} WsEndShift(p: string, r: string, j: nat)
    requires j <= |r|
    ensures WsEnd(p + r, |p| + j) == |p| + WsEnd(r, j)
    decreases |r| - j
  {
    if j < |r| {
      assert (p + r)[|p| + j] == r[j];
      WsEndShift(p, r, j + 1);
    }
  }

  lemma {:induction false} CapEndShift(p: string, r: string, c: nat)
    requires c <= |r|
    ensures CapEnd(p + r, |p| + c) == |p| + CapEnd(r, c)
    decreases |r| - c
  {
    if c < |r| {
      assert (p + r)[|p| + c] == r[c];
      CapEndShift(p, r, c + 1);
    }
  }

  lemma {:induction false} BackOffShift(p: string, r: string, lo: nat, hi: nat)
    requires lo <= hi
    ensures BackOff(p + r, |p| + lo, |p| + hi)
            == match BackOff(r, lo, hi) case None => None case Some(c) => Some(|p| + c)
    decreases hi
  {
    assert CanCapture(p + r, |p| + hi) == CanCapture(r, hi) by {
      if hi < |r| {
        assert (p + r)[|p| + hi] == r[hi];
      }
    }
    if lo < hi {
      BackOffShift(p, r, lo, hi - 1);
    }
  }

  lemma ItemMarkerShift(p: string, r: string, i: nat)
    ensures ItemMarker(p + r, |p| + i) == ItemMarker(r, i)
  {
    var t := p + r;
    if i + 2 < |r| {
      assert t[|p| + i] == r[i] && t[|p| + i + 1] == r[i + 1] && t[|p| + i + 2] == r[i + 2];
    }
  }

  /** The match tried at a position of a suffix is the suffix's own match, moved along. */
  lemma MatchAtShift(p: string, r: string, i: nat)
    ensures MatchAt(p + r, |p| + i) == ShiftOpt(MatchAt(r, i), |p|)
  {
    ItemMarkerShift(p, r, i);
    if ItemMarker(r, i) {
      WsEndShift(p, r, i + 2);
      WsEndSpec(r, i + 2);
      var w := WsEnd(r, i + 2);
      BackOffShift(p, r, i + 3, w);
      BackOffSpec(r, i + 3, w);
      match BackOff(r, i + 3, w)
      case None =>
      case Some(c) =>
        CapEndShift(p, r, c);
    }
  }

  lemma ShiftAllCons(m: Match, rest: seq<Match>, n: nat)
    ensures ShiftAll([m] + rest, n) == [ShiftMatch(m, n)] + ShiftAll(rest, n)
  {
    assert ([m] + rest)[1..] == rest;
  }

  /** A match of the suffix at `i` is the longer text's match at `|p| + i`, and the scans go on alike. */
  lemma FindAllShiftMatch(p: string, r: string, i: nat, m: Match)
    requires MatchAt(r, i) == Some(m)
    requires FindAll(p + r, |p| + m.capEnd) == ShiftAll(FindAll(r, m.capEnd), |p|)
    ensures FindAll(p + r, |p| + i) == ShiftAll(FindAll(r, i), |p|)
  {
    var sm, rest := ShiftMatch(m, |p|), FindAll(r, m.capEnd);
    MatchAtShift(p, r, i);
    FindAllMatch(p + r, |p| + i, sm);
    FindAllMatch(r, i, m);
    ShiftAllCons(m, rest, |p|);
  }

  /** No match of the suffix at `i`, none of the longer text at `|p| + i`. */
  lemma FindAllShiftSkip(p: string, r: string, i: nat)
    requires i < |r| && MatchAt(r, i).None?
    requires FindAll(p + r, |p| + i + 1) == ShiftAll(FindAll(r, i + 1), |p|)
    ensures FindAll(p + r, |p| + i) == ShiftAll(FindAll(r, i), |p|)
  {
    MatchAtShift(p, r, i);
    FindAllSkip(p + r, |p| + i);
    FindAllSkip(r, i);
  }

  /** Scanning a suffix inside a longer text finds the suffix's own matches, moved along. */
  lemma {:induction false} FindAllShift(p: string, r: string, i: nat)
    ensures FindAll(p + r, |p| + i) == ShiftAll(FindAll(r, i), |p|)
    decreases |r| - i, 1
  {
    if i < |r| {
      FindAllShiftAt(p, r, i);
    } else {
      assert FindAll(r, i) == [];
      assert FindAll(p + r, |p| + i) == [];
    }
  }

  /** One step of `FindAllShift`, at a position inside the suffix. */
  lemma {:induction false} FindAllShiftAt(p: string, r: string, i: nat)
    requires i < |r|
    ensures FindAll(p + r, |p| + i) == ShiftAll(FindAll(r, i), |p|)
    decreases |r| - i, 0
  {
    match MatchAt(r, i)
    case None =>
      FindAllShift(p, r, i + 1);
      FindAllShiftSkip(p, r, i);
    case Some(m) =>
      MatchAtSound(r, i);
      FindAllShift(p, r, m.capEnd);
      FindAllShiftMatch(p, r, i, m);
  }

  /** A match of the suffix, moved along, is a match of the longer text with the same group. */
  lemma GroupShift(p: string, r: string, m: Match)
    requires WellFormed(r, m)
    ensures WellFormed(p + r, ShiftMatch(m, |p|))
    ensures Group(p + r, ShiftMatch(m, |p|)) == Group(r, m)
  {
    var t := p + r;
    forall x | m.capStart <= x < m.capEnd ensures t[|p| + x] == r[x] { }
    assert t[|p| + m.capStart..|p| + m.capEnd] == r[m.capStart..m.capEnd];
  }

  /** Moving matches along with the text keeps their names. */
  lemma NamesShift(p: string, r: string, ms: seq<Match>)
    requires AllWellFormed(r, ms)
    ensures AllWellFormed(p + r, ShiftAll(ms, |p|))
    ensures Names(p + r, ShiftAll(ms, |p|)) == Names(r, ms)
  {
    var sh := ShiftAll(ms, |p|);
    forall k | 0 <= k < |ms|
      ensures WellFormed(p + r, sh[k]) && Group(p + r, sh[k]) == Group(r, ms[k])
    {
      GroupShift(p, r, ms[k]);
    }
    var lhs, rhs := Names(p + r, sh), Names(r, ms);
    forall k | 0 <= k < |ms| ensures lhs[k] == rhs[k] { }
  }

  /** The names of a first match followed by others. */
  lemma NamesCons(t: string, m: Match, ms: seq<Match>)
    requires AllWellFormed(t, [m] + ms)
    ensures WellFormed(t, m) && AllWellFormed(t, ms)
    ensures Names(t, [m] + ms) == [Strip(Group(t, m))] + Names(t, ms)
  {
    var all := [m] + ms;
    assert all[0] == m;
    assert forall k :: 0 <= k < |ms| ==> ms[k] == all[k + 1];
    var lhs, rhs := Names(t, all), [Strip(Group(t, m))] + Names(t, ms);
    assert |lhs| == |rhs|;
    forall k | 0 <= k < |lhs| ensures lhs[k] == rhs[k] {
      if k > 0 {
        assert all[k] == ms[k - 1];
      }
    }
  }

  /** A prefix at none of whose positions a match starts adds no names. */
  lemma SkipPrefix(p: string, r: string)
    requires NoMatchBetween(p + r, 0, |p|)
    ensures Remedies(p + r) == Remedies(r)
  {
    SkipNoMatch(p + r, 0, |p|);
    FindAllShift(p, r, 0);
    FindAllSound(r, 0);
    NamesShift(p, r, FindAll(r, 0));
  }

  /** A name that can follow `<digit>. `: non-empty, starting with neither whitespace nor a stop, and holding no stop. */
  predicate ItemName(n: string) {
    n != [] && !IsSpace(n[0]) && forall k :: 0 <= k < |n| ==> !IsStop(n[k])
  }

  /** The first match of `<digit>.<space><name>...`: its group is the whole name. */
  lemma HeadMatch(d: char, w: char, n: string, r: string)
    requires IsDigit(d) && IsSpace(w) && ItemName(n)
    requires r == [] || IsStop(r[0])
    ensures MatchAt([d, '.', w] + n + r, 0) == Some(Match(0, 3, 3 + |n|))
    ensures Group([d, '.', w] + n + r, Match(0, 3, 3 + |n|)) == n
  {
    var t := [d, '.', w] + n + r;
    forall k | 0 <= k < |n| ensures t[3 + k] == n[k] { }
    assert t[3 + |n|..] == r;
    MatchAtOneSpace(t, 0, 3 + |n|);
    assert t[3..3 + |n|] == n;
  }

  /**
   * An item ended by a hyphen or a newline: its stripped name comes first, and the
   * scan carries on after the separator as if the text began there.
   */
  lemma ItemThenRest(d: char, w: char, n: string, sep: char, r: string)
    requires IsDigit(d) && IsSpace(w) && ItemName(n) && IsStop(sep)
    ensures Remedies([d, '.', w] + n + [sep] + r) == [Strip(n)] + Remedies(r)
  {
    var head := [d, '.', w] + n + [sep];
    var t := head + r;
    var m := Match(0, 3, 3 + |n|);
    assert t == [d, '.', w] + n + ([sep] + r);
    HeadMatch(d, w, n, [sep] + r);
    FindAllMatch(t, 0, m);
    assert t[3 + |n|] == sep;
    assert FindAll(t, 3 + |n|) == FindAll(t, |head|);
    FindAllShift(head, r, 0);
    FindAllSound(r, 0);
    NamesShift(head, r, FindAll(r, 0));
    NamesCons(t, m, ShiftAll(FindAll(r, 0), |head|));
  }

  /** An item that runs to the end of the text: its stripped name is the only one. */
  lemma LastItem(d: char, w: char, n: string)
    requires IsDigit(d) && IsSpace(w) && ItemName(n)
    ensures Remedies([d, '.', w] + n) == [Strip(n)]
  {
    var t := [d, '.', w] + n;
    var m := Match(0, 3, 3 + |n|);
    assert t == [d, '.', w] + n + [];
    HeadMatch(d, w, n, []);
    FindAllMatch(t, 0, m);
    NamesCons(t, m, []);
  }

  /** `<digit>.<space><space>-`: `\s+` gives back one space, which is the whole group, so the name is empty. */
  lemma SpacesThenHyphen(d: char, w1: char, w2: char, r: string)
    requires IsDigit(d) && IsSpace(w1) && IsSpace(w2) && w2 != '\n'
    ensures Remedies([d, '.', w1, w2, '-'] + r) == [""] + Remedies(r)
  {
    var head := [d, '.', w1, w2, '-'];
    var t := head + r;
    var m := Match(0, 3, 4);
    assert t[..5] == head;
    assert WsEnd(t, 4) == 4 && WsEnd(t, 2) == 4;
    assert !CanCapture(t, 4) && CanCapture(t, 3);
    assert BackOff(t, 3, 4) == Some(3);
    CapEndIs(t, 3, 4);
    FindAllMatch(t, 0, m);
    assert FindAll(t, 4) == FindAll(t, |head|);
    FindAllShift(head, r, 0);
    FindAllSound(r, 0);
    NamesShift(head, r, FindAll(r, 0));
    NamesCons(t, m, ShiftAll(FindAll(r, 0), |head|));
    assert Group(t, m) == [w2];
    assert TrimStart([w2]) == [];
  }

  /** `<digit>.<space>-`: the one whitespace character cannot be given back, so nothing matches there. */
  lemma SpaceThenHyphen(d: char, w: char, r: string)
    requires IsDigit(d) && IsSpace(w)
    ensures Remedies([d, '.', w, '-'] + r) == Remedies(r)
  {
    var head := [d, '.', w, '-'];
    var t := head + r;
    assert t[..4] == head;
    assert WsEnd(t, 3) == 3 && WsEnd(t, 2) == 3;
    assert !CanCapture(t, 3);
    assert BackOff(t, 3, 3) == None;
    assert NoMatchBetween(t, 0, |head|) by {
      forall q: nat | q < |head| ensures MatchAt(t, q).None? {
        if q > 0 {
          assert !IsDigit(t[q]);
        }
      }
    }
    SkipPrefix(head, r);
  }

  /** A list label: one or more decimal digits. */
  predicate IsLabel(ds: string) {
    ds != [] && forall k :: 0 <= k < |ds| ==> IsDigit(ds[k])
  }

  /**
   * An item labelled with any number of digits: only the last digit starts the match,
   * because after each earlier digit comes a digit and not a `.`.
   */
  lemma LabelledItemThenRest(ds: string, n: string, r: string)
    requires IsLabel(ds) && ItemName(n) && !IsSpace(n[|n| - 1])
    ensures Remedies(ds + ". " + n + "\n" + r) == [n] + Remedies(r)
  {
    var p, d := ds[..|ds| - 1], ds[|ds| - 1];
    var rest := [d, '.', ' '] + n + ['\n'] + r;
    var t := ds + ". " + n + "\n" + r;
    assert ds == p + [d];
    assert t == p + rest;
    forall q: nat | q < |p| ensures MatchAt(t, q).None? {
      assert t[q + 1] == ds[q + 1];
      assert !ItemMarker(t, q);
    }
    SkipPrefix(p, rest);
    ItemThenRest(d, ' ', n, '\n', r);
    StripFixedPoint(n);
  }

  /** Lines `<label>. <name>\n`, one per name. */
  function NumberedLines(labels: seq<string>, names: seq<string>): string
    requires |labels| == |names|
  {
    if names == [] then []
    else labels[0] + ". " + names[0] + "\n" + NumberedLines(labels[1..], names[1..])
  }

  /**
   * Well-formed numbered lines, one item per line with no hyphen in a name, yield
   * exactly their names, in order, whatever the labels are.
   */
  lemma {:induction false} NumberedLinesExtract(labels: seq<string>, names: seq<string>)
    requires |labels| == |names|
    requires forall k :: 0 <= k < |labels| ==> IsLabel(labels[k])
    requires forall k :: 0 <= k < |names| ==> ItemName(names[k]) && !IsSpace(names[k][|names[k]| - 1])
    ensures Remedies(NumberedLines(labels, names)) == names
    decreases |names|
  {
    if names == [] {
      assert Remedies([]) == [] by {
        NoMatchFindsNothing([], 0);
      }
    } else {
      LabelledItemThenRest(labels[0], names[0], NumberedLines(labels[1..], names[1..]));
      NumberedLinesExtract(labels[1..], names[1..]);
      assert names == [names[0]] + names[1..];
    }
  }
}
