/**
 * The remedy-name extractor of `MediAIAssistant.extract_remedies`: every match of the
 * regular expression `\d\.\s+([^-\n]+)` found by Python's `re.finditer`, in order,
 * with its capture group passed through `strip()`.
 *
 * The regex engine is modelled in three layers:
 *  - `Parses` says declaratively when the pattern can match at a position with a
 *    given capture group;
 *  - `MatchAt` is the match the backtracking engine picks there (greedy `\s+` first,
 *    then greedy capture), proved to be the priority-maximal parse (`MatchAtSpec`);
 *  - `FindAll` is `finditer`: try each position from left to right, and after a match
 *    resume where it ended; `IsLeftmostScan` characterises it (`FindAllIsLeftmostScan`,
 *    `LeftmostScanUnique`).
 */
module RemedyExtractor {
  import opened Wrappers
  import opened Text

  /** A match: the digit at `begin`, and the capture group `t[capStart..capEnd]`,
      which is also where the whole match ends. */
  datatype Match = Match(begin: nat, capStart: nat, capEnd: nat)

  /** Characters outside the class `[^-\n]`. */
  predicate IsStop(c: char) {
    c == '-' || c == '\n'
  }

  /** The capture group can begin at index `x`. */
  predicate CanCapture(t: string, x: int) {
    0 <= x < |t| && !IsStop(t[x])
  }

  predicate SpacesBetween(t: string, lo: nat, hi: nat)
    requires lo <= hi <= |t|
  {
    forall x :: lo <= x < hi ==> IsSpace(t[x])
  }

  predicate NoStopBetween(t: string, lo: nat, hi: nat)
    requires lo <= hi <= |t|
  {
    forall x :: lo <= x < hi ==> !IsStop(t[x])
  }

  /**
   * One way `\d\.\s+([^-\n]+)` matches at `i` with group `t[c..e]`: a digit, a dot,
   * at least one whitespace character up to `c`, then at least one character that is
   * neither `-` nor a newline up to `e`.
   */
  predicate Parses(t: string, i: nat, c: nat, e: nat) {
    i + 3 <= c < e <= |t| && IsDigit(t[i]) && t[i + 1] == '.'
    && SpacesBetween(t, i + 2, c) && NoStopBetween(t, c, e)
  }

  /** A digit, a dot and a whitespace character start at `i`: where a match may begin. */
  predicate ItemMarker(t: string, i: nat) {
    i + 2 < |t| && IsDigit(t[i]) && t[i + 1] == '.' && IsSpace(t[i + 2])
  }

  /** The end of the whitespace run starting at `j` (greedy `\s+`). */
  function WsEnd(t: string, j: nat): nat
    requires j <= |t|
    decreases |t| - j
  {
    if j < |t| && IsSpace(t[j]) then WsEnd(t, j + 1) else j
  }

  /** `WsEnd` stops at the first non-whitespace character from `j`, or at the end. */
  lemma {:induction false} WsEndSpec(t: string, j: nat)
    requires j <= |t|
    ensures j <= WsEnd(t, j) <= |t| && SpacesBetween(t, j, WsEnd(t, j))
    ensures WsEnd(t, j) == |t| || !IsSpace(t[WsEnd(t, j)])
    decreases |t| - j
  {
    if j < |t| && IsSpace(t[j]) {
      WsEndSpec(t, j + 1);
    }
  }

  /**
   * Backtracking of `\s+` into `[^-\n]+`: the largest `c` in `[lo, hi]` at which the
   * capture group can begin, if any.
   */
  function BackOff(t: string, lo: nat, hi: nat): Option<nat>
    requires lo <= hi
    decreases hi
  {
    if CanCapture(t, hi) then Some(hi)
    else if hi == lo then None
    else BackOff(t, lo, hi - 1)
  }

  /** `BackOff` finds the largest capturable position of `[lo, hi]`, or reports that there is none. */
  lemma {:induction false} BackOffSpec(t: string, lo: nat, hi: nat)
    requires lo <= hi
    ensures BackOff(t, lo, hi).Some? ==>
              var c := BackOff(t, lo, hi).value;
              lo <= c <= hi && CanCapture(t, c) && forall x :: c < x <= hi ==> !CanCapture(t, x)
    ensures BackOff(t, lo, hi).None? ==> forall x :: lo <= x <= hi ==> !CanCapture(t, x)
    decreases hi
  {
    if !CanCapture(t, hi) && hi != lo {
      BackOffSpec(t, lo, hi - 1);
    }
  }

  /** The end of the greedy capture `[^-\n]+` started at `c`: the first `-` or newline, or the end. */
  function CapEnd(t: string, c: nat): nat
    requires c <= |t|
    decreases |t| - c
  {
    if c < |t| && !IsStop(t[c]) then CapEnd(t, c + 1) else c
  }

  /** `CapEnd` stops at the first stop character from `c`, or at the end. */
  lemma {:induction false} CapEndSpec(t: string, c: nat)
    requires c <= |t|
    ensures c <= CapEnd(t, c) <= |t| && NoStopBetween(t, c, CapEnd(t, c))
    ensures CapEnd(t, c) == |t| || IsStop(t[CapEnd(t, c)])
    decreases |t| - c
  {
    if c < |t| && !IsStop(t[c]) {
      CapEndSpec(t, c + 1);
    }
  }

  /** A match is well formed: a non-empty group with no stop character, inside `t`. */
  predicate WellFormed(t: string, m: Match) {
    m.begin + 3 <= m.capStart < m.capEnd <= |t| && NoStopBetween(t, m.capStart, m.capEnd)
  }

  /** The match the regex engine finds when it tries position `i`, if any. */
  function MatchAt(t: string, i: nat): Option<Match> {
    if !ItemMarker(t, i) then None
    else
      WsEndSpec(t, i + 2);
      var w := WsEnd(t, i + 2);
      BackOffSpec(t, i + 3, w);
      match BackOff(t, i + 3, w)
      case None => None
      case Some(c) => Some(Match(i, c, CapEnd(t, c)))
  }

  /** A match found at `i` starts at a marker at `i` and is well formed, its group running to the first stop. */
  lemma MatchAtSound(t: string, i: nat)
    ensures MatchAt(t, i).Some? ==>
              var m := MatchAt(t, i).value;
              m.begin == i && ItemMarker(t, i) && WellFormed(t, m) && m.capEnd == CapEnd(t, m.capStart)
  {
    if ItemMarker(t, i) {
      WsEndSpec(t, i + 2);
      var w := WsEnd(t, i + 2);
      BackOffSpec(t, i + 3, w);
      match BackOff(t, i + 3, w)
      case None =>
      case Some(c) =>
        CapEndSpec(t, c);
    }
  }

  /** The greedy whitespace run from `j` reaches past every all-whitespace stretch from `j`. */
  lemma {:induction false} WsEndCovers(t: string, j: nat, c: nat)
    requires j <= c <= |t| && SpacesBetween(t, j, c)
    ensures c <= WsEnd(t, j)
    decreases c - j
  {
    WsEndSpec(t, j);
    if j < c {
      assert IsSpace(t[j]);
      WsEndCovers(t, j + 1, c);
    }
  }

  /** The greedy capture from `c` reaches past every stretch from `c` without a stop character. */
  lemma {:induction false} CapEndCovers(t: string, c: nat, e: nat)
    requires c <= e <= |t| && NoStopBetween(t, c, e)
    ensures e <= CapEnd(t, c)
    decreases e - c
  {
    CapEndSpec(t, c);
    if c < e {
      assert !IsStop(t[c]);
      CapEndCovers(t, c + 1, e);
    }
  }

  /** Every parse at `i` needs a marker at `i`, and its group starts inside the greedy
      whitespace run or just after it, at a character the group can hold. */
  lemma ParseBounds(t: string, i: nat, c: nat, e: nat)
    requires Parses(t, i, c, e)
    ensures ItemMarker(t, i)
    ensures i + 3 <= c <= WsEnd(t, i + 2) && CanCapture(t, c)
  {
    assert IsSpace(t[i + 2]);
    WsEndCovers(t, i + 2, c);
  }

  /**
   * `MatchAt` is the regex's match at `i`: it fails exactly when no parse exists, and
   * otherwise it is a parse that the engine's priority prefers to every other one
   * (longest whitespace run first, then longest capture).
   */
  lemma MatchAtSpec(t: string, i: nat)
    ensures MatchAt(t, i).None? <==> forall c: nat, e: nat :: !Parses(t, i, c, e)
    ensures MatchAt(t, i).Some? ==>
              var m := MatchAt(t, i).value;
              m.begin == i && Parses(t, i, m.capStart, m.capEnd)
              && forall c: nat, e: nat :: Parses(t, i, c, e) ==>
                   c < m.capStart || (c == m.capStart && e <= m.capEnd)
  {
    forall c: nat, e: nat | Parses(t, i, c, e)
      ensures ItemMarker(t, i) && i + 3 <= c <= WsEnd(t, i + 2) && CanCapture(t, c)
    {
      ParseBounds(t, i, c, e);
    }
    if ItemMarker(t, i) {
      WsEndSpec(t, i + 2);
      var w := WsEnd(t, i + 2);
      BackOffSpec(t, i + 3, w);
      match BackOff(t, i + 3, w)
      case None =>
      case Some(c0) =>
        CapEndSpec(t, c0);
        var e0 := CapEnd(t, c0);
        assert SpacesBetween(t, i + 2, c0);
        assert Parses(t, i, c0, e0);
        forall c: nat, e: nat | Parses(t, i, c, e)
          ensures c < c0 || (c == c0 && e <= e0)
        {
          if c == c0 {
            CapEndCovers(t, c0, e);
          }
        }
    }
  }

  /** `re.finditer` from position `pos`: the matches in text order. */
  function FindAll(t: string, pos: nat): seq<Match>
    decreases |t| - pos
  {
    if pos >= |t| then []
    else
      match MatchAt(t, pos)
      case None => FindAll(t, pos + 1)
      case Some(m) =>
        MatchAtSound(t, pos);
        [m] + FindAll(t, m.capEnd)
  }

  /** Every match the scan from `pos` finds is well formed and lies at or after `pos`. */
  lemma {:induction false} FindAllSound(t: string, pos: nat)
    ensures forall k :: 0 <= k < |FindAll(t, pos)| ==>
              pos <= FindAll(t, pos)[k].begin && WellFormed(t, FindAll(t, pos)[k])
    decreases |t| - pos
  {
    if pos < |t| {
      MatchAtSound(t, pos);
      match MatchAt(t, pos)
      case None =>
        FindAllSound(t, pos + 1);
      case Some(m) =>
        FindAllSound(t, m.capEnd);
        var ms := FindAll(t, pos);
        assert ms == [m] + FindAll(t, m.capEnd);
        forall k | 0 <= k < |ms| ensures pos <= ms[k].begin && WellFormed(t, ms[k]) {
          if k > 0 {
            assert ms[k] == FindAll(t, m.capEnd)[k - 1];
          }
        }
    }
  }

  /** `match.group(1)`. */
  function Group(t: string, m: Match): string
    requires m.capStart <= m.capEnd <= |t|
  {
    t[m.capStart..m.capEnd]
  }

  predicate AllWellFormed(t: string, ms: seq<Match>) {
    forall k :: 0 <= k < |ms| ==> WellFormed(t, ms[k])
  }

  /** The stripped groups of the matches `ms`, in order. */
  function Names(t: string, ms: seq<Match>): seq<string>
    requires AllWellFormed(t, ms)
  {
    seq(|ms|, k requires 0 <= k < |ms| && AllWellFormed(t, ms) => Strip(Group(t, ms[k])))
  }

  /** What `extract_remedies(text)` returns. */
  function Remedies(t: string): seq<string> {
    FindAllSound(t, 0);
    Names(t, FindAll(t, 0))
  }

  /** One match found at `pos` extends the matches so far and their names by one. */
  lemma ScanStep(t: string, pos: nat, found: seq<Match>, m: Match)
    requires pos < |t| && MatchAt(t, pos) == Some(m)
    requires AllWellFormed(t, found)
    ensures WellFormed(t, m) && AllWellFormed(t, found + [m])
    ensures found + FindAll(t, pos) == (found + [m]) + FindAll(t, m.capEnd)
    ensures Names(t, found + [m]) == Names(t, found) + [Strip(Group(t, m))]
  {
    MatchAtSound(t, pos);
    assert (found + [m])[..|found|] == found;
  }

  /** `extract_remedies`: scan the text as `re.finditer` does and append each stripped group. */
  method ExtractRemedies(text: string) returns (remedies: seq<string>)
    ensures remedies == Remedies(text)
  {
    remedies := [];
    var pos := 0;
    ghost var found: seq<Match> := [];
    while pos < |text|
      invariant AllWellFormed(text, found)
      invariant found + FindAll(text, pos) == FindAll(text, 0)
      invariant remedies == Names(text, found)
      decreases |text| - pos
    {
      var r := MatchAt(text, pos);
      if r.None? {
        pos := pos + 1;
      } else {
        var m := r.value;
        MatchAtSound(text, pos);
        ScanStep(text, pos, found, m);
        remedies := remedies + [Strip(Group(text, m))];
        found := found + [m];
        pos := m.capEnd;
      }
    }
    assert FindAll(text, pos) == [];
    assert found == FindAll(text, 0);
  }

  /** `finditer` resumes where the previous match ended, or at `from` for the first one. */
  function ResumeAt(ms: seq<Match>, from: nat, k: nat): nat
    requires k <= |ms|
  {
    if k == 0 then from else ms[k - 1].capEnd
  }

  /** The engine finds no match at any position of `[lo, hi)`. */
  predicate NoMatchBetween(t: string, lo: nat, hi: nat) {
    forall p: nat :: lo <= p < hi ==> MatchAt(t, p).None?
  }

  /** `m` is the match found when the scan resumes at `resume`. */
  predicate NextMatch(t: string, resume: nat, m: Match) {
    MatchAt(t, m.begin) == Some(m) && resume <= m.begin && NoMatchBetween(t, resume, m.begin)
  }

  /**
   * `ms` is what a left-to-right scan from `from` finds: each element is the match at
   * its own position, it lies at or after the point where the scan resumed, no
   * position skipped on the way matches, and nothing after the last one matches.
   */
  predicate IsLeftmostScan(t: string, from: nat, ms: seq<Match>) {
    (forall k :: 0 <= k < |ms| ==> ScanStepAt(t, from, ms, k))
    && NoMatchBetween(t, ResumeAt(ms, from, |ms|), |t|)
  }

  /** The `k`-th element of `ms` is the match found after resuming behind the one before. */
  predicate ScanStepAt(t: string, from: nat, ms: seq<Match>, k: nat)
    requires k < |ms|
  {
    NextMatch(t, ResumeAt(ms, from, k), ms[k])
  }

  lemma ResumeAtCons(from: nat, m: Match, rest: seq<Match>, k: nat)
    requires 1 <= k <= |rest| + 1
    ensures ResumeAt([m] + rest, from, k) == ResumeAt(rest, m.capEnd, k - 1)
  {
  }

  /** A scan is its first match followed by a scan from where that match ended. */
  lemma ScanConsIntro(t: string, from: nat, m: Match, rest: seq<Match>)
    requires NextMatch(t, from, m) && IsLeftmostScan(t, m.capEnd, rest)
    ensures IsLeftmostScan(t, from, [m] + rest)
  {
    var ms := [m] + rest;
    forall k | 0 <= k < |ms|
      ensures ScanStepAt(t, from, ms, k)
    {
      if k > 0 {
        ResumeAtCons(from, m, rest, k);
        assert ms[k] == rest[k - 1];
        assert ScanStepAt(t, m.capEnd, rest, k - 1);
      }
    }
    ResumeAtCons(from, m, rest, |ms|);
    assert NoMatchBetween(t, ResumeAt(ms, from, |ms|), |t|);
  }

  /** The converse of `ScanConsIntro`. */
  lemma ScanConsElim(t: string, from: nat, m: Match, rest: seq<Match>)
    requires IsLeftmostScan(t, from, [m] + rest)
    ensures NextMatch(t, from, m) && IsLeftmostScan(t, m.capEnd, rest)
  {
    var ms := [m] + rest;
    assert ScanStepAt(t, from, ms, 0);
    forall k | 0 <= k < |rest|
      ensures ScanStepAt(t, m.capEnd, rest, k)
    {
      ResumeAtCons(from, m, rest, k + 1);
      assert ms[k + 1] == rest[k];
      assert ScanStepAt(t, from, ms, k + 1);
    }
    ResumeAtCons(from, m, rest, |ms|);
    assert NoMatchBetween(t, ResumeAt(rest, m.capEnd, |rest|), |t|);
  }

  /** A position where nothing matches can be added in front of a scan. */
  lemma ScanSkip(t: string, from: nat, ms: seq<Match>)
    requires MatchAt(t, from).None? && IsLeftmostScan(t, from + 1, ms)
    ensures IsLeftmostScan(t, from, ms)
  {
    if ms == [] {
      NoMatchExtend(t, from, |t|);
    } else {
      assert ScanStepAt(t, from + 1, ms, 0);
      NoMatchExtend(t, from, ms[0].begin);
      assert ScanStepAt(t, from, ms, 0);
      forall k | 0 <= k < |ms|
        ensures ScanStepAt(t, from, ms, k)
      {
        if k > 0 {
          assert ScanStepAt(t, from + 1, ms, k);
        }
      }
      assert ResumeAt(ms, from, |ms|) == ResumeAt(ms, from + 1, |ms|);
    }
  }

  lemma NoMatchExtend(t: string, from: nat, hi: nat)
    requires MatchAt(t, from).None? && NoMatchBetween(t, from + 1, hi)
    ensures NoMatchBetween(t, from, hi)
  {
  }

  /** `FindAll` is a leftmost, non-overlapping scan. */
  lemma {:induction false} FindAllIsLeftmostScan(t: string, from: nat)
    ensures IsLeftmostScan(t, from, FindAll(t, from))
    decreases |t| - from
  {
    if from >= |t| {
      assert FindAll(t, from) == [];
    } else {
      match MatchAt(t, from)
      case None =>
        FindAllIsLeftmostScan(t, from + 1);
        ScanSkip(t, from, FindAll(t, from + 1));
      case Some(m) =>
        MatchAtSound(t, from);
        FindAllIsLeftmostScan(t, m.capEnd);
        assert NextMatch(t, from, m);
        ScanConsIntro(t, from, m, FindAll(t, m.capEnd));
    }
  }

  /** Skipping positions where nothing matches does not change the scan. */
  lemma {:induction false} SkipNoMatch(t: string, from: nat, b: nat)
    requires from <= b && NoMatchBetween(t, from, b)
    ensures FindAll(t, from) == FindAll(t, b)
    decreases b - from
  {
    if from < b {
      SkipNoMatch(t, from + 1, b);
    }
  }

  /** A scan over a stretch where nothing matches finds nothing. */
  lemma NoMatchFindsNothing(t: string, from: nat)
    requires NoMatchBetween(t, from, |t|)
    ensures FindAll(t, from) == []
  {
    if from < |t| {
      SkipNoMatch(t, from, |t|);
    }
  }

  /** A leftmost scan is unique: it is exactly what `FindAll` returns. */
  lemma {:induction false} LeftmostScanUnique(t: string, from: nat, ms: seq<Match>)
    requires IsLeftmostScan(t, from, ms)
    ensures ms == FindAll(t, from)
    decreases |ms|
  {
    if ms == [] {
      NoMatchFindsNothing(t, from);
    } else {
      var m, rest := ms[0], ms[1..];
      assert ms == [m] + rest;
      ScanConsElim(t, from, m, rest);
      SkipNoMatch(t, from, m.begin);
      LeftmostScanUnique(t, m.capEnd, rest);
    }
  }

  /** A remedy name holds no hyphen and no newline and has no surrounding whitespace. */
  predicate CleanName(r: string) {
    '-' !in r && '\n' !in r && (r == [] || (!IsSpace(r[0]) && !IsSpace(r[|r| - 1])))
  }

  /** The stripped group of a well-formed match is a clean name. */
  lemma GroupNameClean(t: string, m: Match)
    requires WellFormed(t, m)
    ensures CleanName(Strip(Group(t, m)))
  {
    var g := Group(t, m);
    StripSpec(g);
    forall c | c in Strip(g) ensures c in g {
      StripChars(g, c);
    }
    forall c | c in g ensures !IsStop(c) {
      var x :| 0 <= x < |g| && g[x] == c;
      assert t[m.capStart + x] == c;
    }
  }

  /** Every name `extract_remedies` returns is clean (it may be empty). */
  lemma RemedyNamesClean(t: string)
    ensures forall k :: 0 <= k < |Remedies(t)| ==> CleanName(Remedies(t)[k])
  {
    var ms := FindAll(t, 0);
    FindAllSound(t, 0);
    forall k | 0 <= k < |Remedies(t)| ensures CleanName(Remedies(t)[k]) {
      GroupNameClean(t, ms[k]);
    }
  }

  /** The number of digit-dot-whitespace markers at positions `from` onwards. */
  function MarkersFrom(t: string, from: nat): nat
    decreases |t| - from
  {
    if from >= |t| then 0
    else (if ItemMarker(t, from) then 1 else 0) + MarkersFrom(t, from + 1)
  }

  lemma {:induction false} MarkersMonotone(t: string, a: nat, b: nat)
    requires a <= b
    ensures MarkersFrom(t, b) <= MarkersFrom(t, a)
    decreases b - a
  {
    if a < b {
      MarkersMonotone(t, a + 1, b);
    }
  }

  /** Each match uses up its own marker, so there are no more matches than markers. */
  lemma {:induction false} FindAllAtMostMarkers(t: string, from: nat)
    ensures |FindAll(t, from)| <= MarkersFrom(t, from)
    decreases |t| - from
  {
    if from < |t| {
      match MatchAt(t, from)
      case None =>
        FindAllAtMostMarkers(t, from + 1);
      case Some(m) =>
        MatchAtSound(t, from);
        FindAllAtMostMarkers(t, m.capEnd);
        MarkersMonotone(t, from + 1, m.capEnd);
    }
  }

  /** There are at most as many remedy names as digit-dot-whitespace markers in the text. */
  lemma RemediesAtMostMarkers(t: string)
    ensures |Remedies(t)| <= MarkersFrom(t, 0)
  {
    FindAllAtMostMarkers(t, 0);
  }

  /** Text without a digit-dot-whitespace marker yields no names, never an error. */
  lemma NoMarkerNoRemedies(t: string)
    requires forall i: nat :: !ItemMarker(t, i)
    ensures Remedies(t) == []
  {
    NoMatchFindsNothing(t, 0);
  }

  /** A match found at `pos` heads the scan from `pos`. */
  lemma FindAllMatch(t: string, pos: nat, m: Match)
    requires MatchAt(t, pos) == Some(m)
    ensures FindAll(t, pos) == [m] + FindAll(t, m.capEnd)
  {
  }

  /** No match at `pos`: the scan goes on from the next position. */
  lemma FindAllSkip(t: string, pos: nat)
    requires pos < |t| && MatchAt(t, pos).None?
    ensures FindAll(t, pos) == FindAll(t, pos + 1)
  {
  }

  /** No digit from `lo` on: the scan from `lo` finds nothing. */
  lemma FindAllNoDigit(t: string, lo: nat)
    requires forall p :: lo <= p < |t| ==> !IsDigit(t[p])
    ensures FindAll(t, lo) == []
  {
    NoMatchFindsNothing(t, lo);
  }

  /** The group ends at the first stop character after it begins. */
  lemma {:induction false} CapEndIs(t: string, c: nat, e: nat)
    requires c <= e <= |t| && NoStopBetween(t, c, e) && (e == |t| || IsStop(t[e]))
    ensures CapEnd(t, c) == e
    decreases e - c
  {
    if c < e {
      assert !IsStop(t[c]);
      CapEndIs(t, c + 1, e);
    }
  }

  /** A marker followed by one whitespace character and a character the group can hold. */
  lemma MatchAtOneSpace(t: string, i: nat, e: nat)
    requires ItemMarker(t, i) && i + 3 < |t| && !IsSpace(t[i + 3]) && !IsStop(t[i + 3])
    requires i + 3 <= e <= |t| && NoStopBetween(t, i + 3, e) && (e == |t| || IsStop(t[e]))
    ensures MatchAt(t, i) == Some(Match(i, i + 3, e))
  {
    assert WsEnd(t, i + 3) == i + 3;
    CapEndIs(t, i + 3, e);
  }
}
