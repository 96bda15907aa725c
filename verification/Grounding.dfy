/** Post-response grounding: numeric claims in a text and the warning they may call for. */
module Grounding {
  import opened Prelude
  import opened Text

  // One regular-expression match in a text: a non-empty span, the number and the unit it names.
  datatype Match = Match(start: nat, end: nat, value: real, unit: string)

  datatype NumericClaim = NumericClaim(start: nat, end: nat, text: string, value: real, unit: string, safe: bool)

  /** The two claim patterns, the safe-context test, the solver-backed tool names and the warning text. */
  datatype Grounder = Grounder(
    unitMatches: string -> seq<Match>,
    capacityMatches: string -> seq<Match>,
    isSafe: (string, Match) -> bool,
    capableTools: set<string>,
    warning: string)

  ghost predicate NonEmptyMatches(g: Grounder, text: string) {
    forall m | m in g.unitMatches(text) + g.capacityMatches(text) :: m.start < m.end
  }

  predicate Overlaps(a: Match, b: Match) { a.start < b.end && b.start < a.end }

  predicate OverlapsAny(m: Match, seen: seq<Match>) { exists s | s in seen :: Overlaps(m, s) }

  /** Matches kept by the scan: each one that overlaps none kept before it. */
  function Kept(matches: seq<Match>): (r: seq<Match>)
    ensures forall m | m in r :: m in matches
  {
    if matches == [] then []
    else
      var front, last := matches[..|matches| - 1], matches[|matches| - 1];
      assert matches == front + [last];
      if OverlapsAny(last, Kept(front)) then Kept(front) else Kept(front) + [last]
  }

  lemma KeptNext(before: seq<Match>, matches: seq<Match>, k: nat)
    requires k < |matches|
    ensures var kept := Kept(before + matches[..k]);
      Kept(before + matches[..k + 1]) == if OverlapsAny(matches[k], kept) then kept else kept + [matches[k]]
  {
    assert before + matches[..k + 1] == before + matches[..k] + [matches[k]];
    assert (before + matches[..k] + [matches[k]])[..|before| + k] == before + matches[..k];
  }

  function ClaimOf(g: Grounder, text: string): Match -> NumericClaim {
    (m: Match) => NumericClaim(m.start, m.end, Slice(text, m.start, m.end), m.value, m.unit, g.isSafe(text, m))
  }

  /** `text[a:b]` */
  function Slice(text: string, a: nat, b: nat): string {
    if a <= b <= |text| then text[a..b] else if a <= |text| < b then text[a..] else ""
  }

  function ClaimLe(a: NumericClaim, b: NumericClaim): bool {
    a.start < b.start || (a.start == b.start && a.end <= b.end)
  }

  /** The matches of both patterns that make claims. */
  function Listed(g: Grounder, text: string): seq<Match> { Kept(g.unitMatches(text) + g.capacityMatches(text)) }

  function Claims(g: Grounder, text: string): seq<NumericClaim> {
    Sort(Map(Listed(g, text), ClaimOf(g, text)), ClaimLe)
  }

  /** One pattern's loop of `find_numeric_claims`, continuing after `before`. */
  method ScanMatches(g: Grounder, text: string, ghost before: seq<Match>, matches: seq<Match>, seen: seq<Match>, claims: seq<NumericClaim>)
    returns (seen': seq<Match>, claims': seq<NumericClaim>)
    requires seen == Kept(before) && claims == Map(seen, ClaimOf(g, text))
    ensures seen' == Kept(before + matches) && claims' == Map(seen', ClaimOf(g, text))
  {
    seen', claims' := seen, claims;
    assert before + matches[..0] == before;
    for k := 0 to |matches|
      invariant seen' == Kept(before + matches[..k])
      invariant claims' == Map(seen', ClaimOf(g, text))
    {
      var m := matches[k];
      KeptNext(before, matches, k);
      MapSnoc(seen', m, ClaimOf(g, text));
      if !OverlapsAny(m, seen') {
        seen' := seen' + [m];
        claims' := claims' + [NumericClaim(m.start, m.end, Slice(text, m.start, m.end), m.value, m.unit, g.isSafe(text, m))];
      }
    }
    assert matches[..|matches|] == matches;
  }

  method FindNumericClaims(g: Grounder, text: string) returns (claims: seq<NumericClaim>)
    ensures claims == Claims(g, text)
  {
    var seen;
    seen, claims := ScanMatches(g, text, [], g.unitMatches(text), [], []);
    assert [] + g.unitMatches(text) == g.unitMatches(text);
    seen, claims := ScanMatches(g, text, g.unitMatches(text), g.capacityMatches(text), seen, claims);
    claims := Sort(claims, ClaimLe);
  }

  ghost predicate Apart(s: seq<Match>) {
    forall i, j | 0 <= i < j < |s| :: !Overlaps(s[i], s[j])
  }

  lemma {:induction false} KeptApart(matches: seq<Match>)
    ensures Apart(Kept(matches))
  {
    if matches != [] {
      var front, last := matches[..|matches| - 1], matches[|matches| - 1];
      KeptApart(front);
      assert !OverlapsAny(last, Kept(front)) ==> forall i | 0 <= i < |Kept(front)| :: !Overlaps(last, Kept(front)[i]);
    }
  }

  lemma {:induction false} KeptCovers(matches: seq<Match>, m: Match)
    requires m in matches && m.start < m.end
    ensures OverlapsAny(m, Kept(matches))
  {
    var front, last := matches[..|matches| - 1], matches[|matches| - 1];
    assert matches == front + [last];
    if m == last {
      assert Overlaps(m, m);
      assert OverlapsAny(m, Kept(front)) || m in Kept(matches);
    } else {
      KeptCovers(front, m);
      var s :| s in Kept(front) && Overlaps(m, s);
      assert s in Kept(matches);
    }
  }

  /** The claims of a text come in order of position and do not overlap. */
  lemma ClaimsDisjoint(g: Grounder, text: string, i: nat, j: nat)
    requires NonEmptyMatches(g, text) && i < j < |Claims(g, text)|
    ensures Claims(g, text)[i].end <= Claims(g, text)[j].start
  {
    var kept := Kept(g.unitMatches(text) + g.capacityMatches(text));
    KeptApart(g.unitMatches(text) + g.capacityMatches(text));
    var claims := Map(kept, ClaimOf(g, text));
    assert forall k | 0 <= k < |kept| :: kept[k] in kept;
    SortOrdered(claims, ClaimLe);
    SortedApart(claims, Claims(g, text));
  }

  ghost predicate ClaimsApart(s: seq<NumericClaim>) {
    && (forall i | 0 <= i < |s| :: s[i].start < s[i].end)
    && forall i, j | 0 <= i < j < |s| :: s[i].end <= s[j].start || s[j].end <= s[i].start
  }

  // Disjoint non-empty spans are pairwise different, so sorting puts each before the next.
  lemma SortedApart(s: seq<NumericClaim>, sorted: seq<NumericClaim>)
    requires ClaimsApart(s) && Ordered(sorted, ClaimLe) && multiset(sorted) == multiset(s)
    ensures forall i, j | 0 <= i < j < |sorted| :: sorted[i].end <= sorted[j].start
  {
    SameMultiset(sorted, s);
    DistinctMultiset(s);
    DistinctMultiset(sorted);
    assert Distinct(s);
    forall i, j | 0 <= i < j < |sorted| ensures sorted[i].end <= sorted[j].start {
      assert ClaimLe(sorted[i], sorted[j]) && sorted[i] != sorted[j];
      assert sorted[i] in s && sorted[j] in s;
      var a :| 0 <= a < |s| && s[a] == sorted[i];
      var b :| 0 <= b < |s| && s[b] == sorted[j];
    }
  }

  /** The claim says what the match found: its span, the text there, the number, the unit and whether the context is safe. */
  ghost predicate Reports(g: Grounder, text: string, c: NumericClaim, m: Match) {
    && c.start == m.start && c.end == m.end && c.value == m.value && c.unit == m.unit
    && (m.start <= m.end <= |text| ==> c.text == text[m.start..m.end]) && c.safe == g.isSafe(text, m)
  }

  /** Every claim reports a listed match, a match of one of the two patterns ... */
  lemma MatchOfClaim(g: Grounder, text: string, c: NumericClaim) returns (m: Match)
    requires c in Claims(g, text)
    ensures m in Listed(g, text) && m in g.unitMatches(text) + g.capacityMatches(text) && Reports(g, text, c, m)
  {
    var listed := Listed(g, text);
    var claims := Map(listed, ClaimOf(g, text));
    var i :| 0 <= i < |claims| && claims[i] == c;
    m := listed[i];
    assert m in listed && c.text == Slice(text, m.start, m.end);
  }

  /** ... and every listed match is reported, as often as it is listed. */
  lemma ClaimOfMatch(g: Grounder, text: string, m: Match) returns (c: NumericClaim)
    requires m in Listed(g, text)
    ensures c in Claims(g, text) && Reports(g, text, c, m) && |Claims(g, text)| == |Listed(g, text)|
  {
    var listed := Listed(g, text);
    var claims := Map(listed, ClaimOf(g, text));
    var i :| 0 <= i < |listed| && listed[i] == m;
    c := claims[i];
    assert c in claims && c.text == Slice(text, m.start, m.end);
  }

  /** The scan is greedy: a match is passed over only for one listed earlier that it overlaps, so one that overlaps no
      earlier match is listed. */
  lemma {:induction false} PassedOverOnlyForEarlier(matches: seq<Match>, i: nat)
    requires i < |matches|
    ensures matches[i] in Kept(matches) || exists j :: 0 <= j < i && matches[j] in Kept(matches) && Overlaps(matches[i], matches[j])
  {
    var n := |matches| - 1;
    var front := matches[..n];
    assert matches == front + [matches[n]];
    if i < n {
      PassedOverOnlyForEarlier(front, i);
    } else if OverlapsAny(matches[n], Kept(front)) {
      var s :| s in Kept(front) && Overlaps(matches[n], s);
      var j :| 0 <= j < n && front[j] == s;
      assert matches[j] in Kept(matches);
    }
  }

  /** No two listed matches overlap. */
  lemma ListedApart(g: Grounder, text: string, i: nat, j: nat)
    requires i < j < |Listed(g, text)|
    ensures var a, b := Listed(g, text)[i], Listed(g, text)[j]; a.end <= b.start || b.end <= a.start
  {
    KeptApart(g.unitMatches(text) + g.capacityMatches(text));
  }

  ghost predicate CoversMatch(c: NumericClaim, m: Match) { c.start < m.end && m.start < c.end }

  /** Every match of either pattern overlaps some listed claim, and every claim is a match. */
  lemma ClaimsCoverMatches(g: Grounder, text: string, m: Match)
    requires NonEmptyMatches(g, text) && m in g.unitMatches(text) + g.capacityMatches(text)
    ensures exists c | c in Claims(g, text) :: CoversMatch(c, m)
  {
    var matches := g.unitMatches(text) + g.capacityMatches(text);
    KeptCovers(matches, m);
    var kept := Kept(matches);
    var s :| s in kept && Overlaps(m, s);
    var i :| 0 <= i < |kept| && kept[i] == s;
    var claims := Map(kept, ClaimOf(g, text));
    assert claims[i] in claims && claims[i] in Claims(g, text) && CoversMatch(claims[i], m);
  }

  // ---- the warning ----

  datatype Validation = Validation(
    toolGrounded: bool,
    claims: seq<NumericClaim>,
    ungrounded: seq<NumericClaim>,
    warningAppended: bool,
    outputText: string)

  predicate HasGroundingCredit(g: Grounder, invoked: seq<string>) { exists t | t in invoked :: t in g.capableTools }

  predicate IsUnsafe(c: NumericClaim) { !c.safe }

  function ValidateGrounding(g: Grounder, text: string, invoked: seq<string>): Validation {
    var credit := HasGroundingCredit(g, invoked);
    var claims := Claims(g, text);
    var ungrounded := if credit then [] else Filter(claims, IsUnsafe);
    Validation(credit, claims, ungrounded, ungrounded != [],
      if ungrounded != [] && !Contains(text, g.warning) then RStrip(text) + "\n\n" + g.warning else text)
  }

  /** The output carries the warning exactly when a listed match is not in a safe context and no invoked tool is
      solver-backed; the unsafe claims are then named, and otherwise the text is left alone. */
  lemma GroundedOutput(g: Grounder, text: string, invoked: seq<string>)
    ensures var v := ValidateGrounding(g, text, invoked);
      var unsafe := exists m | m in Listed(g, text) :: !g.isSafe(text, m);
      var credit := exists t | t in invoked :: t in g.capableTools;
      && v.claims == Claims(g, text) && v.toolGrounded == credit
      && (v.warningAppended <==> unsafe && !credit)
      && (forall c :: c in v.ungrounded <==> !credit && c in v.claims && !c.safe)
      && (v.warningAppended ==> Contains(v.outputText, g.warning))
      && (v.outputText == text || (v.warningAppended && !Contains(text, g.warning) && v.outputText == RStrip(text) + "\n\n" + g.warning))
      && (v.warningAppended && !Contains(text, g.warning) ==> v.outputText == RStrip(text) + "\n\n" + g.warning)
  {
    FilterNone(Claims(g, text), IsUnsafe);
    UnsafeClaims(g, text);
    ContainsSuffix(RStrip(text) + "\n\n", g.warning);
  }

  lemma UnsafeClaims(g: Grounder, text: string)
    ensures (exists c | c in Claims(g, text) :: !c.safe) <==> (exists m | m in Listed(g, text) :: !g.isSafe(text, m))
  {
    if c :| c in Claims(g, text) && !c.safe {
      var m := MatchOfClaim(g, text, c);
    }
    if m :| m in Listed(g, text) && !g.isSafe(text, m) {
      var c := ClaimOfMatch(g, text, m);
    }
  }
}
