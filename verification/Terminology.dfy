/** Terminology checks: sentence starts, occurrences, and the merged report. */
module Terminology {
  import opened Wrappers
  import opened Text

  predicate IsPunctuation(c: char) { c == '.' || c == '!' || c == '?' || c == '\U{2026}' }
  predicate IsClosing(c: char) { c == '"' || c == '\'' || c == ')' || c == ']' }
  predicate IsStructure(c: char) { c == '>' || c == '#' || c == '*' || c == '+' || c == '-' }

  // ---- The expression the backward scan replaces ----

  predicate AllSpace(text: string, i: int, j: int)
    requires 0 <= i <= j <= |text|
  {
    forall k :: i <= k < j ==> IsSpace(text[k])
  }

  predicate AllClosing(text: string, i: int, j: int)
    requires 0 <= i <= j <= |text|
  {
    forall k :: i <= k < j ==> text[k] in {'"', '\'', ')', ']'}
  }

  predicate AllStructure(text: string, i: int, j: int)
    requires 0 <= i <= j <= |text|
  {
    forall k :: i <= k < j ==> IsSpace(text[k]) || text[k] in {'>', '#', '*', '+', '-'}
  }

  /** Punctuation at `i`, closing marks up to `m`, then space up to `e`. */
  predicate PunctuationSplit(text: string, i: int, m: int, e: int)
    requires 0 <= i <= e <= |text|
  {
    i < m < e && text[i] in {'.', '!', '?', '\U{2026}'} && AllClosing(text, i + 1, m) && AllSpace(text, m, e)
  }

  /** A newline at `i`, then space and structure characters up to `e`. */
  predicate NewlineSplit(text: string, i: int, e: int)
    requires 0 <= i <= e <= |text|
  {
    i < e && text[i] == '\n' && AllStructure(text, i + 1, e)
  }

  /** One alternative of the expression matches `text[i..e]`. */
  ghost predicate Alternative(text: string, i: int, e: int)
    requires 0 <= i <= e <= |text|
  {
    e == 0 || NewlineSplit(text, i, e) || exists m :: PunctuationSplit(text, i, m, e)
  }

  ghost predicate MatchesUpTo(text: string, e: int)
    requires 0 <= e <= |text|
  {
    exists i :: 0 <= i <= e && Alternative(text, i, e)
  }

  /** The declarative form: a stretch of the prefix matches an alternative and
      reaches the end, or the newline before it, where the anchor also matches. */
  ghost predicate SentenceStartExpression(text: string, start: int)
    requires 0 <= start <= |text|
  {
    MatchesUpTo(text, start) || (start > 0 && text[start - 1] == '\n' && MatchesUpTo(text, start - 1))
  }

  /** The anchor's second chance adds nothing: such a newline matches by itself. */
  lemma AnchorBeforeNewline(text: string, start: int)
    requires 0 <= start <= |text|
    ensures SentenceStartExpression(text, start) <==> MatchesUpTo(text, start)
  {
    if start > 0 && text[start - 1] == '\n' {
      assert NewlineSplit(text, start - 1, start);
      assert Alternative(text, start - 1, start);
    }
  }

  /** Without a newline at the end, only a split ending at `start` can match,
      and its parts are where the second and third loops stop. */
  lemma PunctuationSplitIsFound(text: string, start: int, space: int, closing: int)
    requires 0 <= closing <= space < start <= |text| && text[start - 1] != '\n'
    requires AllSpace(text, space, start) && (space > 0 ==> !IsSpace(text[space - 1]))
    requires AllClosing(text, closing, space) && (closing > 0 ==> !IsClosing(text[closing - 1]))
    ensures (exists i, m :: 0 <= i <= start && PunctuationSplit(text, i, m, start))
       <==> closing > 0 && IsPunctuation(text[closing - 1])
  {
    if closing > 0 && IsPunctuation(text[closing - 1]) {
      assert PunctuationSplit(text, closing - 1, space, start);
    }
    forall i, m | 0 <= i <= start && PunctuationSplit(text, i, m, start)
      ensures closing > 0 && IsPunctuation(text[closing - 1])
    {
      assert !(IsClosing(text[m - 1]) && IsSpace(text[m - 1]));
      assert m == space;
      assert i + 1 == closing;
    }
  }

  /** The two backward scans answer exactly as the expression would. */
  method SentenceStart(text: string, start: nat) returns (r: bool)
    requires start <= |text|
    ensures r == SentenceStartExpression(text, start) == MatchesUpTo(text, start)
  {
    AnchorBeforeNewline(text, start);
    if start == 0 {
      assert Alternative(text, 0, 0);
      return true;
    }
    var index := start;
    var sawNewline := false;
    ghost var newline := -1;
    while index > 0
      invariant 0 <= index <= start && AllStructure(text, index, start)
      invariant sawNewline ==> index <= newline < start && text[newline] == '\n'
      invariant !sawNewline ==> forall k :: index <= k < start ==> text[k] != '\n'
    {
      var c := text[index - 1];
      if c == '\n' {
        sawNewline := true;
        newline := index - 1;
      } else if !(IsSpace(c) || IsStructure(c)) {
        break;
      }
      index := index - 1;
    }
    if sawNewline {
      assert NewlineSplit(text, newline, start);
      assert Alternative(text, newline, start);
      return true;
    }
    index := start;
    while index > 0 && IsSpace(text[index - 1])
      invariant 0 <= index <= start && AllSpace(text, index, start)
    {
      index := index - 1;
    }
    if index == start {
      return false;
    }
    ghost var space := index;
    while index > 0 && IsClosing(text[index - 1])
      invariant 0 <= index <= space && AllClosing(text, index, space)
    {
      index := index - 1;
    }
    PunctuationSplitIsFound(text, start, space, index);
    r := index > 0 && IsPunctuation(text[index - 1]);
    if r {
      assert PunctuationSplit(text, index - 1, space, start);
      assert Alternative(text, index - 1, start);
    }
  }

  // ---- Casing ----

  function UpperChar(c: char): char {
    if 'a' <= c <= 'z' then c - 'a' + 'A' else c
  }

  function Capitalized(preferred: string): string {
    if preferred == "" then "" else [UpperChar(preferred[0])] + preferred[1..]
  }

  /** The preferred spelling, or its capitalised form where one is expected. */
  ghost predicate CasingFine(text: string, start: int, matched: string, preferred: string)
    requires 0 <= start <= |text|
  {
    matched == preferred || (matched == Capitalized(preferred) && MatchesUpTo(text, start))
  }

  method CasingOk(text: string, start: nat, matched: string, preferred: string) returns (ok: bool)
    requires start <= |text|
    ensures ok == CasingFine(text, start, matched, preferred)
  {
    if matched == preferred { return true; }
    var sentence := SentenceStart(text, start);
    ok := matched == Capitalized(preferred) && sentence;
  }

  // ---- Occurrences ----

  predicate Occurs(haystack: string, needle: string, p: int) {
    0 <= p && p + |needle| <= |haystack| && haystack[p..p + |needle|] == needle
  }

  /** The first occurrence at or after `from`, or -1. */
  ghost predicate FirstFrom(haystack: string, needle: string, from: nat, pos: int) {
    && (pos == -1 || (from <= pos && Occurs(haystack, needle, pos)))
    && (forall q :: from <= q && (pos == -1 || q < pos) ==> !Occurs(haystack, needle, q))
  }

  method Find(haystack: string, needle: string, from: nat) returns (pos: int)
    ensures FirstFrom(haystack, needle, from, pos)
  {
    pos := from;
    while pos + |needle| <= |haystack|
      invariant from <= pos && forall q :: from <= q < pos ==> !Occurs(haystack, needle, q)
      decreases |haystack| - pos
    {
      if haystack[pos..pos + |needle|] == needle { return; }
      pos := pos + 1;
    }
    pos := -1;
  }

  // ---- Findings ----

  datatype Term = Term(id: int, preferred: string, forbiddenVariants: seq<string>, caseSensitive: bool)
  datatype Finding = Finding(termId: int, preferred: string, start: nat, end: nat, matched: string)

  function FindingAt(text: string, term: Term, p: nat, length: nat): Finding
    requires p + length <= |text|
  {
    Finding(term.id, term.preferred, p, p + length, text[p..p + length])
  }

  function Folded(s: string, caseSensitive: bool): (r: string)
    ensures |r| == |s|
  {
    if caseSensitive then s else Lower(s)
  }

  predicate VariantAt(text: string, term: Term, variant: string, p: int) {
    Occurs(Folded(text, term.caseSensitive), Folded(variant, term.caseSensitive), p)
  }

  predicate PreferredAt(text: string, term: Term, p: int) {
    Occurs(Lower(text), Lower(term.preferred), p)
  }

  /** A term written in a casing that is not fine. */
  ghost predicate MiscasedAt(text: string, term: Term, p: int) {
    PreferredAt(text, term, p) && !CasingFine(text, p, text[p..p + |term.preferred|], term.preferred)
  }

  ghost function VariantPlaces(text: string, term: Term, variant: string): set<nat> {
    set p: nat | p <= |text| && VariantAt(text, term, variant, p)
  }

  ghost function MiscasedPlaces(text: string, term: Term): set<nat> {
    set p: nat | p <= |text| && MiscasedAt(text, term, p)
  }

  /** One finding at each of the places, in order, from `from` on. */
  ghost function FindingsFrom(text: string, term: Term, length: nat, places: set<nat>, from: nat): seq<Finding>
    decreases |text| - from
  {
    if from + length > |text| then []
    else
      (if from in places then [FindingAt(text, term, from, length)] else [])
      + FindingsFrom(text, term, length, places, from + 1)
  }

  ghost function VariantFindings(text: string, term: Term, variant: string): seq<Finding> {
    FindingsFrom(text, term, |variant|, VariantPlaces(text, term, variant), 0)
  }

  ghost function CasingFindings(text: string, term: Term): seq<Finding> {
    FindingsFrom(text, term, |term.preferred|, MiscasedPlaces(text, term), 0)
  }

  ghost function TermVariants(text: string, term: Term, variants: seq<string>): seq<Finding> {
    if variants == [] then []
    else TermVariants(text, term, variants[..|variants| - 1]) + VariantFindings(text, term, variants[|variants| - 1])
  }

  ghost function AllVariants(text: string, terms: seq<Term>): seq<Finding> {
    if terms == [] then []
    else
      var term := terms[|terms| - 1];
      AllVariants(text, terms[..|terms| - 1]) + TermVariants(text, term, term.forbiddenVariants)
  }

  ghost function AllCasings(text: string, cased: seq<Term>): seq<Finding> {
    if cased == [] then []
    else AllCasings(text, cased[..|cased| - 1]) + CasingFindings(text, cased[|cased| - 1])
  }

  /** What is left to find once the search has come to `pos`. */
  ghost function FindingsAt(text: string, term: Term, length: nat, places: set<nat>, pos: int): seq<Finding> {
    if pos < 0 then [] else FindingsFrom(text, term, length, places, pos)
  }

  predicate NonePlaced(places: set<nat>, from: nat, pos: int) {
    forall p: nat :: p in places && from <= p ==> pos != -1 && pos <= p
  }

  /** Jumping to the next occurrence skips no finding. */
  lemma {:induction false} Jump(text: string, term: Term, length: nat, places: set<nat>, from: nat, pos: int)
    requires NonePlaced(places, from, pos) && (pos == -1 || from <= pos)
    ensures FindingsFrom(text, term, length, places, from) == FindingsAt(text, term, length, places, pos)
    decreases |text| - from
  {
    if from + length <= |text| && from != pos {
      Jump(text, term, length, places, from + 1, pos);
    }
  }

  /** One turn of the search loop. */
  lemma Advance(text: string, term: Term, length: nat, places: set<nat>, pos: nat, next: int, so: seq<Finding>)
    requires pos + length <= |text| && NonePlaced(places, pos + 1, next) && (next == -1 || pos < next)
    ensures so + FindingsAt(text, term, length, places, pos) ==
            so + (if pos in places then [FindingAt(text, term, pos, length)] else [])
            + FindingsAt(text, term, length, places, next)
  {
    Jump(text, term, length, places, pos + 1, next);
  }

  predicate Overlap(a: Finding, b: Finding) {
    a.start < b.end && b.start < a.end
  }

  predicate OverlapsAny(f: Finding, variants: seq<Finding>) {
    exists v :: v in variants && Overlap(f, v)
  }

  /** Variant findings win. */
  function WithoutOverlaps(casing: seq<Finding>, variants: seq<Finding>): seq<Finding> {
    if casing == [] then []
    else
      (if OverlapsAny(casing[0], variants) then [] else [casing[0]]) + WithoutOverlaps(casing[1..], variants)
  }

  // ---- Order ----

  predicate Before(a: Finding, b: Finding) {
    a.start < b.start || (a.start == b.start && a.end <= b.end)
  }

  predicate InOrder(fs: seq<Finding>) {
    forall i, j :: 0 <= i < j < |fs| ==> Before(fs[i], fs[j])
  }

  function Insert(f: Finding, fs: seq<Finding>): seq<Finding> {
    if fs == [] || Before(fs[|fs| - 1], f) then fs + [f]
    else Insert(f, fs[..|fs| - 1]) + [fs[|fs| - 1]]
  }

  /** A stable sort by start and end. */
  function SortFindings(fs: seq<Finding>): seq<Finding> {
    if fs == [] then [] else Insert(fs[|fs| - 1], SortFindings(fs[..|fs| - 1]))
  }

  function One(f: Finding, start: nat, end: nat): seq<Finding> {
    if f.start == start && f.end == end then [f] else []
  }

  function At(fs: seq<Finding>, start: nat, end: nat): seq<Finding> {
    if fs == [] then []
    else
      At(fs[..|fs| - 1], start, end) + One(fs[|fs| - 1], start, end)
  }

  lemma {:induction false} InsertAdds(f: Finding, fs: seq<Finding>)
    ensures multiset(Insert(f, fs)) == multiset(fs) + multiset{f}
  {
    if fs != [] && !Before(fs[|fs| - 1], f) {
      InsertAdds(f, fs[..|fs| - 1]);
      assert fs == fs[..|fs| - 1] + [fs[|fs| - 1]];
    }
  }

  lemma InsertMeans(f: Finding, fs: seq<Finding>, e: Finding)
    ensures e in Insert(f, fs) <==> e == f || e in fs
  {
    InsertAdds(f, fs);
    assert e in Insert(f, fs) <==> e in multiset(Insert(f, fs));
  }

  lemma {:induction false} InsertSorts(f: Finding, fs: seq<Finding>)
    requires InOrder(fs)
    ensures InOrder(Insert(f, fs))
  {
    if fs != [] && !Before(fs[|fs| - 1], f) {
      var front, last := fs[..|fs| - 1], fs[|fs| - 1];
      InsertSorts(f, front);
      var r := Insert(f, front);
      forall i | 0 <= i < |r| ensures Before(r[i], last) {
        InsertMeans(f, front, r[i]);
      }
    }
  }

  lemma AtSnoc(fs: seq<Finding>, f: Finding, start: nat, end: nat)
    ensures At(fs + [f], start, end) == At(fs, start, end) + One(f, start, end)
  {
    assert (fs + [f])[..|fs|] == fs;
  }

  lemma {:induction false} InsertIsStable(f: Finding, fs: seq<Finding>, start: nat, end: nat)
    ensures At(Insert(f, fs), start, end) == At(fs, start, end) + One(f, start, end)
  {
    if fs == [] || Before(fs[|fs| - 1], f) {
      AtSnoc(fs, f, start, end);
    } else {
      var front, last := fs[..|fs| - 1], fs[|fs| - 1];
      InsertIsStable(f, front, start, end);
      AtSnoc(Insert(f, front), last, start, end);
      assert One(f, start, end) == [] || One(last, start, end) == [];
    }
  }

  lemma {:induction false} SortConserves(fs: seq<Finding>)
    ensures multiset(SortFindings(fs)) == multiset(fs)
  {
    if fs != [] {
      var front, last := fs[..|fs| - 1], fs[|fs| - 1];
      SortConserves(front);
      InsertAdds(last, SortFindings(front));
      assert multiset(fs) == multiset(front) + multiset{last} by {
        assert fs == front + [last];
      }
    }
  }

  lemma {:induction false} SortSorts(fs: seq<Finding>)
    ensures InOrder(SortFindings(fs))
  {
    if fs != [] {
      SortSorts(fs[..|fs| - 1]);
      InsertSorts(fs[|fs| - 1], SortFindings(fs[..|fs| - 1]));
    }
  }

  lemma SortMembers(fs: seq<Finding>, f: Finding)
    ensures f in SortFindings(fs) <==> f in fs
  {
    SortConserves(fs);
    assert f in SortFindings(fs) <==> f in multiset(SortFindings(fs));
  }

  /** Findings of one span stay in the order they came in. */
  lemma {:induction false} SortIsStable(fs: seq<Finding>, start: nat, end: nat)
    ensures At(SortFindings(fs), start, end) == At(fs, start, end)
  {
    if fs != [] {
      SortIsStable(fs[..|fs| - 1], start, end);
      InsertIsStable(fs[|fs| - 1], SortFindings(fs[..|fs| - 1]), start, end);
    }
  }

  // ---- The checks ----

  lemma AllVariantsNext(text: string, terms: seq<Term>, t: nat)
    requires t < |terms|
    ensures AllVariants(text, terms[..t + 1]) ==
            AllVariants(text, terms[..t]) + TermVariants(text, terms[t], terms[t].forbiddenVariants)
  {
    assert terms[..t + 1][..t] == terms[..t];
  }

  method CheckSubstring(text: string, terms: seq<Term>) returns (findings: seq<Finding>)
    ensures findings == AllVariants(text, terms)
  {
    findings := [];
    for t := 0 to |terms|
      invariant findings == AllVariants(text, terms[..t])
    {
      AllVariantsNext(text, terms, t);
      var found := CheckTerm(text, terms[t]);
      findings := findings + found;
    }
    assert terms[..|terms|] == terms;
  }

  method CheckTerm(text: string, term: Term) returns (findings: seq<Finding>)
    ensures findings == TermVariants(text, term, term.forbiddenVariants)
  {
    var variants := term.forbiddenVariants;
    findings := [];
    for v := 0 to |variants|
      invariant findings == TermVariants(text, term, variants[..v])
    {
      assert variants[..v + 1][..v] == variants[..v];
      var found := FindVariant(text, term, variants[v]);
      findings := findings + found;
    }
    assert variants[..|variants|] == variants;
  }

  method FindVariant(text: string, term: Term, variant: string) returns (findings: seq<Finding>)
    ensures findings == VariantFindings(text, term, variant)
  {
    var haystack, needle := Folded(text, term.caseSensitive), Folded(variant, term.caseSensitive);
    ghost var places := VariantPlaces(text, term, variant);
    findings := [];
    var pos := Find(haystack, needle, 0);
    Jump(text, term, |variant|, places, 0, pos);
    while pos != -1
      invariant pos == -1 || (0 <= pos && VariantAt(text, term, variant, pos))
      invariant findings + FindingsAt(text, term, |variant|, places, pos)
                == FindingsFrom(text, term, |variant|, places, 0)
      decreases if pos == -1 then 0 else |haystack| + 1 - pos
    {
      var next := Find(haystack, needle, pos + 1);
      Advance(text, term, |variant|, places, pos, next, findings);
      findings := findings + [FindingAt(text, term, pos, |variant|)];
      pos := next;
    }
  }

  lemma AllCasingsNext(text: string, cased: seq<Term>, t: nat)
    requires t < |cased|
    ensures AllCasings(text, cased[..t + 1]) == AllCasings(text, cased[..t]) + CasingFindings(text, cased[t])
  {
    assert cased[..t + 1][..t] == cased[..t];
  }

  method CasingSubstring(text: string, cased: seq<Term>) returns (findings: seq<Finding>)
    ensures findings == AllCasings(text, cased)
  {
    findings := [];
    for t := 0 to |cased|
      invariant findings == AllCasings(text, cased[..t])
    {
      AllCasingsNext(text, cased, t);
      var found := FindMiscased(text, cased[t]);
      findings := findings + found;
    }
    assert cased[..|cased|] == cased;
  }

  method IsMiscased(text: string, term: Term, pos: nat) returns (miscased: bool)
    requires PreferredAt(text, term, pos)
    ensures miscased == MiscasedAt(text, term, pos)
  {
    var matched := text[pos..pos + |term.preferred|];
    var ok := CasingOk(text, pos, matched, term.preferred);
    miscased := !ok;
  }

  method FindPreferred(text: string, term: Term, from: nat) returns (pos: int)
    ensures pos == -1 || (from <= pos && PreferredAt(text, term, pos))
    ensures NonePlaced(MiscasedPlaces(text, term), from, pos)
  {
    pos := Find(Lower(text), Lower(term.preferred), from);
    assert forall p: nat :: p in MiscasedPlaces(text, term) ==> Occurs(Lower(text), Lower(term.preferred), p);
  }

  /** The finding at `pos`, if it is one, and the next place to look. */
  method MiscasedStep(text: string, term: Term, pos: nat, ghost so: seq<Finding>)
    returns (found: seq<Finding>, next: int)
    requires PreferredAt(text, term, pos)
    ensures next == -1 || (pos < next && PreferredAt(text, term, next))
    ensures so + FindingsAt(text, term, |term.preferred|, MiscasedPlaces(text, term), pos)
            == so + found + FindingsAt(text, term, |term.preferred|, MiscasedPlaces(text, term), next)
  {
    var miscased := IsMiscased(text, term, pos);
    next := FindPreferred(text, term, pos + 1);
    Advance(text, term, |term.preferred|, MiscasedPlaces(text, term), pos, next, so);
    found := if miscased then [FindingAt(text, term, pos, |term.preferred|)] else [];
  }

  method FindMiscased(text: string, term: Term) returns (findings: seq<Finding>)
    ensures findings == CasingFindings(text, term)
  {
    ghost var places := MiscasedPlaces(text, term);
    ghost var target := CasingFindings(text, term);
    findings := [];
    var pos := FindPreferred(text, term, 0);
    Jump(text, term, |term.preferred|, places, 0, pos);
    while pos != -1
      invariant pos == -1 || (0 <= pos && PreferredAt(text, term, pos))
      invariant findings + FindingsAt(text, term, |term.preferred|, places, pos) == target
      decreases if pos == -1 then 0 else |text| + 1 - pos
    {
      var found, next := MiscasedStep(text, term, pos, findings);
      findings := findings + found;
      pos := next;
    }
  }

  /** Only case-sensitive terms have a casing to get wrong. */
  function Cased(terms: seq<Term>): (r: seq<Term>)
    ensures forall t :: t in r <==> t in terms && t.caseSensitive
  {
    if terms == [] then []
    else
      assert terms == [terms[0]] + terms[1..];
      (if terms[0].caseSensitive then [terms[0]] else []) + Cased(terms[1..])
  }

  ghost function Report(text: string, terms: seq<Term>): seq<Finding> {
    var variants := AllVariants(text, terms);
    SortFindings(variants + WithoutOverlaps(AllCasings(text, Cased(terms)), variants))
  }

  /** The whole check where there is no tokenizer; an invisible domain has no
      findings. */
  method Check(text: string, terms: Option<seq<Term>>) returns (findings: seq<Finding>)
    ensures terms.None? ==> findings == []
    ensures terms.Some? ==> findings == Report(text, terms.value)
  {
    if terms.None? { return []; }
    var variants := CheckSubstring(text, terms.value);
    var casing := CasingSubstring(text, Cased(terms.value));
    findings := SortFindings(variants + WithoutOverlaps(casing, variants));
  }

  // ---- What the report says ----

  ghost predicate IsVariantFinding(text: string, terms: seq<Term>, f: Finding) {
    exists t :: t in terms && IsTermVariant(text, t, f)
  }

  predicate IsTermVariant(text: string, term: Term, f: Finding) {
    exists v :: v in term.forbiddenVariants && IsVariantOf(text, term, v, f)
  }

  /** The finding quotes its place in the text and names its term. */
  predicate Quotes(text: string, term: Term, f: Finding) {
    && f.start <= f.end <= |text| && f.matched == text[f.start..f.end]
    && f.termId == term.id && f.preferred == term.preferred
  }

  /** The variant itself, in any case unless the term minds its case. */
  predicate IsVariantOf(text: string, term: Term, variant: string, f: Finding) {
    && Quotes(text, term, f)
    && if term.caseSensitive then f.matched == variant else Lower(f.matched) == Lower(variant)
  }

  ghost predicate IsCasingFinding(text: string, terms: seq<Term>, f: Finding) {
    exists t :: t in terms && t.caseSensitive && IsCasingOf(text, t, f)
  }

  /** The preferred term but for its case, and not merely with a capital at the
      start of a sentence. */
  ghost predicate IsCasingOf(text: string, term: Term, f: Finding) {
    && Quotes(text, term, f)
    && Lower(f.matched) == Lower(term.preferred) && f.matched != term.preferred
    && !(WithCapital(f.matched, term.preferred) && MatchesUpTo(text, f.start))
  }

  predicate WithCapital(s: string, preferred: string) {
    && |s| == |preferred| > 0 && s[1..] == preferred[1..]
    && if 'a' <= preferred[0] <= 'z' then s[0] as int == preferred[0] as int - 32 else s[0] == preferred[0]
  }

  lemma LowerSlice(s: string, i: nat, j: nat)
    requires i <= j <= |s|
    ensures Lower(s)[i..j] == Lower(s[i..j])
  {
  }

  lemma CapitalizedIs(s: string, preferred: string)
    requires |s| == |preferred|
    ensures s != preferred ==> (s == Capitalized(preferred) <==> WithCapital(s, preferred))
  {
    if preferred != "" {
      assert s == [s[0]] + s[1..];
      assert WithCapital(s, preferred) ==> s[0] == UpperChar(preferred[0]);
    }
  }

  lemma {:induction false} FindingsMean(text: string, term: Term, length: nat, places: set<nat>, from: nat, f: Finding)
    ensures f in FindingsFrom(text, term, length, places, from) <==>
            && from <= f.start && f.start in places && f.start + length <= |text|
            && f == FindingAt(text, term, f.start, length)
    decreases |text| - from
  {
    if from + length <= |text| {
      FindingsMean(text, term, length, places, from + 1, f);
    }
  }

  lemma VariantFindingsMean(text: string, term: Term, variant: string, f: Finding)
    ensures f in VariantFindings(text, term, variant) <==> IsVariantOf(text, term, variant, f)
  {
    FindingsMean(text, term, |variant|, VariantPlaces(text, term, variant), 0, f);
    if f.start + |variant| <= |text| {
      VariantIs(text, term, variant, f.start);
    }
    if IsVariantOf(text, term, variant, f) {
      VariantSpan(text, term, variant, f);
    }
  }

  lemma VariantIs(text: string, term: Term, variant: string, p: nat)
    requires p + |variant| <= |text|
    ensures VariantAt(text, term, variant, p) <==> IsVariantOf(text, term, variant, FindingAt(text, term, p, |variant|))
  {
    LowerSlice(text, p, p + |variant|);
  }

  lemma VariantSpan(text: string, term: Term, variant: string, f: Finding)
    requires IsVariantOf(text, term, variant, f)
    ensures f == FindingAt(text, term, f.start, |variant|)
  {
    assert |f.matched| == |Lower(f.matched)| && |variant| == |Lower(variant)|;
  }

  lemma {:induction false} TermVariantsFound(text: string, term: Term, variants: seq<string>, f: Finding)
    ensures f in TermVariants(text, term, variants) <==>
            exists v :: v in variants && f in VariantFindings(text, term, v)
  {
    if variants != [] {
      TermVariantsFound(text, term, variants[..|variants| - 1], f);
      assert forall v :: v in variants <==> v in variants[..|variants| - 1] || v == variants[|variants| - 1] by {
        assert variants == variants[..|variants| - 1] + [variants[|variants| - 1]];
      }
    }
  }

  lemma TermVariantsMean(text: string, term: Term, variants: seq<string>, f: Finding)
    ensures f in TermVariants(text, term, variants) <==>
            exists v :: v in variants && IsVariantOf(text, term, v, f)
  {
    TermVariantsFound(text, term, variants, f);
    forall v ensures f in VariantFindings(text, term, v) <==> IsVariantOf(text, term, v, f) {
      VariantFindingsMean(text, term, v, f);
    }
  }

  lemma {:induction false} AllVariantsMean(text: string, terms: seq<Term>, f: Finding)
    ensures f in AllVariants(text, terms) <==>
            exists t :: t in terms && f in TermVariants(text, t, t.forbiddenVariants)
  {
    if terms != [] {
      AllVariantsMean(text, terms[..|terms| - 1], f);
      LastIsOne(terms);
    }
  }

  lemma LastIsOne(terms: seq<Term>)
    requires terms != []
    ensures forall t :: t in terms <==> t in terms[..|terms| - 1] || t == terms[|terms| - 1]
  {
    assert terms == terms[..|terms| - 1] + [terms[|terms| - 1]];
  }

  lemma VariantsMean(text: string, terms: seq<Term>, f: Finding)
    ensures f in AllVariants(text, terms) <==> IsVariantFinding(text, terms, f)
  {
    AllVariantsMean(text, terms, f);
    forall t: Term ensures f in TermVariants(text, t, t.forbiddenVariants) <==> IsTermVariant(text, t, f) {
      TermVariantsMean(text, t, t.forbiddenVariants, f);
    }
  }

  lemma CasingFindingsMean(text: string, term: Term, f: Finding)
    ensures f in CasingFindings(text, term) <==> IsCasingOf(text, term, f)
  {
    FindingsMean(text, term, |term.preferred|, MiscasedPlaces(text, term), 0, f);
    if IsCasingOf(text, term, f) {
      CasingSpan(text, term, f);
    }
    if f.start + |term.preferred| <= |text| {
      MiscasedIs(text, term, f.start);
    }
  }

  lemma CasingSpan(text: string, term: Term, f: Finding)
    requires Quotes(text, term, f) && Lower(f.matched) == Lower(term.preferred)
    ensures f == FindingAt(text, term, f.start, |term.preferred|)
  {
    assert |f.matched| == |Lower(f.matched)| && |term.preferred| == |Lower(term.preferred)|;
  }

  lemma MiscasedIs(text: string, term: Term, p: nat)
    requires p + |term.preferred| <= |text|
    ensures MiscasedAt(text, term, p) <==> IsCasingOf(text, term, FindingAt(text, term, p, |term.preferred|))
  {
    LowerSlice(text, p, p + |term.preferred|);
    CapitalizedIs(text[p..p + |term.preferred|], term.preferred);
  }

  lemma {:induction false} AllCasingsMean(text: string, cased: seq<Term>, f: Finding)
    ensures f in AllCasings(text, cased) <==> exists t :: t in cased && f in CasingFindings(text, t)
  {
    if cased != [] {
      AllCasingsMean(text, cased[..|cased| - 1], f);
      LastIsOne(cased);
    }
  }

  lemma {:induction false} WithoutOverlapsMeans(casing: seq<Finding>, variants: seq<Finding>, f: Finding)
    ensures f in WithoutOverlaps(casing, variants) <==> f in casing && !OverlapsAny(f, variants)
  {
    if casing != [] {
      WithoutOverlapsMeans(casing[1..], variants, f);
      assert casing == [casing[0]] + casing[1..];
    }
  }

  /** The report is in order and holds exactly the forbidden variants of the
      text and its miscased terms that overlap none of them. */
  lemma ReportMeans(text: string, terms: seq<Term>, f: Finding)
    ensures var r := Report(text, terms);
            forall i, j :: 0 <= i < j < |r| ==>
              r[i].start < r[j].start || (r[i].start == r[j].start && r[i].end <= r[j].end)
    ensures f in Report(text, terms) <==>
              || IsVariantFinding(text, terms, f)
              || (IsCasingFinding(text, terms, f)
                  && !exists v :: IsVariantFinding(text, terms, v) && f.start < v.end && v.start < f.end)
  {
    var variants, casing := AllVariants(text, terms), AllCasings(text, Cased(terms));
    var all := variants + WithoutOverlaps(casing, variants);
    SortSorts(all);
    SortMembers(all, f);
    assert f in all <==> f in variants || f in WithoutOverlaps(casing, variants);
    VariantsMean(text, terms, f);
    AllCasingsMean(text, Cased(terms), f);
    forall t ensures f in CasingFindings(text, t) <==> IsCasingOf(text, t, f) {
      CasingFindingsMean(text, t, f);
    }
    WithoutOverlapsMeans(casing, variants, f);
    forall v ensures v in variants <==> IsVariantFinding(text, terms, v) {
      VariantsMean(text, terms, v);
    }
    assert OverlapsAny(f, variants) <==>
           exists v :: IsVariantFinding(text, terms, v) && f.start < v.end && v.start < f.end;
  }

  /** No finding is lost or doubled in the merge, and findings of one span stay
      in the order in which the checks produced them. */
  lemma ReportConserves(text: string, terms: seq<Term>, start: nat, end: nat)
    ensures var variants := AllVariants(text, terms);
            var kept := WithoutOverlaps(AllCasings(text, Cased(terms)), variants);
            && multiset(Report(text, terms)) == multiset(variants) + multiset(kept)
            && At(Report(text, terms), start, end) == At(variants + kept, start, end)
  {
    var variants := AllVariants(text, terms);
    SortConserves(variants + WithoutOverlaps(AllCasings(text, Cased(terms)), variants));
    SortIsStable(variants + WithoutOverlaps(AllCasings(text, Cased(terms)), variants), start, end);
  }
}
