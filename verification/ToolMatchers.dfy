/**
 Ranking of tools for an intent. KeywordToolMatcher (internal/agent/tools/matcher.go) scores the catalog by matching
 substrings and sorts it in place; HybridToolMatcher (internal/agent/tools/embedding_matcher.go) fuses two rankings by
 reciprocal rank. Lower-casing is a parameter; scores are real numbers.
 */
module ToolMatchers {
  import opened Common
  import opened Sorting
  import opened Strings

  datatype Entry = Entry(name: string, description: string, tags: seq<string>)

  datatype Scored<N> = Scored(name: string, score: N)

  // maxResults caps the result; zero or less means no cap.
  function Truncate<T>(s: seq<T>, maxResults: int): seq<T> {
    if maxResults > 0 && |s| > maxResults then s[..maxResults] else s
  }

  /** A positive maximum keeps that many from the front, if there are more; another keeps all. */
  lemma TruncateKeeps<T>(s: seq<T>, maxResults: int)
    ensures Truncate(s, maxResults) <= s
    ensures |Truncate(s, maxResults)| == if 0 < maxResults < |s| then maxResults else |s|
  {
  }

  function Names<N>(s: seq<Scored<N>>): seq<string> { seq(|s|, i requires 0 <= i < |s| => s[i].name) }

  // ---------------------------------------------------------------- keyword matching

  const MIN_NAME_PART: nat := 3
  const MIN_WORD: nat := 4

  predicate IsNameSeparator(c: char) { c == '_' || c == '-' || c == '.' }

  predicate IsPunctuation(c: char) { c in ".,;:()[]\"'" }

  // The length of the leading stretch without separators.
  function LeadingRun(s: string, sep: char -> bool): (n: nat)
    ensures n <= |s|
  {
    if s == "" || sep(s[0]) then 0 else 1 + LeadingRun(s[1..], sep)
  }

  /** strings.FieldsFunc; strings.Fields is the one for IsSpace. */
  function Fields(s: string, sep: char -> bool): seq<string>
    decreases |s|
  {
    if s == "" then []
    else if sep(s[0]) then Fields(s[1..], sep)
    else [s[..LeadingRun(s, sep)]] + Fields(s[LeadingRun(s, sep)..], sep)
  }

  ghost predicate IsRun(s: string, sep: char -> bool, i: nat, w: string) {
    && w != "" && OccursAt(s, w, i) && (forall c <- w :: !sep(c))
    && (i > 0 ==> sep(s[i - 1])) && (i + |w| < |s| ==> sep(s[i + |w|]))
  }

  lemma {:induction false} LeadingRunStops(s: string, sep: char -> bool)
    ensures var n := LeadingRun(s, sep);
            (forall i :: 0 <= i < n ==> !sep(s[i])) && (n < |s| ==> sep(s[n]))
  {
    if s != "" && !sep(s[0]) { LeadingRunStops(s[1..], sep); }
  }

  // A run behind a separator or a whole run is one of the text that is left.
  lemma RunInRest(s: string, sep: char -> bool, n: nat, i: nat, w: string)
    requires n <= i && i + |w| <= |s| && (n > 0 && n < |s| ==> sep(s[n - 1]) || sep(s[n]))
    ensures IsRun(s, sep, i, w) ==> IsRun(s[n..], sep, i - n, w)
    ensures IsRun(s[n..], sep, i - n, w) && w != "" && (i == n > 0 ==> sep(s[n - 1])) ==> IsRun(s, sep, i, w)
  {
    assert s[n..][i - n..i - n + |w|] == s[i..i + |w|];
  }

  /** A text without its separators. */
  function Unseparated(s: string, sep: char -> bool): string { Filter((c: char) => !sep(c), s) }

  lemma UnseparatedSnoc(s: string, c: char, sep: char -> bool)
    ensures Unseparated(s + [c], sep) == Unseparated(s, sep) + if sep(c) then [] else [c]
  {
    assert DropLast(s + [c]) == s;
  }

  lemma UnseparatedConcat(s: string, t: string, sep: char -> bool)
    ensures Unseparated(s + t, sep) == Unseparated(s, sep) + Unseparated(t, sep)
  {
    FilterConcat((c: char) => !sep(c), s, t);
  }

  lemma {:induction false} NoneToDrop(s: string, sep: char -> bool)
    requires forall c <- s :: !sep(c)
    ensures Unseparated(s, sep) == s
  {
    if s != "" {
      assert forall c <- DropLast(s) :: c in s;
      NoneToDrop(DropLast(s), sep);
      assert Last(s) in s;
    }
  }

  lemma FirstStepKept(s: string, sep: char -> bool)
    requires s != ""
    ensures Unseparated(s[..Skipped(s, sep)], sep) == if sep(s[0]) then "" else s[..Skipped(s, sep)]
  {
    if sep(s[0]) {
      assert s[..1] == [] + [s[0]];
      UnseparatedSnoc("", s[0], sep);
    } else {
      LeadingRunStops(s, sep);
      NoneToDrop(s[..LeadingRun(s, sep)], sep);
    }
  }

  /** The fields in order are all of the text but its separators; so none is left out and none is there twice. */
  lemma {:induction false} FieldsKeepTheRest(s: string, sep: char -> bool)
    ensures Flatten(Fields(s, sep)) == Unseparated(s, sep)
    decreases |s|
  {
    if s != "" {
      var n := Skipped(s, sep);
      FieldsKeepTheRest(s[n..], sep);
      FirstStepKept(s, sep);
      assert s == s[..n] + s[n..];
      UnseparatedConcat(s[..n], s[n..], sep);
      if !sep(s[0]) { FlattenCons(s[..n], Fields(s[n..], sep)); }
    }
  }

  // A run begins at the front or behind the leading stretch.
  lemma RunStarts(s: string, sep: char -> bool, n: nat, i: nat, w: string)
    requires s != "" && IsRun(s, sep, i, w) && n <= |s|
    requires if sep(s[0]) then n == 1 else (forall k :: 0 <= k < n ==> !sep(s[k])) && (n < |s| ==> sep(s[n]))
    ensures i >= n || (i == 0 && !sep(s[0]) && w == s[..n])
  {
    assert s[i] == w[0];
    if i == 0 && !sep(s[0]) {
      forall k | 0 <= k < |w| ensures !sep(s[k]) { assert w[k] == s[k]; }
    }
  }

  // What the first step of Fields leaves.
  function Skipped(s: string, sep: char -> bool): (n: nat)
    requires s != ""
    ensures 0 < n <= |s|
  {
    if sep(s[0]) then 1 else LeadingRun(s, sep)
  }

  lemma {:induction false} FieldIsRun(s: string, sep: char -> bool, w: string)
    requires w in Fields(s, sep)
    ensures exists i: nat :: IsRun(s, sep, i, w)
    decreases |s|
  {
    LeadingRunStops(s, sep);
    var n := Skipped(s, sep);
    if !sep(s[0]) && w == s[..n] {
      assert IsRun(s, sep, 0, w);
    } else {
      FieldIsRun(s[n..], sep, w);
      var i: nat :| IsRun(s[n..], sep, i, w);
      assert s[n..][i] == w[0];
      RunInRest(s, sep, n, i + n, w);
    }
  }

  lemma {:induction false} RunIsField(s: string, sep: char -> bool, i: nat, w: string)
    requires IsRun(s, sep, i, w)
    ensures w in Fields(s, sep)
    decreases |s|
  {
    LeadingRunStops(s, sep);
    var n := Skipped(s, sep);
    RunStarts(s, sep, n, i, w);
    if i >= n {
      RunInRest(s, sep, n, i, w);
      RunIsField(s[n..], sep, i - n, w);
    }
  }

  /** The fields of a text are its maximal stretches without separators. */
  lemma FieldsAreRuns(s: string, sep: char -> bool, w: string)
    ensures w in Fields(s, sep) <==> exists i: nat :: IsRun(s, sep, i, w)
  {
    if w in Fields(s, sep) { FieldIsRun(s, sep, w); }
    if i: nat :| IsRun(s, sep, i, w) { RunIsField(s, sep, i, w); }
  }

  /** The length in bytes of a text in UTF-8. */
  function ByteLength(s: string): nat {
    if s == "" then 0 else ByteLength(DropLast(s)) + BytesOf(Last(s) as int)
  }

  function BytesOf(c: int): nat { if c < 0x80 then 1 else if c < 0x800 then 2 else if c < 0x10000 then 3 else 4 }

  /** One more character counts as many bytes as it takes in UTF-8. */
  lemma BytesOfCharacter(s: string, c: char)
    ensures ByteLength("") == 0
    ensures ByteLength(s + [c])
            == ByteLength(s) + if c < '\U{80}' then 1 else if c < '\U{800}' then 2 else if c < '\U{10000}' then 3 else 4
  {
    assert DropLast(s + [c]) == s;
  }

  function NameParts(lower: string -> string, e: Entry): seq<string> { Fields(lower(e.name), IsNameSeparator) }

  function Words(lower: string -> string, e: Entry): seq<string> {
    var fields := Fields(lower(e.description), IsSpace);
    seq(|fields|, i requires 0 <= i < |fields| => Trim(fields[i], IsPunctuation))
  }

  function Tags(lower: string -> string, e: Entry): seq<string> {
    seq(|e.tags|, i requires 0 <= i < |e.tags| => lower(e.tags[i]))
  }

  predicate IsHit(intent: string, min: nat, p: string) { ByteLength(p) >= min && Contains(intent, p) }

  /** The parts of at least `min` bytes that occur in the intent. */
  function Hits(intent: string, parts: seq<string>, min: nat): nat {
    |Filter((p: string) => IsHit(intent, min, p), parts)|
  }

  lemma OneMorePart(intent: string, parts: seq<string>, min: nat, i: nat)
    requires i < |parts|
    ensures Hits(intent, parts[..i + 1], min)
            == Hits(intent, parts[..i], min) + if IsHit(intent, min, parts[i]) then 1 else 0
  {
    assert parts[..i + 1] == parts[..i] + [parts[i]];
    FilterSnoc((p: string) => IsHit(intent, min, p), parts[..i], parts[i]);
  }

  lemma TimesOneMore(weight: nat, n: nat)
    ensures weight * (n + 1) == weight * n + weight
  {
  }

  /** The intent comes in lower case. */
  function Score(lower: string -> string, intent: string, e: Entry): nat {
    3 * Hits(intent, NameParts(lower, e), MIN_NAME_PART) + Hits(intent, Words(lower, e), MIN_WORD)
      + 2 * Hits(intent, Tags(lower, e), 0)
  }

  /** The parts of a name are its stretches without underscore, hyphen and dot. */
  lemma NamePartsAre(lower: string -> string, e: Entry, w: string)
    ensures w in NameParts(lower, e)
            <==> exists i: nat :: NamePartAt(lower(e.name), i, w)
  {
    FieldsAreRuns(lower(e.name), IsNameSeparator, w);
    if i: nat :| IsRun(lower(e.name), IsNameSeparator, i, w) { assert NamePartAt(lower(e.name), i, w); }
    if i: nat :| NamePartAt(lower(e.name), i, w) { assert IsRun(lower(e.name), IsNameSeparator, i, w); }
  }

  ghost predicate NamePartAt(text: string, i: nat, w: string) {
    IsRun(text, (c: char) => c == '_' || c == '-' || c == '.', i, w)
  }

  /** The words of a description are its stretches without spaces, without punctuation at the ends. */
  lemma WordsAre(lower: string -> string, e: Entry, w: string)
    ensures |Words(lower, e)| == |Fields(lower(e.description), IsSpace)|
    ensures w in Words(lower, e)
            <==> exists i: nat, r :: IsRun(lower(e.description), IsSpace, i, r)
                                     && w == Trim(r, (c: char) => c in ".,;:()[]\"'")
  {
    var text, cut := lower(e.description), (c: char) => c in ".,;:()[]\"'";
    var fields := Fields(text, IsSpace);
    if w in Words(lower, e) {
      var j :| 0 <= j < |fields| && Trim(fields[j], IsPunctuation) == w;
      FieldIsRun(text, IsSpace, fields[j]);
      TrimSame(fields[j], IsPunctuation, cut);
    }
    if i: nat, r :| IsRun(text, IsSpace, i, r) && w == Trim(r, cut) {
      RunIsField(text, IsSpace, i, r);
      TrimSame(r, IsPunctuation, cut);
      var j :| 0 <= j < |fields| && fields[j] == r;
      assert Words(lower, e)[j] == w;
    }
  }

  /** The tags in their order, in lower case. */
  lemma TagsAre(lower: string -> string, e: Entry)
    ensures |Tags(lower, e)| == |e.tags| && forall i :: 0 <= i < |e.tags| ==> Tags(lower, e)[i] == lower(e.tags[i])
  {
  }

  /** How many of the parts occur in the intent and have at least that many bytes. */
  ghost function Occurring(intent: string, parts: seq<string>, min: nat): set<nat> {
    set i: nat | i < |parts| && ByteLength(parts[i]) >= min && Contains(intent, parts[i])
  }

  lemma {:induction false} HitsAreOccurring(intent: string, parts: seq<string>, min: nat)
    ensures Hits(intent, parts, min) == |Occurring(intent, parts, min)|
  {
    if parts != [] {
      HitsAreOccurring(intent, DropLast(parts), min);
      OneMorePart(intent, parts, min, |parts| - 1);
      assert parts[..|parts|] == parts;
      OneMoreOccurring(intent, parts, min);
    }
  }

  lemma OneMoreOccurring(intent: string, parts: seq<string>, min: nat)
    requires parts != []
    ensures |Occurring(intent, parts, min)|
            == |Occurring(intent, DropLast(parts), min)| + if IsHit(intent, min, Last(parts)) then 1 else 0
  {
    var n, before := |parts| - 1, Occurring(intent, DropLast(parts), min);
    assert n !in before;
    assert Occurring(intent, parts, min) == if IsHit(intent, min, parts[n]) then before + {n} else before;
  }

  /**
   A part of the name that occurs in the intent and has at least three bytes is worth three, a word of the description
   with at least four one, and a tag two.
   */
  lemma ScoreCounts(lower: string -> string, intent: string, e: Entry)
    ensures Score(lower, intent, e)
            == 3 * |Occurring(intent, NameParts(lower, e), 3)| + |Occurring(intent, Words(lower, e), 4)|
               + 2 * |Occurring(intent, Tags(lower, e), 0)|
  {
    HitsAreOccurring(intent, NameParts(lower, e), 3);
    HitsAreOccurring(intent, Words(lower, e), 4);
    HitsAreOccurring(intent, Tags(lower, e), 0);
  }

  predicate Higher(x: Scored<int>, y: Scored<int>) { x.score > y.score }

  /** The entries with a positive score, in catalog order. */
  function Positive(lower: string -> string, intent: string, catalog: seq<Entry>): seq<Scored<int>> {
    if catalog == [] then []
    else
      var e := Last(catalog);
      if Score(lower, intent, e) > 0
      then Positive(lower, intent, DropLast(catalog)) + [Scored(e.name, Score(lower, intent, e))]
      else Positive(lower, intent, DropLast(catalog))
  }

  /** Each entry with a positive score is there once, with its name and score, in catalog order, and no other. */
  lemma {:induction false} PositiveAreScored(lower: string -> string, intent: string, catalog: seq<Entry>)
    ensures var scored := Filter((e: Entry) => Score(lower, intent, e) >= 1, catalog);
            var all := Positive(lower, intent, catalog);
            |all| == |scored| && forall i :: 0 <= i < |all| ==>
              all[i].name == scored[i].name && all[i].score == Score(lower, intent, scored[i])
  {
    if catalog != [] { PositiveAreScored(lower, intent, DropLast(catalog)); }
  }

  /** One of the three scoring loops. */
  method AddHits(intent: string, parts: seq<string>, min: nat, weight: nat, score: nat) returns (r: nat)
    ensures r == score + weight * Hits(intent, parts, min)
  {
    r := score;
    for i := 0 to |parts|
      invariant r == score + weight * Hits(intent, parts[..i], min)
    {
      OneMorePart(intent, parts, min, i);
      TimesOneMore(weight, Hits(intent, parts[..i], min));
      if IsHit(intent, min, parts[i]) { r := r + weight; }
    }
    assert parts[..|parts|] == parts;
  }

  // The scoring of one entry; the intent comes in lower case.
  method ScoreEntry(lower: string -> string, intent: string, e: Entry) returns (score: nat)
    ensures score == Score(lower, intent, e)
  {
    score := AddHits(intent, NameParts(lower, e), MIN_NAME_PART, 3, 0);
    score := AddHits(intent, Words(lower, e), MIN_WORD, 1, score);
    score := AddHits(intent, Tags(lower, e), 0, 2, score);
  }

  method KeywordMatch(lower: string -> string, intent: string, catalog: seq<Entry>, maxResults: int)
    returns (names: seq<string>)
    ensures intent == "" ==> names == []
    ensures intent != "" ==>
      names == Names(Truncate(StableSort(Higher, Positive(lower, lower(intent), catalog)), maxResults))
  {
    if intent == "" { return []; }
    var lowered := lower(intent);
    var matches: seq<Scored<int>> := [];
    for i := 0 to |catalog|
      invariant matches == Positive(lower, lowered, catalog[..i])
    {
      var e := catalog[i];
      assert DropLast(catalog[..i + 1]) == catalog[..i];
      var score := ScoreEntry(lower, lowered, e);
      if score > 0 { matches := matches + [Scored(e.name, score)]; }
    }
    assert catalog[..|catalog|] == catalog;
    var sorted := new Scored<int>[|matches|](i requires 0 <= i < |matches| => matches[i]);
    assert sorted[..] == matches;
    InsertionSort(sorted, Higher);
    matches := Truncate(sorted[..], maxResults);
    names := Names(matches);
  }

  /**
   The result is the top of a stable ranking: nothing left out scores higher than anything returned, everything ranked
   comes from the catalog with a positive score, and entries of equal score stay in catalog order.
   */
  lemma {:induction false} KeywordMatchIsTopRanked(lower: string -> string, intent: string, catalog: seq<Entry>,
                                                      maxResults: int)
    ensures var all := Positive(lower, intent, catalog);
            var ranked := StableSort(Higher, all);
            var k := |Truncate(ranked, maxResults)|;
            && k <= |ranked| && (k < |ranked| ==> k == maxResults)
            && (forall i, j :: 0 <= i < k <= j < |ranked| ==> ranked[i].score >= ranked[j].score)
            && (forall i, j :: 0 <= i < j < |ranked| ==> ranked[i].score >= ranked[j].score)
            && multiset(ranked) == multiset(all)
            && (forall c :: Ties(Higher, c, ranked) == Ties(Higher, c, all))
  {
    StableSortIsRight(Higher, Positive(lower, intent, catalog));
  }

  // ---------------------------------------------------------------- reciprocal rank fusion

  datatype MatchResult = Ok(names: seq<string>) | Err

  /** What the place with index `i` of a list is worth. */
  function Share(weight: real, i: nat): real { weight * (1.0 / (i + 1) as real) }

  /** What a list adds to the score of a name. */
  function Contribution(list: seq<string>, weight: real, name: string): real {
    if list == [] then 0.0
    else
      var before := Contribution(DropLast(list), weight, name);
      if Last(list) == name then before + Share(weight, |list| - 1) else before
  }

  function Fused(alpha: real, primary: seq<string>, fallback: seq<string>, name: string): real {
    Contribution(primary, alpha, name) + Contribution(fallback, 1.0 - alpha, name)
  }

  ghost predicate Distinct<T>(s: seq<T>) { forall i, j :: 0 <= i < j < |s| ==> s[i] != s[j] }

  /** Any order of the fused names by falling score; names of equal score come in no particular order. */
  ghost predicate IsRanking(alpha: real, primary: seq<string>, fallback: seq<string>, ranked: seq<string>) {
    && Distinct(ranked)
    && (forall n :: n in ranked <==> n in primary || n in fallback)
    && (forall i, j :: 0 <= i < j < |ranked| ==>
          Fused(alpha, primary, fallback, ranked[i]) >= Fused(alpha, primary, fallback, ranked[j]))
  }

  ghost predicate Accumulated(scores: map<string, real>, alpha: real, primary: seq<string>, fallback: seq<string>) {
    && (forall n :: n in scores <==> n in primary || n in fallback)
    && (forall n :: n in scores ==> scores[n] == Fused(alpha, primary, fallback, n))
  }

  lemma {:induction false} ContributionOfAbsent(list: seq<string>, weight: real, name: string)
    requires name !in list
    ensures Contribution(list, weight, name) == 0.0
  {
    if list != [] {
      assert list == DropLast(list) + [Last(list)];
      ContributionOfAbsent(DropLast(list), weight, name);
    }
  }

  lemma AbsentScoresNothing(alpha: real, primary: seq<string>, fallback: seq<string>, name: string)
    requires name !in primary && name !in fallback
    ensures Fused(alpha, primary, fallback, name) == 0.0
  {
    ContributionOfAbsent(primary, alpha, name);
    ContributionOfAbsent(fallback, 1.0 - alpha, name);
  }

  function Add(scores: map<string, real>, name: string, x: real): map<string, real> {
    scores[name := (if name in scores then scores[name] else 0.0) + x]
  }

  lemma AddPrimary(scores: map<string, real>, alpha: real, p: seq<string>, i: nat)
    requires i < |p| && Accumulated(scores, alpha, p[..i], [])
    ensures Accumulated(Add(scores, p[i], alpha * (1.0 / (i + 1) as real)), alpha, p[..i + 1], [])
  {
    assert DropLast(p[..i + 1]) == p[..i] && p[..i + 1] == p[..i] + [p[i]];
    if p[i] !in scores { AbsentScoresNothing(alpha, p[..i], [], p[i]); }
  }

  lemma AddFallback(scores: map<string, real>, alpha: real, p: seq<string>, f: seq<string>, i: nat)
    requires i < |f| && Accumulated(scores, alpha, p, f[..i])
    ensures Accumulated(Add(scores, f[i], (1.0 - alpha) * (1.0 / (i + 1) as real)), alpha, p, f[..i + 1])
  {
    assert DropLast(f[..i + 1]) == f[..i] && f[..i + 1] == f[..i] + [f[i]];
    if f[i] !in scores { AbsentScoresNothing(alpha, p, f[..i], f[i]); }
  }

  /** The two loops that fill the score map. */
  method FuseScores(alpha: real, primary: seq<string>, fallback: seq<string>) returns (scores: map<string, real>)
    ensures Accumulated(scores, alpha, primary, fallback)
  {
    scores := map[];
    for i := 0 to |primary|
      invariant Accumulated(scores, alpha, primary[..i], [])
    {
      AddPrimary(scores, alpha, primary, i);
      scores := Add(scores, primary[i], alpha * (1.0 / (i + 1) as real));
    }
    assert primary[..|primary|] == primary;
    for i := 0 to |fallback|
      invariant Accumulated(scores, alpha, primary, fallback[..i])
    {
      AddFallback(scores, alpha, primary, fallback, i);
      scores := Add(scores, fallback[i], (1.0 - alpha) * (1.0 / (i + 1) as real));
    }
    assert fallback[..|fallback|] == fallback;
  }

  predicate HigherScore(x: Scored<real>, y: Scored<real>) { x.score > y.score }

  // Every name still to come from the map, and every one taken from it, once.
  ghost predicate Taken(scores: map<string, real>, todo: set<string>, merged: seq<Scored<real>>) {
    && Distinct(merged)
    && (forall m <- merged :: m.name in scores && m.name !in todo && m.score == scores[m.name])
    && (forall n :: n in scores ==> n in todo || Scored(n, scores[n]) in merged)
  }

  method RankScores(scores: map<string, real>) returns (ranked: seq<Scored<real>>)
    ensures Taken(scores, {}, ranked) && SortedBy(HigherScore, ranked)
  {
    var merged: seq<Scored<real>> := [];
    var todo := scores.Keys;
    while todo != {}
      invariant todo <= scores.Keys && Taken(scores, todo, merged)
      decreases todo
    {
      var n :| n in todo;
      todo, merged := todo - {n}, merged + [Scored(n, scores[n])];
    }
    var sorted := new Scored<real>[|merged|](i requires 0 <= i < |merged| => merged[i]);
    assert sorted[..] == merged;
    InsertionSort(sorted, HigherScore);
    StableSortIsRight(HigherScore, merged);
    ranked := sorted[..];
    RearrangedIsTaken(scores, merged, ranked);
  }

  lemma {:induction false} DistinctCounts<T>(s: seq<T>, x: T)
    ensures Distinct(s) ==> multiset(s)[x] <= 1
  {
    if s != [] {
      DistinctCounts(DropLast(s), x);
      assert s == DropLast(s) + [Last(s)];
      if Distinct(s) && x == Last(s) { assert x !in DropLast(s) && multiset(DropLast(s))[x] == 0; }
    }
  }

  lemma RearrangedIsTaken(scores: map<string, real>, s: seq<Scored<real>>, t: seq<Scored<real>>)
    requires Taken(scores, {}, s) && multiset(s) == multiset(t)
    ensures Taken(scores, {}, t)
  {
    forall i, j | 0 <= i < j < |t| ensures t[i] != t[j] {
      DistinctCounts(s, t[i]);
      assert t == t[..j] + [t[j]] + t[j + 1..];
      assert t[i] in multiset(t[..j]) by { assert t[i] == t[..j][i]; }
    }
    forall m | m in t ensures m in s { assert m in multiset(t); }
    forall m | m in s ensures m in t { assert m in multiset(s); }
  }

  /** A failed primary matcher degrades to the fallback; a failed fallback counts as an empty list. */
  method HybridMatch(primary: MatchResult, fallback: MatchResult, alpha: real, maxResults: int)
    returns (r: MatchResult, ghost ranked: seq<string>)
    ensures r.Err? <==> primary.Err? && fallback.Err?
    ensures primary.Err? && fallback.Ok? ==> r == Ok(Truncate(fallback.names, maxResults))
    ensures primary.Ok? ==>
              && IsRanking(alpha, primary.names, if fallback.Ok? then fallback.names else [], ranked)
              && r == Ok(Truncate(ranked, maxResults))
  {
    ranked := [];
    if primary.Err? {
      if fallback.Err? { return Err, []; }
      return Ok(Truncate(fallback.names, maxResults)), [];
    }
    var f := if fallback.Ok? then fallback.names else [];
    var scores := FuseScores(alpha, primary.names, f);
    var merged := RankScores(scores);
    ranked := Names(merged);
    TakenIsRanking(scores, alpha, primary.names, f, merged);
    assert Names(Truncate(merged, maxResults)) == Truncate(Names(merged), maxResults);
    r := Ok(Names(Truncate(merged, maxResults)));
  }

  lemma TakenIsRanking(scores: map<string, real>, alpha: real, p: seq<string>, f: seq<string>,
                       merged: seq<Scored<real>>)
    requires Accumulated(scores, alpha, p, f) && Taken(scores, {}, merged) && SortedBy(HigherScore, merged)
    ensures IsRanking(alpha, p, f, Names(merged))
  {
    var ranked := Names(merged);
    forall i, j | 0 <= i < j < |ranked|
      ensures ranked[i] != ranked[j] && Fused(alpha, p, f, ranked[i]) >= Fused(alpha, p, f, ranked[j])
    {
      assert merged[i] in merged && merged[j] in merged;
      assert !HigherScore(merged[j], merged[i]);
    }
    forall n ensures n in ranked <==> n in p || n in f {
      if n in scores {
        var m := Scored(n, scores[n]);
        assert m in merged;
        var i :| 0 <= i < |merged| && merged[i] == m;
        assert ranked[i] == n;
      }
      if n in ranked {
        var i :| 0 <= i < |ranked| && ranked[i] == n;
        assert merged[i] in merged;
      }
    }
  }

  // ---------------------------------------------------------------- what fusion guarantees

  ghost predicate RankedAt(list: seq<string>, name: string, i: nat) { i < |list| && list[i] == name }

  lemma PlaceOf(list: seq<string>, name: string) returns (i: nat)
    requires name in list
    ensures RankedAt(list, name, i)
  {
    i :| i < |list| && list[i] == name;
  }

  /** `a` is ranked at least as well as `b`: wherever `b` is, `a` is there or before. */
  ghost predicate AtLeastAsWell(list: seq<string>, a: string, b: string) {
    forall j: nat | RankedAt(list, b, j) :: exists i: nat | i <= j :: RankedAt(list, a, i)
  }

  ghost predicate Better(list: seq<string>, a: string, b: string) {
    a != b && a in list && AtLeastAsWell(list, a, b)
  }

  function Times(list: seq<string>, name: string): nat { multiset(list)[name] }

  lemma {:induction false} ContributionOnce(list: seq<string>, weight: real, name: string, i: nat)
    requires Times(list, name) <= 1 && RankedAt(list, name, i)
    ensures Contribution(list, weight, name) == Share(weight, i)
  {
    assert list == DropLast(list) + [Last(list)];
    if i == |list| - 1 {
      assert Times(DropLast(list), name) == 0;
      ContributionOfAbsent(DropLast(list), weight, name);
    } else {
      assert DropLast(list)[i] == name;
      ContributionOnce(DropLast(list), weight, name, i);
    }
  }

  lemma {:induction false} ContributionNotNegative(list: seq<string>, weight: real, name: string)
    requires weight >= 0.0
    ensures Contribution(list, weight, name) >= 0.0
  {
    if list != [] {
      ContributionNotNegative(DropLast(list), weight, name);
      ShareFalls(weight, |list| - 1, |list| - 1);
    }
  }

  // Every place adds its share; other places only add more.
  lemma {:induction false} ContributionAtLeast(list: seq<string>, weight: real, name: string, i: nat)
    requires RankedAt(list, name, i) && weight >= 0.0
    ensures Contribution(list, weight, name) >= Share(weight, i)
  {
    if i == |list| - 1 {
      ContributionNotNegative(DropLast(list), weight, name);
    } else {
      ContributionAtLeast(DropLast(list), weight, name, i);
      ShareFalls(weight, |list| - 1, |list| - 1);
    }
  }

  lemma TimesKeepsOrder(x: real, y: real, w: real)
    requires w > 0.0 && x < y
    ensures x * w < y * w
  {
  }

  lemma ReciprocalFalls(x: real, y: real)
    requires 0.0 < x < y
    ensures 1.0 / x > 1.0 / y > 0.0
  {
    var u, v := 1.0 / x, 1.0 / y;
    assert u * x == 1.0 && v * y == 1.0;
    if u <= v {
      TimesKeepsOrder(x, y, v);
      if u < v { TimesKeepsOrder(u, v, x); }
      assert false;
    }
  }

  lemma ShareFalls(weight: real, i: nat, j: nat)
    requires weight >= 0.0 && i <= j
    ensures Share(weight, i) >= Share(weight, j) >= 0.0
    ensures weight > 0.0 && i < j ==> Share(weight, i) > Share(weight, j)
    ensures weight > 0.0 ==> Share(weight, i) > 0.0
  {
    var x, y := (i + 1) as real, (j + 1) as real;
    if weight > 0.0 {
      ReciprocalFalls(x, x + 1.0);
      ReciprocalFalls(y, y + 1.0);
      TimesKeepsOrder(0.0, 1.0 / x, weight);
      TimesKeepsOrder(0.0, 1.0 / y, weight);
      if i < j {
        ReciprocalFalls(x, y);
        TimesKeepsOrder(1.0 / y, 1.0 / x, weight);
      }
    }
  }

  lemma OneListHolding(list: seq<string>, weight: real, a: string, b: string)
    requires Times(list, b) <= 1 && weight >= 0.0 && AtLeastAsWell(list, a, b) && b in list
    ensures Contribution(list, weight, a) >= Contribution(list, weight, b)
    ensures weight > 0.0 && a != b ==> Contribution(list, weight, a) > Contribution(list, weight, b)
  {
    var j := PlaceOf(list, b);
    var i: nat :| i <= j && RankedAt(list, a, i);
    ContributionAtLeast(list, weight, a, i);
    ContributionOnce(list, weight, b, j);
    ShareFalls(weight, i, j);
  }

  lemma OneList(list: seq<string>, weight: real, a: string, b: string)
    requires Times(list, b) <= 1 && weight >= 0.0 && AtLeastAsWell(list, a, b)
    ensures Contribution(list, weight, a) >= Contribution(list, weight, b)
    ensures weight > 0.0 && Better(list, a, b) ==> Contribution(list, weight, a) > Contribution(list, weight, b)
  {
    if b in list {
      OneListHolding(list, weight, a, b);
    } else {
      ContributionOfAbsent(list, weight, b);
      ContributionNotNegative(list, weight, a);
      if a in list {
        var i := PlaceOf(list, a);
        ContributionAtLeast(list, weight, a, i);
        ShareFalls(weight, i, i);
      }
    }
  }

  /** Ranked at least as well in both lists, and better in one that has weight. */
  ghost predicate Dominates(alpha: real, primary: seq<string>, fallback: seq<string>, a: string, b: string) {
    && AtLeastAsWell(primary, a, b) && AtLeastAsWell(fallback, a, b)
    && ((alpha > 0.0 && Better(primary, a, b)) || (alpha < 1.0 && Better(fallback, a, b)))
  }

  /** Wherever `b` is, `a` is before it. */
  ghost predicate ComesFirst(ranked: seq<string>, a: string, b: string) {
    forall j: nat | RankedAt(ranked, b, j) :: exists i: nat | i < j :: RankedAt(ranked, a, i)
  }

  /**
   A dominating tool comes before the other in every ranking, and is returned whenever the other is, if the lists name
   the other at most once each. They may repeat every other tool.
   */
  lemma DominatingToolComesFirst(alpha: real, primary: seq<string>, fallback: seq<string>, ranked: seq<string>,
                                 a: string, b: string, maxResults: int)
    requires 0.0 <= alpha <= 1.0 && IsRanking(alpha, primary, fallback, ranked)
    requires Dominates(alpha, primary, fallback, a, b) && Times(primary, b) <= 1 && Times(fallback, b) <= 1
    ensures ComesFirst(ranked, a, b)
    ensures b in Truncate(ranked, maxResults) ==> a in Truncate(ranked, maxResults)
  {
    OneList(primary, alpha, a, b);
    OneList(fallback, 1.0 - alpha, a, b);
    assert Fused(alpha, primary, fallback, a) > Fused(alpha, primary, fallback, b);
    assert a in ranked;
    var i := PlaceOf(ranked, a);
    forall j: nat | RankedAt(ranked, b, j) ensures i < j {
      assert ranked[i] == a && ranked[j] == b;
    }
    var kept := Truncate(ranked, maxResults);
    if b in kept {
      var j := PlaceOf(kept, b);
      assert RankedAt(ranked, b, j) && kept[i] == a;
    }
  }

  const REPEATING: seq<string> := ["x", "a", "b", "b"]

  lemma ContributionSnoc(list: seq<string>, weight: real, last: string, name: string)
    ensures Contribution(list + [last], weight, name)
            == Contribution(list, weight, name) + if last == name then Share(weight, |list|) else 0.0
  {
    assert DropLast(list + [last]) == list;
  }

  lemma RepeatingShares(w: real, name: string)
    ensures Contribution(REPEATING, w, name)
            == (if name == "x" then w else 0.0) + (if name == "a" then w * (1.0 / 2.0) else 0.0)
               + (if name == "b" then w * (1.0 / 3.0) + w * (1.0 / 4.0) else 0.0)
  {
    ContributionSnoc([], w, "x", name);
    ContributionSnoc(["x"], w, "a", name);
    ContributionSnoc(["x", "a"], w, "b", name);
    ContributionSnoc(["x", "a", "b"], w, "b", name);
    assert REPEATING == ["x", "a", "b"] + ["b"] && ["x", "a", "b"] == ["x", "a"] + ["b"] && ["x", "a"] == ["x"] + ["a"];
    assert [] + ["x"] == ["x"];
  }

  lemma RepeatingScores(alpha: real)
    requires 0.0 <= alpha < 1.0
    ensures Fused(alpha, [], REPEATING, "x") > Fused(alpha, [], REPEATING, "b") > Fused(alpha, [], REPEATING, "a")
    ensures Dominates(alpha, [], REPEATING, "a", "b")
    ensures Times(REPEATING, "b") == 2
  {
    RepeatingShares(1.0 - alpha, "x");
    RepeatingShares(1.0 - alpha, "a");
    RepeatingShares(1.0 - alpha, "b");
    assert RankedAt(REPEATING, "a", 1);
  }

  /**
   A tool that one list names twice can overtake one that dominates it: here it does in every ranking, for every weight
   that leaves the list any, and with two results it is returned in its place. The keyword matcher repeats a tool when
   the catalog does.
   */
  lemma RepeatedToolOvertakes(alpha: real, ranked: seq<string>)
    requires 0.0 <= alpha < 1.0 && IsRanking(alpha, [], REPEATING, ranked)
    ensures Dominates(alpha, [], REPEATING, "a", "b")
    ensures Truncate(ranked, 2) == ["x", "b"] && "a" in ranked
  {
    RepeatingScores(alpha);
    assert "x" in ranked && "a" in ranked && "b" in ranked;
    var x := PlaceOf(ranked, "x");
    var a := PlaceOf(ranked, "a");
    var b := PlaceOf(ranked, "b");
    HigherComesFirst(alpha, [], REPEATING, ranked, x, b);
    HigherComesFirst(alpha, [], REPEATING, ranked, b, a);
    assert x < b < a;
    OnlyThree(alpha, ranked, 0, x, a, b);
    OnlyThree(alpha, ranked, 1, x, a, b);
    assert x == 0 && b == 1;
  }

  lemma HigherComesFirst(alpha: real, primary: seq<string>, fallback: seq<string>, ranked: seq<string>, i: nat, j: nat)
    requires IsRanking(alpha, primary, fallback, ranked) && i < |ranked| && j < |ranked|
    requires Fused(alpha, primary, fallback, ranked[i]) > Fused(alpha, primary, fallback, ranked[j])
    ensures i < j
  {
  }

  lemma OnlyThree(alpha: real, ranked: seq<string>, k: nat, x: nat, a: nat, b: nat)
    requires IsRanking(alpha, [], REPEATING, ranked) && k < |ranked|
    requires RankedAt(ranked, "x", x) && RankedAt(ranked, "a", a) && RankedAt(ranked, "b", b)
    ensures k == x || k == a || k == b
  {
    assert ranked[k] in ranked;
    assert ranked[k] in REPEATING;
  }

  /** With at most `m` places for the dominated tool in each list, no ranking puts it before the dominating one. */
  ghost predicate NeverOvertaken(m: nat) {
    forall alpha: real, primary, fallback, ranked, a, b
      | 0.0 <= alpha <= 1.0 && IsRanking(alpha, primary, fallback, ranked) && Dominates(alpha, primary, fallback, a, b)
        && Times(primary, b) <= m && Times(fallback, b) <= m
      :: ComesFirst(ranked, a, b)
  }

  /** Exactly when it has at most one. */
  lemma NeverOvertakenIff(m: nat)
    ensures NeverOvertaken(m) <==> m <= 1
  {
    if m <= 1 {
      forall alpha: real, primary, fallback, ranked, a, b
        | 0.0 <= alpha <= 1.0 && IsRanking(alpha, primary, fallback, ranked)
          && Dominates(alpha, primary, fallback, a, b)
          && Times(primary, b) <= m && Times(fallback, b) <= m
        ensures ComesFirst(ranked, a, b)
      {
        DominatingToolComesFirst(alpha, primary, fallback, ranked, a, b, 0);
      }
    } else {
      RepeatingScores(0.0);
      ARankingOfRepeating();
    }
  }

  lemma ARankingOfRepeating()
    ensures IsRanking(0.0, [], REPEATING, ["x", "b", "a"]) && !ComesFirst(["x", "b", "a"], "a", "b")
  {
    RepeatingScores(0.0);
    assert RankedAt(["x", "b", "a"], "b", 1);
  }
}
