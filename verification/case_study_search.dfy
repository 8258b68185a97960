/**
 * The case-study search box (preview/src/components/ui/case-study-search.tsx):
 * the suggestions offered for what has been typed, moving through them with
 * the arrow keys, picking one, and clearing the box. The 300 ms debounce
 * between typing and the page's query is not modelled: typing leaves the
 * page's query alone, picking and clearing set it at once.
 */
module CaseStudySearch {
  import JsNum
  import opened Strings
  import opened Seqs
  import opened CaseStudyFilter

  const ChallengePrefix := "Challenge: "

  /** The words of a lower-cased challenge that are longer than 3 characters and hold the query, each prefixed. */
  function ChallengeHits(words: seq<string>, q: string): (r: seq<string>)
    ensures forall x :: x in r <==> exists w :: w in words && JsNum.JsLength(w) > 3 && Contains(w, q) && x == ChallengePrefix + w
    decreases |words|
  {
    if |words| == 0 then []
    else
      var rest := ChallengeHits(words[1..], q);
      assert forall w :: w in words <==> w == words[0] || w in words[1..] by {
        assert words == [words[0]] + words[1..];
      }
      (if JsNum.JsLength(words[0]) > 3 && Contains(words[0], q) then [ChallengePrefix + words[0]] else []) + rest
  }

  function ChallengeWords(s: Study): seq<string>
  {
    Split(Lower(s.challenge), ' ')
  }

  predicate Hit(text: string, q: string)
  {
    Contains(Lower(text), q)
  }

  /** What one study adds, in the order the source adds it: client, industry, challenge words, services, tags. */
  function StudyHits(s: Study, q: string): seq<string>
  {
    (if Hit(s.client, q) then [s.client] else [])
    + (if Hit(s.industry, q) then [s.industry] else [])
    + ChallengeHits(ChallengeWords(s), q)
    + Filter(s.services, (x: string) => Hit(x, q))
    + Filter(s.tags, (x: string) => Hit(x, q))
  }

  /** A text one study can suggest for the lower-cased query `q`. */
  predicate FromStudy(s: Study, q: string, x: string)
  {
    || (x == s.client && Hit(s.client, q))
    || (x == s.industry && Hit(s.industry, q))
    || (exists w :: w in ChallengeWords(s) && JsNum.JsLength(w) > 3 && Contains(w, q) && x == ChallengePrefix + w)
    || (x in s.services && Hit(x, q))
    || (x in s.tags && Hit(x, q))
  }

  lemma StudyHitsAre(s: Study, q: string, x: string)
    ensures x in StudyHits(s, q) <==> FromStudy(s, q, x)
  {
    var p := (x: string) => Hit(x, q);
    assert x in Filter(s.services, p) <==> x in s.services && Hit(x, q) by {
      if x in s.services && Hit(x, q) {
        var i :| 0 <= i < |s.services| && s.services[i] == x;
      }
      if x in Filter(s.services, p) {
        var f := Filter(s.services, p);
        var i :| 0 <= i < |f| && f[i] == x;
      }
    }
    assert x in Filter(s.tags, p) <==> x in s.tags && Hit(x, q) by {
      if x in s.tags && Hit(x, q) {
        var i :| 0 <= i < |s.tags| && s.tags[i] == x;
      }
      if x in Filter(s.tags, p) {
        var f := Filter(s.tags, p);
        var i :| 0 <= i < |f| && f[i] == x;
      }
    }
  }

  /** Some study suggests `x`. */
  predicate Suggestible(studies: seq<Study>, q: string, x: string)
  {
    exists i :: 0 <= i < |studies| && FromStudy(studies[i], q, x)
  }

  /** Every study's hits, study by study. */
  function Candidates(studies: seq<Study>, q: string): (r: seq<string>)
    ensures forall x :: x in r <==> Suggestible(studies, q, x)
    decreases |studies|
  {
    if |studies| == 0 then []
    else
      var rest := Candidates(studies[1..], q);
      forall x ensures x in StudyHits(studies[0], q) <==> FromStudy(studies[0], q, x) {
        StudyHitsAre(studies[0], q, x);
      }
      forall x ensures Suggestible(studies, q, x) <==> FromStudy(studies[0], q, x) || Suggestible(studies[1..], q, x) {
        if Suggestible(studies[1..], q, x) {
          var i :| 0 <= i < |studies[1..]| && FromStudy(studies[1..][i], q, x);
          assert studies[1..][i] == studies[i + 1];
        }
        if Suggestible(studies, q, x) {
          var i :| 0 <= i < |studies| && FromStudy(studies[i], q, x);
          if i > 0 {
            assert studies[1..][i - 1] == studies[i];
          }
        }
      }
      StudyHits(studies[0], q) + rest
  }

  /**
   * The suggestion list for the text in the box: nothing under two
   * characters; otherwise at most eight distinct texts, each one some study
   * suggests, and when fewer than eight are shown every suggestible text is
   * among them.
   */
  function Suggestions(input: string, studies: seq<Study>): (r: seq<string>)
    ensures JsNum.JsLength(input) < 2 ==> r == []
    ensures |r| <= 8
    ensures NoDuplicates(r)
    ensures forall x :: x in r ==> Suggestible(studies, Lower(input), x)
    ensures JsNum.JsLength(input) >= 2 && |r| < 8 ==> forall x :: Suggestible(studies, Lower(input), x) ==> x in r
    ensures JsNum.JsLength(input) >= 2 ==> r == Take(FirstOccurrences(Candidates(studies, Lower(input))), 8)
  {
    if JsNum.JsLength(input) < 2 then []
    else
      var d := Dedup(Candidates(studies, Lower(input)));
      var r := Take(d, 8);
      assert forall x :: x in r ==> x in d;
      assert |r| < 8 ==> r == d;
      r
  }

  /** `ArrowDown`: the next suggestion, from the last (or from none) back to the first. */
  function Down(prev: int, n: nat): (r: int)
    requires n > 0
    ensures -1 <= prev < n ==> 0 <= r < n
    ensures prev == n - 1 ==> r == 0
  {
    if prev < n - 1 then prev + 1 else 0
  }

  /** `ArrowUp`: the previous suggestion, from the first (or from none) round to the last. */
  function Up(prev: int, n: nat): (r: int)
    requires n > 0
    ensures -1 <= prev < n ==> 0 <= r < n
    ensures prev <= 0 ==> r == n - 1
  {
    if prev > 0 then prev - 1 else n - 1
  }

  /** On a highlighted suggestion, up undoes down and down undoes up. */
  lemma UpDownInverse(i: int, n: nat)
    requires 0 <= i < n
    ensures Up(Down(i, n), n) == i
    ensures Down(Up(i, n), n) == i
  {
  }

  /** n presses of ArrowDown from a highlighted suggestion come back to it. */
  lemma DownCycles(i: int, n: nat)
    requires 0 <= i < n
    ensures DownTimes(i, n, n) == i
  {
    DownSteps(i, n, n - 1 - i);
    DownCompose(i, n, n - 1 - i, i + 1);
    DownCompose(n - 1, n, 1, i);
    assert DownTimes(n - 1, n, 1) == 0;
    DownSteps(0, n, i);
  }

  /** Short of the end, each press moves one down. */
  lemma {:induction false} DownSteps(i: int, n: nat, k: nat)
    requires 0 <= i && i + k < n
    ensures DownTimes(i, n, k) == i + k
    decreases k
  {
    if k > 0 {
      DownSteps(i, n, k - 1);
    }
  }

  lemma {:induction false} DownCompose(i: int, n: nat, a: nat, b: nat)
    requires n > 0
    ensures DownTimes(i, n, a + b) == DownTimes(DownTimes(i, n, a), n, b)
    decreases b
  {
    if b > 0 {
      DownCompose(i, n, a, b - 1);
    }
  }

  function DownTimes(i: int, n: nat, k: nat): int
    requires n > 0
    decreases k
  {
    if k == 0 then i else Down(DownTimes(i, n, k - 1), n)
  }

  /** The box's state: the text in it, the suggestions for that text, whether they show, the highlighted one, and the page's query. */
  datatype SearchBox = SearchBox(input: string, suggestions: seq<string>, show: bool, active: int, query: string)

  /** The highlight is on a suggestion or on none. */
  predicate ValidActive(b: SearchBox)
  {
    -1 <= b.active < |b.suggestions|
  }

  datatype Key = ArrowDown | ArrowUp | Enter | Escape | OtherKey

  /** `handleInputChange` together with the suggestion effect it triggers. */
  function HandleInputChange(b: SearchBox, v: string, studies: seq<Study>): (r: SearchBox)
    ensures ValidActive(r) && r.show && r.active == -1
    ensures r.input == v && r.suggestions == Suggestions(v, studies) && r.query == b.query
  {
    SearchBox(v, Suggestions(v, studies), true, -1, b.query)
  }

  /** `handleSuggestionClick`: the text without its first "Challenge: " goes into the box and becomes the query; the list closes. */
  function SuggestionClick(b: SearchBox, suggestion: string, studies: seq<Study>): (r: SearchBox)
    ensures ValidActive(r) && !r.show && r.active == -1
    ensures r.input == r.query && r.suggestions == Suggestions(r.input, studies)
    ensures !Contains(suggestion, ChallengePrefix) ==> r.input == suggestion
  {
    var clean := ReplaceFirst(suggestion, ChallengePrefix, "");
    SearchBox(clean, Suggestions(clean, studies), false, -1, clean)
  }

  /** Picking a challenge suggestion searches for the word alone. */
  lemma ChallengeWordSearched(b: SearchBox, w: string, studies: seq<Study>)
    ensures SuggestionClick(b, ChallengePrefix + w, studies).query == w
  {
    PrefixOfConcat(ChallengePrefix, w);
    assert (ChallengePrefix + w)[|ChallengePrefix|..] == w;
  }

  /**
   * `handleKeyDown`: nothing happens while the list is hidden or empty;
   * the arrows move the highlight round the list, Enter picks the
   * highlighted suggestion when there is one, Escape closes the list.
   */
  function HandleKeyDown(b: SearchBox, key: Key, studies: seq<Study>): (r: SearchBox)
    ensures ValidActive(b) ==> ValidActive(r)
    ensures !b.show || |b.suggestions| == 0 ==> r == b
    ensures b.show && |b.suggestions| > 0 && key == Enter && b.active < 0 ==> r == b
    ensures b.show && key == Enter && 0 <= b.active < |b.suggestions| ==> r == SuggestionClick(b, b.suggestions[b.active], studies)
    ensures b.show && |b.suggestions| > 0 && (key == ArrowDown || key == ArrowUp) ==> r == b.(active := r.active)
    ensures b.show && |b.suggestions| > 0 && key == Escape ==> r == b.(show := false, active := -1)
  {
    if !b.show || |b.suggestions| == 0 then b
    else
      var n := |b.suggestions|;
      match key
      case ArrowDown => b.(active := Down(b.active, n))
      case ArrowUp => b.(active := Up(b.active, n))
      case Enter =>
        if 0 <= b.active < n then SuggestionClick(b, b.suggestions[b.active], studies) else b
      case Escape => b.(show := false, active := -1)
      case OtherKey => b
  }

  /** `clearSearch`: an empty box and query, the list closed; the highlight is left where it was. */
  function ClearSearch(b: SearchBox, studies: seq<Study>): (r: SearchBox)
    ensures r.input == "" && r.query == "" && !r.show && r.suggestions == []
    ensures r.active == b.active
  {
    SearchBox("", Suggestions("", studies), false, b.active, "")
  }
}
