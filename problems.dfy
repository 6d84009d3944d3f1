/**
 * The existing-problems page: the loaded problems are narrowed to the
 * chosen difficulty and domain, the domain menu lists every domain that
 * occurs, one problem is shown at a time with previous/next buttons, a
 * vocabulary chip highlights its word in the Korean original, and
 * submitting shows the two stored machine translations of the problem.
 */
module Problems {
  import opened Common
  import opened Text
  import Highlight

  /** The menu entry that selects every difficulty or every domain. */
  const All: string := "전체"

  const NoProblem: string := "문제가 없습니다."

  /** A vocabulary hint of a problem. */
  datatype Vocab = Vocab(korean: string, chinese: string, pinyin: string, importance: string)

  /**
   * A stored problem. `domain` is `None` when the stored `분야` is not a
   * string; the machine translations are `None` when missing.
   */
  datatype Problem = Problem(
    id: string,
    korean: string,
    difficulty: string,
    domain: Option<string>,
    vocab: seq<Vocab>,
    chatGpt: Option<string>,
    gemini: Option<string>)

  /** `p["난이도"] === difficulty`, or every problem under `전체`. */
  predicate MatchesDifficulty(p: Problem, difficulty: string) {
    difficulty == All || p.difficulty == difficulty
  }

  /** `p["분야"] === domain`, or every problem under `전체`. */
  predicate MatchesDomain(p: Problem, domain: string) {
    domain == All || p.domain == Some(domain)
  }

  /** `filter(p => p["난이도"] === difficulty)` when a difficulty is chosen. */
  function ByDifficulty(ps: seq<Problem>, difficulty: string): (r: seq<Problem>)
    ensures difficulty == All ==> r == ps
  {
    if difficulty == All || ps == [] then ps
    else ByDifficulty(ps[..|ps| - 1], difficulty) + (if ps[|ps| - 1].difficulty == difficulty then [ps[|ps| - 1]] else [])
  }

  /** `filter(p => p["분야"] === domain)` when a domain is chosen. */
  function ByDomain(ps: seq<Problem>, domain: string): (r: seq<Problem>)
    ensures domain == All ==> r == ps
  {
    if domain == All || ps == [] then ps
    else ByDomain(ps[..|ps| - 1], domain) + (if ps[|ps| - 1].domain == Some(domain) then [ps[|ps| - 1]] else [])
  }

  /** The problems shown for a choice of difficulty and domain. */
  function Filtered(loaded: seq<Problem>, difficulty: string, domain: string): seq<Problem> {
    ByDomain(ByDifficulty(loaded, difficulty), domain)
  }

  /** The two filters keep exactly the problems that match both choices. */
  lemma {:induction false} FilteredMembers(loaded: seq<Problem>, difficulty: string, domain: string)
    ensures forall p :: p in Filtered(loaded, difficulty, domain) <==>
      p in loaded && MatchesDifficulty(p, difficulty) && MatchesDomain(p, domain)
  {
    DifficultyMembers(loaded, difficulty);
    DomainMembers(ByDifficulty(loaded, difficulty), domain);
  }

  lemma {:induction false} DifficultyMembers(ps: seq<Problem>, difficulty: string)
    ensures forall p :: p in ByDifficulty(ps, difficulty) <==> p in ps && MatchesDifficulty(p, difficulty)
  {
    if difficulty != All && ps != [] {
      DifficultyMembers(ps[..|ps| - 1], difficulty);
      assert ps == ps[..|ps| - 1] + [ps[|ps| - 1]];
    }
  }

  lemma {:induction false} DomainMembers(ps: seq<Problem>, domain: string)
    ensures forall p :: p in ByDomain(ps, domain) <==> p in ps && MatchesDomain(p, domain)
  {
    if domain != All && ps != [] {
      DomainMembers(ps[..|ps| - 1], domain);
      assert ps == ps[..|ps| - 1] + [ps[|ps| - 1]];
    }
  }

  /**
   * Filtering keeps the original order: filtering two lists one after the
   * other gives the filtered first list followed by the filtered second.
   */
  lemma {:induction false} FilteredKeepsOrder(xs: seq<Problem>, ys: seq<Problem>, difficulty: string, domain: string)
    ensures Filtered(xs + ys, difficulty, domain) == Filtered(xs, difficulty, domain) + Filtered(ys, difficulty, domain)
  {
    DifficultyAppend(xs, ys, difficulty);
    DomainAppend(ByDifficulty(xs, difficulty), ByDifficulty(ys, difficulty), domain);
  }

  lemma {:induction false} DifficultyAppend(xs: seq<Problem>, ys: seq<Problem>, difficulty: string)
    ensures ByDifficulty(xs + ys, difficulty) == ByDifficulty(xs, difficulty) + ByDifficulty(ys, difficulty)
    decreases |ys|
  {
    if difficulty != All && ys != [] {
      var init := ys[..|ys| - 1];
      assert (xs + ys)[..|xs + ys| - 1] == xs + init;
      DifficultyAppend(xs, init, difficulty);
    } else if ys == [] {
      assert xs + ys == xs;
    }
  }

  lemma {:induction false} DomainAppend(xs: seq<Problem>, ys: seq<Problem>, domain: string)
    ensures ByDomain(xs + ys, domain) == ByDomain(xs, domain) + ByDomain(ys, domain)
    decreases |ys|
  {
    if domain != All && ys != [] {
      var init := ys[..|ys| - 1];
      assert (xs + ys)[..|xs + ys| - 1] == xs + init;
      DomainAppend(xs, init, domain);
    } else if ys == [] {
      assert xs + ys == xs;
    }
  }

  /** The non-empty string domains of the problems, in order (`typeof === 'string'` and `!!v`). */
  function DomainValues(ps: seq<Problem>): (r: seq<string>)
    ensures forall d :: d in r <==> d != [] && exists k :: 0 <= k < |ps| && ps[k].domain == Some(d)
  {
    if ps == [] then []
    else
      var init := ps[..|ps| - 1];
      var last := ps[|ps| - 1];
      var r := DomainValues(init) + (if last.domain.Some? && last.domain.value != [] then [last.domain.value] else []);
      assert forall k :: 0 <= k < |init| ==> init[k] == ps[k];
      r
  }

  /**
   * `['전체', ...new Set(domains)]`: the menu opens with `전체`, then every
   * domain that occurs, once, in the order of first appearance.
   */
  function AvailableDomains(ps: seq<Problem>): (r: seq<string>)
    ensures |r| >= 1 && r[0] == All
    ensures Distinct(r[1..])
    ensures forall d :: d in r[1..] <==> d != [] && exists k :: 0 <= k < |ps| && ps[k].domain == Some(d)
  {
    var domains := Dedup(DomainValues(ps));
    DedupSameMembers(DomainValues(ps));
    assert ([All] + domains)[1..] == domains;
    [All] + domains
  }

  /** The page's state. */
  class ProblemsView {
    var problems: seq<Problem>
    var currentIndex: int
    var difficulty: string
    var domain: string
    var availableDomains: seq<string>
    var aiTranslations: map<string, string>
    var loading: bool
    var error: Option<string>
    var highlightWord: Option<string>
    var selectedVocab: Option<Vocab>

    constructor ()
      ensures problems == [] && currentIndex == 0 && difficulty == All && domain == All
      ensures availableDomains == [All] && aiTranslations == map[] && !loading && error == None
      ensures highlightWord == None && selectedVocab == None
    {
      problems := [];
      currentIndex := 0;
      difficulty := All;
      domain := All;
      availableDomains := [All];
      aiTranslations := map[];
      loading := false;
      error := None;
      highlightWord := None;
      selectedVocab := None;
    }

    /** `problems[currentIndex] || null`. */
    function Current(): (p: Option<Problem>)
      reads this
      ensures p.Some? <==> 0 <= currentIndex < |problems|
      ensures p.Some? ==> p.value == problems[currentIndex]
    {
      if 0 <= currentIndex < |problems| then Some(problems[currentIndex]) else None
    }

    /**
     * `fetchProblems` after the store answered with `loaded`: the domain menu
     * is rebuilt from every loaded problem, the list is narrowed to the
     * chosen difficulty and domain, and the first problem is shown.
     */
    method Load(loaded: seq<Problem>)
      modifies this
      ensures availableDomains == AvailableDomains(loaded)
      ensures problems == Filtered(loaded, difficulty, domain)
      ensures currentIndex == 0 && (Current().Some? <==> problems != [])
      ensures difficulty == old(difficulty) && domain == old(domain)
      ensures aiTranslations == old(aiTranslations) && loading == old(loading) && error == old(error)
      ensures highlightWord == old(highlightWord) && selectedVocab == old(selectedVocab)
    {
      availableDomains := AvailableDomains(loaded);
      var filtered := loaded;
      if difficulty != All {
        filtered := ByDifficulty(filtered, difficulty);
      }
      if domain != All {
        filtered := ByDomain(filtered, domain);
      }
      problems := filtered;
      currentIndex := 0;
    }

    /** `fetchProblems` when reading the store failed: no problems, and no problem shown. */
    method LoadFailed()
      modifies this`problems
      ensures problems == [] && Current().None?
    {
      problems := [];
    }

    /** Choosing a difficulty; the page then loads again. */
    method ChooseDifficulty(d: string)
      modifies this`difficulty
      ensures difficulty == d
    {
      difficulty := d;
    }

    /** Choosing a domain; the page then loads again. */
    method ChooseDomain(d: string)
      modifies this`domain
      ensures domain == d
    {
      domain := d;
    }

    /** "이전 문제" is disabled on the first problem. */
    predicate PrevEnabled()
      reads this
    {
      currentIndex != 0
    }

    /** "다음 문제" is disabled on the last problem. */
    predicate NextEnabled()
      reads this
    {
      currentIndex != |problems| - 1
    }

    /** Pressing "이전 문제", drawn only while a problem is shown. */
    method Prev()
      requires Current().Some?
      modifies this`currentIndex
      ensures Current().Some?
      ensures currentIndex == if old(PrevEnabled()) then old(currentIndex) - 1 else old(currentIndex)
    {
      if currentIndex != 0 {
        currentIndex := currentIndex - 1;
      }
    }

    /** Pressing "다음 문제", drawn only while a problem is shown. */
    method Next()
      requires Current().Some?
      modifies this`currentIndex
      ensures Current().Some?
      ensures currentIndex == if old(NextEnabled()) then old(currentIndex) + 1 else old(currentIndex)
    {
      if currentIndex != |problems| - 1 {
        currentIndex := currentIndex + 1;
      }
    }

    /** The counter `currentIndex + 1 / problems.length` under the buttons: never past the total. */
    function Counter(): (c: (int, int))
      reads this
      requires Current().Some?
      ensures 1 <= c.0 <= c.1 && c.1 == |problems|
    {
      (currentIndex + 1, |problems|)
    }

    /**
     * `handleSubmit`: without a problem the error `문제가 없습니다.` is
     * shown and nothing else; otherwise exactly the two stored machine
     * translations are shown, a missing one as empty. Loading is off
     * afterwards either way.
     */
    method Submit()
      modifies this`loading, this`error, this`aiTranslations
      ensures !loading
      ensures old(Current()).None? ==> error == Some(NoProblem) && aiTranslations == map[]
      ensures old(Current()).Some? ==>
        && error == None
        && aiTranslations.Keys == {"ChatGPT_번역", "Gemini_번역"}
        && aiTranslations["ChatGPT_번역"] == old(Current()).value.chatGpt.GetOr("")
        && aiTranslations["Gemini_번역"] == old(Current()).value.gemini.GetOr("")
    {
      loading := true;
      error := None;
      aiTranslations := map[];
      var problem := Current();
      if problem.None? {
        error := Some(NoProblem);
        loading := false;
        return;
      }
      aiTranslations := map["ChatGPT_번역" := problem.value.chatGpt.GetOr(""), "Gemini_번역" := problem.value.gemini.GetOr("")];
      loading := false;
    }

    /** The chip of `v` is ringed while its word is the highlighted one. */
    predicate ChipActive(v: Vocab)
      reads this
    {
      highlightWord == Some(v.korean)
    }

    /**
     * Clicking a vocabulary chip: the active chip switches the highlight
     * off; any other chip makes its word the highlight and itself the
     * vocabulary shown in detail.
     */
    method ClickVocab(v: Vocab)
      modifies this`highlightWord, this`selectedVocab
      ensures old(ChipActive(v)) ==> highlightWord == None && selectedVocab == None
      ensures !old(ChipActive(v)) ==> highlightWord == Some(v.korean) && selectedVocab == Some(v)
      ensures ChipActive(v) <==> !old(ChipActive(v))
    {
      if highlightWord == Some(v.korean) {
        highlightWord := None;
        selectedVocab := None;
      } else {
        highlightWord := Some(v.korean);
        selectedVocab := Some(v);
      }
    }

    /** The Korean original of the shown problem with the highlighted word marked. */
    function OriginalText(): (spans: seq<Highlight.Span>)
      reads this
      requires Current().Some?
      ensures Highlight.Concat(Highlight.SpanTexts(spans)) == Current().value.korean
    {
      Highlight.HighlightEscapedFaithful(Current().value.korean, highlightWord);
      Highlight.HighlightEscaped(Current().value.korean, highlightWord)
    }
  }

  /** Clicking the same chip twice leaves it inactive, whatever the state before. */
  method ClickTwice(view: ProblemsView, v: Vocab)
    modifies view
    ensures old(view.ChipActive(v)) ==> view.highlightWord == Some(v.korean) && view.selectedVocab == Some(v)
    ensures !old(view.ChipActive(v)) ==> view.highlightWord == None && view.selectedVocab == None
  {
    view.ClickVocab(v);
    view.ClickVocab(v);
  }
}
