/**
 * The viewer loop of texttv/page_handler.py: page-number validation, the
 * page cache in front of the fetch, and the step that shows a page and
 * then reacts to one key.
 *
 * The terminal is not modelled. A key press is a `Key`. The prompt reads
 * the strings typed at it, given as a list in the order they are typed. The
 * document the eager fetch produces comes in as a parameter of each step.
 */
module Handler {
  import opened Wrappers
  import opened PyText
  import opened Tables
  import opened Parser
  import opened Page
  import opened Cache
  import opened Win

  /** `is_valid_page(page_num)`: a digit string naming a page from 100 to 999 (leading zeros allowed). */
  predicate IsValidPage(s: string) {
    IsDigits(s) && 100 <= DecValue(s) <= 999
  }

  function Pow10(n: nat): (r: nat)
    ensures r >= 1
  {
    if n == 0 then 1 else 10 * Pow10(n - 1)
  }

  /** A string of `n` digits denotes less than 10^n. */
  lemma {:induction false} DecValueBelow(s: string)
    requires AllDigits(s)
    ensures DecValue(s) < Pow10(|s|)
  {
    if s != [] {
      DecValueBelow(s[..|s| - 1]);
    }
  }

  /** A string of `n` digits that does not start with '0' denotes at least 10^(n-1). */
  lemma {:induction false} DecValueAtLeast(s: string)
    requires IsDigits(s) && s[0] != '0'
    ensures DecValue(s) >= Pow10(|s| - 1)
  {
    if |s| > 1 {
      var p := s[..|s| - 1];
      assert p[0] == s[0];
      DecValueAtLeast(p);
    } else {
      assert DigitValue(s[0]) >= 1;
    }
  }

  /**
   * Every valid page number written without leading zeros has exactly three
   * digits, and the numbers `str` produces are valid exactly from 100 to 999.
   */
  lemma ValidPagesHaveThreeDigits(s: string, n: nat)
    ensures IsValidPage(s) && Canonical(s) ==> |s| == 3
    ensures IsValidPage(NatToStr(n)) <==> 100 <= n <= 999
  {
    if IsValidPage(s) && Canonical(s) {
      DecValueBelow(s);
      if |s| > 3 {
        DecValueAtLeast(s);
        PowGrows(3, |s| - 1);
      } else if |s| < 3 {
        PowGrows(|s|, 2);
      }
    }
  }

  lemma {:induction false} PowGrows(m: nat, n: nat)
    requires m <= n
    ensures Pow10(m) <= Pow10(n)
  {
    if m < n {
      PowGrows(m, n - 1);
    }
  }

  /** Leading zeros are accepted; numbers outside 100..999 and non-digits are not. */
  lemma ValidPageExamples()
    ensures IsValidPage("100") && IsValidPage("999") && IsValidPage("0100")
    ensures !IsValidPage("99") && !IsValidPage("1000") && !IsValidPage("") && !IsValidPage("1a0")
  {
    assert !IsDigitChar("1a0"[1]);
    ThreeDigits('1', '0', '0');
    ThreeDigits('9', '9', '9');
    FourDigits('0', '1', '0', '0');
    FourDigits('1', '0', '0', '0');
    TwoDigits('9', '9');
  }

  lemma TwoDigits(a: char, b: char)
    requires IsDigitChar(a) && IsDigitChar(b)
    ensures AllDigits([a, b]) && DecValue([a, b]) == DigitValue(a) * 10 + DigitValue(b)
  {
    assert [a, b][..1] == [a];
    assert [a][..0] == [];
    assert DecValue([a]) == DigitValue(a);
  }

  lemma ThreeDigits(a: char, b: char, c: char)
    requires IsDigitChar(a) && IsDigitChar(b) && IsDigitChar(c)
    ensures AllDigits([a, b, c]) && DecValue([a, b, c]) == DigitValue(a) * 100 + DigitValue(b) * 10 + DigitValue(c)
  {
    assert [a, b, c][..2] == [a, b];
    TwoDigits(a, b);
  }

  lemma FourDigits(a: char, b: char, c: char, d: char)
    requires IsDigitChar(a) && IsDigitChar(b) && IsDigitChar(c) && IsDigitChar(d)
    ensures AllDigits([a, b, c, d])
    ensures DecValue([a, b, c, d]) == DigitValue(a) * 1000 + DigitValue(b) * 100 + DigitValue(c) * 10 + DigitValue(d)
  {
    assert [a, b, c, d][..3] == [a, b, c];
    ThreeDigits(a, b, c);
  }

  /**
   * The page number after the ends of a page's sub-pages, moving forward or
   * back: `str(int(page_num) ± 1)`, only from a valid number.
   */
  function NeighbourPage(pageNum: string, forward: bool): (r: Option<string>)
    ensures r.Some? <==> IsValidPage(pageNum)
    ensures r.Some? ==> (&& Canonical(r.value)
                         && PyInt(r.value) == Some(if forward then DecValue(pageNum) + 1 else DecValue(pageNum) - 1))
  {
    if !IsValidPage(pageNum) then None
    else if forward then Some(NatToStr(DecValue(pageNum) + 1))
    else Some(NatToStr(DecValue(pageNum) - 1))
  }

  /**
   * The numbers the viewer can be on: a digit string from 99 to 1000. The
   * stepping is checked on the old number, so '999' steps to '1000' and '100'
   * to '99', where neither direction moves any further.
   */
  predicate Reachable(pageNum: string) {
    IsDigits(pageNum) && 99 <= DecValue(pageNum) <= 1000
  }

  lemma NeighbourStaysReachable(pageNum: string, forward: bool)
    requires NeighbourPage(pageNum, forward).Some?
    ensures Reachable(NeighbourPage(pageNum, forward).value)
  {
  }

  /** From '999' the forward step leaves the valid range, and from '1000' no step moves. */
  lemma LastPageStepsOut()
    ensures NeighbourPage("999", true) == Some("1000")
    ensures !IsValidPage("1000") && NeighbourPage("1000", true) == None && NeighbourPage("1000", false) == None
  {
    ThreeDigits('9', '9', '9');
    FourDigits('1', '0', '0', '0');
    CanonicalRoundTrip("1000");
  }

  /** From '100' the backward step leaves the valid range, and from '99' no step moves. */
  lemma FirstPageStepsOut()
    ensures NeighbourPage("100", false) == Some("99")
    ensures !IsValidPage("99") && NeighbourPage("99", true) == None && NeighbourPage("99", false) == None
  {
    ThreeDigits('1', '0', '0');
    TwoDigits('9', '9');
    CanonicalRoundTrip("99");
  }

  /**
   * The prompt loop `while not valid(page_num): page_num = getstr(...)`
   * over the strings typed: the index of the first accepted one, or `None`
   * while none has been accepted yet.
   */
  method FirstAccepted(entries: seq<string>, accept: string -> bool) returns (r: Option<nat>)
    ensures r == FirstIndex(entries, accept)
  {
    var i := 0;
    while i < |entries|
      invariant i <= |entries|
      invariant forall j :: 0 <= j < i ==> !accept(entries[j])
    {
      if accept(entries[i]) {
        return Some(i);
      }
      i := i + 1;
    }
    r := None;
  }

  // ---------------------------------------------------------------------
  // The viewer loop

  /** `page_cache_sz` in `run_ttv`. */
  const PageCacheSize: nat := 10

  /** A key press as `run_ttv` tells them apart; `Enter` carries what is then typed at the prompt. */
  datatype Key =
    | Enter(typed: seq<string>)   // '\n' or ' '
    | NextKey                     // 'n' or the right arrow
    | PrevKey                     // 'p' or the left arrow
    | QuitKey                     // 'q'
    | OtherKey

  /** What the loop does after a key: go round again, keep prompting, or leave. */
  datatype Outcome = Continue | Prompting | Quit

  /** The navigation state of the loop: `page_num`, `is_new_page`, and the shown page's `page_i`. */
  datatype Nav = Nav(pageNum: string, isNewPage: Option<int>, pageI: int)

  /** The first string typed that `accept` takes. */
  function FirstIndex(typed: seq<string>, accept: string -> bool): (r: Option<nat>)
    ensures r.Some? ==> r.value < |typed| && accept(typed[r.value])
    ensures r.Some? ==> forall j :: 0 <= j < r.value ==> !accept(typed[j])
    ensures r.None? <==> forall j :: 0 <= j < |typed| ==> !accept(typed[j])
  {
    if typed == [] then None
    else if accept(typed[0]) then Some(0)
    else
      var rest := FirstIndex(typed[1..], accept);
      if rest.None? then None else Some(rest.value + 1)
  }

  /**
   * 'n' on a page with `pageN` sub-pages: the next sub-page, else (from a
   * valid number only) the next page number, to be opened at sub-page 0.
   */
  function StepForward(nav: Nav, pageN: int): Nav {
    if nav.pageI < pageN - 1 then nav.(pageI := nav.pageI + 1)
    else if IsValidPage(nav.pageNum) then nav.(pageNum := NeighbourPage(nav.pageNum, true).value, isNewPage := Some(0))
    else nav
  }

  /**
   * 'p' on a page: the previous sub-page, else (from a valid number only)
   * the previous page number, to be opened at its last sub-page.
   */
  function StepBack(nav: Nav): Nav {
    if nav.pageI > 0 then nav.(pageI := nav.pageI - 1)
    else if IsValidPage(nav.pageNum) then nav.(pageNum := NeighbourPage(nav.pageNum, false).value, isNewPage := Some(-1))
    else nav
  }

  /**
   * Enter: the first valid number typed is opened at sub-page 0; while none
   * is, the prompt waits for more.
   */
  function Prompt(nav: Nav, typed: seq<string>): (Nav, Outcome) {
    var i := FirstIndex(typed, IsValidPage);
    if i.None? then (nav, Prompting)
    else (nav.(pageNum := typed[i.value], isNewPage := Some(0)), Continue)
  }

  /**
   * The key dispatch of `run_ttv` on a page with `pageN` sub-pages: Enter
   * prompts as `Prompt` says, 'n' and 'p' step as `StepForward` and
   * `StepBack` say, 'q' quits and any other key goes round again.
   */
  function Dispatch(nav: Nav, pageN: int, key: Key): (Nav, Outcome) {
    match key
    case Enter(typed) => Prompt(nav, typed)
    case NextKey => (StepForward(nav, pageN), Continue)
    case PrevKey => (StepBack(nav), Continue)
    case QuitKey => (nav, Quit)
    case OtherKey => (nav, Continue)
  }

  /** What the loop keeps true of its navigation state on a page with `pageN` sub-pages. */
  predicate NavOk(nav: Nav, pageN: int) {
    && Reachable(nav.pageNum)
    && nav.isNewPage in {None, Some(0), Some(-1)}
    && CursorOk(pageN, nav.pageI)
  }

  /**
   * A key keeps the page number reachable and the cursor on the page.
   * Only Enter, and the page-end steps from a valid number, change the page
   * number or ask for a new page.
   */
  lemma DispatchKeepsNav(nav: Nav, pageN: int, key: Key)
    requires NavOk(nav, pageN)
    ensures NavOk(Dispatch(nav, pageN, key).0, pageN)
    ensures var next := Dispatch(nav, pageN, key).0;
      (next.pageNum != nav.pageNum || next.isNewPage != nav.isNewPage) ==>
        key.Enter? || (key.NextKey? && nav.pageI >= pageN - 1 && IsValidPage(nav.pageNum))
        || (key.PrevKey? && nav.pageI <= 0 && IsValidPage(nav.pageNum))
  {
    match key {
      case NextKey =>
        if nav.pageI >= pageN - 1 && IsValidPage(nav.pageNum) {
          NeighbourStaysReachable(nav.pageNum, true);
        }
      case PrevKey =>
        if nav.pageI <= 0 && IsValidPage(nav.pageNum) {
          NeighbourStaysReachable(nav.pageNum, false);
        }
      case _ =>
    }
  }

  /**
   * Past page 999 nothing but the prompt moves: on '1000' (and on '99'),
   * 'n' and 'p' only move within the page and never ask for another page.
   */
  lemma StuckBeyondTheEnds(nav: Nav, pageN: int, key: Key)
    requires nav.pageNum == "1000" || nav.pageNum == "99"
    requires key.NextKey? || key.PrevKey?
    ensures Dispatch(nav, pageN, key).0.pageNum == nav.pageNum
    ensures Dispatch(nav, pageN, key).0.isNewPage == nav.isNewPage
  {
    LastPageStepsOut();
    FirstPageStepsOut();
  }

  /**
   * What a turn shows of a page with sub-pages `snippets` and cursor
   * `pageI`, with the cursor afterwards: `get_page_n(is_new_page)` when a
   * new page was asked for, else `get_page()`.
   */
  function PickSub(snippets: seq<seq<TextSnippet>>, pageI: int, isNewPage: Option<int>): (Result<seq<TextSnippet>, PyError>, int) {
    match isNewPage
    case None => (PyIndex(snippets, pageI), pageI)
    case Some(i) =>
      if i < 0 then (PyIndex(snippets, -1), |snippets| - 1)
      else if i < |snippets| then (Ok(snippets[i]), i)
      else (Ok([]), pageI)
  }

  /**
   * On a page whose cursor is where it may be, the turn fails only on a
   * page without sub-pages that was not opened afresh at sub-page 0, and
   * otherwise shows the sub-page under the cursor (nothing on a page
   * without sub-pages). A new page opens on its first or its last
   * sub-page, as asked; the cursor stays where it may be.
   */
  lemma PickSubOnValidPage(snippets: seq<seq<TextSnippet>>, pageI: int, isNewPage: Option<int>)
    requires CursorOk(|snippets|, pageI)
    requires isNewPage in {None, Some(0), Some(-1)}
    ensures var (sub, i) := PickSub(snippets, pageI, isNewPage);
      && (sub.Ok? <==> |snippets| > 0 || isNewPage == Some(0))
      && (sub.Err? ==> sub == Err(IndexError))
      && (sub.Ok? ==> sub.value == if |snippets| == 0 then [] else snippets[i])
      && CursorOk(|snippets|, i)
      && (isNewPage == Some(0) && |snippets| > 0 ==> i == 0)
      && (isNewPage == Some(-1) ==> i == |snippets| - 1)
      && (isNewPage.None? ==> i == pageI)
  {
  }

  /** The state `run_ttv` keeps across turns of its loop. */
  class Session {
    const cache: PageCache<string, TTVPage>
    const win: TTVWin
    var pageNum: string
    /** `is_new_page`: `None`, or the sub-page to open the next page at (0, or -1 for the last). */
    var isNewPage: Option<int>
    /** The page shown by the last turn (`page` in the loop). */
    var current: TTVPage?

    ghost predicate Valid()
      reads this, cache, win
    {
      && cache.Valid() && cache.size == PageCacheSize
      && win.Valid() && win.colorTbl == ColorTbl
      && Reachable(pageNum)
      && isNewPage in {None, Some(0), Some(-1)}
    }

    /** `run_ttv(stdscr, page_num)` before its loop; the caller has checked the page number. */
    constructor(pageNum: string)
      requires IsValidPage(pageNum)
      ensures Valid() && fresh(cache) && fresh(win)
      ensures this.pageNum == pageNum && isNewPage == None && current == null
      ensures cache.State() == CacheState([], map[]) && win.State() == EmptyWin
    {
      ColorTblNoSpaces();
      cache := new PageCache(PageCacheSize);
      win := new TTVWin(ColorTbl);
      this.pageNum := pageNum;
      isNewPage := None;
      current := null;
    }

    /**
     * `page_cache.setdefault(page_num, TTVPage(page_num))`. The page
     * `built` is constructed (and its document fetched) on every turn, before
     * the lookup; the cache keeps the page it already had.
     */
    method Lookup(built: TTVPage) returns (page: TTVPage)
      requires Valid()
      modifies cache
      ensures Valid()
      ensures pageNum in cache.data && cache.data[pageNum] == page
      ensures pageNum in old(cache.data) ==> page == old(cache.data[pageNum]) && cache.State() == old(cache.State())
      ensures pageNum !in old(cache.data) ==>
        page == built && cache.State() == AfterSetItem(old(cache.State()), PageCacheSize, pageNum, built)
      ensures page == built || page in old(cache.data).Values
    {
      page := cache.SetDefault(pageNum, built);
    }

    /** The sub-page the turn shows, as `PickSub` says; a successful pick clears `is_new_page`. */
    method Pick(page: TTVPage) returns (r: Result<seq<TextSnippet>, PyError>)
      modifies this`isNewPage, page
      ensures (r, page.pageI) == PickSub(page.snippets, old(page.pageI), old(isNewPage))
      ensures isNewPage == if r.Ok? then None else old(isNewPage)
    {
      if isNewPage.Some? {
        r := page.GetPageN(isNewPage.value);
        if r.Err? {
          return;
        }
        isNewPage := None;
      } else {
        r := page.GetPage();
      }
    }

    /**
     * `win.load_page(snippets)` once a sub-page was picked from `page`: the
     * sub-page is drawn as `Render` says, and `page` is the page the keys
     * act on next.
     */
    method Draw(page: TTVPage, shown: seq<TextSnippet>) returns (r: Result<seq<(string, ColAttr)>, PyError>)
      requires Valid()
      modifies this`current, win
      ensures Valid() && current == page
      ensures r.Ok? <==> Render(ColorTbl, old(win.State()), shown).Ok?
      ensures r.Ok? ==> Render(ColorTbl, old(win.State()), shown) == Ok((win.State(), r.value))
      ensures r.Err? ==> r.error == Render(ColorTbl, old(win.State()), shown).error
    {
      current := page;
      var drawn, err := win.LoadPage(shown);
      if err.Some? {
        return Err(err.value);
      }
      r := Ok(drawn);
    }

    /** Enter: the prompt, which takes the first valid page number typed. */
    method OnEnter(typed: seq<string>) returns (o: Outcome)
      requires Valid()
      modifies this`pageNum, this`isNewPage
      ensures Valid()
      ensures (Nav(pageNum, isNewPage, 0), o) == Prompt(Nav(old(pageNum), old(isNewPage), 0), typed)
    {
      var i := FirstAccepted(typed, IsValidPage);
      if i.None? {
        return Prompting;
      }
      pageNum := typed[i.value];
      isNewPage := Some(0);
      o := Continue;
    }

    /** 'n': the next sub-page, or the next page from the last sub-page of a valid one. */
    method OnNext() returns (o: Outcome)
      requires Valid() && current != null
      modifies this`pageNum, this`isNewPage, current
      ensures Valid() && o == Continue
      ensures Nav(pageNum, isNewPage, current.pageI) == StepForward(Nav(old(pageNum), old(isNewPage), old(current.pageI)), current.pageN)
    {
      var moved := current.Next();
      if !moved && IsValidPage(pageNum) {
        NeighbourStaysReachable(pageNum, true);
        pageNum := NeighbourPage(pageNum, true).value;
        isNewPage := Some(0);
      }
      o := Continue;
    }

    /** 'p': the previous sub-page, or the last sub-page of the previous page from the first sub-page of a valid one. */
    method OnPrev() returns (o: Outcome)
      requires Valid() && current != null
      modifies this`pageNum, this`isNewPage, current
      ensures Valid() && o == Continue
      ensures Nav(pageNum, isNewPage, current.pageI) == StepBack(Nav(old(pageNum), old(isNewPage), old(current.pageI)))
    {
      var moved := current.Prev();
      if !moved && IsValidPage(pageNum) {
        NeighbourStaysReachable(pageNum, false);
        pageNum := NeighbourPage(pageNum, false).value;
        isNewPage := Some(-1);
      }
      o := Continue;
    }

    /** The second half of a turn: the key dispatched as `Dispatch` says. */
    method OnKey(key: Key) returns (o: Outcome)
      requires Valid() && current != null
      modifies this`pageNum, this`isNewPage, current
      ensures Valid()
      ensures (Nav(pageNum, isNewPage, current.pageI), o)
           == Dispatch(Nav(old(pageNum), old(isNewPage), old(current.pageI)), current.pageN, key)
    {
      match key {
        case Enter(typed) =>
          o := OnEnter(typed);
        case NextKey =>
          o := OnNext();
        case PrevKey =>
          o := OnPrev();
        case QuitKey =>
          o := Quit;
        case OtherKey =>
          o := Continue;
      }
    }
  }
}
