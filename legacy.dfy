/**
 * The older single-file viewer, texttv.py. Its parser and window are the
 * ones of the package, run over a colour table without magenta; its loop
 * keeps the page shown (`page_num`), the page asked for (`new_page_num`)
 * and the sub-page index (`snippets_i`), and reloads only when the two
 * page numbers differ.
 */
module Legacy {
  import opened Wrappers
  import opened PyText
  import opened Tables
  import opened Parser
  import opened Win
  import Handler

  /** `color_tbl` of texttv.py: the seven colours, without 'M'. */
  const LegacyColorTbl: map<string, Color> := map[
    "W" := ColorWhite, "B" := ColorBlue, "BK" := ColorBlack, "Y" := ColorYellow,
    "C" := ColorCyan, "R" := ColorRed, "G" := ColorGreen]

  /** The legacy table is the package's table less its magenta entry. */
  lemma LegacyColorTblLacksMagenta()
    ensures LegacyColorTbl == ColorTbl - {"M"}
    ensures "M" !in LegacyColorTbl && LegacyColorTbl.Keys < ColorTbl.Keys
    ensures NoSpaceKeys(LegacyColorTbl)
  {
    ColorTblKeys();
    assert LegacyColorTbl.Keys == {"W", "B", "BK", "Y", "C", "R", "G"};
  }

  /**
   * The class token 'M' is a foreground colour for the package's parser but
   * a text attribute for the legacy one: `<span class="M">` on the default
   * style is magenta there and the attribute 'M' here.
   */
  lemma MagentaTokenIsAnAttribute()
    ensures SlotOf(ColorTbl.Keys, "M") == FgSlot && SlotOf(LegacyColorTbl.Keys, "M") == AttrSlot
    ensures ResolveSpan(ColorTbl.Keys, DefaultStyle, "M") == Style("M", "BK", "0")
    ensures ResolveSpan(LegacyColorTbl.Keys, DefaultStyle, "M") == Style("BK", "BK", "M")
  {
    ColorTblKeys();
    assert !Contains("M", "bg");
    SplitWord("M", ' ');
    DefaultReread();
    assert Inherit(LegacyColorTbl.Keys, DefaultStyle) == Style("BK", "BK", "0") by {
      LegacyDefaultReread();
    }
    SingleToken(ColorTbl.Keys, Style("BK", "BK", "0"), "M");
    SingleToken(LegacyColorTbl.Keys, Style("BK", "BK", "0"), "M");
  }

  /** The legacy parser re-reads the default entry as the package's parser does. */
  lemma LegacyDefaultReread()
    ensures Inherit(LegacyColorTbl.Keys, DefaultStyle) == Style("BK", "BK", "0")
  {
    assert "W" in LegacyColorTbl && "BK" in LegacyColorTbl && "0" !in LegacyColorTbl;
    NotBackgroundAttrs();
    InheritRereadsBackgroundAsForeground(LegacyColorTbl.Keys, DefaultStyle);
  }

  /**
   * Such a snippet cannot be drawn by the legacy window: its style
   * `['BK', 'BK', 'M']` names the attribute 'M', which `attr_tbl` lacks.
   */
  lemma MagentaSnippetFailsToDraw(ws: WinState)
    ensures ParseStyleSpec(LegacyColorTbl, ws, ["BK", "BK", "M"]) == Err(KeyError)
  {
    AttrsOfFlags(["M"]);
    AttrTblKeys();
    assert ["BK", "BK", "M"][2..] == ["M"];
  }

  // ---------------------------------------------------------------------
  // The loop of `run_ttv`

  /**
   * `page_num`, `new_page_num` and `snippets_i`. `pageNum` is `None` for the
   * integer 0 the loop starts from, which no page-number string equals.
   */
  datatype Position = Position(pageNum: Option<string>, newPageNum: string, snippetsI: int)

  /** `int(page_num)`: 0 before the first load, else the string's value when it has one. */
  function PageInt(pageNum: Option<string>): (r: Option<int>)
    ensures pageNum.None? ==> r == Some(0)
    ensures pageNum.Some? && IsDigits(pageNum.value) ==> r == Some(DecValue(pageNum.value) as int)
  {
    if pageNum.None? then Some(0) else PyInt(pageNum.value)
  }

  /**
   * The key step of the legacy loop when the page has `count` sub-pages.
   * Enter takes the first digit string typed, of any length, and keeps the
   * sub-page index. 'n' and 'p' move within the page; past its ends they
   * ask for the neighbouring number (no bound above, and none below except
   * the literal '100'), 'p' with the sentinel -1 for "the last sub-page".
   * `int()` of a page number that has no integer value fails.
   */
  function Dispatch(pos: Position, count: int, key: Handler.Key): Result<(Position, Handler.Outcome), PyError> {
    match key
    case Enter(typed) =>
      var i := Handler.FirstIndex(typed, IsDigits);
      if i.None? then Ok((pos, Handler.Prompting))
      else Ok((pos.(newPageNum := typed[i.value]), Handler.Continue))
    case NextKey() =>
      if pos.snippetsI < count - 1 then Ok((pos.(snippetsI := pos.snippetsI + 1), Handler.Continue))
      else
        (match PageInt(pos.pageNum)
         case None => Err(ValueError)
         case Some(n) => Ok((pos.(snippetsI := 0, newPageNum := IntToStr(n + 1)), Handler.Continue)))
    case PrevKey() =>
      if pos.snippetsI > 0 then Ok((pos.(snippetsI := pos.snippetsI - 1), Handler.Continue))
      else if pos.pageNum == Some("100") then Ok((pos, Handler.Continue))
      else
        (match PageInt(pos.pageNum)
         case None => Err(ValueError)
         case Some(n) => Ok((pos.(snippetsI := -1, newPageNum := IntToStr(n - 1)), Handler.Continue)))
    case QuitKey() => Ok((pos, Handler.Quit))
    case OtherKey() => Ok((pos, Handler.Continue))
  }

  /**
   * 'n' and 'p' change the page asked for exactly when they step off an end
   * of the page ('p' not from the literal '100'), and then always to a
   * number other than the one shown, so the next turn reloads.
   */
  lemma StepOffTheEndReloads(pos: Position, count: int, key: Handler.Key)
    requires pos.pageNum.Some? && pos.newPageNum == pos.pageNum.value
    requires key.NextKey? || key.PrevKey?
    requires Dispatch(pos, count, key).Ok?
    ensures var next := Dispatch(pos, count, key).value.0;
      var off := if key.NextKey? then pos.snippetsI >= count - 1 else pos.snippetsI <= 0 && pos.pageNum != Some("100");
      && (off ==> Some(next.newPageNum) != next.pageNum)
      && (!off ==> next.newPageNum == pos.newPageNum)
  {
    if PageInt(pos.pageNum).Some? {
      var n := PageInt(pos.pageNum).value;
      IntStrRoundTrip(n + 1);
      IntStrRoundTrip(n - 1);
    }
  }

  /** Without an upper bound, 'n' on the last sub-page of 999 asks for page 1000. */
  lemma NoLastPage(count: int)
    ensures Dispatch(Position(Some("999"), "999", count - 1), count, Handler.NextKey)
         == Ok((Position(Some("999"), "1000", 0), Handler.Continue))
  {
    Handler.LastPageStepsOut();
  }

  /**
   * 'p' on the first sub-page stops at the literal '100' only: from '0100',
   * the same page written with a leading zero, it steps to 99.
   */
  lemma FirstPageGuardIsTextual(count: int)
    ensures Dispatch(Position(Some("100"), "100", 0), count, Handler.PrevKey)
         == Ok((Position(Some("100"), "100", 0), Handler.Continue))
    ensures Dispatch(Position(Some("0100"), "0100", 0), count, Handler.PrevKey)
         == Ok((Position(Some("0100"), "99", -1), Handler.Continue))
  {
    Handler.FourDigits('0', '1', '0', '0');
    assert "0100" != "100";
    Handler.FirstPageStepsOut();
    Handler.ThreeDigits('1', '0', '0');
  }

  /**
   * The legacy prompt takes any digit string, such as '5', which the
   * package's prompt refuses and keeps prompting on.
   */
  lemma PromptTakesAnyDigits(pos: Position, count: int, nav: Handler.Nav, pageN: int)
    ensures Dispatch(pos, count, Handler.Enter(["5"])) == Ok((pos.(newPageNum := "5"), Handler.Continue))
    ensures Handler.Dispatch(nav, pageN, Handler.Enter(["5"])) == (nav, Handler.Prompting)
  {
    assert IsDigitChar("5"[0]);
    assert DecValue("5") == 5 by {
      assert "5"[..0] == [];
    }
    assert !Handler.IsValidPage("5");
    assert Handler.FirstIndex(["5"], IsDigits) == Some(0);
    assert ["5"][1..] == [];
    assert Handler.FirstIndex(["5"], Handler.IsValidPage) == None;
  }

  class Viewer {
    const win: TTVWin
    var pageNum: Option<string>
    var newPageNum: string
    var snippetsI: int
    /** The sub-pages of the page last loaded. */
    var snippets: seq<seq<TextSnippet>>

    ghost predicate Valid()
      reads this, win
    {
      win.Valid() && win.colorTbl == LegacyColorTbl
    }

    function Pos(): Position
      reads this
    {
      Position(pageNum, newPageNum, snippetsI)
    }

    /** `run_ttv` before its loop, with the page number `get_config` returned. */
    constructor(config: string)
      ensures Valid() && Pos() == Position(None, config, 0) && snippets == []
      ensures win.State() == EmptyWin
    {
      LegacyColorTblLacksMagenta();
      win := new TTVWin(LegacyColorTbl);
      pageNum := None;
      newPageNum := config;
      snippetsI := 0;
      snippets := [];
    }

    /** A legacy parser fed the whole document. */
    static method ParseDoc(evs: seq<Event>) returns (r: Result<seq<seq<TextSnippet>>, PyError>)
      ensures r == Parse(LegacyColorTbl.Keys, evs)
    {
      var parser := new TTVHTMLParser(LegacyColorTbl.Keys);
      var err := parser.FeedEvents(evs);
      if err.Some? {
        return Err(err.value);
      }
      var blocks := parser.GetSnippets();
      r := Ok(blocks);
    }

    /**
     * The loading half of a turn; `false` ends the loop. When the page asked for differs from the
     * one shown it becomes the one shown and `doc` is what fetching it
     * produced: nothing ends the loop, a document is parsed (its errors
     * escape), and the sentinel -1 becomes the last sub-page's index.
     */
    method Load(doc: Option<seq<Event>>) returns (r: Result<bool, PyError>)
      modifies this`pageNum, this`snippets, this`snippetsI
      ensures newPageNum == old(newPageNum) && pageNum == Some(newPageNum)
      ensures old(pageNum) == Some(newPageNum) ==> r == Ok(true) && snippets == old(snippets) && snippetsI == old(snippetsI)
      ensures old(pageNum) != Some(newPageNum) && doc.None? ==> r == Ok(false)
      ensures old(pageNum) != Some(newPageNum) && doc.Some? ==>
        match Parse(LegacyColorTbl.Keys, doc.value)
        case Err(e) => r == Err(e)
        case Ok(blocks) => (&& r == Ok(true) && snippets == blocks
                            && snippetsI == if old(snippetsI) == -1 then |blocks| - 1 else old(snippetsI))
    {
      if Some(newPageNum) == pageNum {
        return Ok(true);
      }
      pageNum := Some(newPageNum);
      if doc.None? {
        return Ok(false);
      }
      var parsed := ParseDoc(doc.value);
      if parsed.Err? {
        return Err(parsed.error);
      }
      snippets := parsed.value;
      if snippetsI == -1 {
        snippetsI := |snippets| - 1;
      }
      r := Ok(true);
    }

    /** The drawing half of a turn: `win.load_page(snippets[snippets_i])`, with the sub-page drawn and what was drawn. */
    method Draw() returns (r: Result<(seq<TextSnippet>, seq<(string, ColAttr)>), PyError>)
      requires Valid()
      modifies win
      ensures Valid()
      ensures PyIndex(snippets, snippetsI).Err? ==> r == Err(IndexError)
      ensures PyIndex(snippets, snippetsI).Ok? ==>
        var sub := PyIndex(snippets, snippetsI).value;
        match Render(LegacyColorTbl, old(win.State()), sub)
        case Err(e) => r == Err(e)
        case Ok((ws, drawn)) => r == Ok((sub, drawn)) && win.State() == ws
    {
      var sub := PyIndex(snippets, snippetsI);
      if sub.Err? {
        return Err(sub.error);
      }
      var drawn, err := win.LoadPage(sub.value);
      if err.Some? {
        return Err(err.value);
      }
      r := Ok((sub.value, drawn));
    }

    /** The second half of a turn: the key handled as `Dispatch` says. */
    method OnKey(key: Handler.Key) returns (r: Result<Handler.Outcome, PyError>)
      modifies this`newPageNum, this`snippetsI
      ensures Dispatch(old(Pos()), |snippets|, key) == if r.Ok? then Ok((Pos(), r.value)) else Err(r.error)
    {
      match key {
        case Enter(typed) =>
          var i := Handler.FirstAccepted(typed, IsDigits);
          if i.None? {
            return Ok(Handler.Prompting);
          }
          newPageNum := typed[i.value];
          r := Ok(Handler.Continue);
        case NextKey() =>
          if snippetsI < |snippets| - 1 {
            snippetsI := snippetsI + 1;
          } else {
            var n := PageInt(pageNum);
            if n.None? {
              return Err(ValueError);
            }
            snippetsI := 0;
            newPageNum := IntToStr(n.value + 1);
          }
          r := Ok(Handler.Continue);
        case PrevKey() =>
          if snippetsI > 0 {
            snippetsI := snippetsI - 1;
          } else if pageNum != Some("100") {
            var n := PageInt(pageNum);
            if n.None? {
              return Err(ValueError);
            }
            snippetsI := -1;
            newPageNum := IntToStr(n.value - 1);
          }
          r := Ok(Handler.Continue);
        case QuitKey() =>
          r := Ok(Handler.Quit);
        case OtherKey() =>
          r := Ok(Handler.Continue);
      }
    }
  }
}
