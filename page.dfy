/**
 * `TTVPage` (utils.py): one teletext page number with its sub-pages, the
 * `<pre>` blocks of the fetched document, and a cursor on the sub-page
 * shown. The network fetch is not modelled: the document arrives as the
 * events of its HTML, or `None` when the fetch produced nothing.
 */
module Page {
  import opened Wrappers
  import opened Tables
  import opened Parser

  /**
   * Where the cursor of a page with `pageN` sub-pages may be: on one of
   * them, or, without sub-pages, at 0 or at -1 (once the last one was
   * asked for).
   */
  predicate CursorOk(pageN: int, pageI: int) {
    if pageN <= 0 then -1 <= pageI <= 0 else 0 <= pageI < pageN
  }

  class TTVPage {
    /** The sub-pages; fixed once the page is built. */
    const snippets: seq<seq<TextSnippet>>
    /** `page_n`: the number of sub-pages. */
    const pageN: int := |snippets|
    var pageI: int

    /** `page_i` is where `CursorOk` allows. */
    ghost predicate Valid()
      reads this
    {
      CursorOk(pageN, pageI)
    }

    /** The constructor after the fetch: the sub-pages and the cursor on the first. */
    constructor(blocks: seq<seq<TextSnippet>>)
      ensures Valid() && snippets == blocks && pageI == 0
    {
      snippets := blocks;
      pageI := 0;
    }

    /**
     * `TTVPage(page_num)` given what the fetch produced: a document is fed
     * to a fresh parser, whose exceptions escape the constructor; no
     * document gives a page without sub-pages.
     */
    static method Load(doc: Option<seq<Event>>) returns (r: Result<TTVPage, PyError>)
      ensures doc.None? ==> r.Ok? && r.value.snippets == []
      ensures doc.Some? ==> (r.Ok? <==> Parse(ColorTbl.Keys, doc.value).Ok?)
      ensures doc.Some? && r.Ok? ==> r.value.snippets == Parse(ColorTbl.Keys, doc.value).value
      ensures doc.Some? && r.Err? ==> r == Err(Parse(ColorTbl.Keys, doc.value).error)
      ensures r.Ok? ==> fresh(r.value) && r.value.Valid() && r.value.pageI == 0
    {
      var blocks: seq<seq<TextSnippet>> := [];
      if doc.Some? {
        var parser := new TTVHTMLParser(ColorTbl.Keys);
        var err := parser.FeedEvents(doc.value);
        if err.Some? {
          return Err(err.value);
        }
        blocks := parser.GetSnippets();
      }
      var page := new TTVPage(blocks);
      r := Ok(page);
    }

    /** `get_page`: the current sub-page; fails exactly when the cursor is on none. */
    method GetPage() returns (r: Result<seq<TextSnippet>, PyError>)
      ensures r.Ok? <==> -pageN <= pageI < pageN
      ensures r.Ok? ==> r.value == snippets[if pageI < 0 then pageN + pageI else pageI]
      ensures r.Err? ==> r == Err(IndexError)
      ensures Valid() ==> (r.Ok? <==> pageN > 0)
    {
      r := PyIndex(snippets, pageI);
    }

    /**
     * `get_page_n(i)`: a negative `i` moves to the last sub-page (and fails
     * on a page without any); an `i` in range moves there; an `i` past the
     * end returns an empty sub-page and stays.
     */
    method GetPageN(i: int) returns (r: Result<seq<TextSnippet>, PyError>)
      modifies this
      ensures old(Valid()) ==> Valid()
      ensures i < 0 ==> pageI == pageN - 1 && (r.Ok? <==> pageN > 0) && (r.Ok? ==> r.value == snippets[pageN - 1])
      ensures 0 <= i < pageN ==> pageI == i && r == Ok(snippets[i])
      ensures i >= 0 && i >= pageN ==> pageI == old(pageI) && r == Ok([])
      ensures r.Err? ==> r == Err(IndexError)
    {
      if i < 0 {
        pageI := pageN - 1;
        r := PyIndex(snippets, -1);
      } else if i < pageN {
        pageI := i;
        r := Ok(snippets[i]);
      } else {
        r := Ok([]);
      }
    }

    /** `next`: moves to the following sub-page when there is one, and says whether it moved. */
    method Next() returns (moved: bool)
      modifies this
      ensures old(Valid()) ==> Valid()
      ensures moved <==> old(pageI) < pageN - 1
      ensures pageI == if moved then old(pageI) + 1 else old(pageI)
    {
      if pageI < pageN - 1 {
        pageI := pageI + 1;
        moved := true;
      } else {
        moved := false;
      }
    }

    /** `prev`: moves to the preceding sub-page when there is one, and says whether it moved. */
    method Prev() returns (moved: bool)
      modifies this
      ensures old(Valid()) ==> Valid()
      ensures moved <==> old(pageI) > 0
      ensures pageI == if moved then old(pageI) - 1 else old(pageI)
    {
      if pageI > 0 {
        pageI := pageI - 1;
        moved := true;
      } else {
        moved := false;
      }
    }
  }
}
