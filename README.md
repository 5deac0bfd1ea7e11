# texttv in Dafny

A model of texttv, a curses viewer for SVT Text-TV. It fetches a teletext page as HTML, parses the `<pre>` blocks of the page into sub-pages of styled text snippets, and draws one sub-page at a time. `n`/`p` and the arrow keys page through the sub-pages and then on to the neighbouring page numbers. Enter or space opens a prompt for a page number, and `q` quits.

The project models:

- the parser (`TTVHTMLParser` in `utils.py`), which resolves span classes to (foreground, background, attribute) styles over a style stack, marks links, and replaces the text of header spans with block glyphs;
- the page (`TTVPage`) with its sub-page cursor;
- the window wrapper `TTVWin`, which registers one curses colour pair per foreground/background combination, in first-seen order;
- the bounded `PageCache`, an `OrderedDict` that drops its oldest insertions;
- the page-number check and the key loop of `texttv/page_handler.py`;
- the vocabularies of `texttv/tbls.py`;
- the older single-file viewer `texttv.py`, whose colour table has no magenta and whose loop keeps no cache.

Layout, one module per file:

| file | module | models |
|---|---|---|
| `wrappers.dfy` | `Wrappers` | `Option`, `Result`, the Python exceptions that escape (`KeyError`, `IndexError`, …) and Python indexing with negative indices |
| `pytext.dfy` | `PyText` | `str.isdigit`, `int()`, `str()`, `split(' ')`, `strip(chars)`, `in` on strings, the digit filter |
| `tables.dfy` | `Tables` | `color_tbl`, `attr_tbl`, `header_tbl` |
| `parser.dfy` | `Parser` | the parser. It has a state-transition specification (`OnStartTag`, `OnEndTag`, `OnData`, `Feed`, `Parse`) and the class `TTVHTMLParser`, whose handlers update its fields |
| `page.dfy` | `Page` | `TTVPage` |
| `win.dfy` | `Win` | `TTVWin.load_page` and `_parse_style` |
| `cache.dfy` | `Cache` | `PageCache` (its specification `AfterSetItem`/`Limit` and the class) |
| `handler.dfy` | `Handler` | `is_valid_page` and `run_ttv` as the class `Session` |
| `legacy.dfy` | `Legacy` | `texttv.py`: its colour table and its `run_ttv` as the class `Viewer` |

The HTML tokenizer is outside the model: a document is the sequence of start-tag, end-tag and text events that `HTMLParser.feed` would hand to the handlers. The curses calls are modelled as state: `init_pair` is the colour-pair registry, and `addstr` is the list of (text, colour-and-attributes) pairs drawn. A Python exception that escapes is an `Err` of a `Result`.

Behaviour of the code a reader may not expect:

- The cache evicts in insertion order (FIFO). A page that is looked up again with `setdefault` keeps its place (`Cache.RevisitedPageIsStillEvicted`). It is not a least-recently-used cache.
- A nested span re-reads its parent's tokens through the token rule. The parent's background colour is therefore read as a foreground colour, and the background resets to black (`Parser.InheritRereadsBackgroundAsForeground`, `Parser.ChildOfColouredSpan`). The child does not keep its parent's colours.
- `header_tbl` has 51 codes. Its glyphs all lie in the Block Elements block.
- An unknown colour or attribute token does not fail the parse. It fails later, when the sub-page is drawn (`Win.ParseStyleOutcome`).
- A page without sub-pages is drawn as nothing when it is opened at its first sub-page (after `n` or the prompt), but raises `IndexError` when it is opened at its last sub-page (after `p`) or shown again from the cache (`Handler.PickSubOnValidPage`).

## Model

| member | source | states |
|---|---|---|
| PyText.NatToStr | texttv/page_handler.py:99 | `str(n)` of a natural is a digit string with value `n` and no leading zero |
| PyText.CanonicalRoundTrip | texttv/page_handler.py:99 | `str(int(s)) == s` for a digit string without leading zeros |
| PyText.PyInt | texttv/page_handler.py:69 | `int(s)` of a digit string is its decimal value; any success comes from a digit string, optionally negated |
| PyText.IntStrRoundTrip | texttv.py:194 | `int(str(n)) == n` for every integer, negative ones included |
| PyText.Split | utils.py:114 | `split(' ')` yields at least one part, and no part contains the separator |
| PyText.JoinSplit | utils.py:114 | joining the parts of `split` with the separator gives back the string |
| PyText.SplitJoin | texttv/page_handler.py:28 | splitting parts joined by a separator they do not contain gives back the parts |
| PyText.SplitWord | utils.py:114 | a class without a space is a single token |
| PyText.StripIsTrimmedSlice | utils.py:122 | `strip(chars)` is the slice left after removing the longest runs of those characters at both ends |
| PyText.DigitsOf | utils.py:112 | the digit filter of a style keeps only digits, each digit as often as the style has it |
| PyText.DigitsOfChar | utils.py:112 | one character passes the filter exactly when it is a digit |
| PyText.DigitsOfConcat | utils.py:112 | the filter keeps the digits in their order: filtering `a + b` gives the digits of `a` followed by those of `b` |
| PyText.DigitsOfDigits | utils.py:112 | the digit filter leaves a digit string unchanged |
| PyText.IntToStr | texttv/page_handler.py:99 | `str(n)` for any integer, with a '-' before a negative one; `PyText.IntStrRoundTrip` states its round trip |
| PyText.Strip | utils.py:122 | `strip(chars)`; `PyText.StripIsTrimmedSlice` states what it keeps |
| PyText.Contains | utils.py:121 | `sub in s` as a contiguous occurrence; `PyText.ContainsIsSlice` characterises it and `PyText.ContainsLength` bounds it |
| PyText.ContainsIsSlice | utils.py:121 | `sub in s` holds exactly when `sub` equals the slice of `s` at some position |
| PyText.ContainsLength | utils.py:121 | a substring is no longer than the string containing it |
| Tables.ColorTblKeys | texttv/tbls.py:4 | the colour tokens are exactly W, B, BK, Y, C, R, G, M |
| Tables.AttrTblKeys | texttv/tbls.py:6 | the attribute tokens are exactly 0, DH, UL, and UL is underline |
| Tables.HeaderTblSize | texttv/tbls.py:9 | the header table has 51 distinct codes |
| Tables.HeaderTblCodes | texttv/tbls.py:9 | every code is a canonical digit string naming a teletext mosaic code (33..63 or 96..127) that the digit filter keeps |
| Tables.HeaderTblGlyphs | texttv/tbls.py:9 | every glyph lies in Block Elements, U+2580..U+259F |
| Tables.HeaderTblFullBlock | texttv/tbls.py:9 | codes 124, 127, 47, 115, 119, 63, 123 and 111 all map to the full block |
| Parser.ApplyToken | utils.py:125-131 | a token writes its slot, and the other two slots keep their values. A colour key goes to the foreground, a token containing "bg" to the background (stripped), anything else to the attribute |
| Parser.LastTokenWins | utils.py:118-131 | after a token loop each slot holds the value of the last token of that slot |
| Parser.UntouchedSlotKeeps | utils.py:118-131 | a slot no token writes keeps its starting value |
| Parser.ResolveSpan | utils.py:113-132 | the entry a `<span class>` pushes: the parent re-read from the default, then the class tokens; stated by `Parser.LastTokenWins` and `Parser.InheritRereadsBackgroundAsForeground` |
| Parser.InheritRereadsBackgroundAsForeground | utils.py:115-124 | re-reading a parent with colour-key foreground and background gives (parent background, BK, parent attribute) |
| Parser.DefaultReread | utils.py:90 | the default entry [W, BK, 0] re-reads as [BK, BK, 0] |
| Parser.ChildOfColouredSpan | utils.py:113-132 | a DH span inside a yellow-on-blue span is blue on black |
| Parser.GreenOnBlack | utils.py:113-132 | the class "G bgBK" on the first span resolves to green on black |
| Parser.NotBackgroundAttrs | utils.py:121 | the attribute tokens 0 and DH are not background tokens |
| Parser.BackgroundTokens | utils.py:128-129 | every "bg" + colour token is a background token whose value is that colour |
| Parser.StripRemovesCharacters | utils.py:122 | `strip('bg')` removes characters, not a prefix: "bgblue" becomes "lue" |
| Parser.FirstHref | utils.py:104-108 | an `<a>` takes the value of its first `href` attribute, and none without one |
| Parser.SpanAttr | utils.py:110-132 | one attribute of a `<span>` in `<pre>`: `style` sets the pending background digits, `class` pushes a resolved entry; a bare attribute raises as the source does |
| Parser.SpanAttrs | utils.py:110-132 | the attributes in order, stopping at the first exception; `Parser.SpanAttrsErr` and `Parser.SpanAttrsKeepBlocks` state its properties |
| Parser.OnStartTag | utils.py:100-132 | `handle_starttag` as a state transition; `Parser.TTVHTMLParser.HandleStartTag` is proved to follow it |
| Parser.OnEndTag | utils.py:134-140 | `handle_endtag` as a state transition; `Parser.TTVHTMLParser.HandleEndTag` is proved to follow it |
| Parser.OnData | utils.py:142-157 | `handle_data` as a state transition; `Parser.DataRun` states what it does |
| Parser.Step | utils.py:100-157 | one event handed to its handler |
| Parser.Feed | utils.py:27 | the events in order, ending at the first exception; `Parser.FeedSplit`, `Parser.FeedErrSticky` and `Parser.FeedBlocks` state its properties |
| Parser.Parse | utils.py:21-28 | a fresh parser fed the document, then `get_snippets`; `Parser.SubPagesArePreBlocks` and `Parser.UnclosedBlockDropped` state its properties |
| Parser.FirstHrefAt | utils.py:104-108 | the `href` at index `i` with none before it is the one taken |
| Parser.StepOutsidePre | utils.py:100-103 | outside `<pre>`, an event other than a `<pre>` tag changes nothing |
| Parser.FeedOutsidePre | utils.py:100-157 | text between blocks is ignored: a run without `<pre>` tags leaves a state outside `<pre>` unchanged |
| Parser.StepBlocks | utils.py:134-138 | an event adds a sub-page exactly when it is `</pre>`, and keeps the earlier ones; `</pre>` then empties the current sub-page and leaves the block, and any other event only adds to the current sub-page |
| Parser.FeedBlocks | utils.py:134-138 | a successful feed keeps the sub-pages it started with and appends one per `</pre>` |
| Parser.FeedWithinBlock | utils.py:134-138 | events without `</pre>` keep the finished sub-pages and only add to the current one |
| Parser.LastSubPageIsItsBlock | utils.py:134-138 | the sub-page a `</pre>` closes is what its own block drew after the previous `</pre>`, starting from an empty current sub-page |
| Parser.SubPagesArePreBlocks | utils.py:134-138 | a parsed page has exactly one sub-page per `</pre>` |
| Parser.UnclosedBlockDropped | utils.py:134-138 | events after the last `</pre>` add nothing to the sub-pages |
| Parser.FeedSplit | utils.py:27 | feeding two runs is feeding the first and then the second from its state, and an error in the first is the result |
| Parser.DataRun | utils.py:142-157 | a text run inside `<pre>` appends exactly one snippet. Its text is the glyph when a mapped background is pending, else the text. Its style is the three tokens of the top entry, followed by UL exactly when the link is truthy. It keeps the link, then clears the link and the background. The style stack, the finished sub-pages and the `<pre>` flag stay as they were |
| Parser.UnmatchedSpanClose | utils.py:139-144 | a `</span>` no span pushed empties the stack, and the next text raises `IndexError` |
| Parser.ClasslessSpanStillPops | utils.py:109-140 | a span without a class pushes nothing, but its `</span>` still pops |
| Parser.GreenSpanPage | utils.py:100-157 | a green span on black in one `<pre>` parses to one sub-page with one snippet styled [G, BK, 0] |
| Parser.SpanAttrsKeepBlocks | utils.py:109-132 | a span's attributes never touch the finished sub-pages |
| Parser.SpanAttrsErr | utils.py:110-131 | an exception at one attribute of a span is the outcome of the whole tag |
| Parser.FeedErrSticky | utils.py:27 | an exception in a prefix of the events is the outcome of the whole feed |
| Parser.TTVHTMLParser.constructor | utils.py:88-95 | the fields start at the initial state: stack [[W, BK, 0]], no link, no snippets, outside `<pre>` |
| Parser.TTVHTMLParser.GetSnippets | utils.py:97-98 | returns the finished sub-pages |
| Parser.TTVHTMLParser.ResolveTokens | utils.py:118-131 | the token loop computes `ApplyTokens` |
| Parser.TTVHTMLParser.HandleStartTag | utils.py:100-132 | updates the fields as `OnStartTag` does, or reports its exception |
| Parser.TTVHTMLParser.HandleEndTag | utils.py:134-140 | updates the fields as `OnEndTag` does, or reports its exception |
| Parser.TTVHTMLParser.HandleData | utils.py:142-157 | updates the fields as `OnData` does, or reports its exception |
| Parser.TTVHTMLParser.FeedEvents | utils.py:27 | hands the events to the handlers in order, ending at the first exception, as `Feed` says |
| Page.TTVPage.constructor | utils.py:18-31 | a page holds its sub-pages with the cursor on the first |
| Page.TTVPage.Load | utils.py:18-31 | no document gives a page without sub-pages. A document gives its parsed sub-pages, or the parser's exception |
| Page.TTVPage.GetPage | utils.py:56-57 | Python indexing at the cursor. On a valid cursor it fails with `IndexError` exactly when there are no sub-pages |
| Page.TTVPage.GetPageN | utils.py:59-68 | a negative `i` moves to the last sub-page (failing when there is none). An `i` in range moves there. An `i` past the end returns nothing and stays. The cursor stays valid |
| Page.TTVPage.Next | utils.py:70-76 | moves forward exactly when a later sub-page exists, reports whether it moved, and keeps the cursor valid |
| Page.TTVPage.Prev | utils.py:78-84 | moves back exactly when the cursor is past the first sub-page, reports whether it moved, and keeps the cursor valid |
| Win.AttrBits | texttv/page_handler.py:24-26 | a normal attribute contributes no flag, and any other attribute contributes itself |
| Win.AttrsOfFlags | texttv/page_handler.py:24-26 | the attribute tokens succeed exactly when all are known, else `KeyError`. The flags are the non-normal attributes of the tokens |
| Win.AttrFlags | texttv/page_handler.py:24-26 | the flag loop computes `AttrsOf` |
| Win.Register | texttv/page_handler.py:29-31 | a new pair key gets number `len(colors) + 1`, and that pair is initialised with the given colours. Every older key keeps its number, and every older pair keeps its colours |
| Win.AttrsOf | texttv/page_handler.py:24-26 | the OR of the attribute flags, failing on the first unknown token; `Win.AttrsOfFlags` states it |
| Win.ParseStyleSpec | texttv/page_handler.py:21-33 | `_parse_style` on the registry as a value; `Win.ParseStyleOutcome` states it |
| Win.Render | texttv/page_handler.py:15-19 | `load_page` on the registry as a value, the first exception ending it; `Win.RenderKeepsValid` and `Win.PairsNumberedInFirstSeenOrder` state its properties |
| Win.RenderOne | texttv/page_handler.py:16-18 | one turn of the `load_page` loop |
| Win.PairKeySplits | texttv/page_handler.py:28 | the pair key "fg bg" splits back into its two colour tokens |
| Win.ParseStyleOutcome | texttv/page_handler.py:21-33 | a style succeeds exactly when its two colours and all its attributes are known. A new pair is numbered one past the registry, and a known pair keeps its number |
| Win.RegisterKeepsValid | texttv/page_handler.py:29-31 | registering a pair keeps every number in 1..n, one pair per number, agreeing with the colour table |
| Win.ParseStyleKeepsValid | texttv/page_handler.py:21-33 | parsing a style keeps the registry valid |
| Win.RenderKeepsValid | texttv/page_handler.py:15-19 | drawing a sub-page keeps the registry valid |
| Win.RenderErrSticky | texttv/page_handler.py:15-19 | an exception at one snippet ends the drawing of the sub-page |
| Win.RenderSnoc | texttv/page_handler.py:15-19 | drawing one more snippet is one more step of the loop |
| Win.RenderSplit | texttv/page_handler.py:15-19 | drawing `a + b` is drawing `a` and then `b` from the registry `a` left behind, so pair numbers carry over from one sub-page to the next |
| Win.FirstSeen | texttv/page_handler.py:29-31 | the pair keys, each once, in the order of their first occurrence |
| Win.StyleKeys | texttv/page_handler.py:28 | at most one pair key per snippet, and a key is listed exactly when some snippet's style names it |
| Win.PairsNumberedInFirstSeenOrder | texttv/page_handler.py:15-33 | from an empty registry, the pairs are numbered 1, 2, … in the order their keys first appear |
| Win.ColorTblNoSpaces | texttv/tbls.py:4 | no colour token contains a space, so pair keys are unambiguous |
| Win.LinkStyleUnderlined | utils.py:145-146 | a link's style with UL appended parses, and its attributes include underline |
| Win.TTVWin.constructor | texttv/page_handler.py:10-13 | a window starts with an empty pair registry |
| Win.TTVWin.ParseStyle | texttv/page_handler.py:21-33 | returns what `ParseStyleSpec` computes and registers its new pair; on an exception the registry is unchanged |
| Win.TTVWin.LoadPage | texttv/page_handler.py:15-19 | draws the snippets as `Render` says, or reports its exception |
| Cache.Put | texttv/page_handler.py:49 | the key order after `OrderedDict.__setitem__`: a new key goes last, an existing one stays; `Cache.PutDistinct` states it |
| Cache.AfterSetItem | texttv/page_handler.py:48-50 | `cache[k] = v` on the cache as a value; `Cache.SetItemValid` and `Cache.SetExistingKeepsOrder` state it |
| Cache.AfterSetDefault | texttv/page_handler.py:52-55 | `setdefault` on the cache as a value: a missing key is set, a present one changes nothing |
| Cache.AfterUpdate | texttv/page_handler.py:57-59 | `update` on the cache as a value: one `__setitem__` per item; `Cache.UpdateNewKeysIsFifo` states it |
| Cache.Limit | texttv/page_handler.py:61-64 | trimming keeps the newest `size` keys, in order, and a size of 0 keeps all of them |
| Cache.Restrict | texttv/page_handler.py:61-64 | the map keeps exactly the kept keys, with their values |
| Cache.KeysOf | texttv/page_handler.py:57-59 | the keys of the items, in order |
| Cache.LimitDistinct | texttv/page_handler.py:61-64 | trimming keeps the keys distinct |
| Cache.PutDistinct | texttv/page_handler.py:48-49 | insertion order keeps keys distinct and holds the old keys plus the new one |
| Cache.SetItemValid | texttv/page_handler.py:48-50 | `__setitem__` keeps the order and the map in step and within `size`. It stores the new value, and every other key that stays keeps its old value |
| Cache.LimitKeepsNewest | texttv/page_handler.py:61-64 | trimming never drops the newest key |
| Cache.LimitIsSubset | texttv/page_handler.py:61-64 | trimming only removes keys |
| Cache.SetExistingKeepsOrder | texttv/page_handler.py:48-50 | reassigning a present key changes its value only, not its place |
| Cache.RestrictAll | texttv/page_handler.py:61-64 | restricting a map to its own keys changes nothing |
| Cache.RestrictOf | texttv/page_handler.py:61-64 | a map that agrees with the data on exactly the kept keys is the restriction |
| Cache.PopOldest | texttv/page_handler.py:63-64 | popping the oldest key leaves the other keys, distinct |
| Cache.LimitOfLimit | texttv/page_handler.py:48-50 | trimming after every insertion is trimming once at the end |
| Cache.UpdateSnoc | texttv/page_handler.py:57-59 | an update with one more item is one more `__setitem__` |
| Cache.UpdateNewKeysIsFifo | texttv/page_handler.py:57-59 | `update` with new keys keeps the newest `size` of the old and new keys, in insertion order |
| Cache.RevisitedPageIsStillEvicted | texttv/page_handler.py:52-64 | with size 2, `setdefault` on pages 1, 2, 1, 3 evicts page 1 although it was just looked up; the second lookup of 1 changes nothing |
| Cache.PageCache.constructor | texttv/page_handler.py:44-46 | an empty cache with the given size |
| Cache.PageCache.LimitSize | texttv/page_handler.py:61-64 | pops the oldest entries until at most `size` remain: the order becomes `Limit` and the map its restriction |
| Cache.PageCache.SetItem | texttv/page_handler.py:48-50 | the new state is `AfterSetItem` and the cache stays valid |
| Cache.PageCache.SetDefault | texttv/page_handler.py:52-55 | returns the present value, or stores and returns the default. Other entries keep their values or are evicted |
| Cache.PageCache.Update | texttv/page_handler.py:57-59 | the new state is the items set one by one, `AfterUpdate` |
| Handler.IsValidPage | texttv/page_handler.py:67-71 | `is_valid_page`: a digit string whose value lies in 100..999; `Handler.ValidPagesHaveThreeDigits` and `Handler.ValidPageExamples` state it |
| Handler.ValidPagesHaveThreeDigits | texttv/page_handler.py:67-71 | a valid page number without leading zeros has three digits, and `str(n)` is valid exactly for 100..999 |
| Handler.ValidPageExamples | texttv/page_handler.py:67-71 | 100, 999 and 0100 are valid. 99, 1000, the empty string and 1a0 are not |
| Handler.NeighbourPage | texttv/page_handler.py:97-104 | a neighbour exists exactly from a valid number, and it is `str(int(page_num) ± 1)` |
| Handler.NeighbourStaysReachable | texttv/page_handler.py:97-104 | a neighbour lies in 99..1000 |
| Handler.LastPageStepsOut | texttv/page_handler.py:97-100 | 'n' steps from 999 to 1000, from where no step moves |
| Handler.FirstPageStepsOut | texttv/page_handler.py:101-104 | 'p' steps from 100 to 99, from where no step moves |
| Handler.FirstIndex | texttv/page_handler.py:92-95 | the prompt stops at the first accepted entry, with none accepted before it, and keeps waiting while none is accepted |
| Handler.FirstAccepted | texttv/page_handler.py:92-95 | the prompt loop computes `FirstIndex` |
| Handler.StepForward | texttv/page_handler.py:97-100 | 'n': the next sub-page, else from a valid number the next page at sub-page 0 |
| Handler.StepBack | texttv/page_handler.py:101-104 | 'p': the previous sub-page, else from a valid number the previous page at its last sub-page |
| Handler.Prompt | texttv/page_handler.py:89-96 | Enter: the first valid number typed, opened at sub-page 0, or keep prompting |
| Handler.Dispatch | texttv/page_handler.py:88-106 | the key dispatch of the loop; `Handler.DispatchKeepsNav` and `Handler.StuckBeyondTheEnds` state its properties |
| Handler.PickSub | texttv/page_handler.py:81-85 | `get_page_n(is_new_page)` or `get_page()`; `Handler.PickSubOnValidPage` states it |
| Handler.DispatchKeepsNav | texttv/page_handler.py:88-106 | a key keeps the page number in 99..1000 and the cursor valid. Only Enter, or 'n'/'p' at a page end from a valid number, change the page asked for |
| Handler.StuckBeyondTheEnds | texttv/page_handler.py:97-104 | on 1000 or 99, 'n' and 'p' never change the page number |
| Handler.PickSubOnValidPage | texttv/page_handler.py:81-85 | a turn fails exactly on a page without sub-pages not opened at 0, opens a new page on its first or last sub-page as asked, and keeps the cursor valid |
| Handler.Session.constructor | texttv/page_handler.py:75-78 | a size-10 empty cache, an empty window, the given valid page and no new-page request |
| Handler.Session.Lookup | texttv/page_handler.py:80 | `setdefault`: a cached page is returned and the cache is unchanged. Otherwise the freshly built page is stored and returned |
| Handler.Session.Pick | texttv/page_handler.py:81-85 | selects the sub-page as `PickSub` says and clears the new-page request |
| Handler.Session.Draw | texttv/page_handler.py:86 | draws the sub-page as `Render` says and keeps the session valid |
| Handler.Session.OnEnter | texttv/page_handler.py:89-96 | the prompt opens the first valid number at sub-page 0, or keeps waiting |
| Handler.Session.OnNext | texttv/page_handler.py:97-100 | 'n' moves as `StepForward` says and keeps the session valid |
| Handler.Session.OnPrev | texttv/page_handler.py:101-104 | 'p' moves as `StepBack` says and keeps the session valid |
| Handler.Session.OnKey | texttv/page_handler.py:88-106 | a key changes the navigation state as `Dispatch` says and keeps the session valid |
| Legacy.LegacyColorTblLacksMagenta | texttv.py:7 | the legacy colour table is the package's without M |
| Legacy.MagentaTokenIsAnAttribute | texttv.py:92-105 | in the legacy parser the token M falls to the attribute slot, so a span "M" resolves to [BK, BK, M] instead of [M, BK, 0] |
| Legacy.LegacyDefaultReread | texttv.py:89-98 | the default entry re-reads as [BK, BK, 0] in the legacy parser too |
| Legacy.MagentaSnippetFailsToDraw | texttv.py:29-34 | a snippet styled [BK, BK, M] fails to draw with `KeyError` |
| Legacy.PageInt | texttv.py:194 | `int(page_num)` is 0 before the first load, else the value of the digit string |
| Legacy.Dispatch | texttv.py:181-203 | the legacy key dispatch; `Legacy.StepOffTheEndReloads`, `Legacy.NoLastPage`, `Legacy.FirstPageGuardIsTextual` and `Legacy.PromptTakesAnyDigits` state its properties |
| Legacy.StepOffTheEndReloads | texttv.py:189-201 | 'n'/'p' change the page asked for exactly when they step off an end ('p' not from the literal 100), and then to a different number |
| Legacy.NoLastPage | texttv.py:189-194 | 'n' on the last sub-page of 999 asks for page 1000 |
| Legacy.FirstPageGuardIsTextual | texttv.py:195-201 | 'p' stops at the literal 100, but from 0100 it steps to 99 |
| Legacy.PromptTakesAnyDigits | texttv.py:182-188 | the legacy prompt takes "5", which the package's prompt refuses |
| Legacy.Viewer.constructor | texttv.py:162-165 | nothing loaded yet, the configured page asked for, sub-page 0 |
| Legacy.Viewer.ParseDoc | texttv.py:174-176 | parses with the legacy colour keys |
| Legacy.Viewer.Load | texttv.py:167-178 | reloads only when the page asked for differs from the one shown. No document ends the loop. The sentinel -1 becomes the last sub-page |
| Legacy.Viewer.Draw | texttv.py:180 | draws `snippets[snippets_i]` with Python indexing, or reports `IndexError` or the drawing's exception |
| Legacy.Viewer.OnKey | texttv.py:181-203 | a key changes the position as `Legacy.Dispatch` says, or reports `ValueError` from `int()` |

## Left out

- The network: `_create_url`, `_fetch_page` and `fetch_page` are not modelled. What a fetch produced is a parameter: `None` when it failed or returned an empty document, else the document's events.
- The HTML tokenizer (`HTMLParser.feed`): a document is given as its events. Character references and malformed markup are not modelled.
- `TextSnippet.__str__` and the `__getattr__`/`__setattr__` delegation of `TTVWin`.
- Curses: `refresh`, `clear`, `getch`, `echo`/`noecho`, `curs_set`, `start_color`, the prompt's `addstr(1, 1, '   ')` and the three-character limit of `getstr`. A key press is given as a `Key`, and the strings typed at the prompt as a sequence. Attribute flags are a set of attributes, not OR-ed integers.
- `get_config` and `main` (argument parsing, the "Terminal not big enough" message). `Handler.Session.constructor` requires the valid page number that `get_config` checks.
- Handler.Session: a turn is `Lookup`, `Pick`, `Draw` and `OnKey`, called by the caller in that order. There is no method for the endless `while True` loop. The `TTVPage(page_num)` that the loop builds on every turn, before the cache lookup, is passed in as `built`.
- Handler.Session.OnEnter: a prompt that never receives a valid number is the outcome `Prompting`, not an endless loop.
- PyText.PyInt: `isdigit` and `int()` are modelled for ASCII digits only. Other Unicode digits, surrounding whitespace, a leading '+' and '_' separators are not.
- Cache.PageCache.constructor: a negative `size` is not modelled (a size of 0 stands for `None` and means unbounded).
- Parser.TTVHTMLParser.FeedEvents: the parser's fields after an exception are not specified, since the exception ends the page's construction.
- Legacy.Viewer: `page_num` starts as the integer 0, modelled as `None`, which differs from every page-number string.
