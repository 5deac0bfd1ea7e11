/**
 * The teletext page parser `TTVHTMLParser` (utils.py, and its copy in
 * texttv.py). The HTML tokenizer of Python's `html.parser` is not modelled:
 * a page is the sequence of start-tag, end-tag and text events it delivers
 * to the handlers.
 *
 * Inside `<pre>` blocks, every text run becomes a `TextSnippet` carrying
 * the style on top of the style stack, and every `</pre>` closes one
 * sub-page. A `<span class=...>` pushes a style resolved from the parent
 * style and the class tokens; `</span>` pops. A `<span style=...>` sets a
 * background code that replaces the next text run by a block glyph. An
 * `<a href=...>` marks the next text run as a link.
 *
 * The two copies differ only in their colour table, so the colour keys are
 * a parameter here.
 */
module Parser {
  import opened Wrappers
  import opened PyText
  import opened Tables

  /** A style-stack entry: the list `[fg, bg, text_attr]`. */
  datatype Style = Style(fg: string, bg: string, attr: string) {
    function Tokens(): seq<string> {
      [fg, bg, attr]
    }
  }

  /** The bottom of the style stack and the default of `TextSnippet`: white on black, normal. */
  const DefaultStyle: Style := Style("W", "BK", "0")

  /** One run of text with its style tokens and the link it belongs to. */
  datatype TextSnippet = TextSnippet(text: string, style: seq<string>, url: Option<string>)

  /** A tag attribute: its name and its value (`None` for a bare attribute such as `<a href>`). */
  type Attribute = (string, Option<string>)

  /** What the HTML tokenizer hands to the parser. */
  datatype Event =
    | StartTag(tag: string, attrs: seq<Attribute>)
    | EndTag(tag: string)
    | Data(text: string)

  // ---------------------------------------------------------------------
  // Style resolution

  /** The three places a class token can go. */
  datatype Slot = FgSlot | BgSlot | AttrSlot

  /** The characters `str.strip('bg')` removes: a set, not a prefix. */
  const BgChars: set<char> := {'b', 'g'}

  /** A colour key sets the foreground; otherwise a token containing "bg" sets the background; anything else the text attribute. */
  function SlotOf(colorKeys: set<string>, tok: string): Slot {
    if tok in colorKeys then FgSlot
    else if Contains(tok, "bg") then BgSlot
    else AttrSlot
  }

  /** The value a token writes into its slot: background tokens lose their 'b'/'g' ends. */
  function SlotValue(colorKeys: set<string>, tok: string): string {
    if SlotOf(colorKeys, tok) == BgSlot then Strip(tok, BgChars) else tok
  }

  function Get(st: Style, slot: Slot): string {
    match slot
    case FgSlot => st.fg
    case BgSlot => st.bg
    case AttrSlot => st.attr
  }

  /** One iteration of a token loop in `handle_starttag`: the token's slot takes its value, the other two keep theirs. */
  function ApplyToken(colorKeys: set<string>, st: Style, tok: string): (r: Style)
    ensures Get(r, SlotOf(colorKeys, tok)) == SlotValue(colorKeys, tok)
    ensures forall s: Slot :: s != SlotOf(colorKeys, tok) ==> Get(r, s) == Get(st, s)
  {
    match SlotOf(colorKeys, tok)
    case FgSlot => st.(fg := tok)
    case BgSlot => st.(bg := Strip(tok, BgChars))
    case AttrSlot => st.(attr := tok)
  }

  /** A whole token loop, applying the tokens from first to last. */
  function ApplyTokens(colorKeys: set<string>, st: Style, toks: seq<string>): Style {
    if toks == [] then st
    else ApplyToken(colorKeys, ApplyTokens(colorKeys, st, toks[..|toks| - 1]), toks[|toks| - 1])
  }

  /** The first loop: the parent entry is re-read through the token rule, starting from the default style. */
  function Inherit(colorKeys: set<string>, parent: Style): Style {
    ApplyTokens(colorKeys, DefaultStyle, parent.Tokens())
  }

  /** The entry `<span class=cls>` pushes on top of `parent`. */
  function ResolveSpan(colorKeys: set<string>, parent: Style, cls: string): Style {
    ApplyTokens(colorKeys, Inherit(colorKeys, parent), Split(cls, ' '))
  }

  /** Each slot ends up with the value of the last token of that slot. */
  lemma {:induction false} LastTokenWins(colorKeys: set<string>, st: Style, toks: seq<string>, slot: Slot, i: nat)
    requires i < |toks| && SlotOf(colorKeys, toks[i]) == slot
    requires forall j :: i < j < |toks| ==> SlotOf(colorKeys, toks[j]) != slot
    ensures Get(ApplyTokens(colorKeys, st, toks), slot) == SlotValue(colorKeys, toks[i])
  {
    var init := toks[..|toks| - 1];
    if i < |toks| - 1 {
      assert forall j :: i < j < |init| ==> init[j] == toks[j];
      LastTokenWins(colorKeys, st, init, slot, i);
    }
  }

  /** A slot no token writes keeps its starting value. */
  lemma {:induction false} UntouchedSlotKeeps(colorKeys: set<string>, st: Style, toks: seq<string>, slot: Slot)
    requires forall j :: 0 <= j < |toks| ==> SlotOf(colorKeys, toks[j]) != slot
    ensures Get(ApplyTokens(colorKeys, st, toks), slot) == Get(st, slot)
  {
    if toks != [] {
      var init := toks[..|toks| - 1];
      assert forall j :: 0 <= j < |init| ==> init[j] == toks[j];
      UntouchedSlotKeeps(colorKeys, st, init, slot);
    }
  }

  /**
   * Re-reading a parent whose foreground and background are both colour
   * keys puts the parent's background into the foreground and resets the
   * background to black: a nested span does not inherit its parent's colours.
   */
  lemma InheritRereadsBackgroundAsForeground(colorKeys: set<string>, parent: Style)
    requires parent.fg in colorKeys && parent.bg in colorKeys
    requires parent.attr !in colorKeys && !Contains(parent.attr, "bg")
    ensures Inherit(colorKeys, parent) == Style(parent.bg, "BK", parent.attr)
  {
    var toks := parent.Tokens();
    LastTokenWins(colorKeys, DefaultStyle, toks, FgSlot, 1);
    UntouchedSlotKeeps(colorKeys, DefaultStyle, toks, BgSlot);
    LastTokenWins(colorKeys, DefaultStyle, toks, AttrSlot, 2);
  }

  /** A "DH" span inside a yellow-on-blue span is blue on black, not yellow on blue. */
  lemma ChildOfColouredSpan()
    ensures ResolveSpan(ColorTbl.Keys, Style("Y", "B", "0"), "DH") == Style("B", "BK", "DH")
  {
    var keys := ColorTbl.Keys;
    assert "Y" in keys && "B" in keys;
    assert "0" !in keys && "DH" !in keys by {
      ColorTblKeys();
    }
    NotBackgroundAttrs();
    InheritRereadsBackgroundAsForeground(keys, Style("Y", "B", "0"));
    SplitWord("DH", ' ');
    SingleToken(keys, Style("B", "BK", "0"), "DH");
  }

  lemma SingleToken(colorKeys: set<string>, st: Style, tok: string)
    ensures ApplyTokens(colorKeys, st, [tok]) == ApplyToken(colorKeys, st, tok)
  {
    assert [tok][..0] == [];
  }

  lemma TwoTokens(colorKeys: set<string>, st: Style, t1: string, t2: string)
    ensures ApplyTokens(colorKeys, st, [t1, t2]) == ApplyToken(colorKeys, ApplyToken(colorKeys, st, t1), t2)
  {
    assert [t1, t2][..1] == [t1];
    SingleToken(colorKeys, st, t1);
  }

  /** The text-attribute tokens "0" and "DH" are not background tokens. */
  lemma NotBackgroundAttrs()
    ensures !Contains("0", "bg") && !Contains("DH", "bg")
  {
    if Contains("0", "bg") {
      ContainsLength("0", "bg");
    }
    if Contains("DH", "bg") {
      assert "DH"[0] == 'D';
      assert "DH"[1..] == "H";
      ContainsLength("H", "bg");
    }
  }

  /** Every background class token "bg" + colour names that colour. */
  lemma BackgroundTokens()
    ensures forall k :: k in ColorTbl.Keys ==>
      SlotOf(ColorTbl.Keys, "bg" + k) == BgSlot && SlotValue(ColorTbl.Keys, "bg" + k) == k
  {
    ColorTblKeys();
    forall k | k in ColorTbl.Keys
      ensures SlotOf(ColorTbl.Keys, "bg" + k) == BgSlot && SlotValue(ColorTbl.Keys, "bg" + k) == k
    {
      assert Contains("bg" + k, "bg");
      var t := "bg" + k;
      assert t[2..] == k;
      assert LStrip(t, BgChars) == LStrip(t[1..], BgChars) == LStrip(t[2..], BgChars);
      assert LStrip(k, BgChars) == k;
      assert RStrip(k, BgChars) == k;
    }
  }

  /** `strip('bg')` removes any run of 'b' and 'g' characters at either end, not the prefix "bg". */
  lemma StripRemovesCharacters()
    ensures SlotValue(ColorTbl.Keys, "bgblue") == "lue"
  {
    ColorTblKeys();
    var t := "bgblue";
    assert Contains(t, "bg");
    assert LStrip(t, BgChars) == LStrip(t[1..], BgChars) == LStrip(t[2..], BgChars) == LStrip(t[3..], BgChars);
    assert t[3..] == "lue";
  }

  // ---------------------------------------------------------------------
  // Parser state and the three handlers as functions of the state

  datatype ParserState = ParserState(
    styleStack: seq<Style>,
    url: Option<string>,
    snippets: seq<TextSnippet>,            // the runs of the open <pre> block
    totSnippets: seq<seq<TextSnippet>>,    // one entry per closed <pre> block
    inPre: bool,
    background: string)                    // "" stands for both None and ''

  /** The state `__init__` sets up. */
  const Initial: ParserState := ParserState([DefaultStyle], None, [], [], false, "")

  function Top(st: ParserState): Style
    requires |st.styleStack| > 0
  {
    st.styleStack[|st.styleStack| - 1]
  }

  /** Python truthiness of the link: `None` and the empty string are false. */
  predicate Truthy(url: Option<string>) {
    url.Some? && url.value != ""
  }

  /** The value of the first `href` attribute, if there is one. */
  function FirstHref(attrs: seq<Attribute>): (r: Option<Option<string>>)
    ensures r.None? <==> forall i :: 0 <= i < |attrs| ==> attrs[i].0 != "href"
    ensures r.Some? ==> exists i :: 0 <= i < |attrs| && attrs[i].0 == "href" && r.value == attrs[i].1 &&
                                    forall j :: 0 <= j < i ==> attrs[j].0 != "href"
  {
    if attrs == [] then None
    else if attrs[0].0 == "href" then Some(attrs[0].1)
    else
      var r := FirstHref(attrs[1..]);
      assert forall i :: 1 <= i < |attrs| ==> attrs[i] == attrs[1..][i - 1];
      r
  }

  /** One attribute of a `<span>` inside `<pre>`. */
  function SpanAttr(colorKeys: set<string>, st: ParserState, a: Attribute): Result<ParserState, PyError> {
    if a.0 == "style" then
      match a.1
      case None => Err(TypeError)
      case Some(v) => Ok(st.(background := DigitsOf(v)))
    else if a.0 == "class" then
      match a.1
      case None => Err(AttributeError)
      case Some(v) =>
        if |st.styleStack| == 0 then Err(IndexError)
        else Ok(st.(styleStack := st.styleStack + [ResolveSpan(colorKeys, Top(st), v)]))
    else Ok(st)
  }

  /** The attributes of a `<span>`, from first to last, stopping at the first error. */
  function SpanAttrs(colorKeys: set<string>, st: ParserState, attrs: seq<Attribute>): Result<ParserState, PyError> {
    if attrs == [] then Ok(st)
    else
      match SpanAttrs(colorKeys, st, attrs[..|attrs| - 1])
      case Err(e) => Err(e)
      case Ok(s) => SpanAttr(colorKeys, s, attrs[|attrs| - 1])
  }

  /** `handle_starttag`. */
  function OnStartTag(colorKeys: set<string>, st: ParserState, tag: string, attrs: seq<Attribute>): Result<ParserState, PyError> {
    var st1 := st.(inPre := st.inPre || tag == "pre");
    if !st1.inPre then Ok(st1)
    else if tag == "a" then
      match FirstHref(attrs)
      case None => Ok(st1)
      case Some(u) => Ok(st1.(url := u))
    else if tag == "span" then SpanAttrs(colorKeys, st1, attrs)
    else Ok(st1)
  }

  /** `handle_endtag`: `</pre>` closes the block; `</span>` inside `<pre>` pops, even an entry its `<span>` never pushed. */
  function OnEndTag(st: ParserState, tag: string): Result<ParserState, PyError> {
    var st1 :=
      if tag == "pre" then st.(inPre := false, totSnippets := st.totSnippets + [st.snippets], snippets := [])
      else st;
    if st1.inPre && tag == "span" then
      if |st1.styleStack| == 0 then Err(IndexError)
      else Ok(st1.(styleStack := st1.styleStack[..|st1.styleStack| - 1]))
    else Ok(st1)
  }

  /** `handle_data`: inside `<pre>`, one snippet in the top style, underlined when it is a link, a glyph when a mapped background is pending. */
  function OnData(st: ParserState, text: string): Result<ParserState, PyError> {
    if !st.inPre then Ok(st)
    else if |st.styleStack| == 0 then Err(IndexError)
    else
      var style := Top(st).Tokens() + (if Truthy(st.url) then ["UL"] else []);
      var shown := if st.background != "" && st.background in HeaderTbl then [HeaderTbl[st.background]] else text;
      Ok(st.(snippets := st.snippets + [TextSnippet(shown, style, st.url)], url := None, background := ""))
  }

  function Step(colorKeys: set<string>, st: ParserState, ev: Event): Result<ParserState, PyError> {
    match ev
    case StartTag(tag, attrs) => OnStartTag(colorKeys, st, tag, attrs)
    case EndTag(tag) => OnEndTag(st, tag)
    case Data(text) => OnData(st, text)
  }

  /** `feed`: the events in order; an exception ends the feed. */
  function Feed(colorKeys: set<string>, st: ParserState, evs: seq<Event>): Result<ParserState, PyError> {
    if evs == [] then Ok(st)
    else
      match Feed(colorKeys, st, evs[..|evs| - 1])
      case Err(e) => Err(e)
      case Ok(s) => Step(colorKeys, s, evs[|evs| - 1])
  }

  /** A fresh parser fed a whole page, then `get_snippets`: the sub-pages of the page. */
  function Parse(colorKeys: set<string>, evs: seq<Event>): Result<seq<seq<TextSnippet>>, PyError> {
    match Feed(colorKeys, Initial, evs)
    case Err(e) => Err(e)
    case Ok(s) => Ok(s.totSnippets)
  }

  // ---------------------------------------------------------------------
  // Properties of the handlers

  /** The link of an `<a>` is its first `href`; an `<a>` without one leaves the pending link alone. */
  lemma {:induction false} FirstHrefAt(attrs: seq<Attribute>, i: nat)
    requires i < |attrs| && attrs[i].0 == "href"
    requires forall j :: 0 <= j < i ==> attrs[j].0 != "href"
    ensures FirstHref(attrs) == Some(attrs[i].1)
  {
    if i > 0 {
      assert forall j :: 0 <= j < i - 1 ==> attrs[1..][j] == attrs[j + 1];
      FirstHrefAt(attrs[1..], i - 1);
    }
  }

  /** Outside `<pre>`, no event other than a `<pre>` tag changes anything. */
  lemma StepOutsidePre(colorKeys: set<string>, st: ParserState, ev: Event)
    requires !st.inPre
    requires ev.StartTag? || ev.EndTag? ==> ev.tag != "pre"
    ensures Step(colorKeys, st, ev) == Ok(st)
  {
  }

  /** Text between blocks is ignored: a run of events without `<pre>` tags leaves a state outside `<pre>` as it is. */
  lemma {:induction false} FeedOutsidePre(colorKeys: set<string>, st: ParserState, evs: seq<Event>)
    requires !st.inPre
    requires forall i :: 0 <= i < |evs| ==> (evs[i].StartTag? || evs[i].EndTag? ==> evs[i].tag != "pre")
    ensures Feed(colorKeys, st, evs) == Ok(st)
  {
    if evs != [] {
      FeedOutsidePre(colorKeys, st, evs[..|evs| - 1]);
      StepOutsidePre(colorKeys, st, evs[|evs| - 1]);
    }
  }

  /** The number of `</pre>` events. */
  function PreCloses(evs: seq<Event>): nat {
    if evs == [] then 0
    else PreCloses(evs[..|evs| - 1]) + (if evs[|evs| - 1] == EndTag("pre") then 1 else 0)
  }

  /** A start tag never touches the finished sub-pages. */
  lemma {:induction false} SpanAttrsKeepBlocks(colorKeys: set<string>, st: ParserState, attrs: seq<Attribute>)
    requires SpanAttrs(colorKeys, st, attrs).Ok?
    ensures SpanAttrs(colorKeys, st, attrs).value.totSnippets == st.totSnippets
    ensures SpanAttrs(colorKeys, st, attrs).value.snippets == st.snippets
  {
    if attrs != [] {
      SpanAttrsKeepBlocks(colorKeys, st, attrs[..|attrs| - 1]);
    }
  }

  /**
   * Each event adds a sub-page exactly when it is `</pre>`, and never changes
   * the earlier ones. `</pre>` also empties the current sub-page and leaves
   * the block; any other event only adds to the current sub-page.
   */
  lemma StepBlocks(colorKeys: set<string>, st: ParserState, ev: Event)
    requires Step(colorKeys, st, ev).Ok?
    ensures var s := Step(colorKeys, st, ev).value;
      s.totSnippets == st.totSnippets + (if ev == EndTag("pre") then [st.snippets] else [])
    ensures var s := Step(colorKeys, st, ev).value;
      ev == EndTag("pre") ==> s.snippets == [] && !s.inPre
    ensures var s := Step(colorKeys, st, ev).value;
      ev != EndTag("pre") ==> st.snippets <= s.snippets
  {
    if ev.StartTag? && (st.inPre || ev.tag == "pre") && ev.tag == "span" {
      SpanAttrsKeepBlocks(colorKeys, st.(inPre := true), ev.attrs);
    }
  }

  /**
   * A successful feed appends one sub-page per `</pre>` and keeps the
   * sub-pages it started with.
   */
  lemma {:induction false} FeedBlocks(colorKeys: set<string>, st: ParserState, evs: seq<Event>)
    requires Feed(colorKeys, st, evs).Ok?
    ensures var s := Feed(colorKeys, st, evs).value;
      st.totSnippets <= s.totSnippets && |s.totSnippets| == |st.totSnippets| + PreCloses(evs)
  {
    if evs != [] {
      FeedBlocks(colorKeys, st, evs[..|evs| - 1]);
      StepBlocks(colorKeys, Feed(colorKeys, st, evs[..|evs| - 1]).value, evs[|evs| - 1]);
    }
  }

  /** Without a `</pre>`, a feed keeps the finished sub-pages and only adds to the current one. */
  lemma {:induction false} FeedWithinBlock(colorKeys: set<string>, st: ParserState, evs: seq<Event>)
    requires forall i :: 0 <= i < |evs| ==> evs[i] != EndTag("pre")
    requires Feed(colorKeys, st, evs).Ok?
    ensures var s := Feed(colorKeys, st, evs).value;
      s.totSnippets == st.totSnippets && st.snippets <= s.snippets
  {
    if evs != [] {
      var init := evs[..|evs| - 1];
      FeedWithinBlock(colorKeys, st, init);
      StepBlocks(colorKeys, Feed(colorKeys, st, init).value, evs[|evs| - 1]);
    }
  }

  /**
   * The sub-page a `</pre>` closes holds only what its own block drew: the
   * text after the previous `</pre>`, fed from an empty current sub-page.
   */
  lemma LastSubPageIsItsBlock(colorKeys: set<string>, evs: seq<Event>, block: seq<Event>)
    requires forall i :: 0 <= i < |block| ==> block[i] != EndTag("pre")
    requires Parse(colorKeys, evs + [EndTag("pre")] + block + [EndTag("pre")]).Ok?
    ensures Feed(colorKeys, Initial, evs + [EndTag("pre")]).Ok?
    ensures var s1 := Feed(colorKeys, Initial, evs + [EndTag("pre")]).value;
      s1.snippets == [] && Feed(colorKeys, s1, block).Ok? &&
      Parse(colorKeys, evs + [EndTag("pre")] + block + [EndTag("pre")]).value ==
        s1.totSnippets + [Feed(colorKeys, s1, block).value.snippets]
  {
    var first := evs + [EndTag("pre")];
    var all := first + block + [EndTag("pre")];
    FeedSplit(colorKeys, Initial, first, block + [EndTag("pre")]);
    assert all == first + (block + [EndTag("pre")]);
    assert Feed(colorKeys, Initial, first).Ok?;
    assert first[..|first| - 1] == evs;
    StepBlocks(colorKeys, Feed(colorKeys, Initial, evs).value, EndTag("pre"));
    var s1 := Feed(colorKeys, Initial, first).value;
    FeedSplit(colorKeys, s1, block, [EndTag("pre")]);
    var s2 := Feed(colorKeys, s1, block).value;
    FeedWithinBlock(colorKeys, s1, block);
    assert Feed(colorKeys, s2, [EndTag("pre")]) == Step(colorKeys, s2, EndTag("pre"));
    StepBlocks(colorKeys, s2, EndTag("pre"));
  }

  /** A page has one sub-page per `</pre>`. */
  lemma SubPagesArePreBlocks(colorKeys: set<string>, evs: seq<Event>)
    requires Parse(colorKeys, evs).Ok?
    ensures |Parse(colorKeys, evs).value| == PreCloses(evs)
  {
    FeedBlocks(colorKeys, Initial, evs);
  }

  /** Text of a `<pre>` block that is never closed is dropped. */
  lemma UnclosedBlockDropped(colorKeys: set<string>, evs: seq<Event>, tail: seq<Event>)
    requires Parse(colorKeys, evs + tail).Ok? && Parse(colorKeys, evs).Ok?
    requires forall i :: 0 <= i < |tail| ==> tail[i] != EndTag("pre")
    ensures Parse(colorKeys, evs + tail) == Parse(colorKeys, evs)
  {
    FeedSplit(colorKeys, Initial, evs, tail);
    var s := Feed(colorKeys, Initial, evs).value;
    assert Feed(colorKeys, Initial, evs + tail) == Feed(colorKeys, s, tail);
    FeedBlocks(colorKeys, s, tail);
    NoPreCloses(tail);
    var s2 := Feed(colorKeys, s, tail).value;
    assert s2.totSnippets == s.totSnippets;
  }

  lemma {:induction false} NoPreCloses(evs: seq<Event>)
    requires forall i :: 0 <= i < |evs| ==> evs[i] != EndTag("pre")
    ensures PreCloses(evs) == 0
  {
    if evs != [] {
      NoPreCloses(evs[..|evs| - 1]);
    }
  }

  /** Feeding two runs of events is feeding the first, then the second from where it left off. */
  lemma {:induction false} FeedSplit(colorKeys: set<string>, st: ParserState, evs: seq<Event>, tail: seq<Event>)
    ensures Feed(colorKeys, st, evs + tail) ==
      match Feed(colorKeys, st, evs)
      case Err(e) => Err(e)
      case Ok(s) => Feed(colorKeys, s, tail)
  {
    if tail == [] {
      assert evs + tail == evs;
    } else {
      assert (evs + tail)[..|evs + tail| - 1] == evs + tail[..|tail| - 1];
      FeedSplit(colorKeys, st, evs, tail[..|tail| - 1]);
    }
  }

  /**
   * A text run shows the glyph of a mapped pending background instead of
   * its text, is underlined exactly when a non-empty link is pending, and
   * consumes both the link and the background; the style stack, the
   * finished sub-pages and the `<pre>` flag stay as they were.
   */
  lemma DataRun(st: ParserState, text: string)
    requires st.inPre && |st.styleStack| > 0
    ensures OnData(st, text).Ok?
    ensures var s := OnData(st, text).value;
      && s.snippets[..|st.snippets|] == st.snippets
      && |s.snippets| == |st.snippets| + 1
      && var sn := s.snippets[|st.snippets|];
      && (st.background != "" && st.background in HeaderTbl ==> sn.text == [HeaderTbl[st.background]])
      && (st.background == "" || st.background !in HeaderTbl ==> sn.text == text)
      && |sn.style| == 3 + (if Truthy(st.url) then 1 else 0)
      && sn.style[..3] == Top(st).Tokens()
      && (Truthy(st.url) ==> sn.style[3] == "UL")
      && sn.url == st.url
      && s.url == None && s.background == ""
      && s.styleStack == st.styleStack && s.totSnippets == st.totSnippets && s.inPre
  {
  }

  /** A `</span>` without a pushing `<span>` empties the stack, and the next text run then fails. */
  lemma UnmatchedSpanClose(colorKeys: set<string>)
    ensures Feed(colorKeys, Initial, [StartTag("pre", []), EndTag("span"), Data("x")]) == Err(IndexError)
  {
    var evs := [StartTag("pre", []), EndTag("span"), Data("x")];
    var s1 := Initial.(inPre := true);
    assert evs[..2][..1] == [StartTag("pre", [])];
    assert evs[..2][..1][..0] == [];
    assert Feed(colorKeys, Initial, evs[..2][..1]) == Ok(s1);
    assert evs[..2] == [StartTag("pre", []), EndTag("span")];
    assert Feed(colorKeys, Initial, evs[..2]) == Ok(s1.(styleStack := []));
  }

  /** A `<span>` with no class pushes nothing, but its `</span>` still pops. */
  lemma ClasslessSpanStillPops(colorKeys: set<string>)
    ensures var evs := [StartTag("pre", []), StartTag("span", [("style", Some("x"))]), EndTag("span")];
      Feed(colorKeys, Initial, evs).Ok? && Feed(colorKeys, Initial, evs).value.styleStack == []
  {
    var evs := [StartTag("pre", []), StartTag("span", [("style", Some("x"))]), EndTag("span")];
    var attrs: seq<Attribute> := [("style", Some("x"))];
    assert attrs[..0] == [];
    var s1 := Initial.(inPre := true);
    assert evs[..2][..1] == [StartTag("pre", [])];
    assert evs[..2][..1][..0] == [];
    assert Feed(colorKeys, Initial, evs[..2][..1]) == Ok(s1);
    assert SpanAttrs(colorKeys, s1, attrs) == Ok(s1.(background := DigitsOf("x")));
    assert evs[..2] == [StartTag("pre", []), StartTag("span", attrs)];
    assert Feed(colorKeys, Initial, evs[..2]) == Ok(s1.(background := DigitsOf("x")));
  }

  /** The class "G bgBK" on top of the default style resolves to green on black. */
  lemma GreenOnBlack()
    ensures ResolveSpan(ColorTbl.Keys, DefaultStyle, "G bgBK") == Style("G", "BK", "0")
  {
    GreenClassTokens();
    DefaultReread();
    GreenTokens();
  }

  lemma GreenTokens()
    ensures ApplyTokens(ColorTbl.Keys, Style("BK", "BK", "0"), ["G", "bgBK"]) == Style("G", "BK", "0")
  {
    var keys := ColorTbl.Keys;
    TwoTokens(keys, Style("BK", "BK", "0"), "G", "bgBK");
    assert "G" in keys;
    assert SlotOf(keys, "bgBK") == BgSlot && SlotValue(keys, "bgBK") == "BK" by {
      BackgroundTokens();
      assert "BK" in keys;
    }
  }

  lemma GreenClassTokens()
    ensures Split("G bgBK", ' ') == ["G", "bgBK"]
  {
    var parts := ["G", "bgBK"];
    assert Join(parts[1..], ' ') == "bgBK";
    assert Join(parts, ' ') == "G bgBK";
    SplitJoin(parts, ' ');
  }

  /** The default entry re-read: its background "BK" is a colour key and lands in the foreground. */
  lemma DefaultReread()
    ensures Inherit(ColorTbl.Keys, DefaultStyle) == Style("BK", "BK", "0")
  {
    assert "W" in ColorTbl && "BK" in ColorTbl;
    assert "0" !in ColorTbl by {
      ColorTblKeys();
    }
    NotBackgroundAttrs();
    InheritRereadsBackgroundAsForeground(ColorTbl.Keys, DefaultStyle);
  }

  /** A green span on a black background yields one sub-page with one snippet styled ["G", "BK", "0"]. */
  lemma GreenSpanPage(evs: seq<Event>)
    requires evs == [StartTag("pre", []), StartTag("span", [("class", Some("G bgBK"))]),
                     Data("ABC"), EndTag("span"), EndTag("pre")]
    ensures Parse(ColorTbl.Keys, evs) == Ok([[TextSnippet("ABC", ["G", "BK", "0"], None)]])
  {
    var keys := ColorTbl.Keys;
    var snip := TextSnippet("ABC", ["G", "BK", "0"], None);
    var s3 := Initial.(inPre := true, styleStack := [DefaultStyle, Style("G", "BK", "0")], snippets := [snip]);
    var s4 := s3.(styleStack := [DefaultStyle]);
    var s5 := s4.(inPre := false, totSnippets := [[snip]], snippets := []);
    GreenSpanPrefix(evs[..3]);
    GreenBlockClose(s3);
    assert evs[..4] == evs[..3] + [evs[3]];
    FeedSnoc(keys, Initial, evs[..3], evs[3], s4);
    assert evs == evs[..4] + [evs[4]];
    FeedSnoc(keys, Initial, evs[..4], evs[4], s5);
  }

  /** The first three events open the block, push the green entry and add the snippet. */
  lemma GreenSpanPrefix(evs: seq<Event>)
    requires evs == [StartTag("pre", []), StartTag("span", [("class", Some("G bgBK"))]), Data("ABC")]
    ensures Feed(ColorTbl.Keys, Initial, evs)
         == Ok(Initial.(inPre := true, styleStack := [DefaultStyle, Style("G", "BK", "0")],
                        snippets := [TextSnippet("ABC", ["G", "BK", "0"], None)]))
  {
    var keys := ColorTbl.Keys;
    var s1 := Initial.(inPre := true);
    var s2 := s1.(styleStack := [DefaultStyle, Style("G", "BK", "0")]);
    var s3 := s2.(snippets := [TextSnippet("ABC", ["G", "BK", "0"], None)]);
    GreenSpanPush();
    GreenSpanText();
    assert Step(keys, Initial, evs[0]) == Ok(s1);
    assert evs[..1] == [] + [evs[0]];
    FeedSnoc(keys, Initial, [], evs[0], s1);
    assert evs[..2] == evs[..1] + [evs[1]];
    FeedSnoc(keys, Initial, evs[..1], evs[1], s2);
    assert evs == evs[..2] + [evs[2]];
    FeedSnoc(keys, Initial, evs[..2], evs[2], s3);
  }

  lemma GreenBlockClose(s3: ParserState)
    requires s3 == Initial.(inPre := true, styleStack := [DefaultStyle, Style("G", "BK", "0")],
                            snippets := [TextSnippet("ABC", ["G", "BK", "0"], None)])
    ensures var s4 := s3.(styleStack := [DefaultStyle]);
      && Step(ColorTbl.Keys, s3, EndTag("span")) == Ok(s4)
      && Step(ColorTbl.Keys, s4, EndTag("pre")) == Ok(s4.(inPre := false, totSnippets := [s3.snippets], snippets := []))
  {
    assert s3.styleStack[..1] == [DefaultStyle];
    assert [] + [s3.snippets] == [s3.snippets];
  }

  /** Feeding one more event is one more step. */
  lemma FeedSnoc(colorKeys: set<string>, st: ParserState, evs: seq<Event>, ev: Event, s: ParserState)
    requires Feed(colorKeys, st, evs).Ok? && Step(colorKeys, Feed(colorKeys, st, evs).value, ev) == Ok(s)
    ensures Feed(colorKeys, st, evs + [ev]) == Ok(s)
  {
    assert (evs + [ev])[..|evs|] == evs;
  }

  lemma GreenSpanPush()
    ensures var s1 := Initial.(inPre := true);
      Step(ColorTbl.Keys, s1, StartTag("span", [("class", Some("G bgBK"))]))
        == Ok(s1.(styleStack := [DefaultStyle, Style("G", "BK", "0")]))
  {
    var keys := ColorTbl.Keys;
    var s1 := Initial.(inPre := true);
    var attrs: seq<Attribute> := [("class", Some("G bgBK"))];
    assert attrs[..0] == [];
    assert Top(s1) == DefaultStyle;
    assert s1.styleStack + [Style("G", "BK", "0")] == [DefaultStyle, Style("G", "BK", "0")];
    GreenOnBlack();
    assert SpanAttr(keys, s1, attrs[0]) == Ok(s1.(styleStack := [DefaultStyle, Style("G", "BK", "0")]));
    assert SpanAttrs(keys, s1, attrs[..0]) == Ok(s1);
    assert SpanAttrs(keys, s1, attrs) == Ok(s1.(styleStack := [DefaultStyle, Style("G", "BK", "0")]));
  }

  lemma GreenSpanText()
    ensures var s2 := Initial.(inPre := true, styleStack := [DefaultStyle, Style("G", "BK", "0")]);
      Step(ColorTbl.Keys, s2, Data("ABC"))
        == Ok(s2.(snippets := [TextSnippet("ABC", ["G", "BK", "0"], None)]))
  {
    var s2 := Initial.(inPre := true, styleStack := [DefaultStyle, Style("G", "BK", "0")]);
    assert Top(s2).Tokens() + [] == ["G", "BK", "0"];
    assert s2.snippets + [TextSnippet("ABC", ["G", "BK", "0"], None)] == [TextSnippet("ABC", ["G", "BK", "0"], None)];
  }

  // ---------------------------------------------------------------------
  // The parser object

  class TTVHTMLParser {
    const colorKeys: set<string>
    var styleStack: seq<Style>
    var url: Option<string>
    var snippets: seq<TextSnippet>
    var totSnippets: seq<seq<TextSnippet>>
    var inPre: bool
    var background: string

    function State(): ParserState
      reads this
    {
      ParserState(styleStack, url, snippets, totSnippets, inPre, background)
    }

    constructor(colorKeys: set<string>)
      ensures this.colorKeys == colorKeys && State() == Initial
    {
      this.colorKeys := colorKeys;
      styleStack := [DefaultStyle];
      url := None;
      snippets := [];
      totSnippets := [];
      inPre := false;
      background := "";
    }

    /** `get_snippets`. */
    method GetSnippets() returns (r: seq<seq<TextSnippet>>)
      ensures r == State().totSnippets
    {
      r := totSnippets;
    }

    /** The token loop: each token goes to its slot, in order. */
    method ResolveTokens(start: Style, toks: seq<string>) returns (st: Style)
      ensures st == ApplyTokens(colorKeys, start, toks)
    {
      st := start;
      for i := 0 to |toks|
        invariant st == ApplyTokens(colorKeys, start, toks[..i])
      {
        var s := toks[i];
        if s in colorKeys {
          st := st.(fg := s);
        } else if Contains(s, "bg") {
          st := st.(bg := Strip(s, BgChars));
        } else {
          st := st.(attr := s);
        }
        assert toks[..i + 1][..i] == toks[..i];
      }
      assert toks[..|toks|] == toks;
    }

    method HandleStartTag(tag: string, attrs: seq<Attribute>) returns (err: Option<PyError>)
      modifies this
      ensures OnStartTag(colorKeys, old(State()), tag, attrs) == if err.None? then Ok(State()) else Err(err.value)
    {
      err := None;
      if tag == "pre" {
        inPre := true;
      }
      if inPre {
        if tag == "a" {
          var i := 0;
          while i < |attrs|
            invariant 0 <= i <= |attrs|
            invariant forall j :: 0 <= j < i ==> attrs[j].0 != "href"
            invariant State() == old(State()).(inPre := true)
          {
            if attrs[i].0 == "href" {
              url := attrs[i].1;
              FirstHrefAt(attrs, i);
              return;
            }
            i := i + 1;
          }
        } else if tag == "span" {
          ghost var st1 := State();
          for i := 0 to |attrs|
            invariant SpanAttrs(colorKeys, st1, attrs[..i]) == Ok(State())
          {
            assert attrs[..i + 1][..i] == attrs[..i];
            var a := attrs[i];
            if a.0 == "style" {
              if a.1.None? {
                err := Some(TypeError);
                SpanAttrsErr(colorKeys, st1, attrs, i + 1);
                return;
              }
              background := DigitsOf(a.1.value);
            }
            if a.0 == "class" {
              if a.1.None? {
                err := Some(AttributeError);
                SpanAttrsErr(colorKeys, st1, attrs, i + 1);
                return;
              }
              var toks := Split(a.1.value, ' ');
              if |styleStack| == 0 {
                err := Some(IndexError);
                SpanAttrsErr(colorKeys, st1, attrs, i + 1);
                return;
              }
              var parent := ResolveTokens(DefaultStyle, styleStack[|styleStack| - 1].Tokens());
              var entry := ResolveTokens(parent, toks);
              styleStack := styleStack + [entry];
            }
          }
          assert attrs[..|attrs|] == attrs;
        }
      }
    }

    method HandleEndTag(tag: string) returns (err: Option<PyError>)
      modifies this
      ensures OnEndTag(old(State()), tag) == if err.None? then Ok(State()) else Err(err.value)
    {
      err := None;
      if tag == "pre" {
        inPre := false;
        totSnippets := totSnippets + [snippets];
        snippets := [];
      }
      if inPre && tag == "span" {
        if |styleStack| == 0 {
          err := Some(IndexError);
          return;
        }
        styleStack := styleStack[..|styleStack| - 1];
      }
    }

    method HandleData(data: string) returns (err: Option<PyError>)
      modifies this
      ensures OnData(old(State()), data) == if err.None? then Ok(State()) else Err(err.value)
    {
      err := None;
      if inPre {
        if |styleStack| == 0 {
          err := Some(IndexError);
          return;
        }
        var style := styleStack[|styleStack| - 1].Tokens();
        if url.Some? && url.value != "" {
          style := style + ["UL"];
        }
        var text := data;
        if background != "" {
          if background in HeaderTbl {
            text := [HeaderTbl[background]];
          }
          background := "";
        }
        snippets := snippets + [TextSnippet(text, style, url)];
        url := None;
        ghost var o := old(State());
        assert style == Top(o).Tokens() + (if Truthy(o.url) then ["UL"] else []);
        assert text == if o.background != "" && o.background in HeaderTbl then [HeaderTbl[o.background]] else data;
        assert background == "";
      }
    }

    /** `feed`: hands the events to the handlers in order; the first exception ends it. */
    method FeedEvents(evs: seq<Event>) returns (err: Option<PyError>)
      modifies this
      ensures Feed(colorKeys, old(State()), evs) == if err.None? then Ok(State()) else Err(err.value)
    {
      ghost var st0 := State();
      err := None;
      for i := 0 to |evs|
        invariant err.None? && Feed(colorKeys, st0, evs[..i]) == Ok(State())
      {
        assert evs[..i + 1][..i] == evs[..i];
        match evs[i] {
          case StartTag(tag, attrs) => err := HandleStartTag(tag, attrs);
          case EndTag(tag) => err := HandleEndTag(tag);
          case Data(text) => err := HandleData(text);
        }
        assert Feed(colorKeys, st0, evs[..i + 1]) == if err.None? then Ok(State()) else Err(err.value);
        if err.Some? {
          FeedErrSticky(colorKeys, st0, evs, i + 1);
          return;
        }
      }
      assert evs[..|evs|] == evs;
    }
  }

  /** An error in the middle of the attributes is the error of the whole tag. */
  lemma {:induction false} SpanAttrsErr(colorKeys: set<string>, st: ParserState, attrs: seq<Attribute>, n: nat)
    requires n <= |attrs| && SpanAttrs(colorKeys, st, attrs[..n]).Err?
    ensures SpanAttrs(colorKeys, st, attrs) == SpanAttrs(colorKeys, st, attrs[..n])
  {
    if n < |attrs| {
      assert attrs[..|attrs| - 1][..n] == attrs[..n];
      SpanAttrsErr(colorKeys, st, attrs[..|attrs| - 1], n);
    } else {
      assert attrs[..n] == attrs;
    }
  }

  /** An error while feeding a prefix is the error of the whole feed. */
  lemma {:induction false} FeedErrSticky(colorKeys: set<string>, st: ParserState, evs: seq<Event>, n: nat)
    requires n <= |evs| && Feed(colorKeys, st, evs[..n]).Err?
    ensures Feed(colorKeys, st, evs) == Feed(colorKeys, st, evs[..n])
  {
    if n < |evs| {
      assert evs[..|evs| - 1][..n] == evs[..n];
      FeedErrSticky(colorKeys, st, evs[..|evs| - 1], n);
    } else {
      assert evs[..n] == evs;
    }
  }
}
