/**
 * The colour-pair bookkeeping of `TTVWin` (texttv/page_handler.py, and its
 * copy in texttv.py). A snippet's style `[fg, bg, attrs...]` is rendered as
 * a curses colour pair plus attribute flags. Every new fg/bg combination
 * gets the next pair number, `len(colors) + 1`, and later sightings reuse it.
 *
 * The curses calls are not modelled, with two exceptions: `init_pair` is
 * recorded in the `pairs` map, and `load_page` returns its `addstr` calls.
 * An attribute bit-OR is a set union (`A_NORMAL` is 0, the empty set).
 */
module Win {
  import opened Wrappers
  import opened PyText
  import opened Tables
  import opened Parser

  /** `curses.color_pair(n) | attrs`. */
  datatype ColAttr = ColAttr(pair: nat, attrs: set<Attr>)

  /** The flags a single attribute contributes to the OR. */
  function AttrBits(a: Attr): (r: set<Attr>)
    ensures r == {} <==> a == ANormal
    ensures r <= {a}
  {
    if a == ANormal then {} else {a}
  }

  /** `attrs |= attr_tbl[a]` over `toks`: fails on the first token outside `attr_tbl`. */
  function AttrsOf(toks: seq<string>): Result<set<Attr>, PyError> {
    if toks == [] then Ok({})
    else
      match AttrsOf(toks[..|toks| - 1])
      case Err(e) => Err(e)
      case Ok(attrs) =>
        var last := toks[|toks| - 1];
        if last !in AttrTbl then Err(KeyError)
        else Ok(attrs + AttrBits(AttrTbl[last]))
  }

  /**
   * The OR of the attribute tokens succeeds exactly when every token is in
   * `attr_tbl` (a missing one is a KeyError), and then holds the flags of
   * exactly the tokens that are not `A_NORMAL`.
   */
  lemma {:induction false} AttrsOfFlags(toks: seq<string>)
    ensures AttrsOf(toks).Ok? <==> forall i :: 0 <= i < |toks| ==> toks[i] in AttrTbl
    ensures AttrsOf(toks).Err? ==> AttrsOf(toks).error == KeyError
    ensures AttrsOf(toks).Ok? ==> forall a :: a in AttrsOf(toks).value <==>
      a != ANormal && exists i :: 0 <= i < |toks| && AttrTbl[toks[i]] == a
  {
    if toks != [] {
      var init := toks[..|toks| - 1];
      AttrsOfFlags(init);
      assert forall i :: 0 <= i < |init| ==> init[i] == toks[i];
    }
  }

  /** The dictionary key of a colour combination: `style[0] + ' ' + style[1]`. */
  function PairKey(fg: string, bg: string): string {
    fg + " " + bg
  }

  /** No colour token contains the space that separates the two halves of a pair key. */
  predicate NoSpaceKeys(tbl: map<string, Color>) {
    forall k :: k in tbl ==> ' ' !in k
  }

  /** The window's bookkeeping: pair key to pair number, and the pairs handed to `init_pair`. */
  datatype WinState = WinState(colors: map<string, nat>, pairs: map<nat, (Color, Color)>)

  const EmptyWin: WinState := WinState(map[], map[])

  /** The pair registered for `key` holds the colours its two halves name. */
  predicate PairAgrees(tbl: map<string, Color>, key: string, p: (Color, Color)) {
    var parts := Split(key, ' ');
    |parts| == 2 && parts[0] in tbl && parts[1] in tbl && p == (tbl[parts[0]], tbl[parts[1]])
  }

  /**
   * Pair numbers are distinct and lie in 1..len(colors). Each numbered pair
   * was initialised with the colours its key names. No other pair was
   * initialised.
   */
  ghost predicate ValidWin(tbl: map<string, Color>, ws: WinState) {
    && (forall k :: k in ws.colors ==>
          1 <= ws.colors[k] <= |ws.colors| && ws.colors[k] in ws.pairs
          && PairAgrees(tbl, k, ws.pairs[ws.colors[k]]))
    && (forall k1, k2 :: k1 in ws.colors && k2 in ws.colors && ws.colors[k1] == ws.colors[k2] ==> k1 == k2)
    && (forall n :: n in ws.pairs ==> 1 <= n <= |ws.colors|)
  }

  /** A new pair key gets the next number, and that pair is initialised with `p`. */
  function Register(ws: WinState, key: string, p: (Color, Color)): (r: WinState)
    requires key !in ws.colors
    ensures |r.colors| == |ws.colors| + 1
    ensures key in r.colors && r.colors[key] == |ws.colors| + 1
    ensures |ws.colors| + 1 in r.pairs && r.pairs[|ws.colors| + 1] == p
    ensures forall k :: k in r.colors ==> k == key || (k in ws.colors && r.colors[k] == ws.colors[k])
    ensures forall k :: k in ws.colors ==> k in r.colors
    ensures forall n :: n in r.pairs ==> n == |ws.colors| + 1 || (n in ws.pairs && r.pairs[n] == ws.pairs[n])
    ensures forall n :: n in ws.pairs ==> n in r.pairs
  {
    var n := |ws.colors| + 1;
    WinState(ws.colors[key := n], ws.pairs[n := p])
  }

  /** `_parse_style(style)`: the rendering of a style and the bookkeeping after it. */
  function ParseStyleSpec(tbl: map<string, Color>, ws: WinState, style: seq<string>): Result<(WinState, ColAttr), PyError> {
    if |style| == 0 then Err(IndexError)
    else if style[0] !in tbl then Err(KeyError)
    else if |style| == 1 then Err(IndexError)
    else if style[1] !in tbl then Err(KeyError)
    else
      match AttrsOf(style[2..])
      case Err(e) => Err(e)
      case Ok(attrs) =>
        var key := PairKey(style[0], style[1]);
        if key in ws.colors then Ok((ws, ColAttr(ws.colors[key], attrs)))
        else Ok((Register(ws, key, (tbl[style[0]], tbl[style[1]])), ColAttr(|ws.colors| + 1, attrs)))
  }

  /**
   * `_parse_style` fails exactly when a lookup does: `style[0]`, then
   * `style[1]` (IndexError when missing, KeyError when not a colour), then
   * the attribute tokens. On success the attribute flags are those of
   * `style[2:]`. A known fg/bg combination reuses its pair number and changes
   * nothing; a new one gets `len(colors) + 1`.
   */
  lemma ParseStyleOutcome(tbl: map<string, Color>, ws: WinState, style: seq<string>)
    ensures var r := ParseStyleSpec(tbl, ws, style);
      && (r.Ok? <==> (&& |style| >= 2 && style[0] in tbl && style[1] in tbl
                      && forall i :: 2 <= i < |style| ==> style[i] in AttrTbl))
      && (r.Err? ==> r.error == if |style| == 0 || (|style| == 1 && style[0] in tbl) then IndexError else KeyError)
    ensures var r := ParseStyleSpec(tbl, ws, style);
      r.Ok? ==> var key := PairKey(style[0], style[1]);
        && r.value.1.attrs == AttrsOf(style[2..]).value
        && (key in ws.colors ==> r.value.0 == ws && r.value.1.pair == ws.colors[key])
        && (key !in ws.colors ==>
              && r.value.1.pair == |ws.colors| + 1
              && r.value.0 == Register(ws, key, (tbl[style[0]], tbl[style[1]])))
  {
    if |style| >= 2 {
      AttrsOfFlags(style[2..]);
      assert forall i :: 2 <= i < |style| ==> style[2..][i - 2] == style[i];
    }
  }

  /** `load_page(snippets)`: every snippet rendered in order; the first failure aborts. */
  function Render(tbl: map<string, Color>, ws: WinState, snippets: seq<TextSnippet>): Result<(WinState, seq<(string, ColAttr)>), PyError> {
    if snippets == [] then Ok((ws, []))
    else RenderOne(tbl, Render(tbl, ws, snippets[..|snippets| - 1]), snippets[|snippets| - 1])
  }

  /** One loop turn of `load_page`: the snippet's style rendered, its text drawn. */
  function RenderOne(tbl: map<string, Color>, acc: Result<(WinState, seq<(string, ColAttr)>), PyError>, snippet: TextSnippet): Result<(WinState, seq<(string, ColAttr)>), PyError> {
    if acc.Err? then acc
    else
      var r := ParseStyleSpec(tbl, acc.value.0, snippet.style);
      if r.Err? then Err(r.error)
      else Ok((r.value.0, acc.value.1 + [(snippet.text, r.value.1)]))
  }

  // ---------------------------------------------------------------------
  // Properties of the bookkeeping

  /** A pair key splits back into its two colour tokens. */
  lemma PairKeySplits(fg: string, bg: string)
    requires ' ' !in fg && ' ' !in bg
    ensures Split(PairKey(fg, bg), ' ') == [fg, bg]
  {
    assert Join([fg, bg], ' ') == PairKey(fg, bg);
    SplitJoin([fg, bg], ' ');
  }

  /** Registering a pair whose colours agree with its key keeps the bookkeeping valid. */
  lemma RegisterKeepsValid(tbl: map<string, Color>, ws: WinState, key: string, p: (Color, Color))
    requires ValidWin(tbl, ws) && key !in ws.colors && PairAgrees(tbl, key, p)
    ensures ValidWin(tbl, Register(ws, key, p))
  {
    var ws' := Register(ws, key, p);
    var n := |ws.colors| + 1;
    forall k | k in ws'.colors
      ensures 1 <= ws'.colors[k] <= |ws'.colors| && ws'.colors[k] in ws'.pairs
      ensures PairAgrees(tbl, k, ws'.pairs[ws'.colors[k]])
    {
      if k != key {
        assert ws'.colors[k] == ws.colors[k] < n;
      }
    }
    forall k1, k2 | k1 in ws'.colors && k2 in ws'.colors && ws'.colors[k1] == ws'.colors[k2]
      ensures k1 == k2
    {
      if k1 != key && k2 != key {
        assert ws.colors[k1] == ws.colors[k2];
      }
    }
  }

  /** Rendering a style keeps the pair numbers distinct, dense and tied to their colours. */
  lemma ParseStyleKeepsValid(tbl: map<string, Color>, ws: WinState, style: seq<string>)
    requires NoSpaceKeys(tbl) && ValidWin(tbl, ws)
    requires ParseStyleSpec(tbl, ws, style).Ok?
    ensures ValidWin(tbl, ParseStyleSpec(tbl, ws, style).value.0)
  {
    var key := PairKey(style[0], style[1]);
    if key !in ws.colors {
      PairKeySplits(style[0], style[1]);
      RegisterKeepsValid(tbl, ws, key, (tbl[style[0]], tbl[style[1]]));
    }
  }

  /** Rendering a page keeps the bookkeeping valid. */
  lemma {:induction false} RenderKeepsValid(tbl: map<string, Color>, ws: WinState, snippets: seq<TextSnippet>)
    requires NoSpaceKeys(tbl) && ValidWin(tbl, ws)
    requires Render(tbl, ws, snippets).Ok?
    ensures ValidWin(tbl, Render(tbl, ws, snippets).value.0)
  {
    if snippets != [] {
      var init := snippets[..|snippets| - 1];
      RenderKeepsValid(tbl, ws, init);
      ParseStyleKeepsValid(tbl, Render(tbl, ws, init).value.0, snippets[|snippets| - 1].style);
    }
  }

  /** The index of the first occurrence of `k` in `keys`. */
  function FirstPos(keys: seq<string>, k: string): (p: nat)
    requires k in keys
    ensures p < |keys| && keys[p] == k
    ensures forall m :: 0 <= m < p ==> keys[m] != k
  {
    var init := keys[..|keys| - 1];
    if k in init then FirstPos(init, k) else |keys| - 1
  }

  /** `keys` with repeats dropped: each key at its first sighting, in the order of first sightings. */
  function FirstSeen(keys: seq<string>): (r: seq<string>)
    ensures forall k :: k in r <==> k in keys
    ensures forall i, j :: 0 <= i < j < |r| ==> r[i] != r[j]
    ensures forall i, j :: 0 <= i < j < |r| ==> FirstPos(keys, r[i]) < FirstPos(keys, r[j])
  {
    if keys == [] then []
    else
      var init := FirstSeen(keys[..|keys| - 1]);
      var last := keys[|keys| - 1];
      assert forall k :: k in keys <==> k in keys[..|keys| - 1] || k == last;
      if last in init then init else init + [last]
  }

  /** The snippet's style names the fg/bg combination `k`. */
  predicate HasKey(sn: TextSnippet, k: string) {
    |sn.style| >= 2 && k == PairKey(sn.style[0], sn.style[1])
  }

  /** The pair keys of the snippets, in order (a style too short for a key has none). */
  function StyleKeys(snippets: seq<TextSnippet>): (r: seq<string>)
    ensures |r| <= |snippets|
    ensures forall k :: k in r <==> exists i :: 0 <= i < |snippets| && HasKey(snippets[i], k)
  {
    if snippets == [] then []
    else
      var last := snippets[|snippets| - 1].style;
      StyleKeys(snippets[..|snippets| - 1]) + (if |last| >= 2 then [PairKey(last[0], last[1])] else [])
  }

  /** The numbering of `colors` is the order of `seen`: the i-th key seen has number i + 1. */
  ghost predicate NumberedInOrder(colors: map<string, nat>, seen: seq<string>) {
    && |colors| == |seen|
    && (forall i :: 0 <= i < |seen| ==> seen[i] in colors && colors[seen[i]] == i + 1)
    && (forall k :: k in colors ==> k in seen)
  }

  /**
   * A fresh window numbers its colour pairs 1, 2, ... in the order their
   * fg/bg combinations first appear on the pages it renders.
   */
  lemma {:induction false} PairsNumberedInFirstSeenOrder(tbl: map<string, Color>, snippets: seq<TextSnippet>)
    requires Render(tbl, EmptyWin, snippets).Ok?
    ensures NumberedInOrder(Render(tbl, EmptyWin, snippets).value.0.colors, FirstSeen(StyleKeys(snippets)))
  {
    if snippets != [] {
      var init := snippets[..|snippets| - 1];
      var style := snippets[|snippets| - 1].style;
      PairsNumberedInFirstSeenOrder(tbl, init);
      var ws := Render(tbl, EmptyWin, init).value.0;
      var seen := FirstSeen(StyleKeys(init));
      var keys := StyleKeys(snippets);
      assert keys == StyleKeys(init) + [PairKey(style[0], style[1])];
      assert keys[..|keys| - 1] == StyleKeys(init);
      NumberNext(ws.colors, seen, PairKey(style[0], style[1]));
    }
  }

  /** One registration extends a first-seen numbering by the key, when it is new. */
  lemma NumberNext(colors: map<string, nat>, seen: seq<string>, key: string)
    requires NumberedInOrder(colors, seen)
    requires forall i, j :: 0 <= i < j < |seen| ==> seen[i] != seen[j]
    ensures key in colors ==> NumberedInOrder(colors, if key in seen then seen else seen + [key])
    ensures key !in colors ==> NumberedInOrder(colors[key := |colors| + 1], if key in seen then seen else seen + [key])
  {
    if key !in colors {
      assert key !in seen;
      var seen' := seen + [key];
      forall i | 0 <= i < |seen'|
        ensures seen'[i] in colors[key := |colors| + 1] && colors[key := |colors| + 1][seen'[i]] == i + 1
      {
        if i < |seen| {
          assert seen'[i] == seen[i] != key;
        }
      }
    }
  }

  /** The attribute loop of `_parse_style`: ORs the flags of every token, failing on the first unknown one. */
  method AttrFlags(toks: seq<string>) returns (r: Result<set<Attr>, PyError>)
    ensures r == AttrsOf(toks)
  {
    var attrs: set<Attr> := {};
    for i := 0 to |toks|
      invariant AttrsOf(toks[..i]) == Ok(attrs)
    {
      assert toks[..i + 1][..i] == toks[..i];
      if toks[i] !in AttrTbl {
        AttrsOfFlags(toks);
        return Err(KeyError);
      }
      attrs := attrs + AttrBits(AttrTbl[toks[i]]);
    }
    assert toks[..|toks|] == toks;
    r := Ok(attrs);
  }

  /** The colour tokens of `color_tbl` never contain a space. */
  lemma ColorTblNoSpaces()
    ensures NoSpaceKeys(ColorTbl)
  {
    ColorTblKeys();
  }

  /**
   * A link snippet's style, `[fg, bg, attr, 'UL']`, renders with the
   * underline flag whenever its fg, bg and attr are known tokens.
   */
  lemma LinkStyleUnderlined(tbl: map<string, Color>, ws: WinState, st: Style)
    requires st.fg in tbl && st.bg in tbl && st.attr in AttrTbl
    ensures ParseStyleSpec(tbl, ws, st.Tokens() + ["UL"]).Ok?
    ensures AUnderline in ParseStyleSpec(tbl, ws, st.Tokens() + ["UL"]).value.1.attrs
  {
    var style := st.Tokens() + ["UL"];
    var toks := style[2..];
    assert style[0] == st.fg && style[1] == st.bg && toks == [st.attr, "UL"];
    AttrTblKeys();
    ParseStyleOutcome(tbl, ws, style);
    AttrsOfFlags(toks);
    assert AttrTbl[toks[1]] == AUnderline;
  }

  // ---------------------------------------------------------------------
  // The window object

  class TTVWin {
    /** The module's `color_tbl`: the 8-colour table, or the 7-colour one of texttv.py. */
    const colorTbl: map<string, Color>
    var colors: map<string, nat>
    var pairs: map<nat, (Color, Color)>

    function State(): WinState
      reads this
    {
      WinState(colors, pairs)
    }

    ghost predicate Valid()
      reads this
    {
      NoSpaceKeys(colorTbl) && ValidWin(colorTbl, State())
    }

    /** `TTVWin(win)`: no colour pair registered yet. */
    constructor(colorTbl: map<string, Color>)
      requires NoSpaceKeys(colorTbl)
      ensures Valid() && this.colorTbl == colorTbl && State() == EmptyWin
    {
      this.colorTbl := colorTbl;
      colors := map[];
      pairs := map[];
    }

    /** `_parse_style(style)`: a failed lookup raises before any pair is registered. */
    method ParseStyle(style: seq<string>) returns (r: Result<ColAttr, PyError>)
      requires Valid()
      modifies this
      ensures Valid()
      ensures r.Ok? <==> ParseStyleSpec(colorTbl, old(State()), style).Ok?
      ensures r.Ok? ==> (&& r.value == ParseStyleSpec(colorTbl, old(State()), style).value.1
                         && State() == ParseStyleSpec(colorTbl, old(State()), style).value.0)
      ensures r.Err? ==> r.error == ParseStyleSpec(colorTbl, old(State()), style).error && State() == old(State())
    {
      if |style| == 0 {
        return Err(IndexError);
      }
      if style[0] !in colorTbl {
        return Err(KeyError);
      }
      if |style| == 1 {
        return Err(IndexError);
      }
      if style[1] !in colorTbl {
        return Err(KeyError);
      }
      var fg := colorTbl[style[0]];
      var bg := colorTbl[style[1]];
      var flags := AttrFlags(style[2..]);
      if flags.Err? {
        return Err(flags.error);
      }
      var key := PairKey(style[0], style[1]);
      if key !in colors {
        ghost var ws := State();
        var n := |colors| + 1;
        pairs := pairs[n := (fg, bg)];
        colors := colors[key := n];
        assert State() == Register(ws, key, (fg, bg));
      }
      ParseStyleKeepsValid(colorTbl, old(State()), style);
      r := Ok(ColAttr(colors[key], flags.value));
    }

    /**
     * `load_page(snippets)`: each snippet's style rendered, then its text
     * drawn with it; `drawn` lists the `addstr` calls made. A failed style
     * aborts the page after the snippets before it were drawn.
     */
    method LoadPage(snippets: seq<TextSnippet>) returns (drawn: seq<(string, ColAttr)>, err: Option<PyError>)
      requires Valid()
      modifies this
      ensures Valid()
      ensures err.None? <==> Render(colorTbl, old(State()), snippets).Ok?
      ensures err.Some? ==> err.value == Render(colorTbl, old(State()), snippets).error
      ensures err.None? ==> Render(colorTbl, old(State()), snippets) == Ok((State(), drawn))
    {
      ghost var ws0 := State();
      drawn := [];
      assert snippets[..0] == [];
      for i := 0 to |snippets|
        invariant Valid()
        invariant Render(colorTbl, ws0, snippets[..i]) == Ok((State(), drawn))
      {
        var r := ParseStyle(snippets[i].style);
        RenderSnoc(colorTbl, ws0, snippets, i);
        if r.Err? {
          RenderErrSticky(colorTbl, ws0, snippets, i + 1);
          return drawn, Some(r.error);
        }
        drawn := drawn + [(snippets[i].text, r.value)];
      }
      assert snippets[..|snippets|] == snippets;
      err := None;
    }
  }

  /** Once a prefix of the page fails to render, the whole page fails with the same error. */
  lemma {:induction false} RenderErrSticky(tbl: map<string, Color>, ws: WinState, snippets: seq<TextSnippet>, n: nat)
    requires n <= |snippets| && Render(tbl, ws, snippets[..n]).Err?
    ensures Render(tbl, ws, snippets) == Render(tbl, ws, snippets[..n])
  {
    if n < |snippets| {
      assert snippets[..|snippets| - 1][..n] == snippets[..n];
      RenderErrSticky(tbl, ws, snippets[..|snippets| - 1], n);
    } else {
      assert snippets[..n] == snippets;
    }
  }

  /**
   * Drawing `a + b` is drawing `a` and then `b` with the registry `a` left
   * behind: the pair numbers of one sub-page carry over to the next.
   */
  lemma {:induction false} RenderSplit(tbl: map<string, Color>, ws: WinState, a: seq<TextSnippet>, b: seq<TextSnippet>)
    ensures Render(tbl, ws, a + b) ==
      match Render(tbl, ws, a)
      case Err(e) => Err(e)
      case Ok(p) =>
        match Render(tbl, p.0, b)
        case Err(e) => Err(e)
        case Ok(q) => Ok((q.0, p.1 + q.1))
  {
    if b == [] {
      assert a + b == a;
      if Render(tbl, ws, a).Ok? {
        assert Render(tbl, ws, a).value.1 + [] == Render(tbl, ws, a).value.1;
      }
    } else {
      var init := b[..|b| - 1];
      assert (a + b)[..|a + b| - 1] == a + init;
      assert (a + b)[|a + b| - 1] == b[|b| - 1];
      RenderSplit(tbl, ws, a, init);
      var ra := Render(tbl, ws, a);
      if ra.Ok? {
        var rb := Render(tbl, ra.value.0, init);
        if rb.Ok? {
          var r := ParseStyleSpec(tbl, rb.value.0, b[|b| - 1].style);
          if r.Ok? {
            var item := [(b[|b| - 1].text, r.value.1)];
            assert ra.value.1 + rb.value.1 + item == ra.value.1 + (rb.value.1 + item);
          }
        }
      }
    }
  }

  /** `Render` on one more snippet. */
  lemma RenderSnoc(tbl: map<string, Color>, ws: WinState, snippets: seq<TextSnippet>, i: nat)
    requires i < |snippets|
    ensures Render(tbl, ws, snippets[..i + 1]) == RenderOne(tbl, Render(tbl, ws, snippets[..i]), snippets[i])
  {
    assert snippets[..i + 1][..i] == snippets[..i];
  }
}
