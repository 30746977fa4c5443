/** `Html::Element` of lib/iron/web/html/element.rb, and the rendering of a whole
    document tree (`Html#render` of lib/iron/web/html.rb, which it calls for its
    children and which calls it back for child elements).

    A document is a value tree: an element holds its children as the items of an
    `Html` list (`Frag`), and such a list holds text, nil and elements. */
module Markup {
  import opened Support
  import opened SafeStrings
  import opened HtmlEscape
  import opened OrderedMaps

  /** `SINGLETON_SET`: tags that are commonly empty and get no closing tag. */
  const SINGLETON_SET: set<string> :=
    {"area", "base", "br", "col", "command", "embed", "hr", "img", "input", "link", "meta",
     "param", "source"}

  /** `INLINE_SET`: tags rendered without any line breaks of their own. */
  const INLINE_SET: set<string> :=
    {"a", "abbr", "b", "button", "em", "i", "input", "img", "label", "li", "option", "span",
     "strong", "title", "textarea", "u"}

  /** `BLANK_ATTRS`: attributes printed with `=""` even when blank. */
  const BLANK_ATTRS: set<string> := {"value", "alt"}

  /** Attribute values are strings or nil. */
  type Attrs = Assoc<string, Option<SafeString>>

  /** An item of an `Html` list: a string, nil, or an element. */
  datatype Node = TextItem(text: string) | NilItem | ElementItem(element: ElementValue)

  /** The `@items` of an `Html` list. */
  datatype Frag = Frag(items: seq<Node>)

  /** The state of an element: `@tag`, `@attrs`, `@html` (nil until first asked for),
      `@force_end` and `@skip_newline`. */
  datatype ElementValue =
    ElementValue(tag: string, attrs: Attrs, html: Option<Frag>, forceEnd: bool, skipNewline: bool)

  /** The second argument of `Element.new`, by the type the constructor tests for. */
  datatype Content =
    | NoText
    | HashArg(hash: Attrs)
    | TextArg(text: SafeString)
    | ElementArg(element: ElementValue)
    | HtmlArg(html: Frag)
    | OtherArg

  /** The argument of `html=`, by the type it tests for. */
  datatype HtmlInput =
    | StringInput(text: string)
    | HtmlListInput(html: Frag)
    | ArrayInput(elements: seq<Node>)
    | OtherInput

  /** `@html.blank?`: nil, or an `Html` without items. */
  predicate HtmlBlank(html: Option<Frag>) {
    html.None? || |html.value.items| == 0
  }

  /** `Element.new(tag, text, attrs)`. `tag.to_s` keeps the name's case. A Hash in
      the text position is taken as the attributes (and the third argument ignored);
      a String is added as a child, escaped unless it is safe; an element is added as
      a child; an `Html` becomes the child list; anything else adds nothing. */
  function NewElement(tag: string, text: Content, attrs: Attrs): (r: ElementValue)
    ensures r.tag == tag
    ensures r.forceEnd <==> tag !in SINGLETON_SET
    ensures r.skipNewline <==> tag in INLINE_SET
    ensures text.HashArg? ==> r.attrs == text.hash
    ensures !text.HashArg? ==> r.attrs == attrs
    ensures text.TextArg? ==> r.html == Some(Frag([TextItem(EscapeOnce(text.text).text)]))
    ensures text.ElementArg? ==> r.html == Some(Frag([ElementItem(text.element)]))
    ensures text.HtmlArg? ==> r.html == Some(text.html)
    ensures text.NoText? || text.HashArg? || text.OtherArg? ==> r.html.None?
  {
    var html :=
      match text
      case TextArg(s) => Some(Frag([TextItem(EscapeOnce(s).text)]))
      case ElementArg(e) => Some(Frag([ElementItem(e)]))
      case HtmlArg(h) => Some(h)
      case _ => None;
    ElementValue(tag, if text.HashArg? then text.hash else attrs, html,
                 tag !in SINGLETON_SET, tag in INLINE_SET)
  }

  /** `html=`: a String becomes the only child, stored raw; an `Html` is attached as
      the child list; an Array's members become the children in order; anything else
      raises `'Invalid input'`. */
  function SetHtmlValue(e: ElementValue, arg: HtmlInput): (r: Result<ElementValue, RubyError>)
    ensures r.Err? <==> arg.OtherInput?
    ensures r.Ok? ==> r.value == e.(html := r.value.html) && r.value.html.Some?
    ensures arg.StringInput? ==> r.value.html.value.items == [TextItem(arg.text)]
    ensures arg.HtmlListInput? ==> r.value.html == Some(arg.html)
    ensures arg.ArrayInput? ==> r.value.html.value.items == arg.elements
  {
    match arg
    case StringInput(s) => Ok(e.(html := Some(Frag([TextItem(s)]))))
    case HtmlListInput(h) => Ok(e.(html := Some(h)))
    case ArrayInput(xs) => Ok(e.(html := Some(Frag(xs))))
    case OtherInput => Err(RuntimeError("Invalid input"))
  }

  // ---------------------------------------------------------------------------
  // Dynamic attribute access

  predicate IsAttrChar(c: char) {
    IsLetter(c) || IsDigit(c) || c == '_'
  }

  predicate AllAttrChars(s: string) {
    forall i :: 0 <= i < |s| ==> IsAttrChar(s[i])
  }

  /** The attribute a dynamic call names: the match of `^([a-z0-9_]+)(=?)$` without
      regard to case, with the `=` removed. */
  function AttrKey(name: string): (r: Option<string>)
    ensures r.Some? ==> |r.value| >= 1 && AllAttrChars(r.value)
    ensures r.Some? ==> name == r.value || name == r.value + "="
    ensures r.None? ==> forall k :: |k| >= 1 && AllAttrChars(k) ==> name != k && name != k + "="
  {
    if |name| >= 1 && AllAttrChars(name) then Some(name)
    else if |name| >= 2 && name[|name| - 1] == '=' && AllAttrChars(name[..|name| - 1]) then
      Some(name[..|name| - 1])
    else
      assert forall k :: |k| >= 1 && AllAttrChars(k) ==> name != k && name != k + "=" by {
        forall k | |k| >= 1 && AllAttrChars(k)
          ensures name != k && name != k + "="
        {
          assert (k + "=")[..|k|] == k;
        }
      }
      None
  }

  /** `method_missing` on an element: with exactly one argument, stores it under the
      key and returns it (whether or not the name ends in `=`); otherwise raises if a
      block is given, and else returns the stored value (nil when there is none).
      Names the pattern rejects raise `NoMethodError`. */
  function AttrCall(e: ElementValue, name: string, args: seq<Option<SafeString>>, hasBlock: bool)
    : (r: Result<(ElementValue, Option<SafeString>), RubyError>)
    ensures AttrKey(name).None? ==> r == Err(NoMethodError(name))
    ensures AttrKey(name).Some? && |args| == 1 ==>
              r.Ok? && r.value.1 == args[0] &&
              Get(r.value.0.attrs, AttrKey(name).value) == Some(args[0]) &&
              r.value.0.attrs == Put(e.attrs, AttrKey(name).value, args[0])
    ensures AttrKey(name).Some? && |args| == 1 ==>
              forall k :: k != AttrKey(name).value ==> Get(r.value.0.attrs, k) == Get(e.attrs, k)
    ensures AttrKey(name).Some? && |args| != 1 ==>
              (r.Err? <==> hasBlock)
    ensures AttrKey(name).Some? && |args| != 1 && !hasBlock ==>
              r.value.0 == e &&
              r.value.1 == (if Get(e.attrs, AttrKey(name).value).Some? then Get(e.attrs, AttrKey(name).value).value else None)
    ensures r.Ok? ==> r.value.0 == e.(attrs := r.value.0.attrs)
  {
    match AttrKey(name)
    case None => Err(NoMethodError(name))
    case Some(key) =>
      if |args| == 1 then
        PutGetAll(e.attrs, key, args[0]);
        Ok((e.(attrs := Put(e.attrs, key, args[0])), args[0]))
      else if hasBlock then
        Err(RuntimeError("I think you meant <" + e.tag + ">.html." + name + " instead of <" + e.tag + ">." + name))
      else
        var stored := Get(e.attrs, key);
        Ok((e, if stored.Some? then stored.value else None))
  }

  // ---------------------------------------------------------------------------
  // Rendering

  /** One attribute: nil is omitted; a blank value prints the bare key unless the key
      is in `BLANK_ATTRS`; otherwise `key="value"`, escaped unless safe. */
  function AttrPiece(key: string, value: Option<SafeString>): string {
    match value
    case None => ""
    case Some(v) =>
      if Blank(v.text) && key !in BLANK_ATTRS then " " + key
      else " " + key + "=\"" + EscapeOnce(v).text + "\""
  }

  /** The attributes in insertion order. */
  function AttrString(attrs: Attrs): string {
    JoinEntries(attrs, AttrPiece)
  }

  function StartTag(e: ElementValue): string {
    "<" + e.tag + AttrString(e.attrs) + ">"
  }

  function EndTag(e: ElementValue): string {
    "</" + e.tag + ">"
  }

  /** What precedes the start tag: a line break for a block element outside a block,
      and the indentation unless the element is inline outside a block. */
  function Lead(skipNewline: bool, depth: nat, inblock: bool): string {
    (if !inblock && !skipNewline then "\n" else "") +
    (if !inblock && skipNewline then "" else Indent(depth))
  }

  /** `Element#render(depth, inblock)`: the lead, the start tag, the children (if
      there is an `Html`), the closing tag and, for a block element, a line break. */
  function RenderElement(e: ElementValue, depth: nat, inblock: bool): string
    decreases e, 1
  {
    AfterOpen(e, depth, Lead(e.skipNewline, depth, inblock) + StartTag(e)) + CloseTag(e) +
    Trail(e.skipNewline)
  }

  /** The text rendered so far, `open`, followed by the children. */
  function AfterOpen(e: ElementValue, depth: nat, open: string): string
    decreases e, 0
  {
    match e.html
    case None => open
    case Some(h) =>
      AfterChildren(e, depth, open + Trail(e.skipNewline) + RenderItems(h, 0, depth + 1, !e.skipNewline))
  }

  /** What a block element adds after its children: a line break unless the text so far
      already ends with one, and the indentation of its closing tag. */
  function AfterChildren(e: ElementValue, depth: nat, val: string): string {
    val + (if e.skipNewline || EndsWith(val, "\n") then "" else "\n") +
    (if e.skipNewline then "" else Indent(depth))
  }

  /** `</tag>` when the end is forced or there are children. */
  function CloseTag(e: ElementValue): string {
    if e.forceEnd || !HtmlBlank(e.html) then EndTag(e) else ""
  }

  /** The line break a block element adds. */
  function Trail(skipNewline: bool): string {
    if skipNewline then "" else "\n"
  }

  /** `Html#render(depth, inblock)` from item `i` on: while `inblock` holds, the next
      String item is indented and clears it; nil renders as nothing; an element renders
      with the current `inblock`, which it leaves as it is. */
  function RenderItems(h: Frag, i: nat, depth: nat, inblock: bool): string
    requires i <= |h.items|
    decreases h, |h.items| - i
  {
    if i == |h.items| then ""
    else
      match h.items[i]
      case TextItem(t) =>
        (if inblock then Indent(depth) + t else t) + RenderItems(h, i + 1, depth, false)
      case NilItem => RenderItems(h, i + 1, depth, inblock)
      case ElementItem(c) => RenderElement(c, depth, inblock) + RenderItems(h, i + 1, depth, inblock)
  }

  /** `Html#render(depth, inblock)` of a whole list. */
  function RenderFragment(h: Frag, depth: nat, inblock: bool): string {
    RenderItems(h, 0, depth, inblock)
  }

  // ---------------------------------------------------------------------------
  // Properties of rendering

  lemma AfterChildrenPrefix(e: ElementValue, depth: nat, p: string, w: string)
    requires w != []
    ensures AfterChildren(e, depth, p + w) == p + AfterChildren(e, depth, w)
  {
    assert (p + w)[|p + w| - 1] == w[|w| - 1];
    assert EndsWith(p + w, "\n") == EndsWith(w, "\n");
  }

  /** Text already rendered before the start tag is carried through unchanged. */
  lemma AfterOpenPrefix(e: ElementValue, depth: nat, p: string, x: string)
    requires x != []
    ensures AfterOpen(e, depth, p + x) == p + AfterOpen(e, depth, x)
  {
    if e.html.Some? {
      var tail := Trail(e.skipNewline) + RenderItems(e.html.value, 0, depth + 1, !e.skipNewline);
      assert (p + x) + Trail(e.skipNewline) + RenderItems(e.html.value, 0, depth + 1, !e.skipNewline) == p + (x + tail);
      assert x + Trail(e.skipNewline) + RenderItems(e.html.value, 0, depth + 1, !e.skipNewline) == x + tail;
      AfterChildrenPrefix(e, depth, p, x + tail);
    }
  }

  /** What is rendered after the start tag never changes what came before it. */
  lemma AfterOpenExtends(e: ElementValue, depth: nat, x: string)
    ensures |x| <= |AfterOpen(e, depth, x)| && AfterOpen(e, depth, x)[..|x|] == x
  {
  }

  /** Everything an element renders from its start tag on. */
  function FromStartTag(e: ElementValue, depth: nat): string {
    AfterOpen(e, depth, StartTag(e)) + CloseTag(e) + Trail(e.skipNewline)
  }

  /** The lead is the only part of an element's rendering that depends on `inblock`. */
  lemma RenderShape(e: ElementValue, depth: nat, inblock: bool)
    ensures RenderElement(e, depth, inblock) == Lead(e.skipNewline, depth, inblock) + FromStartTag(e, depth)
  {
    var lead, open := Lead(e.skipNewline, depth, inblock), StartTag(e);
    AfterOpenPrefix(e, depth, lead, open);
    ConcatAssoc(lead, AfterOpen(e, depth, open), CloseTag(e), Trail(e.skipNewline));
  }

  lemma ConcatAssoc(a: string, b: string, c: string, d: string)
    ensures a + b + c + d == a + (b + c + d)
  {
  }

  /** A block element outside a block starts on a new line; inside a block it starts
      with its indentation. */
  lemma BlockLeadingNewline(e: ElementValue, depth: nat)
    requires !e.skipNewline
    ensures RenderElement(e, depth, false) == "\n" + RenderElement(e, depth, true)
    ensures |RenderElement(e, depth, true)| >= 2 * depth
    ensures RenderElement(e, depth, true)[..2 * depth] == Indent(depth)
  {
    RenderShape(e, depth, false);
    RenderShape(e, depth, true);
    var r := FromStartTag(e, depth);
    assert Lead(false, depth, false) == "\n" + Indent(depth);
    assert Lead(false, depth, true) == Indent(depth);
    assert ("\n" + Indent(depth)) + r == "\n" + (Indent(depth) + r);
    assert (Indent(depth) + r)[..2 * depth] == Indent(depth);
  }

  /** An inline element inside a block is only indented; outside a block it starts
      with its start tag. */
  lemma InlineLead(e: ElementValue, depth: nat)
    requires e.skipNewline
    ensures RenderElement(e, depth, true) == Indent(depth) + RenderElement(e, depth, false)
    ensures |StartTag(e)| <= |RenderElement(e, depth, false)|
    ensures RenderElement(e, depth, false)[..|StartTag(e)|] == StartTag(e)
  {
    InlineIndented(e, depth);
    InlineStartsWithTag(e, depth);
  }

  lemma InlineIndented(e: ElementValue, depth: nat)
    requires e.skipNewline
    ensures RenderElement(e, depth, true) == Indent(depth) + RenderElement(e, depth, false)
  {
    RenderShape(e, depth, false);
    RenderShape(e, depth, true);
    assert Lead(true, depth, false) == "";
    assert Lead(true, depth, true) == Indent(depth);
    assert "" + FromStartTag(e, depth) == FromStartTag(e, depth);
  }

  lemma InlineStartsWithTag(e: ElementValue, depth: nat)
    requires e.skipNewline
    ensures |StartTag(e)| <= |RenderElement(e, depth, false)|
    ensures RenderElement(e, depth, false)[..|StartTag(e)|] == StartTag(e)
  {
    var open := StartTag(e);
    RenderShape(e, depth, false);
    assert Lead(true, depth, false) == "";
    AfterOpenExtends(e, depth, open);
    var w := AfterOpen(e, depth, open);
    var r := "" + FromStartTag(e, depth);
    assert r == w + (CloseTag(e) + Trail(true));
    assert r[..|open|] == w[..|open|];
  }

  /** `</tag>` closes the element exactly when it is forced or there are children, and
      then the output ends in `</tag>` (followed by a line break for block elements).
      Without both, nothing follows what was rendered up to the children but the line
      break, so an element with no `Html` is its start tag and line break alone. */
  lemma ClosingTag(e: ElementValue, depth: nat, inblock: bool)
    ensures e.forceEnd || !HtmlBlank(e.html) ==>
              EndsWith(RenderElement(e, depth, inblock), EndTag(e) + Trail(e.skipNewline))
    ensures !e.forceEnd && HtmlBlank(e.html) ==>
              RenderElement(e, depth, inblock) ==
              AfterOpen(e, depth, Lead(e.skipNewline, depth, inblock) + StartTag(e)) + Trail(e.skipNewline)
    ensures !e.forceEnd && e.html.None? ==>
              RenderElement(e, depth, inblock) ==
              Lead(e.skipNewline, depth, inblock) + StartTag(e) + Trail(e.skipNewline)
    ensures !e.forceEnd && e.html.Some? && e.html.value.items == [] ==>
              RenderElement(e, depth, inblock) ==
              Lead(e.skipNewline, depth, inblock) + StartTag(e) + Trail(e.skipNewline) +
              (if e.skipNewline then "" else Indent(depth)) + Trail(e.skipNewline)
  {
    var a := AfterOpen(e, depth, Lead(e.skipNewline, depth, inblock) + StartTag(e));
    var t := Trail(e.skipNewline);
    if e.forceEnd || !HtmlBlank(e.html) {
      assert RenderElement(e, depth, inblock) == a + (EndTag(e) + t);
      assert (a + (EndTag(e) + t))[|a|..] == EndTag(e) + t;
    } else if e.html.Some? {
      EmptyChildren(e, depth, Lead(e.skipNewline, depth, inblock) + StartTag(e));
    }
  }

  /** An empty child list adds the line break after the start tag and the closing
      indentation of a block element, and nothing for an inline one. */
  lemma EmptyChildren(e: ElementValue, depth: nat, open: string)
    requires e.html.Some? && e.html.value.items == []
    ensures AfterOpen(e, depth, open) ==
            open + Trail(e.skipNewline) + (if e.skipNewline then "" else Indent(depth))
  {
    var val := open + Trail(e.skipNewline) + RenderItems(e.html.value, 0, depth + 1, !e.skipNewline);
    assert val == open + Trail(e.skipNewline);
    if !e.skipNewline {
      assert EndsWith(val, "\n");
    }
  }

  /** A void tag built without children renders without a closing tag; any other
      built element, whatever its content, gets one. */
  lemma NewElementClosingTag(tag: string, text: Content, attrs: Attrs, depth: nat, inblock: bool)
    requires text.NoText? || text.HashArg? || text.OtherArg? || tag !in SINGLETON_SET
    ensures tag in SINGLETON_SET ==>
              RenderElement(NewElement(tag, text, attrs), depth, inblock) ==
              Lead(tag in INLINE_SET, depth, inblock) + StartTag(NewElement(tag, text, attrs)) +
              Trail(tag in INLINE_SET)
    ensures tag !in SINGLETON_SET ==>
              EndsWith(RenderElement(NewElement(tag, text, attrs), depth, inblock),
                       "</" + tag + ">" + Trail(tag in INLINE_SET))
  {
    ClosingTag(NewElement(tag, text, attrs), depth, inblock);
  }

  /** Setting an attribute through a dynamic call: a new key renders last, after all
      the others; an existing key renders with its new value in its old place. */
  lemma AttrSetRendering(attrs: Attrs, key: string, value: Option<SafeString>)
    ensures key !in Keys(attrs) ==>
              AttrString(Put(attrs, key, value)) == AttrString(attrs) + AttrPiece(key, value)
    ensures key in Keys(attrs) ==>
              exists i :: 0 <= i < |attrs| && attrs[i].0 == key &&
                AttrString(Put(attrs, key, value)) ==
                AttrString(attrs[..i]) + AttrPiece(key, value) + AttrString(attrs[i + 1..])
  {
    JoinAfterPut(attrs, key, value, AttrPiece);
  }

  // Inline trees render on one line.

  predicate NoNewline(s: string) {
    '\n' !in s
  }

  predicate AttrsOnOneLine(attrs: Attrs) {
    forall i :: 0 <= i < |attrs| ==>
      NoNewline(attrs[i].0) && (attrs[i].1.Some? ==> NoNewline(attrs[i].1.value.text))
  }

  /** An element whose whole subtree is inline, with no line feed in any tag name,
      attribute or text. */
  predicate InlineTree(e: ElementValue)
    decreases e
  {
    e.skipNewline && NoNewline(e.tag) && AttrsOnOneLine(e.attrs) &&
    (e.html.Some? ==> InlineItems(e.html.value, 0))
  }

  predicate InlineItems(h: Frag, i: nat)
    requires i <= |h.items|
    decreases h, |h.items| - i
  {
    i == |h.items| ||
    ((match h.items[i]
      case TextItem(t) => NoNewline(t)
      case NilItem => true
      case ElementItem(c) => InlineTree(c)) &&
     InlineItems(h, i + 1))
  }

  lemma {:induction false} AttrStringOnOneLine(attrs: Attrs)
    requires AttrsOnOneLine(attrs)
    ensures NoNewline(AttrString(attrs))
  {
    if attrs != [] {
      AttrStringOnOneLine(attrs[1..]);
      if attrs[0].1.Some? {
        EscapeKeepsOtherChars(attrs[0].1.value.text, '\n');
      }
      assert AttrString(attrs) == AttrPiece(attrs[0].0, attrs[0].1) + AttrString(attrs[1..]);
    }
  }

  /** An inline tree renders without a single line feed, and with no indentation of
      its own outside a block. */
  lemma {:induction false} InlineTreeOnOneLine(e: ElementValue, depth: nat)
    requires InlineTree(e)
    ensures NoNewline(RenderElement(e, depth, false))
    ensures RenderElement(e, depth, true) == Indent(depth) + RenderElement(e, depth, false)
    decreases e, 1
  {
    InlineIndented(e, depth);
    StartTagOnOneLine(e);
    if e.html.Some? {
      InlineItemsOnOneLine(e.html.value, 0, depth + 1);
      InlineChildren(e, depth);
    }
    InlineParts(e, depth);
  }

  lemma StartTagOnOneLine(e: ElementValue)
    requires NoNewline(e.tag) && AttrsOnOneLine(e.attrs)
    ensures NoNewline(StartTag(e))
  {
    AttrStringOnOneLine(e.attrs);
  }

  /** An inline element's children follow its start tag directly. */
  lemma InlineChildren(e: ElementValue, depth: nat)
    requires e.skipNewline && e.html.Some?
    requires NoNewline(StartTag(e)) && NoNewline(RenderItems(e.html.value, 0, depth + 1, false))
    ensures NoNewline(AfterOpen(e, depth, StartTag(e)))
  {
    assert AfterOpen(e, depth, StartTag(e)) == StartTag(e) + RenderItems(e.html.value, 0, depth + 1, false);
  }

  /** Outside a block, an inline element is what follows its start tag and its
      closing tag, if any. */
  lemma InlineParts(e: ElementValue, depth: nat)
    requires e.skipNewline && NoNewline(e.tag) && (e.html.None? ==> NoNewline(StartTag(e)))
    requires e.html.Some? ==> NoNewline(AfterOpen(e, depth, StartTag(e)))
    ensures NoNewline(RenderElement(e, depth, false))
  {
    assert Lead(true, depth, false) + StartTag(e) == StartTag(e);
    assert RenderElement(e, depth, false) == AfterOpen(e, depth, StartTag(e)) + CloseTag(e);
  }

  lemma {:induction false} InlineItemsOnOneLine(h: Frag, i: nat, depth: nat)
    requires i <= |h.items| && InlineItems(h, i)
    ensures NoNewline(RenderItems(h, i, depth, false))
    decreases h, |h.items| - i
  {
    if i < |h.items| {
      InlineItemsOnOneLine(h, i + 1, depth);
      match h.items[i]
      case TextItem(t) =>
      case NilItem =>
      case ElementItem(c) =>
        InlineTreeOnOneLine(c, depth);
    }
  }

  /** A block element holding one line of text renders it on its own line, one level
      deeper than its tags. */
  lemma BlockWithText(e: ElementValue, t: string, depth: nat, inblock: bool)
    requires !e.skipNewline && e.html == Some(Frag([TextItem(t)]))
    requires t != [] && t[|t| - 1] != '\n'
    ensures RenderElement(e, depth, inblock) ==
            Lead(false, depth, inblock) + StartTag(e) + "\n" + (Indent(depth + 1) + t) + "\n" +
            Indent(depth) + EndTag(e) + "\n"
  {
    var h := e.html.value;
    assert RenderItems(h, 1, depth + 1, false) == "";
    assert RenderItems(h, 0, depth + 1, true) == Indent(depth + 1) + t;
    var open := Lead(false, depth, inblock) + StartTag(e);
    var w := open + "\n" + (Indent(depth + 1) + t);
    assert w[|w| - 1] == t[|t| - 1];
    assert AfterOpen(e, depth, open) == w + "\n" + Indent(depth);
    assert CloseTag(e) == EndTag(e) && Trail(false) == "\n";
  }

  /** An inline element holding one text renders as start tag, text and end tag. */
  lemma InlineWithText(e: ElementValue, t: string, depth: nat)
    requires e.skipNewline && e.html == Some(Frag([TextItem(t)]))
    ensures RenderElement(e, depth, false) == StartTag(e) + t + EndTag(e)
  {
    var h := e.html.value;
    assert RenderItems(h, 1, depth + 1, false) == "";
    assert RenderItems(h, 0, depth + 1, false) == t;
    assert Lead(true, depth, false) + StartTag(e) == StartTag(e);
    assert AfterOpen(e, depth, StartTag(e)) == StartTag(e) + t;
  }

  /** A block tag built with one line of text: the text sits on its own line, one level
      deeper than the tags (the `div` example of spec/web/element_spec.rb). */
  lemma BlockTextElement(tag: string, v: SafeString, depth: nat)
    requires tag !in SINGLETON_SET && tag !in INLINE_SET
    requires EscapeOnce(v).text != [] && EscapeOnce(v).text[|EscapeOnce(v).text| - 1] != '\n'
    ensures RenderElement(NewElement(tag, TextArg(v), []), depth, false) ==
            "\n" + Indent(depth) + ("<" + tag + ">") + "\n" + (Indent(depth + 1) + EscapeOnce(v).text) + "\n" +
            Indent(depth) + ("</" + tag + ">") + "\n"
  {
    var t := EscapeOnce(v).text;
    var e := NewElement(tag, TextArg(v), []);
    assert StartTag(e) == "<" + tag + ">" by {
      assert AttrString([]) == "";
    }
    BlockWithText(e, t, depth, false);
    assert Lead(false, depth, false) == "\n" + Indent(depth);
  }

  /** An inline tag built with text renders as start tag, escaped text and end tag (the
      `span` examples of spec/web/element_spec.rb). */
  lemma InlineTextElement(tag: string, v: SafeString, depth: nat)
    requires tag !in SINGLETON_SET && tag in INLINE_SET
    ensures RenderElement(NewElement(tag, TextArg(v), []), depth, false) ==
            "<" + tag + ">" + EscapeOnce(v).text + "</" + tag + ">"
  {
    var e := NewElement(tag, TextArg(v), []);
    assert StartTag(e) == "<" + tag + ">" by {
      assert AttrString([]) == "";
    }
    InlineWithText(e, EscapeOnce(v).text, depth);
  }

  /** The closing-tag examples of spec/web/element_spec.rb. */
  lemma TagExamples()
    ensures RenderElement(NewElement("b", NoText, []), 0, false) == "<b></b>"
    ensures RenderElement(NewElement("img", NoText, []), 0, false) == "<img>"
  {
    var b := NewElement("b", NoText, []);
    assert b == ElementValue("b", [], None, true, true);
    assert StartTag(b) == "<b>";
    var img := NewElement("img", NoText, []);
    assert img == ElementValue("img", [], None, false, true);
    assert StartTag(img) == "<img>";
  }

  /** Quotes around plain text are escaped, the text itself is kept. */
  lemma QuotedText(w: string)
    requires forall i :: 0 <= i < |w| ==> Inert(w[i])
    ensures EscapeOnce(Plain("\"" + w + "\"")).text == "&quot;" + w + "&quot;"
  {
    var s := "\"" + w + "\"";
    assert s[1..] == w + "\"";
    assert Rewritten(s);
    InertPrefix(w, "\"");
    assert EscapeOnceText("\"") == "&quot;";
  }

  // ---------------------------------------------------------------------------

  /** An element, updated in place by its setters and by dynamic attribute calls. */
  class Element {
    var tag: string
    var attrs: Attrs
    var html: Option<Frag>
    var forceEnd: bool
    var skipNewline: bool

    function Value(): ElementValue
      reads this
    {
      ElementValue(tag, attrs, html, forceEnd, skipNewline)
    }

    /** `Element.new(tag, text, attrs)`. */
    constructor(tag: string, text: Content, attrs: Attrs)
      ensures Value() == NewElement(tag, text, attrs)
    {
      this.tag := tag;
      forceEnd := tag !in SINGLETON_SET;
      skipNewline := tag in INLINE_SET;
      this.attrs := if text.HashArg? then text.hash else attrs;
      html := match text
        case TextArg(s) => Some(Frag([TextItem(EscapeOnce(s).text)]))
        case ElementArg(e) => Some(Frag([ElementItem(e)]))
        case HtmlArg(h) => Some(h)
        case _ => None;
    }

    /** `force_end!`. */
    method ForceEnd()
      modifies this
      ensures Value() == old(Value()).(forceEnd := true)
    {
      forceEnd := true;
    }

    /** `skip_newline!`. */
    method SkipNewline()
      modifies this
      ensures Value() == old(Value()).(skipNewline := true)
    {
      skipNewline := true;
    }

    /** `html`: the child list, created empty on first use. */
    method Html() returns (h: Frag)
      modifies this
      ensures html == Some(h)
      ensures old(html).Some? ==> h == old(html).value
      ensures old(html).None? ==> h.items == []
      ensures Value() == old(Value()).(html := Some(h))
    {
      if html.None? {
        html := Some(Frag([]));
      }
      h := html.value;
    }

    /** `html=`: an Array is appended to a fresh list one member at a time. */
    method SetHtml(arg: HtmlInput) returns (error: Option<RubyError>)
      modifies this
      ensures SetHtmlValue(old(Value()), arg).Ok? ==> error.None? && Value() == SetHtmlValue(old(Value()), arg).value
      ensures SetHtmlValue(old(Value()), arg).Err? ==> error == Some(SetHtmlValue(old(Value()), arg).error) && Value() == old(Value())
    {
      match arg {
        case StringInput(s) =>
          html := Some(Frag([TextItem(s)]));
          error := None;
        case HtmlListInput(h) =>
          html := Some(h);
          error := None;
        case ArrayInput(xs) =>
          html := Some(Frag([]));
          var i := 0;
          while i < |xs|
            invariant 0 <= i <= |xs|
            invariant html == Some(Frag(xs[..i]))
            invariant Value() == old(Value()).(html := html)
          {
            assert xs[..i + 1] == xs[..i] + [xs[i]];
            html := Some(Frag(html.value.items + [xs[i]]));
            i := i + 1;
          }
          assert xs[..i] == xs;
          error := None;
        case OtherInput =>
          error := Some(RuntimeError("Invalid input"));
      }
    }

    /** `method_missing`: a dynamic attribute getter or setter. */
    method Attr(name: string, args: seq<Option<SafeString>>, hasBlock: bool)
      returns (r: Result<Option<SafeString>, RubyError>)
      modifies this
      ensures AttrCall(old(Value()), name, args, hasBlock).Ok? ==>
                r == Ok(AttrCall(old(Value()), name, args, hasBlock).value.1) &&
                Value() == AttrCall(old(Value()), name, args, hasBlock).value.0
      ensures AttrCall(old(Value()), name, args, hasBlock).Err? ==>
                r == Err(AttrCall(old(Value()), name, args, hasBlock).error) && Value() == old(Value())
      ensures AttrKey(name).Some? && |args| == 1 ==> attrs == Put(old(attrs), AttrKey(name).value, args[0])
    {
      var key := AttrKey(name);
      if key.None? {
        r := Err(NoMethodError(name));
      } else if |args| == 1 {
        attrs := Put(attrs, key.value, args[0]);
        r := Ok(args[0]);
      } else if hasBlock {
        r := Err(RuntimeError("I think you meant <" + tag + ">.html." + name + " instead of <" + tag + ">." + name));
      } else {
        var stored := Get(attrs, key.value);
        r := Ok(if stored.Some? then stored.value else None);
      }
    }

    /** `render(depth, inblock)`, built up piece by piece. */
    method Render(depth: nat, inblock: bool) returns (val: string)
      ensures val == RenderElement(Value(), depth, inblock)
    {
      var attrStr := AttrString(attrs);
      val := "";
      if !inblock && !skipNewline {
        val := val + "\n";
      }
      if !(!inblock && skipNewline) {
        val := val + Indent(depth);
      }
      assert val == Lead(skipNewline, depth, inblock);
      val := val + ("<" + tag + attrStr + ">");
      val := RenderChildren(val, depth);
      if forceEnd || !HtmlBlank(html) {
        val := val + ("</" + tag + ">");
      }
      if !skipNewline {
        val := val + "\n";
      }
    }

    /** The part of `render` that adds the children to the text `val0` rendered so far. */
    method RenderChildren(val0: string, depth: nat) returns (val: string)
      ensures val == AfterOpen(Value(), depth, val0)
    {
      val := val0;
      if html.Some? {
        if !skipNewline {
          val := val + "\n";
        }
        assert val == val0 + Trail(skipNewline);
        val := val + RenderFragment(html.value, depth + 1, !skipNewline);
        if !(skipNewline || EndsWith(val, "\n")) {
          val := val + "\n";
        }
        if !skipNewline {
          val := val + Indent(depth);
        }
      }
    }
  }
}
