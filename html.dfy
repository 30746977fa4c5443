/** The `Html` builder of lib/iron/web/html.rb: an ordered list of items and a stack
    of open elements, into whose children new items go.

    Elements live in a value tree (see module `Markup`). Ruby keeps a reference to each
    open element on `@item_stack`; here the stack holds the PATH of each open element:
    the index of an item in the top-level list, then the index among that element's
    children, and so on. Appending to "the innermost open element" is appending at the
    path on top of the stack.

    Ruby blocks are arbitrary code; a block here is a sequence of builder operations
    (`Op`), which is what a block passed to `Html.build` or to a tag does with the
    builder. */
module HtmlBuilder {
  import opened Support
  import opened SafeStrings
  import opened Markup

  type Path = seq<nat>

  /** The children of an element: its `Html`'s items, or none when it has no `Html`. */
  function Children(e: ElementValue): seq<Node> {
    if e.html.Some? then e.html.value.items else []
  }

  /** The element at a (non-empty) path, if there is one. */
  function ElementAt(items: seq<Node>, p: Path): Option<ElementValue>
    decreases |p|
  {
    if p == [] || p[0] >= |items| || !items[p[0]].ElementItem? then None
    else if |p| == 1 then Some(items[p[0]].element)
    else
      var e := items[p[0]].element;
      if e.html.None? then None else ElementAt(e.html.value.items, p[1..])
  }

  /** The list a path designates: the top-level list for the empty path, otherwise the
      children of the element there. */
  function ListAt(items: seq<Node>, p: Path): Option<seq<Node>> {
    if p == [] then Some(items)
    else if ElementAt(items, p).Some? then Some(Children(ElementAt(items, p).value))
    else None
  }

  /** `@items << x` for the empty path, `element.html << x` for the element at `p` (its
      `Html` created on first use); the tree is unchanged when nothing is there. */
  function AppendAt(items: seq<Node>, p: Path, x: Node): seq<Node>
    decreases |p|
  {
    if p == [] then items + [x]
    else if p[0] >= |items| || !items[p[0]].ElementItem? then items
    else
      var e := items[p[0]].element;
      if |p| == 1 then items[p[0] := ElementItem(e.(html := Some(Frag(Children(e) + [x]))))]
      else if e.html.None? then items
      else items[p[0] := ElementItem(e.(html := Some(Frag(AppendAt(e.html.value.items, p[1..], x)))))]
  }

  predicate IsPrefix(q: Path, p: Path) {
    |q| <= |p| && p[..|q|] == q
  }

  /** Two elements that differ at most in their children. */
  predicate SameShell(a: ElementValue, b: ElementValue) {
    a.tag == b.tag && a.attrs == b.attrs && a.forceEnd == b.forceEnd && a.skipNewline == b.skipNewline
  }

  // ---------------------------------------------------------------------------
  // What appending at a path does

  /** The designated list gains `x` at its end. */
  lemma {:induction false} AppendAtList(items: seq<Node>, p: Path, x: Node)
    requires ListAt(items, p).Some?
    ensures ListAt(AppendAt(items, p, x), p) == Some(ListAt(items, p).value + [x])
    decreases |p|
  {
    if p != [] {
      var e := items[p[0]].element;
      var r := AppendAt(items, p, x);
      if |p| > 1 {
        assert ListAt(e.html.value.items, p[1..]) == ListAt(items, p);
        AppendAtList(e.html.value.items, p[1..], x);
        assert ListAt(r, p) == ListAt(AppendAt(e.html.value.items, p[1..], x), p[1..]);
      }
    }
  }

  /** Nothing happens at a path where there is no list. */
  lemma {:induction false} AppendAtNowhere(items: seq<Node>, p: Path, x: Node)
    requires ListAt(items, p).None?
    ensures AppendAt(items, p, x) == items
    decreases |p|
  {
    if |p| > 1 && p[0] < |items| && items[p[0]].ElementItem? {
      var e := items[p[0]].element;
      if e.html.Some? {
        assert ListAt(e.html.value.items, p[1..]) == ListAt(items, p);
        AppendAtNowhere(e.html.value.items, p[1..], x);
        assert items[p[0] := ElementItem(e.(html := Some(Frag(e.html.value.items))))] == items;
      }
    }
  }

  /** Every element stays where it is: an element on the way to the designated list
      changes only in its children, and every other element does not change at all. */
  lemma {:induction false} AppendAtElsewhere(items: seq<Node>, p: Path, x: Node, q: Path)
    requires ElementAt(items, q).Some?
    ensures ElementAt(AppendAt(items, p, x), q).Some?
    ensures SameShell(ElementAt(AppendAt(items, p, x), q).value, ElementAt(items, q).value)
    ensures !IsPrefix(q, p) ==> ElementAt(AppendAt(items, p, x), q) == ElementAt(items, q)
    decreases |p|
  {
    var r := AppendAt(items, p, x);
    if p == [] {
      assert ElementAt(r, q) == ElementAt(items, q) by {
        ElementAtExtend(items, [x], q);
      }
    } else if p[0] < |items| && items[p[0]].ElementItem? {
      var e := items[p[0]].element;
      if q[0] != p[0] {
        assert r[q[0]] == items[q[0]];
        assert ElementAt(r, q) == ElementAt(items, q);
      } else if |p| > 1 && e.html.Some? && |q| > 1 {
        AppendAtElsewhere(e.html.value.items, p[1..], x, q[1..]);
        assert IsPrefix(q, p) <== IsPrefix(q[1..], p[1..]) by {
          if IsPrefix(q[1..], p[1..]) {
            assert p[..|q|] == [p[0]] + p[1..][..|q| - 1];
            assert q == [q[0]] + q[1..];
          }
        }
      } else if |p| == 1 && |q| > 1 {
        assert !IsPrefix(q, p);
        ElementAtExtend(Children(e), [x], q[1..]);
      } else if |q| == 1 {
        assert IsPrefix(q, p) by { assert p[..1] == [p[0]]; }
      }
    }
  }

  /** Lengthening a list does not move anything already in it. */
  lemma ElementAtExtend(items: seq<Node>, more: seq<Node>, q: Path)
    requires ElementAt(items, q).Some?
    ensures ElementAt(items + more, q) == ElementAt(items, q)
  {
    assert (items + more)[q[0]] == items[q[0]];
  }

  /** With an element open, the top-level list keeps its length: `count` and `empty?`
      see only what is appended with no element open. */
  lemma AppendAtKeepsTopLevel(items: seq<Node>, p: Path, x: Node)
    requires p != []
    ensures |AppendAt(items, p, x)| == |items|
  {
  }

  /** An element appended to a list can be found at that list's path followed by its
      index. */
  lemma AppendedElementAt(items: seq<Node>, p: Path, e: ElementValue)
    requires ListAt(items, p).Some?
    ensures ElementAt(AppendAt(items, p, ElementItem(e)), p + [|ListAt(items, p).value|]) == Some(e)
  {
    var n := |ListAt(items, p).value|;
    AppendAtList(items, p, ElementItem(e));
    ListAtElement(AppendAt(items, p, ElementItem(e)), p, n);
  }

  /** The element at index `n` of the list at `p` is the element at `p + [n]`. */
  lemma {:induction false} ListAtElement(items: seq<Node>, p: Path, n: nat)
    requires ListAt(items, p).Some? && n < |ListAt(items, p).value|
    requires ListAt(items, p).value[n].ElementItem?
    ensures ElementAt(items, p + [n]) == Some(ListAt(items, p).value[n].element)
    decreases |p|
  {
    if p != [] {
      var e := items[p[0]].element;
      assert (p + [n])[0] == p[0];
      if |p| == 1 {
        assert (p + [n])[1..] == [n];
      } else {
        assert (p + [n])[1..] == p[1..] + [n];
        assert ListAt(e.html.value.items, p[1..]) == ListAt(items, p);
        ListAtElement(e.html.value.items, p[1..], n);
      }
    }
  }

  /** Appending to an element just appended is the same as appending the element with
      one more child: what a tag's block adds goes into that tag. */
  lemma {:induction false} AppendIntoAppended(items: seq<Node>, p: Path, e: ElementValue, x: Node)
    requires ListAt(items, p).Some?
    ensures AppendAt(AppendAt(items, p, ElementItem(e)), p + [|ListAt(items, p).value|], x) ==
            AppendAt(items, p, ElementItem(e.(html := Some(Frag(Children(e) + [x])))))
    decreases |p|
  {
    var n := |ListAt(items, p).value|;
    var e' := e.(html := Some(Frag(Children(e) + [x])));
    if p == [] {
      assert (items + [ElementItem(e)])[n] == ElementItem(e);
      assert (items + [ElementItem(e)])[n := ElementItem(e')] == items + [ElementItem(e')];
    } else {
      var e0 := items[p[0]].element;
      assert (p + [n])[0] == p[0];
      assert (p + [n])[1..] == p[1..] + [n];
      if |p| == 1 {
        AppendIntoAppended(Children(e0), [], e, x);
      } else {
        assert ListAt(e0.html.value.items, p[1..]) == ListAt(items, p);
        AppendIntoAppended(e0.html.value.items, p[1..], e, x);
      }
    }
  }

  // ---------------------------------------------------------------------------
  // Builder operations

  /** `comment!(str)`: a comment on one line, or on lines of its own when the text has
      a line break. */
  function CommentText(s: string): (r: string)
    ensures |r| == |s| + 10
    ensures r[5..|s| + 5] == s
    ensures r[..4] == "<!--" && r[|s| + 6..] == "-->\n"
    ensures r[4] == r[|s| + 5] == (if '\n' in s then '\n' else ' ')
  {
    if '\n' in s then "<!--\n" + s + "\n-->\n" else "<!-- " + s + " -->\n"
  }

  /** The names `method_missing` turns into tags: `^[a-z]+[0-9]?$`. */
  predicate IsTagName(name: string) {
    |name| >= 1 && IsLower(name[0]) &&
    (forall i :: 1 <= i < |name| - 1 ==> IsLower(name[i])) &&
    (|name| >= 2 ==> IsLower(name[|name| - 1]) || IsDigit(name[|name| - 1]))
  }

  /** Lower-case letters with at most one digit at the end name tags; anything else
      reaches the `NoMethodError` of `super`. */
  lemma TagNameExamples()
    ensures IsTagName("div") && IsTagName("h1") && IsTagName("a")
    ensures !IsTagName("h12") && !IsTagName("foo_bar") && !IsTagName("Div") && !IsTagName("") && !IsTagName("1a")
  {
    assert "h12"[1] == '1';
    assert "foo_bar"[3] == '_';
  }

  /** What a block does with the builder. */
  datatype Op =
    | Text(text: string)                    // `text!(str)`, or `<< str`
    | Push(item: Node)                      // `<< item`
    | Comment(text: string)                 // `comment!(str)`
    | Tag(name: string, content: Content, attrs: Attrs, body: Option<Block>)   // `tag(...)`
    | Dynamic(name: string, content: Content, attrs: Attrs, body: Option<Block>) // `html.name(...)`

  datatype Block = Block(ops: seq<Op>)

  /** `@items` and `@item_stack`. */
  datatype BuildState = BuildState(items: seq<Node>, stack: seq<Path>)

  /** The state after some operations, and the exception that stopped them, if any. */
  datatype Outcome = Outcome(state: BuildState, error: Option<RubyError>)

  const Empty: BuildState := BuildState([], [])

  /** `element.html << x`. */
  function AddChild(e: ElementValue, x: Node): ElementValue {
    e.(html := Some(Frag(Children(e) + [x])))
  }

  /** The path `<<` appends at: the innermost open element, or the top level. */
  function Top(stack: seq<Path>): Path {
    if stack == [] then [] else stack[|stack| - 1]
  }

  /** `Array#pop`, which leaves an empty array as it is. */
  function Pop(stack: seq<Path>): seq<Path> {
    if stack == [] then [] else stack[..|stack| - 1]
  }

  /** `<<`: the stack is not touched. */
  function AppendItem(st: BuildState, x: Node): (r: BuildState)
    ensures r.stack == st.stack
  {
    st.(items := AppendAt(st.items, Top(st.stack), x))
  }

  /** The length of the list `<<` appends to. */
  function OpenLength(st: BuildState): nat {
    var l := ListAt(st.items, Top(st.stack));
    if l.Some? then |l.value| else 0
  }

  /** One operation. `tag` appends the element, and with a block pushes it, runs the
      block and pops it; an exception raised in the block leaves it pushed. */
  function ExecOp(st: BuildState, op: Op): Outcome
    decreases op
  {
    match op
    case Text(s) => Outcome(AppendItem(st, TextItem(s)), None)
    case Push(x) => Outcome(AppendItem(st, x), None)
    case Comment(s) => Outcome(AppendItem(st, TextItem(CommentText(s))), None)
    case Tag(name, content, attrs, body) => ExecTag(st, name, content, attrs, body)
    case Dynamic(name, content, attrs, body) =>
      if IsTagName(name) then ExecTag(st, name, content, attrs, body)
      else Outcome(st, Some(NoMethodError(name)))
  }

  function ExecTag(st: BuildState, name: string, content: Content, attrs: Attrs, body: Option<Block>): Outcome
    decreases body, 1
  {
    var path := Top(st.stack) + [OpenLength(st)];
    var st1 := AppendItem(st, ElementItem(NewElement(name, content, attrs)));
    match body
    case None => Outcome(st1, None)
    case Some(b) =>
      var o := ExecBlock(st1.(stack := st1.stack + [path]), b, 0);
      if o.error.Some? then o else Outcome(o.state.(stack := Pop(o.state.stack)), None)
  }

  /** The operations of a block from the `i`-th on, stopping at the first exception. */
  function ExecBlock(st: BuildState, b: Block, i: nat): Outcome
    requires i <= |b.ops|
    decreases b, |b.ops| - i
  {
    if i == |b.ops| then Outcome(st, None)
    else
      var o := ExecOp(st, b.ops[i]);
      if o.error.Some? then o else ExecBlock(o.state, b, i + 1)
  }

  /** `Html.build`: run the block on a fresh builder and render it, marked safe. */
  function Built(b: Block): (r: Result<SafeString, RubyError>)
    ensures r.Ok? ==> IsHtmlSafe(r.value)
    ensures r.Err? <==> ExecBlock(Empty, b, 0).error.Some?
  {
    var o := ExecBlock(Empty, b, 0);
    if o.error.Some? then Err(o.error.value)
    else Ok(HtmlSafe(Plain(RenderFragment(Frag(o.state.items), 0, true))))
  }

  // ---------------------------------------------------------------------------
  // Properties of the builder

  /** `tag` and blocks leave the stack as they found it, as long as nothing raises. */
  lemma {:induction false} OpKeepsStack(st: BuildState, op: Op)
    ensures ExecOp(st, op).error.None? ==> ExecOp(st, op).state.stack == st.stack
    decreases op, 2
  {
    match op
    case Tag(name, content, attrs, body) => TagKeepsStack(st, name, content, attrs, body);
    case Dynamic(name, content, attrs, body) =>
      if IsTagName(name) {
        TagKeepsStack(st, name, content, attrs, body);
      }
    case _ =>
  }

  lemma {:induction false} TagKeepsStack(st: BuildState, name: string, content: Content, attrs: Attrs, body: Option<Block>)
    ensures ExecTag(st, name, content, attrs, body).error.None? ==>
              ExecTag(st, name, content, attrs, body).state.stack == st.stack
    decreases body, 1
  {
    if body.Some? {
      var path := Top(st.stack) + [OpenLength(st)];
      var st1 := AppendItem(st, ElementItem(NewElement(name, content, attrs)));
      var st2 := st1.(stack := st1.stack + [path]);
      BlockKeepsStack(st2, body.value, 0);
      assert Pop(st2.stack) == st.stack;
    }
  }

  lemma {:induction false} BlockKeepsStack(st: BuildState, b: Block, i: nat)
    requires i <= |b.ops|
    ensures ExecBlock(st, b, i).error.None? ==> ExecBlock(st, b, i).state.stack == st.stack
    decreases b, |b.ops| - i
  {
    if i < |b.ops| {
      OpKeepsStack(st, b.ops[i]);
      var o := ExecOp(st, b.ops[i]);
      if o.error.None? {
        BlockKeepsStack(o.state, b, i + 1);
      }
    }
  }

  /** An exception inside a tag's block leaves the tag on the stack, one level deeper
      than before: the pop has no `ensure`. Here the exception is the `NoMethodError` of
      a name that is not a tag name. */
  lemma RaiseLeavesTagOpen(st: BuildState, name: string, content: Content, attrs: Attrs, bad: string)
    requires !IsTagName(bad)
    ensures ExecTag(st, name, content, attrs, Some(Block([Dynamic(bad, NoText, [], None)]))) ==
            Outcome(BuildState(AppendAt(st.items, Top(st.stack), ElementItem(NewElement(name, content, attrs))),
                               st.stack + [Top(st.stack) + [OpenLength(st)]]),
                    Some(NoMethodError(bad)))
  {
    var b := Block([Dynamic(bad, NoText, [], None)]);
    var st2 := BuildState(AppendAt(st.items, Top(st.stack), ElementItem(NewElement(name, content, attrs))),
                          st.stack + [Top(st.stack) + [OpenLength(st)]]);
    assert ExecOp(st2, b.ops[0]) == Outcome(st2, Some(NoMethodError(bad)));
  }

  /** Every open element is an element of the tree. */
  predicate WellFormed(st: BuildState) {
    forall k :: 0 <= k < |st.stack| ==> ElementAt(st.items, st.stack[k]).Some?
  }

  lemma AppendKeepsWellFormed(st: BuildState, x: Node)
    requires WellFormed(st)
    ensures WellFormed(AppendItem(st, x))
  {
    forall k | 0 <= k < |st.stack|
      ensures ElementAt(AppendItem(st, x).items, st.stack[k]).Some?
    {
      AppendAtElsewhere(st.items, Top(st.stack), x, st.stack[k]);
    }
  }

  /** The list `<<` appends to exists in a well-formed state. */
  lemma TopIsList(st: BuildState)
    requires WellFormed(st)
    ensures ListAt(st.items, Top(st.stack)).Some?
  {
    if st.stack != [] {
      assert ElementAt(st.items, st.stack[|st.stack| - 1]).Some?;
    }
  }

  /** Every operation keeps the stack pointing at elements, even when it raises. */
  lemma {:induction false} OpKeepsWellFormed(st: BuildState, op: Op)
    requires WellFormed(st)
    ensures WellFormed(ExecOp(st, op).state)
    decreases op, 2
  {
    match op
    case Tag(name, content, attrs, body) => TagKeepsWellFormed(st, name, content, attrs, body);
    case Dynamic(name, content, attrs, body) =>
      if IsTagName(name) {
        TagKeepsWellFormed(st, name, content, attrs, body);
      }
    case Text(s) => AppendKeepsWellFormed(st, TextItem(s));
    case Push(x) => AppendKeepsWellFormed(st, x);
    case Comment(s) => AppendKeepsWellFormed(st, TextItem(CommentText(s)));
  }

  lemma {:induction false} TagKeepsWellFormed(st: BuildState, name: string, content: Content, attrs: Attrs, body: Option<Block>)
    requires WellFormed(st)
    ensures WellFormed(ExecTag(st, name, content, attrs, body).state)
    decreases body, 1
  {
    var e := NewElement(name, content, attrs);
    var path := Top(st.stack) + [OpenLength(st)];
    var st1 := AppendItem(st, ElementItem(e));
    AppendKeepsWellFormed(st, ElementItem(e));
    if body.Some? {
      TopIsList(st);
      AppendedElementAt(st.items, Top(st.stack), e);
      var st2 := st1.(stack := st1.stack + [path]);
      assert WellFormed(st2) by {
        forall k | 0 <= k < |st2.stack|
          ensures ElementAt(st2.items, st2.stack[k]).Some?
        {
          if k < |st1.stack| {
            assert st2.stack[k] == st1.stack[k];
          }
        }
      }
      BlockKeepsWellFormed(st2, body.value, 0);
      var o := ExecBlock(st2, body.value, 0);
      if o.error.None? {
        assert WellFormed(o.state.(stack := Pop(o.state.stack))) by {
          forall k | 0 <= k < |Pop(o.state.stack)|
            ensures ElementAt(o.state.items, Pop(o.state.stack)[k]).Some?
          {
            assert Pop(o.state.stack)[k] == o.state.stack[k];
          }
        }
      }
    }
  }

  lemma {:induction false} BlockKeepsWellFormed(st: BuildState, b: Block, i: nat)
    requires i <= |b.ops| && WellFormed(st)
    ensures WellFormed(ExecBlock(st, b, i).state)
    decreases b, |b.ops| - i
  {
    if i < |b.ops| {
      OpKeepsWellFormed(st, b.ops[i]);
      var o := ExecOp(st, b.ops[i]);
      if o.error.None? {
        BlockKeepsWellFormed(o.state, b, i + 1);
      }
    }
  }

  /** A tag whose block writes one text puts that text inside the new element, and
      appends nothing else. */
  lemma TagWithText(st: BuildState, name: string, content: Content, attrs: Attrs, t: string)
    requires WellFormed(st)
    ensures ExecTag(st, name, content, attrs, Some(Block([Text(t)]))) ==
            Outcome(AppendItem(st, ElementItem(AddChild(NewElement(name, content, attrs), TextItem(t)))), None)
  {
    var e := NewElement(name, content, attrs);
    var path := Top(st.stack) + [OpenLength(st)];
    var st1 := AppendItem(st, ElementItem(e));
    var st2 := st1.(stack := st1.stack + [path]);
    assert Top(st2.stack) == path;
    TopIsList(st);
    AppendIntoAppended(st.items, Top(st.stack), e, TextItem(t));
    var b := Block([Text(t)]);
    var st3 := AppendItem(st2, TextItem(t));
    assert ExecOp(st2, b.ops[0]) == Outcome(st3, None);
    assert ExecBlock(st3, b, 1) == Outcome(st3, None);
    assert ExecBlock(st2, b, 0) == Outcome(st3, None);
    assert OpenLength(st) == |ListAt(st.items, Top(st.stack)).value|;
    assert Pop(st2.stack) == st.stack;
  }

  /** `<<` with no element open appends to the top-level list; with one open, to that
      element's children, leaving the top-level list's length alone. */
  lemma AppendGoesToOpenElement(st: BuildState, x: Node)
    requires WellFormed(st)
    ensures st.stack == [] ==> AppendItem(st, x).items == st.items + [x]
    ensures st.stack != [] ==>
              |AppendItem(st, x).items| == |st.items| &&
              ListAt(AppendItem(st, x).items, Top(st.stack)) ==
              Some(Children(ElementAt(st.items, Top(st.stack)).value) + [x])
  {
    TopIsList(st);
    AppendAtList(st.items, Top(st.stack), x);
  }

  // ---------------------------------------------------------------------------
  // Rendering a list

  predicate HasText(items: seq<Node>) {
    exists k :: 0 <= k < |items| && items[k].TextItem?
  }

  /** One item as `render` turns it into text with the given `inblock`. */
  function RenderNode(x: Node, depth: nat, inblock: bool): string {
    match x
    case TextItem(t) => if inblock then Indent(depth) + t else t
    case NilItem => ""
    case ElementItem(e) => RenderElement(e, depth, inblock)
  }

  /** One step of `render`: item `i`, then the rest with the flag it leaves. */
  lemma RenderItemsStep(h: Frag, i: nat, depth: nat, inblock: bool)
    requires i < |h.items|
    ensures RenderItems(h, i, depth, inblock) ==
            RenderNode(h.items[i], depth, inblock) +
            RenderItems(h, i + 1, depth, if h.items[i].TextItem? then false else inblock)
  {
  }

  /** Appending an item appends its rendering: it is indented as a block's first text
      only if `inblock` holds and no text came before it. */
  lemma {:induction false} RenderAppend(items: seq<Node>, x: Node, depth: nat, inblock: bool)
    ensures RenderFragment(Frag(items + [x]), depth, inblock) ==
            RenderFragment(Frag(items), depth, inblock) + RenderNode(x, depth, inblock && !HasText(items))
  {
    RenderAppendFrom(items, x, 0, depth, inblock);
  }

  lemma {:induction false} RenderAppendFrom(items: seq<Node>, x: Node, i: nat, depth: nat, inblock: bool)
    requires i <= |items|
    ensures RenderItems(Frag(items + [x]), i, depth, inblock) ==
            RenderItems(Frag(items), i, depth, inblock) + RenderNode(x, depth, inblock && !HasText(items[i..]))
    decreases |items| - i
  {
    var all := items + [x];
    if i == |items| {
      assert all[i] == x;
      assert RenderItems(Frag(all), i + 1, depth, false) == "";
      assert RenderItems(Frag(all), i + 1, depth, inblock) == "";
      assert !HasText(items[i..]) by { assert items[i..] == []; }
    } else {
      assert all[i] == items[i];
      var flag := if items[i].TextItem? then false else inblock;
      RenderAppendFrom(items, x, i + 1, depth, flag);
      HasTextFrom(items, i);
    }
  }

  lemma HasTextFrom(items: seq<Node>, i: nat)
    requires i < |items|
    ensures HasText(items[i..]) <==> items[i].TextItem? || HasText(items[i + 1..])
  {
    assert items[i..][0] == items[i];
    assert forall k :: 1 <= k < |items[i..]| ==> items[i..][k] == items[i + 1..][k - 1];
    if HasText(items[i + 1..]) {
      var k :| 0 <= k < |items[i + 1..]| && items[i + 1..][k].TextItem?;
      assert items[i..][k + 1].TextItem?;
    }
  }

  // ---------------------------------------------------------------------------

  /** A builder, updated in place. */
  class Html {
    var items: seq<Node>
    var itemStack: seq<Path>

    function State(): BuildState
      reads this
    {
      BuildState(items, itemStack)
    }

    /** `Html.build`: a fresh builder, the block run on it, the result rendered. */
    static method Build(b: Block) returns (r: Result<SafeString, RubyError>)
      ensures r == Built(b)
    {
      var h := new Html();
      var error := h.Run(b);
      if error.Some? {
        r := Err(error.value);
      } else {
        var s := h.Render(0, true);
        r := Ok(HtmlSafe(Plain(s)));
      }
    }

    /** `Html.new`. */
    constructor()
      ensures State() == Empty
    {
      items := [];
      itemStack := [];
    }

    /** `<<`: appends to the innermost open element's children, or to the top level. */
    method Push(x: Node)
      modifies this
      ensures State() == AppendItem(old(State()), x)
    {
      if itemStack == [] {
        items := items + [x];
      } else {
        items := AppendAt(items, itemStack[|itemStack| - 1], x);
      }
    }

    /** `text!`. */
    method Text(s: string)
      modifies this
      ensures State() == AppendItem(old(State()), TextItem(s))
    {
      Push(TextItem(s));
    }

    /** `comment!`. */
    method Comment(s: string)
      modifies this
      ensures State() == AppendItem(old(State()), TextItem(CommentText(s)))
    {
      if '\n' in s {
        Text("<!--\n" + s + "\n-->\n");
      } else {
        Text("<!-- " + s + " -->\n");
      }
    }

    /** `tag(name, content, attrs) { ... }`. */
    method Tag(name: string, content: Content, attrs: Attrs, body: Option<Block>) returns (error: Option<RubyError>)
      modifies this
      ensures Outcome(State(), error) == ExecTag(old(State()), name, content, attrs, body)
      decreases body, 1
    {
      ghost var st := State();
      var path := if itemStack == [] then [] else itemStack[|itemStack| - 1];
      var open := ListAt(items, path);
      path := path + [if open.Some? then |open.value| else 0];
      Push(ElementItem(NewElement(name, content, attrs)));
      error := None;
      if body.Some? {
        itemStack := itemStack + [path];
        error := Run(body.value);
        if error.None? {
          itemStack := if itemStack == [] then [] else itemStack[..|itemStack| - 1];
        }
      }
    }

    /** `method_missing`: names of tags become tags; any other name raises. */
    method MethodMissing(name: string, content: Content, attrs: Attrs, body: Option<Block>)
      returns (error: Option<RubyError>)
      modifies this
      ensures Outcome(State(), error) == ExecOp(old(State()), Dynamic(name, content, attrs, body))
    {
      if IsTagName(name) {
        error := Tag(name, content, attrs, body);
      } else {
        error := Some(NoMethodError(name));
      }
    }

    /** One operation of a block. */
    method Exec(op: Op) returns (error: Option<RubyError>)
      modifies this
      ensures Outcome(State(), error) == ExecOp(old(State()), op)
      decreases op, 2
    {
      match op {
        case Text(s) => Text(s); error := None;
        case Push(x) => Push(x); error := None;
        case Comment(s) => Comment(s); error := None;
        case Tag(name, content, attrs, body) => error := Tag(name, content, attrs, body);
        case Dynamic(name, content, attrs, body) =>
          if IsTagName(name) {
            error := Tag(name, content, attrs, body);
          } else {
            error := Some(NoMethodError(name));
          }
      }
    }

    /** A block: its operations in order, up to the first exception. */
    method Run(b: Block) returns (error: Option<RubyError>)
      modifies this
      ensures Outcome(State(), error) == ExecBlock(old(State()), b, 0)
      decreases b, 0
    {
      var i := 0;
      error := None;
      while i < |b.ops|
        invariant 0 <= i <= |b.ops|
        invariant ExecBlock(old(State()), b, 0) == ExecBlock(State(), b, i)
        invariant error.None?
        decreases |b.ops| - i
      {
        ghost var before := State();
        error := Exec(b.ops[i]);
        assert ExecBlock(before, b, i) == (if error.Some? then Outcome(State(), error) else ExecBlock(State(), b, i + 1));
        if error.Some? {
          return;
        }
        i := i + 1;
      }
    }

    /** `count`: the number of top-level items. */
    method Count() returns (n: nat)
      ensures n == |items|
    {
      n := |items|;
    }

    /** `empty?` (and `blank?`). */
    method IsEmpty() returns (b: bool)
      ensures b <==> |items| == 0
    {
      b := |items| == 0;
    }

    /** `render(depth, inblock)`: the items in order, with the one-shot indentation flag. */
    method Render(depth: nat, inblock: bool) returns (s: string)
      ensures s == RenderFragment(Frag(items), depth, inblock)
    {
      s := "";
      var list := items;
      var flag := inblock;
      var i := 0;
      while i < |list|
        invariant 0 <= i <= |list|
        invariant s + RenderItems(Frag(list), i, depth, flag) == RenderItems(Frag(list), 0, depth, inblock)
        decreases |list| - i
      {
        RenderItemsStep(Frag(list), i, depth, flag);
        match list[i] {
          case TextItem(t) =>
            if flag {
              flag := false;
              s := s + (Indent(depth) + t);
            } else {
              s := s + t;
            }
          case NilItem =>
          case ElementItem(e) =>
            s := s + RenderElement(e, depth, flag);
        }
        i := i + 1;
      }
    }
  }
}
