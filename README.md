# iron-web core, modelled in Dafny

This project models the core of the Ruby gem iron-web, five small libraries of string and
data-structure logic, and proves properties of the model:

- **Html builder** (`html.dfy`, module `HtmlBuilder`). It covers `lib/iron/web/html.rb`:
  - an `Html` is a class with the top-level item list and a stack of open elements;
  - `<<`, `text!`, `comment!`, `tag` and the tag names `method_missing` accepts;
  - `count`, `empty?` and `render`.
- **Escapers** (`escape.dfy`, module `HtmlEscape`). These are `escape_once` and
  `escape_javascript` of the same file, table-driven rewrites of a string.
- **Element** (`element.dfy`, module `Markup`). It covers `lib/iron/web/html/element.rb`:
  - a class with tag, ordered attributes, optional children and the two layout flags;
  - the recursive `render`, shared with `Html#render` because each calls the other.
- **HtmlSafeString** (`safe_string.dfy`, `html_safe_string.dfy`). It covers
  `lib/iron/web/string.rb`: a text with a "safe" flag; concatenating onto a safe string
  escapes unsafe text exactly once.
- **Url** (`url_query.dfy`, `url.dfy`). It covers `lib/iron/web/url.rb`:
  - splitting a string into scheme, server, port, path, query and fragment;
  - writing them back, with the query's multi-valued parameter map;
  - switching between absolute and relative form.
- **Color** (`color.dfy`). The integer part of `lib/iron/web/color.rb`: channel clamping,
  the hex codec, `parse` and `to_s`.

`support.dfy` holds Ruby helpers that the code relies on:
- `blank?`, `strip`, `starts_with?`, `ends_with?`;
- `Integer#to_s` and `String#to_i` for ports;
- a run-length scan used to read regular expressions.

`ordered_map.dfy` models Ruby's insertion-ordered `Hash`.

The Ruby classes whose fields the code updates in place are Dafny classes (`Html`,
`Element`, `HtmlSafeString`, `Url`, `Color`). Each method is specified against a function
of the old state. The properties are proved about those functions, including:
- `escape_once` is idempotent and its output is well escaped;
- a safe string stays well escaped under concatenation;
- the builder's open-element stack is balanced and always names open elements;
- rendering has exact whitespace, and inline subtrees stay on one line;
- parameters round-trip through `to_param_string` and the query parser;
- a URL round-trips through `to_s` and `Url.new`;
- a colour round-trips through `to_s` and `parse`.

Two places where the code and its description differ follow the code:
- `Html#render` clears its `inblock` flag only after a String item, not after an element.
- `Html#tag` pops the open-element stack only when the block returns normally; there is no
  `ensure`. After an exception the element stays open (`RaiseLeavesTagOpen`).

Outside inputs are parameters:
- `CGI.escape` and `CGI.unescape` are a `Codec`, a pair of functions. The round-trip
  lemmas assume only that the codec outputs safe characters, is empty only on empty input,
  and is undone by `unescape` (`GoodCodec`).
- The class-level settings `Url.default_server` and `Url.default_scheme` are a `Defaults`
  value.
- A Ruby block given to `Html.build` or `tag` is a sequence of builder operations (`Op`).

## Model

| member | source | states |
|---|---|---|
| Support.StripTrims | lib/iron/web/url.rb:90 | what `strip` returns is a slice of the input with only white space before and after it, and it is empty exactly when the input is blank |
| Support.DecimalRoundTrip | lib/iron/web/url.rb:98 | reading back the decimal digits written for a port gives the port |
| SafeStrings.Plain | lib/iron/web/string.rb:7-9 | a string from outside keeps its text and is not html-safe |
| SafeStrings.HtmlSafe | lib/iron/web/string.rb:17-19 | `html_safe` keeps the text and marks it safe; on a value already safe it is the identity |
| HtmlEscape.EscapeOnce | lib/iron/web/html.rb:60-63 | a safe value comes back unchanged; any other value comes back marked safe with its text rewritten by the `escape_once` pattern |
| HtmlEscape.EscapedIsWellEscaped | lib/iron/web/html.rb:62 | the rewritten text never holds a raw `<`, `>` or `"`, and every `&` in it starts `&letters;` or `&#digits;` |
| HtmlEscape.WellEscapedFixed | lib/iron/web/html.rb:62 | well-escaped text is left unchanged |
| HtmlEscape.FixedIffWellEscaped | lib/iron/web/html.rb:62 | the rewrite leaves a text unchanged exactly when the text is well escaped (both directions) |
| HtmlEscape.EscapeOnceIdempotent | lib/iron/web/html.rb:60-63 | escaping twice is escaping once, also when the escaped text has lost its safe mark |
| HtmlEscape.EntityKept | lib/iron/web/html.rb:62 | an entity at the head of the text is still an entity after the rewrite |
| HtmlEscape.EntityPrefix | lib/iron/web/html.rb:20 | each `HTML_ESCAPE` replacement in front of well-escaped text keeps it well escaped |
| HtmlEscape.WellEscapedConcat | lib/iron/web/html.rb:62 | two well-escaped texts joined are well escaped |
| HtmlEscape.EscapeKeepsOtherChars | lib/iron/web/html.rb:62 | a character other than `&<>";` and the letters of the entity names occurs in the output exactly when it occurs in the input |
| HtmlEscape.InertText | lib/iron/web/html.rb:62 | text without `&`, `<`, `>` and `"` is unchanged |
| HtmlEscape.EscapeJavascript | lib/iron/web/html.rb:66-73 | nil gives `''`; otherwise the text is the as-written `gsub` and the result is safe exactly when the input was |
| HtmlEscape.JsNoRawBreaks | lib/iron/web/html.rb:68 | no raw line feed or carriage return survives, and every quote in the output follows a backslash |
| HtmlEscape.ReplacementReadsBack | lib/iron/web/html.rb:21 | every `JS_ESCAPE` replacement, read as part of a JavaScript string literal, gives what its match meant |
| HtmlEscape.AsWrittenAgrees | lib/iron/web/html.rb:68 | on text with no backslash and no `<`, the pattern as written and the corrected one produce the same output |
| HtmlEscape.AsWrittenRoundTrip | lib/iron/web/html.rb:66-73 | on such text the literal built by the code reads back as the input with `\r\n`, `\r` and `\n` all turned into one line feed |
| HtmlEscape.AsWrittenCorruptsBackslash | lib/iron/web/html.rb:68 | the text backslash-`n` passes unescaped and reads back as a line feed |
| HtmlEscape.AsWrittenPassesScriptEnd | lib/iron/web/html.rb:68 | `</` passes unescaped, and a vertical bar followed by `</` is deleted |
| HtmlEscape.IntendedRoundTrip | lib/iron/web/html.rb:66-73 | with the pattern corrected, every literal reads back as its input with line breaks normalised |
| HtmlEscape.IntendedHidesScriptEnd | lib/iron/web/html.rb:68 | with the pattern corrected, the output holds no `</` |
| HtmlSafeStrings.ConcatValue | lib/iron/web/string.rb:42-48 | the receiver's flag and text are kept as a prefix; a plain receiver or a safe argument appends the argument verbatim; a safe receiver appends an unsafe argument well escaped |
| HtmlSafeStrings.ConcatPlain | lib/iron/web/string.rb:46 | a safe receiver appends `escape_once` of plain text |
| HtmlSafeStrings.ConcatEscapedValue | lib/iron/web/string.rb:42-48 | appending `escape_once(v)` to a safe string is the same as appending `v` |
| HtmlSafeStrings.ConcatReescapedValue | lib/iron/web/string.rb:42-48 | escaped text that lost its safe mark is not escaped a second time |
| HtmlSafeStrings.ConcatKeepsWellEscaped | lib/iron/web/string.rb:42-48 | a well-escaped safe string stays well escaped under every concatenation of unsafe or well-escaped values |
| HtmlSafeStrings.ConcatSeparately | lib/iron/web/string.rb:42-48 | `&` then `amp;` appended one at a time give `&amp;amp;` |
| HtmlSafeStrings.ConcatJoined | lib/iron/web/string.rb:42-48 | `&amp;` appended whole is kept |
| HtmlSafeStrings.HtmlSafeString.constructor | lib/iron/web/string.rb:27-30 | the new string has the given text |
| HtmlSafeStrings.HtmlSafeString.Value | lib/iron/web/string.rb:32-34 | an `HtmlSafeString` is always html-safe |
| HtmlSafeStrings.HtmlSafeString.Concat | lib/iron/web/string.rb:42-48 | the new value is `ConcatValue` of the old one, and the text grows by `escape_once` of the argument |
| HtmlSafeStrings.HtmlSafeString.Append | lib/iron/web/string.rb:54-56 | `<<` is `concat` |
| HtmlSafeStrings.HtmlSafeString.Plus | lib/iron/web/string.rb:50-52 | `+` returns a fresh string holding the concatenation and leaves the receiver alone |
| OrderedMaps.Get | lib/iron/web/url.rb:175 | `hash[k]` is nil exactly when `k` is not a key, and otherwise a stored value of `k` |
| OrderedMaps.Put | lib/iron/web/url.rb:163 | storing under an existing key keeps the keys in order; storing under a new key appends the entry |
| OrderedMaps.PutGet | lib/iron/web/url.rb:163 | after `hash[k] = v`, `k` reads `v` and every other key reads as before |
| OrderedMaps.PutPosition | lib/iron/web/url.rb:163 | storing under an existing key replaces exactly that entry where it stands |
| OrderedMaps.PutDistinct | lib/iron/web/url.rb:163 | storing never repeats a key |
| OrderedMaps.JoinAfterPut | lib/iron/web/html/element.rb:129-138 | after a store, the joined rendering of the entries gains the new piece at the end, or in place of the old one |
| OrderedMaps.Filter | lib/iron/web/url.rb:186-192 | `delete_if` keeps exactly the entries the test spares, never more entries than before, and keeps keys distinct |
| OrderedMaps.FilterOne | lib/iron/web/url.rb:186-192 | a single entry survives `delete_if` exactly when the test spares it |
| OrderedMaps.FilterConcat | lib/iron/web/url.rb:186-192 | `delete_if` works entry by entry: filtering a concatenation is filtering each part, so the survivors keep their order |
| OrderedMaps.FilterKeepsAll | lib/iron/web/url.rb:60 | a `delete_if` that matches nothing leaves the hash as it was |
| Markup.NewElement | lib/iron/web/html/element.rb:42-65 | tag kept as given; closing tag forced unless the tag is in `SINGLETON_SET`; inline exactly for `INLINE_SET`; a Hash becomes the attributes, otherwise the third argument does; String text becomes one escaped child, an element the only child, an `Html` the child list itself; nil, a Hash or anything else give no children |
| Markup.SetHtmlValue | lib/iron/web/html/element.rb:80-94 | a String gives one raw text child, an `Html` becomes the child list itself, an Array's items become the children in order, anything else raises; nothing but the children changes |
| Markup.AttrKey | lib/iron/web/html/element.rb:98 | a name is accepted exactly when it is a run of letters, digits and `_`, with or without a trailing `=` |
| Markup.AttrCall | lib/iron/web/html/element.rb:97-113 | an unknown name raises `NoMethodError`; one argument is stored with `attrs[key] = v`, so every other key reads as before, and is returned; otherwise a block raises and no block reads the attribute; only attributes change |
| Markup.RenderShape | lib/iron/web/html/element.rb:141-153 | only the lead depends on `inblock`; everything from the start tag on does not |
| Markup.BlockLeadingNewline | lib/iron/web/html/element.rb:142-143 | a block element outside a block starts with a line break before its indentation; inside a block it starts with its indentation |
| Markup.InlineLead | lib/iron/web/html/element.rb:142-144 | an inline element is only indented inside a block, and starts with its start tag outside one |
| Markup.ClosingTag | lib/iron/web/html/element.rb:151-152 | a forced end or non-blank children end the output with `</tag>`; with neither (nil or an empty child list) nothing but the line break follows what comes up to the children: no children give lead, start tag and line break, and an empty list adds only the closing indentation |
| Markup.EmptyChildren | lib/iron/web/html/element.rb:145-150 | an empty child list adds only the line break after the start tag and the closing indentation for a block element, and nothing for an inline one |
| Markup.NewElementClosingTag | lib/iron/web/html/element.rb:151 | a new singleton tag without text renders no closing tag; every other tag ends with `</tag>` |
| Markup.AttrSetRendering | lib/iron/web/html/element.rb:129-138 | attributes render in insertion order: setting a new key adds its piece at the end, and resetting a key renders it in its old place |
| Markup.AttrStringOnOneLine | lib/iron/web/html/element.rb:129-138 | attributes whose keys and values hold no line break render on one line |
| Markup.InlineTreeOnOneLine | lib/iron/web/html/element.rb:142-152 | an inline element whose whole subtree is inline renders with no line break, indented only inside a block |
| Markup.InlineItemsOnOneLine | lib/iron/web/html.rb:159-175 | a list of inline items renders outside a block with no line break |
| Markup.BlockWithText | lib/iron/web/html/element.rb:141-153 | a block element with one text child renders as start tag, indented text and closing tag on lines of their own |
| Markup.InlineWithText | lib/iron/web/html/element.rb:141-153 | an inline element with one text child renders as start tag, text and end tag |
| Markup.BlockTextElement | lib/iron/web/html/element.rb:55 | `Element.new(tag, text)` for a block tag renders its escaped text on an indented line of its own |
| Markup.InlineTextElement | lib/iron/web/html/element.rb:55 | `Element.new(tag, text)` for an inline tag renders as `<tag>`, escaped text and `</tag>` |
| Markup.TagExamples | spec/web/element_spec.rb:9-14 | `b` renders `<b></b>` and `img` renders `<img>` |
| Markup.QuotedText | spec/web/element_spec.rb:28 | quotes around inert text become `&quot;` |
| Markup.Element.constructor | lib/iron/web/html/element.rb:42-65 | the new element is `NewElement` of the arguments |
| Markup.Element.ForceEnd | lib/iron/web/html/element.rb:67-69 | only the forced-end flag changes, to true |
| Markup.Element.SkipNewline | lib/iron/web/html/element.rb:71-73 | only the inline flag changes, to true |
| Markup.Element.Html | lib/iron/web/html/element.rb:75-78 | returns the existing children, or creates an empty list once |
| Markup.Element.SetHtml | lib/iron/web/html/element.rb:80-94 | the element becomes `SetHtmlValue`, or stays as it was and reports `Invalid input` |
| Markup.Element.Attr | lib/iron/web/html/element.rb:97-113 | result and new state are those of `AttrCall`, a setter storing its value under the key; on an error nothing changes |
| Markup.Element.Render | lib/iron/web/html/element.rb:127-154 | the step-by-step `val +=` build equals `RenderElement` |
| Markup.Element.RenderChildren | lib/iron/web/html/element.rb:145-150 | the children part of the build equals `AfterOpen` |
| HtmlBuilder.AppendAtList | lib/iron/web/html.rb:97-104 | appending at an open list grows exactly that list by the item |
| HtmlBuilder.AppendAtElsewhere | lib/iron/web/html.rb:101 | appending inside one element leaves every element outside its path unchanged |
| HtmlBuilder.AppendIntoAppended | lib/iron/web/html.rb:125-129 | appending into the element just appended is the same as appending it with that child |
| HtmlBuilder.CommentText | lib/iron/web/html.rb:83-89 | the comment is exactly `<!-- s -->` and a line break, or `<!--`, line break, `s`, line break, `-->`, line break when `s` holds a line break |
| HtmlBuilder.AppendItem | lib/iron/web/html.rb:97-104 | `<<` never changes the open-element stack |
| HtmlBuilder.AppendGoesToOpenElement | lib/iron/web/html.rb:97-104 | with no element open an item goes to the end of the top-level list; otherwise to the end of the innermost open element's children, leaving the top-level length alone |
| HtmlBuilder.Built | lib/iron/web/html.rb:34-38 | `Html.build` returns safe text, or the exception the block raised |
| HtmlBuilder.OpKeepsStack | lib/iron/web/html.rb:124-133 | every operation that returns normally leaves the stack as it found it |
| HtmlBuilder.TagKeepsStack | lib/iron/web/html.rb:128-130 | `tag` pops what it pushed when its block returns normally |
| HtmlBuilder.BlockKeepsStack | lib/iron/web/html.rb:129 | a block that returns normally leaves the stack as it found it |
| HtmlBuilder.RaiseLeavesTagOpen | lib/iron/web/html.rb:128-130 | when the block raises, the element is added and stays on the stack |
| HtmlBuilder.AppendKeepsWellFormed | lib/iron/web/html.rb:97-104 | `<<` keeps every path on the stack pointing at an open element |
| HtmlBuilder.OpKeepsWellFormed | lib/iron/web/html.rb:124-146 | every operation keeps the stack well formed, even when it raises |
| HtmlBuilder.TagKeepsWellFormed | lib/iron/web/html.rb:124-133 | `tag` keeps the stack well formed |
| HtmlBuilder.BlockKeepsWellFormed | lib/iron/web/html.rb:129 | a block keeps the stack well formed |
| HtmlBuilder.TagWithText | lib/iron/web/html.rb:124-133 | a tag whose block adds text appends the element with that text as its child and leaves the stack unchanged |
| HtmlBuilder.RenderAppend | lib/iron/web/html.rb:159-175 | appending an item appends its rendering, indented only if `inblock` holds and no String came before |
| HtmlBuilder.RenderItemsStep | lib/iron/web/html.rb:161-173 | each item renders with the current flag; a String item clears it, nil and elements leave it |
| HtmlBuilder.Html.Build | lib/iron/web/html.rb:34-38 | runs the block on a new builder and returns `Built` |
| HtmlBuilder.Html.constructor | lib/iron/web/html.rb:76-80 | no items and no open elements |
| HtmlBuilder.Html.Push | lib/iron/web/html.rb:97-104 | the new state is `AppendItem` of the item |
| HtmlBuilder.Html.Text | lib/iron/web/html.rb:92-94 | `text!` appends the raw string |
| HtmlBuilder.Html.Comment | lib/iron/web/html.rb:83-89 | `comment!` appends the comment text |
| HtmlBuilder.Html.Tag | lib/iron/web/html.rb:124-133 | state and exception are those of `ExecTag` |
| HtmlBuilder.Html.MethodMissing | lib/iron/web/html.rb:137-146 | a name matching `^[a-z]+[0-9]?$` is a tag; any other raises `NoMethodError` and changes nothing |
| HtmlBuilder.TagNameExamples | lib/iron/web/html.rb:139 | `div`, `h1` and `a` name tags; `h12`, `foo_bar`, `Div`, `1a` and the empty name do not |
| HtmlBuilder.Html.Exec | lib/iron/web/html.rb:129 | one operation of a block, as `ExecOp` |
| HtmlBuilder.Html.Run | lib/iron/web/html.rb:129 | the block's operations in order, stopping at the first exception, as `ExecBlock` |
| HtmlBuilder.Html.Count | lib/iron/web/html.rb:111-113 | the number of top-level items |
| HtmlBuilder.Html.IsEmpty | lib/iron/web/html.rb:115-121 | empty exactly when there is no top-level item |
| HtmlBuilder.Html.Render | lib/iron/web/html.rb:159-175 | the loop with its one-shot flag equals `RenderFragment` |
| UrlQuery.SplitJoin | lib/iron/web/url.rb:105 | splitting pieces joined by a separator they do not contain gives them back when the last is not empty |
| UrlQuery.RemoveAppendedBrackets | lib/iron/web/url.rb:109 | `gsub('[]','')` undoes the `[]` that `to_param_string` appends to an array key |
| UrlQuery.KeptParams | lib/iron/web/url.rb:60 | an entry is kept exactly when neither its key nor its value is blank |
| UrlQuery.KeptParamsInOrder | lib/iron/web/url.rb:60 | dropping blank entries works entry by entry, so the kept entries stay in their order |
| UrlQuery.KeptParamsIdempotent | lib/iron/web/url.rb:60 | dropping blank entries twice is dropping them once |
| UrlQuery.ParamString | lib/iron/web/url.rb:57-80 | `''` exactly when no entry is kept; otherwise it starts with `?` |
| UrlQuery.AddParam | lib/iron/web/url.rb:173-182 | a key that is new or holds nil takes the value; otherwise it holds one flat array of the old and the new values; every other key reads as before; the keys keep their order, or the new key goes at the end |
| UrlQuery.AddToLastArray | lib/iron/web/url.rb:176-178 | adding a value to an array entry appends it to the array |
| UrlQuery.ReadPiecesConcat | lib/iron/web/url.rb:105-114 | reading two runs of pieces is reading the first and then the second |
| UrlQuery.ScalarPieceFields | lib/iron/web/url.rb:105-106 | a written `k=v` piece splits on `=` into `k` and `v`, and `k` does not end in `[]` |
| UrlQuery.ArrayPieceFields | lib/iron/web/url.rb:105-108 | a written `k[]=v` piece splits into `k[]` and `v`, and dropping the brackets gives `k` back |
| UrlQuery.ReadOnePiece | lib/iron/web/url.rb:106-112 | a written `k=v` piece reads back as a string value, and a `k[]=v` piece as a one-string array |
| UrlQuery.ArrayPieceAt | lib/iron/web/url.rb:67-71 | the i-th piece of an array is `key[]=` and the i-th value |
| UrlQuery.ReadArrayPieces | lib/iron/web/url.rb:105-114 | the pieces written for an array read back as that array |
| UrlQuery.ReadEntry | lib/iron/web/url.rb:64-76 | the pieces written for one entry read back as that entry |
| UrlQuery.ReadAllPieces | lib/iron/web/url.rb:104-114 | the pieces written for canonical parameters read back as those parameters |
| UrlQuery.PiecesAreClean | lib/iron/web/url.rb:70-75 | every written piece uses only escaped text, `=` and brackets, and the last one is not empty |
| UrlQuery.JoinQueryText | lib/iron/web/url.rb:77 | joining clean pieces with `&` gives a clean query |
| UrlQuery.PiecesSplitBack | lib/iron/web/url.rb:105 | splitting the joined query on `&` gives the pieces back |
| UrlQuery.QueryRoundTrip | lib/iron/web/url.rb:57-80 | for canonical parameters the string is `?` and the joined pieces, and parsing it gives the parameters back |
| Urls.SplitUrl | lib/iron/web/url.rb:91 | the base holds no `?` or `#`, the query no `#`, and the base starts the string |
| Urls.SplitUrlOf | lib/iron/web/url.rb:91 | splitting base, `?query` and `#fragment` gives the three parts back |
| Urls.Parsed | lib/iron/web/url.rb:88-115 | after `set`, scheme, server, port and path are those the base part of the stripped input gives, the params are the parsed query and the fragment is the third part |
| Urls.ParsedBase | lib/iron/web/url.rb:93-101 | a base that does not look absolute becomes the path and keeps the rest; one that looks absolute and matches sets scheme and server from the match, the port to the integer value of its digits or nil, and the path to the captured path or `''`; one that does not match clears them with the path; params and fragment are kept |
| Urls.RelativeSetKeepsServer | lib/iron/web/url.rb:99-101 | setting a relative path keeps scheme, server and port and replaces the path |
| Urls.Base | lib/iron/web/url.rb:139-148 | with a server: the scheme (or the default), `://`, the server, `:port` when there is a port, then the path; without one, just the path |
| Urls.Path | lib/iron/web/url.rb:145-146 | the path as it is or with `/` in front: it starts with `/` unless blank, is kept when it already starts with `/`, and is blank exactly when the path is |
| Urls.Build | lib/iron/web/url.rb:50-54 | base and parameter string come first; `#fragment` follows exactly when the fragment is not blank |
| Urls.BlankBase | lib/iron/web/url.rb:130-136 | `blank?` holds exactly when the server and the path are blank |
| Urls.AbsolutizedMeaning | lib/iron/web/url.rb:222-236 | `make_absolute` raises `No default server` exactly when it has work to do (a relative URL, or the wrong security) and no server is given, set or defaulted; when nothing raises there is a server, and a secure scheme if one was asked for; path, params and fragment never change |
| Urls.Absolutized | lib/iron/web/url.rb:222-236 | a URL already absolute with the security asked for is left as it is; otherwise, with a server to be had, a set server is kept, else the argument, else the default is taken; a missing scheme becomes the default one with the port cleared; a secure request maps `http` to `https` and `ftp` to `sftp` and raises `No secure scheme for scheme X` for any other scheme; path, params and fragment never change |
| Urls.AbsolutizeHttpsRaises | lib/iron/web/url.rb:230-232 | a secure request on a relative `https` URL raises, because the mapping lacks `https` |
| Urls.Relativized | lib/iron/web/url.rb:238-245 | `make_relative` leaves a relative URL; an absolute one loses its server, scheme and port, and path, params and fragment are kept |
| Urls.MatchBaseOf | lib/iron/web/url.rb:95-96 | a lower-case scheme, `://`, a server and what follows look absolute and match with those parts |
| Urls.TailParts | lib/iron/web/url.rb:96-98 | the port and path written after the server are read back |
| Urls.BaseRoundTrip | lib/iron/web/url.rb:139-148 | the base written for a URL with a server matches with its scheme, server, port and path |
| Urls.ParsedBaseRoundTrip | lib/iron/web/url.rb:93-101 | reading the base written for a canonical URL gives back its scheme, server, port and path |
| Urls.PathNotAbsolute | lib/iron/web/url.rb:95 | a path that is empty or starts with `/` does not look absolute |
| Urls.BaseClean | lib/iron/web/url.rb:139-148 | a canonical URL's base holds no `?`, `#` or white space |
| Urls.QueryClean | lib/iron/web/url.rb:104-114 | the query written for canonical parameters parses back to them |
| Urls.ToStringShape | lib/iron/web/url.rb:118-120 | `to_s` is base, `?query` when there are parameters, and `#fragment` when there is one, with no white space |
| Urls.UrlRoundTrip | lib/iron/web/url.rb:88-120 | `Url.new(u.to_s)` gives back every field of a canonical URL |
| Urls.Url.constructor | lib/iron/web/url.rb:82-85 | the new URL is `set` of the argument on unset fields |
| Urls.Url.Set | lib/iron/web/url.rb:88-115 | the new fields are `Parsed` of the old fields and the argument |
| Urls.Url.SetBase | lib/iron/web/url.rb:93-101 | the base part of `set`, as `ParsedBase` |
| Urls.Url.ReadQuery | lib/iron/web/url.rb:103-114 | the loop over the pieces sets the params to the parsed query and changes nothing else |
| Urls.Url.ToS | lib/iron/web/url.rb:118-120 | returns the URL text and drops blank entries from the params, as `to_param_string` does |
| Urls.Url.AppendPath | lib/iron/web/url.rb:150-154 | appends the text to the path, CGI-escaped with `+` as `%20` when asked |
| Urls.Url.SetParam | lib/iron/web/url.rb:162-164 | the params become `Put` of the pair |
| Urls.Url.SetParams | lib/iron/web/url.rb:166-170 | each pair of the hash is stored in turn |
| Urls.Url.AddParam | lib/iron/web/url.rb:173-182 | the params become `add_param` of the pair: the key holds the merged value and every other key reads as before |
| Urls.Url.RemoveParam | lib/iron/web/url.rb:185-193 | the params become those `delete_if` spares: no entry with that key is left, and every other entry stays |
| Urls.Url.GetParam | lib/iron/web/url.rb:195-197 | returns the stored value, or nil for a missing key |
| Urls.Url.ClearParams | lib/iron/web/url.rb:200-203 | the params become empty and nothing else changes |
| Urls.Url.HasParams | lib/iron/web/url.rb:205-207 | true exactly when there is a parameter |
| Urls.Url.IsSecureUrl | lib/iron/web/url.rb:209-211 | true exactly for the schemes `https`, `sftp` and `ssh` |
| Urls.Url.IsRelativeUrl | lib/iron/web/url.rb:213-219 | true exactly when the server is blank |
| Urls.Url.IsBlankUrl | lib/iron/web/url.rb:130-136 | true exactly when the server and the path are blank |
| Urls.Url.MakeAbsolute | lib/iron/web/url.rb:222-236 | the fields become those of `Absolutized`; it raises its error, or returns `to_s` |
| Urls.Url.MakeRelative | lib/iron/web/url.rb:238-245 | the URL is relative afterwards and the result is `to_s` of the relative form |
| Urls.PlusAsPercent | lib/iron/web/url.rb:153 | no `+` is left |
| Urls.PlusAsPercentNoPlus | lib/iron/web/url.rb:153 | text without `+` is unchanged |
| Urls.PutAllGet | lib/iron/web/url.rb:166-170 | after `set_params`, a key of the hash reads its value there and every other key reads as before |
| Urls.KeptParamsString | lib/iron/web/url.rb:57-80 | the parameter string is the same before and after blank entries are dropped |
| Colors.Clamp | lib/iron/web/color.rb:248-250 | values in 0..255 are kept, below go to 0, above go to 255 |
| Colors.ToHex | lib/iron/web/color.rb:236-238 | exactly two upper-case hex digits |
| Colors.ToHexValue | lib/iron/web/color.rb:236-238 | the two digits read back as hex give the channel |
| Colors.StringHexDigits | lib/iron/web/color.rb:246 | `String#hex` of two or more hex digits is the number they write in base 16 |
| Colors.FromHexToHex | lib/iron/web/color.rb:236-252 | `from_hex(to_hex(v))` is `v` |
| Colors.FromHexSingle | lib/iron/web/color.rb:244 | a single hex character is doubled: it reads as 17 times its digit |
| Colors.FromHexDigits | lib/iron/web/color.rb:241-252 | a string of hex digits is read as its value, clamped, after a single digit is doubled |
| Colors.HexPairValue | lib/iron/web/color.rb:241-252 | two hex digits are read as 16 times the first plus the second, with no clamping needed |
| Colors.ToS | lib/iron/web/color.rb:117-127 | six digits when opaque, eight otherwise, with `#` exactly when asked |
| Colors.FirstHexRun | lib/iron/web/color.rb:93 | the run found is empty or 3 to 8 upper-case hex digits |
| Colors.FirstHexRunNone | lib/iron/web/color.rb:93 | no match exactly when no three hex digits stand together |
| Colors.FirstHexRunLeftmost | lib/iron/web/color.rb:93 | the match starts at the leftmost place three hex digits stand together and runs as far as the digits do, up to eight |
| Colors.FirstHexRunDrop | lib/iron/web/color.rb:93 | characters before the first place three hex digits stand together do not affect the match |
| Colors.ShortRunSkipped | lib/iron/web/color.rb:93 | fewer than three characters before a non-digit are passed over: `12 AABBCC` parses as `AABBCC` |
| Colors.EightDigitsFirst | lib/iron/web/color.rb:93 | a string that begins with eight hex digits matches exactly those eight |
| Colors.LongRunCut | lib/iron/web/color.rb:93 | eight hex digits parse alike whatever follows them: `AABBCCDDE` parses as `AABBCCDD` |
| Colors.ShortFormChannels | lib/iron/web/color.rb:94-102 | three or four digits give one doubled digit per channel; a missing alpha is 255 |
| Colors.LongFormChannels | lib/iron/web/color.rb:94-102 | six or eight digits give one pair of digits per channel; a missing alpha is 255 |
| Colors.ParseText | lib/iron/web/color.rb:92-104 | a string parses exactly when `str[/[0-9A-F]{3,8}/]` of its upcased text, the leftmost run of at least three hex digits cut after eight, has 3, 4, 6 or 8 digits |
| Colors.ParseOne | lib/iron/web/color.rb:76-104 | a Color is returned as it is; an Integer n gives the opaque grey of level `Clamp(n)`, the same as `Color.new(n, n, n)`; other values are parsed as text; nil gives nil |
| Colors.FromChannels | lib/iron/web/color.rb:21-25 | succeeds exactly when r, g, b and any non-nil alpha are each a number or a string; each channel is `from_hex` of its argument; with no alpha, or a nil one, the colour is opaque; a nil or Color argument raises `NoMethodError` for `<` |
| Colors.Parse | lib/iron/web/color.rb:70-111 | never raises for other than 3 or 4 arguments, and gives nil for 0, 2 or more than 4 |
| Colors.Assigned | lib/iron/web/color.rb:32-41 | `set` raises exactly when `parse` raises, changes nothing when `parse` gives nil, and otherwise takes the parsed colour |
| Colors.Created | lib/iron/web/color.rb:15-29 | no arguments give white; other than 3 or 4 arguments never raise |
| Colors.ParseToS | lib/iron/web/color.rb:117-127 | `parse(to_s(c))` is `c`, with or without `#` |
| Colors.EqualsOwnString | lib/iron/web/color.rb:44-48 | a colour equals its own web string |
| Colors.CreatedRoundTrip | lib/iron/web/color.rb:15-29 | three integers give the clamped opaque colour, which its web string reads back as |
| Colors.ParseIgnoresCase | lib/iron/web/color.rb:92 | strings equal after upcasing parse alike |
| Colors.ShortFormDoubles | lib/iron/web/color.rb:95-96 | three hex digits read as doubled channels with alpha 255 |
| Colors.FourDigitForm | lib/iron/web/color.rb:95-96 | four hex digits read as doubled channels, the fourth giving the alpha |
| Colors.ParseRgba | lib/iron/web/color.rb:117-127 | `to_rgba` parses back to the colour whatever its alpha (an `FF` alpha gives 255), and `to_rgb` to the colour made opaque |
| Colors.EqualsMeaning | lib/iron/web/color.rb:44-48 | `==` with a Color compares all four channels, with a web string is true exactly for the colour written, and with nil is false |
| Colors.WebColorExample | spec/web/color_spec.rb:23 | `#f8019c` parses as (248, 1, 156) |
| Colors.OpaqueStringExample | spec/web/color_spec.rb:19 | (1, 2, 3) is written `#010203` |
| Colors.TransStringExample | spec/web/color_spec.rb:43-47 | `#AABBCC` with alpha 38 is written `#AABBCC26` |
| Colors.Color.Init | lib/iron/web/color.rb:16-19 | a new colour is white |
| Colors.Color.New | lib/iron/web/color.rb:15-29 | returns a fresh colour holding `Created`, or its exception |
| Colors.Color.SetR | lib/iron/web/color.rb:51 | only `r` changes, to `from_hex` of the value |
| Colors.Color.SetG | lib/iron/web/color.rb:52 | only `g` changes, to `from_hex` of the value |
| Colors.Color.SetB | lib/iron/web/color.rb:53 | only `b` changes, to `from_hex` of the value |
| Colors.Color.SetA | lib/iron/web/color.rb:54 | only `a` changes, to `from_hex` of the value |
| Colors.Color.Set | lib/iron/web/color.rb:32-41 | the colour becomes `Assigned`, and stays as it was when that raises |
| Colors.Color.EqualTo | lib/iron/web/color.rb:44-48 | true exactly when `Equals` holds, which parses the argument and compares all four channels (false when it does not parse) |
| Colors.Color.ToString | lib/iron/web/color.rb:117-127 | the web string, which parses back to the colour |
| Colors.Color.Opaque | lib/iron/web/color.rb:129-131 | true exactly when `a` is 255 |
| Colors.Color.Trans | lib/iron/web/color.rb:133-135 | true exactly when `a` is not 255 |
| Colors.Color.Grayscale | lib/iron/web/color.rb:137-139 | true exactly when r, g and b are equal |

## Left out

- Floating-point colour operations are not modelled (`lighten`, `darken`, `contrast`, `blend`, `average`, `grayscale`, `brightness`, `dark?`, `light?` and the `!` forms).
- `Color.lookup_callback` and the Symbol branch of `parse` are not modelled. The callback is arbitrary foreign code, so a Symbol argument is not an `Arg`.
- `Colors.Upcase` upcases ASCII letters only. Ruby's full Unicode upcasing (for instance of ligatures that become several letters) is not modelled.
- `Colors.StringHex` does not model the `_` separators Ruby's `String#hex` accepts between digits.
- `Colors.Color.New`: `Fixnum` is read as any Integer. A channel setter given nil or a Color raises `NoMethodError` (from `<`) instead of being typed out.
- The URL codec is a parameter. The round trips hold for any codec with the three stated properties; `CGI.escape` itself is not part of this model.
- The class-level `Url.default_server` and `Url.default_scheme` are a `Defaults` parameter. `SCHEME_DEFAULT_PORTS` is unused by the code and left out.
- Parameter values are strings, arrays of strings or nil. `to_param`, symbol keys, other value types and the Regexp branch of `remove_param` are not modelled.
- `UrlQuery.AddParam`: a nil that `add_param` would put into an array is stored as the empty string, which `to_param_string` writes out the same way; the array itself is not distinguished from one holding `""`.
- `Urls.Url.MakeAbsolute`: the attribute writers that could set fields to arbitrary values are left out. `String#extract` is taken to return the captures, or nils when nothing matches.
- The `^` and `$` anchors of the URL patterns are read as anchors of the whole string. Ruby's line anchors differ only for input holding line breaks.
- `Markup.AttrCall`: `method_missing` stores its key as a Symbol while a Hash given to `Element.new` may hold String keys, so Ruby can render the same attribute name twice; attribute keys are plain strings here and that duplication is not modelled.
- `Markup.NewElement`: attribute values are strings (safe or not) or nil. Other values that Ruby turns into text with `to_s`, such as `false`, `true` or numbers, are not modelled; `false`, for instance, is blank in Ruby without being nil, so it is rendered rather than dropped.
- Elements are values: an element changed after it was appended to an `Html` is not changed in the list. `method_missing` names that Ruby would have shadowed are not modelled.
- `Html#each` and `Enumerable`, `respond_to_missing?`, `is_a?`, the `inspect`/`to_s` aliases and the `undef_method` sweeps are not modelled. `Html::Element.build` is left out; it is `new` followed by `render`.
- An `Html` nested directly as an item of another `Html` is not modelled. Its items appear as an element's children instead.
- `HtmlEscape.IntendedHidesScriptEnd` requires input without U+2028 and U+2029. The table deletes them, which can join a `<` and a `/` that were apart.
- `HtmlEscape.EscapeJavascript` models the `gsub` on characters. The byte-level `\342\200\250` alternatives are read as U+2028 and U+2029.
- The Rails-present switch of `string.rb` is left out.

## Findings

| source | as written | input that shows it | evidently intended | confidence | as-written member | corrected member |
|---|---|---|---|---|---|---|
| lib/iron/web/html.rb:68 | the first alternative of the pattern matches a vertical bar followed by `</` instead of a backslash, so a backslash is never escaped | backslash followed by `n`: it stays as it is and a JavaScript literal reads it as a line feed | `\\` and `<\/` as two alternatives, so that the table's backslash entry applies | not executed | HtmlEscape.AsWrittenCorruptsBackslash | HtmlEscape.IntendedRoundTrip |
| lib/iron/web/html.rb:68 | a bare `</` is not matched, and the bar-prefixed match has no table entry, so it is deleted | `</` passes through unchanged; a vertical bar followed by `</` becomes the empty string | `</` rewritten to `<\/`, so that no `</script>` can end the script | not executed | HtmlEscape.AsWrittenPassesScriptEnd | HtmlEscape.IntendedHidesScriptEnd |
