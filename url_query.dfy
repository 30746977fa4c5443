/** The query part of lib/iron/web/url.rb: the parameter map, `to_param_string`, which
    writes it out, `add_param`, and the loop in `set` that reads a query back.

    `CGI::escape` and `CGI::unescape` belong to Ruby's standard library; they are a
    `Codec` parameter here, and the properties of them a lemma relies on are stated as
    its hypotheses. */
module UrlQuery {
  import opened Support
  import opened OrderedMaps

  /** A parameter value: nil (only `set_param` stores one), a string, or an array of
      strings (what a key ending `[]` collects). */
  datatype ParamValue = NilParam | Single(text: string) | Many(texts: seq<string>)

  type Params = Assoc<string, ParamValue>

  /** `CGI::escape` and `CGI::unescape`. */
  datatype Codec = Codec(escape: string -> string, unescape: string -> string)

  /** The characters `CGI::escape` leaves in its output: unreserved characters, `+`
      for a space, and `%` of a percent-escape. */
  predicate SafeChar(c: char) {
    IsLetter(c) || IsDigit(c) || c == '%' || c == '+' || c == '.' || c == '-' || c == '_' || c == '~'
  }

  predicate SafeText(s: string) {
    forall i :: 0 <= i < |s| ==> SafeChar(s[i])
  }

  /** What the round trip needs of the codec: output made of safe characters, empty only
      for empty input, and undone by `unescape`. */
  ghost predicate GoodCodec(c: Codec) {
    (forall s :: SafeText(c.escape(s))) &&
    (forall s :: |c.escape(s)| == 0 <==> |s| == 0) &&
    (forall s :: c.unescape(c.escape(s)) == s)
  }

  // ---------------------------------------------------------------------------
  // Ruby's String#split and Array#join with a one-character separator

  /** Every field between separators, empty ones included. */
  function Fields(s: string, sep: char): (r: seq<string>)
    ensures |r| >= 1
  {
    if s == [] then [""]
    else
      var rest := Fields(s[1..], sep);
      if s[0] == sep then [""] + rest else [[s[0]] + rest[0]] + rest[1..]
  }

  /** Trailing empty fields, which `split` drops. */
  function DropTrailingEmpty(fs: seq<string>): (r: seq<string>)
    ensures |r| <= |fs| && r == fs[..|r|]
    ensures r != [] ==> r[|r| - 1] != ""
  {
    if fs == [] then []
    else if fs[|fs| - 1] == "" then DropTrailingEmpty(fs[..|fs| - 1])
    else fs
  }

  /** `str.split(sep)`. */
  function Split(s: string, sep: char): seq<string> {
    DropTrailingEmpty(Fields(s, sep))
  }

  /** `pieces.join(sep)`. */
  function Join(pieces: seq<string>, sep: char): string {
    if pieces == [] then ""
    else if |pieces| == 1 then pieces[0]
    else pieces[0] + [sep] + Join(pieces[1..], sep)
  }

  /** A text without the separator is one field; with text after one more separator,
      the fields continue. */
  lemma {:induction false} FieldsOfPiece(a: string, rest: string, sep: char)
    requires sep !in a
    ensures Fields(a, sep) == [a]
    ensures Fields(a + [sep] + rest, sep) == [a] + Fields(rest, sep)
  {
    if a != [] {
      FieldsOfPiece(a[1..], rest, sep);
      assert (a + [sep] + rest)[1..] == a[1..] + [sep] + rest;
      assert [a[0]] + a[1..] == a;
    } else {
      assert a + [sep] + rest == [sep] + rest;
      assert ([sep] + rest)[1..] == rest;
    }
  }

  /** `split` undoes `join` when no piece holds the separator and the last is not
      empty. */
  lemma {:induction false} SplitJoin(pieces: seq<string>, sep: char)
    requires |pieces| >= 1 && pieces[|pieces| - 1] != ""
    requires forall i :: 0 <= i < |pieces| ==> sep !in pieces[i]
    ensures Split(Join(pieces, sep), sep) == pieces
  {
    FieldsJoin(pieces, sep);
  }

  lemma {:induction false} FieldsJoin(pieces: seq<string>, sep: char)
    requires |pieces| >= 1
    requires forall i :: 0 <= i < |pieces| ==> sep !in pieces[i]
    ensures Fields(Join(pieces, sep), sep) == pieces
  {
    if |pieces| == 1 {
      FieldsOfPiece(pieces[0], "", sep);
    } else {
      FieldsJoin(pieces[1..], sep);
      FieldsOfPiece(pieces[0], Join(pieces[1..], sep), sep);
    }
  }

  /** `str.gsub('[]', '')`, scanning from the left as `gsub` does. */
  function RemoveBrackets(s: string): (r: string)
    ensures |r| <= |s|
  {
    if |s| >= 2 && s[0] == '[' && s[1] == ']' then RemoveBrackets(s[2..])
    else if s == [] then []
    else [s[0]] + RemoveBrackets(s[1..])
  }

  lemma {:induction false} RemoveBracketsFrom(a: string, b: string)
    requires '[' !in a
    ensures RemoveBrackets(a + b) == a + RemoveBrackets(b)
  {
    if a != [] {
      assert (a + b)[0] == a[0] && a[0] != '[';
      assert (a + b)[1..] == a[1..] + b;
      assert '[' !in a[1..];
      RemoveBracketsFrom(a[1..], b);
      assert RemoveBrackets(a + b) == [a[0]] + RemoveBrackets(a[1..] + b);
      assert a == [a[0]] + a[1..];
    } else {
      assert a + b == b;
    }
  }

  /** `gsub('[]', '')` leaves a text with no `[` as it is, and strips a `[]` appended
      to one. */
  lemma RemoveAppendedBrackets(a: string)
    requires '[' !in a
    ensures RemoveBrackets(a) == a
    ensures RemoveBrackets(a + "[]") == a
  {
    RemoveBracketsFrom(a, "");
    RemoveBracketsFrom(a, "[]");
    assert a + "" == a;
  }

  // ---------------------------------------------------------------------------
  // Writing parameters out: `Url.to_param_string`

  /** The entries `to_param_string` deletes: blank key, or a value whose `to_s` is
      blank. An array's `to_s` (`"[...]"`) is never blank. */
  predicate Dropped(k: string, v: ParamValue) {
    Blank(k) || v.NilParam? || (v.Single? && Blank(v.text))
  }

  /** What `params.delete_if` leaves. */
  function KeptParams(params: Params): (r: Params)
    ensures forall e :: e in r <==> e in params && !Dropped(e.0, e.1)
  {
    Filter(params, (k, v) => !Dropped(k, v))
  }

  /** `delete_if` keeps the surviving entries in their order: it works entry by entry,
      dropping an entry exactly when its key or value is blank. */
  lemma KeptParamsInOrder(a: Params, b: Params, key: string, value: ParamValue)
    ensures KeptParams(a + b) == KeptParams(a) + KeptParams(b)
    ensures KeptParams([(key, value)]) == if Dropped(key, value) then [] else [(key, value)]
  {
    FilterConcat(a, b, (k, v) => !Dropped(k, v));
    FilterOne((key, value), (k, v) => !Dropped(k, v));
  }

  /** The `k=v` pieces of one entry: one piece for a value, `k[]=v` for each string of
      an array, the key's `[]` removed. */
  function EntryPieces(c: Codec, k: string, v: ParamValue): seq<string> {
    match v
    case NilParam => [c.escape(k) + "=" + c.escape("")]
    case Single(s) => [c.escape(k) + "=" + c.escape(s)]
    case Many(vs) => ArrayPieces(c, c.escape(RemoveBrackets(k)), vs)
  }

  /** `k[]=v` for each string of an array, the key already escaped. */
  function ArrayPieces(c: Codec, ek: string, vs: seq<string>): (r: seq<string>)
    ensures |r| == |vs|
  {
    if vs == [] then [] else ArrayPieces(c, ek, vs[..|vs| - 1]) + [ek + "[]=" + c.escape(vs[|vs| - 1])]
  }

  function AllPieces(c: Codec, params: Params): seq<string> {
    if params == [] then []
    else AllPieces(c, params[..|params| - 1]) + EntryPieces(c, params[|params| - 1].0, params[|params| - 1].1)
  }

  /** `to_param_string`: `''` when no entry is kept, otherwise `?` and the pieces joined
      by `&`. */
  function ParamString(c: Codec, params: Params): (r: string)
    ensures r == "" <==> KeptParams(params) == []
    ensures r != "" ==> r[0] == '?'
  {
    var kept := KeptParams(params);
    if kept == [] then "" else "?" + Join(AllPieces(c, kept), '&')
  }

  /** Writing out keeps only what writing out would keep again. */
  lemma KeptParamsIdempotent(params: Params)
    ensures KeptParams(KeptParams(params)) == KeptParams(params)
  {
    var kept := KeptParams(params);
    forall i | 0 <= i < |kept|
      ensures !Dropped(kept[i].0, kept[i].1)
    {
      assert kept[i] in kept;
    }
    FilterKeepsAll(kept, (k, v) => !Dropped(k, v));
  }

  // ---------------------------------------------------------------------------
  // Reading parameters: `add_param` and the query loop of `set`

  /** `add_param`: a new key (or one holding nil) takes the value; otherwise the old
      and new values are joined into one flat array. A nil added to an array is
      written `""`, which `to_param_string` writes out the same way. */
  function AddParam(params: Params, k: string, v: ParamValue): (r: Params)
    ensures Keys(r) == Keys(params) || r == params + [(k, v)]
    ensures Get(r, k) == Some(if Get(params, k).Some? && !Get(params, k).value.NilParam?
                              then Many(AsArray(Get(params, k).value) + AsArray(v))
                              else v)
    ensures forall j :: j != k ==> Get(r, j) == Get(params, j)
  {
    var oldval := Get(params, k);
    var merged := Merge(if oldval.Some? then oldval.value else NilParam, v);
    PutGetAll(params, k, merged);
    Put(params, k, merged)
  }

  /** `oldval ? [oldval, v].flatten : v`. */
  function Merge(oldval: ParamValue, v: ParamValue): ParamValue {
    if oldval.NilParam? then v else Many(AsArray(oldval) + AsArray(v))
  }

  function AsArray(v: ParamValue): seq<string> {
    match v
    case NilParam => [""]
    case Single(s) => [s]
    case Many(vs) => vs
  }

  /** One piece `k=v` of a query: `k, v = p.split('=')`, kept when both are there. */
  function SplitPiece(p: string): Option<(string, string)> {
    var fs := Split(p, '=');
    if |fs| >= 2 then Some((fs[0], fs[1])) else None
  }

  /** What the query loop does with one piece. */
  function ReadPiece(c: Codec, params: Params, p: string): Params {
    match SplitPiece(p)
    case None => params
    case Some((k, v)) =>
      if EndsWith(k, "[]") then AddParam(params, c.unescape(RemoveBrackets(k)), Many([c.unescape(v)]))
      else AddParam(params, c.unescape(k), Single(c.unescape(v)))
  }

  /** The pieces from the `i`-th on, read into `params`. */
  function ReadPieces(c: Codec, params: Params, pieces: seq<string>): Params
    decreases |pieces|
  {
    if pieces == [] then params else ReadPieces(c, ReadPiece(c, params, pieces[0]), pieces[1..])
  }

  /** The parameters of a query string. */
  function ParseQuery(c: Codec, query: string): Params {
    ReadPieces(c, [], Split(query, '&'))
  }

  lemma {:induction false} ReadPiecesConcat(c: Codec, params: Params, a: seq<string>, b: seq<string>)
    ensures ReadPieces(c, params, a + b) == ReadPieces(c, ReadPieces(c, params, a), b)
    decreases |a|
  {
    if a != [] {
      assert (a + b)[0] == a[0];
      assert (a + b)[1..] == a[1..] + b;
      ReadPiecesConcat(c, ReadPiece(c, params, a[0]), a[1..], b);
    } else {
      assert a + b == b;
    }
  }

  // ---------------------------------------------------------------------------
  // Round trip

  /** Parameters that come back unchanged from being written out and read in: distinct
      keys without `[` that are not blank, strings that are not blank, and arrays that
      are not empty and hold no empty string. */
  predicate Canonical(params: Params) {
    DistinctKeys(params) &&
    forall i :: 0 <= i < |params| ==> CanonicalEntry(params[i].0, params[i].1)
  }

  predicate CanonicalEntry(k: string, v: ParamValue) {
    !Blank(k) && '[' !in k &&
    match v
    case NilParam => false
    case Single(s) => !Blank(s)
    case Many(vs) => |vs| >= 1 && forall j :: 0 <= j < |vs| ==> vs[j] != ""
  }

  lemma SafeTextNoDelimiters(s: string)
    requires SafeText(s)
    ensures '&' !in s && '=' !in s && '[' !in s && '#' !in s && '?' !in s
  {
    forall i | 0 <= i < |s|
      ensures s[i] != '&' && s[i] != '=' && s[i] != '[' && s[i] != '#' && s[i] != '?'
    {
      assert SafeChar(s[i]);
    }
  }

  /** One piece as it is written, read back. */
  lemma ReadOnePiece(c: Codec, params: Params, key: string, mid: string, value: string)
    requires GoodCodec(c)
    requires mid == "=" || mid == "[]="
    requires value != ""
    ensures ReadPiece(c, params, c.escape(key) + mid + c.escape(value)) ==
            AddParam(params, key, if mid == "=" then Single(value) else Many([value]))
  {
    var ek, ev := c.escape(key), c.escape(value);
    assert SafeText(ek) && SafeText(ev) && |ev| != 0;
    assert c.unescape(ek) == key && c.unescape(ev) == value;
    if mid == "=" {
      ScalarPieceFields(ek, ev);
    } else {
      ArrayPieceFields(ek, ev);
    }
  }

  /** `k=v` with safe text on both sides splits into `k` and `v`, and `k` has no `[]`. */
  lemma ScalarPieceFields(ek: string, ev: string)
    requires SafeText(ek) && SafeText(ev) && ev != ""
    ensures SplitPiece(ek + "=" + ev) == Some((ek, ev)) && !EndsWith(ek, "[]")
  {
    SafeTextNoDelimiters(ek);
    SafeTextNoDelimiters(ev);
    assert ek + "=" + ev == ek + ['='] + ev;
    FieldsOfPiece(ev, "", '=');
    FieldsOfPiece(ek, ev, '=');
    assert Split(ek + "=" + ev, '=') == [ek, ev];
    if |ek| >= 2 {
      assert ek[|ek| - 2..][0] == ek[|ek| - 2];
      assert SafeChar(ek[|ek| - 2]);
    }
  }

  /** `k[]=v` with safe text on both sides splits into `k[]` and `v`, and dropping the
      brackets gives back `k`. */
  lemma ArrayPieceFields(ek: string, ev: string)
    requires SafeText(ek) && SafeText(ev) && ev != ""
    ensures SplitPiece(ek + "[]=" + ev) == Some((ek + "[]", ev))
    ensures EndsWith(ek + "[]", "[]") && RemoveBrackets(ek + "[]") == ek
  {
    SafeTextNoDelimiters(ek);
    SafeTextNoDelimiters(ev);
    var k' := ek + "[]";
    assert ek + "[]=" + ev == k' + ['='] + ev;
    assert '=' !in k' by { assert forall i :: 0 <= i < |k'| ==> (i < |ek| && k'[i] == ek[i]) || k'[i] == '[' || k'[i] == ']'; }
    FieldsOfPiece(ev, "", '=');
    FieldsOfPiece(k', ev, '=');
    assert Split(ek + "[]=" + ev, '=') == [k', ev];
    assert k'[|k'| - 2..] == "[]";
    RemoveAppendedBrackets(ek);
  }

  /** Adding one more string to the array entry added last. */
  lemma AddToLastArray(params: Params, k: string, init: seq<string>, last: string)
    requires k !in Keys(params) && init != []
    ensures AddParam(params + [(k, Many(init))], k, Many([last])) == params + [(k, Many(init + [last]))]
  {
    LastEntryGet(params, k, Many(init));
    LastEntryPut(params, k, Many(init), Many(init + [last]));
  }

  lemma {:induction false} ArrayPieceAt(c: Codec, ek: string, vs: seq<string>, i: nat)
    requires i < |vs|
    ensures ArrayPieces(c, ek, vs)[i] == ek + "[]=" + c.escape(vs[i])
  {
    if i < |vs| - 1 {
      ArrayPieceAt(c, ek, vs[..|vs| - 1], i);
    }
  }

  /** One array piece read on its own. */
  lemma ReadArrayPiece(c: Codec, m: Params, k: string, last: string)
    requires GoodCodec(c) && last != ""
    ensures ReadPieces(c, m, [c.escape(k) + "[]=" + c.escape(last)]) == AddParam(m, k, Many([last]))
  {
    var p := c.escape(k) + "[]=" + c.escape(last);
    ReadOnePiece(c, m, k, "[]=", last);
    assert ReadPieces(c, ReadPiece(c, m, p), []) == ReadPiece(c, m, p);
  }

  /** One more piece after the pieces of the array so far. */
  lemma ReadArrayNext(c: Codec, params: Params, k: string, init: seq<string>, last: string)
    requires GoodCodec(c) && k !in Keys(params) && init != [] && last != ""
    requires ReadPieces(c, params, ArrayPieces(c, c.escape(k), init)) == params + [(k, Many(init))]
    ensures ReadPieces(c, params, ArrayPieces(c, c.escape(k), init + [last])) == params + [(k, Many(init + [last]))]
  {
    var ek := c.escape(k);
    var p := ek + "[]=" + c.escape(last);
    assert (init + [last])[..|init|] == init;
    assert ArrayPieces(c, ek, init + [last]) == ArrayPieces(c, ek, init) + [p];
    ReadPiecesConcat(c, params, ArrayPieces(c, ek, init), [p]);
    ReadArrayPiece(c, params + [(k, Many(init))], k, last);
    AddToLastArray(params, k, init, last);
  }

  /** The pieces of one array entry, read into parameters that lack its key. */
  lemma {:induction false} ReadArrayPieces(c: Codec, params: Params, k: string, vs: seq<string>)
    requires GoodCodec(c) && k !in Keys(params)
    requires |vs| >= 1 && forall j :: 0 <= j < |vs| ==> vs[j] != ""
    ensures ReadPieces(c, params, ArrayPieces(c, c.escape(k), vs)) == params + [(k, Many(vs))]
  {
    var init := vs[..|vs| - 1];
    var last := vs[|vs| - 1];
    assert init + [last] == vs;
    if init == [] {
      ReadArrayPiece(c, params, k, last);
      assert ArrayPieces(c, c.escape(k), vs) == [c.escape(k) + "[]=" + c.escape(last)];
    } else {
      ReadArrayPieces(c, params, k, init);
      ReadArrayNext(c, params, k, init, last);
    }
  }

  /** The pieces of one entry, read into parameters that lack its key, add that entry
      at the end. */
  lemma ReadEntry(c: Codec, params: Params, k: string, v: ParamValue)
    requires GoodCodec(c) && CanonicalEntry(k, v) && k !in Keys(params)
    ensures ReadPieces(c, params, EntryPieces(c, k, v)) == params + [(k, v)]
  {
    if v.Single? {
      ReadOnePiece(c, params, k, "=", v.text);
      assert ReadPieces(c, ReadPiece(c, params, EntryPieces(c, k, v)[0]), []) == ReadPiece(c, params, EntryPieces(c, k, v)[0]);
    } else {
      RemoveAppendedBrackets(k);
      ReadArrayPieces(c, params, k, v.texts);
    }
  }

  /** Reading every piece of canonical parameters gives them back. */
  lemma {:induction false} ReadAllPieces(c: Codec, params: Params)
    requires GoodCodec(c) && Canonical(params)
    ensures ReadPieces(c, [], AllPieces(c, params)) == params
  {
    if params != [] {
      var init := params[..|params| - 1];
      var (k, v) := params[|params| - 1];
      CanonicalLast(params);
      ReadAllPieces(c, init);
      assert AllPieces(c, params) == AllPieces(c, init) + EntryPieces(c, k, v);
      ReadPiecesConcat(c, [], AllPieces(c, init), EntryPieces(c, k, v));
      ReadEntry(c, init, k, v);
    }
  }

  /** Canonical parameters are canonical ones followed by a canonical entry under a
      new key. */
  lemma CanonicalLast(params: Params)
    requires Canonical(params) && params != []
    ensures var init := params[..|params| - 1];
            var (k, v) := params[|params| - 1];
            Canonical(init) && CanonicalEntry(k, v) && k !in Keys(init) && init + [(k, v)] == params
  {
  }

  /** The characters of a written piece: escaped text, `=` and the brackets of `[]`. */
  predicate PieceChar(ch: char) {
    SafeChar(ch) || ch == '=' || ch == '[' || ch == ']'
  }

  predicate PieceText(s: string) {
    forall i :: 0 <= i < |s| ==> PieceChar(s[i])
  }

  /** The characters of a written query: piece characters and `&`. */
  predicate QueryText(s: string) {
    forall i :: 0 <= i < |s| ==> PieceChar(s[i]) || s[i] == '&'
  }

  lemma PieceTextConcat(a: string, mid: string, b: string)
    requires SafeText(a) && SafeText(b) && (mid == "=" || mid == "[]=")
    ensures PieceText(a + mid + b)
  {
    var s := a + mid + b;
    forall i | 0 <= i < |s|
      ensures PieceChar(s[i])
    {
      if i < |a| { assert s[i] == a[i]; }
      else if i >= |a| + |mid| { assert s[i] == b[i - |a| - |mid|]; }
      else { assert s[i] == mid[i - |a|]; }
    }
  }

  /** Every piece of canonical parameters is made of piece characters, and the last
      is not empty. */
  lemma {:induction false} PiecesAreClean(c: Codec, params: Params)
    requires GoodCodec(c) && Canonical(params)
    ensures forall i :: 0 <= i < |AllPieces(c, params)| ==> PieceText(AllPieces(c, params)[i])
    ensures params != [] ==> |AllPieces(c, params)| >= 1 && AllPieces(c, params)[|AllPieces(c, params)| - 1] != ""
  {
    if params != [] {
      var init := params[..|params| - 1];
      var (k, v) := params[|params| - 1];
      CanonicalLast(params);
      PiecesAreClean(c, init);
      var e := EntryPieces(c, k, v);
      EntryPiecesClean(c, k, v);
      assert AllPieces(c, params) == AllPieces(c, init) + e;
      CleanConcat(AllPieces(c, init), e);
    }
  }

  /** The pieces of one canonical entry are clean and not empty. */
  lemma EntryPiecesClean(c: Codec, k: string, v: ParamValue)
    requires GoodCodec(c) && CanonicalEntry(k, v)
    ensures |EntryPieces(c, k, v)| >= 1
    ensures forall i :: 0 <= i < |EntryPieces(c, k, v)| ==>
              PieceText(EntryPieces(c, k, v)[i]) && EntryPieces(c, k, v)[i] != ""
  {
    var e := EntryPieces(c, k, v);
    forall i | 0 <= i < |e|
      ensures PieceText(e[i]) && e[i] != ""
    {
      var key := if v.Many? then RemoveBrackets(k) else k;
      var val := if v.Many? then v.texts[i] else v.text;
      var mid := if v.Many? then "[]=" else "=";
      if v.Many? {
        ArrayPieceAt(c, c.escape(key), v.texts, i);
      }
      assert e[i] == c.escape(key) + mid + c.escape(val);
      assert SafeText(c.escape(key)) && SafeText(c.escape(val));
      PieceTextConcat(c.escape(key), mid, c.escape(val));
    }
  }

  lemma CleanConcat(a: seq<string>, b: seq<string>)
    requires forall i :: 0 <= i < |a| ==> PieceText(a[i])
    requires forall i :: 0 <= i < |b| ==> PieceText(b[i])
    ensures forall i :: 0 <= i < |a + b| ==> PieceText((a + b)[i])
  {
    forall i | 0 <= i < |a + b|
      ensures PieceText((a + b)[i])
    {
      if i >= |a| {
        assert (a + b)[i] == b[i - |a|];
      }
    }
  }

  lemma {:induction false} JoinQueryText(pieces: seq<string>)
    requires forall i :: 0 <= i < |pieces| ==> PieceText(pieces[i])
    ensures QueryText(Join(pieces, '&'))
  {
    if |pieces| > 1 {
      JoinQueryText(pieces[1..]);
      var a, b := pieces[0], Join(pieces[1..], '&');
      var s := a + ['&'] + b;
      assert PieceText(a);
      forall i | 0 <= i < |s|
        ensures PieceChar(s[i]) || s[i] == '&'
      {
        if i < |a| { assert s[i] == a[i]; }
        else if i > |a| { assert s[i] == b[i - |a| - 1]; }
      }
    } else if |pieces| == 1 {
      assert PieceText(pieces[0]);
    }
  }

  lemma PiecesSplitBack(pieces: seq<string>)
    requires |pieces| >= 1 && pieces[|pieces| - 1] != ""
    requires forall i :: 0 <= i < |pieces| ==> PieceText(pieces[i])
    ensures Split(Join(pieces, '&'), '&') == pieces
  {
    forall i | 0 <= i < |pieces|
      ensures '&' !in pieces[i]
    {
      PieceTextHasNoAmpersand(pieces[i]);
    }
    SplitJoin(pieces, '&');
  }

  lemma PieceTextHasNoAmpersand(s: string)
    requires PieceText(s)
    ensures '&' !in s
  {
  }

  /** Reading the query `to_param_string` writes gives the parameters back. */
  lemma QueryRoundTrip(c: Codec, params: Params)
    requires GoodCodec(c) && Canonical(params) && params != []
    ensures ParamString(c, params) == "?" + Join(AllPieces(c, params), '&')
    ensures ParseQuery(c, ParamString(c, params)[1..]) == params
    ensures QueryText(ParamString(c, params)[1..])
  {
    forall i | 0 <= i < |params|
      ensures !Dropped(params[i].0, params[i].1)
    {
      assert CanonicalEntry(params[i].0, params[i].1);
    }
    FilterKeepsAll(params, (k, v) => !Dropped(k, v));
    var pieces := AllPieces(c, params);
    PiecesAreClean(c, params);
    PiecesSplitBack(pieces);
    ReadAllPieces(c, params);
    JoinQueryText(pieces);
  }
}
