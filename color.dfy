/** The integer part of the `Color` class of lib/iron/web/color.rb: four channels
    from 0 to 255 (red, green, blue and alpha), read from integers, hex strings or web
    colour strings such as `#f8019c`, and written back as `#RRGGBB` or `#RRGGBBAA`. */
module Colors {
  import opened Support

  /** A channel: every setter clamps into this range. */
  type Level = n: int | 0 <= n <= 255

  /** The four channels of a `Color`. */
  datatype ColorValue = ColorValue(r: Level, g: Level, b: Level, a: Level)

  /** A new `Color` before `initialize` looks at its arguments. */
  const White: ColorValue := ColorValue(255, 255, 255, 255)

  /** `HEXVAL`: the digits `to_hex` writes. */
  const HEXVAL: string := "0123456789ABCDEF"

  /** What a channel setter (`r=`, `g=`, `b=`, `a=`) is given: an integer or a string. */
  datatype Channel = Num(n: int) | Hex(text: string)

  /** One argument of `Color.new`, `Color.parse`, `set` or `==`. */
  datatype Arg = ColorArg(color: ColorValue) | IntArg(n: int) | TextArg(text: string) | NilArg

  // ---------------------------------------------------------------------------
  // Hex digits

  predicate IsHexDigit(c: char) { IsDigit(c) || 'A' <= c <= 'F' || 'a' <= c <= 'f' }

  /** The digits `parse` looks for once the text is upcased. */
  predicate IsUpperHex(c: char) { IsDigit(c) || 'A' <= c <= 'F' }

  function HexDigitValue(c: char): (v: nat)
    requires IsHexDigit(c)
    ensures v < 16
  {
    if IsDigit(c) then c as int - '0' as int
    else if 'A' <= c <= 'F' then c as int - 'A' as int + 10
    else c as int - 'a' as int + 10
  }

  /** The value of a string of hex digits, most significant digit first. */
  function HexNumber(s: string): nat
    requires forall i :: 0 <= i < |s| ==> IsHexDigit(s[i])
  {
    if s == [] then 0 else 16 * HexNumber(s[..|s| - 1]) + HexDigitValue(s[|s| - 1])
  }

  /** The white space Ruby's number parsing skips. */
  predicate NumberSpace(c: char) { IsSpace(c) && c != '\0' }

  /** Ruby's `String#hex`: leading white space, an optional sign, an optional `0x`,
      then the longest run of hex digits; 0 when there are none. */
  function StringHex(s: string): int {
    var t := s[RunLength(s, NumberSpace)..];
    var negative := t != [] && t[0] == '-';
    var u := if t != [] && (t[0] == '-' || t[0] == '+') then t[1..] else t;
    var w := if |u| >= 2 && u[0] == '0' && (u[1] == 'x' || u[1] == 'X') then u[2..] else u;
    var value: int := HexNumber(w[..RunLength(w, IsHexDigit)]);
    if negative then -value else value
  }

  // ---------------------------------------------------------------------------
  // Channels

  /** The clamp at the end of `from_hex`. */
  function Clamp(n: int): (r: Level)
    ensures 0 <= n <= 255 ==> r == n
    ensures n < 0 ==> r == 0
    ensures n > 255 ==> r == 255
  {
    if n < 0 then 0 else if n > 255 then 255 else n
  }

  /** `from_hex`: a string is read as hex, a one-character string doubled first
      (`'7'` is `'77'`); the result is clamped to 0..255. */
  function FromHex(v: Channel): Level {
    match v
    case Num(n) => Clamp(n)
    case Hex(s) => Clamp(StringHex(if |s| == 1 then s + s else s))
  }

  /** `to_hex`: two upper-case hex digits. */
  function ToHex(v: Level): (r: string)
    ensures |r| == 2 && IsUpperHex(r[0]) && IsUpperHex(r[1])
  {
    [HEXVAL[v / 16], HEXVAL[v % 16]]
  }

  lemma HexDigitOf(i: int)
    requires 0 <= i < 16
    ensures IsHexDigit(HEXVAL[i]) && HexDigitValue(HEXVAL[i]) == i
  {
    if i < 10 {
      assert HEXVAL[i] == "0123456789"[i];
    } else {
      assert HEXVAL[i] == "ABCDEF"[i - 10];
    }
  }

  /** `to_hex` writes the value in base 16. */
  lemma ToHexValue(v: Level)
    ensures HexNumber(ToHex(v)) == v
  {
    var s := ToHex(v);
    HexDigitOf(v / 16);
    HexDigitOf(v % 16);
    assert s[..1] == [s[0]] && [s[0]][..0] == [];
    assert HexNumber(s[..1]) == HexDigitValue(s[0]);
    assert HexNumber(s) == 16 * HexNumber(s[..1]) + HexDigitValue(s[1]);
  }

  /** `from_hex` reads back what `to_hex` writes. */
  lemma FromHexToHex(v: Level)
    ensures FromHex(Hex(ToHex(v))) == v
  {
    var s := ToHex(v);
    HexDigitOf(v / 16);
    HexDigitOf(v % 16);
    assert RunLength(s, NumberSpace) == 0;
    assert s[0..] == s;
    assert s[1] != 'x' && s[1] != 'X';
    RunLengthOf(s, "", IsHexDigit);
    assert s + "" == s && s[..2] == s;
    ToHexValue(v);
  }

  /** `from_hex` doubles a single hex digit: `'7'` gives 119 and `'f'` gives 255. */
  lemma FromHexSingle(c: char)
    requires IsHexDigit(c)
    ensures FromHex(Hex([c])) == 17 * HexDigitValue(c) == Doubled(c)
  {
    var s := [c] + [c];
    assert RunLength(s, NumberSpace) == 0;
    assert s[0..] == s;
    RunLengthOf(s, "", IsHexDigit);
    assert s + "" == s && s[..2] == s;
    assert s[1] != 'x' && s[1] != 'X';
    assert s[..1] == [c] && [c][..0] == [];
    assert HexNumber(s[..1]) == HexDigitValue(c);
    assert HexNumber(s) == 16 * HexNumber(s[..1]) + HexDigitValue(c);
  }

  // ---------------------------------------------------------------------------
  // Writing

  predicate IsOpaque(c: ColorValue) { c.a == 255 }
  predicate IsTrans(c: ColorValue) { c.a != 255 }
  predicate IsGrayscale(c: ColorValue) { c.r == c.g && c.g == c.b }

  /** `to_rgb(add_hash)`. */
  function ToRgb(c: ColorValue, addHash: bool): string {
    (if addHash then "#" else "") + ToHex(c.r) + ToHex(c.g) + ToHex(c.b)
  }

  /** `to_rgba(add_hash)`. */
  function ToRgba(c: ColorValue, addHash: bool): string {
    ToRgb(c, addHash) + ToHex(c.a)
  }

  /** `to_s(add_hash)`: the alpha channel is written only when it is not 255. */
  function ToS(c: ColorValue, addHash: bool): (r: string)
    ensures |r| == (if addHash then 1 else 0) + (if IsOpaque(c) then 6 else 8)
    ensures addHash <==> r[0] == '#'
  {
    if IsTrans(c) then ToRgba(c, addHash) else ToRgb(c, addHash)
  }

  // ---------------------------------------------------------------------------
  // Reading

  function UpcaseChar(c: char): char {
    if IsLower(c) then (c as int - 32) as char else c
  }

  /** `upcase`, on ASCII letters. */
  function Upcase(s: string): (r: string)
    ensures |r| == |s|
    ensures forall i :: 0 <= i < |s| ==> r[i] == UpcaseChar(s[i])
  {
    seq(|s|, i requires 0 <= i < |s| => UpcaseChar(s[i]))
  }

  /** `str[/[0-9A-F]{3,8}/] || ''`: the leftmost run of at least three hex digits,
      cut after eight. */
  function FirstHexRun(s: string): (r: string)
    ensures r == "" || 3 <= |r| <= 8
    ensures forall i :: 0 <= i < |r| ==> IsUpperHex(r[i])
    decreases |s|
  {
    if s == [] then ""
    else
      var n := RunLength(s, IsUpperHex);
      if n >= 3 then s[..if n < 8 then n else 8] else FirstHexRun(s[1..])
  }

  /** Three hex digits start at `i`: where `[0-9A-F]{3,8}` can match. */
  predicate HexRunAt(s: string, i: nat) {
    i + 3 <= |s| && IsUpperHex(s[i]) && IsUpperHex(s[i + 1]) && IsUpperHex(s[i + 2])
  }

  /** The channels of a string of 3, 4, 6 or 8 hex digits: one digit each or two
      digits each; the alpha is 255 when it is missing. */
  function ChannelsOf(str: string): ColorValue
    requires |str| in {3, 4, 6, 8}
  {
    if |str| <= 4 then
      ColorValue(FromHex(Hex([str[0]])), FromHex(Hex([str[1]])), FromHex(Hex([str[2]])),
                 if |str| == 4 then FromHex(Hex([str[3]])) else 255)
    else
      ColorValue(FromHex(Hex([str[0], str[1]])), FromHex(Hex([str[2], str[3]])), FromHex(Hex([str[4], str[5]])),
                 if |str| == 8 then FromHex(Hex([str[6], str[7]])) else 255)
  }

  /** `parse` of a value that is not a Color, a Symbol or an Integer: its text,
      upcased, gives a colour exactly when its first run of hex digits has 3, 4, 6 or
      8 of them. */
  function ParseText(s: string): (r: Option<ColorValue>)
    ensures r.Some? <==> |FirstHexRun(Upcase(s))| in {3, 4, 6, 8}
  {
    var str := FirstHexRun(Upcase(s));
    if |str| in {3, 4, 6, 8} then Some(ChannelsOf(str)) else None
  }

  /** `parse` with one argument: a Color as it is, an integer as a grey, anything
      else through its text (`nil.to_s` is empty). */
  function ParseOne(arg: Arg): (r: Option<ColorValue>)
    ensures arg.ColorArg? ==> r == Some(arg.color)
    ensures arg.IntArg? ==> r == Some(ColorValue(Clamp(arg.n), Clamp(arg.n), Clamp(arg.n), 255))
    ensures arg.IntArg? ==> FromChannels([arg, arg, arg]) == Ok(r.value) && IsGrayscale(r.value)
    ensures arg.TextArg? ==> r == ParseText(arg.text)
    ensures arg.NilArg? ==> r.None?
  {
    match arg
    case ColorArg(c) => Some(c)
    case IntArg(n) => Some(ColorValue(Clamp(n), Clamp(n), Clamp(n), 255))
    case TextArg(s) => ParseText(s)
    case NilArg => ParseText("")
  }

  /** What a channel setter makes of an argument: `from_hex` compares a nil or a
      Color with `<`, which neither has. */
  function ChannelOf(arg: Arg): Result<Channel, RubyError> {
    match arg
    case IntArg(n) => Ok(Num(n))
    case TextArg(s) => Ok(Hex(s))
    case _ => Err(NoMethodError("<"))
  }

  /** `initialize` with three or four arguments: the setters in turn; a missing or
      nil alpha leaves it at 255. */
  function FromChannels(args: seq<Arg>): (r: Result<ColorValue, RubyError>)
    requires 3 <= |args| <= 4
    ensures r.Ok? <==> ChannelOf(args[0]).Ok? && ChannelOf(args[1]).Ok? && ChannelOf(args[2]).Ok? &&
                       (|args| == 4 && !args[3].NilArg? ==> ChannelOf(args[3]).Ok?)
    ensures r.Ok? && (|args| == 3 || args[3].NilArg?) ==> IsOpaque(r.value)
    ensures r.Ok? ==> r.value.r == FromHex(ChannelOf(args[0]).value) &&
                      r.value.g == FromHex(ChannelOf(args[1]).value) &&
                      r.value.b == FromHex(ChannelOf(args[2]).value)
    ensures r.Ok? && |args| == 4 && !args[3].NilArg? ==> r.value.a == FromHex(ChannelOf(args[3]).value)
    ensures r.Err? ==> r.error == NoMethodError("<")
  {
    var r, g, b := ChannelOf(args[0]), ChannelOf(args[1]), ChannelOf(args[2]);
    if r.Err? then Err(r.error)
    else if g.Err? then Err(g.error)
    else if b.Err? then Err(b.error)
    else if |args| == 4 && !args[3].NilArg? then
      var a := ChannelOf(args[3]);
      if a.Err? then Err(a.error)
      else Ok(ColorValue(FromHex(r.value), FromHex(g.value), FromHex(b.value), FromHex(a.value)))
    else Ok(ColorValue(FromHex(r.value), FromHex(g.value), FromHex(b.value), 255))
  }

  /** `Color.parse(*args)` and `rgb(*args)`: nil for no arguments and for two or more
      than four; three or four make a new Color. */
  function Parse(args: seq<Arg>): (r: Result<Option<ColorValue>, RubyError>)
    ensures !(3 <= |args| <= 4) ==> r.Ok?
    ensures |args| == 0 || |args| == 2 || |args| > 4 ==> r == Ok(None)
  {
    if |args| == 0 then Ok(None)
    else if |args| == 1 then Ok(ParseOne(args[0]))
    else if |args| == 3 || |args| == 4 then
      match FromChannels(args)
      case Ok(c) => Ok(Some(c))
      case Err(e) => Err(e)
    else Ok(None)
  }

  /** `set(*args)` on the channels `c`: unchanged when `parse` gives nil. */
  function Assigned(c: ColorValue, args: seq<Arg>): (r: Result<ColorValue, RubyError>)
    ensures r.Err? <==> Parse(args).Err?
    ensures Parse(args) == Ok(None) ==> r == Ok(c)
    ensures Parse(args).Ok? && Parse(args).value.Some? ==> r == Ok(Parse(args).value.value)
  {
    match Parse(args)
    case Err(e) => Err(e)
    case Ok(None) => Ok(c)
    case Ok(Some(v)) => Ok(v)
  }

  /** `Color.new(*args)`. */
  function Created(args: seq<Arg>): (r: Result<ColorValue, RubyError>)
    ensures |args| == 0 ==> r == Ok(White)
    ensures !(3 <= |args| <= 4) ==> r.Ok?
  {
    if 3 <= |args| <= 4 then FromChannels(args) else Assigned(White, args)
  }

  /** `==(val)`: false when `val` does not parse, else all four channels agree. */
  predicate Equals(c: ColorValue, val: Arg) {
    ParseOne(val).Some? && ParseOne(val).value == c
  }

  // ---------------------------------------------------------------------------
  // Round trip

  /** Upper-case hex digits and `#` are left alone by `upcase`. */
  lemma UpcaseKeeps(s: string)
    requires forall i :: 0 <= i < |s| ==> IsUpperHex(s[i]) || s[i] == '#'
    ensures Upcase(s) == s
  {
  }

  /** A run of three to eight hex digits, after an optional `#`, is the run `parse`
      finds. */
  lemma FirstHexRunOf(h: string, addHash: bool)
    requires 3 <= |h| <= 8
    requires forall i :: 0 <= i < |h| ==> IsUpperHex(h[i])
    ensures FirstHexRun((if addHash then "#" else "") + h) == h
  {
    RunLengthOf(h, "", IsUpperHex);
    assert h + "" == h && h[..|h|] == h;
    if addHash {
      var s := "#" + h;
      assert s[1..] == h;
      assert RunLength(s, IsUpperHex) == 0;
    } else {
      assert "" + h == h;
    }
  }

  /** The hex digits `to_s` writes. */
  function HexPart(c: ColorValue): (r: string)
    ensures |r| == (if IsOpaque(c) then 6 else 8)
  {
    ToHex(c.r) + ToHex(c.g) + ToHex(c.b) + (if IsOpaque(c) then "" else ToHex(c.a))
  }

  lemma ToSHexPart(c: ColorValue, addHash: bool)
    ensures ToS(c, addHash) == (if addHash then "#" else "") + HexPart(c)
    ensures forall i :: 0 <= i < |HexPart(c)| ==> IsUpperHex(HexPart(c)[i])
  {
    var h := HexPart(c);
    forall i | 0 <= i < |h|
      ensures IsUpperHex(h[i])
    {
      var rgb := ToHex(c.r) + ToHex(c.g) + ToHex(c.b);
      if i < 2 {
        assert h[i] == ToHex(c.r)[i];
      } else if i < 4 {
        assert h[i] == ToHex(c.g)[i - 2];
      } else if i < 6 {
        assert h[i] == rgb[i] == ToHex(c.b)[i - 4];
      } else {
        assert h[i] == ToHex(c.a)[i - 6];
      }
    }
  }

  /** The pairs of digits in `HexPart` are the channels' `to_hex`. */
  lemma HexPartPairs(c: ColorValue)
    ensures HexPart(c)[0..2] == ToHex(c.r) && HexPart(c)[2..4] == ToHex(c.g) && HexPart(c)[4..6] == ToHex(c.b)
    ensures !IsOpaque(c) ==> HexPart(c)[6..8] == ToHex(c.a)
  {
    var rgb := ToHex(c.r) + ToHex(c.g) + ToHex(c.b);
    if !IsOpaque(c) {
      assert HexPart(c) == rgb + ToHex(c.a);
      assert (rgb + ToHex(c.a))[6..8] == ToHex(c.a);
    }
  }

  /** `parse` reads back what `to_s` writes, with or without the `#`. */
  lemma ParseToS(c: ColorValue, addHash: bool)
    ensures ParseText(ToS(c, addHash)) == Some(c)
  {
    var h := HexPart(c);
    var s := ToS(c, addHash);
    ToSHexPart(c, addHash);
    UpcaseKeeps(s);
    FirstHexRunOf(h, addHash);
    HexPartPairs(c);
    FromHexToHex(c.r);
    FromHexToHex(c.g);
    FromHexToHex(c.b);
    FromHexToHex(c.a);
  }

  /** A colour equals its own web string: `Color.new('aaa') == '#AAAAAA'`. */
  lemma EqualsOwnString(c: ColorValue)
    ensures Equals(c, TextArg(ToS(c, true)))
  {
    ParseToS(c, true);
  }

  /** `Color.new(r, g, b)` written out and read back gives the clamped channels. */
  lemma CreatedRoundTrip(r: int, g: int, b: int)
    ensures Created([IntArg(r), IntArg(g), IntArg(b)]) == Ok(ColorValue(Clamp(r), Clamp(g), Clamp(b), 255))
    ensures ParseText(ToS(ColorValue(Clamp(r), Clamp(g), Clamp(b), 255), true)) ==
            Some(ColorValue(Clamp(r), Clamp(g), Clamp(b), 255))
  {
    ParseToS(ColorValue(Clamp(r), Clamp(g), Clamp(b), 255), true);
  }

  /** Upper and lower case read alike. */
  lemma ParseIgnoresCase(s: string, t: string)
    requires Upcase(s) == Upcase(t)
    ensures ParseText(s) == ParseText(t)
  {
  }

  /** `Color.new('#f8019c') == Color.new(248, 1, 156)`. */
  lemma WebColorExample()
    ensures ParseText("#f8019c") == Some(ColorValue(248, 1, 156, 255))
  {
    WebColorString();
    UpcaseExample();
    ParseWritten("#f8019c", ColorValue(248, 1, 156, 255), true);
  }

  /** Any text that upcases to what `to_s` writes is read as that colour. */
  lemma ParseWritten(s: string, c: ColorValue, addHash: bool)
    requires Upcase(s) == ToS(c, addHash)
    ensures ParseText(s) == Some(c)
  {
    ParseToS(c, addHash);
    ToSHexPart(c, addHash);
    UpcaseKeeps(ToS(c, addHash));
    ParseIgnoresCase(s, ToS(c, addHash));
  }

  lemma WebColorString()
    ensures ToS(ColorValue(248, 1, 156, 255), true) == "#F8019C"
  {
    assert ToHex(248) == "F8" by { assert HEXVAL[15] == 'F' && HEXVAL[8] == '8'; }
    assert ToHex(1) == "01" by { assert HEXVAL[0] == '0' && HEXVAL[1] == '1'; }
    assert ToHex(156) == "9C" by { assert HEXVAL[9] == '9' && HEXVAL[12] == 'C'; }
  }

  lemma UpcaseExample()
    ensures Upcase("#f8019c") == "#F8019C"
  {
    var s, t := "#f8019c", "#F8019C";
    forall i | 0 <= i < 7
      ensures UpcaseChar(s[i]) == t[i]
    {
    }
  }

  /** `Color.parse(1, 2, 3).to_s == '#010203'`. */
  lemma OpaqueStringExample()
    ensures ToS(ColorValue(1, 2, 3, 255), true) == "#010203"
  {
    assert ToHex(1) == "01" by { assert HEXVAL[0] == '0' && HEXVAL[1] == '1'; }
    assert ToHex(2) == "02" by { assert HEXVAL[2] == '2'; }
    assert ToHex(3) == "03" by { assert HEXVAL[3] == '3'; }
  }

  /** `rgb('abc')` with its alpha set to 38 is written `#AABBCC26`. */
  lemma TransStringExample()
    ensures ToS(ColorValue(170, 187, 204, 38), true) == "#AABBCC26"
  {
    assert ToHex(170) == "AA" by { assert HEXVAL[10] == 'A'; }
    assert ToHex(187) == "BB" by { assert HEXVAL[11] == 'B'; }
    assert ToHex(204) == "CC" by { assert HEXVAL[12] == 'C'; }
    assert ToHex(38) == "26" by { assert HEXVAL[2] == '2' && HEXVAL[6] == '6'; }
  }

  /** Three digits are read one per channel, each doubled. */
  lemma ShortFormDoubles(x: char, y: char, z: char)
    requires IsUpperHex(x) && IsUpperHex(y) && IsUpperHex(z)
    ensures ParseText([x, y, z]) ==
            Some(ColorValue(17 * HexDigitValue(x), 17 * HexDigitValue(y), 17 * HexDigitValue(z), 255))
  {
    var s := [x, y, z];
    UpcaseKeeps(s);
    FirstHexRunOf(s, false);
    assert "" + s == s;
    FromHexSingle(x);
    FromHexSingle(y);
    FromHexSingle(z);
  }

  // ---------------------------------------------------------------------------
  // What `parse` finds

  lemma HexRunShift(s: string, i: nat)
    requires s != []
    ensures HexRunAt(s, i + 1) <==> HexRunAt(s[1..], i)
  {
    if i + 4 <= |s| {
      assert s[1..][i] == s[i + 1] && s[1..][i + 1] == s[i + 2] && s[1..][i + 2] == s[i + 3];
    }
  }

  /** Three hex digits at the front make the run start there. */
  lemma RunAtFront(s: string)
    ensures RunLength(s, IsUpperHex) >= 3 <==> HexRunAt(s, 0)
  {
  }

  /** `str[/[0-9A-F]{3,8}/]` is missing exactly when no three hex digits stand
      together. */
  lemma {:induction false} FirstHexRunNone(s: string)
    ensures FirstHexRun(s) == "" <==> forall i :: 0 <= i < |s| ==> !HexRunAt(s, i)
    decreases |s|
  {
    if s != [] {
      RunAtFront(s);
      if !HexRunAt(s, 0) {
        FirstHexRunNone(s[1..]);
        forall i | 0 <= i < |s[1..]|
          ensures HexRunAt(s, i + 1) <==> HexRunAt(s[1..], i)
        {
          HexRunShift(s, i);
        }
        if forall i :: 0 <= i < |s[1..]| ==> !HexRunAt(s[1..], i) {
          forall i | 0 <= i < |s|
            ensures !HexRunAt(s, i)
          {
            if i > 0 { assert !HexRunAt(s[1..], i - 1); }
          }
        }
      }
    }
  }

  /** The match is taken at the leftmost place where three hex digits stand
      together, and runs on as long as the digits do, up to eight of them. */
  lemma {:induction false} FirstHexRunLeftmost(s: string, i: nat)
    requires HexRunAt(s, i)
    requires forall k :: 0 <= k < i ==> !HexRunAt(s, k)
    ensures var n := RunLength(s[i..], IsUpperHex);
            n >= 3 && FirstHexRun(s) == s[i..i + (if n < 8 then n else 8)]
    decreases i
  {
    RunAtFront(s);
    if i == 0 {
      assert s[0..] == s;
    } else {
      assert !HexRunAt(s, 0);
      forall k | 0 <= k < i - 1
        ensures !HexRunAt(s[1..], k)
      {
        HexRunShift(s, k);
      }
      HexRunShift(s, i - 1);
      FirstHexRunLeftmost(s[1..], i - 1);
      assert s[1..][i - 1..] == s[i..];
    }
  }

  /** A string of hex digits is read by `from_hex` as its value, clamped; a single
      digit is doubled first. */
  lemma FromHexDigits(s: string)
    requires |s| >= 1
    requires forall i :: 0 <= i < |s| ==> IsHexDigit(s[i])
    ensures FromHex(Hex(s)) == Clamp(HexNumber(if |s| == 1 then s + s else s))
  {
    if |s| == 1 {
      assert IsHexDigit(s[0]);
      StringHexDigits(s + s);
    } else {
      StringHexDigits(s);
    }
  }

  /** `String#hex` of two or more hex digits is their value: no white space, sign or
      `0x` to skip, and the run of digits is the whole string. */
  lemma StringHexDigits(w: string)
    requires |w| >= 2
    requires forall i :: 0 <= i < |w| ==> IsHexDigit(w[i])
    ensures StringHex(w) == HexNumber(w)
  {
    assert IsHexDigit(w[0]) && IsHexDigit(w[1]);
    assert RunLength(w, NumberSpace) == 0;
    assert w[0..] == w;
    RunLengthOf(w, "", IsHexDigit);
    assert w + "" == w && w[..|w|] == w;
  }

  /** The level a single digit stands for: the digit written twice. */
  function Doubled(x: char): (v: Level)
    requires IsHexDigit(x)
    ensures v % 17 == 0 && v / 17 == HexDigitValue(x)
  {
    17 * HexDigitValue(x)
  }

  /** The level a pair of digits stands for. */
  function Paired(x: char, y: char): (v: Level)
    requires IsHexDigit(x) && IsHexDigit(y)
    ensures v / 16 == HexDigitValue(x) && v % 16 == HexDigitValue(y)
  {
    16 * HexDigitValue(x) + HexDigitValue(y)
  }

  /** `from_hex` of two hex digits is their value, which needs no clamping. */
  lemma HexPairValue(x: char, y: char)
    requires IsHexDigit(x) && IsHexDigit(y)
    ensures FromHex(Hex([x, y])) == Paired(x, y)
  {
    var s := [x, y];
    FromHexDigits(s);
    assert s[..1] == [x] && [x][..0] == [];
    assert HexNumber([x]) == HexDigitValue(x);
    assert HexNumber(s) == 16 * HexDigitValue(x) + HexDigitValue(y);
  }

  /** What `parse` makes of a run of 3 or 4 digits: one digit per channel, written
      twice; an alpha that is not written is 255. */
  lemma ShortFormChannels(str: string)
    requires |str| == 3 || |str| == 4
    requires IsUpperHex(str[0]) && IsUpperHex(str[1]) && IsUpperHex(str[2])
    requires |str| == 4 ==> IsUpperHex(str[3])
    ensures ChannelsOf(str) == ColorValue(Doubled(str[0]), Doubled(str[1]), Doubled(str[2]),
                                          if |str| == 4 then Doubled(str[3]) else 255)
  {
    FromHexSingle(str[0]);
    FromHexSingle(str[1]);
    FromHexSingle(str[2]);
    if |str| == 4 { FromHexSingle(str[3]); }
  }

  /** What `parse` makes of a run of 6 or 8 digits: a pair of digits per channel; an
      alpha that is not written is 255. */
  lemma LongFormChannels(str: string)
    requires |str| == 6 || |str| == 8
    requires IsUpperHex(str[0]) && IsUpperHex(str[1]) && IsUpperHex(str[2])
    requires IsUpperHex(str[3]) && IsUpperHex(str[4]) && IsUpperHex(str[5])
    requires |str| == 8 ==> IsUpperHex(str[6]) && IsUpperHex(str[7])
    ensures ChannelsOf(str) == ColorValue(Paired(str[0], str[1]), Paired(str[2], str[3]), Paired(str[4], str[5]),
                                          if |str| == 8 then Paired(str[6], str[7]) else 255)
  {
    HexPairValue(str[0], str[1]);
    HexPairValue(str[2], str[3]);
    HexPairValue(str[4], str[5]);
    if |str| == 8 { HexPairValue(str[6], str[7]); }
  }

  /** Positions where no three hex digits start can be dropped from the front. */
  lemma {:induction false} FirstHexRunDrop(s: string, k: nat)
    requires k <= |s|
    requires forall i :: 0 <= i < k ==> !HexRunAt(s, i)
    ensures FirstHexRun(s) == FirstHexRun(s[k..])
    decreases k
  {
    if k == 0 {
      assert s[0..] == s;
    } else {
      RunAtFront(s);
      assert !HexRunAt(s, 0);
      forall i | 0 <= i < k - 1
        ensures !HexRunAt(s[1..], i)
      {
        HexRunShift(s, i);
      }
      FirstHexRunDrop(s[1..], k - 1);
      assert s[1..][k - 1..] == s[k..];
    }
  }

  /** Fewer than three characters before one that is not a hex digit are passed
      over: `Color.parse('12 AABBCC')` reads `AABBCC`. */
  lemma ShortRunSkipped(p: string, c: char, t: string)
    requires |p| < 3 && !IsUpperHex(UpcaseChar(c))
    ensures ParseText(p + [c] + t) == ParseText(t)
  {
    var s := Upcase(p + [c] + t);
    var k := |p| + 1;
    assert s[k..] == Upcase(t) by {
      forall i | 0 <= i < |t|
        ensures s[k..][i] == Upcase(t)[i]
      {
        assert (p + [c] + t)[k + i] == t[i];
      }
    }
    assert s[|p|] == UpcaseChar(c) by { assert (p + [c] + t)[|p|] == c; }
    FirstHexRunDrop(s, k);
  }

  /** The match stops after eight digits, whatever follows them:
      `Color.parse('AABBCCDDE')` is `Color.parse('AABBCCDD')`. */
  lemma LongRunCut(h: string, t: string)
    requires |h| == 8
    requires forall i :: 0 <= i < |h| ==> IsUpperHex(h[i])
    ensures ParseText(h + t) == ParseText(h)
  {
    var s := Upcase(h + t);
    assert s[..8] == h by {
      forall i | 0 <= i < 8
        ensures s[i] == h[i]
      {
        assert (h + t)[i] == h[i];
      }
    }
    EightDigitsFirst(s, h);
    UpcaseKeeps(h);
    FirstHexRunOf(h, false);
    assert "" + h == h;
  }

  lemma EightDigitsFirst(s: string, h: string)
    requires |h| == 8 && |s| >= 8 && s[..8] == h
    requires forall i :: 0 <= i < |h| ==> IsUpperHex(h[i])
    ensures FirstHexRun(s) == h
  {
    assert s[0] == h[0] && s[1] == h[1] && s[2] == h[2];
    assert RunLength(s, IsUpperHex) >= 8 by {
      forall k | 0 <= k < 8
        ensures IsUpperHex(s[k])
      {
        assert s[k] == s[..8][k];
      }
    }
    RunAtFront(s);
    FirstHexRunLeftmost(s, 0);
    assert s[0..] == s;
  }

  /** Four digits carry an alpha, each digit written twice: `#abcd` is 0xAA, 0xBB,
      0xCC with the alpha 0xDD. */
  lemma FourDigitForm(w: char, x: char, y: char, z: char)
    requires IsUpperHex(w) && IsUpperHex(x) && IsUpperHex(y) && IsUpperHex(z)
    ensures ParseText([w, x, y, z]) == Some(ColorValue(Doubled(w), Doubled(x), Doubled(y), Doubled(z)))
  {
    var s := [w, x, y, z];
    UpcaseKeeps(s);
    FirstHexRunOf(s, false);
    assert "" + s == s;
    ShortFormChannels(s);
  }

  /** `to_rgba` is read back as the colour whatever its alpha, and `to_rgb` as the
      colour made opaque. */
  lemma ParseRgba(c: ColorValue, addHash: bool)
    ensures ParseText(ToRgba(c, addHash)) == Some(c)
    ensures ParseText(ToRgb(c, addHash)) == Some(c.(a := 255))
  {
    var o := c.(a := 255);
    assert ToRgb(c, addHash) == ToS(o, addHash);
    ParseToS(o, addHash);
    if IsTrans(c) {
      ParseToS(c, addHash);
    } else {
      assert ToRgba(c, addHash) == ToS(o, addHash) + "FF" by {
        assert ToHex(255) == "FF" by { assert HEXVAL[15] == 'F'; }
      }
      RgbaOpaque(c, addHash);
    }
  }

  lemma RgbaOpaque(c: ColorValue, addHash: bool)
    requires IsOpaque(c)
    ensures ParseText(ToS(c, addHash) + "FF") == Some(c)
  {
    var h := HexPart(c) + "FF";
    var s := (if addHash then "#" else "") + h;
    ToSHexPart(c, addHash);
    assert ToS(c, addHash) + "FF" == s;
    assert forall i :: 0 <= i < |h| ==> IsUpperHex(h[i]) by {
      forall i | 0 <= i < |h|
        ensures IsUpperHex(h[i])
      {
        if i < 6 { assert h[i] == HexPart(c)[i]; }
      }
    }
    UpcaseKeeps(s);
    FirstHexRunOf(h, addHash);
    HexPartPairs(c);
    assert h[0..2] == HexPart(c)[0..2] && h[2..4] == HexPart(c)[2..4] && h[4..6] == HexPart(c)[4..6];
    assert h[6..8] == "FF";
    FromHexToHex(c.r);
    FromHexToHex(c.g);
    FromHexToHex(c.b);
    FromHexToHex(255);
    assert ToHex(255) == "FF" by { assert HEXVAL[15] == 'F'; }
  }

  /** `==` against another colour compares channels; against a web string it is
      true exactly for the colour the string was written from. */
  lemma EqualsMeaning(c: ColorValue, d: ColorValue, addHash: bool)
    ensures Equals(c, ColorArg(d)) <==> c == d
    ensures Equals(c, TextArg(ToS(d, addHash))) <==> c == d
    ensures !Equals(c, NilArg)
  {
    assert Upcase("") == "";
    ParseToS(d, addHash);
  }

  // ---------------------------------------------------------------------------

  /** A colour whose channels the setters update in place. */
  class Color {
    var r: Level
    var g: Level
    var b: Level
    var a: Level

    function Value(): ColorValue
      reads this
    {
      ColorValue(r, g, b, a)
    }

    /** The start of `initialize`: every channel 255. */
    constructor Init()
      ensures Value() == White
    {
      r, g, b, a := 255, 255, 255, 255;
    }

    /** `Color.new(*args)`: three or four arguments go to the setters, anything else
        to `set`; a nil or a Color given as a channel raises. */
    static method New(args: seq<Arg>) returns (res: Result<Color, RubyError>)
      ensures Created(args).Err? ==> res == Err(Created(args).error)
      ensures Created(args).Ok? ==> res.Ok? && fresh(res.value) && res.value.Value() == Created(args).value
    {
      var c := new Color.Init();
      if 3 <= |args| <= 4 {
        var ch := ChannelOf(args[0]);
        if ch.Err? { return Err(ch.error); }
        c.SetR(ch.value);
        ch := ChannelOf(args[1]);
        if ch.Err? { return Err(ch.error); }
        c.SetG(ch.value);
        ch := ChannelOf(args[2]);
        if ch.Err? { return Err(ch.error); }
        c.SetB(ch.value);
        if |args| == 4 && !args[3].NilArg? {
          ch := ChannelOf(args[3]);
          if ch.Err? { return Err(ch.error); }
          c.SetA(ch.value);
        }
      } else {
        var error := c.Set(args);
        // `parse` raises only when it makes a new Color from three or four arguments.
        assert error.None?;
      }
      return Ok(c);
    }

    /** `r=`. */
    method SetR(v: Channel)
      modifies this
      ensures Value() == old(Value()).(r := FromHex(v))
    {
      r := FromHex(v);
    }

    /** `g=`. */
    method SetG(v: Channel)
      modifies this
      ensures Value() == old(Value()).(g := FromHex(v))
    {
      g := FromHex(v);
    }

    /** `b=`. */
    method SetB(v: Channel)
      modifies this
      ensures Value() == old(Value()).(b := FromHex(v))
    {
      b := FromHex(v);
    }

    /** `a=`. */
    method SetA(v: Channel)
      modifies this
      ensures Value() == old(Value()).(a := FromHex(v))
    {
      a := FromHex(v);
    }

    /** `set(*args)`: copies the parsed channels, or leaves them when `parse` gives
        nil; an exception from `parse` leaves them too. */
    method Set(args: seq<Arg>) returns (error: Option<RubyError>)
      modifies this
      ensures Assigned(old(Value()), args) == if error.Some? then Err(error.value) else Ok(Value())
      ensures error.Some? ==> Value() == old(Value())
    {
      var p := Parse(args);
      if p.Err? {
        return Some(p.error);
      }
      if p.value.Some? {
        var v := p.value.value;
        SetR(Num(v.r));
        SetG(Num(v.g));
        SetB(Num(v.b));
        SetA(Num(v.a));
      }
      return None;
    }

    /** `==(val)`. */
    method EqualTo(val: Arg) returns (same: bool)
      ensures same <==> Equals(Value(), val)
    {
      var v := ParseOne(val);
      if v.None? {
        return false;
      }
      same := r == v.value.r && g == v.value.g && b == v.value.b && a == v.value.a;
    }

    /** `to_s(add_hash)`. */
    method ToString(addHash: bool) returns (s: string)
      ensures s == ToS(Value(), addHash)
      ensures ParseText(s) == Some(Value())
    {
      ParseToS(Value(), addHash);
      if a != 255 {
        s := ToRgba(Value(), addHash);
      } else {
        s := ToRgb(Value(), addHash);
      }
    }

    /** `opaque?`. */
    method Opaque() returns (o: bool)
      ensures o <==> a == 255
    {
      o := a == 255;
    }

    /** `trans?`. */
    method Trans() returns (t: bool)
      ensures t <==> a != 255
    {
      t := a != 255;
    }

    /** `grayscale?`. */
    method Grayscale() returns (gray: bool)
      ensures gray <==> r == g && g == b
    {
      gray := r == g && g == b;
    }
  }
}
