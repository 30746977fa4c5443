/** `HtmlSafeString` of lib/iron/web/string.rb: a string already fit for HTML, which
    escapes whatever unsafe text is concatenated onto it. */
module HtmlSafeStrings {
  import opened SafeStrings
  import opened HtmlEscape

  /** `concat` on a value whose flag is `receiver.safe`: a plain receiver, or an
      already safe argument, takes the argument as it is; a safe receiver takes an
      unsafe argument through `escape_once`. The flag of the receiver never changes. */
  function ConcatValue(receiver: SafeString, value: SafeString): (r: SafeString)
    ensures r.safe == receiver.safe
    ensures |receiver.text| <= |r.text| && r.text[..|receiver.text|] == receiver.text
    ensures !IsHtmlSafe(receiver) || IsHtmlSafe(value) ==> r.text == receiver.text + value.text
    ensures IsHtmlSafe(receiver) && !IsHtmlSafe(value) ==> WellEscaped(r.text[|receiver.text|..])
  {
    if !IsHtmlSafe(receiver) || IsHtmlSafe(value) then
      SafeString(receiver.text + value.text, receiver.safe)
    else
      EscapedIsWellEscaped(value.text);
      var r := SafeString(receiver.text + EscapeOnce(value).text, receiver.safe);
      assert r.text[|receiver.text|..] == EscapeOnceText(value.text);
      r
  }

  /** Escaping a value before appending it to a safe string changes nothing: the
      string would have escaped it anyway. */
  lemma ConcatEscapedValue(receiver: SafeString, value: SafeString)
    requires IsHtmlSafe(receiver)
    ensures ConcatValue(receiver, EscapeOnce(value)) == ConcatValue(receiver, value)
  {
  }

  /** Nor is text escaped twice when an escaped value has lost its mark on the way
      (for instance by plain string concatenation). */
  lemma ConcatReescapedValue(receiver: SafeString, value: SafeString)
    requires IsHtmlSafe(receiver) && !IsHtmlSafe(value)
    ensures ConcatValue(receiver, Plain(EscapeOnce(value).text)) == ConcatValue(receiver, value)
  {
    EscapeOnceIdempotent(value);
  }

  /** A safe string whose text is well escaped stays so under every `concat` of an
      unsafe value or of a well-escaped safe one: no raw markup gets in unless a
      caller marks it safe. */
  lemma ConcatKeepsWellEscaped(receiver: SafeString, value: SafeString)
    requires IsHtmlSafe(receiver) && WellEscaped(receiver.text)
    requires !IsHtmlSafe(value) || WellEscaped(value.text)
    ensures WellEscaped(ConcatValue(receiver, value).text)
  {
    var r := ConcatValue(receiver, value);
    assert r.text == receiver.text + r.text[|receiver.text|..];
    WellEscapedConcat(receiver.text, r.text[|receiver.text|..]);
  }

  /** Appending pieces one at a time is not the same as appending them joined: the
      escaper looks ahead for entities, so `&` and `amp;` appended separately give
      `&amp;` followed by `amp;`, while `&amp;` appended at once is kept (see
      `ConcatJoined`). */
  lemma ConcatSeparately(amp: string, name: string)
    requires amp == "&" && name == "amp;"
    ensures ConcatValue(ConcatValue(SafeString("", true), Plain(amp)), Plain(name)).text == amp + name + name
  {
    EscapeLoneAmpersand();
    EscapeEntityName();
    assert amp + name == "&amp;";
    ConcatTwice(amp, name, amp + name, name);
  }

  /** Two plain strings appended one after the other to an empty safe string. */
  lemma ConcatTwice(a: string, b: string, ea: string, eb: string)
    requires EscapeOnceText(a) == ea && EscapeOnceText(b) == eb
    ensures ConcatValue(ConcatValue(SafeString("", true), Plain(a)), Plain(b)).text == ea + eb
  {
    ConcatPlain(SafeString("", true), a);
    assert "" + ea == ea;
    ConcatPlain(ConcatValue(SafeString("", true), Plain(a)), b);
  }

  /** A safe receiver takes plain text through `escape_once`. */
  lemma ConcatPlain(receiver: SafeString, x: string)
    requires receiver.safe
    ensures ConcatValue(receiver, Plain(x)).safe
    ensures ConcatValue(receiver, Plain(x)).text == receiver.text + EscapeOnceText(x)
  {
  }

  /** An entity appended whole is kept as it is. */
  lemma ConcatJoined()
    ensures ConcatValue(SafeString("", true), Plain("&amp;")).text == "&amp;"
  {
    EscapeWholeEntity();
    assert "" + "&amp;" == "&amp;";
  }

  lemma EscapeLoneAmpersand()
    ensures EscapeOnceText("&") == "&amp;"
  {
    assert !StartsEntity([]);
    assert Rewritten("&");
  }

  lemma EscapeEntityName()
    ensures EscapeOnceText("amp;") == "amp;"
  {
    assert !Rewritten("a") && !Rewritten("m") && !Rewritten("p") && !Rewritten(";");
    assert EscapeOnceText(";") == ";";
    assert EscapeOnceText("p;") == "p;";
    assert EscapeOnceText("mp;") == "mp;";
  }

  lemma EscapeWholeEntity()
    ensures EscapeOnceText("&amp;") == "&amp;"
  {
    assert NameRef("amp;");
    assert !Rewritten("&amp;");
    EscapeEntityName();
  }

  /** A string marked safe. Its flag is set when it is created and never changes. */
  class HtmlSafeString {
    var text: string

    /** `HtmlSafeString.new(s)`, as `String#html_safe` calls it. */
    constructor(s: string)
      ensures text == s
    {
      text := s;
    }

    /** The string as a value, with its flag. */
    function Value(): (v: SafeString)
      reads this
      ensures v.text == text && IsHtmlSafe(v)
    {
      SafeString(text, true)
    }

    /** `concat`: appends the argument, escaped unless it is safe. */
    method Concat(value: SafeString)
      modifies this
      ensures Value() == ConcatValue(old(Value()), value)
      ensures text == old(text) + EscapeOnce(value).text
    {
      text := text + EscapeOnce(value).text;
    }

    /** `<<`: the same as `concat`. */
    method Append(value: SafeString)
      modifies this
      ensures Value() == ConcatValue(old(Value()), value)
    {
      Concat(value);
    }

    /** `+`: a new safe string holding the concatenation; the receiver is not changed. */
    method Plus(other: SafeString) returns (r: HtmlSafeString)
      ensures fresh(r)
      ensures r.Value() == ConcatValue(Value(), other)
    {
      r := new HtmlSafeString(text);
      r.Concat(other);
    }
  }
}
