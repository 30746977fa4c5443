/** The `Url` class of lib/iron/web/url.rb: a URL taken apart into scheme, server,
    port, path, parameters and fragment (the components of section 3 of RFC 3986), put
    back together by `to_s`, and switched between absolute and relative form.

    The class-level settings `Url.default_server` and `Url.default_scheme` are a
    `Defaults` parameter; `CGI::escape`/`CGI::unescape` are the `Codec` of `UrlQuery`. */
module Urls {
  import opened Support
  import opened OrderedMaps
  import opened UrlQuery

  /** `Url.default_server` and the value given to `Url.default_scheme=`. */
  datatype Defaults = Defaults(server: Option<string>, scheme: Option<string>)

  /** `Url.default_scheme`: the setting, or `http`. */
  function DefaultScheme(d: Defaults): string {
    if d.scheme.Some? then d.scheme.value else "http"
  }

  const SECURE_SCHEMES: seq<string> := ["https", "sftp", "ssh"]
  const SECURE_SCHEME_MAPPING: map<string, string> := map["http" := "https", "ftp" := "sftp"]

  /** The fields of a `Url`. */
  datatype UrlValue = UrlValue(scheme: Option<string>, server: Option<string>, port: Option<nat>,
                               path: string, params: Params, fragment: string)

  /** What `initialize` sets before it calls `set`. */
  const Unset: UrlValue := UrlValue(None, None, None, "", [], "")

  // ---------------------------------------------------------------------------
  // Scanning

  predicate NotQueryStart(c: char) { c != '?' && c != '#' }
  predicate NotHash(c: char) { c != '#' }

  /** `^([^\?#]*)\??([^#]*)#?(.*)$`: the base up to the first `?` or `#`; after an
      optional `?`, the query up to the first `#`; after an optional `#`, the rest. */
  function SplitUrl(s: string): (r: (string, string, string))
    ensures '?' !in r.0 && '#' !in r.0 && '#' !in r.1
    ensures StartsWith(s, r.0)
  {
    var n := RunLength(s, NotQueryStart);
    var rest := s[n..];
    var rest2 := if rest != [] && rest[0] == '?' then rest[1..] else rest;
    var m := RunLength(rest2, NotHash);
    var after := rest2[m..];
    assert forall i :: 0 <= i < n ==> s[..n][i] == s[i];
    assert forall i :: 0 <= i < m ==> rest2[..m][i] == rest2[i];
    (s[..n], rest2[..m], if after != [] then after[1..] else "")
  }

  /** `SplitUrl` takes apart what is put together from a base, an optional query and an
      optional fragment. */
  lemma SplitUrlOf(b: string, hasQuery: bool, q: string, hasFragment: bool, f: string)
    requires '?' !in b && '#' !in b && '#' !in q
    requires !hasQuery ==> q == ""
    ensures SplitUrl(b + (if hasQuery then "?" + q else "") + (if hasFragment then "#" + f else "")) ==
            (b, q, if hasFragment then f else "")
  {
    var qs := if hasQuery then "?" + q else "";
    var fs := if hasFragment then "#" + f else "";
    assert b + qs + fs == b + (qs + fs);
    SplitBefore(b, qs + fs, NotQueryStart);
    var rest2 := if hasQuery then q + fs else fs;
    assert (if hasQuery then (qs + fs)[1..] else qs + fs) == rest2;
    SplitBefore(q, fs, NotHash);
    assert q + fs == rest2 || q == "";
    assert "" + fs == fs;
  }

  /** A run followed by a character that ends it is cut off exactly. */
  lemma SplitBefore(a: string, rest: string, p: char -> bool)
    requires forall i :: 0 <= i < |a| ==> p(a[i])
    requires rest == [] || !p(rest[0])
    ensures RunLength(a + rest, p) == |a|
    ensures (a + rest)[..|a|] == a && (a + rest)[|a|..] == rest
  {
    RunLengthOf(a, rest, p);
  }

  // ---------------------------------------------------------------------------
  // The base: scheme, server, port and path

  predicate SchemeChar(c: char) { IsLower(c) || c == '+' }
  predicate ServerChar(c: char) { IsLetter(c) || IsDigit(c) || c == '-' || c == '_' || c == '.' }

  /** `base.match(/^[a-z\+]*:\/\//)`. */
  predicate LooksAbsolute(base: string) {
    StartsWith(base[RunLength(base, SchemeChar)..], "://")
  }

  /** The captures of `^([a-z]*):\/\/([a-z0-9\-_\.]+)(:([0-9]+))?(\/.*)?` (ignoring
      case): scheme, server, the port's digits and the path. */
  datatype BaseParts = BaseParts(scheme: string, server: string, port: Option<string>, path: Option<string>)

  function MatchBase(base: string): (r: Option<BaseParts>)
    ensures r.Some? ==> PortDigits(r.value.port)
  {
    var n := RunLength(base, IsLetter);
    if !StartsWith(base[n..], "://") then None
    else
      var rest := base[n + 3..];
      var m := RunLength(rest, ServerChar);
      if m == 0 then None
      else Some(BaseParts(base[..n], rest[..m], PortPart(rest[m..]), PathPart(rest[m..])))
  }

  /** `(:([0-9]+))?` right after the server. */
  function PortPart(after: string): (r: Option<string>)
    ensures PortDigits(r)
  {
    if after != [] && after[0] == ':' && RunLength(after[1..], IsDigit) > 0
    then Some(after[1..1 + RunLength(after[1..], IsDigit)])
    else None
  }

  /** A captured port is made of decimal digits. */
  predicate PortDigits(digits: Option<string>) {
    digits.Some? ==> forall i :: 0 <= i < |digits.value| ==> IsDigit(digits.value[i])
  }

  /** `@port.blank? ? nil : @port.to_i` on the captured port digits. */
  function PortNumber(digits: Option<string>): (r: Option<nat>)
    requires PortDigits(digits)
    ensures r.Some? <==> digits.Some?
  {
    if digits.Some? then Some(DecimalValue(digits.value)) else None
  }

  /** `(\/.*)?` after the server and the port. */
  function PathPart(after: string): Option<string> {
    var tail := if PortPart(after).Some? then after[1 + |PortPart(after).value|..] else after;
    if tail != [] && tail[0] == '/' then Some(tail) else None
  }

  /** The fields a base gives: a base that does not look absolute becomes the path and
      leaves scheme, server and port as they were; one that looks absolute but does not
      match clears them. */
  function ParsedBase(u: UrlValue, base: string): (r: UrlValue)
    ensures r.params == u.params && r.fragment == u.fragment
    ensures !LooksAbsolute(base) ==> r == u.(path := base)
    ensures LooksAbsolute(base) ==> (r.server.Some? <==> MatchBase(base).Some?)
    ensures LooksAbsolute(base) && MatchBase(base).None? ==> r.scheme.None? && r.port.None? && r.path == ""
    ensures LooksAbsolute(base) && MatchBase(base).Some? ==>
              r.scheme == Some(MatchBase(base).value.scheme) && r.server == Some(MatchBase(base).value.server) &&
              r.port == PortNumber(MatchBase(base).value.port) &&
              r.path == (if MatchBase(base).value.path.Some? then MatchBase(base).value.path.value else "")
  {
    if !LooksAbsolute(base) then u.(path := base)
    else match MatchBase(base)
      case None => u.(scheme := None, server := None, port := None, path := "")
      case Some(parts) =>
        u.(scheme := Some(parts.scheme), server := Some(parts.server),
           port := PortNumber(parts.port),
           path := if parts.path.Some? then parts.path.value else "")
  }

  /** `set(url)`: strip, split, then read the base and the query. */
  function Parsed(u: UrlValue, c: Codec, url: Option<string>): (r: UrlValue)
    ensures r.params == ParseQuery(c, SplitUrl(Strip(if url.Some? then url.value else "")).1)
    ensures r.fragment == SplitUrl(Strip(if url.Some? then url.value else "")).2
    ensures var b := ParsedBase(u, SplitUrl(Strip(if url.Some? then url.value else "")).0);
            r.scheme == b.scheme && r.server == b.server && r.port == b.port && r.path == b.path
  {
    var parts := SplitUrl(Strip(if url.Some? then url.value else ""));
    ParsedBase(u, parts.0).(fragment := parts.2, params := ParseQuery(c, parts.1))
  }

  /** `set` with a relative URL keeps the server, scheme and port it had. */
  lemma RelativeSetKeepsServer(u: UrlValue, c: Codec, path: string)
    requires path != [] && path[0] == '/' && NoSpace(path)
    requires '?' !in path && '#' !in path
    ensures var r := Parsed(u, c, Some(path));
            r.server == u.server && r.scheme == u.scheme && r.port == u.port && r.path == path
  {
    StripUnchanged(path);
    SplitUrlOf(path, false, "", false, "");
    assert path + "" + "" == path;
    PathNotAbsolute(path);
  }

  /** `base`: `scheme://server[:port]` when there is a server, then the path with a
      leading `/` added when it is not blank and lacks one. */
  function Base(u: UrlValue, d: Defaults): (r: string)
    ensures !BlankOpt(u.server) ==> StartsWith(r, (if u.scheme.Some? then u.scheme.value else DefaultScheme(d)) + "://")
    ensures BlankOpt(u.server) ==> r == Path(u.path)
    ensures !BlankOpt(u.server) ==>
              r == (if u.scheme.Some? then u.scheme.value else DefaultScheme(d)) + "://" + u.server.value +
                   PortText(u.port) + Path(u.path)
  {
    var val :=
      if BlankOpt(u.server) then ""
      else (if u.scheme.Some? then u.scheme.value else DefaultScheme(d)) + "://" + u.server.value + PortText(u.port);
    assert StartsWith(val + Path(u.path), val);
    val + Path(u.path)
  }

  /** `':' + port.to_s` unless the port is nil. */
  function PortText(port: Option<nat>): string {
    if port.Some? then ":" + NatToString(port.value) else ""
  }

  function Path(p: string): (r: string)
    ensures Blank(r) <==> Blank(p)
    ensures r == p || r == "/" + p
    ensures Blank(p) || StartsWith(r, "/")
    ensures StartsWith(p, "/") ==> r == p
  {
    if Blank(p) || StartsWith(p, "/") then p
    else
      assert !Blank("/" + p) by { assert !IsSpace(("/" + p)[0]); }
      "/" + p
  }

  /** `Url.build(base, params, fragment)`: the fragment follows a `#` when it is not
      blank. */
  function Build(c: Codec, base: string, params: Params, fragment: string): (r: string)
    ensures StartsWith(r, base + ParamString(c, params))
    ensures Blank(fragment) <==> r == base + ParamString(c, params)
  {
    var s := base + ParamString(c, params);
    assert StartsWith(s, s);
    if Blank(fragment) then s
    else
      assert |s + "#" + fragment| > |s|;
      s + "#" + fragment
  }

  /** The string `to_s` returns. */
  function ToString(u: UrlValue, c: Codec, d: Defaults): string {
    Build(c, Base(u, d), u.params, u.fragment)
  }

  /** `blank?` and `empty?`: the base is blank exactly when the server and the path are. */
  lemma BlankBase(u: UrlValue, d: Defaults)
    ensures Blank(Base(u, d)) <==> BlankOpt(u.server) && Blank(u.path)
  {
    if !BlankOpt(u.server) {
      var r := Base(u, d);
      var sch := if u.scheme.Some? then u.scheme.value else DefaultScheme(d);
      assert r[|sch|] == ':' by { assert r[..|sch| + 3] == sch + "://"; }
      assert !IsSpace(r[|sch|]);
    }
  }

  predicate IsRelative(u: UrlValue) { BlankOpt(u.server) }

  predicate IsSecure(u: UrlValue) { u.scheme.Some? && u.scheme.value in SECURE_SCHEMES }

  // ---------------------------------------------------------------------------
  // Absolute and relative form

  /** What `make_absolute` does to the fields, and the exception it raises, if any.
      The fields it set before raising stay set. */
  function Absolutized(u: UrlValue, d: Defaults, secure: bool, server: Option<string>): (r: (UrlValue, Option<RubyError>))
    ensures !IsRelative(u) && IsSecure(u) == secure ==> r == (u, None)
    ensures r.0.path == u.path && r.0.params == u.params && r.0.fragment == u.fragment
    ensures u.server.Some? ==> r.0.server == u.server
    ensures u.scheme.Some? && !secure ==> r.0.scheme == u.scheme && r.0.port == u.port
    // With work to do and a server to be had: `@server ||= server || Url.default_server`,
    ensures (IsRelative(u) || IsSecure(u) != secure) && (server.Some? || u.server.Some? || d.server.Some?) ==>
              r.0.server == (if u.server.Some? then u.server else if server.Some? then server else d.server)
    // a missing scheme becomes the default one with no port, a present one keeps its port,
    ensures (IsRelative(u) || IsSecure(u) != secure) && (server.Some? || u.server.Some? || d.server.Some?) ==>
              (u.scheme.None? ==> r.0.port.None? && (!secure ==> r.0.scheme == Some(DefaultScheme(d)))) &&
              (u.scheme.Some? ==> r.0.port == u.port) &&
              (!secure ==> r.1.None?)
    // and a secure request maps the scheme, or raises when the mapping has no entry for it.
    ensures (IsRelative(u) || IsSecure(u) != secure) && (server.Some? || u.server.Some? || d.server.Some?) && secure ==>
              var sch := if u.scheme.Some? then u.scheme.value else DefaultScheme(d);
              (sch in SECURE_SCHEME_MAPPING ==> r.1.None? && r.0.scheme == Some(SECURE_SCHEME_MAPPING[sch])) &&
              (sch !in SECURE_SCHEME_MAPPING ==>
                 r.0.scheme == Some(sch) &&
                 r.1 == Some(RuntimeError("No secure scheme for scheme " + sch + " in Url#make_absolute")))
  {
    if !IsRelative(u) && IsSecure(u) == secure then (u, None)
    else if server.None? && u.server.None? && d.server.None? then
      (u, Some(RuntimeError("No default server set for Url#make_absolute")))
    else
      var u1 := if u.server.Some? then u else u.(server := if server.Some? then server else d.server);
      var u2 := if u1.scheme.Some? then u1 else u1.(scheme := Some(DefaultScheme(d)), port := None);
      if !secure then (u2, None)
      else if u2.scheme.value in SECURE_SCHEME_MAPPING then
        (u2.(scheme := Some(SECURE_SCHEME_MAPPING[u2.scheme.value])), None)
      else (u2, Some(RuntimeError("No secure scheme for scheme " + u2.scheme.value + " in Url#make_absolute")))
  }

  /** `make_absolute` either raises for want of a server, raises for want of a secure
      scheme, or leaves a URL with a server and with the security asked for. */
  lemma AbsolutizedMeaning(u: UrlValue, d: Defaults, secure: bool, server: Option<string>)
    ensures var (r, error) := Absolutized(u, d, secure, server);
            (error == Some(RuntimeError("No default server set for Url#make_absolute")) <==>
               (IsRelative(u) || IsSecure(u) != secure) && server.None? && u.server.None? && d.server.None?) &&
            (error.None? ==> r.server.Some? && (secure ==> IsSecure(r))) &&
            (error.None? && u.server.None? && server.Some? && !Blank(server.value) ==> !IsRelative(r)) &&
            r.path == u.path && r.params == u.params && r.fragment == u.fragment
  {
    var (r, error) := Absolutized(u, d, secure, server);
    if error.Some? && error.value.message != "No default server set for Url#make_absolute" {
      var msg := error.value.message;
      assert msg[..29] == "No secure scheme for scheme " + [msg[28]] by {
        assert msg[..28] == "No secure scheme for scheme ";
      }
    }
  }

  /** A secure request on a relative URL whose scheme is already `https` raises: the
      mapping only knows `http` and `ftp`. */
  lemma AbsolutizeHttpsRaises(u: UrlValue, d: Defaults, server: string)
    requires u.server.None? && u.scheme == Some("https")
    ensures Absolutized(u, d, true, Some(server)).1 ==
            Some(RuntimeError("No secure scheme for scheme https in Url#make_absolute"))
  {
    assert "https" != "http" && "https" != "ftp";
    assert "https" !in SECURE_SCHEME_MAPPING;
    assert "No secure scheme for scheme " + "https" + " in Url#make_absolute" ==
           "No secure scheme for scheme https in Url#make_absolute";
  }

  /** What `make_relative` does to the fields. */
  function Relativized(u: UrlValue): (r: UrlValue)
    ensures IsRelative(r)
    ensures r.path == u.path && r.params == u.params && r.fragment == u.fragment
    ensures IsRelative(u) ==> r == u
    ensures !IsRelative(u) ==> r.server.None? && r.scheme.None? && r.port.None?
  {
    if IsRelative(u) then u else u.(server := None, scheme := None, port := None)
  }

  // ---------------------------------------------------------------------------
  // Round trip

  predicate NoSpace(s: string) {
    forall i :: 0 <= i < |s| ==> !IsSpace(s[i])
  }

  /** Fields that `to_s` writes out and `Url.new` reads back unchanged. */
  predicate CanonicalUrl(u: UrlValue) {
    ((u.server.None? && u.scheme.None? && u.port.None?) ||
     (u.server.Some? && u.scheme.Some? && u.server.value != [] &&
      (forall i :: 0 <= i < |u.server.value| ==> ServerChar(u.server.value[i])) &&
      (forall i :: 0 <= i < |u.scheme.value| ==> IsLower(u.scheme.value[i])))) &&
    (u.path == "" || u.path[0] == '/') &&
    (forall i :: 0 <= i < |u.path| ==> u.path[i] != '?' && u.path[i] != '#' && !IsSpace(u.path[i])) &&
    NoSpace(u.fragment) &&
    (u.params == [] || Canonical(u.params))
  }

  /** `MatchBase` reads a lower-case scheme, `://`, a server and what follows it. */
  lemma MatchBaseOf(sch: string, sv: string, after: string)
    requires forall i :: 0 <= i < |sch| ==> IsLower(sch[i])
    requires sv != [] && forall i :: 0 <= i < |sv| ==> ServerChar(sv[i])
    requires after == [] || after[0] == ':' || after[0] == '/'
    ensures LooksAbsolute(sch + "://" + sv + after)
    ensures MatchBase(sch + "://" + sv + after) == Some(BaseParts(sch, sv, PortPart(after), PathPart(after)))
  {
    var tail := sv + after;
    assert sch + "://" + sv + after == sch + "://" + tail;
    SchemeRuns(sch, tail);
    MatchAfterScheme(sch, tail);
    ServerRun(sv, after);
  }

  /** The server scan stops where the server ends. */
  lemma ServerRun(sv: string, after: string)
    requires forall i :: 0 <= i < |sv| ==> ServerChar(sv[i])
    requires after == [] || after[0] == ':' || after[0] == '/'
    ensures RunLength(sv + after, ServerChar) == |sv|
    ensures (sv + after)[..|sv|] == sv && (sv + after)[|sv|..] == after
  {
    RunLengthOf(sv, after, ServerChar);
  }

  /** Once the scheme and `://` are read, `MatchBase` scans the server in the rest. */
  lemma MatchAfterScheme(sch: string, tail: string)
    requires var base := sch + "://" + tail;
             RunLength(base, SchemeChar) == |sch| && RunLength(base, IsLetter) == |sch| &&
             base[..|sch|] == sch && base[|sch|..] == "://" + tail && base[|sch| + 3..] == tail
    ensures LooksAbsolute(sch + "://" + tail)
    ensures var m := RunLength(tail, ServerChar);
            MatchBase(sch + "://" + tail) ==
            if m == 0 then None else Some(BaseParts(sch, tail[..m], PortPart(tail[m..]), PathPart(tail[m..])))
  {
    assert StartsWith("://" + tail, "://");
  }

  /** A lower-case scheme followed by `://` is the run both scans stop at. */
  lemma SchemeRuns(sch: string, tail: string)
    requires forall i :: 0 <= i < |sch| ==> IsLower(sch[i])
    ensures var base := sch + "://" + tail;
            RunLength(base, SchemeChar) == |sch| && RunLength(base, IsLetter) == |sch| &&
            base[..|sch|] == sch && base[|sch|..] == "://" + tail && base[|sch| + 3..] == tail
  {
    var base := sch + "://" + tail;
    assert base == sch + ("://" + tail);
    RunLengthOf(sch, "://" + tail, SchemeChar);
    RunLengthOf(sch, "://" + tail, IsLetter);
  }

  /** The port and the path written after the server are read back. */
  lemma TailParts(port: Option<nat>, path: string)
    requires path == "" || path[0] == '/'
    ensures PortPart(PortText(port) + path) == if port.Some? then Some(NatToString(port.value)) else None
    ensures PathPart(PortText(port) + path) == if path != "" then Some(path) else None
  {
    if port.Some? {
      var digits := NatToString(port.value);
      var after := ":" + (digits + path);
      assert PortText(port) + path == after;
      assert after[1..] == digits + path;
      RunLengthOf(digits, path, IsDigit);
      assert after[1..1 + |digits|] == digits;
      assert after[1 + |digits|..] == path;
    } else {
      assert PortText(port) + path == path;
    }
  }

  /** `Path` leaves a canonical path alone. */
  lemma CanonicalPath(u: UrlValue)
    requires CanonicalUrl(u)
    ensures Path(u.path) == u.path
  {
    if u.path != "" { assert StartsWith(u.path, "/"); }
  }

  /** The base of canonical fields with a server, written out. */
  lemma BaseShape(u: UrlValue, d: Defaults)
    requires CanonicalUrl(u) && u.server.Some?
    ensures Base(u, d) == u.scheme.value + "://" + u.server.value + (PortText(u.port) + u.path)
  {
    assert !BlankOpt(u.server) by { assert !IsSpace(u.server.value[0]); }
    CanonicalPath(u);
  }

  /** The base of canonical fields with a server is read back by `MatchBase`. */
  lemma BaseRoundTrip(u: UrlValue, d: Defaults)
    requires CanonicalUrl(u) && u.server.Some?
    ensures LooksAbsolute(Base(u, d))
    ensures MatchBase(Base(u, d)) ==
            Some(BaseParts(u.scheme.value, u.server.value,
                           if u.port.Some? then Some(NatToString(u.port.value)) else None,
                           if u.path != "" then Some(u.path) else None))
  {
    BaseShape(u, d);
    MatchBaseOf(u.scheme.value, u.server.value, PortText(u.port) + u.path);
    TailParts(u.port, u.path);
  }

  /** The base part of reading canonical fields back. */
  lemma ParsedBaseRoundTrip(u: UrlValue, d: Defaults)
    requires CanonicalUrl(u)
    ensures ParsedBase(Unset, Base(u, d)) == u.(params := [], fragment := "")
  {
    if u.server.Some? {
      AbsoluteBaseRoundTrip(u, d);
    } else {
      RelativeBaseRoundTrip(u, d);
    }
  }

  lemma AbsoluteBaseRoundTrip(u: UrlValue, d: Defaults)
    requires CanonicalUrl(u) && u.server.Some?
    ensures ParsedBase(Unset, Base(u, d)) == u.(params := [], fragment := "")
  {
    BaseRoundTrip(u, d);
    var parts := MatchBase(Base(u, d)).value;
    if u.port.Some? {
      DecimalRoundTrip(u.port.value);
    }
    assert PortNumber(parts.port) == u.port;
    assert (if parts.path.Some? then parts.path.value else "") == u.path;
  }

  lemma RelativeBaseRoundTrip(u: UrlValue, d: Defaults)
    requires CanonicalUrl(u) && u.server.None?
    ensures ParsedBase(Unset, Base(u, d)) == u.(params := [], fragment := "")
  {
    CanonicalPath(u);
    assert Base(u, d) == u.path;
    PathNotAbsolute(u.path);
  }

  /** An empty path, or one that starts with `/`, does not look absolute. */
  lemma PathNotAbsolute(path: string)
    requires path == "" || path[0] == '/'
    ensures !LooksAbsolute(path)
  {
    assert RunLength(path, SchemeChar) == 0 by {
      if path != "" { assert !SchemeChar(path[0]); }
    }
    assert path[0..] == path;
  }

  /** `Strip` leaves a string alone when it has no white space. */
  lemma StripUnchanged(s: string)
    requires NoSpace(s)
    ensures Strip(s) == s
  {
  }

  /** A character that may stand in the base of a URL that is read back. */
  predicate BaseChar(c: char) { c != '?' && c != '#' && !IsSpace(c) }

  predicate AllBaseChars(s: string) {
    forall i :: 0 <= i < |s| ==> BaseChar(s[i])
  }

  lemma AllBaseCharsConcat(a: string, b: string)
    requires AllBaseChars(a) && AllBaseChars(b)
    ensures AllBaseChars(a + b)
  {
    forall i | 0 <= i < |a + b|
      ensures BaseChar((a + b)[i])
    {
      if i >= |a| { assert (a + b)[i] == b[i - |a|]; }
    }
  }

  lemma NoSpaceConcat(a: string, b: string)
    requires NoSpace(a) && NoSpace(b)
    ensures NoSpace(a + b)
  {
    forall i | 0 <= i < |a + b|
      ensures !IsSpace((a + b)[i])
    {
      if i >= |a| { assert (a + b)[i] == b[i - |a|]; }
    }
  }

  /** The base of canonical fields holds no `?`, `#` or white space. */
  lemma BaseClean(u: UrlValue, d: Defaults)
    requires CanonicalUrl(u)
    ensures '?' !in Base(u, d) && '#' !in Base(u, d) && NoSpace(Base(u, d))
  {
    CanonicalPath(u);
    assert AllBaseChars(u.path);
    if u.server.Some? {
      BaseShape(u, d);
      var sch, sv := u.scheme.value, u.server.value;
      assert AllBaseChars(sch) by {
        forall i | 0 <= i < |sch| ensures BaseChar(sch[i]) { assert IsLower(sch[i]); }
      }
      assert AllBaseChars(sv) by {
        forall i | 0 <= i < |sv| ensures BaseChar(sv[i]) { assert ServerChar(sv[i]); }
      }
      assert AllBaseChars("://");
      assert AllBaseChars(PortText(u.port)) by {
        if u.port.Some? {
          var digits := NatToString(u.port.value);
          assert forall i :: 0 <= i < |digits| ==> IsDigit(digits[i]);
          AllBaseCharsConcat(":", digits);
        }
      }
      AllBaseCharsConcat(sch, "://");
      AllBaseCharsConcat(sch + "://", sv);
      AllBaseCharsConcat(PortText(u.port), u.path);
      AllBaseCharsConcat(sch + "://" + sv, PortText(u.port) + u.path);
    }
    var b := Base(u, d);
    assert AllBaseChars(b);
    assert forall i :: 0 <= i < |b| ==> BaseChar(b[i]);
  }

  /** The query `to_param_string` writes for parameters, after its `?`. */
  function QueryOf(c: Codec, params: Params): string {
    var ps := ParamString(c, params);
    if ps == "" then "" else ps[1..]
  }

  /** How `to_param_string` writes the query: a `?` before it unless there are no
      parameters, and no `#` or white space in it. */
  predicate QueryWritten(c: Codec, params: Params) {
    var q := QueryOf(c, params);
    '#' !in q && NoSpace(q) &&
    ParamString(c, params) == if params == [] then "" else "?" + q
  }

  /** Query text holds no `#` and no white space. */
  lemma QueryTextClean(q: string)
    requires QueryText(q)
    ensures '#' !in q && NoSpace(q)
  {
    forall i | 0 <= i < |q|
      ensures q[i] != '#' && !IsSpace(q[i])
    {
      assert PieceChar(q[i]) || q[i] == '&';
    }
  }

  /** The query written for canonical parameters is laid out as `QueryWritten` says,
      and is read back as those parameters. */
  lemma QueryClean(c: Codec, params: Params)
    requires GoodCodec(c) && (params == [] || Canonical(params))
    ensures QueryWritten(c, params)
    ensures ParseQuery(c, QueryOf(c, params)) == params
  {
    if params != [] {
      QueryRoundTrip(c, params);
      QueryTextClean(QueryOf(c, params));
    } else {
      assert Split("", '&') == [];
    }
  }

  /** How `to_s` lays out canonical fields. */
  lemma ToStringShape(u: UrlValue, c: Codec, d: Defaults)
    requires CanonicalUrl(u) && QueryWritten(c, u.params)
    ensures var q := QueryOf(c, u.params);
            ToString(u, c, d) ==
            Base(u, d) + (if u.params != [] then "?" + q else "") + (if u.fragment != "" then "#" + u.fragment else "")
    ensures NoSpace(ToString(u, c, d))
  {
    BaseClean(u, d);
    assert Blank(u.fragment) <==> u.fragment == "" by {
      if u.fragment != "" { assert !IsSpace(u.fragment[0]); }
    }
    ToStringLayout(u, c, d);
    LayoutNoSpace(Base(u, d), u.params != [], QueryOf(c, u.params), u.fragment);
  }

  /** `to_s` puts the base, the query and the fragment side by side. */
  lemma ToStringLayout(u: UrlValue, c: Codec, d: Defaults)
    requires QueryWritten(c, u.params) && (Blank(u.fragment) <==> u.fragment == "")
    ensures var q := QueryOf(c, u.params);
            ToString(u, c, d) ==
            Base(u, d) + (if u.params != [] then "?" + q else "") + (if u.fragment != "" then "#" + u.fragment else "")
  {
  }

  lemma LayoutNoSpace(b: string, hasQuery: bool, q: string, f: string)
    requires NoSpace(b) && NoSpace(q) && NoSpace(f)
    ensures NoSpace(b + (if hasQuery then "?" + q else "") + (if f != "" then "#" + f else ""))
  {
    var qs := if hasQuery then "?" + q else "";
    var fs := if f != "" then "#" + f else "";
    assert NoSpace(qs) by { if hasQuery { NoSpaceConcat("?", q); } }
    assert NoSpace(fs) by { if f != "" { NoSpaceConcat("#", f); } }
    NoSpaceConcat(b, qs);
    NoSpaceConcat(b + qs, fs);
  }

  /** Reading what `to_s` wrote, into a fresh `Url`, gives the same fields back. */
  lemma UrlRoundTrip(u: UrlValue, c: Codec, d: Defaults)
    requires GoodCodec(c) && CanonicalUrl(u)
    ensures Parsed(Unset, c, Some(ToString(u, c, d))) == u
  {
    var b := Base(u, d);
    var q := QueryOf(c, u.params);
    QueryClean(c, u.params);
    ToStringShape(u, c, d);
    StripUnchanged(ToString(u, c, d));
    BaseClean(u, d);
    SplitUrlOf(b, u.params != [], q, u.fragment != "", u.fragment);
    ParsedBaseRoundTrip(u, d);
  }

  // ---------------------------------------------------------------------------

  /** A URL, updated in place. */
  class Url {
    var scheme: Option<string>
    var server: Option<string>
    var port: Option<nat>
    var path: string
    var params: Params
    var fragment: string

    function Value(): UrlValue
      reads this
    {
      UrlValue(scheme, server, port, path, params, fragment)
    }

    /** `Url.new(str)` and `Url.parse(str)`. */
    constructor(c: Codec, url: Option<string>)
      ensures Value() == Parsed(Unset, c, url)
    {
      scheme, server, port := None, None, None;
      path, params, fragment := "", [], "";
      new;
      Set(c, url);
    }

    /** `set(url)`. */
    method Set(c: Codec, url: Option<string>)
      modifies this
      ensures Value() == Parsed(old(Value()), c, url)
    {
      var parts := SplitUrl(Strip(if url.Some? then url.value else ""));
      SetBase(parts.0);
      fragment := parts.2;
      ReadQuery(c, parts.1);
    }

    /** The part of `set` that reads the base. */
    method SetBase(base: string)
      modifies this
      ensures Value() == ParsedBase(old(Value()), base)
    {
      if LooksAbsolute(base) {
        var matched := MatchBase(base);
        if matched.None? {
          scheme, server, port, path := None, None, None, "";
        } else {
          var parts := matched.value;
          scheme, server := Some(parts.scheme), Some(parts.server);
          path := if parts.path.Some? then parts.path.value else "";
          port := PortNumber(parts.port);
        }
      } else {
        path := base;
      }
    }

    /** The loop of `set` over the pieces of the query. */
    method ReadQuery(c: Codec, query: string)
      modifies this
      ensures Value() == old(Value()).(params := ParseQuery(c, query))
    {
      params := [];
      var pieces := Split(query, '&');
      var i := 0;
      while i < |pieces|
        invariant 0 <= i <= |pieces|
        invariant Value() == old(Value()).(params := params)
        invariant ReadPieces(c, params, pieces[i..]) == ParseQuery(c, query)
        decreases |pieces| - i
      {
        assert pieces[i..][1..] == pieces[i + 1..];
        var pair := SplitPiece(pieces[i]);
        if pair.Some? {
          var (k, v) := pair.value;
          if EndsWith(k, "[]") {
            AddParam(c.unescape(RemoveBrackets(k)), Many([c.unescape(v)]));
          } else {
            AddParam(c.unescape(k), Single(c.unescape(v)));
          }
        }
        i := i + 1;
      }
      assert pieces[i..] == [];
    }

    /** `to_s`: deletes the blank parameters, then writes the URL out. */
    method ToS(c: Codec, d: Defaults) returns (s: string)
      modifies this
      ensures params == KeptParams(old(params))
      ensures s == ToString(old(Value()), c, d)
      ensures Value() == old(Value()).(params := KeptParams(old(params)))
    {
      KeptParamsString(c, params);
      var b := Base(Value(), d);
      params := KeptParams(params);
      s := Build(c, b, params, fragment);
    }

    /** `append_path(str, escape)` and `+ str`: the escaped form writes a space as
        `%20`. */
    method AppendPath(c: Codec, str: string, escape: bool)
      modifies this
      ensures Value() == old(Value()).(path := old(path) + if escape then PlusAsPercent(c.escape(str)) else str)
    {
      path := path + if escape then PlusAsPercent(c.escape(str)) else str;
    }

    /** `set_param(k, v)`. */
    method SetParam(k: string, v: ParamValue)
      modifies this
      ensures Value() == old(Value()).(params := Put(old(params), k, v))
    {
      params := Put(params, k, v);
    }

    /** `set_params(hash)`: `set_param` for each pair in order. */
    method SetParams(hash: Params)
      modifies this
      ensures Value() == old(Value()).(params := PutAll(old(params), hash))
    {
      var i := 0;
      while i < |hash|
        invariant 0 <= i <= |hash|
        invariant Value() == old(Value()).(params := params)
        invariant PutAll(params, hash[i..]) == PutAll(old(params), hash)
        decreases |hash| - i
      {
        assert hash[i..][1..] == hash[i + 1..];
        SetParam(hash[i].0, hash[i].1);
        i := i + 1;
      }
      assert hash[i..] == [];
    }

    /** `add_param(k, v)`. */
    method AddParam(k: string, v: ParamValue)
      modifies this
      ensures Value() == old(Value()).(params := UrlQuery.AddParam(old(params), k, v))
      ensures Get(params, k) == Some(if Get(old(params), k).Some? && !Get(old(params), k).value.NilParam?
                                     then Many(AsArray(Get(old(params), k).value) + AsArray(v))
                                     else v)
      ensures forall j :: j != k ==> Get(params, j) == Get(old(params), j)
    {
      params := UrlQuery.AddParam(params, k, v);
    }

    /** `remove_param(key)` with a key. */
    method RemoveParam(key: string)
      modifies this
      ensures Value() == old(Value()).(params := Filter(old(params), (k, v) => k != key))
      ensures Get(params, key).None?
    {
      params := Filter(params, (k, v) => k != key);
    }

    /** `get_param(k)`: nil when the key is missing. */
    method GetParam(k: string) returns (v: ParamValue)
      ensures Get(params, k).Some? ==> v == Get(params, k).value
      ensures k !in Keys(params) ==> v == NilParam
    {
      var r := Get(params, k);
      v := if r.Some? then r.value else NilParam;
    }

    /** `clear_params` and `reset_params`. */
    method ClearParams()
      modifies this
      ensures Value() == old(Value()).(params := [])
    {
      params := [];
    }

    /** `has_params?`. */
    method HasParams() returns (b: bool)
      ensures b <==> |params| > 0
    {
      b := params != [];
    }

    /** `secure?`: the scheme is one of `https`, `sftp`, `ssh`. */
    method IsSecureUrl() returns (b: bool)
      ensures b <==> scheme.Some? && scheme.value in {"https", "sftp", "ssh"}
    {
      b := IsSecure(Value());
    }

    /** `relative?` and `absolute?`. */
    method IsRelativeUrl() returns (b: bool)
      ensures b <==> server.None? || Blank(server.value)
    {
      b := IsRelative(Value());
    }

    /** `empty?` and `blank?`: the base is blank. */
    method IsBlankUrl(d: Defaults) returns (b: bool)
      ensures b <==> BlankOpt(server) && Blank(path)
    {
      BlankBase(Value(), d);
      b := Blank(Base(Value(), d));
    }

    /** `make_absolute(secure, server)`. */
    method MakeAbsolute(c: Codec, d: Defaults, secure: bool, srv: Option<string>) returns (r: Result<string, RubyError>)
      modifies this
      ensures var (u, error) := Absolutized(old(Value()), d, secure, srv);
              if error.Some? then r == Err(error.value) && Value() == u
              else r == Ok(ToString(u, c, d)) && Value() == u.(params := KeptParams(u.params))
    {
      var res := Absolutized(Value(), d, secure, srv);
      AbsolutizedMeaning(Value(), d, secure, srv);
      scheme, server, port := res.0.scheme, res.0.server, res.0.port;
      assert Value() == res.0;
      if res.1.Some? {
        return Err(res.1.value);
      }
      var s := ToS(c, d);
      r := Ok(s);
    }

    /** `make_relative`. */
    method MakeRelative(c: Codec, d: Defaults) returns (s: string)
      modifies this
      ensures IsRelative(Value())
      ensures s == ToString(Relativized(old(Value())), c, d)
      ensures Value() == Relativized(old(Value())).(params := KeptParams(old(params)))
    {
      if !IsRelative(Value()) {
        server, scheme, port := None, None, None;
      }
      s := ToS(c, d);
    }
  }

  /** `CGI::escape(str).gsub('+', '%20')`. */
  function PlusAsPercent(s: string): (r: string)
    ensures '+' !in r
  {
    if s == [] then []
    else (if s[0] == '+' then "%20" else [s[0]]) + PlusAsPercent(s[1..])
  }

  /** Escaped text without a `+` is appended as it is. */
  lemma {:induction false} PlusAsPercentNoPlus(s: string)
    requires '+' !in s
    ensures PlusAsPercent(s) == s
  {
    if s != [] {
      assert s[0] in s;
      PlusAsPercentNoPlus(s[1..]);
      assert s == [s[0]] + s[1..];
    }
  }

  /** `set_param` for each pair in order. */
  function PutAll(m: Params, hash: Params): Params
    decreases |hash|
  {
    if hash == [] then m else PutAll(Put(m, hash[0].0, hash[0].1), hash[1..])
  }

  /** After `set_params(hash)` with distinct keys, the hash's keys read as in the hash
      and every other key as before. */
  lemma {:induction false} PutAllGet(m: Params, hash: Params, k: string)
    requires DistinctKeys(hash)
    ensures Get(PutAll(m, hash), k) == if k in Keys(hash) then Get(hash, k) else Get(m, k)
    decreases |hash|
  {
    if hash != [] {
      assert DistinctKeys(hash[1..]);
      PutAllGet(Put(m, hash[0].0, hash[0].1), hash[1..], k);
      PutGet(m, hash[0].0, hash[0].1, k);
      assert Keys(hash) == [hash[0].0] + Keys(hash[1..]);
    }
  }

  /** The string written by `to_s` is the same before and after its deletion of blank
      parameters. */
  lemma KeptParamsString(c: Codec, params: Params)
    ensures ParamString(c, KeptParams(params)) == ParamString(c, params)
  {
    KeptParamsIdempotent(params);
  }
}
