/**
 The redirect value of the login flow: the path check, the percent-encoder (section 2.1 of RFC 3986), and
 the readers its output goes through, Go's query parser and the HTML escaper.
 */
module Redirect {
  import opened Bytes

  const SLASH: byte := 47
  const PERCENT: byte := 37
  const PLUS: byte := 43
  const AMPERSAND: byte := 38
  const SEMICOLON: byte := 59
  const EQUALS: byte := 61
  const QUESTION: byte := 63
  const SPACE: byte := 32

  /** A path as the check wants it: it starts with one slash. */
  predicate LocalPath(s: seq<byte>) {
    s != [] && s[0] == SLASH && !(|s| >= 2 && s[1] == SLASH)
  }

  function SafeRedirect(raw: seq<byte>): seq<byte> {
    if raw == [] || !([SLASH] <= raw) || [SLASH, SLASH] <= raw then [SLASH] else raw
  }

  /** The result is always a local path, and local paths, they alone, are left as they are; for anything else
      it is the root. */
  lemma SafeRedirectIsLocal(raw: seq<byte>)
    ensures LocalPath(SafeRedirect(raw))
    ensures !LocalPath(raw) ==> SafeRedirect(raw) == [SLASH]
    ensures SafeRedirect(raw) == raw <==> LocalPath(raw)
    ensures SafeRedirect(SafeRedirect(raw)) == SafeRedirect(raw)
  {
    assert [SLASH] <= raw <==> raw != [] && raw[0] == SLASH;
  }

  // ----- what a browser makes of it

  const BACKSLASH: byte := 92

  /** Tabs and line breaks, which browsers remove from a location before they read it. */
  predicate Ignorable(c: byte) {
    c == 9 || c == 10 || c == 13
  }

  /** Browsers read a backslash there like a slash. */
  predicate AnySlash(c: byte) {
    c == SLASH || c == BACKSLASH
  }

  function Shown(s: seq<byte>): seq<byte>
    decreases |s|
  {
    if s == [] then [] else (if Ignorable(s[0]) then [] else [s[0]]) + Shown(s[1..])
  }

  /** A location that begins with two slashes, as a browser reads it, names another host. */
  predicate LeavesHost(location: seq<byte>) {
    var t := Shown(location);
    |t| >= 2 && AnySlash(t[0]) && AnySlash(t[1])
  }

  /** The first byte after the slash that is not a tab or a line break is a slash or a backslash. */
  predicate SecondSlash(s: seq<byte>) {
    exists j :: 1 <= j < |s| && AnySlash(s[j]) && forall i :: 1 <= i < j ==> Ignorable(s[i])
  }

  /** The first byte shown is the first that is not ignorable. */
  lemma {:induction false} ShownFirst(s: seq<byte>, j: nat)
    requires j < |s| && !Ignorable(s[j]) && forall i :: 0 <= i < j ==> Ignorable(s[i])
    ensures Shown(s) != [] && Shown(s)[0] == s[j]
    decreases |s|
  {
    if j > 0 {
      ShownFirst(s[1..], j - 1);
    }
  }

  lemma {:induction false} FirstOfShown(s: seq<byte>) returns (j: nat)
    requires Shown(s) != []
    ensures j < |s| && s[j] == Shown(s)[0] && !Ignorable(s[j]) && forall i :: 0 <= i < j ==> Ignorable(s[i])
    decreases |s|
  {
    if Ignorable(s[0]) {
      j := FirstOfShown(s[1..]);
      j := j + 1;
      assert forall i :: 1 <= i < j ==> s[i] == s[1..][i - 1];
    } else {
      j := 0;
    }
  }

  /** The check does not see what a browser sees: the result leaves this host exactly if the value was accepted
      and its slash is followed by a backslash, or by tabs or line breaks and a slash or backslash. */
  lemma SafeRedirectLeavesHost(raw: seq<byte>)
    ensures LeavesHost(SafeRedirect(raw)) <==> LocalPath(raw) && SecondSlash(raw)
  {
    SafeRedirectIsLocal(raw);
    var s := SafeRedirect(raw);
    assert Shown(s) == [SLASH] + Shown(s[1..]);
    if LeavesHost(s) {
      var j := FirstOfShown(s[1..]);
      assert AnySlash(s[j + 1]);
      assert forall i :: 1 <= i < j + 1 ==> s[i] == s[1..][i - 1];
      assert SecondSlash(s);
    }
    if SecondSlash(s) {
      var j :| 1 <= j < |s| && AnySlash(s[j]) && forall i :: 1 <= i < j ==> Ignorable(s[i]);
      ShownFirst(s[1..], j - 1);
    }
  }

  /** For instance a slash and a backslash. */
  lemma BackslashPasses(name: seq<byte>)
    ensures SafeRedirect([SLASH, BACKSLASH] + name) == [SLASH, BACKSLASH] + name
    ensures LeavesHost([SLASH, BACKSLASH] + name)
  {
    var s := [SLASH, BACKSLASH] + name;
    SafeRedirectIsLocal(s);
    assert s[1] == BACKSLASH;
    SafeRedirectLeavesHost(s);
  }

  // ----- percent-encoding

  /** The bytes that are written as they are. */
  predicate Plain(c: byte) {
    || c == SLASH || c == 45 || c == 95 || c == 46 || c == 126
    || 97 <= c <= 122 || 65 <= c <= 90 || 48 <= c <= 57
  }

  function HexNibble(b: byte): byte
    requires b < 16
  {
    if b < 10 then 48 + b else 97 + (b - 10)
  }

  /** The value of a hexadecimal digit of either case. */
  function FromHex(c: byte): Option<byte> {
    if 48 <= c <= 57 then Some(c - 48)
    else if 97 <= c <= 102 then Some(c - 97 + 10)
    else if 65 <= c <= 70 then Some(c - 65 + 10)
    else None
  }

  function EscapeByte(c: byte): seq<byte> {
    if Plain(c) then [c] else [PERCENT, HexNibble(c / 16), HexNibble(c % 16)]
  }

  function Escape(s: seq<byte>): seq<byte>
    decreases |s|
  {
    if s == [] then [] else Escape(s[..|s| - 1]) + EscapeByte(s[|s| - 1])
  }

  function RedirectURLValue(s: seq<byte>): seq<byte> {
    Escape(SafeRedirect(s))
  }

  /** The encoder's loop. */
  method SafeRedirectURLValue(s: seq<byte>) returns (out: seq<byte>)
    ensures out == RedirectURLValue(s)
  {
    var r := SafeRedirect(s);
    out := [];
    for i := 0 to |r|
      invariant out == Escape(r[..i])
    {
      var c := r[i];
      if c == SLASH || c == 45 || c == 95 || c == 46 || c == 126
         || 97 <= c <= 122 || 65 <= c <= 90 || 48 <= c <= 57
      {
        out := out + [c];
      } else {
        out := out + [PERCENT, HexNibble(c / 16), HexNibble(c % 16)];
      }
      assert r[..i + 1][..i] == r[..i];
    }
    assert r[..|r|] == r;
  }

  /** Query unescaping: `+` is a space, a percent sign needs two hexadecimal digits. */
  function Unescape(t: seq<byte>): Option<seq<byte>>
    decreases |t|
  {
    if t == [] then Some([])
    else if t[0] == PERCENT then
      if |t| < 3 || FromHex(t[1]).None? || FromHex(t[2]).None? || Unescape(t[3..]).None? then None
      else Some([Nibbles(FromHex(t[1]).value, FromHex(t[2]).value)] + Unescape(t[3..]).value)
    else if Unescape(t[1..]).None? then None
    else Some([if t[0] == PLUS then SPACE else t[0]] + Unescape(t[1..]).value)
  }

  /** The byte of two hexadecimal digits' values. */
  function Nibbles(high: byte, low: byte): byte {
    if high < 16 && low < 16 then (high as int) * 16 + low else 0
  }

  lemma NibblesRoundTrip(c: byte)
    ensures FromHex(HexNibble(c / 16)) == Some(c / 16) && FromHex(HexNibble(c % 16)) == Some(c % 16)
    ensures Nibbles(c / 16, c % 16) == c
  {
  }

  lemma UnescapeOne(c: byte, t: seq<byte>)
    ensures Unescape(EscapeByte(c) + t) == match Unescape(t) case None => None case Some(s) => Some([c] + s)
  {
    NibblesRoundTrip(c);
    var u := EscapeByte(c) + t;
    assert u[|EscapeByte(c)|..] == t;
  }

  lemma {:induction false} UnescapeEscaped(s: seq<byte>, t: seq<byte>)
    requires Unescape(t).Some?
    ensures Unescape(Escape(s) + t) == Some(s + Unescape(t).value)
    decreases |s|
  {
    if s == [] {
      assert Escape(s) + t == t && s + Unescape(t).value == Unescape(t).value;
    } else {
      var before, c := s[..|s| - 1], s[|s| - 1];
      UnescapeOne(c, t);
      UnescapeEscaped(before, EscapeByte(c) + t);
      ConcatAssociates(Escape(before), EscapeByte(c), t);
      ConcatAssociates(before, [c], Unescape(t).value);
      assert s == before + [c];
    }
  }

  /** Decoding what was encoded gives the checked path back, for every byte string. */
  lemma ValueRoundTrip(s: seq<byte>)
    ensures Unescape(RedirectURLValue(s)) == Some(SafeRedirect(s))
  {
    UnescapeEscaped(SafeRedirect(s), []);
    assert Escape(SafeRedirect(s)) + [] == Escape(SafeRedirect(s));
    assert SafeRedirect(s) + [] == SafeRedirect(s);
  }

  /** The encoder writes plain bytes and percent signs only. */
  lemma {:induction false} EscapedBytes(s: seq<byte>)
    ensures forall c :: c in Escape(s) ==> Plain(c) || c == PERCENT
    decreases |s|
  {
    if s != [] {
      EscapedBytes(s[..|s| - 1]);
    }
  }

  predicate IsHexDigit(c: byte, value: byte) {
    if value < 10 then c == '0' as int + value else value < 16 && c == 'a' as int + (value - 10)
  }

  predicate LeftAsItIs(c: byte) {
    || 'a' as int <= c <= 'z' as int || 'A' as int <= c <= 'Z' as int || '0' as int <= c <= '9' as int
    || c == '/' as int || c == '-' as int || c == '_' as int || c == '.' as int || c == '~' as int
  }

  /** What stands for a byte: letters, digits and `/ - _ . ~` for themselves, and for any other byte a percent sign
      and two lower-case hexadecimal digits. */
  predicate StandsFor(e: seq<byte>, c: byte) {
    if LeftAsItIs(c) then e == [c]
    else |e| == 3 && e[0] == '%' as int && IsHexDigit(e[1], c / 16) && IsHexDigit(e[2], c % 16)
  }

  lemma PieceOf(c: byte)
    ensures StandsFor(EscapeByte(c), c)
  {
  }

  /** The encoder writes byte by byte. */
  lemma EscapedPiecewise(s: seq<byte>, c: byte)
    ensures exists e :: StandsFor(e, c) && Escape(s + [c]) == Escape(s) + e
  {
    hide Escape, EscapeByte, StandsFor;
    EscapeLast(s, c);
    PieceOf(c);
  }

  lemma EscapeLast(s: seq<byte>, c: byte)
    ensures Escape(s + [c]) == Escape(s) + EscapeByte(c)
  {
    assert (s + [c])[..|s|] == s;
  }

  // ----- the query parser

  /** The text before the first c and the text after it, or the whole text and nothing. */
  function Cut(s: seq<byte>, c: byte): (parts: (seq<byte>, seq<byte>))
    ensures c !in parts.0
    ensures s == (if c in s then parts.0 + [c] + parts.1 else parts.0)
    ensures |parts.1| < |s| || s == []
    decreases |s|
  {
    if s == [] then ([], [])
    else if s[0] == c then ([], s[1..])
    else
      var parts := Cut(s[1..], c);
      ([s[0]] + parts.0, parts.1)
  }

  /** Query().Get(name): the value of the first well-formed pair of that name. */
  function QueryGet(query: seq<byte>, name: seq<byte>): seq<byte>
    decreases |query|
  {
    if query == [] then []
    else
      var (pair, rest) := Cut(query, AMPERSAND);
      var (key, value) := Cut(pair, EQUALS);
      if SEMICOLON in pair || pair == [] then QueryGet(rest, name)
      else if Unescape(key) == Some(name) && Unescape(value).Some? then Unescape(value).value
      else QueryGet(rest, name)
  }

  lemma CutFirst(x: byte, u: seq<byte>, c: byte)
    ensures Cut([x] + u, c) == if x == c then ([], u) else ([x] + Cut(u, c).0, Cut(u, c).1)
  {
    assert ([x] + u)[1..] == u;
  }

  lemma {:induction false} CutAt(s: seq<byte>, c: byte, t: seq<byte>)
    requires c !in s
    ensures Cut(s + [c] + t, c) == (s, t)
    decreases |s|
  {
    if s == [] {
      CutFirst(c, t, c);
      assert s + [c] + t == [c] + t;
    } else {
      CutAt(s[1..], c, t);
      CutFirst(s[0], s[1..] + [c] + t, c);
      assert s == [s[0]] + s[1..];
      assert s + [c] + t == [s[0]] + (s[1..] + [c] + t);
    }
  }

  lemma {:induction false} CutNowhere(s: seq<byte>, c: byte)
    requires c !in s
    ensures Cut(s, c) == (s, [])
    decreases |s|
  {
    if s != [] {
      CutNowhere(s[1..], c);
      assert s == [s[0]] + s[1..];
    }
  }

  lemma QueryOfOnePair(query: seq<byte>, key: seq<byte>, value: seq<byte>, name: seq<byte>)
    requires AMPERSAND !in query && SEMICOLON !in query && query != []
    requires Cut(query, EQUALS) == (key, value) && Unescape(key) == Some(name) && Unescape(value).Some?
    ensures QueryGet(query, name) == Unescape(value).value
  {
    CutNowhere(query, AMPERSAND);
  }

  // ----- the HTML escaper

  function HtmlEscapeByte(c: byte): seq<byte> {
    if c == 38 then [38, 97, 109, 112, 59]        // &amp;
    else if c == 39 then [38, 35, 51, 57, 59]     // &#39;
    else if c == 60 then [38, 108, 116, 59]       // &lt;
    else if c == 62 then [38, 103, 116, 59]       // &gt;
    else if c == 34 then [38, 35, 51, 52, 59]     // &#34;
    else [c]
  }

  function HtmlEscape(s: seq<byte>): seq<byte>
    decreases |s|
  {
    if s == [] then [] else HtmlEscapeByte(s[0]) + HtmlEscape(s[1..])
  }

  predicate HtmlSafe(c: byte) {
    c != 38 && c != 39 && c != 60 && c != 62 && c != 34
  }

  lemma {:induction false} HtmlEscapeLeaves(s: seq<byte>)
    requires forall c :: c in s ==> HtmlSafe(c)
    ensures HtmlEscape(s) == s
    decreases |s|
  {
    if s != [] {
      assert HtmlSafe(s[0]);
      HtmlEscapeLeaves(s[1..]);
    }
  }

  /** What is escaped can stand in an attribute: it has no quotes and no angle brackets. */
  lemma {:induction false} HtmlEscapedBytes(s: seq<byte>)
    ensures forall c :: c in HtmlEscape(s) ==> c !in {'"' as int, '\'' as int, '<' as int, '>' as int}
    decreases |s|
  {
    if s != [] {
      HtmlEscapedBytes(s[1..]);
    }
  }
}
