/**
 The agent's message builders: percent-encoding of names in request paths (RFC
 3986, sections 2.1 and 2.3) and JSON string escaping in bodies (RFC 8259,
 section 7), written into a caller's buffer of fixed length.
*/
module WireEncoders {
  import opened Wrappers

  /** A C string: bytes other than NUL. */
  predicate CString(s: string) { forall i :: 0 <= i < |s| ==> 0 < s[i] as int < 256 }

  // ---------------------------------------------------------------------
  // Encoders
  // ---------------------------------------------------------------------

  predicate Unreserved(c: char) {
    'A' <= c <= 'Z' || 'a' <= c <= 'z' || '0' <= c <= '9' || c == '-' || c == '_' || c == '.' || c == '~'
  }

  function HexDigit(d: int, ten: char): (c: char)
    requires 0 <= d < 16 && (ten == 'a' || ten == 'A')
  {
    if d < 10 then ('0' as int + d) as char else (ten as int + d - 10) as char
  }

  function Hex2(c: char, ten: char): string
    requires (c as int) < 256 && (ten == 'a' || ten == 'A')
  {
    [HexDigit(c as int / 16, ten), HexDigit(c as int % 16, ten)]
  }

  function Percent(c: char): string
    requires (c as int) < 256
  {
    if Unreserved(c) then [c] else "%" + Hex2(c, 'A')
  }

  function Escape(c: char): string
    requires (c as int) < 256
  {
    if c == '"' || c == '\\' then ['\\', c]
    else if c == '\n' then "\\n"
    else if c == '\r' then "\\r"
    else if c == '\t' then "\\t"
    else if c < ' ' then "\\u00" + Hex2(c, 'a')
    else [c]
  }

  /** The two ways of writing a character: in a request path and in a JSON string. */
  datatype Scheme = Uri | Json

  function EncodeChar(k: Scheme, c: char): string
    requires (c as int) < 256
  {
    if k == Uri then Percent(c) else Escape(c)
  }

  function Encode(k: Scheme, s: string): string
    requires CString(s)
    decreases |s|
  {
    if s == "" then "" else Encode(k, s[..|s| - 1]) + EncodeChar(k, s[|s| - 1])
  }

  function PercentEncode(s: string): string
    requires CString(s)
  {
    Encode(Uri, s)
  }

  function JsonEscape(s: string): string
    requires CString(s)
  {
    Encode(Json, s)
  }

  function ApiPath(verb: string, name: string): string
    requires CString(name)
  {
    "/api/" + verb + "/" + PercentEncode(name)
  }

  function OrEmpty(s: Option<string>): string { if s.Some? then s.value else "" }

  predicate OptCString(s: Option<string>) { s.Some? ==> CString(s.value) }

  const ID_OPEN := "{\"id\":\""
  const HOST_OPEN := "\",\"host\":\""
  const TITLE_OPEN := ",\"title\":\""
  const QUOTE := "\""

  function Quoted(before: string, s: string, after: string): string
    requires CString(s)
  {
    before + JsonEscape(s) + after
  }

  function TitlePart(title: Option<string>): string
    requires OptCString(title)
  {
    if title.Some? then Quoted(TITLE_OPEN, title.value, QUOTE) else ""
  }

  function OwnerBody(id: string, host: Option<string>, title: Option<string>): string
    requires CString(id) && OptCString(host) && OptCString(title)
  {
    Quoted(ID_OPEN, id, HOST_OPEN) + Quoted("", OrEmpty(host), QUOTE) + TitlePart(title) + "}"
  }

  // ---------------------------------------------------------------------
  // Writing into a buffer
  // ---------------------------------------------------------------------

  /** `text` went in behind the first `n` characters, or did not fit in front of the closing NUL. */
  twostate predicate Wrote(buf: array<char>, len: nat, n: nat, text: string, ok: bool, n': nat)
    requires n < len <= buf.Length && n' < len
    reads buf
  {
    && (ok <==> n + |text| < len)
    && (ok ==> n' == n + |text| && buf[..n'] == old(buf[..n]) + text)
    && (forall i :: len <= i < buf.Length ==> buf[i] == old(buf[i]))
  }

  method Put(buf: array<char>, len: nat, n: nat, c: char) returns (ok: bool, n': nat)
    requires n < len <= buf.Length
    modifies buf
    ensures n' < len && Wrote(buf, len, n, [c], ok, n')
  {
    if n + 1 >= len { return false, n; }
    buf[n] := c;
    ok, n' := true, n + 1;
  }

  method PutText(buf: array<char>, len: nat, n: nat, s: string) returns (ok: bool, n': nat)
    requires n < len <= buf.Length
    modifies buf
    ensures n' < len && Wrote(buf, len, n, s, ok, n')
  {
    ok, n' := true, n;
    var i := 0;
    while i < |s|
      invariant i <= |s| && n' < len && n' == n + i
      invariant buf[..n'] == old(buf[..n]) + s[..i]
      invariant forall k :: len <= k < buf.Length ==> buf[k] == old(buf[k])
    {
      var put;
      put, n' := Put(buf, len, n', s[i]);
      if !put { return false, n'; }
      i := i + 1;
    }
    assert s[..|s|] == s;
  }

  method PutEscape(buf: array<char>, len: nat, n: nat, c: char) returns (ok: bool, n': nat)
    requires n < len <= buf.Length && (c as int) < 256
    modifies buf
    ensures n' < len && Wrote(buf, len, n, Escape(c), ok, n')
  {
    if c == '"' || c == '\\' {
      ok, n' := PutText(buf, len, n, ['\\', c]);
    } else if c == '\n' {
      ok, n' := PutText(buf, len, n, "\\n");
    } else if c == '\r' {
      ok, n' := PutText(buf, len, n, "\\r");
    } else if c == '\t' {
      ok, n' := PutText(buf, len, n, "\\t");
    } else if c < ' ' {
      ok, n' := PutText(buf, len, n, "\\u00" + Hex2(c, 'a'));
    } else {
      ok, n' := Put(buf, len, n, c);
    }
  }

  method PutPercent(buf: array<char>, len: nat, n: nat, c: char) returns (ok: bool, n': nat)
    requires n < len <= buf.Length && (c as int) < 256
    modifies buf
    ensures n' < len && Wrote(buf, len, n, Percent(c), ok, n')
  {
    if Unreserved(c) {
      ok, n' := Put(buf, len, n, c);
    } else {
      ok, n' := PutText(buf, len, n, "%" + Hex2(c, 'A'));
    }
  }

  method PutChar(buf: array<char>, len: nat, n: nat, k: Scheme, c: char) returns (ok: bool, n': nat)
    requires n < len <= buf.Length && (c as int) < 256
    modifies buf
    ensures n' < len && Wrote(buf, len, n, EncodeChar(k, c), ok, n')
  {
    if k == Json {
      ok, n' := PutEscape(buf, len, n, c);
    } else {
      ok, n' := PutPercent(buf, len, n, c);
    }
  }

  /** One turn of the loop below: `before` and the encoding of `s[..i]` are in place. */
  method PutNext(buf: array<char>, len: nat, n: nat, k: Scheme, s: string, i: nat, ghost before: string)
    returns (ok: bool, n': nat)
    requires n < len <= buf.Length && CString(s) && i < |s| && buf[..n] == before + Encode(k, s[..i])
    modifies buf
    ensures n' < len && (ok ==> buf[..n'] == before + Encode(k, s[..i + 1]))
    ensures !ok ==> |before| + |Encode(k, s)| >= len
    ensures forall j :: len <= j < buf.Length ==> buf[j] == old(buf[j])
  {
    ghost var text := NextText(k, s, i, before);
    ok, n' := PutChar(buf, len, n, k, s[i]);
  }

  lemma NextText(k: Scheme, s: string, i: nat, before: string) returns (text: string)
    requires CString(s) && i < |s|
    ensures text == before + Encode(k, s[..i + 1]) == (before + Encode(k, s[..i])) + EncodeChar(k, s[i])
    ensures |text| <= |before| + |Encode(k, s)|
  {
    EncodeStep(k, s, i);
    EncodePrefix(k, s, i + 1);
    text := before + Encode(k, s[..i + 1]);
    var done, add := Encode(k, s[..i]), EncodeChar(k, s[i]);
    assert before + done + add == before + (done + add);
  }

  /** The loop of `put_json_escaped` and the name loop of the path builder. */
  method PutEncoded(buf: array<char>, len: nat, n: nat, k: Scheme, s: string) returns (ok: bool, n': nat)
    requires n < len <= buf.Length && CString(s)
    modifies buf
    ensures n' < len && Wrote(buf, len, n, Encode(k, s), ok, n')
  {
    ok, n' := true, n;
    ghost var before := buf[..n];
    assert s[..0] == "" && before + "" == before;
    var i := 0;
    while i < |s|
      invariant i <= |s| && n' < len && buf[..n'] == before + Encode(k, s[..i])
      invariant forall j :: len <= j < buf.Length ==> buf[j] == old(buf[j])
    {
      ok, n' := PutNext(buf, len, n', k, s, i, before);
      if !ok { return; }
      i := i + 1;
    }
    assert s[..|s|] == s;
    assert |buf[..n']| == n';
    ok := true;
  }

  lemma EncodeStep(k: Scheme, s: string, i: nat)
    requires CString(s) && i < |s|
    ensures Encode(k, s[..i + 1]) == Encode(k, s[..i]) + EncodeChar(k, s[i])
  {
    assert s[..i + 1][..i] == s[..i];
  }

  lemma {:induction false} EncodePrefix(k: Scheme, s: string, i: nat)
    requires CString(s) && i <= |s|
    ensures |Encode(k, s[..i])| <= |Encode(k, s)|
    decreases |s| - i
  {
    if i == |s| {
      assert s[..i] == s;
    } else {
      EncodeStep(k, s, i);
      EncodePrefix(k, s, i + 1);
    }
  }

  /** The result of a builder: the length when text and NUL fit, else -1; nothing behind the buffer changes. */
  twostate predicate Built(buf: array<char>, len: nat, text: string, r: int)
    requires len <= buf.Length
    reads buf
  {
    && r == (if |text| + 1 <= len then |text| else -1)
    && (r >= 0 ==> buf[..r] == text && buf[r] == '\0')
    && (forall i :: len <= i < buf.Length ==> buf[i] == old(buf[i]))
  }

  /** The closing NUL. */
  method Close(buf: array<char>, len: nat, n: nat, ghost text: string) returns (r: int)
    requires n < len <= buf.Length && buf[..n] == text
    modifies buf
    ensures r == n == |text| && buf[..r] == text && buf[r] == '\0'
    ensures forall i :: n < i < buf.Length ==> buf[i] == old(buf[i])
  {
    buf[n] := '\0';
    r := n;
  }

  method BuildPath(buf: array<char>, len: nat, verb: string, name: string) returns (r: int)
    requires len <= buf.Length && CString(name)
    modifies buf
    ensures Built(buf, len, ApiPath(verb, name), r)
  {
    if len == 0 { return -1; }
    var ok, n := PutText(buf, len, 0, "/api/");
    if !ok { return -1; }
    ok, n := PutText(buf, len, n, verb);
    if !ok { return -1; }
    ok, n := Put(buf, len, n, '/');
    if !ok { return -1; }
    ok, n := PutEncoded(buf, len, n, Uri, name);
    if !ok { return -1; }
    r := Close(buf, len, n, ApiPath(verb, name));
  }

  /** `tm_proto_trigger_path` writes what the shared path builder writes for the verb `trigger`. */
  method BuildTriggerPath(buf: array<char>, len: nat, name: string) returns (r: int)
    requires len <= buf.Length && CString(name)
    modifies buf
    ensures Built(buf, len, ApiPath("trigger", name), r)
  {
    if len == 0 { return -1; }
    var ok, n := PutText(buf, len, 0, "/api/trigger/");
    assert "/api/" + "trigger" + "/" == "/api/trigger/";
    if !ok { return -1; }
    ok, n := PutEncoded(buf, len, n, Uri, name);
    if !ok { return -1; }
    r := Close(buf, len, n, ApiPath("trigger", name));
  }

  /** A quoted, escaped string between two literals. */
  method PutQuoted(buf: array<char>, len: nat, n: nat, before: string, s: string, after: string)
    returns (ok: bool, n': nat)
    requires n < len <= buf.Length && CString(s)
    modifies buf
    ensures n' < len && Wrote(buf, len, n, Quoted(before, s, after), ok, n')
  {
    ghost var start, text := buf[..n], JsonEscape(s);
    ok, n' := PutText(buf, len, n, before);
    if !ok { return; }
    ok, n' := PutEncoded(buf, len, n', Json, s);
    if !ok { return; }
    ok, n' := PutText(buf, len, n', after);
    assert start + before + text + after == start + (before + text + after);
  }

  method PutTitle(buf: array<char>, len: nat, n: nat, title: Option<string>) returns (ok: bool, n': nat)
    requires n < len <= buf.Length && OptCString(title)
    modifies buf
    ensures n' < len && Wrote(buf, len, n, TitlePart(title), ok, n')
  {
    ok, n' := true, n;
    if title.Some? {
      ok, n' := PutQuoted(buf, len, n, TITLE_OPEN, title.value, QUOTE);
    } else {
      assert buf[..n] + "" == buf[..n];
    }
  }

  /** `tm_proto_owner_body` */
  method BuildOwnerBody(buf: array<char>, len: nat, id: string, host: Option<string>, title: Option<string>)
    returns (r: int)
    requires len <= buf.Length && CString(id) && OptCString(host) && OptCString(title)
    modifies buf
    ensures Built(buf, len, OwnerBody(id, host, title), r)
  {
    if len == 0 { return -1; }
    ghost var a, b, c := Quoted(ID_OPEN, id, HOST_OPEN), Quoted("", OrEmpty(host), QUOTE), TitlePart(title);
    assert buf[..0] + a == a;
    var ok, n := PutQuoted(buf, len, 0, ID_OPEN, id, HOST_OPEN);
    if !ok { return -1; }
    ok, n := PutQuoted(buf, len, n, "", OrEmpty(host), QUOTE);
    if !ok { return -1; }
    ok, n := PutTitle(buf, len, n, title);
    if !ok { return -1; }
    ok, n := Put(buf, len, n, '}');
    if !ok { return -1; }
    r := Close(buf, len, n, a + b + c + "}");
  }

  // ---------------------------------------------------------------------
  // Decoders
  // ---------------------------------------------------------------------

  function HexValue(c: char): int {
    if '0' <= c <= '9' then c as int - '0' as int
    else if 'a' <= c <= 'f' then c as int - 'a' as int + 10
    else if 'A' <= c <= 'F' then c as int - 'A' as int + 10
    else -1
  }

  /** RFC 3986: a percent sign and two hex digits stand for a byte, other characters for themselves. */
  function PercentDecode(s: string): Option<string>
    decreases |s|
  {
    if s == "" then Some("")
    else if s[0] != '%' then Prepend(s[0], PercentDecode(s[1..]))
    else if |s| < 3 || HexValue(s[1]) < 0 || HexValue(s[2]) < 0 then None
    else Prepend((HexValue(s[1]) * 16 + HexValue(s[2])) as char, PercentDecode(s[3..]))
  }

  function Prepend(c: char, s: Option<string>): Option<string> { if s.Some? then Some([c] + s.value) else None }

  datatype Scan = Scan(text: string, rest: string)

  function PrependScan(c: char, s: Option<Scan>): Option<Scan> {
    if s.Some? then Some(Scan([c] + s.value.text, s.value.rest)) else None
  }

  function SimpleEscape(c: char): int {
    if c == '"' || c == '\\' || c == '/' then c as int
    else if c == 'b' then 8 else if c == 'f' then 12
    else if c == 'n' then 10 else if c == 'r' then 13 else if c == 't' then 9
    else -1
  }

  /** RFC 8259: the rest of a string literal up to its closing quote.  Code points of one byte only. */
  function ReadString(s: string): Option<Scan>
    decreases |s|
  {
    if s == "" then None
    else if s[0] == '"' then Some(Scan("", s[1..]))
    else if s[0] < ' ' then None
    else if s[0] != '\\' then PrependScan(s[0], ReadString(s[1..]))
    else if |s| < 2 then None
    else if SimpleEscape(s[1]) >= 0 then PrependScan(SimpleEscape(s[1]) as char, ReadString(s[2..]))
    else if s[1] != 'u' || |s| < 6 || s[2] != '0' || s[3] != '0' || HexValue(s[4]) < 0 || HexValue(s[5]) < 0 then None
    else PrependScan((HexValue(s[4]) * 16 + HexValue(s[5])) as char, ReadString(s[6..]))
  }

  function After(s: string, lit: string): Option<string> {
    if lit <= s then Some(s[|lit|..]) else None
  }

  datatype Owner = Owner(id: string, host: string, title: Option<string>)

  /** A literal and the string behind it, up to the string's closing quote. */
  function ReadQuoted(s: string, before: string): Option<Scan> {
    var rest := After(s, before);
    if rest.Some? then ReadString(rest.value) else None
  }

  function ReadTitle(s: string): Option<Option<string>> {
    if s == "}" then Some(None) else
    var title := ReadQuoted(s, TITLE_OPEN);
    if title.Some? && title.value.rest == "}" then Some(Some(title.value.text)) else None
  }

  function ReadOwner(s: string): Option<Owner> {
    var id := ReadQuoted(s, ID_OPEN);
    if id.None? then None else
    var host := ReadQuoted(id.value.rest, HOST_OPEN[1..]);
    if host.None? then None else
    var title := ReadTitle(host.value.rest);
    if title.None? then None else Some(Owner(id.value.text, host.value.text, title.value))
  }

  // ---------------------------------------------------------------------
  // Round trips
  // ---------------------------------------------------------------------

  lemma HexRoundTrip(c: char, ten: char)
    requires (c as int) < 256 && (ten == 'a' || ten == 'A')
    ensures HexValue(Hex2(c, ten)[0]) == c as int / 16 && HexValue(Hex2(c, ten)[1]) == c as int % 16
  {}

  lemma EncodeSnoc(k: Scheme, s: string, c: char)
    requires 0 < c as int < 256 && CString(s)
    ensures Encode(k, s + [c]) == Encode(k, s) + EncodeChar(k, c)
  {
    assert (s + [c])[..|s|] == s;
  }

  lemma Regroup(a: string, b: string, c: string, x: string, y: string)
    requires x == a + b && y == b + c
    ensures x + c == a + y
  {}

  lemma {:induction false} EncodeCons(k: Scheme, c: char, s: string)
    requires 0 < c as int < 256 && CString(s)
    ensures Encode(k, [c] + s) == EncodeChar(k, c) + Encode(k, s)
    decreases |s|
  {
    if s == "" {
      EncodeSnoc(k, "", c);
      assert "" + [c] == [c] + s;
      assert EncodeChar(k, c) + "" == "" + EncodeChar(k, c);
    } else {
      var init, last := s[..|s| - 1], s[|s| - 1];
      assert [c] + s == ([c] + init) + [last];
      EncodeCons(k, c, init);
      EncodeSnoc(k, [c] + init, last);
      Regroup(EncodeChar(k, c), Encode(k, init), EncodeChar(k, last), Encode(k, [c] + init), Encode(k, s));
    }
  }

  lemma PercentDecodeOne(c: char, rest: string)
    requires 0 < c as int < 256
    ensures PercentDecode(Percent(c) + rest) == Prepend(c, PercentDecode(rest))
  {
    var t := Percent(c) + rest;
    if Unreserved(c) {
      assert t[1..] == rest;
    } else {
      HexRoundTrip(c, 'A');
      assert t[3..] == rest;
    }
  }

  /** Percent-decoding gives every name back. */
  lemma {:induction false} PercentRoundTrip(s: string)
    requires CString(s)
    ensures PercentDecode(PercentEncode(s)) == Some(s)
    decreases |s|
  {
    if s != "" {
      assert s == [s[0]] + s[1..];
      EncodeCons(Uri, s[0], s[1..]);
      PercentDecodeOne(s[0], PercentEncode(s[1..]));
      PercentRoundTrip(s[1..]);
    }
  }

  predicate PathSafe(t: string) { forall i :: 0 <= i < |t| ==> Unreserved(t[i]) || t[i] == '%' }

  /** An encoded name is made of unreserved characters and percent signs, so it cannot end the path early. */
  lemma {:induction false} PercentAlphabet(s: string)
    requires CString(s)
    ensures PathSafe(PercentEncode(s))
    decreases |s|
  {
    if s != "" {
      PercentAlphabet(s[..|s| - 1]);
      assert PathSafe(Percent(s[|s| - 1]));
    }
  }

  lemma ReadOne(c: char, rest: string)
    requires 0 < c as int < 256
    ensures ReadString(Escape(c) + rest) == PrependScan(c, ReadString(rest))
  {
    var t := Escape(c) + rest;
    if c == '"' || c == '\\' || c == '\n' || c == '\r' || c == '\t' {
      assert t[2..] == rest;
    } else if c < ' ' {
      HexRoundTrip(c, 'a');
      assert t[4] == Hex2(c, 'a')[0] && t[5] == Hex2(c, 'a')[1];
      assert t[6..] == rest;
    } else {
      assert t[1..] == rest;
    }
  }

  /** Reading an escaped string up to its quote gives the string back and stops exactly there. */
  lemma {:induction false} JsonRoundTrip(s: string, rest: string)
    requires CString(s)
    ensures ReadString(JsonEscape(s) + ("\"" + rest)) == Some(Scan(s, rest))
    decreases |s|
  {
    var end := "\"" + rest;
    if s == "" {
      assert JsonEscape(s) + end == end;
      assert end[1..] == rest;
    } else {
      assert s == [s[0]] + s[1..];
      EncodeCons(Json, s[0], s[1..]);
      var tail := JsonEscape(s[1..]) + end;
      Regroup(Escape(s[0]), JsonEscape(s[1..]), end, JsonEscape(s), tail);
      ReadOne(s[0], tail);
      JsonRoundTrip(s[1..], rest);
    }
  }

  lemma AfterLiteral(lit: string, rest: string)
    ensures After(lit + rest, lit) == Some(rest)
  {
    assert (lit + rest)[|lit|..] == rest;
  }

  lemma QuotedRoundTrip(before: string, s: string, rest: string)
    requires CString(s)
    ensures ReadQuoted(Quoted(before, s, QUOTE) + rest, before) == Some(Scan(s, rest))
  {
    var text := JsonEscape(s);
    assert before + text + QUOTE + rest == before + (text + (QUOTE + rest));
    AfterLiteral(before, text + (QUOTE + rest));
    JsonRoundTrip(s, rest);
  }

  lemma TitleRoundTrip(title: Option<string>)
    requires OptCString(title)
    ensures ReadTitle(TitlePart(title) + "}") == Some(title)
  {
    if title.Some? {
      QuotedRoundTrip(TITLE_OPEN, title.value, "}");
      assert (TitlePart(title) + "}")[0] == ',';
    } else {
      assert TitlePart(title) + "}" == "}";
    }
  }

  lemma OwnerParts(a: string, x: string, y: string, b: string, c: string)
    ensures a + x + (QUOTE + y) + ("" + b + QUOTE) + c + "}" == (a + x + QUOTE) + ((y + b + QUOTE) + (c + "}"))
  {}

  /** The owner body determines the id, the host and whether there is a title and which. */
  lemma OwnerRoundTrip(id: string, host: Option<string>, title: Option<string>)
    requires CString(id) && OptCString(host) && OptCString(title)
    ensures ReadOwner(OwnerBody(id, host, title)) == Some(Owner(id, OrEmpty(host), title))
  {
    var hostOpen := HOST_OPEN[1..];
    assert HOST_OPEN == QUOTE + hostOpen;
    var tail := TitlePart(title) + "}";
    OwnerParts(ID_OPEN, JsonEscape(id), hostOpen, JsonEscape(OrEmpty(host)), TitlePart(title));
    QuotedRoundTrip(ID_OPEN, id, Quoted(hostOpen, OrEmpty(host), QUOTE) + tail);
    QuotedRoundTrip(hostOpen, OrEmpty(host), tail);
    TitleRoundTrip(title);
  }

  lemma {:induction false} EscapeGrowth(s: string)
    requires CString(s)
    ensures |JsonEscape(s)| <= 6 * |s| && |PercentEncode(s)| <= 3 * |s|
    decreases |s|
  {
    if s != "" { EscapeGrowth(s[..|s| - 1]); }
  }

  /**
   The agent's buffers: a body without a title always fits its 1024 bytes, so the fallback after a title that does
   not fit succeeds; and the path of any stored macro name (at most 79 characters) fits its 256.
  */
  lemma AgentBuffersSuffice(id: string, host: string, name: string)
    requires CString(id) && CString(host) && CString(name) && |id| <= 95 && |host| <= 63 && |name| <= 79
    ensures |OwnerBody(id, Some(host), None)| + 1 <= 1024
    ensures |ApiPath("trigger", name)| + 1 <= 256 && |ApiPath("knob", name)| + 1 <= 256
  {
    EscapeGrowth(id);
    EscapeGrowth(host);
    EscapeGrowth(name);
  }

  /** In a path the unreserved characters of RFC 3986 stand as they are, and every other byte as three. */
  lemma PercentExactly(c: char)
    requires (c as int) < 256
    ensures Percent(c) == [c]
       <==> 'A' <= c <= 'Z' || 'a' <= c <= 'z' || '0' <= c <= '9' || c in ['-', '_', '.', '~']
    ensures Percent(c) != [c] ==>
      |Percent(c)| == 3 && Percent(c)[0] == '%'
      && forall i :: 1 <= i < 3 ==> '0' <= Percent(c)[i] <= '9' || 'A' <= Percent(c)[i] <= 'F'
  {}

  /** In a body only quote, backslash and the control characters are escaped. */
  lemma EscapedExactly(c: char)
    requires (c as int) < 256
    ensures Escape(c) == [c] <==> c != '"' && c != '\\' && c >= ' '
    ensures Escape(c) != [c] ==> |Escape(c)| >= 2 && Escape(c)[0] == '\\'
  {}

  /** A request goes to the verb's own path, and what follows it decodes to the name. */
  lemma PathNamesTheMacro(verb: string, name: string)
    requires CString(name)
    ensures var prefix := "/api/" + verb + "/";
      prefix <= ApiPath(verb, name) && PercentDecode(ApiPath(verb, name)[|prefix|..]) == Some(name)
  {
    var prefix := "/api/" + verb + "/";
    assert ApiPath(verb, name)[|prefix|..] == PercentEncode(name);
    PercentRoundTrip(name);
  }

  lemma PlainEncode(c: char)
    requires ' ' <= c && (c as int) < 256 && c != '"' && c != '\\'
    ensures JsonEscape([c]) == [c]
  {
    assert "" + [c] == [c] && [c][..0] == "";
    EncodeSnoc(Json, "", c);
  }

  /** The body's text, for an owner of one-letter fields. */
  lemma OwnerText(a: char, b: char, c: char)
    requires 'a' <= a <= 'z' && 'a' <= b <= 'z' && 'a' <= c <= 'z'
    ensures OwnerBody([a], Some([b]), Some([c]))
         == "{\"id\":\"" + [a] + "\",\"host\":\"" + [b] + "\",\"title\":\"" + [c] + "\"}"
    ensures OwnerBody([a], None, None) == "{\"id\":\"" + [a] + "\",\"host\":\"\"}"
  {
    PlainEncode(a);
    PlainEncode(b);
    PlainEncode(c);
  }
}
