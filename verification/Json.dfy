/** JSON strings (section 7 of RFC 8259) and the JSON object of a header, as the kernel prints them. */
module Json {
  import opened Protocol

  // ----- printing -----

  function HexDigit(d: nat): char
    requires d < 16
  {
    if d < 10 then ('0' as int + d) as char else ('a' as int + d - 10) as char
  }

  /** Quotes, backslashes and control characters are escaped; everything else stands for itself. */
  function EscapeChar(c: char): (s: string)
    ensures s != []
  {
    if c == '\"' then "\\\""
    else if c == '\\' then "\\\\"
    else if c == '\U{0008}' then "\\b"
    else if c == '\U{000C}' then "\\f"
    else if c == '\n' then "\\n"
    else if c == '\r' then "\\r"
    else if c == '\t' then "\\t"
    else if c < ' ' then "\\u00" + [HexDigit(c as int / 16), HexDigit(c as int % 16)]
    else [c]
  }

  function Escape(s: string): string {
    if s == [] then [] else EscapeChar(s[0]) + Escape(s[1..])
  }

  function Quote(s: string): string {
    "\"" + Escape(s) + "\""
  }

  // ----- reading -----

  function HexValue(c: char): Option<nat> {
    if '0' <= c <= '9' then Some(c as int - '0' as int)
    else if 'a' <= c <= 'f' then Some(c as int - 'a' as int + 10)
    else if 'A' <= c <= 'F' then Some(c as int - 'A' as int + 10)
    else None
  }

  function Hex4(s: string): Option<nat>
    requires |s| == 4
  {
    var a, b, c, d := HexValue(s[0]), HexValue(s[1]), HexValue(s[2]), HexValue(s[3]);
    if a.Some? && b.Some? && c.Some? && d.Some?
    then Some(((a.value * 16 + b.value) * 16 + c.value) * 16 + d.value)
    else None
  }

  /** The character that the front of a string body stands for, and how much of the body it takes. */
  function ReadChar(s: string): (r: Option<(char, nat)>)
    requires s != []
    ensures r.Some? ==> 1 <= r.value.1 <= |s|
  {
    if s[0] == '\"' || s[0] < ' ' then None
    else if s[0] != '\\' then Some((s[0], 1))
    else if |s| < 2 then None
    else if s[1] == '\"' || s[1] == '\\' || s[1] == '/' then Some((s[1], 2))
    else if s[1] == 'b' then Some(('\U{0008}', 2))
    else if s[1] == 'f' then Some(('\U{000C}', 2))
    else if s[1] == 'n' then Some(('\n', 2))
    else if s[1] == 'r' then Some(('\r', 2))
    else if s[1] == 't' then Some(('\t', 2))
    else if s[1] == 'u' && |s| >= 6 then
      match Hex4(s[2..6])
      case Some(n) => if n < 0xD800 || 0xE000 <= n < 0x10000 then Some((n as char, 6)) else None
      case None => None
    else None
  }

  /** A string body up to its closing quote, and what follows the quote. */
  function ReadBody(s: string): (r: Option<(string, string)>)
    ensures r.Some? ==> |r.value.1| < |s|
    decreases |s|
  {
    if s == [] then None
    else if s[0] == '\"' then Some(("", s[1..]))
    else
      match ReadChar(s)
      case None => None
      case Some((c, n)) =>
        match ReadBody(s[n..])
        case None => None
        case Some((text, rest)) => Some(([c] + text, rest))
  }

  lemma ReadEscapedChar(c: char, rest: string)
    ensures ReadChar(EscapeChar(c) + rest) == Some((c, |EscapeChar(c)|))
    ensures EscapeChar(c)[0] != '\"'
  {
    var e, s := EscapeChar(c), EscapeChar(c) + rest;
    assert s[0] == e[0] && (|e| > 1 ==> s[1] == e[1]);
    if |e| == 6 {
      assert s[2..6] == ['0', '0', e[4], e[5]];
      assert c as int == c as int / 16 * 16 + c as int % 16;
    }
  }

  /** Reading a printed string gives the string back, whatever it holds. */
  lemma {:induction false} ReadEscaped(s: string, rest: string)
    ensures ReadBody(Escape(s) + "\"" + rest) == Some((s, rest))
  {
    var t := Escape(s) + "\"" + rest;
    if s == [] {
      assert t[0] == '\"' && t[1..] == rest;
    } else {
      var tail := Escape(s[1..]) + "\"" + rest;
      assert t == EscapeChar(s[0]) + tail;
      assert t[0] == EscapeChar(s[0])[0];
      ReadEscapedChar(s[0], tail);
      assert t[|EscapeChar(s[0])|..] == tail;
      ReadEscaped(s[1..], rest);
      assert [s[0]] + s[1..] == s;
    }
  }

  // ----- objects of strings -----

  /** A member of an object: its name and its value. */
  type Member = (string, string)

  function PrintMember(m: Member): string {
    Quote(m.0) + ":" + Quote(m.1)
  }

  function PrintMembers(members: seq<Member>): string {
    if members == [] then ""
    else if |members| == 1 then PrintMember(members[0])
    else PrintMember(members[0]) + "," + PrintMembers(members[1..])
  }

  /** An object as it is printed: without white space. */
  function PrintObject(members: seq<Member>): string {
    "{" + PrintMembers(members) + "}"
  }

  function ReadString(s: string): (r: Option<(string, string)>)
    ensures r.Some? ==> |r.value.1| < |s|
  {
    if s == [] || s[0] != '\"' then None else ReadBody(s[1..])
  }

  /** A name, a colon and a value, and what follows them. */
  function ReadMember(s: string): (r: Option<(Member, string)>)
    ensures r.Some? ==> |r.value.1| < |s|
  {
    match ReadString(s)
    case None => None
    case Some((name, rest)) =>
      if rest == [] || rest[0] != ':' then None
      else
        match ReadString(rest[1..])
        case None => None
        case Some((value, more)) => Some(((name, value), more))
  }

  /** Members with commas between them, up to the closing brace that ends the text. */
  function ReadMembers(s: string): Option<seq<Member>>
    decreases |s|
  {
    match ReadMember(s)
    case None => None
    case Some((m, rest)) =>
      if rest == "}" then Some([m])
      else if rest == [] || rest[0] != ',' then None
      else
        match ReadMembers(rest[1..])
        case None => None
        case Some(more) => Some([m] + more)
  }

  /** The members of an object of strings, in the order of the text. */
  function ReadObject(s: string): Option<seq<Member>> {
    if s == "{}" then Some([])
    else if s == [] || s[0] != '{' then None
    else ReadMembers(s[1..])
  }

  lemma ReadQuoted(t: string, rest: string)
    ensures ReadString(Quote(t) + rest) == Some((t, rest))
  {
    var s := Quote(t) + rest;
    assert s[1..] == Escape(t) + "\"" + rest;
    ReadEscaped(t, rest);
  }

  lemma ReadPrintedMember(m: Member, rest: string)
    ensures ReadMember(PrintMember(m) + rest) == Some((m, rest))
  {
    var tail := Quote(m.1) + rest;
    assert PrintMember(m) + rest == Quote(m.0) + (":" + tail);
    ReadQuoted(m.0, ":" + tail);
    assert (":" + tail)[1..] == tail;
    ReadQuoted(m.1, rest);
  }

  lemma ReadLastMember(m: Member)
    ensures ReadMembers(PrintMember(m) + "}") == Some([m])
  {
    ReadPrintedMember(m, "}");
  }

  lemma {:induction false} ReadNextMember(m: Member, rest: string, more: seq<Member>)
    requires ReadMembers(rest) == Some(more)
    ensures ReadMembers(PrintMember(m) + ("," + rest)) == Some([m] + more)
  {
    ReadPrintedMember(m, "," + rest);
    assert ("," + rest)[1..] == rest;
  }

  lemma CommaBetween(a: string, b: string)
    ensures (a + "," + b) + "}" == a + ("," + (b + "}"))
  {
  }

  lemma {:induction false} ReadPrintedMembers(members: seq<Member>)
    requires members != []
    ensures ReadMembers(PrintMembers(members) + "}") == Some(members)
  {
    if |members| == 1 {
      ReadLastMember(members[0]);
      assert members == [members[0]];
    } else {
      var rest := PrintMembers(members[1..]);
      CommaBetween(PrintMember(members[0]), rest);
      ReadPrintedMembers(members[1..]);
      ReadNextMember(members[0], rest + "}", members[1..]);
      assert [members[0]] + members[1..] == members;
    }
  }

  /** Reading a printed object gives back its members, whatever their names and values hold. */
  lemma ReadPrintedObject(members: seq<Member>)
    ensures ReadObject(PrintObject(members)) == Some(members)
  {
    var s := PrintObject(members);
    if members == [] {
      assert s == "{}";
    } else {
      assert s[1..] == PrintMembers(members) + "}";
      ReadPrintedMembers(members);
      assert s[1] == PrintMember(members[0])[0] == '\"';
    }
  }

  // ----- headers -----

  /** The members of a header object in declaration order. */
  function HeaderMembers(h: Header): seq<Member> {
    [("msg_id", h.msgId), ("session", h.session), ("username", h.username),
     ("date", h.date), ("msg_type", h.msgType), ("version", h.version)]
  }

  function PrintHeader(h: Header): string {
    PrintObject(HeaderMembers(h))
  }

  /** The values of the members with this name. */
  function ValuesOf(members: seq<Member>, name: string): seq<string> {
    if members == [] then []
    else (if members[0].0 == name then [members[0].1] else []) + ValuesOf(members[1..], name)
  }

  /** A field is there exactly once; the derived reader refuses a missing or repeated one. */
  function Field(members: seq<Member>, name: string): Option<string> {
    var values := ValuesOf(members, name);
    if |values| == 1 then Some(values[0]) else None
  }

  /** A header from the members of an object in any order; members of other names are ignored. */
  function HeaderOf(members: seq<Member>): Option<Header> {
    var id, session, user := Field(members, "msg_id"), Field(members, "session"), Field(members, "username");
    var date, t, version := Field(members, "date"), Field(members, "msg_type"), Field(members, "version");
    if id.Some? && session.Some? && user.Some? && date.Some? && t.Some? && version.Some?
    then Some(Header(id.value, session.value, user.value, date.value, t.value, version.value))
    else None
  }

  function ReadHeader(s: string): Option<Header> {
    match ReadObject(s)
    case None => None
    case Some(members) => HeaderOf(members)
  }

  /** Whoever reads a printed header as an object finds these six members, by these names and in this order. */
  lemma HeaderHasItsMembers(h: Header)
    ensures ReadObject(PrintHeader(h)) == Some([
              ("msg_id", h.msgId), ("session", h.session), ("username", h.username),
              ("date", h.date), ("msg_type", h.msgType), ("version", h.version)])
  {
    ReadPrintedObject(HeaderMembers(h));
  }

  /** With distinct names, a member's name has its value alone. */
  lemma {:induction false} OnlyValue(members: seq<Member>, i: nat)
    requires i < |members| && forall j :: 0 <= j < |members| && members[j].0 == members[i].0 ==> j == i
    ensures ValuesOf(members, members[i].0) == [members[i].1]
  {
    if i == 0 {
      NoValue(members[1..], members[0].0);
    } else {
      OnlyValue(members[1..], i - 1);
    }
  }

  lemma {:induction false} NoValue(members: seq<Member>, name: string)
    requires forall j :: 0 <= j < |members| ==> members[j].0 != name
    ensures ValuesOf(members, name) == []
  {
    if members != [] {
      NoValue(members[1..], name);
    }
  }

  lemma NamesDiffer(h: Header, i: nat, j: nat)
    requires i < 6 && j < 6 && HeaderMembers(h)[i].0 == HeaderMembers(h)[j].0
    ensures i == j
  {
    var n := HeaderMembers(h)[i].0;
    assert |n| == 4 || |n| == 6 || n[0] == 's' || n[0] == 'u' || n[0] == 'm' || n[0] == 'v';
  }

  lemma HeaderField(h: Header, i: nat)
    requires i < 6
    ensures Field(HeaderMembers(h), HeaderMembers(h)[i].0) == Some(HeaderMembers(h)[i].1)
  {
    forall j | 0 <= j < 6 && HeaderMembers(h)[j].0 == HeaderMembers(h)[i].0 ensures j == i {
      NamesDiffer(h, i, j);
    }
    OnlyValue(HeaderMembers(h), i);
  }

  lemma HeaderFields(h: Header)
    ensures forall i :: 0 <= i < 6 ==> Field(HeaderMembers(h), HeaderMembers(h)[i].0) == Some(HeaderMembers(h)[i].1)
  {
    forall i | 0 <= i < 6
      ensures Field(HeaderMembers(h), HeaderMembers(h)[i].0) == Some(HeaderMembers(h)[i].1)
    {
      HeaderField(h, i);
    }
  }

  /** A header is read from its own members. */
  lemma {:induction false} HeaderOfMembers(h: Header)
    ensures HeaderOf(HeaderMembers(h)) == Some(h)
  {
    HeaderFields(h);
    var members := HeaderMembers(h);
    assert members[0].0 == "msg_id" && members[1].0 == "session" && members[2].0 == "username";
    assert members[3].0 == "date" && members[4].0 == "msg_type" && members[5].0 == "version";
  }

  /** Headers survive printing and reading, so their encoding is injective. */
  lemma {:induction false} HeaderRoundTrip(h: Header)
    ensures ReadHeader(PrintHeader(h)) == Some(h)
  {
    ReadPrintedObject(HeaderMembers(h));
    HeaderOfMembers(h);
  }

  /** No header prints as the empty object that stands for a missing parent. */
  lemma HeaderIsNotEmpty(h: Header)
    ensures PrintHeader(h) != "{}"
  {
    HeaderHasItsMembers(h);
  }
}
