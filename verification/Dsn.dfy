/** The connection string handed to pg_dump: how the program prints it and how libpq reads it.

    The reader follows the section "Keyword/Value Connection Strings" of the libpq chapter of the PostgreSQL
    manual: settings `keyword = value` with white space between them, spaces around the equal sign optional,
    values with spaces or empty ones in single quotes, quotes and backslashes in a value escaped with a
    backslash. */
module Dsn {
  import opened Text
  import opened Decimal

  datatype Pair = Pair(key: string, value: string)

  // ---------- libpq's reader ----------

  /** C's `isspace`. */
  predicate IsSpace(c: char) {
    c == ' ' || c == '\t' || c == '\n' || c == '\U{B}' || c == '\U{C}' || c == '\r'
  }

  function SkipSpace(s: string): (r: string)
    ensures |r| <= |s|
    ensures r != "" ==> !IsSpace(r[0])
    ensures s != "" && !IsSpace(s[0]) ==> r == s
  {
    if s != "" && IsSpace(s[0]) then SkipSpace(s[1..]) else s
  }

  /** A value without quotes: up to white space, a backslash taking the next character as it is. */
  function RawValue(s: string): (r: (string, string))
    ensures |r.1| <= |s|
  {
    if s == "" || IsSpace(s[0]) then ("", s)
    else if s[0] == '\\' then
      if |s| == 1 then ("", "") else var r := RawValue(s[2..]); ([s[1]] + r.0, r.1)
    else var r := RawValue(s[1..]); ([s[0]] + r.0, r.1)
  }

  function Prepend(c: char, r: Option<(string, string)>): Option<(string, string)> {
    if r.None? then None else Some(([c] + r.value.0, r.value.1))
  }

  /** The rest of a quoted value, after the opening quote; None when the closing one is missing. */
  function QuotedValue(s: string): (r: Option<(string, string)>)
    ensures r.Some? ==> |r.value.1| < |s|
  {
    if s == "" then None
    else if s[0] == '\'' then Some(("", s[1..]))
    else if s[0] == '\\' then
      if |s| == 1 then None else Prepend(s[1], QuotedValue(s[2..]))
    else Prepend(s[0], QuotedValue(s[1..]))
  }

  function Value(s: string): (r: Option<(string, string)>)
    ensures r.Some? ==> |r.value.1| <= |s|
  {
    if s != "" && s[0] == '\'' then QuotedValue(s[1..]) else Some(RawValue(s))
  }

  function NameLength(s: string): (n: nat)
    ensures n <= |s|
  {
    if s == "" || s[0] == '=' || IsSpace(s[0]) then 0 else 1 + NameLength(s[1..])
  }

  function Parse(s: string): Option<seq<Pair>>
    decreases |s|
  {
    var text := SkipSpace(s);
    if text == "" then Some([])
    else
      var n := NameLength(text);
      var rest := SkipSpace(text[n..]);
      if rest == "" || rest[0] != '=' then None
      else
        var v := Value(SkipSpace(rest[1..]));
        if v.None? then None
        else
          var more := Parse(v.value.1);
          if more.None? then None else Some([Pair(text[..n], v.value.0)] + more.value)
  }

  // ---------- the program's printer ----------

  /** `strings.ReplaceAll` for a single character. */
  function Replace(s: string, c: char, with: string): string {
    if s == "" then "" else (if s[0] == c then with else [s[0]]) + Replace(s[1..], c, with)
  }

  /** Contains one of the characters that make `dsnEscape` quote. */
  predicate NeedsQuotes(s: string) {
    ' ' in s || '\\' in s || '\'' in s || '=' in s
  }

  /** The two replacements of `dsnEscape`: backslashes first, so that the second does not double its own. */
  function Quoted(s: string): string {
    Replace(Replace(s, '\\', "\\\\"), '\'', "\\'")
  }

  /** `dsnEscape`. */
  function Escape(s: string): string {
    if !NeedsQuotes(s) then s else "'" + Quoted(s) + "'"
  }

  /** A printed setting: `value` is what it should mean. Host, database and user are escaped, the other
      settings are printed as they are. */
  datatype Part = Escaped(key: string, value: string) | Raw(key: string, value: string)

  function Printed(p: Part): string {
    match p
    case Escaped(_, v) => Escape(v)
    case Raw(_, v) => v
  }

  datatype Parts = End | Setting(part: Part, rest: Parts)

  /** The settings joined with spaces. */
  function Render(parts: Parts): string
    decreases parts, 0
  {
    match parts
    case End => ""
    case Setting(p, rest) => p.key + "=" + Printed(p) + TailOf(rest)
  }

  function TailOf(parts: Parts): string
    decreases parts, 1
  {
    if parts.End? then "" else " " + Render(parts)
  }

  function Pairs(parts: Parts): seq<Pair> {
    match parts
    case End => []
    case Setting(p, rest) => [Pair(p.key, p.value)] + Pairs(rest)
  }

  // ---------- which values survive ----------

  predicate NoSpace(s: string) {
    forall c :: c in s ==> !IsSpace(c)
  }

  /** Survives unquoted. */
  predicate Plain(s: string) {
    s != "" && NoSpace(s) && '\\' !in s && s[0] != '\''
  }

  /** The guard a caller can check: an escaped value is quoted or plain, any other one plain. */
  predicate Fits(p: Part) {
    match p
    case Escaped(_, v) => NeedsQuotes(v) || Plain(v)
    case Raw(_, v) => Plain(v)
  }

  predicate PlainKey(k: string) {
    k != "" && NoSpace(k) && '=' !in k && '\\' !in k && '\'' !in k
  }

  /** What follows a value: nothing, or a separating space and the next setting. */
  predicate Tail(t: string) {
    t == "" || (|t| > 1 && t[0] == ' ' && !IsSpace(t[1]) && t[1] != '\'' && t[1] != '\\')
  }

  lemma QuotedStep(c: char, s: string)
    ensures Quoted([c] + s) == (if c == '\\' || c == '\'' then ['\\', c] else [c]) + Quoted(s)
  {
    var inner := Replace(s, '\\', "\\\\");
    assert ([c] + s)[1..] == s;
    if c == '\\' {
      assert Replace([c] + s, '\\', "\\\\") == ['\\', '\\'] + inner;
      assert (['\\', '\\'] + inner)[1..] == ['\\'] + inner && (['\\'] + inner)[1..] == inner;
      assert Replace(['\\'] + inner, '\'', "\\'") == ['\\'] + Quoted(s);
    } else {
      assert Replace([c] + s, '\\', "\\\\") == [c] + inner;
      assert ([c] + inner)[1..] == inner;
    }
  }

  lemma {:induction false} QuotedReads(s: string, tail: string)
    ensures QuotedValue(Quoted(s) + "'" + tail) == Some((s, tail))
  {
    var whole := Quoted(s) + "'" + tail;
    if s == "" {
      assert whole == "'" + tail;
    } else {
      var rest := Quoted(s[1..]) + "'" + tail;
      QuotedReads(s[1..], tail);
      assert s == [s[0]] + s[1..];
      QuotedStep(s[0], s[1..]);
      if s[0] == '\\' || s[0] == '\'' {
        assert whole == ['\\', s[0]] + rest;
        assert whole[2..] == rest;
      } else {
        assert whole == [s[0]] + rest;
        assert whole[1..] == rest;
      }
    }
  }

  /** An unquoted value without backslashes reads as itself, or as something shorter when it holds white space. */
  lemma {:induction false} RawReads(s: string, tail: string)
    requires '\\' !in s && Tail(tail)
    ensures NoSpace(s) ==> RawValue(s + tail) == (s, tail)
    ensures !NoSpace(s) ==> |RawValue(s + tail).0| < |s|
  {
    if s == "" {
      assert s + tail == tail;
    } else {
      assert (s + tail)[1..] == s[1..] + tail;
      assert s == [s[0]] + s[1..];
      RawReads(s[1..], tail);
    }
  }

  /** What an unquoted value with backslashes reads as: it loses a character, or swallows the separator. */
  lemma {:induction false} RawLoses(s: string, tail: string)
    requires Tail(tail) && (tail != "" ==> NoSpace(tail[1..]) && '\\' !in tail[1..])
    ensures var r := RawValue(s + tail).0;
            || (r == s && '\\' !in s && NoSpace(s))
            || |r| < |s|
            || (s != "" && tail != "" && r != "" && s[|s|-1] == '\\' && r[|r|-1] == tail[|tail|-1])
  {
    if s == "" {
      assert s + tail == tail;
    } else if IsSpace(s[0]) {
    } else if s[0] == '\\' {
      if |s| == 1 {
        if tail != "" {
          assert (s + tail)[2..] == tail[1..];
          RawReads(tail[1..], "");
          assert tail[1..] + "" == tail[1..];
        }
      } else {
        assert (s + tail)[2..] == s[2..] + tail && (s + tail)[1] == s[1];
        RawLoses(s[2..], tail);
      }
    } else {
      assert (s + tail)[1..] == s[1..] + tail;
      assert s == [s[0]] + s[1..];
      RawLoses(s[1..], tail);
    }
  }

  lemma {:induction false} QuotedLoses(s: string, tail: string)
    requires '\'' !in tail
    ensures QuotedValue(s + tail).Some? ==> |QuotedValue(s + tail).value.0| < |s|
  {
    if s == "" {
      assert s + tail == tail;
      NeverCloses(tail);
    } else if s[0] == '\'' {
    } else if s[0] == '\\' {
      if |s| == 1 {
        if tail != "" {
          assert (s + tail)[2..] == tail[1..];
          NeverCloses(tail[1..]);
        }
      } else {
        assert (s + tail)[2..] == s[2..] + tail;
        QuotedLoses(s[2..], tail);
      }
    } else {
      assert (s + tail)[1..] == s[1..] + tail;
      QuotedLoses(s[1..], tail);
    }
  }

  lemma {:induction false} NeverCloses(s: string)
    requires '\'' !in s
    ensures QuotedValue(s) == None
  {
    if s != "" {
      if s[0] == '\\' {
        if |s| > 1 { NeverCloses(s[2..]); }
      } else {
        NeverCloses(s[1..]);
      }
    }
  }

  lemma {:induction false} SkipInto(s: string, tail: string)
    ensures SkipSpace(s + tail) == if SkipSpace(s) == "" then SkipSpace(tail) else SkipSpace(s) + tail
    ensures |SkipSpace(s)| == |s| ==> s == "" || !IsSpace(s[0])
    ensures SkipSpace(s) != "" ==> SkipSpace(s)[|SkipSpace(s)|-1] == s[|s|-1]
    ensures forall c :: c in SkipSpace(s) ==> c in s
    ensures |SkipSpace(s)| == |s| ==> SkipSpace(s) == s
  {
    if s == "" {
      assert s + tail == tail;
    } else if IsSpace(s[0]) {
      assert (s + tail)[1..] == s[1..] + tail;
      SkipInto(s[1..], tail);
    } else {
      assert SkipSpace(s + tail) == s + tail;
    }
  }

  /** A fitting value reads as itself and leaves what follows. */
  lemma FittingReads(p: Part, tail: string)
    requires Fits(p) && Tail(tail)
    ensures Value(SkipSpace(Printed(p) + tail)) == Some((p.value, tail))
  {
    var v := p.value;
    if p.Escaped? && NeedsQuotes(v) {
      QuotedReads(v, tail);
      var body := Quoted(v) + "'" + tail;
      assert Printed(p) + tail == "'" + body;
      assert ("'" + body)[1..] == body;
    } else {
      assert v[0] in v;
      RawReads(v, tail);
    }
  }

  /** A raw value that is not plain, read from its first non-space character on. */
  lemma RawMisfitLoses(v: string, inner: string, tail: string)
    requires v != "" && !Plain(v) && Tail(tail)
    requires inner != "" && !IsSpace(inner[0]) && |inner| <= |v| && (|inner| == |v| ==> inner == v)
    requires inner[|inner|-1] == v[|v|-1]
    requires tail != "" ==> NoSpace(tail[1..]) && '\\' !in tail[1..] && '\'' !in tail
    ensures var r := Value(inner + tail); r.None? || r.value.0 != v
  {
    if inner[0] == '\'' {
      assert (inner + tail)[1..] == inner[1..] + tail;
      QuotedLoses(inner[1..], tail);
    } else {
      RawLoses(inner, tail);
      if tail != "" { assert tail[|tail|-1] == tail[1..][|tail|-2]; }
    }
  }

  lemma EscapedMisfitLoses(v: string, inner: string, tail: string)
    requires v != "" && !Plain(v) && !NeedsQuotes(v) && Tail(tail)
    requires inner != "" && !IsSpace(inner[0]) && |inner| <= |v| && (|inner| == |v| ==> inner == v)
    requires forall c :: c in inner ==> c in v
    ensures var r := Value(inner + tail); r.None? || r.value.0 != v
  {
    assert inner[0] in inner;
    assert '\\' !in inner && (inner + tail)[0] == inner[0];
    RawReads(inner, tail);
  }

  /** Whatever follows, a value that does not fit is not read back: it is cut short, read as something else,
      or swallows the next setting. */
  lemma MisfitLoses(p: Part, tail: string)
    requires !Fits(p) && Tail(tail) && (p.value != "" || tail != "")
    requires p.Raw? && tail != "" ==> NoSpace(tail[1..]) && '\\' !in tail[1..] && '\'' !in tail
    ensures var v := Value(SkipSpace(Printed(p) + tail)); v.None? || v.value.0 != p.value
  {
    var v := p.value;
    var inner := SkipSpace(v);
    SkipInto(v, tail);
    if inner == "" {
      SkippedTail(tail);
    } else if p.Escaped? {
      EscapedMisfitLoses(v, inner, tail);
    } else {
      RawMisfitLoses(v, inner, tail);
    }
  }

  /** Reading on from the tail gives nothing, or a value that starts with a character of the next setting. */
  lemma SkippedTail(tail: string)
    requires Tail(tail)
    ensures var r := Value(SkipSpace(tail));
            r.Some? && (tail == "" ==> r.value.0 == "") && (tail != "" ==> r.value.0 != "" && !IsSpace(r.value.0[0]))
  {
    if tail != "" {
      assert SkipSpace(tail) == tail[1..];
    }
  }

  lemma {:induction false} NameReads(key: string, rest: string)
    requires PlainKey(key) || key == ""
    ensures NameLength(key + "=" + rest) == |key|
  {
    var text := key + "=" + rest;
    if key != "" {
      assert key[0] in key;
      assert text[1..] == key[1..] + "=" + rest;
      NameReads(key[1..], rest);
    } else {
      assert text == "=" + rest;
    }
  }

  /** One step of the reader on a printed setting. */
  lemma SettingReads(p: Part, tail: string)
    requires PlainKey(p.key)
    ensures var v := Value(SkipSpace(Printed(p) + tail));
            Parse(p.key + "=" + Printed(p) + tail) ==
              if v.None? || Parse(v.value.1).None? then None
              else Some([Pair(p.key, v.value.0)] + Parse(v.value.1).value)
  {
    var text := p.key + "=" + Printed(p) + tail;
    var body := Printed(p) + tail;
    assert text == p.key + "=" + body;
    assert p.key[0] in p.key && text[0] == p.key[0];
    NameReads(p.key, body);
    assert text[..|p.key|] == p.key;
    assert text[|p.key|..] == "=" + body;
    assert ("=" + body)[1..] == body;
  }

  // ---------- the whole string ----------

  predicate AllFit(parts: Parts) {
    parts.Setting? ==> Fits(parts.part) && AllFit(parts.rest)
  }

  /** The last setting, printed as it is and free of anything the reader treats specially. */
  predicate PlainLast(parts: Parts) {
    parts.Setting? && parts.part.Raw? && Fits(parts.part) && '\'' !in parts.part.value && parts.rest.End?
  }

  /** The shapes the program prints: every unescaped setting fits, but for the last or the last but one. */
  predicate Printable(parts: Parts) {
    parts.Setting? ==>
      && PlainKey(parts.part.key)
      && (parts.rest.End? ==> parts.part.value != "")
      && (parts.part.Raw? ==> Fits(parts.part) || parts.rest.End? || PlainLast(parts.rest))
      && Printable(parts.rest)
  }

  lemma TailShape(parts: Parts)
    requires Printable(parts)
    ensures Tail(TailOf(parts))
    ensures Parse(TailOf(parts)) == Parse(Render(parts))
    ensures PlainLast(parts) ==> var t := TailOf(parts); NoSpace(t[1..]) && '\\' !in t[1..] && '\'' !in t
  {
    if parts.Setting? {
      var k := parts.part.key;
      assert k[0] in k && Render(parts)[0] == k[0];
      assert TailOf(parts)[1..] == Render(parts);
    }
  }

  /** Reading past a setting that fits. */
  lemma FittingStep(parts: Parts)
    requires parts.Setting? && Printable(parts) && Fits(parts.part)
    ensures var rest := Parse(Render(parts.rest));
            Parse(Render(parts)) == if rest.None? then None else Some([Pair(parts.part.key, parts.part.value)] + rest.value)
  {
    TailShape(parts.rest);
    SettingReads(parts.part, TailOf(parts.rest));
    FittingReads(parts.part, TailOf(parts.rest));
  }

  /** Reading goes wrong at a setting that does not fit. */
  lemma MisfitStep(parts: Parts)
    requires parts.Setting? && Printable(parts) && !Fits(parts.part)
    ensures var r := Parse(Render(parts)); r.None? || (r.value != [] && r.value[0].value != parts.part.value)
  {
    TailShape(parts.rest);
    SettingReads(parts.part, TailOf(parts.rest));
    MisfitLoses(parts.part, TailOf(parts.rest));
  }

  lemma {:induction false} RoundTrip(parts: Parts)
    requires Printable(parts)
    ensures Parse(Render(parts)) == Some(Pairs(parts)) <==> AllFit(parts)
  {
    if parts.Setting? {
      if Fits(parts.part) {
        FittingStep(parts);
        RoundTrip(parts.rest);
        var rest := Parse(Render(parts.rest));
        assert rest.Some? ==> ([Pair(parts.part.key, parts.part.value)] + rest.value)[1..] == rest.value;
        assert Pairs(parts)[1..] == Pairs(parts.rest);
      } else {
        MisfitStep(parts);
      }
    }
  }

  // ---------- buildConnDSN ----------

  /** What `url.Parse` gives for the configured database URL. */
  datatype Url = Url(host: string, port: string, path: string, user: string, sslmode: string)

  predicate IsPort(s: string) {
    s != "" && AllDigits(s)
  }

  function Database(path: string): string {
    var name := if path != "" && path[0] == '/' then path[1..] else path;
    if name == "" then "postgres" else name
  }

  function Port(u: Url): string {
    if u.port == "" then "5432" else u.port
  }

  function SslMode(u: Url): string {
    if u.sslmode == "" then "require" else u.sslmode
  }

  function AddressParts(hostaddr: string): Parts {
    if hostaddr == "" then End else Setting(Raw("hostaddr", hostaddr), End)
  }

  function LastParts(u: Url, hostaddr: string): Parts {
    Setting(Raw("sslmode", SslMode(u)), AddressParts(hostaddr))
  }

  function UserParts(u: Url, hostaddr: string): Parts {
    Setting(Escaped("user", u.user), LastParts(u, hostaddr))
  }

  /** The settings `buildConnDSN` prints. */
  function PartsOf(u: Url, hostaddr: string): Parts {
    Setting(Escaped("host", u.host),
            Setting(Raw("port", Port(u)),
                    Setting(Escaped("dbname", Database(u.path)), UserParts(u, hostaddr))))
  }

  /** The address search: the first resolved address that is IPv4, unless the host is one itself or the lookup
      failed. */
  method HostAddr(host: string, lookup: Option<seq<string>>, isV4: string -> bool) returns (addr: string)
    requires !isV4("")
    ensures addr != "" <==> !isV4(host) && lookup.Some? && exists a :: a in lookup.value && isV4(a)
    ensures addr != "" ==> exists i :: 0 <= i < |lookup.value| && lookup.value[i] == addr && isV4(addr)
                                       && forall j :: 0 <= j < i ==> !isV4(lookup.value[j])
  {
    addr := "";
    if !isV4(host) && lookup.Some? {
      var i := 0;
      while i < |lookup.value|
        invariant 0 <= i <= |lookup.value|
        invariant addr == "" && forall j :: 0 <= j < i ==> !isV4(lookup.value[j])
      {
        if isV4(lookup.value[i]) {
          addr := lookup.value[i];
          break;
        }
        i := i + 1;
      }
    }
  }

  /** The text of an IP address. */
  predicate IsAddr(s: string) {
    s != "" && forall c :: c in s ==> IsDigit(c) || 'a' <= c <= 'f' || 'A' <= c <= 'F' || c == '.' || c == ':'
  }

  /** The inputs whose connection string survives: host, database and user are quoted or plain, the SSL mode,
      which is never quoted, is plain. */
  predicate Survives(u: Url) {
    && (NeedsQuotes(u.host) || Plain(u.host))
    && (NeedsQuotes(Database(u.path)) || Plain(Database(u.path)))
    && (NeedsQuotes(u.user) || Plain(u.user))
    && (u.sslmode == "" || Plain(u.sslmode))
  }

  lemma PartsPrintable(u: Url, hostaddr: string)
    requires u.port == "" || IsPort(u.port)
    requires hostaddr == "" || IsAddr(hostaddr)
    ensures Printable(PartsOf(u, hostaddr)) && Printable(UserParts(u, hostaddr))
    ensures Plain(Port(u)) && (hostaddr != "" ==> Plain(hostaddr))
  {
    if u.port != "" { assert u.port[0] in u.port; }
    if hostaddr != "" { assert hostaddr[0] in hostaddr; }
    KeysArePlain();
    var last := LastParts(u, hostaddr);
    assert PlainLast(last.rest) || last.rest.End?;
    assert Printable(last.rest);
    assert Printable(last);
    assert Printable(UserParts(u, hostaddr));
    assert Printable(PartsOf(u, hostaddr).rest.rest);
    assert Printable(PartsOf(u, hostaddr).rest);
  }

  lemma KeysArePlain()
    ensures PlainKey("host") && PlainKey("port") && PlainKey("dbname")
    ensures PlainKey("user") && PlainKey("sslmode") && PlainKey("hostaddr")
  {
    assert PlainKey("host");
    assert PlainKey("port");
    assert PlainKey("dbname");
  }

  /** libpq reads the program's connection string back as exactly the settings meant, if and only if the
      input survives. */
  lemma DsnRoundTrip(u: Url, hostaddr: string)
    requires u.port == "" || IsPort(u.port)
    requires hostaddr == "" || IsAddr(hostaddr)
    ensures Parse(Render(PartsOf(u, hostaddr))) == Some(Pairs(PartsOf(u, hostaddr))) <==> Survives(u)
  {
    var parts := PartsOf(u, hostaddr);
    PartsPrintable(u, hostaddr);
    RoundTrip(parts);
    assert Plain("require");
    assert AllFit(LastParts(u, hostaddr).rest);
    assert AllFit(LastParts(u, hostaddr)) <==> Plain(SslMode(u));
    assert AllFit(UserParts(u, hostaddr)) <==> Fits(Escaped("user", u.user)) && AllFit(LastParts(u, hostaddr));
    assert AllFit(parts.rest.rest) <==> Fits(Escaped("dbname", Database(u.path))) && AllFit(UserParts(u, hostaddr));
    assert AllFit(parts.rest) <==> AllFit(parts.rest.rest);
  }

  /** What libpq makes of the address setting that may follow. */
  function AddressPairs(hostaddr: string): seq<Pair> {
    if hostaddr == "" then [] else [Pair("hostaddr", hostaddr)]
  }

  lemma AddressReads(hostaddr: string)
    requires hostaddr == "" || IsAddr(hostaddr)
    ensures Tail(TailOf(AddressParts(hostaddr)))
    ensures Parse(TailOf(AddressParts(hostaddr))) == Some(AddressPairs(hostaddr))
  {
    KeysArePlain();
    assert Parse(Render(End)) == Some([]);
    if hostaddr != "" {
      assert hostaddr[0] in hostaddr;
      TailShape(AddressParts(hostaddr));
      FittingStep(AddressParts(hostaddr));
      assert [Pair("hostaddr", hostaddr)] + [] == [Pair("hostaddr", hostaddr)];
    }
  }

  lemma EmptyValueSwallows(p: Part, rest: Parts, next: string, after: Parts)
    requires PlainKey(p.key) && p.value == "" && TailOf(rest) == " " + next + TailOf(after)
    requires Value(SkipSpace(" " + next + TailOf(after))) == Some((next, TailOf(after)))
    requires Parse(TailOf(after)).Some?
    ensures Parse(Render(Setting(p, rest))) == Some([Pair(p.key, next)] + Parse(TailOf(after)).value)
  {
    assert Printed(p) == "";
    assert Printed(p) + TailOf(rest) == TailOf(rest);
    SettingReads(p, TailOf(rest));
  }

  lemma SettingAsValue(p: Part, after: Parts)
    requires p.Raw? && Fits(p) && PlainKey(p.key) && Tail(TailOf(after))
    ensures var text := p.key + "=" + p.value;
            && TailOf(Setting(p, after)) == " " + text + TailOf(after)
            && Value(SkipSpace(" " + text + TailOf(after))) == Some((text, TailOf(after)))
  {
    var text := p.key + "=" + p.value;
    var body := text + TailOf(after);
    assert p.key[0] in p.key && body[0] == p.key[0];
    assert " " + text + TailOf(after) == " " + body && (" " + body)[1..] == body;
    assert SkipSpace(" " + body) == body;
    RawReads(text, TailOf(after));
  }

  /** An empty value printed without quotes takes the whole next setting for itself. */
  lemma EmptySwallowsNext(key: string, p: Part, after: Parts)
    requires PlainKey(key) && p.Raw? && Fits(p) && PlainKey(p.key)
    requires Tail(TailOf(after)) && Parse(TailOf(after)).Some?
    ensures Parse(Render(Setting(Escaped(key, ""), Setting(p, after)))) ==
              Some([Pair(key, p.key + "=" + p.value)] + Parse(TailOf(after)).value)
  {
    SettingAsValue(p, after);
    EmptyValueSwallows(Escaped(key, ""), Setting(p, after), p.key + "=" + p.value, after);
  }

  lemma UserTakesSslMode(u: Url, hostaddr: string)
    requires u.user == "" && (u.sslmode == "" || Plain(u.sslmode))
    requires hostaddr == "" || IsAddr(hostaddr)
    ensures Parse(Render(UserParts(u, hostaddr))) == Some([Pair("user", "sslmode=" + SslMode(u))] + AddressPairs(hostaddr))
  {
    KeysArePlain();
    assert Plain("require");
    AddressReads(hostaddr);
    EmptySwallowsNext("user", Raw("sslmode", SslMode(u)), AddressParts(hostaddr));
    assert "sslmode" + "=" == "sslmode=";
  }

  /** The first three settings, when host and database survive, in front of whatever follows. */
  lemma FirstThreeRead(u: Url, hostaddr: string)
    requires u.port == "" || IsPort(u.port)
    requires hostaddr == "" || IsAddr(hostaddr)
    requires NeedsQuotes(u.host) || Plain(u.host)
    requires NeedsQuotes(Database(u.path)) || Plain(Database(u.path))
    ensures var rest := Parse(Render(UserParts(u, hostaddr)));
            Parse(Render(PartsOf(u, hostaddr))) ==
              if rest.None? then None
              else Some([Pair("host", u.host)] + ([Pair("port", Port(u))] + ([Pair("dbname", Database(u.path))] + rest.value)))
  {
    PartsPrintable(u, hostaddr);
    var parts := PartsOf(u, hostaddr);
    FittingStep(parts);
    FittingStep(parts.rest);
    FittingStep(parts.rest.rest);
  }

  lemma FourAhead(a: Pair, b: Pair, c: Pair, d: Pair, rest: seq<Pair>)
    ensures [a] + ([b] + ([c] + ([d] + rest))) == [a, b, c, d] + rest
  {
  }

  /** A URL without a user: from the program's string libpq reads host, port and database as they are meant, takes the
      whole SSL setting for the user name, and no SSL mode is set at all. */
  lemma EmptyUserTakesSslMode(u: Url, hostaddr: string)
    requires u.port == "" || IsPort(u.port)
    requires hostaddr == "" || IsAddr(hostaddr)
    requires NeedsQuotes(u.host) || Plain(u.host)
    requires NeedsQuotes(Database(u.path)) || Plain(Database(u.path))
    requires u.user == "" && (u.sslmode == "" || Plain(u.sslmode))
    ensures Parse(Render(PartsOf(u, hostaddr))) ==
              Some([Pair("host", u.host), Pair("port", Port(u)), Pair("dbname", Database(u.path)),
                    Pair("user", "sslmode=" + SslMode(u))] + AddressPairs(hostaddr))
  {
    FirstThreeRead(u, hostaddr);
    UserTakesSslMode(u, hostaddr);
    FourAhead(Pair("host", u.host), Pair("port", Port(u)), Pair("dbname", Database(u.path)),
              Pair("user", "sslmode=" + SslMode(u)), AddressPairs(hostaddr));
  }

  /** A value that the printed string gives back: one with a character that makes the program quote it, or a value
      that is not empty and holds no white space. */
  predicate ReadsBack(v: string) {
    ' ' in v || '\\' in v || '\'' in v || '=' in v
    || (v != "" && '\t' !in v && '\n' !in v && '\U{B}' !in v && '\U{C}' !in v && '\r' !in v)
  }

  lemma ReadsBackFits(v: string)
    ensures ReadsBack(v) <==> NeedsQuotes(v) || Plain(v)
  {
    assert v != "" ==> v[0] in v;
  }

  /** What the string says, with the database named by the path and each default in its place. */
  lemma DsnSays(u: Url, hostaddr: string, name: string)
    requires u.port == "" || IsPort(u.port)
    requires hostaddr == "" || IsAddr(hostaddr)
    requires (name != "" && u.path == "/" + name) || (name == "postgres" && (u.path == "" || u.path == "/"))
    requires ReadsBack(u.host) && ReadsBack(name) && ReadsBack(u.user) && (u.sslmode == "" || Plain(u.sslmode))
    ensures Parse(Render(PartsOf(u, hostaddr))) == Some(
              [Pair("host", u.host), Pair("port", if u.port == "" then "5432" else u.port), Pair("dbname", name),
               Pair("user", u.user), Pair("sslmode", if u.sslmode == "" then "require" else u.sslmode)]
              + if hostaddr == "" then [] else [Pair("hostaddr", hostaddr)])
  {
    ReadsBackFits(u.host);
    ReadsBackFits(name);
    ReadsBackFits(u.user);
    assert u.path != "" ==> u.path[1..] == name || name == "postgres";
    assert Database(u.path) == name;
    DsnRoundTrip(u, hostaddr);
    PairsSpelled(u, hostaddr);
  }

  lemma PairsSpelled(u: Url, hostaddr: string)
    ensures Pairs(PartsOf(u, hostaddr)) ==
              [Pair("host", u.host), Pair("port", Port(u)), Pair("dbname", Database(u.path)),
               Pair("user", u.user), Pair("sslmode", SslMode(u))]
              + if hostaddr == "" then [] else [Pair("hostaddr", hostaddr)]
  {
    var last, address := LastParts(u, hostaddr), AddressParts(hostaddr);
    assert Pairs(End) == [];
    assert Pairs(address) == if hostaddr == "" then [] else [Pair("hostaddr", hostaddr)] + [];
    assert Pairs(last) == [Pair("sslmode", SslMode(u))] + Pairs(address);
    assert Pairs(UserParts(u, hostaddr)) == [Pair("user", u.user)] + Pairs(last);
    var parts := PartsOf(u, hostaddr);
    assert Pairs(parts.rest.rest) == [Pair("dbname", Database(u.path))] + Pairs(UserParts(u, hostaddr));
    assert Pairs(parts.rest) == [Pair("port", Port(u))] + Pairs(parts.rest.rest);
    FourAhead(Pair("host", u.host), Pair("port", Port(u)), Pair("dbname", Database(u.path)), Pair("user", u.user), Pairs(last));
  }

  lemma RenderOne(p: Part)
    ensures Render(Setting(p, End)) == p.key + "=" + Printed(p)
  {
    assert TailOf(End) == "";
  }

  lemma RenderMore(p: Part, rest: Parts)
    requires rest.Setting?
    ensures Render(Setting(p, rest)) == p.key + "=" + Printed(p) + (" " + Render(rest))
  {
  }

  lemma AsTyped(key: string, v: string)
    requires !NeedsQuotes(v)
    ensures Printed(Escaped(key, v)) == v && Printed(Raw(key, v)) == v
  {
  }

  /** One setting in front of others, its text known. */
  lemma Ahead(p: Part, rest: Parts, text: string)
    requires rest.Setting? && text == p.key + "=" + Printed(p) + " "
    ensures Render(Setting(p, rest)) == text + Render(rest)
  {
    RenderMore(p, rest);
    assert p.key + "=" + Printed(p) + (" " + Render(rest)) == p.key + "=" + Printed(p) + " " + Render(rest);
  }

  lemma SettingTexts()
    ensures "host" + "=" + "db.x.co" + " " == "host=db.x.co "
    ensures "port" + "=" + "5432" + " " == "port=5432 "
    ensures "dbname" + "=" + "app" + " " == "dbname=app "
    ensures "user" + "=" + "u" + " " == "user=u "
    ensures "sslmode" + "=" + "require" == "sslmode=require"
  {
  }

  /** A concrete URL and the string for it: the path names the database, port and SSL mode have their defaults. */
  lemma ConcreteDsn()
    ensures Render(PartsOf(Url("db.x.co", "", "/app", "u", ""), "")) ==
              "host=db.x.co " + ("port=5432 " + ("dbname=app " + ("user=u " + "sslmode=require")))
  {
    AsTyped("host", "db.x.co");
    AsTyped("dbname", "app");
    AsTyped("user", "u");
    SettingTexts();
    var last := Setting(Raw("sslmode", "require"), End);
    var user := Setting(Escaped("user", "u"), last);
    var named := Setting(Escaped("dbname", "app"), user);
    var port := Setting(Raw("port", "5432"), named);
    RenderOne(last.part);
    Ahead(user.part, last, "user=u ");
    Ahead(named.part, user, "dbname=app ");
    Ahead(port.part, named, "port=5432 ");
    Ahead(Escaped("host", "db.x.co"), port, "host=db.x.co ");
    ConcreteParts(port);
  }

  lemma ConcreteParts(port: Parts)
    requires port == Setting(Raw("port", "5432"), Setting(Escaped("dbname", "app"),
                             Setting(Escaped("user", "u"), Setting(Raw("sslmode", "require"), End))))
    ensures PartsOf(Url("db.x.co", "", "/app", "u", ""), "") == Setting(Escaped("host", "db.x.co"), port)
  {
    assert "/app"[1..] == "app";
  }

  /** `buildConnDSN`, on the parsed URL; a URL that names no host is passed on as it is. */
  method BuildConnDSN(rawUrl: string, u: Url, lookup: Option<seq<string>>, isV4: string -> bool)
    returns (dsn: string, hostaddr: string)
    requires u.port == "" || IsPort(u.port)
    requires forall a :: isV4(a) ==> IsAddr(a)
    ensures u.host == "" ==> dsn == rawUrl
    ensures u.host != "" ==> dsn == Render(PartsOf(u, hostaddr))
    ensures u.host != "" && ReadsBack(u.host) && ReadsBack(u.user) && (u.sslmode == "" || Plain(u.sslmode)) ==>
              forall name ::
                ((name != "" && u.path == "/" + name) || (name == "postgres" && (u.path == "" || u.path == "/"))) && ReadsBack(name) ==>
                Parse(dsn) == Some(
                  [Pair("host", u.host), Pair("port", if u.port == "" then "5432" else u.port), Pair("dbname", name),
                   Pair("user", u.user), Pair("sslmode", if u.sslmode == "" then "require" else u.sslmode)]
                  + if hostaddr == "" then [] else [Pair("hostaddr", hostaddr)])
    ensures u.host != "" ==> (Parse(dsn) == Some(Pairs(PartsOf(u, hostaddr))) <==> Survives(u))
    ensures u.host != "" ==>
              (hostaddr != "" <==> !isV4(u.host) && lookup.Some? && exists a :: a in lookup.value && isV4(a))
  {
    if u.host == "" {
      return rawUrl, "";
    }
    assert !IsAddr("");
    hostaddr := HostAddr(u.host, lookup, isV4);
    dsn := Render(PartsOf(u, hostaddr));
    DsnRoundTrip(u, hostaddr);
    if ReadsBack(u.host) && ReadsBack(u.user) && (u.sslmode == "" || Plain(u.sslmode)) {
      forall name |
          ((name != "" && u.path == "/" + name) || (name == "postgres" && (u.path == "" || u.path == "/"))) && ReadsBack(name)
        ensures Parse(dsn) == Some(
                  [Pair("host", u.host), Pair("port", if u.port == "" then "5432" else u.port), Pair("dbname", name),
                   Pair("user", u.user), Pair("sslmode", if u.sslmode == "" then "require" else u.sslmode)]
                  + if hostaddr == "" then [] else [Pair("hostaddr", hostaddr)])
      {
        DsnSays(u, hostaddr, name);
      }
    }
  }
}
