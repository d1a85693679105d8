/** The text of the 123 link driver: how one line is read, how a tree is written, and when the two agree.
    A `char` stands for one byte of the text. */
module LinkText {
  import opened Common
  import opened LinkTree
  import opened LinkForest

  // ----- Strings

  function Split(s: string, c: char): (parts: seq<string>)
    ensures parts != []
  {
    if s == [] then [""]
    else
      var rest := Split(s[1..], c);
      if s[0] == c then [""] + rest else [[s[0]] + rest[0]] + rest[1..]
  }

  function Join(parts: seq<string>, c: char): string
    requires parts != []
  {
    if |parts| == 1 then parts[0] else parts[0] + [c] + Join(parts[1..], c)
  }

  predicate IsSpace(c: char) {
    c as int == 32 || 9 <= c as int <= 13
  }

  function TrimLeft(s: string): (r: string)
    ensures |r| <= |s|
    ensures r == "" || !IsSpace(r[0])
    ensures s != "" && !IsSpace(s[0]) ==> r == s
    ensures s != "" && IsSpace(s[0]) ==> |r| < |s|
    ensures r != "" ==> r[|r| - 1] == s[|s| - 1]
    ensures s != "" && !IsSpace(s[|s| - 1]) ==> r != ""
  {
    if s != "" && IsSpace(s[0]) then TrimLeft(s[1..]) else s
  }

  function TrimRight(s: string): (r: string)
    ensures r <= s
    ensures r == "" || !IsSpace(r[|r| - 1])
    ensures s != "" && !IsSpace(s[|s| - 1]) ==> r == s
  {
    if s != "" && IsSpace(s[|s| - 1]) then TrimRight(s[..|s| - 1]) else s
  }

  function TrimSpace(s: string): string {
    TrimRight(TrimLeft(s))
  }

  function Indent(s: string): (n: nat)
    ensures n <= |s| && (n < |s| ==> s[n] != ' ')
    ensures forall i :: 0 <= i < n ==> s[i] == ' '
  {
    if s == "" || s[0] != ' ' then 0 else 1 + Indent(s[1..])
  }

  predicate StartsWith(s: string, pat: string) {
    |pat| <= |s| && s[..|pat|] == pat
  }

  /** Where `pat` first occurs in `s`. */
  function Index(s: string, pat: string): (i: Option<nat>)
    ensures i.Some? ==> i.value + |pat| <= |s|
  {
    if StartsWith(s, pat) then Some(0)
    else if s == "" then None
    else
      match Index(s[1..], pat)
      case None => None
      case Some(k) => Some(k + 1)
  }

  lemma {:induction false} IndexIsFirst(s: string, pat: string, j: nat)
    requires j <= |s|
    ensures match Index(s, pat)
      case None => !StartsWith(s[j..], pat)
      case Some(i) => (j == i ==> StartsWith(s[j..], pat)) && (j < i ==> !StartsWith(s[j..], pat))
  {
    if j > 0 {
      IndexIsFirst(s[1..], pat, j - 1);
      assert s[1..][j - 1..] == s[j..];
    } else {
      assert s[0..] == s;
    }
  }

  // ----- Numbers

  predicate IsDigit(c: char) {
    '0' <= c <= '9'
  }

  function Digits(s: string): Option<nat> {
    if s == "" then Some(0)
    else
      var c, n := s[|s| - 1], Digits(s[..|s| - 1]);
      if n.Some? && IsDigit(c) then Some(10 * n.value + (c as int - '0' as int)) else None
  }

  const INT64: nat := 0x8000_0000_0000_0000

  predicate Int64(n: int) {
    0 - INT64 <= n < INT64
  }

  /** A signed decimal number of 64 bits. */
  function ParseInt(s: string): Option<int> {
    var signed := s != "" && (s[0] == '-' || s[0] == '+');
    var body := if signed then s[1..] else s;
    var n := Digits(body);
    if body == "" || n.None? then None
    else if signed && s[0] == '-' then if n.value <= INT64 then Some(0 - n.value) else None
    else if n.value < INT64 then Some(n.value) else None
  }

  function Decimal(n: nat): (s: string)
    ensures s != "" && forall i :: 0 <= i < |s| ==> IsDigit(s[i])
  {
    var last := [('0' as int + n % 10) as char];
    if n < 10 then last else Decimal(n / 10) + last
  }

  function Number(n: int): string {
    if n < 0 then "-" + Decimal(-n) else Decimal(n)
  }

  lemma {:induction false} DigitsOfDecimal(n: nat)
    ensures Digits(Decimal(n)) == Some(n)
  {
    var s := Decimal(n);
    if n >= 10 {
      DigitsOfDecimal(n / 10);
      assert s[..|s| - 1] == Decimal(n / 10);
    } else {
      assert s[..|s| - 1] == "";
    }
  }

  lemma {:induction false} ParseOfNumber(n: int)
    requires Int64(n)
    ensures ParseInt(Number(n)) == Some(n)
  {
    DigitsOfDecimal(if n < 0 then -n else n);
    if n < 0 {
      assert Number(n)[1..] == Decimal(-n);
    } else {
      assert IsDigit(Number(n)[0]);
    }
  }

  lemma {:induction false} NumberChars(n: int, c: char)
    requires !IsDigit(c) && c != '-'
    ensures c !in Number(n)
  {
  }

  // ----- The name of a file, from its URL

  function TrimSlashes(s: string): string {
    if s != "" && s[|s| - 1] == '/' then TrimSlashes(s[..|s| - 1]) else s
  }

  function AfterSlash(s: string): string {
    if s == "" || s[|s| - 1] == '/' then "" else AfterSlash(s[..|s| - 1]) + [s[|s| - 1]]
  }

  function Base(path: string): string {
    if path == "" then "."
    else
      var last := AfterSlash(TrimSlashes(path));
      if last == "" then "/" else last
  }

  function HexValue(c: char): Option<nat> {
    if '0' <= c <= '9' then Some(c as int - '0' as int)
    else if 'a' <= c <= 'f' then Some(c as int - 'a' as int + 10)
    else if 'A' <= c <= 'F' then Some(c as int - 'A' as int + 10)
    else None
  }

  /** Percent-decoding of a path segment; None for a broken escape. */
  function Unescaped(s: string): Option<string> {
    if s == "" then Some("")
    else if s[0] != '%' then
      var rest := Unescaped(s[1..]);
      if rest.Some? then Some([s[0]] + rest.value) else None
    else if |s| < 3 || HexValue(s[1]).None? || HexValue(s[2]).None? then None
    else
      var rest := Unescaped(s[3..]);
      if rest.Some? then Some([(16 * HexValue(s[1]).value + HexValue(s[2]).value) as char] + rest.value) else None
  }

  function NameOf(url: string): string {
    var name := Base(url);
    if Unescaped(name).Some? then Unescaped(name).value else name
  }

  // ----- Reading one line

  datatype Fault = OddIndent | NoUrl | InfoWithoutColon | EmptyInfo | BadSize | BadModified

  const HTTP := "http://"
  const HTTPS := "https://"

  /** The place the URL starts: at the first "http://" and, only when there is none, the first "https://". */
  function UrlStart(line: string): (i: Option<nat>)
    ensures i.Some? ==> i.value <= |line|
  {
    var plain := Index(line, HTTP);
    if plain.Some? then plain else Index(line, HTTPS)
  }

  /** The numbers before the URL; with no modification time, `now` is taken. */
  function ReadInfo(info: string, now: int): Result<(int, int), Fault>
    requires info != ""
  {
    if info[|info| - 1] != ':' then Err(InfoWithoutColon)
    else if |info| == 1 then Err(EmptyInfo)
    else
      var parts := Split(info[..|info| - 1], ':');
      var size := ParseInt(parts[0]);
      if size.None? then Err(BadSize)
      else if |parts| == 1 then Ok((size.value, now))
      else
        var modified := ParseInt(parts[1]);
        if modified.None? then Err(BadModified) else Ok((size.value, modified.value))
  }

  function ReadFile(line: string, now: int): Result<Item, Fault> {
    match UrlStart(line)
    case None => Err(NoUrl)
    case Some(i) =>
      var url := line[i..];
      if i == 0 then Ok(File(NameOf(url), url, 0, 0))
      else
        match ReadInfo(line[..i], now)
        case Err(fault) => Err(fault)
        case Ok((size, modified)) => Ok(File(NameOf(url), url, size, modified))
  }

  predicate IsFolder(line: string) {
    line != "" && line[|line| - 1] == ':'
  }

  /** What is left of a line without its indentation; None for a blank one. */
  function ReadBody(level: nat, body: string, now: int): (r: Result<Option<Line>, Fault>)
    ensures r.Ok? && r.value.Some? ==> r.value.value.level == level
  {
    if body == "" then Ok(None)
    else if IsFolder(body) then Ok(Some(Line(level, Folder(body[..|body| - 1]))))
    else
      match ReadFile(body, now)
      case Err(fault) => Err(fault)
      case Ok(item) => Ok(Some(Line(level, item)))
  }

  function ReadLine(line: string, now: int): Result<Option<Line>, Fault> {
    var indent := Indent(line);
    if indent % 2 != 0 then Err(OddIndent) else ReadBody(indent / 2, TrimSpace(line[indent..]), now)
  }

  /** The lines up to the first one that cannot be read. */
  function Readable(lines: seq<string>, now: int): seq<Line> {
    if lines == [] then []
    else
      match ReadLine(lines[0], now)
      case Err(_) => []
      case Ok(None) => Readable(lines[1..], now)
      case Ok(Some(l)) => [l] + Readable(lines[1..], now)
  }

  function FirstFault(lines: seq<string>, now: int): Option<Fault> {
    if lines == [] then None
    else
      match ReadLine(lines[0], now)
      case Err(fault) => Some(fault)
      case Ok(_) => FirstFault(lines[1..], now)
  }

  // ----- Writing

  function Spaces(n: nat): (s: string)
    ensures |s| == n && forall i :: 0 <= i < n ==> s[i] == ' '
  {
    if n == 0 then "" else " " + Spaces(n - 1)
  }

  function InfoText(size: int, modified: int): string {
    Number(size) + ":" + Number(modified) + ":"
  }

  /** A folder with its colon; a file with its numbers, or bare when both are zero. */
  function ItemText(item: Item): string {
    match item
    case Folder(name) => name + ":"
    case File(_, url, size, modified) =>
      if size == 0 && modified == 0 then url else InfoText(size, modified) + url
  }

  function LineText(l: Line): string {
    Spaces(2 * l.level) + ItemText(l.item)
  }

  // ----- One line: exactly when reading undoes writing

  lemma {:induction false} IndentOf(n: nat, s: string)
    ensures Indent(Spaces(n) + s) == n + Indent(s)
  {
    if n > 0 {
      IndentOf(n - 1, s);
      var line := Spaces(n) + s;
      assert line[0] == ' ' && line[1..] == Spaces(n - 1) + s;
    } else {
      assert Spaces(0) + s == s;
    }
  }

  /** A text that does not start with a space keeps its level. */
  lemma {:induction false} ReadsBody(level: nat, s: string, now: int)
    requires s != "" && s[0] != ' '
    ensures ReadLine(Spaces(2 * level) + s, now) == ReadBody(level, TrimSpace(s), now)
  {
    var line, n := Spaces(2 * level) + s, 2 * level;
    IndentOf(n, s);
    assert Indent(line) == n && n / 2 == level && n % 2 == 0;
    DropFront(Spaces(n), s);
    assert line[n..] == s;
  }

  lemma {:induction false} DropFront(a: string, s: string)
    ensures (a + s)[|a|..] == s
  {
  }

  /** One that does cannot come back at the level it was written at. */
  lemma {:induction false} LosesLevel(level: nat, s: string, now: int)
    requires s != "" && s[0] == ' '
    ensures var r := ReadLine(Spaces(2 * level) + s, now);
      r.Ok? && r.value.Some? ==> r.value.value.level > level
  {
    IndentOf(2 * level, s);
  }

  lemma {:induction false} FolderLineReadsIff(level: nat, name: string, now: int)
    ensures var l := Line(level, Folder(name));
      ReadLine(LineText(l), now) == Ok(Some(l)) <==> name == "" || !IsSpace(name[0])
  {
    var s := name + ":";
    if s[0] == ' ' {
      LosesLevel(level, s, now);
    } else {
      ReadsBody(level, s, now);
      FolderBodyIff(level, name, now);
    }
  }

  lemma {:induction false} FolderBodyIff(level: nat, name: string, now: int)
    ensures ReadBody(level, TrimSpace(name + ":"), now) == Ok(Some(Line(level, Folder(name))))
       <==> name == "" || !IsSpace(name[0])
  {
    var s := name + ":";
    var body := TrimSpace(s);
    assert s[|s| - 1] == ':' && s[..|s| - 1] == name;
    assert body == TrimLeft(s);
    assert IsFolder(body);
  }

  /** An address that is found where it was put: "http://" does not occur inside an "https://" one. */
  ghost predicate Plain(url: string) {
    HTTP <= url || (HTTPS <= url && Index(url, HTTP).None?)
  }

  /** A text that the end of a line leaves alone: it does not look like a folder and has no white space. */
  ghost predicate EndsWell(s: string) {
    s != "" && s[|s| - 1] != ':' && !IsSpace(s[|s| - 1])
  }

  lemma {:induction false} IndexStep(s: string, pat: string)
    requires s != "" && pat != "" && s[0] != pat[0]
    ensures Index(s, pat) == match Index(s[1..], pat) case None => None case Some(i) => Some(i + 1)
  {
    if |pat| <= |s| { assert s[..|pat|][0] == s[0]; }
  }

  lemma {:induction false} IndexAfter(info: string, url: string, pat: string)
    requires pat != "" && pat[0] !in info
    ensures Index(info + url, pat)
         == match Index(url, pat) case None => None case Some(i) => Some(|info| + i)
  {
    if info == "" {
      assert info + url == url;
    } else {
      IndexAfter(info[1..], url, pat);
      assert (info + url)[1..] == info[1..] + url;
      IndexStep(info + url, pat);
    }
  }

  /** With no "http://" inside an "https://" address, the URL is found where it was put. */
  lemma {:induction false} UrlFoundIff(info: string, url: string)
    requires 'h' !in info && (HTTP <= url || HTTPS <= url)
    ensures UrlStart(info + url) == Some(|info|) <==> Plain(url)
  {
    IndexAfter(info, url, HTTP);
    IndexAfter(info, url, HTTPS);
    if HTTP <= url {
      assert url[..|HTTP|] == HTTP;
    } else {
      assert url[..|HTTPS|] == HTTPS;
    }
  }

  lemma {:induction false} SplitOne(s: string, c: char)
    requires c !in s
    ensures Split(s, c) == [s]
  {
    if s != "" {
      SplitOne(s[1..], c);
      assert s == [s[0]] + s[1..];
    }
  }

  lemma {:induction false} SplitNext(s: string, c: char, rest: string)
    requires c !in s
    ensures Split(s + [c] + rest, c) == [s] + Split(rest, c)
  {
    var text := s + [c] + rest;
    if s == "" {
      assert text[1..] == rest;
    } else {
      SplitNext(s[1..], c, rest);
      assert text[1..] == s[1..] + [c] + rest;
      assert s == [s[0]] + s[1..];
    }
  }

  lemma {:induction false} InfoReads(size: int, modified: int, now: int)
    requires Int64(size) && Int64(modified)
    ensures ReadInfo(InfoText(size, modified), now) == Ok((size, modified))
  {
    var info := InfoText(size, modified);
    var a, b := Number(size), Number(modified);
    NumberChars(size, ':');
    NumberChars(modified, ':');
    assert info[..|info| - 1] == a + [':'] + b;
    SplitNext(a, ':', b);
    SplitOne(b, ':');
    ParseOfNumber(size);
    ParseOfNumber(modified);
  }

  lemma {:induction false} FoundUrl(line: string, now: int, item: Item)
    requires ReadFile(line, now) == Ok(item)
    ensures UrlStart(line).Some? && item.File? && item.url == line[UrlStart(line).value..]
  {
  }

  lemma {:induction false} FileReads(info: string, url: string, now: int, size: int, modified: int)
    requires UrlStart(info + url) == Some(|info|)
    requires if info == "" then size == 0 && modified == 0 else ReadInfo(info, now) == Ok((size, modified))
    ensures ReadFile(info + url, now) == Ok(File(NameOf(url), url, size, modified))
  {
    DropFront(info, url);
    assert (info + url)[..|info|] == info;
  }

  /** The line of a file reads back exactly when its URL is found where it was put. */
  lemma {:induction false} FileReadsIff(url: string, size: int, modified: int, now: int)
    requires Int64(size) && Int64(modified) && (HTTP <= url || HTTPS <= url)
    ensures var f := File(NameOf(url), url, size, modified);
      ReadFile(ItemText(f), now) == Ok(f) <==> Plain(url)
  {
    var f := File(NameOf(url), url, size, modified);
    var info := if size == 0 && modified == 0 then "" else InfoText(size, modified);
    assert ItemText(f) == info + url;
    assert 'h' !in info by {
      NumberChars(size, 'h');
      NumberChars(modified, 'h');
    }
    UrlFoundIff(info, url);
    if UrlStart(info + url) == Some(|info|) {
      InfoReads(size, modified, now);
      FileReads(info, url, now, size, modified);
    } else if ReadFile(info + url, now) == Ok(f) {
      FoundUrl(info + url, now, f);
    }
  }

  lemma {:induction false} TrimmedFront(s: string)
    requires s != "" && !IsSpace(s[0])
    ensures TrimSpace(s) == TrimRight(s)
    ensures !IsSpace(s[|s| - 1]) ==> TrimSpace(s) == s
    ensures IsSpace(s[|s| - 1]) ==> TrimSpace(s) == "" || !IsSpace(TrimSpace(s)[|TrimSpace(s)| - 1])
  {
  }

  /** A URL is the end of its line, so they end alike. */
  lemma {:induction false} UrlEnds(level: nat, body: string, now: int, f: Item)
    requires f.File? && ReadBody(level, body, now) == Ok(Some(Line(level, f)))
    ensures !IsFolder(body) && f.url != "" && f.url[|f.url| - 1] == body[|body| - 1]
    ensures ReadFile(body, now) == Ok(f)
  {
    FoundUrl(body, now, f);
    UrlNotEmpty(body);
  }

  lemma {:induction false} UrlNotEmpty(line: string)
    ensures UrlStart(line).Some? ==> UrlStart(line).value < |line|
  {
  }

  lemma {:induction false} BodyOfFile(level: nat, body: string, now: int, f: Item)
    requires f.File? && body != "" && !IsFolder(body)
    ensures ReadBody(level, body, now) == Ok(Some(Line(level, f))) <==> ReadFile(body, now) == Ok(f)
  {
  }

  lemma {:induction false} EndsOk(level: nat, s: string, now: int, f: Item)
    requires f.File? && s != "" && !IsSpace(s[0]) && EndsWell(s)
    ensures ReadBody(level, TrimSpace(s), now) == Ok(Some(Line(level, f))) <==> ReadFile(s, now) == Ok(f)
  {
    TrimmedFront(s);
    assert TrimSpace(s) == s;
    BodyOfFile(level, s, now, f);
  }

  lemma {:induction false} EndsBadly(level: nat, s: string, now: int, f: Item)
    requires f.File? && s != "" && !IsSpace(s[0]) && !EndsWell(s)
    requires f.url != "" && s[|s| - 1] == f.url[|f.url| - 1]
    ensures ReadBody(level, TrimSpace(s), now) != Ok(Some(Line(level, f)))
  {
    var body := TrimSpace(s);
    TrimmedFront(s);
    if ReadBody(level, body, now) == Ok(Some(Line(level, f))) {
      UrlEnds(level, body, now, f);
    }
  }

  lemma {:induction false} FileBodyIff(level: nat, s: string, f: Item, now: int)
    requires f.File? && s != "" && !IsSpace(s[0])
    requires f.url != "" && s[|s| - 1] == f.url[|f.url| - 1]
    ensures ReadBody(level, TrimSpace(s), now) == Ok(Some(Line(level, f)))
       <==> EndsWell(f.url) && ReadFile(s, now) == Ok(f)
  {
    assert EndsWell(s) <==> EndsWell(f.url);
    if EndsWell(s) {
      EndsOk(level, s, now, f);
    } else {
      EndsBadly(level, s, now, f);
    }
  }

  lemma {:induction false} FileTextEnds(f: Item)
    requires f.File? && (HTTP <= f.url || HTTPS <= f.url)
    ensures var s := ItemText(f);
      s != "" && !IsSpace(s[0]) && s[|s| - 1] == f.url[|f.url| - 1]
  {
    var a := Number(f.size);
    assert f.url[0] == 'h';
    assert IsDigit(a[0]) || a[0] == '-';
    assert InfoText(f.size, f.modified)[0] == a[0];
  }

  lemma {:induction false} FileBody(level: nat, f: Item, now: int)
    requires f.File? && Int64(f.size) && Int64(f.modified) && f.name == NameOf(f.url)
    requires HTTP <= f.url || HTTPS <= f.url
    ensures ReadBody(level, TrimSpace(ItemText(f)), now) == Ok(Some(Line(level, f)))
       <==> EndsWell(f.url) && Plain(f.url)
  {
    FileTextEnds(f);
    FileBodyIff(level, ItemText(f), f, now);
    FileReadsIff(f.url, f.size, f.modified, now);
  }

  /** The line of a file reads back if and only if its address ends well and is plain. */
  lemma {:induction false} FileLineReadsIff(level: nat, f: Item, now: int)
    requires f.File? && Int64(f.size) && Int64(f.modified) && f.name == NameOf(f.url)
    requires HTTP <= f.url || HTTPS <= f.url
    ensures ReadLine(LineText(Line(level, f)), now) == Ok(Some(Line(level, f)))
       <==> EndsWell(f.url) && Plain(f.url)
  {
    FileBody(level, f, now);
    FileTextEnds(f);
    ReadsBody(level, ItemText(f), now);
  }

  const MIRRORED := "https://a.b/?to=http://c.d"

  /** An address that is not read back. */
  lemma {:induction false} MirroredIsMisread(level: nat, now: int)
    ensures
      var l := Line(level, File(NameOf(MIRRORED), MIRRORED, 0, 0));
      ReadLine(LineText(l), now) != Ok(Some(l))
  {
    var url := MIRRORED;
    assert HTTPS <= url && url[4] == 's';
    assert url[16..] == "http://c.d" && StartsWith(url[16..], HTTP);
    IndexIsFirst(url, HTTP, 16);
    FileLineReadsIff(level, File(NameOf(url), url, 0, 0), now);
  }

  // ----- A whole text

  /** A line that its own text can carry. */
  ghost predicate Writable(l: Line) {
    match l.item
    case Folder(name) => '\n' !in name && (name == "" || !IsSpace(name[0]))
    case File(name, url, size, modified) =>
      '\n' !in url && name == NameOf(url) && Int64(size) && Int64(modified) && EndsWell(url) && Plain(url)
  }

  lemma {:induction false} OneLine(l: Line)
    requires Writable(l)
    ensures '\n' !in LineText(l)
  {
    assert '\n' !in Spaces(2 * l.level);
    if l.item.File? {
      NumberChars(l.item.size, '\n');
      NumberChars(l.item.modified, '\n');
      assert '\n' !in InfoText(l.item.size, l.item.modified);
    }
    assert '\n' !in ItemText(l.item);
  }

  lemma {:induction false} LineReads(l: Line, now: int)
    requires Writable(l)
    ensures ReadLine(LineText(l), now) == Ok(Some(l))
  {
    if l.item.Folder? {
      FolderLineReadsIff(l.level, l.item.name, now);
    } else {
      FileLineReadsIff(l.level, l.item, now);
    }
  }

  lemma {:induction false} ReadsNext(t: string, lines: seq<string>, l: Line, now: int)
    requires ReadLine(t, now) == Ok(Some(l))
    ensures Readable([t] + lines, now) == [l] + Readable(lines, now)
    ensures FirstFault([t] + lines, now) == FirstFault(lines, now)
  {
    assert ([t] + lines)[1..] == lines;
  }

  function Text(ls: seq<Line>): string {
    if ls == [] then ""
    else if |ls| == 1 then LineText(ls[0])
    else LineText(ls[0]) + ['\n'] + Text(ls[1..])
  }

  function Texts(ls: seq<Line>): (texts: seq<string>)
    ensures |texts| == |ls| && forall i :: 0 <= i < |ls| ==> texts[i] == LineText(ls[i])
  {
    if ls == [] then [] else [LineText(ls[0])] + Texts(ls[1..])
  }

  lemma {:induction false} TextSplits(ls: seq<Line>)
    requires ls != [] && forall i :: 0 <= i < |ls| ==> Writable(ls[i])
    ensures Split(Text(ls), '\n') == Texts(ls)
  {
    var t, rest := LineText(ls[0]), ls[1..];
    OneLine(ls[0]);
    if rest == [] {
      SplitOne(t, '\n');
    } else {
      TextSplits(rest);
      SplitNext(t, '\n', Text(rest));
    }
  }

  lemma {:induction false} LinesRead(texts: seq<string>, ls: seq<Line>, now: int)
    requires |texts| == |ls| && forall i :: 0 <= i < |ls| ==> ReadLine(texts[i], now) == Ok(Some(ls[i]))
    ensures Readable(texts, now) == ls && FirstFault(texts, now) == None
  {
    if ls != [] {
      LinesRead(texts[1..], ls[1..], now);
      ReadsNext(texts[0], texts[1..], ls[0], now);
      assert texts == [texts[0]] + texts[1..] && ls == [ls[0]] + ls[1..];
    }
  }

  lemma {:induction false} TextReads(ls: seq<Line>, now: int)
    requires forall i :: 0 <= i < |ls| ==> Writable(ls[i])
    ensures Readable(Split(Text(ls), '\n'), now) == ls
    ensures FirstFault(Split(Text(ls), '\n'), now) == None
  {
    if ls == [] {
      ReadsBlank(now);
    } else {
      var texts := Texts(ls);
      TextSplits(ls);
      forall i | 0 <= i < |ls| ensures ReadLine(texts[i], now) == Ok(Some(ls[i])) {
        LineReads(ls[i], now);
      }
      LinesRead(texts, ls, now);
    }
  }

  lemma {:induction false} ReadsBlank(now: int)
    ensures Readable(Split("", '\n'), now) == [] && FirstFault(Split("", '\n'), now) == None
  {
    assert ReadLine("", now) == Ok(None);
  }

  /** Splitting loses nothing: the pieces joined again are the text. */
  lemma {:induction false} JoinOfSplit(s: string, c: char)
    ensures Join(Split(s, c), c) == s
    ensures forall i :: 0 <= i < |Split(s, c)| ==> c !in Split(s, c)[i]
  {
    if s != "" {
      JoinOfSplit(s[1..], c);
      var r := Split(s[1..], c);
      var parts := Split(s, c);
      assert s == [s[0]] + s[1..];
      if s[0] == c {
        assert parts[1..] == r;
      } else {
        assert parts[1..] == r[1..];
      }
    }
  }

  /** A tree written in the documented format and read again is the same tree. */
  lemma {:induction false} TextRoundTrip(ts: seq<Tree>, now: int)
    requires Proper(ts)
    requires forall i :: 0 <= i < |Flat(ts, 0)| ==> Writable(Flat(ts, 0)[i])
    ensures var lines := Split(Text(Flat(ts, 0)), '\n');
      var ls := Readable(lines, now);
      FirstFault(lines, now) == None && ForestAt(ls, Parents(ls), 0) == ts
  {
    TextReads(Flat(ts, 0), now);
    BuildOfFlat(ts, 0);
  }
}
