/**
 * update_version_map_abi.py: reads a linker version map, merges its stable sections into one and
 * writes the map back.  A file is the sequence of its lines, without their line ends.
 */
module AbiMap {

  // ----- characters and the three line patterns -----

  predicate Blank(c: char) { c == ' ' || '\t' <= c <= '\r' || 28 <= c as int <= 31 || c as int == 133 || c as int == 160 }

  predicate NameChar(c: char) { 'a' <= c <= 'z' || 'A' <= c <= 'Z' || '0' <= c <= '9' || c == '_' }

  /** The characters of a function name, or (`dots`) of a section name. */
  predicate Word(c: char, dots: bool) { NameChar(c) || (dots && c == '.') }

  function SkipBlanks(s: string): string {
    if s != "" && Blank(s[0]) then SkipBlanks(s[1..]) else s
  }

  /** The longest prefix of word characters. */
  function Lead(s: string, dots: bool): (w: string)
    ensures |w| <= |s|
  {
    if s != "" && Word(s[0], dots) then [s[0]] + Lead(s[1..], dots) else ""
  }

  predicate AllBlank(s: string) { forall i :: 0 <= i < |s| ==> Blank(s[i]) }

  /** Does `s` read: blanks, the character `c`, blanks? */
  predicate Closes(s: string, c: char) {
    var r := SkipBlanks(s);
    r != "" && r[0] == c && AllBlank(r[1..])
  }

  /** The word of a line that reads: blanks, a word, blanks, `c`, blanks; empty for any other line. */
  function WordBefore(s: string, dots: bool, c: char): string {
    var r := SkipBlanks(s);
    var w := Lead(r, dots);
    if w != "" && Closes(r[|w|..], c) then w else ""
  }

  /** A line that ends a section: a closing brace, perhaps a parent section, a semicolon. */
  predicate EndsSection(s: string) {
    var r := SkipBlanks(s);
    r != "" && r[0] == '}' && var q := SkipBlanks(r[1..]); Closes(q[|Lead(q, true)|..], ';')
  }

  function StripEnd(s: string): string {
    if s != "" && Blank(s[|s| - 1]) then StripEnd(s[..|s| - 1]) else s
  }

  function Strip(s: string): string { StripEnd(SkipBlanks(s)) }

  // ----- reading -----

  datatype Map = Map(hasStable: bool, stable: set<string>, experimental: seq<string>)

  datatype Scan = Scan(map_: Map, inExperimental: bool)

  /** The body of the loop of `__parse_map_file`. */
  function ReadLine(s: Scan, raw: string): Scan {
    var line, m := Strip(raw), s.map_;
    if EndsSection(line) then s.(inExperimental := false)
    else if s.inExperimental then s.(map_ := m.(experimental := m.experimental + [line]))
    else if line == "" then s
    else if WordBefore(line, true, '{') != "" then
      if WordBefore(line, true, '{') == "EXPERIMENTAL" then s.(inExperimental := true)
      else Scan(m.(hasStable := true), false)
    else if WordBefore(line, false, ';') != "" then s.(map_ := m.(stable := m.stable + {WordBefore(line, false, ';')}))
    else s
  }

  function ReadLines(s: Scan, file: seq<string>): Scan
    decreases |file|
  {
    if file == [] then s else ReadLines(ReadLine(s, file[0]), file[1..])
  }

  const START: Scan := Scan(Map(false, {}, []), false)

  function Parse(file: seq<string>): Map { ReadLines(START, file).map_ }

  // ----- writing -----

  function Header(version: string): string { "DPDK_" + version + " {" }

  function FunctionLines(names: seq<string>): seq<string> {
    seq(|names|, i requires 0 <= i < |names| => "\t" + names[i] + ";")
  }

  /** `__generate_stable_abi`. */
  function StableLines(version: string, names: seq<string>): seq<string> {
    [Header(version)] + (if names == [] then [] else ["\tglobal:", ""] + FunctionLines(names) + [""]) + ["\tlocal: *;", "};"]
  }

  function Indented(lines: seq<string>): seq<string> {
    seq(|lines|, i requires 0 <= i < |lines| => if lines[i] == "" then "" else "\t" + lines[i])
  }

  /** `__generate_experimental_abi`. */
  function ExperimentalLines(lines: seq<string>): seq<string> {
    ["EXPERIMENTAL {"] + Indented(lines) + ["};"]
  }

  /** The file that `__main` writes, for the stable functions in order. */
  function Written(m: Map, names: seq<string>, version: string): seq<string> {
    (if m.hasStable then StableLines(version, names) else []) +
    (if m.hasStable && m.experimental != [] then [""] else []) +
    (if m.experimental != [] then ExperimentalLines(m.experimental) else [])
  }

  // ----- alphabetical order -----

  predicate Before(a: string, b: string) {
    b != "" && (a == "" || a[0] < b[0] || (a[0] == b[0] && Before(a[1..], b[1..])))
  }

  lemma {:induction false} BeforeOrder(a: string, b: string, c: string)
    ensures !Before(a, a) && (a != b ==> Before(a, b) || Before(b, a))
    ensures Before(a, b) && Before(b, c) ==> Before(a, c)
    ensures Before(a, b) ==> !Before(b, a)
    decreases |a| + |b| + |c|
  {
    if a != "" && b != "" && c != "" {
      BeforeOrder(a[1..], b[1..], c[1..]);
      assert a == [a[0]] + a[1..] && b == [b[0]] + b[1..];
    } else if a != "" && b != "" {
      BeforeOrder(a[1..], b[1..], c);
      assert a == [a[0]] + a[1..] && b == [b[0]] + b[1..];
    } else if a != "" {
      BeforeOrder(a[1..], b, c);
    }
  }

  ghost predicate Ascending(q: seq<string>) { forall i, j :: 0 <= i < j < |q| ==> Before(q[i], q[j]) }

  /** `sorted(s)`. */
  ghost predicate SortedOf(q: seq<string>, s: set<string>) {
    Ascending(q) && forall x :: x in q <==> x in s
  }

  // ----- what reading makes of a written line -----

  predicate Trimmed(s: string) { s == "" || (!Blank(s[0]) && !Blank(s[|s| - 1])) }

  predicate AllWord(s: string, dots: bool) { forall i :: 0 <= i < |s| ==> Word(s[i], dots) }

  lemma {:induction false} StripTrims(s: string)
    ensures Trimmed(Strip(s))
    ensures Trimmed(s) ==> Strip(s) == s && SkipBlanks(s) == s
    ensures s != "" && Trimmed(s) ==> Strip("\t" + s) == s
  {
    SkipStops(s);
    StripStops(SkipBlanks(s));
    if s != "" { assert ("\t" + s)[1..] == s; }
  }

  lemma {:induction false} SkipStops(s: string)
    ensures SkipBlanks(s) == "" || !Blank(SkipBlanks(s)[0])
    decreases |s|
  {
    if s != "" && Blank(s[0]) { SkipStops(s[1..]); }
  }

  lemma {:induction false} StripStops(s: string)
    requires s == "" || !Blank(s[0])
    ensures Trimmed(StripEnd(s)) && (StripEnd(s) == "" || StripEnd(s)[0] == s[0])
    decreases |s|
  {
    if s != "" && Blank(s[|s| - 1]) { StripStops(s[..|s| - 1]); }
  }

  lemma {:induction false} LeadOf(w: string, rest: string, dots: bool)
    requires AllWord(w, dots) && (rest == "" || !Word(rest[0], dots))
    ensures Lead(w + rest, dots) == w
    decreases |w|
  {
    if w == "" {
      assert w + rest == rest;
    } else {
      assert (w + rest)[1..] == w[1..] + rest;
      LeadOf(w[1..], rest, dots);
    }
  }

  lemma {:induction false} LeadWords(s: string, dots: bool)
    ensures AllWord(Lead(s, dots), dots) && Lead(s, dots) == s[..|Lead(s, dots)|]
    ensures |Lead(s, dots)| < |s| ==> !Word(s[|Lead(s, dots)|], dots)
    decreases |s|
  {
    if s != "" && Word(s[0], dots) {
      LeadWords(s[1..], dots);
      assert s == [s[0]] + s[1..];
    }
  }

  /** A written function line is read as that function. */
  lemma ReadFunction(s: Scan, name: string)
    requires name != "" && AllWord(name, false) && !s.inExperimental
    ensures ReadLine(s, "\t" + name + ";") == s.(map_ := s.map_.(stable := s.map_.stable + {name}))
  {
    var line := name + ";";
    assert "\t" + name + ";" == "\t" + line;
    StripTrims(line);
    LeadOf(name, ";", false);
    assert line[|name|..] == ";";
    assert SkipBlanks(";") == ";";
    assert WordBefore(line, false, ';') == name;
    NotSection(name, ";");
  }

  /** A word followed by something other than an opening brace begins no section. */
  lemma NotSection(w: string, rest: string)
    requires AllWord(w, true) && rest != "" && !Word(rest[0], true) && !Closes(rest, '{') && (w == "" ==> !Blank(rest[0]))
    ensures WordBefore(w + rest, true, '{') == ""
  {
    LeadOf(w, rest, true);
    assert (w + rest)[|w|..] == rest;
    if w != "" { assert (w + rest)[0] == w[0]; } else { assert w + rest == rest; }
  }

  /** A line that begins with a word and a colon means nothing. */
  lemma ReadLabel(s: Scan, raw: string, w: string, rest: string)
    requires w != "" && AllWord(w, false) && rest != "" && rest[0] == ':' && Strip(raw) == w + rest && !s.inExperimental
    ensures ReadLine(s, raw) == s
  {
    var line := w + rest;
    assert line[0] == w[0] && line[|w|..] == rest;
    LeadOf(w, rest, true);
    LeadOf(w, rest, false);
    assert SkipBlanks(line) == line && SkipBlanks(rest) == rest;
  }

  lemma ReadPlain(s: Scan)
    requires !s.inExperimental
    ensures ReadLine(s, "\tglobal:") == s && ReadLine(s, "\tlocal: *;") == s
  {
    hide *;
    LettersAreWords();
    LabelsStrip();
    ReadLabel(s, "\tglobal:", "global", ":");
    ReadLabel(s, "\tlocal: *;", "local", ": *;");
  }

  lemma LabelsStrip()
    ensures Strip("\tglobal:") == "global" + ":" && Strip("\tlocal: *;") == "local" + ": *;"
  {
    var g, l := "global" + ":", "local" + ": *;";
    assert g[0] == 'g' && g[|g| - 1] == ':' && l[0] == 'l' && l[|l| - 1] == ';';
    StripTrims(g);
    StripTrims(l);
    hide Strip;
    assert "\tglobal:" == "\t" + g;
    assert "\tlocal: *;" == "\t" + l;
  }

  lemma LettersAreWords()
    ensures AllWord("global", false) && AllWord("local", false) && AllWord("DPDK_", true) && AllWord("EXPERIMENTAL", true)
  {
  }

  /** A closing line ends any section, and a blank line outside the experimental section means nothing. */
  lemma ReadEnd(s: Scan)
    ensures ReadLine(s, "};") == s.(inExperimental := false)
    ensures !s.inExperimental ==> ReadLine(s, "") == s
  {
    StripTrims("};");
    StripTrims("");
    var line := "};";
    assert line[1..] == ";" && SkipBlanks(line) == line && SkipBlanks(";") == ";";
    assert Lead(";", true) == "" && ";"[0..] == ";" && ";"[1..] == "";
    assert Closes(";", ';');
  }

  // ----- the header -----

  /** A version that the header pattern accepts: section-name characters and then only blanks. */
  predicate GoodVersion(version: string) {
    AllBlank(version[|Lead(version, true)|..])
  }

  lemma {:induction false} SkipAll(b: string, rest: string)
    requires AllBlank(b)
    ensures SkipBlanks(b + rest) == SkipBlanks(rest)
    decreases |b|
  {
    if b == "" {
      assert b + rest == rest;
    } else {
      assert (b + rest)[1..] == b[1..] + rest;
      SkipAll(b[1..], rest);
    }
  }

  lemma {:induction false} SkipNotAll(b: string, rest: string)
    requires !AllBlank(b)
    ensures exists i :: 0 <= i < |b| && !Blank(b[i]) && SkipBlanks(b + rest) == b[i..] + rest
    decreases |b|
  {
    assert b != "";
    if Blank(b[0]) {
      var k :| 0 <= k < |b| && !Blank(b[k]);
      assert b[1..][k - 1] == b[k];
      assert (b + rest)[1..] == b[1..] + rest;
      SkipNotAll(b[1..], rest);
      var i :| 0 <= i < |b| - 1 && !Blank(b[1..][i]) && SkipBlanks(b[1..] + rest) == b[1..][i..] + rest;
      assert b[1..][i..] == b[i + 1..] && b[1..][i] == b[i + 1];
    } else {
      assert b[0..] == b;
    }
  }

  /** The header is read as the beginning of a stable section exactly when the version is good. */
  lemma HeaderWord(version: string)
    ensures WordBefore(Header(version), true, '{') == if GoodVersion(version) then "DPDK_" + Lead(version, true) else ""
  {
    hide *;
    var w, b := "DPDK_" + Lead(version, true), version[|Lead(version, true)|..];
    LeadWords(version, true);
    VersionParts(version, w, b);
    LeadOf(w, b + " {", true);
    HeaderCloses(b);
    WordBeforeIs(Header(version), w, b + " {");
    GoodVersionIs(version);
  }

  lemma VersionParts(version: string, w: string, b: string)
    requires w == "DPDK_" + Lead(version, true) && b == version[|Lead(version, true)|..]
    requires AllWord(Lead(version, true), true) && Lead(version, true) == version[..|Lead(version, true)|] && (b != "" ==> !Word(b[0], true))
    ensures Header(version) == w + (b + " {") && SkipBlanks(Header(version)) == Header(version)
    ensures AllWord(w, true) && !Word((b + " {")[0], true) && w != ""
  {
    hide Lead;
    LettersAreWords();
    assert version == Lead(version, true) + b;
    assert Header(version)[0] == 'D';
    assert b == "" ==> (b + " {")[0] == ' ';
  }

  lemma WordBeforeIs(s: string, w: string, rest: string)
    requires s == w + rest && SkipBlanks(s) == s && Lead(s, true) == w && w != ""
    ensures WordBefore(s, true, '{') == if Closes(rest, '{') then w else ""
  {
    assert s[|w|..] == rest;
    hide Closes, Lead, SkipBlanks;
  }

  lemma GoodVersionIs(version: string)
    ensures GoodVersion(version) <==> AllBlank(version[|Lead(version, true)|..])
  {
    hide Lead, AllBlank;
  }

  lemma HeaderCloses(b: string)
    ensures Closes(b + " {", '{') <==> AllBlank(b)
  {
    if AllBlank(b) {
      SkipAll(b, " {");
      assert " {"[1..] == "{" && SkipBlanks(" {") == "{";
    } else {
      SkipNotAll(b, " {");
      var i :| 0 <= i < |b| && !Blank(b[i]) && SkipBlanks(b + " {") == b[i..] + " {";
      var r := b[i..] + " {";
      assert r[|r| - 1] == '{' && !Blank(r[|r| - 1]) && |r| > 1;
      assert r[1..][|r| - 2] == '{';
    }
  }

  lemma ReadHeader(s: Scan, version: string)
    requires !s.inExperimental
    ensures ReadLine(s, Header(version)) == if GoodVersion(version) then s.(map_ := s.map_.(hasStable := true)) else s
  {
    var line := Header(version);
    assert line[0] == 'D' && line[|line| - 1] == '{';
    StripTrims(line);
    HeaderWord(version);
    HeaderIsNoFunction(version);
    if GoodVersion(version) { assert ("DPDK_" + Lead(version, true))[0] == 'D' && "EXPERIMENTAL"[0] == 'E'; }
    hide Header, GoodVersion, WordBefore, Lead;
  }

  /** It ends in a brace, so it is no function. */
  lemma HeaderIsNoFunction(version: string)
    ensures WordBefore(Header(version), false, ';') == ""
  {
    var line := Header(version);
    var r := line[|Lead(line, false)|..];
    LeadWords(line, false);
    assert line[0] == 'D' && line[|line| - 1] == '{';
    assert r == "" || r[|r| - 1] == '{';
    NotClosed(r);
    hide Closes, Lead;
  }

  lemma {:induction false} NotClosed(r: string)
    requires r == "" || r[|r| - 1] == '{'
    ensures !Closes(r, ';')
    decreases |r|
  {
    if r != "" && Blank(r[0]) {
      NotClosed(r[1..]);
    } else if r != "" && r[0] == ';' {
      assert r[1..][|r| - 2] == '{';
    }
  }

  lemma ReadExperimentalHeader(s: Scan)
    requires !s.inExperimental
    ensures ReadLine(s, "EXPERIMENTAL {") == s.(inExperimental := true)
  {
    hide *;
    var line := "EXPERIMENTAL {";
    HeaderParts();
    StripTrims(line);
    LettersAreWords();
    LeadOf("EXPERIMENTAL", " {", true);
    ReadsSection(s, line, "EXPERIMENTAL", " {");
  }

  lemma HeaderParts()
    ensures "EXPERIMENTAL {" == "EXPERIMENTAL" + " {" && |"EXPERIMENTAL"| == 12 && "EXPERIMENTAL {"[12..] == " {"
    ensures Trimmed("EXPERIMENTAL {") && SkipBlanks(" {") == "{" && !Word(" {"[0], true)
  {
    assert " {"[1..] == "{";
    hide Strip, Lead;
  }

  lemma ReadsSection(s: Scan, line: string, w: string, rest: string)
    requires !s.inExperimental && w == "EXPERIMENTAL" && line == w + rest && Strip(line) == line && Lead(line, true) == w
    requires SkipBlanks(rest) == "{" && SkipBlanks(line) == line && line[|w|..] == rest
    ensures ReadLine(s, line) == s.(inExperimental := true)
  {
    assert line[0] == 'E';
    assert "{"[1..] == "" && Closes(rest, '{');
    assert WordBefore(line, true, '{') == w;
    hide Lead, Strip, SkipBlanks;
  }

  /** Reading one part of a file after another. */
  lemma {:induction false} ReadJoin(s: Scan, a: seq<string>, b: seq<string>)
    ensures ReadLines(s, a + b) == ReadLines(ReadLines(s, a), b)
    decreases |a|
  {
    if a == [] {
      assert a + b == b;
    } else {
      assert (a + b)[1..] == a[1..] + b;
      ReadJoin(ReadLine(s, a[0]), a[1..], b);
    }
  }

  lemma ReadOne(s: Scan, line: string)
    ensures ReadLines(s, [line]) == ReadLine(s, line)
  {
    assert [line][1..] == [];
  }

  ghost predicate GoodNames(names: seq<string>) { forall x :: x in names ==> x != "" && AllWord(x, false) }

  lemma {:induction false} ReadFunctions(s: Scan, names: seq<string>)
    requires GoodNames(names) && !s.inExperimental
    ensures ReadLines(s, FunctionLines(names)) == s.(map_ := s.map_.(stable := s.map_.stable + set x | x in names))
    decreases |names|
  {
    if names != [] {
      var r := s.(map_ := s.map_.(stable := s.map_.stable + {names[0]}));
      assert names == [names[0]] + names[1..] && names[0] in names && forall x :: x in names[1..] ==> x in names;
      ReadFunction(s, names[0]);
      assert FunctionLines(names)[1..] == FunctionLines(names[1..]);
      ReadFunctions(r, names[1..]);
      assert (set x | x in names) == {names[0]} + set x | x in names[1..];
    }
  }

  ghost predicate Verbatim(lines: seq<string>) { forall l :: l in lines ==> Trimmed(l) && !EndsSection(l) }

  lemma ReadVerbatim(s: Scan, line: string)
    requires Trimmed(line) && !EndsSection(line) && s.inExperimental
    ensures ReadLine(s, if line == "" then "" else "\t" + line) ==
            s.(map_ := s.map_.(experimental := s.map_.experimental + [line]))
  {
    StripTrims(line);
    hide Strip, EndsSection, Trimmed, WordBefore;
  }

  lemma {:induction false} ReadIndented(s: Scan, lines: seq<string>)
    requires Verbatim(lines) && s.inExperimental
    ensures ReadLines(s, Indented(lines)) == s.(map_ := s.map_.(experimental := s.map_.experimental + lines))
    decreases |lines|
  {
    hide ReadLine, Trimmed, EndsSection, Indented;
    IndentedParts(lines);
    if lines != [] {
      var r := s.(map_ := s.map_.(experimental := s.map_.experimental + [lines[0]]));
      assert lines[0] in lines;
      ReadVerbatim(s, lines[0]);
      ReadIndented(r, lines[1..]);
      assert s.map_.experimental + [lines[0]] + lines[1..] == s.map_.experimental + lines;
    }
  }

  lemma IndentedParts(lines: seq<string>)
    ensures lines == [] ==> Indented(lines) == []
    ensures lines != [] ==> Indented(lines) == [if lines[0] == "" then "" else "\t" + lines[0]] + Indented(lines[1..])
  {
  }

  // ----- what is read is fit to be written -----

  ghost predicate Fit(m: Map) {
    (forall x :: x in m.stable ==> x != "" && AllWord(x, false)) && Verbatim(m.experimental)
  }

  lemma ReadLineFit(s: Scan, raw: string)
    requires Fit(s.map_)
    ensures Fit(ReadLine(s, raw).map_)
  {
    StripTrims(raw);
    LeadWords(SkipBlanks(Strip(raw)), false);
    hide Trimmed, EndsSection, Strip, Lead, SkipBlanks;
  }

  lemma {:induction false} ReadLinesFit(s: Scan, file: seq<string>)
    requires Fit(s.map_)
    ensures Fit(ReadLines(s, file).map_)
    decreases |file|
  {
    hide Fit, ReadLine;
    if file != [] {
      ReadLineFit(s, file[0]);
      ReadLinesFit(ReadLine(s, file[0]), file[1..]);
    }
  }

  // ----- sorting -----

  function InsertName(q: seq<string>, x: string): seq<string> {
    if q == [] then [x] else if x == q[0] then q else if Before(x, q[0]) then [x] + q else [q[0]] + InsertName(q[1..], x)
  }

  lemma {:induction false} InsertAscends(q: seq<string>, x: string)
    requires Ascending(q)
    ensures Ascending(InsertName(q, x)) && forall y :: y in InsertName(q, x) <==> y == x || y in q
    decreases |q|
  {
    if q != [] {
      assert q == [q[0]] + q[1..];
      assert forall j :: 0 < j < |q| ==> q[1..][j - 1] == q[j];
      BeforeOrder(x, q[0], x);
      if x != q[0] && Before(x, q[0]) {
        forall j | 0 <= j < |q| ensures Before(x, q[j]) { BeforeOrder(x, q[0], q[j]); }
      } else if x != q[0] {
        InsertAscends(q[1..], x);
        var r := InsertName(q[1..], x);
        forall y | y in r ensures Before(q[0], y) {
          if y != x { var j :| 0 < j < |q| && q[j] == y; }
        }
      }
    }
  }

  /** A set has one sorted sequence only. */
  lemma {:induction false} SortedOnce(a: seq<string>, b: seq<string>)
    requires Ascending(a) && Ascending(b) && forall x :: x in a <==> x in b
    ensures a == b
    decreases |a|
  {
    if a == [] {
      HeadIn(b);
    } else {
      assert a[0] in a && a[0] in b;
      assert b[0] in b && b[0] in a;
      FirstIsLeast(a, b[0]);
      FirstIsLeast(b, a[0]);
      BeforeOrder(a[0], b[0], a[0]);
      TailElements(a);
      TailElements(b);
      SortedOnce(a[1..], b[1..]);
      assert a == [a[0]] + a[1..] && b == [b[0]] + b[1..];
    }
  }

  lemma HeadIn(b: seq<string>)
    ensures b != [] ==> b[0] in b
  {
  }

  lemma FirstIsLeast(a: seq<string>, x: string)
    requires Ascending(a) && x in a
    ensures x == a[0] || Before(a[0], x)
  {
    var j :| 0 <= j < |a| && a[j] == x;
  }

  lemma TailElements(a: seq<string>)
    requires Ascending(a) && a != []
    ensures Ascending(a[1..]) && forall x :: x in a[1..] <==> x in a && x != a[0]
  {
    assert a == [a[0]] + a[1..];
    forall x | x in a[1..] ensures x != a[0] {
      var j :| 0 < j < |a| && a[j] == x;
      BeforeOrder(a[0], x, a[0]);
    }
  }

  /** `sorted`. */
  method SortNames(names: set<string>) returns (q: seq<string>)
    ensures SortedOf(q, names)
  {
    q := [];
    var rest := names;
    while rest != {}
      invariant rest <= names && SortedOf(q, names - rest)
      decreases |rest|
    {
      var x :| x in rest;
      InsertAscends(q, x);
      q := InsertName(q, x);
      rest := rest - {x};
    }
  }

  // ----- rewriting -----

  /** `q` and `file` are what `__main` sorts and writes. */
  ghost predicate Rewrites(before: seq<string>, version: string, after: seq<string>) {
    exists q :: SortedOf(q, Parse(before).stable) && after == Written(Parse(before), q, version)
  }

  lemma ReadStable(s: Scan, version: string, names: seq<string>)
    requires !s.inExperimental && GoodNames(names)
    ensures ReadLines(s, StableLines(version, names)) ==
            Scan(s.map_.(hasStable := s.map_.hasStable || GoodVersion(version), stable := s.map_.stable + set x | x in names), false)
  {
    var s1 := s.(map_ := s.map_.(hasStable := s.map_.hasStable || GoodVersion(version)));
    var s2 := s1.(map_ := s1.map_.(stable := s1.map_.stable + set x | x in names));
    ReadHeader(s, version);
    ReadOne(s, Header(version));
    ReadMiddle(s1, names);
    ReadTail(s2);
    var middle := if names == [] then [] else ["\tglobal:", ""] + FunctionLines(names) + [""];
    ReadJoin(s, [Header(version)] + middle, ["\tlocal: *;", "};"]);
    ReadJoin(s, [Header(version)], middle);
    hide Header, GoodVersion, FunctionLines, ReadLine, ReadLines;
  }

  lemma ReadMiddle(s: Scan, names: seq<string>)
    requires !s.inExperimental && GoodNames(names)
    ensures ReadLines(s, if names == [] then [] else ["\tglobal:", ""] + FunctionLines(names) + [""]) ==
            s.(map_ := s.map_.(stable := s.map_.stable + set x | x in names))
  {
    hide ReadLine, FunctionLines, GoodNames;
    if names != [] {
      var r := s.(map_ := s.map_.(stable := s.map_.stable + set x | x in names));
      ReadPlain(s);
      ReadEnd(s);
      ReadEnd(r);
      ReadTwo(s, "\tglobal:", "");
      ReadFunctions(s, names);
      ReadOne(r, "");
      ReadJoin(s, ["\tglobal:", ""] + FunctionLines(names), [""]);
      ReadJoin(s, ["\tglobal:", ""], FunctionLines(names));
      hide ReadLines;
    }
  }

  lemma ReadTwo(s: Scan, a: string, b: string)
    ensures ReadLines(s, [a, b]) == ReadLine(ReadLine(s, a), b)
  {
    hide ReadLine;
    ReadOne(s, a);
    ReadOne(ReadLine(s, a), b);
    assert [a, b] == [a] + [b];
    ReadJoin(s, [a], [b]);
  }

  lemma ReadTail(s: Scan)
    requires !s.inExperimental
    ensures ReadLines(s, ["\tlocal: *;", "};"]) == s
  {
    hide ReadLine, ReadLines;
    ReadPlain(s);
    ReadEnd(s);
    ReadTwo(s, "\tlocal: *;", "};");
  }

  lemma ReadExperimental(s: Scan, lines: seq<string>)
    requires !s.inExperimental && Verbatim(lines)
    ensures ReadLines(s, ExperimentalLines(lines)) == s.(map_ := s.map_.(experimental := s.map_.experimental + lines))
  {
    hide ReadLine, Indented, Verbatim;
    var s1 := s.(inExperimental := true);
    var s2 := s1.(map_ := s1.map_.(experimental := s1.map_.experimental + lines));
    ReadExperimentalHeader(s);
    ReadOne(s, "EXPERIMENTAL {");
    ReadIndented(s1, lines);
    ReadEnd(s2);
    ReadOne(s2, "};");
    ReadJoin(s, ["EXPERIMENTAL {"] + Indented(lines), ["};"]);
    ReadJoin(s, ["EXPERIMENTAL {"], Indented(lines));
    hide ReadLines;
  }

  /**
   * Reading a written file recovers the experimental lines verbatim and, if there is a stable
   * section, its functions; the section itself is recognised exactly when the version is good.
   */
  lemma ReadsBack(m: Map, names: seq<string>, version: string)
    requires Fit(m) && SortedOf(names, m.stable)
    ensures Parse(Written(m, names, version)) ==
            Map(m.hasStable && GoodVersion(version), if m.hasStable then m.stable else {}, m.experimental)
  {
    hide ReadLine, ReadLines, StableLines, ExperimentalLines, GoodVersion, Verbatim, Ascending;
    var first := if m.hasStable then StableLines(version, names) else [];
    var gap := if m.hasStable && m.experimental != [] then [""] else [];
    var last := if m.experimental != [] then ExperimentalLines(m.experimental) else [];
    var s1 := if m.hasStable then Scan(Map(GoodVersion(version), m.stable, []), false) else START;
    assert (set x | x in names) == m.stable;
    if m.hasStable { ReadStable(START, version, names); } else { ReadNone(START); }
    ReadEnd(s1);
    if gap != [] { ReadOne(s1, ""); } else { ReadNone(s1); }
    if m.experimental != [] { ReadExperimental(s1, m.experimental); } else { ReadNone(s1); }
    ReadJoin(START, first + gap, last);
    ReadJoin(START, first, gap);
    assert Written(m, names, version) == first + gap + last;
    assert ReadLines(START, first) == s1 && ReadLines(s1, gap) == s1;
    assert s1.map_.experimental + m.experimental == m.experimental;
    assert ReadLines(s1, last) == s1.(map_ := s1.map_.(experimental := m.experimental));
  }

  lemma ReadNone(s: Scan)
    ensures ReadLines(s, []) == s
  {
  }

  /**
   * Rewriting a rewritten file changes nothing exactly when the file has no stable section or the
   * header pattern accepts the version: for every input, not only for files that were generated.
   */
  lemma RewritingTwice(before: seq<string>, version: string, once: seq<string>, twice: seq<string>)
    requires Rewrites(before, version, once) && Rewrites(once, version, twice)
    ensures twice == once <==> !Parse(before).hasStable || GoodVersion(version)
  {
    hide ReadLines, GoodVersion, Fit, SortedOf, Written;
    var m := Parse(before);
    FitParse(before);
    var q :| SortedOf(q, m.stable) && once == Written(m, q, version);
    ReadsBack(m, q, version);
    var m' := Parse(once);
    var r :| SortedOf(r, m'.stable) && twice == Written(m', r, version);
    SameOrder(q, r, m.stable, m'.stable);
    WrittenAgain(m, m', q, r, version);
  }

  lemma FitParse(file: seq<string>)
    ensures Fit(Parse(file))
  {
    ReadLinesFit(START, file);
  }

  lemma SameOrder(q: seq<string>, r: seq<string>, s: set<string>, t: set<string>)
    requires SortedOf(q, s) && SortedOf(r, t)
    ensures s == t ==> q == r
  {
    if s == t { SortedOnce(q, r); }
  }

  lemma WrittenAgain(m: Map, m': Map, q: seq<string>, r: seq<string>, version: string)
    requires m' == Map(m.hasStable && GoodVersion(version), if m.hasStable then m.stable else {}, m.experimental)
    requires m.stable == m'.stable ==> q == r
    ensures Written(m', r, version) == Written(m, q, version) <==> !m.hasStable || GoodVersion(version)
  {
    hide GoodVersion;
    if m.hasStable && !GoodVersion(version) {
      assert Written(m, q, version)[0] == Header(version) && Header(version)[0] == 'D';
      assert m.experimental != [] ==> Written(m', r, version)[0] == "EXPERIMENTAL {" && "EXPERIMENTAL {"[0] == 'E';
      assert m.experimental == [] ==> Written(m', r, version) == [];
    }
    hide StableLines;
  }
}
