/**
 * What update_version_map_abi.py reads and writes, without its functions: the lines that its three
 * patterns match, what a file means by the lines before each line, and the places of the lines written.
 */
module AbiPatterns {
  import opened AbiMap

  // ----- the characters -----

  const SMALL: set<char> := {'a', 'b', 'c', 'd', 'e', 'f', 'g', 'h', 'i', 'j', 'k', 'l', 'm', 'n', 'o', 'p', 'q', 'r', 's', 't', 'u', 'v', 'w', 'x', 'y', 'z'}
  const LARGE: set<char> := {'A', 'B', 'C', 'D', 'E', 'F', 'G', 'H', 'I', 'J', 'K', 'L', 'M', 'N', 'O', 'P', 'Q', 'R', 'S', 'T', 'U', 'V', 'W', 'X', 'Y', 'Z'}
  const DIGITS: set<char> := {'0', '1', '2', '3', '4', '5', '6', '7', '8', '9'}

  /** The character class of a function name, and with a dot that of a section name. */
  lemma WordsAre(c: char)
    ensures Word(c, false) <==> c in SMALL || c in LARGE || c in DIGITS || c == '_'
    ensures Word(c, true) <==> Word(c, false) || c == '.'
    ensures Blank(c) ==> !Word(c, true) && c != '{' && c != '}' && c != ';'
  {
  }

  // ----- alphabetical order -----

  /** `a` and `b` agree before position `i`, where `a` ends or has the smaller character. */
  ghost predicate SmallerAt(a: string, b: string, i: nat) {
    i <= |a| && i < |b| && a[..i] == b[..i] && (i < |a| ==> a[i] < b[i])
  }

  /** Names are compared character by character, and a name comes before its extensions. */
  lemma {:induction false} BeforeIs(a: string, b: string)
    ensures Before(a, b) <==> exists i: nat :: SmallerAt(a, b, i)
    decreases |a|
  {
    if a != "" && b != "" && a[0] == b[0] {
      BeforeIs(a[1..], b[1..]);
      if i: nat :| SmallerAt(a[1..], b[1..], i) {
        assert a[..i + 1] == [a[0]] + a[1..][..i] && b[..i + 1] == [b[0]] + b[1..][..i];
        assert SmallerAt(a, b, i + 1);
      }
      if i: nat :| SmallerAt(a, b, i) {
        assert i > 0;
        assert a[1..][..i - 1] == a[..i][1..] && b[1..][..i - 1] == b[..i][1..];
        assert SmallerAt(a[1..], b[1..], i - 1);
      }
    } else if Before(a, b) {
      assert SmallerAt(a, b, 0);
    } else if i: nat :| SmallerAt(a, b, i) {
      FirstCharacters(a, b, i);
    }
  }

  lemma FirstCharacters(a: string, b: string, i: nat)
    requires SmallerAt(a, b, i)
    ensures b != "" && if i == 0 then a == "" || a[0] < b[0] else a != "" && a[0] == b[0]
  {
    if i > 0 { assert a[..i][0] == b[..i][0]; }
  }

  // ----- the patterns -----

  /** The line reads: blanks, the word `w`, blanks, `c`, blanks. */
  ghost predicate WordLine(s: string, w: string, dots: bool, c: char) {
    exists a, b, d: string :: AllBlank(a) && AllBlank(b) && AllBlank(d) && w != "" && AllWord(w, dots) && s == a + w + b + [c] + d
  }

  function EndText(a: string, b: string, w: string, c: string, d: string): string { a + "}" + b + w + c + ";" + d }

  /** The line reads: blanks, a closing brace, blanks, perhaps a section name, blanks, a semicolon, blanks. */
  ghost predicate EndLine(s: string) {
    exists a, b, w, c, d: string ::
      AllBlank(a) && AllBlank(b) && AllWord(w, true) && AllBlank(c) && AllBlank(d) && s == EndText(a, b, w, c, d)
  }

  lemma {:induction false} SkipSplit(s: string) returns (a: string)
    ensures AllBlank(a) && s == a + SkipBlanks(s)
    decreases |s|
  {
    a := "";
    if s != "" && Blank(s[0]) {
      a := SkipSplit(s[1..]);
      assert s == [s[0]] + s[1..];
      a := [s[0]] + a;
    }
  }

  lemma {:induction false} SkipOf(a: string, x: string)
    requires AllBlank(a) && (x == "" || !Blank(x[0]))
    ensures SkipBlanks(a + x) == x
    decreases |a|
  {
    if a == "" {
      assert a + x == x;
    } else {
      assert (a + x)[1..] == a[1..] + x && (a + x)[0] == a[0];
      SkipOf(a[1..], x);
    }
  }

  lemma {:induction false} StripEndSplit(s: string) returns (b: string)
    ensures AllBlank(b) && s == StripEnd(s) + b
    decreases |s|
  {
    b := "";
    if s != "" && Blank(s[|s| - 1]) {
      b := StripEndSplit(s[..|s| - 1]);
      assert s == s[..|s| - 1] + [s[|s| - 1]];
      b := b + [s[|s| - 1]];
    }
  }

  lemma {:induction false} StripEndOf(x: string, b: string)
    requires AllBlank(b) && (x == "" || !Blank(x[|x| - 1]))
    ensures StripEnd(x + b) == x
    decreases |b|
  {
    if b == "" {
      assert x + b == x;
    } else {
      assert (x + b)[..|x + b| - 1] == x + b[..|b| - 1] && (x + b)[|x + b| - 1] == b[|b| - 1];
      StripEndOf(x, b[..|b| - 1]);
    }
  }

  /** Stripping a line takes off the blanks around it, and nothing else. */
  lemma StripIs(s: string) returns (a: string, b: string)
    ensures AllBlank(a) && AllBlank(b) && s == a + Strip(s) + b && Trimmed(Strip(s))
  {
    a := SkipSplit(s);
    b := StripEndSplit(SkipBlanks(s));
    StripTrims(s);
  }

  lemma StripOf(a: string, x: string, b: string)
    requires AllBlank(a) && AllBlank(b) && x != "" && Trimmed(x)
    ensures Strip(a + x + b) == x
  {
    assert a + x + b == a + (x + b) && (x + b)[0] == x[0];
    SkipOf(a, x + b);
    StripEndOf(x, b);
  }

  lemma ClosesIs(s: string, c: char)
    requires !Blank(c)
    ensures Closes(s, c) <==> exists a, d: string :: AllBlank(a) && AllBlank(d) && s == a + [c] + d
  {
    if Closes(s, c) {
      var a := SkipSplit(s);
      var d := SkipBlanks(s)[1..];
      assert s == a + [c] + d;
    }
    if a, d: string :| AllBlank(a) && AllBlank(d) && s == a + [c] + d { ClosesOf(a, c, d); }
  }

  lemma ClosesOf(a: string, c: char, d: string)
    requires AllBlank(a) && AllBlank(d) && !Blank(c)
    ensures Closes(a + [c] + d, c)
  {
    assert a + [c] + d == a + ([c] + d);
    SkipOf(a, [c] + d);
    assert ([c] + d)[1..] == d;
  }

  /** The pattern of headers and functions, on a stripped or unstripped line. */
  lemma WordLineIs(s: string, w: string, dots: bool, c: char)
    requires !Blank(c) && !Word(c, true)
    ensures w != "" && WordBefore(s, dots, c) == w <==> WordLine(s, w, dots, c)
  {
    if w != "" && WordBefore(s, dots, c) == w {
      var r := SkipBlanks(s);
      var a := SkipSplit(s);
      LeadWords(r, dots);
      ClosesIs(r[|w|..], c);
      var b, d: string :| AllBlank(b) && AllBlank(d) && r[|w|..] == b + [c] + d;
      assert r == w + r[|w|..];
      assert s == a + w + b + [c] + d;
    }
    if WordLine(s, w, dots, c) {
      var a, b, d: string :| AllBlank(a) && AllBlank(b) && AllBlank(d) && w != "" && AllWord(w, dots) && s == a + w + b + [c] + d;
      WordLineOf(a, w, b, c, d, dots);
    }
  }

  lemma WordLineOf(a: string, w: string, b: string, c: char, d: string, dots: bool)
    requires AllBlank(a) && AllBlank(b) && AllBlank(d) && w != "" && AllWord(w, dots) && !Blank(c) && !Word(c, true)
    ensures WordBefore(a + w + b + [c] + d, dots, c) == w
  {
    var rest := b + [c] + d;
    var s := a + w + b + [c] + d;
    assert s == a + (w + rest) && (w + rest)[0] == w[0] && (w + rest)[|w|..] == rest;
    WordsAre(w[0]);
    SkipOf(a, w + rest);
    assert rest[0] == if b == "" then c else b[0];
    if b != "" { WordsAre(b[0]); }
    LeadOf(w, rest, dots);
    ClosesOf(b, c, d);
  }

  lemma EndLineIs(s: string)
    ensures EndsSection(s) <==> EndLine(s)
  {
    hide EndsSection, EndText, AllBlank, AllWord;
    if EndsSection(s) { EndLineFrom(s); }
    if EndLine(s) {
      var a, b, w, c, d: string :|
        AllBlank(a) && AllBlank(b) && AllWord(w, true) && AllBlank(c) && AllBlank(d) && s == EndText(a, b, w, c, d);
      EndLineOf(a, b, w, c, d);
    }
  }

  lemma EndLineFrom(s: string)
    requires EndsSection(s)
    ensures EndLine(s)
  {
    var r := SkipBlanks(s);
    var q := SkipBlanks(r[1..]);
    var w := Lead(q, true);
    assert r[0] == '}' && Closes(q[|w|..], ';');
    hide SkipBlanks, Lead, Closes, AllBlank, EndLine;
    var a := SkipSplit(s);
    var b := SkipSplit(r[1..]);
    LeadWords(q, true);
    ClosesIs(q[|w|..], ';');
    var c, d: string :| AllBlank(c) && AllBlank(d) && q[|w|..] == c + [';'] + d;
    assert q == w + q[|w|..] && r == "}" + r[1..];
    assert s == a + ("}" + (b + (w + (c + [';'] + d))));
    EndLineMade(a, b, w, c, d);
  }

  lemma EndLineMade(a: string, b: string, w: string, c: string, d: string)
    requires AllBlank(a) && AllBlank(b) && AllWord(w, true) && AllBlank(c) && AllBlank(d)
    ensures EndLine(a + ("}" + (b + (w + (c + [';'] + d)))))
  {
    assert a + ("}" + (b + (w + (c + [';'] + d)))) == EndText(a, b, w, c, d);
  }

  lemma EndLineOf(a: string, b: string, w: string, c: string, d: string)
    requires AllBlank(a) && AllBlank(b) && AllWord(w, true) && AllBlank(c) && AllBlank(d)
    ensures EndsSection(EndText(a, b, w, c, d))
  {
    var s, after, rest := a + "}" + b + w + c + ";" + d, b + w + c + ";" + d, c + ";" + d;
    assert s == a + ("}" + after) && ("}" + after)[0] == '}' && ("}" + after)[1..] == after;
    SkipOf(a, "}" + after);
    if w == "" {
      assert after == (b + c) + (";" + d);
      SkipOf(b + c, ";" + d);
      LeadOf("", ";" + d, true);
      assert "" + (";" + d) == ";" + d && (";" + d)[0..] == ";" + d;
      ClosesOf("", ';', d);
      assert "" + [';'] + d == ";" + d;
    } else {
      assert after == b + (w + rest) && (w + rest)[0] == w[0] && (w + rest)[|w|..] == rest;
      WordsAre(w[0]);
      SkipOf(b, w + rest);
      assert rest[0] == if c == "" then ';' else c[0];
      if c != "" { WordsAre(c[0]); }
      LeadOf(w, rest, true);
      ClosesOf(c, ';', d);
      assert c + [';'] + d == rest;
    }
  }

  // ----- what the lines of a file mean -----

  ghost predicate Begins(raw: string, section: string) { WordLine(raw, section, true, '{') }

  ghost predicate Names(raw: string, func: string) { WordLine(raw, func, false, ';') }

  lemma BlanksJoin(a: string, b: string)
    requires AllBlank(a) && AllBlank(b)
    ensures AllBlank(a + b)
  {
  }

  /** Blanks around a line do not matter to a pattern. */
  lemma WordLineWider(l: string, a: string, w: string, b: string, c: char, d: string, t: string, dots: bool)
    requires AllBlank(l) && AllBlank(a) && AllBlank(b) && AllBlank(d) && AllBlank(t) && w != "" && AllWord(w, dots)
    ensures WordLine(l + (a + w + b + [c] + d) + t, w, dots, c)
  {
    BlanksJoin(l, a);
    BlanksJoin(d, t);
    hide AllBlank, AllWord;
    Grouped(a, w, b, [c], d);
    JoinOutside(l, a, w + b + [c], d, t);
    Grouped(l + a, w, b, [c], d + t);
  }

  lemma Grouped(a: string, w: string, b: string, c: string, d: string)
    ensures a + w + b + c + d == a + (w + b + c) + d
  {
  }

  lemma JoinOutside(l: string, a: string, m: string, d: string, t: string)
    ensures l + (a + m + d) + t == (l + a) + m + (d + t)
  {
  }

  lemma WordLineCore(a: string, w: string, b: string, c: char, d: string, dots: bool)
    requires AllBlank(a) && AllBlank(b) && AllBlank(d) && w != "" && AllWord(w, dots) && !Blank(c)
    ensures var x := Strip(a + w + b + [c] + d); WordLine(x, w, dots, c) && x != "" && x[0] == w[0] && x[|x| - 1] == c
  {
    var core := w + b + [c];
    WordsAre(w[0]);
    assert core[0] == w[0] && core[|core| - 1] == c;
    assert a + w + b + [c] + d == a + core + d;
    StripOf(a, core, d);
    hide Strip, AllWord;
    assert core == "" + w + b + [c] + "" && AllBlank("");
  }

  /** A pattern matches a line exactly when it matches the stripped line. */
  lemma StripKeepsWord(raw: string, w: string, dots: bool, c: char)
    requires !Blank(c)
    ensures WordLine(Strip(raw), w, dots, c) <==> WordLine(raw, w, dots, c)
    ensures WordLine(raw, w, dots, c) ==> var x := Strip(raw); x != "" && Word(x[0], true) && x[|x| - 1] == c
  {
    var x := Strip(raw);
    var l, t := StripIs(raw);
    hide Strip, AllBlank, Trimmed;
    if WordLine(x, w, dots, c) {
      var a, b, d: string :| AllBlank(a) && AllBlank(b) && AllBlank(d) && w != "" && AllWord(w, dots) && x == a + w + b + [c] + d;
      WordLineWider(l, a, w, b, c, d, t, dots);
    }
    if WordLine(raw, w, dots, c) {
      var a, b, d: string :| AllBlank(a) && AllBlank(b) && AllBlank(d) && w != "" && AllWord(w, dots) && raw == a + w + b + [c] + d;
      WordLineCore(a, w, b, c, d, dots);
      WordsAre(w[0]);
    }
    hide WordLine;
  }

  lemma EndLineWider(l: string, a: string, b: string, w: string, c: string, d: string, t: string)
    requires AllBlank(l) && AllBlank(a) && AllBlank(b) && AllWord(w, true) && AllBlank(c) && AllBlank(d) && AllBlank(t)
    ensures EndLine(l + EndText(a, b, w, c, d) + t)
  {
    BlanksJoin(l, a);
    BlanksJoin(d, t);
    hide AllBlank, AllWord;
    assert l + EndText(a, b, w, c, d) + t == EndText(l + a, b, w, c, d + t);
  }

  lemma EndLineCore(a: string, b: string, w: string, c: string, d: string)
    requires AllBlank(a) && AllBlank(b) && AllWord(w, true) && AllBlank(c) && AllBlank(d)
    ensures var x := Strip(EndText(a, b, w, c, d)); EndLine(x) && x != "" && x[0] == '}'
  {
    var core := "}" + b + w + c + ";";
    assert core[0] == '}' && core[|core| - 1] == ';';
    assert EndText(a, b, w, c, d) == a + core + d;
    StripOf(a, core, d);
    hide Strip, AllWord;
    assert core == EndText("", b, w, c, "") && AllBlank("");
  }

  lemma StripKeepsEnd(raw: string)
    ensures EndLine(Strip(raw)) <==> EndLine(raw)
    ensures EndLine(raw) ==> Strip(raw) != "" && Strip(raw)[0] == '}'
  {
    hide *;
    if EndLine(Strip(raw)) { EndLineOutside(raw); }
    if EndLine(raw) { EndLineInside(raw); }
  }

  lemma EndLineOutside(raw: string)
    requires EndLine(Strip(raw))
    ensures EndLine(raw)
  {
    hide Strip, AllBlank, AllWord, Trimmed, EndText;
    var l, t := StripIs(raw);
    var x := Strip(raw);
    var a, b, w, c, d: string :|
      AllBlank(a) && AllBlank(b) && AllWord(w, true) && AllBlank(c) && AllBlank(d) && x == EndText(a, b, w, c, d);
    hide EndLine;
    EndLineWider(l, a, b, w, c, d, t);
  }

  lemma EndLineInside(raw: string)
    requires EndLine(raw)
    ensures EndLine(Strip(raw)) && Strip(raw) != "" && Strip(raw)[0] == '}'
  {
    hide Strip, AllBlank, AllWord, Trimmed, EndText;
    var a, b, w, c, d: string :|
      AllBlank(a) && AllBlank(b) && AllWord(w, true) && AllBlank(c) && AllBlank(d) && raw == EndText(a, b, w, c, d);
    hide EndLine;
    EndLineCore(a, b, w, c, d);
  }

  /** No line matches two patterns, and a blank line matches none. */
  lemma OnePattern(s: string, w: string, v: string)
    ensures Begins(s, w) ==> !EndLine(s) && !Names(s, v) && Strip(s) != ""
    ensures Names(s, v) ==> !EndLine(s) && Strip(s) != ""
  {
    hide EndLine, WordLine, Strip;
    StripKeepsWord(s, w, true, '{');
    StripKeepsWord(s, v, false, ';');
    StripKeepsEnd(s);
  }

  /** What one line does, in terms of the patterns. */
  lemma LineMeans(s: Scan, raw: string)
    ensures var r := ReadLine(s, raw);
      && (r.inExperimental <==> !EndLine(raw) && (s.inExperimental || Begins(raw, "EXPERIMENTAL")))
      && (r.map_.hasStable <==> s.map_.hasStable || (!s.inExperimental && exists w :: w != "EXPERIMENTAL" && Begins(raw, w)))
      && (forall f :: f in r.map_.stable <==> f in s.map_.stable || (!s.inExperimental && Names(raw, f)))
      && r.map_.experimental == s.map_.experimental + if s.inExperimental && !EndLine(raw) then [Strip(raw)] else []
  {
    var line := Strip(raw);
    var h, f := WordBefore(line, true, '{'), WordBefore(line, false, ';');
    EndLineIs(line);
    StripKeepsEnd(raw);
    HeaderIs(raw);
    FunctionIs(raw);
    OnePattern(raw, h, f);
    hide Strip, EndsSection, EndLine, WordBefore, Begins, Names;
    if h != "" && h != "EXPERIMENTAL" { assert Begins(raw, h); }
  }

  lemma HeaderIs(raw: string)
    ensures forall w :: Begins(raw, w) <==> w != "" && w == WordBefore(Strip(raw), true, '{')
  {
    forall w ensures Begins(raw, w) <==> w != "" && w == WordBefore(Strip(raw), true, '{') {
      WordLineIs(Strip(raw), w, true, '{');
      StripKeepsWord(raw, w, true, '{');
      hide Strip, WordLine, WordBefore;
    }
  }

  lemma FunctionIs(raw: string)
    ensures forall f :: Names(raw, f) <==> f != "" && f == WordBefore(Strip(raw), false, ';')
  {
    forall f ensures Names(raw, f) <==> f != "" && f == WordBefore(Strip(raw), false, ';') {
      WordLineIs(Strip(raw), f, false, ';');
      StripKeepsWord(raw, f, false, ';');
      hide Strip, WordLine, WordBefore;
    }
  }

  /** Before line `i` the experimental section has begun, and no line since then ends a section. */
  ghost predicate Inside(file: seq<string>, i: nat)
    requires i <= |file|
  {
    exists j :: 0 <= j < i && Begins(file[j], "EXPERIMENTAL") && forall k :: j < k < i ==> !EndLine(file[k])
  }

  /** The lines of the experimental sections among the first `n`, without the blanks around them. */
  ghost function Copied(file: seq<string>, n: nat): seq<string>
    requires n <= |file|
  {
    if n == 0 then [] else Copied(file, n - 1) + if Inside(file, n - 1) && !EndLine(file[n - 1]) then [Strip(file[n - 1])] else []
  }

  lemma InsideStep(file: seq<string>, n: nat)
    requires n < |file|
    ensures Inside(file, n + 1) <==> !EndLine(file[n]) && (Inside(file, n) || Begins(file[n], "EXPERIMENTAL"))
  {
    hide *;
    OnePattern(file[n], "EXPERIMENTAL", "");
    if Inside(file, n + 1) { InsideFrom(file, n); }
    if Begins(file[n], "EXPERIMENTAL") { InsideBegins(file, n); }
    if Inside(file, n) && !EndLine(file[n]) { InsideStays(file, n); }
  }

  lemma InsideFrom(file: seq<string>, n: nat)
    requires n < |file| && Inside(file, n + 1)
    ensures Begins(file[n], "EXPERIMENTAL") || (Inside(file, n) && !EndLine(file[n]))
  {
    hide EndLine, Begins;
    var j :| 0 <= j < n + 1 && Begins(file[j], "EXPERIMENTAL") && forall k :: j < k < n + 1 ==> !EndLine(file[k]);
  }

  lemma InsideBegins(file: seq<string>, n: nat)
    requires n < |file| && Begins(file[n], "EXPERIMENTAL")
    ensures Inside(file, n + 1)
  {
    hide EndLine, Begins;
  }

  lemma InsideStays(file: seq<string>, n: nat)
    requires n < |file| && Inside(file, n) && !EndLine(file[n])
    ensures Inside(file, n + 1)
  {
    hide EndLine, Begins;
    var j :| 0 <= j < n && Begins(file[j], "EXPERIMENTAL") && forall k :: j < k < n ==> !EndLine(file[k]);
    assert forall k :: j < k < n + 1 ==> !EndLine(file[k]);
  }

  /** What the first `n` lines of a file mean. */
  ghost predicate Means(file: seq<string>, n: nat, s: Scan)
    requires n <= |file|
  {
    && (s.inExperimental <==> Inside(file, n))
    && (s.map_.hasStable <==> exists i, w :: 0 <= i < n && !Inside(file, i) && w != "EXPERIMENTAL" && Begins(file[i], w))
    && (forall f :: f in s.map_.stable <==> exists i :: 0 <= i < n && !Inside(file, i) && Names(file[i], f))
    && s.map_.experimental == Copied(file, n)
  }

  lemma MeansStep(file: seq<string>, n: nat, s: Scan)
    requires n < |file| && Means(file, n, s)
    ensures Means(file, n + 1, ReadLine(s, file[n]))
  {
    hide EndLine, Begins, Names, Strip, Inside, ReadLine;
    var r := ReadLine(s, file[n]);
    InsideStep(file, n);
    LineMeans(s, file[n]);
    if w :| !s.inExperimental && w != "EXPERIMENTAL" && Begins(file[n], w) {
      assert 0 <= n < n + 1 && !Inside(file, n) && w != "EXPERIMENTAL" && Begins(file[n], w);
    }
    if i, w :| 0 <= i < n && !Inside(file, i) && w != "EXPERIMENTAL" && Begins(file[i], w) {
      assert 0 <= i < n + 1 && !Inside(file, i) && w != "EXPERIMENTAL" && Begins(file[i], w);
    }
    forall f ensures f in r.map_.stable <==> exists i :: 0 <= i < n + 1 && !Inside(file, i) && Names(file[i], f) {
      if i :| 0 <= i < n && !Inside(file, i) && Names(file[i], f) { assert 0 <= i < n + 1; }
      if !s.inExperimental && Names(file[n], f) { assert 0 <= n < n + 1 && !Inside(file, n); }
    }
  }

  /**
   * The map that is read from a file, line by line or not: the functions named outside the
   * experimental sections, the lines inside them, and whether another section begins outside.
   */
  lemma {:induction false} ParseMeans(file: seq<string>, n: nat)
    requires n <= |file|
    ensures Means(file, n, ReadLines(START, file[..n]))
    ensures n == |file| ==> ReadLines(START, file[..n]).map_ == Parse(file)
    decreases n
  {
    hide ReadLine, Means;
    if n == 0 {
      NothingMeans(file);
    } else {
      ParseMeans(file, n - 1);
      MeansStep(file, n - 1, ReadLines(START, file[..n - 1]));
      assert file[..n] == file[..n - 1] + [file[n - 1]];
      ReadJoin(START, file[..n - 1], [file[n - 1]]);
      ReadOne(ReadLines(START, file[..n - 1]), file[n - 1]);
    }
    assert n == |file| ==> file[..n] == file;
    hide ReadLines;
  }

  lemma NothingMeans(file: seq<string>)
    ensures Means(file, 0, ReadLines(START, file[..0]))
  {
    hide Begins, Names, EndLine, Strip;
  }

  // ----- where the lines written stand -----

  /** The stable section: a header, the functions in order between the two labels, and the end. */
  ghost predicate StableSection(out: seq<string>, version: string, names: seq<string>) {
    var n := |names|;
    && |out| == (if n == 0 then 3 else n + 6) && out[0] == "DPDK_" + version + " {"
    && out[|out| - 2] == "\tlocal: *;" && out[|out| - 1] == "};"
    && (n > 0 ==>
          && out[1] == "\tglobal:" && out[2] == "" && out[n + 3] == ""
          && forall i :: 0 <= i < n ==> out[i + 3] == "\t" + names[i] + ";")
  }

  /** The experimental section: a header, the lines with a tab before each that is not empty, and the end. */
  ghost predicate ExperimentalSection(out: seq<string>, lines: seq<string>) {
    && |out| == |lines| + 2 && out[0] == "EXPERIMENTAL {" && out[|out| - 1] == "};"
    && forall i :: 0 <= i < |lines| ==> out[i + 1] == if lines[i] == "" then "" else "\t" + lines[i]
  }

  /** The file written: the sections that there are, with an empty line between two. */
  ghost predicate Layout(out: seq<string>, m: Map, names: seq<string>, version: string) {
    if m.hasStable && m.experimental != [] then
      exists k :: 0 <= k < |out| && StableSection(out[..k], version, names) && out[k] == "" && ExperimentalSection(out[k + 1..], m.experimental)
    else if m.hasStable then StableSection(out, version, names)
    else if m.experimental != [] then ExperimentalSection(out, m.experimental)
    else out == []
  }

  lemma StableLinesStand(version: string, names: seq<string>)
    ensures StableSection(StableLines(version, names), version, names)
  {
  }

  lemma ExperimentalLinesStand(lines: seq<string>)
    ensures ExperimentalSection(ExperimentalLines(lines), lines)
  {
  }

  lemma WrittenStands(m: Map, names: seq<string>, version: string)
    ensures Layout(Written(m, names, version), m, names, version)
  {
    var out, first := Written(m, names, version), StableLines(version, names);
    StableLinesStand(version, names);
    ExperimentalLinesStand(m.experimental);
    hide StableSection, ExperimentalSection, StableLines, ExperimentalLines;
    if m.hasStable && m.experimental != [] {
      var k := |first|;
      assert out[..k] == first && out[k] == "" && out[k + 1..] == ExperimentalLines(m.experimental);
      assert StableSection(out[..k], version, names) && ExperimentalSection(out[k + 1..], m.experimental);
    } else {
      assert m.hasStable ==> out == first;
      assert !m.hasStable && m.experimental != [] ==> out == ExperimentalLines(m.experimental);
    }
  }
}
