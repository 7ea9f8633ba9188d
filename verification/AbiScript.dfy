/** The script itself: its functions over the lines of a file, and its main program. */
module AbiScript {
  import opened AbiMap
  import opened AbiPatterns

  /** `__parse_map_file`. */
  method ParseMapFile(file: seq<string>) returns (hasStable: bool, stable: set<string>, experimental: seq<string>)
    ensures Map(hasStable, stable, experimental) == Parse(file)
    ensures hasStable <==> exists i, w :: 0 <= i < |file| && !Inside(file, i) && w != "EXPERIMENTAL" && Begins(file[i], w)
    ensures forall f :: f in stable <==> exists i :: 0 <= i < |file| && !Inside(file, i) && Names(file[i], f)
    ensures experimental == Copied(file, |file|)
  {
    hide Strip, EndsSection, WordBefore, Inside, Begins, Names;
    ParseMeans(file, |file|);
    hasStable, stable, experimental := false, {}, [];
    var inExperimental := false;
    for i := 0 to |file|
      invariant ReadLines(START, file) == ReadLines(Scan(Map(hasStable, stable, experimental), inExperimental), file[i..])
    {
      assert file[i..][0] == file[i] && file[i..][1..] == file[i + 1..];
      var line := Strip(file[i]);
      if EndsSection(line) {
        inExperimental := false;
        continue;
      }
      if inExperimental {
        experimental := experimental + [line];
        continue;
      }
      if line == "" {
        continue;
      }
      var section := WordBefore(line, true, '{');
      if section != "" {
        inExperimental := section == "EXPERIMENTAL";
        if !inExperimental { hasStable := true; }
        continue;
      }
      var func := WordBefore(line, false, ';');
      if func != "" {
        stable := stable + {func};
      }
    }
  }

  /** `__generate_stable_abi`: the lines are added to `out`. */
  method GenerateStableAbi(version: string, names: seq<string>) returns (out: seq<string>)
    ensures out == StableLines(version, names) && StableSection(out, version, names)
  {
    StableLinesStand(version, names);
    hide StableSection;
    out := [Header(version)];
    if names != [] {
      out := out + ["\tglobal:", ""];
      ghost var before := out;
      for i := 0 to |names|
        invariant out == before + FunctionLines(names[..i])
      {
        assert names[..i + 1] == names[..i] + [names[i]];
        out := out + ["\t" + names[i] + ";"];
      }
      assert names[..|names|] == names;
      out := out + [""];
    }
    out := out + ["\tlocal: *;", "};"];
  }

  /** `__generate_experimental_abi`. */
  method GenerateExperimentalAbi(lines: seq<string>) returns (out: seq<string>)
    ensures out == ExperimentalLines(lines) && ExperimentalSection(out, lines)
  {
    ExperimentalLinesStand(lines);
    hide ExperimentalSection;
    out := ["EXPERIMENTAL {"];
    for i := 0 to |lines|
      invariant out == ["EXPERIMENTAL {"] + Indented(lines[..i])
    {
      assert lines[..i + 1] == lines[..i] + [lines[i]];
      out := out + [if lines[i] == "" then "" else "\t" + lines[i]];
    }
    assert lines[..|lines|] == lines;
    out := out + ["};"];
  }

  predicate Digit(c: char) { '0' <= c <= '9' }

  /** The pattern `\d{1,2}\.\d{1,2}`, which is matched against a prefix of the argument only. */
  predicate AcceptedVersion(v: string) {
    || (|v| >= 3 && Digit(v[0]) && v[1] == '.' && Digit(v[2]))
    || (|v| >= 4 && Digit(v[0]) && Digit(v[1]) && v[2] == '.' && Digit(v[3]))
  }

  datatype Result = InvalidInputFile | InvalidVersion | Rewritten(file: seq<string>)

  /** `__main`, for the map file of that name and content. */
  method Update(name: string, version: string, file: seq<string>) returns (result: Result)
    ensures result == InvalidInputFile <==> !Ends(name, "version.map")
    ensures result == InvalidVersion <==> Ends(name, "version.map") && !AcceptedVersion(version)
    ensures result.Rewritten? ==> Rewrites(file, version, result.file)
    ensures result.Rewritten? ==> exists q :: SortedOf(q, Parse(file).stable) && Layout(result.file, Parse(file), q, version)
  {
    hide StableSection, ExperimentalSection, Layout, Inside, Begins, Names;
    if !Ends(name, "version.map") {
      return InvalidInputFile;
    }
    if !AcceptedVersion(version) {
      return InvalidVersion;
    }
    var hasStable, stable, experimental := ParseMapFile(file);
    var names := SortNames(stable);
    var out := [];
    if hasStable {
      var section := GenerateStableAbi(version, names);
      out := out + section;
    }
    if hasStable && experimental != [] {
      out := out + [""];
    }
    if experimental != [] {
      var section := GenerateExperimentalAbi(experimental);
      out := out + section;
    }
    assert out == Written(Parse(file), names, version);
    WrittenStands(Parse(file), names, version);
    return Rewritten(out);
  }

  predicate Ends(s: string, suffix: string) { |s| >= |suffix| && s[|s| - |suffix|..] == suffix }

  lemma EndsIs(s: string, suffix: string)
    ensures Ends(s, suffix) <==> exists k :: 0 <= k <= |s| && s[k..] == suffix
  {
    if k :| 0 <= k <= |s| && s[k..] == suffix { assert k == |s| - |suffix|; }
  }

  ghost predicate Digits(s: string) { 1 <= |s| <= 2 && forall i :: 0 <= i < |s| ==> s[i] in DIGITS }

  /** An accepted version begins with one or two digits, a dot, and one or two digits. */
  lemma AcceptedIs(v: string)
    ensures AcceptedVersion(v) <==> exists a, b, rest: string :: Digits(a) && Digits(b) && v == a + "." + b + rest
  {
    forall c: char ensures Digit(c) <==> c in DIGITS { }
    if AcceptedVersion(v) {
      var n := if Digit(v[0]) && v[1] == '.' then 1 else 2;
      var a, b, rest := v[..n], v[n + 1..n + 2], v[n + 2..];
      assert Digits(a) && Digits(b) && v == a + "." + b + rest;
    }
    if a, b, rest: string :| Digits(a) && Digits(b) && v == a + "." + b + rest {
      assert a[0] in DIGITS && b[0] in DIGITS && v[|a|] == '.' && v[|a| + 1] == b[0] && v[0] == a[0];
      assert |a| == 2 ==> v[1] == a[1] && a[1] in DIGITS;
    }
  }

  /** The check of the argument lets versions through that the header pattern does not accept. */
  lemma AcceptedIsNotGood()
    ensures AcceptedVersion("20.0-rc1") && !GoodVersion("20.0-rc1")
    ensures AcceptedVersion("20.0") && GoodVersion("20.0")
  {
    LeadOf("20.0", "-rc1", true);
    assert "20.0-rc1" == "20.0" + "-rc1" && "20.0-rc1"[4..] == "-rc1";
    LeadOf("20.0", "", true);
    assert "20.0" == "20.0" + "" && "20.0"[4..] == "";
  }
}
