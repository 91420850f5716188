/** Which programs are taken for our own, said of the words of their paths: by
    the MCP wiring, and more strictly by the hook settings. */
module OurPrograms {
  import opened Options
  import opened Text
  import Hook = HookCommand
  import Mcp = McpWire

  // ---------------------------------------------------------------- paths

  predicate IsFileName(name: string) {
    name != "" && forall i :: 0 <= i < |name| ==> name[i] != '/' && name[i] != '\\'
  }

  lemma LongerFirst(c: char, first: seq<string>, name: string)
    requires |first| >= 1
    ensures [[c] + (first + [name])[0]] + (first + [name])[1..] == ([[c] + first[0]] + first[1..]) + [name]
    ensures [""] + (first + [name]) == ([""] + first) + [name]
  {
    assert (first + [name])[0] == first[0] && (first + [name])[1..] == first[1..] + [name];
  }

  lemma {:induction false} PartsOfPath(dir: string, separator: char, name: string)
    requires IsPathSeparator(separator) && IsFileName(name)
    ensures PathParts(dir + [separator] + name) == PathParts(dir) + [name]
  {
    var path := dir + [separator] + name;
    if dir == "" {
      assert path[1..] == name;
      SplitWhole(name, IsPathSeparator);
      assert [""] + [name] == ["", name];
    } else {
      assert path[0] == dir[0] && path[1..] == dir[1..] + [separator] + name;
      PartsOfPath(dir[1..], separator, name);
      LongerFirst(dir[0], PathParts(dir[1..]), name);
    }
  }

  lemma PartsOfName(name: string)
    requires IsFileName(name)
    ensures PathParts(name) == [name]
  {
    SplitWhole(name, IsPathSeparator);
  }

  lemma {:induction false} NonEmptySnoc(parts: seq<string>, name: string)
    requires name != ""
    ensures Hook.NonEmpty(parts + [name]) == Hook.NonEmpty(parts) + [AsciiLower(name)]
  {
    if parts == [] {
      assert [name][1..] == [] && Hook.NonEmpty([]) == [];
    } else {
      assert (parts + [name])[1..] == parts[1..] + [name] && (parts + [name])[0] == parts[0];
      NonEmptySnoc(parts[1..], name);
      var head := if parts[0] == "" then [] else [AsciiLower(parts[0])];
      assert head + (Hook.NonEmpty(parts[1..]) + [AsciiLower(name)]) ==
             (head + Hook.NonEmpty(parts[1..])) + [AsciiLower(name)];
    }
  }

  lemma ComponentsOfPath(dir: string, separator: char, name: string)
    requires IsPathSeparator(separator) && IsFileName(name)
    ensures Hook.Components(dir + [separator] + name) == Hook.Components(dir) + [AsciiLower(name)]
  {
    PartsOfPath(dir, separator, name);
    NonEmptySnoc(PathParts(dir), name);
  }

  // --------------------------------------------------------- the MCP wiring

  predicate GuardName(lower: string) {
    || lower == "innerwarden" || lower == "iw" || lower == "iw-guard"
    || lower == "innerwarden.exe" || lower == "iw.exe" || lower == "iw-guard.exe"
  }

  lemma CutExe(lower: string)
    ensures (if EndsWith(lower, ".exe") then lower[..|lower| - 4] else lower) in ["innerwarden", "iw", "iw-guard"] <==>
            GuardName(lower)
  {
    if EndsWith(lower, ".exe") {
      assert lower == lower[..|lower| - 4] + ".exe";
      assert lower[|lower| - 1] == 'e';
      assert "innerwarden"[10] == 'n' && "iw"[1] == 'w' && "iw-guard"[7] == 'd';
    } else {
      NoExe(lower);
    }
    assert "innerwarden.exe" == "innerwarden" + ".exe" && "iw.exe" == "iw" + ".exe";
    assert "iw-guard.exe" == "iw-guard" + ".exe";
  }

  lemma NoExe(lower: string)
    requires !EndsWith(lower, ".exe")
    ensures lower != "innerwarden.exe" && lower != "iw.exe" && lower != "iw-guard.exe"
  {
    assert "innerwarden.exe"[11..] == ".exe" && "iw.exe"[2..] == ".exe" && "iw-guard.exe"[8..] == ".exe";
  }

  /** The MCP wiring takes a command for ours by its file name alone, in any
      directory and in any case: the three names, each perhaps with `.exe`. */
  lemma GuardCommandExactly(dir: string, separator: char, name: string)
    requires (separator == '/' || separator == '\\') && IsFileName(name)
    ensures Mcp.IsGuardCommand(name) <==> GuardName(AsciiLower(name))
    ensures Mcp.IsGuardCommand(dir + [separator] + name) <==> GuardName(AsciiLower(name))
  {
    PartsOfName(name);
    PartsOfPath(dir, separator, name);
    CutExe(AsciiLower(name));
  }

  // ------------------------------------------------------- the hook settings

  predicate WardenName(lower: string) {
    || lower == "innerwarden" || lower == "innerwarden.exe" || lower == "innerwarden.cmd" || lower == "innerwarden.bat"
  }

  predicate ShortName(lower: string) {
    lower == "iw" || lower == "iw.exe" || lower == "iw.cmd" || lower == "iw.bat"
  }

  /** The directories in which `iw` is ours: where it is installed, and where
      Cargo builds it. */
  predicate IwHome(dirs: seq<string>) {
    var n := |dirs|;
    && n >= 2
    && (|| (dirs[n - 2] == ".local" && dirs[n - 1] == "bin")
        || ((dirs[n - 1] == "debug" || dirs[n - 1] == "release") && "target" in dirs[..n - 1]))
  }

  predicate Extension(s: string) {
    s == ".exe" || s == ".cmd" || s == ".bat"
  }

  lemma CutStem(lower: string, stem: string)
    requires |stem| < 4 || stem[|stem| - 4] != '.'
    requires stem != "" && stem[|stem| - 1] != 'e' && stem[|stem| - 1] != 'd' && stem[|stem| - 1] != 't'
    ensures Hook.Stem(lower) == stem <==>
            lower == stem || lower == stem + ".exe" || lower == stem + ".cmd" || lower == stem + ".bat"
  {
    var n := |lower| - 4;
    if n >= 0 && Extension(lower[n..]) {
      assert lower == lower[..n] + lower[n..];
      assert lower[|lower| - 1] == lower[n..][3];
    }
    forall e | Extension(e)
      ensures lower == stem + e ==> n >= 0 && lower[n..] == e && lower[..n] == stem
    {
      assert |e| == 4;
    }
  }

  lemma StemNames(lower: string)
    ensures Hook.Stem(lower) == "innerwarden" <==> WardenName(lower)
    ensures Hook.Stem(lower) == "iw" <==> ShortName(lower)
  {
    assert "innerwarden"[10] == 'n' && "innerwarden"[7] == 'r' && "iw"[1] == 'w';
    CutStem(lower, "innerwarden");
    CutStem(lower, "iw");
    assert "innerwarden" + ".exe" == "innerwarden.exe" && "innerwarden" + ".cmd" == "innerwarden.cmd";
    assert "innerwarden" + ".bat" == "innerwarden.bat";
    assert "iw" + ".exe" == "iw.exe" && "iw" + ".cmd" == "iw.cmd" && "iw" + ".bat" == "iw.bat";
  }

  lemma OursByParts(executable: string, dirs: seq<string>, lower: string)
    requires Hook.Components(executable) == dirs + [lower]
    ensures Hook.IsInnerWarden(executable) <==> WardenName(lower) || (ShortName(lower) && IwHome(dirs))
  {
    StemNames(lower);
    var parts := dirs + [lower];
    if dirs != [] {
      assert parts[..|parts| - 2] == dirs[..|dirs| - 1];
    }
    assert forall i :: 0 <= i < |dirs| ==> parts[i] == dirs[i];
  }

  /** `innerwarden` is ours in any directory. */
  lemma WardenAnywhere(dir: string, separator: char, name: string)
    requires (separator == '/' || separator == '\\') && IsFileName(name) && WardenName(AsciiLower(name))
    ensures Hook.IsInnerWarden(name) && Hook.IsInnerWarden(dir + [separator] + name)
  {
    NameAlone(name);
    ComponentsOfPath(dir, separator, name);
    OursByParts(name, [], AsciiLower(name));
    OursByParts(dir + [separator] + name, Hook.Components(dir), AsciiLower(name));
  }

  lemma NameAlone(name: string)
    requires IsFileName(name)
    ensures Hook.Components(name) == [] + [AsciiLower(name)]
  {
    PartsOfName(name);
    NonEmptySnoc([], name);
    assert [] + [name] == [name] && Hook.NonEmpty([]) == [];
  }

  /** A program by any other name is not ours, wherever it is, but `iw`. */
  lemma OthersNowhere(dir: string, separator: char, name: string)
    requires (separator == '/' || separator == '\\') && IsFileName(name)
    requires !WardenName(AsciiLower(name)) && !ShortName(AsciiLower(name))
    ensures !Hook.IsInnerWarden(name) && !Hook.IsInnerWarden(dir + [separator] + name)
  {
    NameAlone(name);
    ComponentsOfPath(dir, separator, name);
    OursByParts(name, [], AsciiLower(name));
    OursByParts(dir + [separator] + name, Hook.Components(dir), AsciiLower(name));
  }

  /** `iw` is ours below `.local/bin`, and below `target` in `debug` or `release`;
      in a directory of any other name, or in none, it is the system's. */
  lemma IwByDirectory(above: string, parent: string, last: string, name: string)
    requires IsFileName(parent) && IsFileName(last) && IsFileName(name) && ShortName(AsciiLower(name))
    ensures !Hook.IsInnerWarden(name)
    ensures Hook.IsInnerWarden(above + "/" + parent + "/" + last + "/" + name) <==>
            || (AsciiLower(parent) == ".local" && AsciiLower(last) == "bin")
            || (&& (AsciiLower(last) == "debug" || AsciiLower(last) == "release")
                && (AsciiLower(parent) == "target" || "target" in Hook.Components(above)))
  {
    NameAlone(name);
    OursByParts(name, [], AsciiLower(name));
    ThreeDown(above, parent, last, name);
    HomeBy(Hook.Components(above), AsciiLower(parent), AsciiLower(last));
    OursByParts(above + "/" + parent + "/" + last + "/" + name,
                Hook.Components(above) + [AsciiLower(parent)] + [AsciiLower(last)], AsciiLower(name));
  }

  lemma ThreeDown(above: string, parent: string, last: string, name: string)
    requires IsFileName(parent) && IsFileName(last) && IsFileName(name)
    ensures Hook.Components(above + "/" + parent + "/" + last + "/" + name) ==
            Hook.Components(above) + [AsciiLower(parent)] + [AsciiLower(last)] + [AsciiLower(name)]
  {
    ComponentsOfPath(above, '/', parent);
    ComponentsOfPath(above + "/" + parent, '/', last);
    ComponentsOfPath(above + "/" + parent + "/" + last, '/', name);
  }

  lemma HomeBy(above: seq<string>, parent: string, last: string)
    ensures IwHome(above + [parent] + [last]) <==>
            || (parent == ".local" && last == "bin")
            || ((last == "debug" || last == "release") && (parent == "target" || "target" in above))
  {
    var dirs := above + [parent] + [last];
    assert dirs[..|dirs| - 1] == above + [parent];
  }

  predicate IsLower(name: string) {
    forall i :: 0 <= i < |name| ==> !('A' <= name[i] <= 'Z')
  }

  lemma LowerAlready(name: string)
    requires IsLower(name)
    ensures AsciiLower(name) == name
  {
  }

  /** The same of directories named in lower case. */
  lemma IwIn(above: string, parent: string, last: string, iw: string)
    requires iw == "iw" && IsFileName(parent) && IsFileName(last) && IsLower(parent) && IsLower(last)
    ensures last != "bin" && last != "debug" && last != "release" ==>
              !Hook.IsInnerWarden(above + "/" + parent + "/" + last + "/" + iw)
    ensures parent == ".local" && last == "bin" ==> Hook.IsInnerWarden(above + "/" + parent + "/" + last + "/" + iw)
    ensures parent == "target" && last == "debug" ==> Hook.IsInnerWarden(above + "/" + parent + "/" + last + "/" + iw)
  {
    assert IsLower(iw) && IsFileName(iw);
    LowerAlready(iw);
    LowerAlready(parent);
    LowerAlready(last);
    IwByDirectory(above, parent, last, iw);
  }

  lemma ExamplePaths()
    ensures "" + "/" + "usr" + "/" + "sbin" + "/" + "iw" == "/usr/sbin/iw"
    ensures "/repo" + "/" + "target" + "/" + "debug" + "/" + "iw" == "/repo/target/debug/iw"
    ensures "/home" + "/" + ".local" + "/" + "bin" + "/" + "iw" == "/home/.local/bin/iw"
  {
  }

  lemma ExampleNames()
    ensures IsFileName("usr") && IsFileName("sbin") && IsLower("usr") && IsLower("sbin")
    ensures IsFileName("target") && IsFileName("debug") && IsLower("target") && IsLower("debug")
    ensures IsFileName(".local") && IsFileName("bin") && IsLower(".local") && IsLower("bin")
    ensures "sbin" != "bin" && "sbin" != "debug" && "sbin" != "release"
  {
    assert "sbin"[0] == 's';
  }

  /** The system's wireless tool is left alone. */
  lemma SystemIw()
    ensures !Hook.IsInnerWarden("/usr/sbin/iw")
  {
    ExampleNames();
    ExamplePaths();
    IwIn("", "usr", "sbin", "iw");
  }

  /** What Cargo builds is ours, and what is installed for one user. */
  lemma BuiltIw()
    ensures Hook.IsInnerWarden("/repo/target/debug/iw")
  {
    ExampleNames();
    ExamplePaths();
    IwIn("/repo", "target", "debug", "iw");
  }

  lemma InstalledIw()
    ensures Hook.IsInnerWarden("/home/.local/bin/iw")
  {
    ExampleNames();
    ExamplePaths();
    IwIn("/home", ".local", "bin", "iw");
  }
}
