/**
 * The macOS launch script Cities_Loader.sh: how MacOSDoorstopManager writes
 * it (BuildConfig), how it reads it back by fixed line index
 * (InternalLoadConfig), and how it cleans DYLD_INSERT_LIBRARIES.
 */
module MacOSLaunchScript {
  import opened Wrappers
  import opened Strings

  /** Environment.NewLine on macOS, which StringBuilder.AppendLine appends. */
  const NewLine := "\n"

  /** The fixed pieces of a Unix launch script (UnixConfigProperties). */
  datatype UnixConfigProperties = UnixConfigProperties(
    header: string,
    preloadKey: string,
    enabledStateKey: string,
    targetAssemblyKey: string,
    gameExePath: string)

  /**
   * The four header lines of the macOS script. Here and below the source's
   * literals are written as concatenations of shorter pieces, which keeps
   * the verifier from unrolling long string literals; the text is the same.
   */
  const ShebangLine := "#!/bin/sh"
  const LibnameLine := "doorstop_libname=" + "\"doorstop.dylib\""
  const DirLine := "doorstop_dir=$PWD"
  const LibraryPathLine := "export DYLD_LIBRARY_PATH=" + "${doorstop_dir}:" + "${DYLD_LIBRARY_PATH};"

  /** The shell variable naming the loader library, which the preload export refers to. */
  const LibnameMarker := "$doorstop_libname"

  /** The environment variables the script exports and echoes. */
  const InsertLibrariesVar := "DYLD_INSERT_LIBRARIES"
  const EnabledVar := "DOORSTOP_ENABLED"
  const TargetAssemblyVar := "DOORSTOP_TARGET_ASSEMBLY"
  const LibraryPathVar := "DYLD_LIBRARY_PATH"

  /** _configProperties of MacOSDoorstopManager. */
  const MacOSConfigProperties := UnixConfigProperties(
    ShebangLine + NewLine + LibnameLine + NewLine + DirLine + NewLine + LibraryPathLine,
    "export " + InsertLibrariesVar,
    "export " + EnabledVar,
    "export " + TargetAssemblyVar,
    "./Cities.app/" + "Contents/MacOS/" + "Cities $@")

  /** A diagnostic line: echo "[Cities_Loader] <message>". */
  function EchoLine(message: string): string
  {
    "echo \"[Cities_Loader] " + message + "\""
  }

  /** The diagnostic line that prints one variable: echo "[Cities_Loader] NAME=$NAME". */
  function EchoVariable(name: string): string
  {
    EchoLine(name + "=$" + name)
  }

  /** The five echo lines BuildConfig writes after the exports, in order. */
  const EchoLines := [
    EchoLine("Launching with Doorstop..."),
    EchoVariable(EnabledVar),
    EchoVariable(TargetAssemblyVar),
    EchoVariable(InsertLibrariesVar),
    EchoVariable(LibraryPathVar)]

  /** The settings the script carries (ConfigValues). */
  datatype ConfigValues = ConfigValues(enabled: bool, targetAssembly: string, usesUserPreload: bool)

  /** Boolean.ToString(). */
  function BoolToString(b: bool): string
  {
    if b then "True" else "False"
  }

  /** StringBuilder.AppendLine(text) on a builder holding sb. */
  function AppendLine(sb: string, text: string): string
  {
    sb + text + NewLine
  }

  /** BuildConfig(): the script text for _configProperties and the _configValues snapshot. */
  function BuildConfig(props: UnixConfigProperties, values: ConfigValues): string
  {
    var sb0 := AppendLine("", props.header);
    var sb1 := AppendLine(sb0 + props.preloadKey, "=" + LibnameMarker + ";");
    var sb2 := AppendLine(sb1 + props.enabledStateKey + "=" + ToUpper(BoolToString(values.enabled)), ";");
    var sb3 := AppendLine(sb2 + props.targetAssemblyKey + "=\"" + values.targetAssembly, "\";");
    var sb4 := AppendLine(sb3, EchoLines[0]);
    var sb5 := AppendLine(sb4, EchoLines[1]);
    var sb6 := AppendLine(sb5, EchoLines[2]);
    var sb7 := AppendLine(sb6, EchoLines[3]);
    var sb8 := AppendLine(sb7, EchoLines[4]);
    sb8 + props.gameExePath
  }

  /** The three export lines that carry the settings. */
  function SettingLines(props: UnixConfigProperties, values: ConfigValues): seq<string>
  {
    [ props.preloadKey + "=" + LibnameMarker + ";",
      props.enabledStateKey + "=" + FlagText(values.enabled) + ";",
      props.targetAssemblyKey + "=\"" + values.targetAssembly + "\";" ]
  }

  /** The script line by line: header lines, settings, echoes, exec line. */
  function ScriptLayout(props: UnixConfigProperties, values: ConfigValues): seq<string>
  {
    Split(props.header, '\n') + SettingLines(props, values) + EchoLines + [props.gameExePath]
  }

  lemma UpperBoolText(b: bool)
    ensures ToUpper(BoolToString(b)) == FlagText(b)
  {
    var u := ToUpper(BoolToString(b));
    if b {
      assert u[0] == 'T' && u[1] == 'R' && u[2] == 'U' && u[3] == 'E';
    } else {
      assert u[0] == 'F' && u[1] == 'A' && u[2] == 'L' && u[3] == 'S' && u[4] == 'E';
    }
  }

  /** Appending pieces one by one is appending their concatenation. */
  lemma Regroup(sb: string, a: string, b: string, c: string, d: string)
    ensures AppendLine(sb + a + b + c, d) == AppendLine(sb, a + b + c + d)
  {
  }

  lemma JoinSuffix(parts: seq<string>, sep: char, k: nat)
    requires k + 1 < |parts|
    ensures Join(parts[k..], sep) == parts[k] + [sep] + Join(parts[k + 1..], sep)
  {
    assert parts[k..][1..] == parts[k + 1..];
  }

  /** Nine lines joined, spelled out from the right. */
  lemma JoinNine(x: seq<string>, sep: char)
    requires |x| == 9
    ensures Join(x, sep) == x[0] + [sep] + (x[1] + [sep] + (x[2] + [sep] + (x[3] + [sep] + (x[4] + [sep] +
                            (x[5] + [sep] + (x[6] + [sep] + (x[7] + [sep] + x[8])))))))
  {
    assert Join(x[8..], sep) == x[8];
    JoinSuffix(x, sep, 7);
    JoinSuffix(x, sep, 6);
    JoinSuffix(x, sep, 5);
    JoinSuffix(x, sep, 4);
    JoinSuffix(x, sep, 3);
    JoinSuffix(x, sep, 2);
    JoinSuffix(x, sep, 1);
    JoinSuffix(x, sep, 0);
    assert x[0..] == x;
  }

  /** The builder's appends, regrouped from the right; associativity only. */
  lemma Regrouped(h: string, x0: string, x1: string, x2: string, x3: string, x4: string,
                  x5: string, x6: string, x7: string, x8: string, nl: string)
    ensures (((((((((("" + h + nl) + x0 + nl) + x1 + nl) + x2 + nl) + x3 + nl) + x4 + nl) + x5 + nl)
               + x6 + nl) + x7 + nl) + x8)
            == h + nl + (x0 + nl + (x1 + nl + (x2 + nl + (x3 + nl + (x4 + nl +
               (x5 + nl + (x6 + nl + (x7 + nl + x8))))))))
  {
    assert "" + h == h;
  }

  /** The three export lines, appended piece by piece, are appended as whole lines. */
  lemma SettingsShape(sb0: string, pk: string, pv: string, ek: string, eq: string, flag: string,
                      semi: string, tk: string, open: string, path: string, close: string)
    ensures AppendLine(AppendLine(AppendLine(sb0 + pk, pv) + ek + eq + flag, semi) + tk + open + path, close)
            == AppendLine(AppendLine(AppendLine(sb0, pk + pv), ek + eq + flag + semi), tk + open + path + close)
  {
    Regroup(sb0, pk, "", "", pv);
    assert sb0 + pk + "" + "" == sb0 + pk;
    assert pk + "" + "" + pv == pk + pv;
    var sb1 := AppendLine(sb0, pk + pv);
    Regroup(sb1, ek, eq, flag, semi);
    var sb2 := AppendLine(sb1, ek + eq + flag + semi);
    Regroup(sb2, tk, open, path, close);
  }

  /** Header, three settings, five echoes and the exec line, appended, are those lines joined. */
  lemma LinesShape(h: string, hl: seq<string>, a: string, b: string, c: string, e: seq<string>, exe: string)
    requires |hl| >= 1 && Join(hl, '\n') == h && |e| == 5
    ensures AppendLine(AppendLine(AppendLine(AppendLine(AppendLine(AppendLine(AppendLine(AppendLine(
              AppendLine("", h), a), b), c), e[0]), e[1]), e[2]), e[3]), e[4]) + exe
            == Join(hl + [a, b, c] + e + [exe], '\n')
  {
    var rest := [a, b, c, e[0], e[1], e[2], e[3], e[4], exe];
    assert hl + [a, b, c] + e + [exe] == hl + rest;
    JoinAppend(hl, rest, '\n');
    JoinNine(rest, '\n');
    Regrouped(h, a, b, c, e[0], e[1], e[2], e[3], e[4], exe, NewLine);
  }

  /** Any builder run of BuildConfig's shape yields its lines joined by newlines. */
  lemma BuilderShape(h: string, hl: seq<string>, pk: string, pv: string, ek: string, eq: string,
                     flag: string, semi: string, tk: string, open: string, path: string, close: string,
                     e: seq<string>, exe: string)
    requires |hl| >= 1 && Join(hl, '\n') == h && |e| == 5
    ensures AppendLine(AppendLine(AppendLine(AppendLine(AppendLine(AppendLine(AppendLine(AppendLine(
              AppendLine("", h) + pk, pv) + ek + eq + flag, semi) + tk + open + path, close),
              e[0]), e[1]), e[2]), e[3]), e[4]) + exe
            == Join(hl + [pk + pv, ek + eq + flag + semi, tk + open + path + close] + e + [exe], '\n')
  {
    SettingsShape(AppendLine("", h), pk, pv, ek, eq, flag, semi, tk, open, path, close);
    LinesShape(h, hl, pk + pv, ek + eq + flag + semi, tk + open + path + close, e, exe);
  }

  /** The script is its layout lines joined by newlines, with no newline after the exec line. */
  lemma BuildConfigIsJoin(props: UnixConfigProperties, values: ConfigValues)
    ensures BuildConfig(props, values) == Join(ScriptLayout(props, values), '\n')
  {
    UpperBoolText(values.enabled);
    var pv := "=" + LibnameMarker + ";";
    assert SettingLines(props, values)[0] == props.preloadKey + pv;
    BuilderShape(props.header, Split(props.header, '\n'), props.preloadKey, pv,
                 props.enabledStateKey, "=", ToUpper(BoolToString(values.enabled)), ";",
                 props.targetAssemblyKey, "=\"", values.targetAssembly, "\";",
                 EchoLines, props.gameExePath);
  }

  /** A one-line text splits into itself. */
  lemma SplitOneLine(a: string)
    requires '\n' !in a
    ensures Split(a, '\n') == [a]
  {
    var p := Split(a, '\n');
    assert p == [p[0]];
  }

  /** Splitting at the first newline peels off the line before it. */
  lemma SplitLine(head: string, tail: string)
    requires '\n' !in head
    ensures Split(head + NewLine + tail, '\n') == [head] + Split(tail, '\n')
  {
    assert NewLine == ['\n'];
    SplitAtFirst(head, tail, '\n');
  }

  /** Four newline-free lines joined by newlines split back into those four lines. */
  lemma FourLines(a: string, b: string, c: string, d: string)
    requires '\n' !in a && '\n' !in b && '\n' !in c && '\n' !in d
    ensures Split(a + NewLine + (b + NewLine + (c + NewLine + d)), '\n') == [a, b, c, d]
  {
    var t2 := c + NewLine + d;
    assert Split(t2, '\n') == [c, d] by {
      SplitOneLine(d);
      SplitLine(c, d);
    }
    var t1 := b + NewLine + t2;
    assert Split(t1, '\n') == [b, c, d] by {
      SplitLine(b, t2);
    }
    SplitLine(a, t1);
  }

  /** Concatenation regrouped to the right. */
  lemma Rightward(a: string, b: string, c: string, d: string, nl: string)
    ensures a + nl + b + nl + c + nl + d == a + nl + (b + nl + (c + nl + d))
  {
    assert a + nl + b + nl + c + nl + d == (a + nl + b + nl + c) + (nl + d);
    assert (a + nl + b + nl + c) + (nl + d) == (a + nl + b) + (nl + (c + nl + d));
    assert (a + nl + b) + (nl + (c + nl + d)) == a + nl + (b + nl + (c + nl + d));
  }

  lemma HeaderLinesAreLines()
    ensures '\n' !in ShebangLine && '\n' !in LibnameLine && '\n' !in DirLine && '\n' !in LibraryPathLine
  {
    assert '\n' !in "doorstop_libname=" && '\n' !in "\"doorstop.dylib\"";
    assert '\n' !in "export DYLD_LIBRARY_PATH=" && '\n' !in "${doorstop_dir}:" && '\n' !in "${DYLD_LIBRARY_PATH};";
  }

  /** The macOS header is four lines. */
  lemma MacOSHeaderLines()
    ensures Split(MacOSConfigProperties.header, '\n') == [ShebangLine, LibnameLine, DirLine, LibraryPathLine]
  {
    HeaderLinesAreLines();
    FourLines(ShebangLine, LibnameLine, DirLine, LibraryPathLine);
    Rightward(ShebangLine, LibnameLine, DirLine, LibraryPathLine, NewLine);
  }

  lemma VariablesAreNames()
    ensures '\n' !in InsertLibrariesVar && '=' !in InsertLibrariesVar
    ensures '\n' !in EnabledVar && '=' !in EnabledVar
    ensures '\n' !in TargetAssemblyVar && '=' !in TargetAssemblyVar
    ensures '\n' !in LibraryPathVar
  {
  }

  /** The three keys are single lines without '='. */
  lemma MacOSKeysAreKeys()
    ensures var p := MacOSConfigProperties;
      '\n' !in p.preloadKey && '=' !in p.preloadKey
      && '\n' !in p.enabledStateKey && '=' !in p.enabledStateKey
      && '\n' !in p.targetAssemblyKey && '=' !in p.targetAssemblyKey
      && '\n' !in p.gameExePath
  {
    VariablesAreNames();
    assert '\n' !in "export " && '=' !in "export ";
    assert '\n' !in "./Cities.app/" && '\n' !in "Contents/MacOS/" && '\n' !in "Cities $@";
  }

  lemma EchoLineIsLine(message: string)
    requires '\n' !in message
    ensures '\n' !in EchoLine(message)
  {
    assert '\n' !in "echo \"[Cities_Loader] " && '\n' !in "\"";
  }

  lemma EchoLinesAreLines()
    ensures AllLines(EchoLines)
  {
    VariablesAreNames();
    assert '\n' !in "Launching with Doorstop...";
    EchoLineIsLine("Launching with Doorstop...");
    assert '\n' !in "=$";
    var names := [EnabledVar, TargetAssemblyVar, InsertLibrariesVar, LibraryPathVar];
    forall k | 0 <= k < 4 ensures '\n' !in EchoVariable(names[k]) {
      EchoLineIsLine(names[k] + "=$" + names[k]);
    }
    assert EchoLines == [EchoLine("Launching with Doorstop...")] + seq(4, k requires 0 <= k < 4 => EchoVariable(names[k]));
  }

  /** The enabled flag as BuildConfig writes it: Boolean.ToString().ToUpper(). */
  function FlagText(enabled: bool): string
  {
    if enabled then "TRUE" else "FALSE"
  }

  /** No line of the sequence holds a newline. */
  predicate AllLines(lines: seq<string>)
  {
    forall k :: 0 <= k < |lines| ==> '\n' !in lines[k]
  }

  lemma AllLinesAppend(a: seq<string>, b: seq<string>)
    requires AllLines(a) && AllLines(b)
    ensures AllLines(a + b)
  {
    forall k | 0 <= k < |a + b| ensures '\n' !in (a + b)[k] {
      if k < |a| { assert (a + b)[k] == a[k]; } else { assert (a + b)[k] == b[k - |a|]; }
    }
  }

  lemma SettingLinesAreLines(props: UnixConfigProperties, values: ConfigValues)
    requires '\n' !in props.preloadKey && '\n' !in props.enabledStateKey
    requires '\n' !in props.targetAssemblyKey && '\n' !in values.targetAssembly
    ensures AllLines(SettingLines(props, values))
  {
    assert '\n' !in LibnameMarker && '\n' !in "=" && '\n' !in ";";
    assert '\n' !in FlagText(values.enabled);
    assert '\n' !in "=\"" && '\n' !in "\";";
  }

  /**
   * A script whose keys, exec line and target path hold no newline, split
   * at newlines, gives back exactly its layout lines.
   */
  lemma ScriptLines(props: UnixConfigProperties, values: ConfigValues)
    requires '\n' !in props.preloadKey && '\n' !in props.enabledStateKey
    requires '\n' !in props.targetAssemblyKey && '\n' !in props.gameExePath
    requires '\n' !in values.targetAssembly
    ensures Split(BuildConfig(props, values), '\n') == ScriptLayout(props, values)
  {
    var h := Split(props.header, '\n');
    var settings := SettingLines(props, values);
    BuildConfigIsJoin(props, values);
    EchoLinesAreLines();
    SettingLinesAreLines(props, values);
    AllLinesAppend(h, settings);
    AllLinesAppend(h + settings, EchoLines);
    AllLinesAppend(h + settings + EchoLines, [props.gameExePath]);
    SplitJoin(ScriptLayout(props, values), '\n');
  }

  /** The macOS script, split at newlines, is its layout. */
  lemma MacOSScriptLines(values: ConfigValues)
    requires '\n' !in values.targetAssembly
    ensures Split(BuildConfig(MacOSConfigProperties, values), '\n') == ScriptLayout(MacOSConfigProperties, values)
  {
    MacOSKeysAreKeys();
    ScriptLines(MacOSConfigProperties, values);
  }

  /**
   * The macOS layout has thirteen lines: the four header lines, the three
   * exports at indices 4 to 6, the five echo lines and the exec line.
   */
  lemma MacOSLayout(values: ConfigValues)
    ensures var p := MacOSConfigProperties;
      var lines := ScriptLayout(p, values);
      && |lines| == 13
      && lines[..4] == [ShebangLine, LibnameLine, DirLine, LibraryPathLine]
      && lines[4] == p.preloadKey + "=" + LibnameMarker + ";"
      && lines[5] == p.enabledStateKey + "=" + FlagText(values.enabled) + ";"
      && lines[6] == p.targetAssemblyKey + "=\"" + values.targetAssembly + "\";"
      && lines[7..12] == EchoLines
      && lines[12] == p.gameExePath
  {
    MacOSHeaderLines();
  }

  // ---------------------------------------------------------------------
  // Reading the script back
  // ---------------------------------------------------------------------

  /** Why InternalLoadConfig gives up: the exception the .NET code would raise. */
  datatype ConfigError =
    | LineMissing(index: nat)     // lines[index] is out of range
    | FieldMissing(index: nat)    // lines[index].Split('=') has no element 1
    | NotABoolean(text: string)   // bool.Parse rejects the enabled text

  /** line.Split('=')[1]: the text between the first and the second '='. */
  function SecondField(line: string): (r: Option<string>)
    ensures r.None? <==> '=' !in line
    ensures r.Some? ==> '=' !in r.value
  {
    var parts := Split(line, '=');
    if |parts| < 2 then None else Some(parts[1])
  }

  /**
   * The second field of key=value is value, and text after a second '='
   * is dropped: key=value=rest also gives value.
   */
  lemma SecondFieldOf(key: string, value: string, rest: string)
    requires '=' !in key && '=' !in value
    ensures SecondField(key + "=" + value) == Some(value)
    ensures SecondField(key + "=" + value + "=" + rest) == Some(value)
  {
    assert "=" == ['='];
    var v := Split(value, '=');
    assert v == [v[0]];
    SplitAtFirst(key, value, '=');
    SplitAtFirst(value, rest, '=');
    assert key + "=" + value + "=" + rest == key + ['='] + (value + ['='] + rest);
    SplitAtFirst(key, value + ['='] + rest, '=');
  }

  /** The characters Boolean.Parse trims before comparing: white space and NUL. */
  const BoolTrimmed: set<char> := WhiteSpace + {'\0'}

  /** Boolean.Parse: "true" or "false" in any case, surrounded by white space. */
  function BoolParse(text: string): (r: Option<bool>)
  {
    var t := ToLower(Trim(text, BoolTrimmed));
    if t == "true" then Some(true) else if t == "false" then Some(false) else None
  }

  /** bool.Parse(field.ToLower().Trim(';')), the parse of the enabled flag. */
  function ParseEnabled(field: string): Option<bool>
  {
    BoolParse(Trim(ToLower(field), {';'}))
  }

  /** The characters Trim('"', ';') removes from the target path. */
  const PathTrimmed: set<char> := {'"', ';'}

  /** InternalLoadConfig(lines): the settings read from lines 4, 5 and 6. */
  function InternalLoadConfig(lines: seq<string>): (r: Result<ConfigValues, ConfigError>)
    ensures |lines| < 7 ==> r.Failure?
    ensures |lines| >= 7 && ('=' !in lines[4] || '=' !in lines[5] || '=' !in lines[6]) ==> r.Failure?
    ensures r.Success? <==>
      |lines| >= 7 && '=' in lines[4] && '=' in lines[5] && '=' in lines[6]
      && ParseEnabled(SecondField(lines[5]).value).Some?
    ensures r.Success? ==>
      && ParseEnabled(SecondField(lines[5]).value) == Some(r.value.enabled)
      && r.value.targetAssembly == Trim(SecondField(lines[6]).value, PathTrimmed)
      && !r.value.usesUserPreload
  {
    if |lines| <= 4 then Failure(LineMissing(4))
    else if SecondField(lines[4]).None? then Failure(FieldMissing(4))
    else if |lines| <= 5 then Failure(LineMissing(5))
    else
      var state := SecondField(lines[5]);
      if state.None? then Failure(FieldMissing(5))
      else
        var enabled := ParseEnabled(state.value);
        if enabled.None? then Failure(NotABoolean(Trim(ToLower(state.value), {';'})))
        else if |lines| <= 6 then Failure(LineMissing(6))
        else
          var target := SecondField(lines[6]);
          if target.None? then Failure(FieldMissing(6))
          else Success(ConfigValues(enabled.value, Trim(target.value, PathTrimmed), false))
  }

  /** The lower-case literal Boolean.Parse accepts for b. */
  function BoolLiteral(b: bool): string
  {
    if b then "true" else "false"
  }

  lemma BoolParseLiteral(b: bool)
    ensures BoolParse(BoolLiteral(b)) == Some(b)
  {
    var t := BoolLiteral(b);
    assert t[0] !in BoolTrimmed && t[|t| - 1] !in BoolTrimmed;
    var l := ToLower(t);
    assert l == t by {
      forall k | 0 <= k < |t| ensures l[k] == t[k] {
      }
    }
  }

  lemma {:induction false} ToLowerKeepsSemicolons(s: string)
    requires forall k :: 0 <= k < |s| ==> s[k] == ';'
    ensures ToLower(s) == s
  {
    var l := ToLower(s);
    forall k | 0 <= k < |s| ensures l[k] == s[k] {
    }
  }

  /**
   * The enabled flag is read case-insensitively, with any run of ';' on
   * either side stripped.
   */
  lemma ParseEnabledAnyCase(pre: string, text: string, post: string, b: bool)
    requires forall k :: 0 <= k < |pre| ==> pre[k] == ';'
    requires forall k :: 0 <= k < |post| ==> post[k] == ';'
    requires ToLower(text) == BoolLiteral(b)
    ensures ParseEnabled(pre + text + post) == Some(b)
  {
    var t := BoolLiteral(b);
    LowerAround(pre, text, post);
    assert t[0] != ';' && t[|t| - 1] != ';';
    TrimAround(pre, t, post, {';'});
    BoolParseLiteral(b);
  }

  /** Lower-casing leaves the runs of ';' around a text alone. */
  lemma LowerAround(pre: string, text: string, post: string)
    requires forall k :: 0 <= k < |pre| ==> pre[k] == ';'
    requires forall k :: 0 <= k < |post| ==> post[k] == ';'
    ensures ToLower(pre + text + post) == pre + ToLower(text) + post
  {
    ToLowerAppend(pre + text, post);
    ToLowerAppend(pre, text);
    ToLowerKeepsSemicolons(pre);
    ToLowerKeepsSemicolons(post);
  }

  /** BuildConfig's TRUE and FALSE parse back. */
  lemma ParseEnabledFlag(b: bool)
    ensures ParseEnabled(FlagText(b) + ";") == Some(b)
  {
    var f := FlagText(b);
    var l := ToLower(f);
    assert l == BoolLiteral(b) by {
      assert |l| == |BoolLiteral(b)|;
      forall k | 0 <= k < |l| ensures l[k] == BoolLiteral(b)[k] {
      }
    }
    assert "" + f + ";" == f + ";";
    ParseEnabledAnyCase("", f, ";", b);
  }

  /**
   * A value too short to hold a Boolean literal is rejected, whatever it
   * is made of: "1;", say, is not a flag.
   */
  lemma ParseEnabledRejectsShort(field: string)
    requires |field| < 4
    ensures ParseEnabled(field) == None
  {
    var lowered := ToLower(field);
    var stripped := Trim(lowered, {';'});
    assert |stripped| <= |lowered| == |field|;
    BoolParseShort(stripped);
  }

  /** Boolean.Parse rejects every text shorter than "true". */
  lemma BoolParseShort(text: string)
    requires |text| < 4
    ensures BoolParse(text) == None
  {
    var t := ToLower(Trim(text, BoolTrimmed));
    assert |t| < 4;
    assert t != "true" by {
      assert |"true"| == 4;
    }
    assert t != "false" by {
      assert |"false"| == 5;
    }
  }

  /**
   * A target path that survives the script: no '=' (it would cut the
   * field), no newline (it would break the line), and no '"' or ';' at
   * either end (Trim would eat them).
   */
  predicate RoundTripSafe(path: string)
  {
    '=' !in path && '\n' !in path
    && (path == "" || (path[0] !in PathTrimmed && path[|path| - 1] !in PathTrimmed))
  }

  /** Concatenation regrouped around a split separator piece. */
  lemma Regather(key: string, a: string, b: string, mid: string, c: string)
    ensures key + (a + b) + mid + c == key + a + (b + mid + c)
  {
  }

  /** The preload and enabled export lines, split at '=', give back what was written after the key. */
  lemma SettingFields(props: UnixConfigProperties, values: ConfigValues)
    requires '=' !in props.preloadKey && '=' !in props.enabledStateKey
    ensures var s := SettingLines(props, values);
      && SecondField(s[0]) == Some(LibnameMarker + ";")
      && SecondField(s[1]) == Some(FlagText(values.enabled) + ";")
  {
    var s := SettingLines(props, values);
    var f := FlagText(values.enabled);
    assert '=' !in LibnameMarker && '=' !in ";" && '=' !in f;
    assert SecondField(s[0]) == Some(LibnameMarker + ";") by {
      assert s[0] == props.preloadKey + "=" + (LibnameMarker + ";");
      SecondFieldOf(props.preloadKey, LibnameMarker + ";", "");
    }
    assert s[1] == props.enabledStateKey + "=" + (f + ";");
    SecondFieldOf(props.enabledStateKey, f + ";", "");
  }

  /** The target export line, split at '=', gives the quoted path. */
  lemma TargetField(key: string, path: string)
    requires '=' !in key && '=' !in path
    ensures SecondField(key + "=\"" + path + "\";") == Some("\"" + path + "\";")
  {
    assert '=' !in "\"" && '=' !in "\";";
    assert "=\"" == "=" + "\"";
    Regather(key, "=", "\"", path, "\";");
    SecondFieldOf(key, "\"" + path + "\";", "");
  }

  /** A path with '=' in it loses everything from that '=' on. */
  lemma TargetFieldCut(key: string, head: string, tail: string)
    requires '=' !in key && '=' !in head
    ensures SecondField(key + "=\"" + (head + "=" + tail) + "\";") == Some("\"" + head)
  {
    assert '=' !in "\"";
    assert "=\"" == "=" + "\"";
    assert key + "=\"" + (head + "=" + tail) + "\";" == key + "=" + ("\"" + head) + "=" + (tail + "\";");
    SecondFieldOf(key, "\"" + head, tail + "\";");
  }

  /** InternalLoadConfig on lines whose three fields are present and whose flag parses. */
  lemma LoadConfigFields(lines: seq<string>, f4: string, f5: string, f6: string, enabled: bool)
    requires |lines| >= 7
    requires SecondField(lines[4]) == Some(f4) && SecondField(lines[5]) == Some(f5)
    requires SecondField(lines[6]) == Some(f6) && ParseEnabled(f5) == Some(enabled)
    ensures InternalLoadConfig(lines) == Success(ConfigValues(enabled, Trim(f6, PathTrimmed), false))
  {
  }

  /** The quotes and semicolon around the target path are trimmed away. */
  lemma TrimQuoted(path: string)
    requires RoundTripSafe(path)
    ensures Trim("\"" + path + "\";", PathTrimmed) == path
  {
    assert forall k :: 0 <= k < |"\""| ==> "\""[k] in PathTrimmed;
    assert forall k :: 0 <= k < |"\";"| ==> "\";"[k] in PathTrimmed;
    TrimAround("\"", path, "\";", PathTrimmed);
  }

  /** An opening quote before the path is trimmed away. */
  lemma TrimOpenQuote(path: string)
    requires RoundTripSafe(path)
    ensures Trim("\"" + path, PathTrimmed) == path
  {
    assert forall k :: 0 <= k < |"\""| ==> "\""[k] in PathTrimmed;
    TrimAround("\"", path, "", PathTrimmed);
    assert "\"" + path + "" == "\"" + path;
  }

  /** With a four-line header, the settings sit at indices 4 to 6 of the layout. */
  lemma SettingsAtFour(props: UnixConfigProperties, values: ConfigValues)
    requires |Split(props.header, '\n')| == 4
    ensures var lines := ScriptLayout(props, values);
      var s := SettingLines(props, values);
      |lines| == 13 && lines[4] == s[0] && lines[5] == s[1] && lines[6] == s[2]
  {
  }

  /** The layout lines of a script with a four-line header read back as the values written. */
  lemma LayoutReadBack(props: UnixConfigProperties, values: ConfigValues)
    requires |Split(props.header, '\n')| == 4
    requires '=' !in props.preloadKey && '=' !in props.enabledStateKey && '=' !in props.targetAssemblyKey
    requires RoundTripSafe(values.targetAssembly)
    ensures InternalLoadConfig(ScriptLayout(props, values))
            == Success(ConfigValues(values.enabled, values.targetAssembly, false))
  {
    var path := values.targetAssembly;
    SettingsAtFour(props, values);
    SettingFields(props, values);
    TargetField(props.targetAssemblyKey, path);
    ParseEnabledFlag(values.enabled);
    LoadConfigFields(ScriptLayout(props, values), LibnameMarker + ";", FlagText(values.enabled) + ";",
                     "\"" + path + "\";", values.enabled);
    TrimQuoted(path);
  }

  /** The layout lines of a target path head=tail read back with the path cut to head. */
  lemma LayoutReadBackCut(props: UnixConfigProperties, values: ConfigValues, head: string, tail: string)
    requires |Split(props.header, '\n')| == 4
    requires '=' !in props.preloadKey && '=' !in props.enabledStateKey && '=' !in props.targetAssemblyKey
    requires values.targetAssembly == head + "=" + tail && RoundTripSafe(head)
    ensures InternalLoadConfig(ScriptLayout(props, values)) == Success(ConfigValues(values.enabled, head, false))
  {
    SettingsAtFour(props, values);
    SettingFields(props, values);
    TargetFieldCut(props.targetAssemblyKey, head, tail);
    ParseEnabledFlag(values.enabled);
    LoadConfigFields(ScriptLayout(props, values), LibnameMarker + ";", FlagText(values.enabled) + ";",
                     "\"" + head, values.enabled);
    TrimOpenQuote(head);
  }

  /**
   * Round trip for any script with a four-line header and keys without
   * '=' or newline: reading it back gives the enabled flag and target
   * path that were written, and a false user-preload flag.
   */
  lemma ScriptRoundTrip(props: UnixConfigProperties, values: ConfigValues)
    requires |Split(props.header, '\n')| == 4
    requires '\n' !in props.preloadKey && '\n' !in props.enabledStateKey
    requires '\n' !in props.targetAssemblyKey && '\n' !in props.gameExePath
    requires '=' !in props.preloadKey && '=' !in props.enabledStateKey && '=' !in props.targetAssemblyKey
    requires RoundTripSafe(values.targetAssembly)
    ensures InternalLoadConfig(Split(BuildConfig(props, values), '\n'))
            == Success(ConfigValues(values.enabled, values.targetAssembly, false))
  {
    ScriptLines(props, values);
    LayoutReadBack(props, values);
  }

  /**
   * Round trip: reading back the macOS script gives the enabled flag and
   * target path that were written; the user-preload flag always reads false.
   */
  lemma ConfigRoundTrip(values: ConfigValues)
    requires RoundTripSafe(values.targetAssembly)
    ensures InternalLoadConfig(Split(BuildConfig(MacOSConfigProperties, values), '\n'))
            == Success(ConfigValues(values.enabled, values.targetAssembly, false))
  {
    MacOSHeaderLines();
    MacOSKeysAreKeys();
    ScriptRoundTrip(MacOSConfigProperties, values);
  }

  /**
   * The path is only the text between the first and the second '=' of its
   * line: a target path head=tail reads back as head.
   */
  lemma ScriptPathCutAtEquals(props: UnixConfigProperties, values: ConfigValues, head: string, tail: string)
    requires |Split(props.header, '\n')| == 4
    requires '\n' !in props.preloadKey && '\n' !in props.enabledStateKey
    requires '\n' !in props.targetAssemblyKey && '\n' !in props.gameExePath
    requires '=' !in props.preloadKey && '=' !in props.enabledStateKey && '=' !in props.targetAssemblyKey
    requires values.targetAssembly == head + "=" + tail
    requires RoundTripSafe(head) && '\n' !in tail
    ensures InternalLoadConfig(Split(BuildConfig(props, values), '\n'))
            == Success(ConfigValues(values.enabled, head, false))
  {
    assert '\n' !in values.targetAssembly by {
      assert '\n' !in "=";
    }
    ScriptLines(props, values);
    LayoutReadBackCut(props, values, head, tail);
  }

  /** The macOS script cuts a target path head=tail down to head. */
  lemma ConfigPathCutAtEquals(values: ConfigValues, head: string, tail: string)
    requires values.targetAssembly == head + "=" + tail
    requires RoundTripSafe(head) && '\n' !in tail
    ensures InternalLoadConfig(Split(BuildConfig(MacOSConfigProperties, values), '\n'))
            == Success(ConfigValues(values.enabled, head, false))
  {
    MacOSHeaderLines();
    MacOSKeysAreKeys();
    ScriptPathCutAtEquals(MacOSConfigProperties, values, head, tail);
  }

  // ---------------------------------------------------------------------
  // DYLD_INSERT_LIBRARIES
  // ---------------------------------------------------------------------

  /** The ':'-separated entries that do not start with the loader marker, in order. */
  function KeepSegments(segments: seq<string>): (kept: seq<string>)
    ensures |kept| <= |segments|
    ensures forall k :: 0 <= k < |kept| ==> !StartsWith(kept[k], LibnameMarker)
    ensures forall x :: x in kept <==> x in segments && !StartsWith(x, LibnameMarker)
  {
    if segments == [] then []
    else (if StartsWith(segments[0], LibnameMarker) then [] else [segments[0]]) + KeepSegments(segments[1..])
  }

  /** Filtering keeps the order: it distributes over concatenation. */
  lemma {:induction false} KeepSegmentsAppend(a: seq<string>, b: seq<string>)
    ensures KeepSegments(a + b) == KeepSegments(a) + KeepSegments(b)
  {
    if a == [] {
      assert a + b == b;
    } else {
      assert (a + b)[0] == a[0];
      assert (a + b)[1..] == a[1..] + b;
      KeepSegmentsAppend(a[1..], b);
    }
  }

  /** Entries that all survive the filter are kept as they are. */
  lemma {:induction false} KeepSegmentsUnchanged(segments: seq<string>)
    requires forall k :: 0 <= k < |segments| ==> !StartsWith(segments[k], LibnameMarker)
    ensures KeepSegments(segments) == segments
  {
    if segments != [] {
      KeepSegmentsUnchanged(segments[1..]);
      assert [segments[0]] + segments[1..] == segments;
    }
  }

  /**
   * ExtractInsertLibEnvVariable: the DYLD_INSERT_LIBRARIES value (None when
   * unset, read as "") with the entries that start with the text
   * $doorstop_libname removed; an expanded entry such as doorstop.dylib stays.
   */
  function ExtractInsertLibEnvVariable(env: Option<string>): (r: string)
    ensures env.None? ==> r == ""
    ensures env.Some? && !Contains(env.value, LibnameMarker) ==> r == env.value
    ensures env.Some? && Contains(env.value, LibnameMarker) ==>
      var kept := KeepSegments(Split(env.value, ':'));
      (kept == [] ==> r == "") && (kept != [] ==> Split(r, ':') == kept)
  {
    var value := if env.Some? then env.value else "";
    if Contains(value, LibnameMarker) then
      var kept := KeepSegments(Split(value, ':'));
      assert forall k :: 0 <= k < |kept| ==> ':' !in kept[k] by {
        forall k | 0 <= k < |kept| ensures ':' !in kept[k] {
          assert kept[k] in Split(value, ':');
        }
      }
      if kept != [] then SplitJoin(kept, ':'); Join(kept, ':')
      else Join(kept, ':')
    else value
  }

  /** Cleaning the variable a second time changes nothing. */
  lemma ExtractIdempotent(env: Option<string>)
    ensures ExtractInsertLibEnvVariable(Some(ExtractInsertLibEnvVariable(env))) == ExtractInsertLibEnvVariable(env)
  {
    var r := ExtractInsertLibEnvVariable(env);
    if env.Some? && Contains(env.value, LibnameMarker) {
      var kept := KeepSegments(Split(env.value, ':'));
      if kept == [] {
        assert !Contains(r, LibnameMarker);
      } else if Contains(r, LibnameMarker) {
        KeepSegmentsUnchanged(kept);
        assert r == Join(kept, ':');
      }
    }
  }
}
