/** The build runner of the CLI: the cargo invocation for each build target,
    the RUSTFLAGS it composes, and the TOML escaping of the `--config`
    patch paths. Spawning cargo, probing the file system and the local
    override discovery are outside the model; the environment variables
    the runner reads are parameters. */
module BuildRunner {
  import opened Common

  datatype BuildTarget = Contract | DataDriver

  const ContractFeature := "contract"
  const DataDriverFeature := "data-driver-js"
  const WasmTarget := "wasm32-unknown-unknown"
  const BuildStd := "build-std=core,alloc"
  const RemapFlag := "--remap-path-prefix"
  const StackSizeFlag := "link-args=-zstack-size=65536"

  /** `BuildTarget::label` */
  function Label(t: BuildTarget): (r: string)
    ensures r == "contract" <==> t == Contract
    ensures r == "data-driver" <==> t == DataDriver
  {
    match t
    case Contract => "contract"
    case DataDriver => "data-driver"
  }

  /** The feature passed to `--features`. */
  function Feature(t: BuildTarget): (r: string)
    ensures r == ContractFeature <==> t == Contract
  {
    match t
    case Contract => ContractFeature
    case DataDriver => DataDriverFeature
  }

  /** The arguments `build` gives cargo, in order: eleven common ones with
      the target's feature at index 7, then `-Z build-std=core,alloc` for the
      contract build only. */
  function CargoArgs(t: BuildTarget, toolchainArg: string, manifestPath: string): (r: seq<string>)
    ensures |r| == (if t == Contract then 13 else 11)
    ensures r[0] == toolchainArg && r[6] == "--features" && r[7] == Feature(t) && r[9] == manifestPath
  {
    [toolchainArg, "build", "--release", "--locked", "--target", WasmTarget,
     "--features", Feature(t), "--manifest-path", manifestPath, "--color=always"] +
    (if t == Contract then ["-Z", BuildStd] else [])
  }

  /** The two builds differ in the feature and in the trailing standard
      library rebuild, and in nothing else. */
  lemma CargoArgsDiffer(toolchainArg: string, manifestPath: string)
    ensures var c := CargoArgs(Contract, toolchainArg, manifestPath);
            var d := CargoArgs(DataDriver, toolchainArg, manifestPath);
            d == c[..7] + [DataDriverFeature] + c[8..11] && c[11..] == ["-Z", BuildStd]
  {
  }

  /** `CARGO_TARGET_DIR` for the build. */
  function TargetDir(t: BuildTarget, contractTargetDir: string, dataDriverTargetDir: string): (r: string)
    ensures t == Contract ==> r == contractTargetDir
    ensures t == DataDriver ==> r == dataDriverTargetDir
  {
    match t
    case Contract => contractTargetDir
    case DataDriver => dataDriverTargetDir
  }

  // ---------------------------------------------------------------------
  // TOML escaping
  // ---------------------------------------------------------------------

  /** `toml_escape`: backslashes are doubled first, then quotes are
      prefixed with a backslash. */
  function TomlEscape(value: string): string {
    Replace(Replace(value, "\\", "\\\\"), "\"", "\\\"")
  }

  /** Reference definition: each character escaped on its own. */
  function EscapeChars(s: string): (r: string)
    ensures |r| == |s| + Count(s, '\\') + Count(s, '"')
    decreases |s|
  {
    if s == [] then []
    else
      (if s[0] == '\\' then "\\\\" else if s[0] == '"' then "\\\"" else [s[0]]) +
      EscapeChars(s[1..])
  }

  /** A character a TOML basic string may not hold unescaped: a control
      character other than tab, or DEL. */
  predicate IsTomlControl(c: char) {
    (c as int < 0x20 && c != '\t') || c as int == 0x7F
  }

  /** The character a one-letter TOML escape stands for. */
  function EscapedChar(c: char): Option<char> {
    if c == '\\' || c == '"' then Some(c)
    else if c == 'b' then Some(8 as char)
    else if c == 't' then Some('\t')
    else if c == 'n' then Some('\n')
    else if c == 'f' then Some(12 as char)
    else if c == 'r' then Some('\r')
    else None
  }

  /** How TOML reads the body of a basic string: a backslash starts an
      escape, and an unescaped quote or control character is an error. */
  function TomlUnescape(s: string): Option<string>
    decreases |s|
  {
    if s == [] then Some([])
    else if s[0] == '\\' then
      if |s| >= 2 && EscapedChar(s[1]).Some? then
        var rest := TomlUnescape(s[2..]);
        if rest.Some? then Some([EscapedChar(s[1]).value] + rest.value) else None
      else None
    else if s[0] == '"' || IsTomlControl(s[0]) then None
    else
      var rest := TomlUnescape(s[1..]);
      if rest.Some? then Some([s[0]] + rest.value) else None
  }

  lemma {:induction false} DoubleSubstIsEscape(s: string)
    ensures SubstChar(SubstChar(s, '\\', "\\\\"), '"', "\\\"") == EscapeChars(s)
    decreases |s|
  {
    if s != [] {
      DoubleSubstIsEscape(s[1..]);
      var head := if s[0] == '\\' then "\\\\" else [s[0]];
      assert SubstChar(s, '\\', "\\\\") == head + SubstChar(s[1..], '\\', "\\\\");
      SubstCharAppend(head, SubstChar(s[1..], '\\', "\\\\"), '"', "\\\"");
      if s[0] == '\\' {
        assert SubstChar(head, '"', "\\\"") == "\\\\" by {
          assert head[1..] == "\\";
          assert SubstChar(head[1..], '"', "\\\"") == "\\" + SubstChar([], '"', "\\\"");
        }
      } else {
        assert SubstChar(head, '"', "\\\"") == (if s[0] == '"' then "\\\"" else [s[0]]) by {
          assert head[1..] == [];
        }
      }
    }
  }

  /** The two chained replacements escape every character independently,
      so the output is one character longer per backslash and per quote. */
  lemma TomlEscapeIsPerChar(value: string)
    ensures TomlEscape(value) == EscapeChars(value)
    ensures |TomlEscape(value)| == |value| + Count(value, '\\') + Count(value, '"')
  {
    ReplaceOneChar(value, '\\', "\\\\");
    ReplaceOneChar(SubstChar(value, '\\', "\\\\"), '"', "\\\"");
    DoubleSubstIsEscape(value);
  }

  /** Reading the escaped path as a TOML basic string gives the path back
      when the path holds no control character. */
  lemma {:induction false} EscapeRoundTrip(s: string)
    requires forall k :: 0 <= k < |s| ==> !IsTomlControl(s[k])
    ensures TomlUnescape(EscapeChars(s)) == Some(s)
    decreases |s|
  {
    if s != [] {
      EscapeRoundTrip(s[1..]);
      var e := EscapeChars(s);
      var tail := EscapeChars(s[1..]);
      if s[0] == '\\' || s[0] == '"' {
        assert e == [ '\\', s[0] ] + tail;
        assert e[2..] == tail;
      } else {
        assert e == [s[0]] + tail;
        assert e[1..] == tail;
      }
      assert s == [s[0]] + s[1..];
    }
  }

  /** A control character is passed through unescaped, so TOML rejects the
      escaped text. */
  lemma {:induction false} EscapeKeepsControl(s: string)
    requires exists k :: 0 <= k < |s| && IsTomlControl(s[k])
    ensures TomlUnescape(EscapeChars(s)) == None
    decreases |s|
  {
    var e := EscapeChars(s);
    var tail := EscapeChars(s[1..]);
    if IsTomlControl(s[0]) {
      assert e == [s[0]] + tail;
    } else {
      var k :| 0 <= k < |s| && IsTomlControl(s[k]);
      assert s[1..][k - 1] == s[k];
      EscapeKeepsControl(s[1..]);
      if s[0] == '\\' || s[0] == '"' {
        assert e == [ '\\', s[0] ] + tail;
        assert e[2..] == tail;
      } else {
        assert e == [s[0]] + tail;
        assert e[1..] == tail;
      }
    }
  }

  /** `toml_escape` followed by TOML's own reading is the identity on a path
      without control characters, and fails on any other. */
  lemma TomlEscapeRoundTrip(value: string)
    ensures (forall k :: 0 <= k < |value| ==> !IsTomlControl(value[k])) ==> TomlUnescape(TomlEscape(value)) == Some(value)
    ensures (exists k :: 0 <= k < |value| && IsTomlControl(value[k])) ==> TomlUnescape(TomlEscape(value)) == None
  {
    TomlEscapeIsPerChar(value);
    if forall k :: 0 <= k < |value| ==> !IsTomlControl(value[k]) {
      EscapeRoundTrip(value);
    } else {
      EscapeKeepsControl(value);
    }
  }

  // ---------------------------------------------------------------------
  // RUSTFLAGS
  // ---------------------------------------------------------------------

  /** The flags `compose_rustflags` collects: the existing RUSTFLAGS split on
      whitespace, then the home remap when HOME is set and non-empty, then
      the stack size for the contract build. An unset (or non-Unicode)
      variable is `None`. */
  function RustflagsParts(t: BuildTarget, rustflags: Option<string>, home: Option<string>): (r: seq<string>)
    ensures var existing := if rustflags.Some? then SplitWhitespace(rustflags.value) else [];
            var remap := home.Some? && home.value != [];
            |r| == |existing| + (if remap then 2 else 0) + (if t == Contract then 2 else 0) &&
            r[..|existing|] == existing &&
            (remap ==> r[|existing|..|existing| + 2] == [RemapFlag, home.value + "="]) &&
            (t == Contract ==> r[|r| - 2..] == ["-C", StackSizeFlag])
  {
    (if rustflags.Some? then SplitWhitespace(rustflags.value) else []) +
    (if home.Some? && home.value != [] then [RemapFlag, home.value + "="] else []) +
    (if t == Contract then ["-C", StackSizeFlag] else [])
  }

  /** `compose_rustflags`, with the two environment variables as inputs. */
  method ComposeRustflags(t: BuildTarget, rustflags: Option<string>, home: Option<string>) returns (r: string)
    ensures r == Join(RustflagsParts(t, rustflags, home), " ")
  {
    var parts: seq<string> := [];
    if rustflags.Some? {
      parts := SplitWhitespace(rustflags.value);
    }
    if home.Some? {
      if home.value != [] {
        parts := parts + [RemapFlag];
        parts := parts + [home.value + "="];
      }
    }
    if t == Contract {
      parts := parts + ["-C"];
      parts := parts + [StackSizeFlag];
    }
    assert parts == RustflagsParts(t, rustflags, home);
    r := Join(parts, " ");
  }

  predicate AllWords(ws: seq<string>) {
    forall k :: 0 <= k < |ws| ==> IsWord(ws[k])
  }

  lemma AllWordsAppend(a: seq<string>, b: seq<string>)
    requires AllWords(a) && AllWords(b)
    ensures AllWords(a + b)
  {
    forall k | 0 <= k < |a + b| ensures IsWord((a + b)[k]) {
      if k < |a| { assert (a + b)[k] == a[k]; } else { assert (a + b)[k] == b[k - |a|]; }
    }
  }

  /** The flags the runner adds itself are single words. */
  lemma AddedFlagsAreWords(t: BuildTarget, home: Option<string>)
    requires home.Some? ==> forall k :: 0 <= k < |home.value| ==> !IsWhitespace(home.value[k])
    ensures AllWords(if home.Some? && home.value != [] then [RemapFlag, home.value + "="] else [])
    ensures AllWords(if t == Contract then ["-C", StackSizeFlag] else [])
  {
    assert IsWord(RemapFlag) && IsWord("-C") && IsWord(StackSizeFlag);
    if home.Some? && home.value != [] {
      var w := home.value + "=";
      forall k | 0 <= k < |w| ensures !IsWhitespace(w[k]) {
        if k < |home.value| { assert w[k] == home.value[k]; }
      }
      assert IsWord(w);
    }
  }

  /** When HOME holds no whitespace, splitting the composed RUSTFLAGS with
      the same `split_whitespace` the source applies to the existing flags
      gives back exactly the collected flags:
      the existing ones first, in order, then the remap, then the stack
      size. */
  lemma RustflagsTokens(t: BuildTarget, rustflags: Option<string>, home: Option<string>)
    requires home.Some? ==> forall k :: 0 <= k < |home.value| ==> !IsWhitespace(home.value[k])
    ensures SplitWhitespace(Join(RustflagsParts(t, rustflags, home), " ")) == RustflagsParts(t, rustflags, home)
  {
    var existing := if rustflags.Some? then SplitWhitespace(rustflags.value) else [];
    var remap := if home.Some? && home.value != [] then [RemapFlag, home.value + "="] else [];
    var stack := if t == Contract then ["-C", StackSizeFlag] else [];
    if rustflags.Some? {
      SplitWhitespaceWords(rustflags.value);
    }
    AddedFlagsAreWords(t, home);
    AllWordsAppend(existing, remap);
    AllWordsAppend(existing + remap, stack);
    assert RustflagsParts(t, rustflags, home) == existing + remap + stack;
    SplitWhitespaceJoin(existing + remap + stack);
  }
}
