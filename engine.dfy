/** The project-template engine of the CLI: contract-name validation, the
    three spellings of a name (kebab, module, Pascal) and the placeholder
    substitution that turns the embedded templates into a new project. */
module Engine {
  import opened Common

  /** The three spellings of a validated contract name. */
  datatype ContractName = ContractName(kebab: string, moduleName: string, pascal: string)

  /** Why a name was refused; `Reason` gives the message the CLI prints. */
  datatype NameProblem = Empty | Charset | Start | TrailingHyphen | DoubleHyphen

  datatype CliError = InvalidContractName(name: string, reason: NameProblem)

  function Reason(p: NameProblem): string {
    match p
    case Empty => "name cannot be empty"
    case Charset => "use lowercase letters, digits, and hyphens only"
    case Start => "name must start with a lowercase letter"
    case TrailingHyphen => "name cannot end with a hyphen"
    case DoubleHyphen => "name cannot contain consecutive hyphens"
  }

  predicate NameChar(c: char) { IsAsciiLower(c) || IsAsciiDigit(c) || c == '-' }

  predicate AllNameChars(s: string) { forall k :: 0 <= k < |s| ==> NameChar(s[k]) }

  /** The names the CLI accepts, stated as one conjunction. */
  predicate ValidName(name: string) {
    name != [] && AllNameChars(name) && IsAsciiLower(name[0]) &&
    name[|name| - 1] != '-' && !Contains(name, "--")
  }

  // ---------------------------------------------------------------------
  // Pascal case
  // ---------------------------------------------------------------------

  /** `to_pascal_segment`: the first character upper-cased (ASCII only). */
  function ToPascalSegment(segment: string): (r: string)
    ensures |r| == |segment|
    ensures segment != [] ==> r[0] == ToAsciiUpper(segment[0]) && r[1..] == segment[1..]
  {
    if segment == [] then [] else [ToAsciiUpper(segment[0])] + segment[1..]
  }

  /** `.filter(|segment| !segment.is_empty())` */
  function NonEmptySegments(ss: seq<string>): (r: seq<string>)
    ensures forall k :: 0 <= k < |r| ==> r[k] != []
    decreases |ss|
  {
    if ss == [] then []
    else (if ss[0] == [] then [] else [ss[0]]) + NonEmptySegments(ss[1..])
  }

  /** `.map(to_pascal_segment)` */
  function PascalSegments(ss: seq<string>): (r: seq<string>)
    ensures |r| == |ss|
    decreases |ss|
  {
    if ss == [] then [] else [ToPascalSegment(ss[0])] + PascalSegments(ss[1..])
  }

  /** The Pascal spelling as the CLI builds it: split on `-`, drop empty
      segments, capitalise each, concatenate (`join("")`). */
  function Pascal(name: string): string {
    Flatten(PascalSegments(NonEmptySegments(Split(name, "-"))))
  }

  /** Reference definition of the Pascal spelling, one character at a time:
      hyphens vanish and the character after a hyphen (or at the start, when
      `up` holds) is upper-cased. */
  function PascalScan(s: string, up: bool): (r: string)
    ensures |r| == |s| - Count(s, '-')
    ensures '-' !in r
    decreases |s|
  {
    if s == [] then []
    else if s[0] == '-' then PascalScan(s[1..], true)
    else [if up then ToAsciiUpper(s[0]) else s[0]] + PascalScan(s[1..], false)
  }

  /** Dropping empty segments does not change the concatenation, since an
      empty segment capitalises to the empty string. */
  lemma {:induction false} NonEmptySegmentsFlatten(ss: seq<string>)
    ensures Flatten(PascalSegments(NonEmptySegments(ss))) == Flatten(PascalSegments(ss))
    decreases |ss|
  {
    if ss != [] {
      NonEmptySegmentsFlatten(ss[1..]);
      if ss[0] == [] {
        assert NonEmptySegments(ss) == NonEmptySegments(ss[1..]);
      } else {
        assert NonEmptySegments(ss) == [ss[0]] + NonEmptySegments(ss[1..]);
      }
    }
  }

  /** The scan agrees with split-capitalise-concatenate, for a prefix still
      inside the first segment. */
  lemma {:induction false} PascalScanSplit(s: string, up: bool)
    ensures var ps := Split(s, "-");
            PascalScan(s, up) ==
            (if up then ToPascalSegment(ps[0]) else ps[0]) + Flatten(PascalSegments(ps[1..]))
    decreases |s|
  {
    var ps := Split(s, "-");
    if s == [] {
    } else if s[0] == '-' {
      assert s[..1] == "-";
      var rest := Split(s[1..], "-");
      assert ps == [""] + rest;
      assert ps[1..] == rest;
      PascalScanSplit(s[1..], true);
    } else {
      assert s[..1] != "-";
      var rest := Split(s[1..], "-");
      assert ps == [[s[0]] + rest[0]] + rest[1..];
      assert ps[1..] == rest[1..];
      PascalScanSplit(s[1..], false);
      assert ([s[0]] + rest[0])[1..] == rest[0];
    }
  }

  /** The Pascal spelling equals the reference scan, for every input. */
  lemma PascalIsScan(name: string)
    ensures Pascal(name) == PascalScan(name, true)
  {
    NonEmptySegmentsFlatten(Split(name, "-"));
    PascalScanSplit(name, true);
    var ps := Split(name, "-");
    assert ps == [ps[0]] + ps[1..];
    FlattenAppend([ToPascalSegment(ps[0])], PascalSegments(ps[1..]));
    assert PascalSegments(ps) == [ToPascalSegment(ps[0])] + PascalSegments(ps[1..]);
    assert Flatten([ToPascalSegment(ps[0])]) == ToPascalSegment(ps[0]) + Flatten([]);
  }

  /** For an accepted name the Pascal spelling starts with an upper-case
      letter, has no hyphen, and is one character shorter per hyphen. */
  lemma PascalShape(name: string)
    requires ValidName(name)
    ensures var p := Pascal(name);
            |p| == |name| - Count(name, '-') && '-' !in p && p != [] && IsAsciiUpper(p[0])
  {
    PascalIsScan(name);
  }

  // ---------------------------------------------------------------------
  // Validation
  // ---------------------------------------------------------------------

  /** `validate_contract_name`: the first failing check, in source order,
      decides the error; an accepted name yields its three spellings. */
  function ValidateContractName(name: string): (r: Result<ContractName, CliError>)
    ensures r.Ok? <==> ValidName(name)
    ensures r == Err(InvalidContractName(name, Empty)) <==> name == []
    ensures r == Err(InvalidContractName(name, Charset)) <==> name != [] && !AllNameChars(name)
    ensures r == Err(InvalidContractName(name, Start)) <==>
            name != [] && AllNameChars(name) && !IsAsciiLower(name[0])
    ensures r == Err(InvalidContractName(name, TrailingHyphen)) <==>
            name != [] && AllNameChars(name) && IsAsciiLower(name[0]) && name[|name| - 1] == '-'
    ensures r == Err(InvalidContractName(name, DoubleHyphen)) <==>
            name != [] && AllNameChars(name) && IsAsciiLower(name[0]) && name[|name| - 1] != '-' &&
            Contains(name, "--")
    ensures r.Err? ==> r.error.name == name
    ensures r.Ok? ==> r.value.kebab == name && r.value.pascal == PascalScan(name, true)
    ensures r.Ok? ==> (|r.value.moduleName| == |name| &&
                       forall k :: 0 <= k < |name| ==>
                         r.value.moduleName[k] == (if name[k] == '-' then '_' else name[k]))
  {
    if name == [] then Err(InvalidContractName(name, Empty))
    else if !AllNameChars(name) then Err(InvalidContractName(name, Charset))
    else if !IsAsciiLower(name[0]) then Err(InvalidContractName(name, Start))
    else if name[|name| - 1] == '-' then Err(InvalidContractName(name, TrailingHyphen))
    else if Contains(name, "--") then Err(InvalidContractName(name, DoubleHyphen))
    else
      ReplaceOneChar(name, '-', "_");
      SubstCharPointwise(name, '-', '_');
      PascalIsScan(name);
      Ok(ContractName(name, Replace(name, "-", "_"), Pascal(name)))
  }

  /** The module spelling gives the kebab spelling back: accepted names
      contain no `_`, so `_` -> `-` undoes `-` -> `_`. */
  lemma ModuleRoundTrip(name: string)
    requires ValidName(name)
    ensures var m := ValidateContractName(name).value.moduleName;
            Replace(m, "_", "-") == name
  {
    var m := ValidateContractName(name).value.moduleName;
    ReplaceOneChar(m, '_', "-");
    SubstCharPointwise(m, '_', '-');
    var back := SubstChar(m, '_', "-");
    assert forall k :: 0 <= k < |name| ==> back[k] == name[k] by {
      forall k | 0 <= k < |name| ensures back[k] == name[k] {
        assert NameChar(name[k]);
      }
    }
  }

  // ---------------------------------------------------------------------
  // Rendering
  // ---------------------------------------------------------------------

  /** The six embedded files of a template kind (the static strings of the
      template table are a parameter). */
  datatype TemplateFiles = TemplateFiles(
    cargoToml: string, libRs: string, testRs: string,
    rustToolchainToml: string, gitignore: string, makefile: string)

  datatype RenderedTemplate = RenderedTemplate(
    cargoToml: string, libRs: string, testRs: string,
    rustToolchainToml: string, gitignore: string, makefile: string)

  const ContractPlaceholder := "YOUR_CONTRACT_NAME"
  const ModulePlaceholder := "YOUR_MODULE_NAME"

  /** The first two common replacements: the kebab and module placeholders. */
  function ReplaceNamePlaceholders(content: string, name: ContractName): string {
    Replace(Replace(content, ContractPlaceholder, name.kebab), ModulePlaceholder, name.moduleName)
  }

  /** The last three common replacements: the struct placeholder, the
      template's `mod counter` and its `Counter` type. */
  function ReplaceStructPlaceholders(content: string, name: ContractName): string {
    Replace(Replace(Replace(content, "YOUR_STRUCT_NAME", name.pascal),
                    "mod counter", "mod " + name.moduleName),
            "Counter", name.pascal)
  }

  /** `apply_common_replacements`: the five replacements, in source order. */
  function ApplyCommonReplacements(content: string, name: ContractName): string {
    ReplaceStructPlaceholders(ReplaceNamePlaceholders(content, name), name)
  }

  /** `apply_test_replacements`: the wasm file name takes the module
      spelling before the common replacements run. */
  function ApplyTestReplacements(content: string, name: ContractName): string {
    ApplyCommonReplacements(
      Replace(content, ContractPlaceholder + ".wasm", name.moduleName + ".wasm"), name)
  }

  /** `render_template`: three files go through the replacements, the
      toolchain file, `.gitignore` and the Makefile are copied verbatim. */
  function RenderTemplate(t: TemplateFiles, name: ContractName): (r: RenderedTemplate)
    ensures r.rustToolchainToml == t.rustToolchainToml
    ensures r.gitignore == t.gitignore && r.makefile == t.makefile
    ensures r.cargoToml == ApplyCommonReplacements(t.cargoToml, name)
    ensures r.libRs == ApplyCommonReplacements(t.libRs, name)
    ensures r.testRs == ApplyTestReplacements(t.testRs, name)
  {
    RenderedTemplate(
      ApplyCommonReplacements(t.cargoToml, name),
      ApplyCommonReplacements(t.libRs, name),
      ApplyTestReplacements(t.testRs, name),
      t.rustToolchainToml, t.gitignore, t.makefile)
  }

  /** No character an accepted name (or its module spelling) can hold
      starts or occurs in the two name placeholders. */
  lemma PlaceholderChars(name: string)
    requires ValidName(name)
    ensures var n := ValidateContractName(name).value;
            'Y' !in n.kebab && 'Y' !in n.moduleName &&
            name[0] !in ContractPlaceholder && name[0] !in ModulePlaceholder &&
            ContractPlaceholder[0] == 'Y' && ModulePlaceholder[0] == 'Y'
  {
    var n := ValidateContractName(name).value;
    forall k | 0 <= k < |name| ensures name[k] != 'Y' && n.moduleName[k] != 'Y' {
      assert NameChar(name[k]);
    }
  }

  /** Once the first two replacements have run with an accepted name, no
      `YOUR_CONTRACT_NAME` and no `YOUR_MODULE_NAME` is left in the text. */
  lemma NamePlaceholdersGone(content: string, name: string)
    requires ValidName(name)
    ensures var n := ValidateContractName(name).value;
            var out := ReplaceNamePlaceholders(content, n);
            !Contains(out, ContractPlaceholder) && !Contains(out, ModulePlaceholder)
  {
    var n := ValidateContractName(name).value;
    PlaceholderChars(name);
    var s1 := Replace(content, ContractPlaceholder, n.kebab);
    ReplaceLeavesNo(content, ContractPlaceholder, n.kebab, ContractPlaceholder);
    ReplaceLeavesNo(s1, ModulePlaceholder, n.moduleName, ContractPlaceholder);
    ReplaceLeavesNo(s1, ModulePlaceholder, n.moduleName, ModulePlaceholder);
  }
}
