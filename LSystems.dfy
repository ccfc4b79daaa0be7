/** The Lindenmayer-system string-rewriting engine of the L-system generator:
    the preset table, parallel rewriting, the "F=FF+F,X=FX" custom-rule parser
    and the choice between a preset and a custom system. */
module LSystems {
  import opened Common
  import opened Text

  /** Production rules keyed by string, as in the dictionaries of the
      preset table and of `generate_2d`.
      Only one-character keys can ever match, since lookup is per character. */
  type Rules = map<string, string>

  /** An L-system: the starting string, its rules and the turning angle in degrees. */
  datatype LSystem = LSystem(axiom: string, rules: Rules, angle: real)

  datatype Preset = Preset(axiom: string, rules: Rules, angle: real, description: string)

  // ---------------------------------------------------------------------------
  // Presets
  // ---------------------------------------------------------------------------

  /** The preset names in the table's insertion order. */
  const PresetNames: seq<string> :=
    ["tree", "bush", "fern", "seaweed", "dragon", "sierpinski", "hilbert",
     "gosper", "penrose", "binary_tree", "crystal", "snowflake"]

  const PenroseRules: Rules := map[
    "6" := "81telefonf]++telefonf]----7telefonf][--8telefonf]",
    "7" := "+81telefonf]--7telefonf]----6telefonf]++6telefonf]++7telefonf]-",
    "8" := "-81telefonf]++7telefonf]++++6telefonf]--6telefonf]--7telefonf]+",
    "telefonf]" := ""]

  const TreePreset: Preset :=
    Preset("F", map["F" := "FF+[+F-F-F]-[-F+F+F]"], 25.0, "Realistic tree branching pattern")

  const BushPreset: Preset :=
    Preset("F", map["F" := "FF-[-F+F+F]+[+F-F-F]"], 22.5, "Dense bush pattern")

  const FernPreset: Preset :=
    Preset("X", map["X" := "F+[[X]-X]-F[-FX]+X", "F" := "FF"], 25.0, "Barnsley fern-like pattern")

  const SeaweedPreset: Preset :=
    Preset("F", map["F" := "FF-[XY]+[XY]", "X" := "+FY", "Y" := "-FX"], 22.5, "Swaying seaweed pattern")

  const DragonPreset: Preset :=
    Preset("FX", map["X" := "X+YF+", "Y" := "-FX-Y"], 90.0, "Dragon curve fractal")

  const SierpinskiPreset: Preset :=
    Preset("F-G-G", map["F" := "F-G+F+G-F", "G" := "GG"], 120.0, "Sierpinski triangle using L-system")

  const HilbertPreset: Preset :=
    Preset("A", map["A" := "-BF+AFA+FB-", "B" := "+AF-BFB-FA+"], 90.0, "Hilbert space-filling curve")

  const GosperPreset: Preset :=
    Preset("A", map["A" := "A-B--B+A++AA+B-", "B" := "+A-BB--B-A++A+B"], 60.0, "Gosper curve (flowsnake)")

  const PenrosePreset: Preset :=
    Preset("[7]++[7]++[7]++[7]++[7]", PenroseRules, 36.0, "Penrose tiling pattern")

  const BinaryTreePreset: Preset :=
    Preset("0", map["0" := "1[+0]-0", "1" := "11"], 45.0, "Simple binary tree")

  const CrystalPreset: Preset :=
    Preset("F+F+F+F", map["F" := "FF+F++F+F"], 90.0, "Crystal-like growth pattern")

  const SnowflakePreset: Preset :=
    Preset("F++F++F", map["F" := "F-F++F-F"], 60.0, "Koch snowflake variation")

  /** `PRESETS`, keyed by name. */
  const Presets: map<string, Preset> := map[
    "tree" := TreePreset,
    "bush" := BushPreset,
    "fern" := FernPreset,
    "seaweed" := SeaweedPreset,
    "dragon" := DragonPreset,
    "sierpinski" := SierpinskiPreset,
    "hilbert" := HilbertPreset,
    "gosper" := GosperPreset,
    "penrose" := PenrosePreset,
    "binary_tree" := BinaryTreePreset,
    "crystal" := CrystalPreset,
    "snowflake" := SnowflakePreset]

  /** `list_presets`: every preset name once, in table order. */
  function ListPresets(): (names: seq<string>)
    ensures forall n :: n in names <==> n in Presets
    ensures forall i, j :: 0 <= i < j < |names| ==> names[i] != names[j]
  {
    PresetNamesDistinct();
    PresetNames
  }

  /** No two preset names are equal: no two share both length and first letter. */
  lemma PresetNamesDistinct()
    ensures forall i, j :: 0 <= i < j < |PresetNames| ==> PresetNames[i] != PresetNames[j]
  {
    forall i, j | 0 <= i < j < |PresetNames|
      ensures PresetNames[i] != PresetNames[j]
    {
      assert |PresetNames[i]| != |PresetNames[j]| || PresetNames[i][0] != PresetNames[j][0];
    }
  }

  /** `LSystem.from_preset`: the preset's axiom, rules and angle, or
      `ValueError` naming the available presets. */
  function FromPreset(name: string): (r: Result<LSystem>)
    ensures r.Ok? <==> name in Presets
    ensures name in Presets ==>
      r.value == LSystem(Presets[name].axiom, Presets[name].rules, Presets[name].angle)
    ensures name !in Presets ==>
      r.message == "Unknown preset '" + name + "'. Available: " + Join(PresetNames, ", ")
  {
    if name !in Presets then
      ValueError("Unknown preset '" + name + "'. Available: " + Join(PresetNames, ", "))
    else
      var p := Presets[name];
      Ok(LSystem(p.axiom, p.rules, p.angle))
  }

  /** The dictionary `get_preset_info` returns: an `{"error": ...}` entry or
      a table of presets. */
  datatype PresetInfo = ErrorEntry(error: string) | Entries(presets: map<string, Preset>)

  /** `get_preset_info`: the whole table for no name, the one preset for a
      known name, and an error entry (not an exception) for an unknown one. */
  function GetPresetInfo(name: Option<string>): (r: PresetInfo)
    ensures name.None? ==> r == Entries(Presets)
    ensures name.Some? && name.value in Presets ==>
      r == Entries(map[name.value := Presets[name.value]])
    ensures name.Some? && name.value !in Presets ==>
      r == ErrorEntry("Unknown preset: " + name.value)
  {
    match name
    case None => Entries(Presets)
    case Some(n) =>
      if n !in Presets then ErrorEntry("Unknown preset: " + n)
      else Entries(map[n := Presets[n]])
  }

  /** Asking for information about a name and building a system from it
      agree: both fail exactly for the names outside the table, and for a
      name inside it they carry the same preset. */
  lemma PresetLookupsAgree(name: string)
    ensures GetPresetInfo(Some(name)).ErrorEntry? <==> FromPreset(name).ValueError?
    ensures FromPreset(name).Ok? ==>
      var p := GetPresetInfo(Some(name)).presets[name];
      FromPreset(name).value == LSystem(p.axiom, p.rules, p.angle)
  {
  }

  /** Every listed preset builds. */
  lemma ListedPresetsBuild()
    ensures forall n :: n in ListPresets() ==> FromPreset(n).Ok?
  {
  }

  // ---------------------------------------------------------------------------
  // Rewriting
  // ---------------------------------------------------------------------------

  /** `rules.get(c, c)`: the replacement of one character, itself when it has no rule. */
  function Rewrite(rules: Rules, c: char): string {
    if [c] in rules then rules[[c]] else [c]
  }

  /** One rewriting pass: every character replaced independently, the pieces
      concatenated in order. */
  function Pass(rules: Rules, s: string): string
    decreases |s|
  {
    if s == [] then [] else Pass(rules, s[..|s| - 1]) + Rewrite(rules, s[|s| - 1])
  }

  /** The string after `n` passes, starting from `s`. */
  function Iterate(rules: Rules, s: string, n: nat): string {
    if n == 0 then s else Pass(rules, Iterate(rules, s, n - 1))
  }

  /** One more character of the input is one more replacement at the end. */
  lemma PassSnoc(rules: Rules, s: string, j: nat)
    requires j < |s|
    ensures Pass(rules, s[..j + 1]) == Pass(rules, s[..j]) + Rewrite(rules, s[j])
  {
    assert s[..j + 1][..j] == s[..j];
  }

  /** `LSystem.generate`. A negative count, like `range` of it, runs no pass. */
  method Generate(system: LSystem, iterations: int) returns (current: string)
    ensures current == Iterate(system.rules, system.axiom, Max(iterations, 0))
  {
    current := system.axiom;
    var i := 0;
    while i < iterations
      invariant 0 <= i <= Max(iterations, 0)
      invariant current == Iterate(system.rules, system.axiom, i)
    {
      var next := "";
      var j := 0;
      while j < |current|
        invariant 0 <= j <= |current|
        invariant next == Pass(system.rules, current[..j])
      {
        PassSnoc(system.rules, current, j);
        next := next + Rewrite(system.rules, current[j]);
        j := j + 1;
      }
      assert current[..|current|] == current;
      assert Iterate(system.rules, system.axiom, i + 1) == Pass(system.rules, current);
      current := next;
      i := i + 1;
    }
  }

  /** A pass is a homomorphism: rewriting a concatenation rewrites the parts. */
  lemma {:induction false} PassConcat(rules: Rules, a: string, b: string)
    ensures Pass(rules, a + b) == Pass(rules, a) + Pass(rules, b)
  {
    if b == [] {
      assert a + b == a;
    } else {
      var b' := b[..|b| - 1];
      assert (a + b)[..|a + b| - 1] == a + b';
      assert (a + b)[|a + b| - 1] == b[|b| - 1];
      PassConcat(rules, a, b');
    }
  }

  /** The sum of the lengths of the characters' replacements. */
  function ReplacementLength(rules: Rules, s: string): nat
    decreases |s|
  {
    if s == [] then 0 else |Rewrite(rules, s[0])| + ReplacementLength(rules, s[1..])
  }

  /** The length of a pass is the sum over the input of `|rules.get(c, c)|`. */
  lemma {:induction false} PassLength(rules: Rules, s: string)
    ensures |Pass(rules, s)| == ReplacementLength(rules, s)
  {
    if s != [] {
      assert s == [s[0]] + s[1..];
      PassConcat(rules, [s[0]], s[1..]);
      assert Pass(rules, [s[0]]) == Rewrite(rules, s[0]) by {
        assert [s[0]][..0] == [];
      }
      PassLength(rules, s[1..]);
    }
  }

  /** A string none of whose characters has a rule is a fixed point of a pass. */
  lemma {:induction false} PassWithoutRules(rules: Rules, s: string)
    requires forall i :: 0 <= i < |s| ==> [s[i]] !in rules
    ensures Pass(rules, s) == s
  {
    if s != [] {
      PassWithoutRules(rules, s[..|s| - 1]);
    }
  }

  /** With no rules every iteration count returns the axiom. */
  lemma {:induction false} IterateWithoutRules(s: string, n: nat)
    ensures Iterate(map[], s, n) == s
  {
    if n > 0 {
      IterateWithoutRules(s, n - 1);
      PassWithoutRules(map[], s);
    }
  }

  /** Two rule tables that rewrite every single character alike. */
  predicate SameCharRules(r1: Rules, r2: Rules) {
    forall c: char :: Rewrite(r1, c) == Rewrite(r2, c)
  }

  lemma {:induction false} PassSameCharRules(r1: Rules, r2: Rules, s: string)
    requires SameCharRules(r1, r2)
    ensures Pass(r1, s) == Pass(r2, s)
  {
    if s != [] {
      var c := s[|s| - 1];
      assert Rewrite(r1, c) == Rewrite(r2, c);
      PassSameCharRules(r1, r2, s[..|s| - 1]);
    }
  }

  /** Two tables that rewrite every character alike rewrite every string
      alike for any number of passes. */
  lemma {:induction false} IterateSameCharRules(r1: Rules, r2: Rules, s: string, n: nat)
    requires SameCharRules(r1, r2)
    ensures Iterate(r1, s, n) == Iterate(r2, s, n)
  {
    if n > 0 {
      var k := n - 1;
      IterateSameCharRules(r1, r2, s, k);
      var prev := Iterate(r1, s, k);
      assert Iterate(r2, s, k) == prev;
      PassSameCharRules(r1, r2, prev);
      assert Iterate(r1, s, n) == Pass(r1, prev);
      assert Iterate(r2, s, n) == Pass(r2, prev);
    }
  }

  /** Removing a key that is not one character long changes nothing. */
  lemma DropLongKey(rules: Rules, key: string, s: string, n: nat)
    requires |key| != 1
    ensures Iterate(rules, s, n) == Iterate(rules - {key}, s, n)
  {
    assert SameCharRules(rules, rules - {key}) by {
      forall c: char ensures Rewrite(rules, c) == Rewrite(rules - {key}, c) {
        assert [c] != key;
      }
    }
    IterateSameCharRules(rules, rules - {key}, s, n);
  }

  /** The penrose preset's rule keyed "telefonf]" never fires. */
  lemma PenroseDeadRule(s: string, n: nat)
    ensures Iterate(PenroseRules, s, n) == Iterate(PenroseRules - {"telefonf]"}, s, n)
  {
    DropLongKey(PenroseRules, "telefonf]", s, n);
  }

  /** Iterations compose: `m + n` passes are `n` further passes after `m`. */
  lemma {:induction false} IterateAdd(rules: Rules, s: string, m: nat, n: nat)
    ensures Iterate(rules, s, m + n) == Iterate(rules, Iterate(rules, s, m), n)
  {
    if n > 0 {
      var k := n - 1;
      var start := Iterate(rules, s, m);
      IterateAdd(rules, s, m, k);
      assert Iterate(rules, s, m + n) == Pass(rules, Iterate(rules, s, m + k));
      assert Iterate(rules, start, n) == Pass(rules, Iterate(rules, start, k));
    }
  }

  /** `n + 1` passes are `n` passes applied to the result of the first pass. */
  lemma IterateFirstPass(rules: Rules, s: string, n: nat)
    ensures Iterate(rules, s, n + 1) == Iterate(rules, Pass(rules, s), n)
  {
    IterateAdd(rules, s, 1, n);
  }

  /** Every iteration count rewrites the two halves of a string independently. */
  lemma {:induction false} IterateConcat(rules: Rules, a: string, b: string, n: nat)
    ensures Iterate(rules, a + b, n) == Iterate(rules, a, n) + Iterate(rules, b, n)
  {
    if n > 0 {
      IterateConcat(rules, a, b, n - 1);
      PassConcat(rules, Iterate(rules, a, n - 1), Iterate(rules, b, n - 1));
    }
  }

  // ---------------------------------------------------------------------------
  // Custom rules and the choice of system
  // ---------------------------------------------------------------------------

  /** One comma-separated piece of a rule string: a rule when splitting its
      stripped text on '=' gives exactly two parts, with both parts stripped. */
  function ParseRule(piece: string): Option<(string, string)> {
    var parts := Split(Strip(piece), '=');
    if |parts| == 2 then Some((Strip(parts[0]), Strip(parts[1]))) else None
  }

  /** What each piece parses to, in order. */
  function ParsePieces(pieces: seq<string>): (parsed: seq<Option<(string, string)>>)
    ensures |parsed| == |pieces|
    ensures forall i :: 0 <= i < |pieces| ==> parsed[i] == ParseRule(pieces[i])
  {
    seq(|pieces|, i requires 0 <= i < |pieces| => ParseRule(pieces[i]))
  }

  /** The table a sequence of parsed pieces builds when stored left to right,
      later rules overwriting earlier ones with the same key. */
  function Collect(parsed: seq<Option<(string, string)>>): Rules
    decreases |parsed|
  {
    if parsed == [] then map[]
    else
      var m := Collect(parsed[..|parsed| - 1]);
      match parsed[|parsed| - 1]
      case None => m
      case Some((k, v)) => m[k := v]
  }

  /** The rule table a custom-rule string denotes. */
  function RulesOf(text: string): Rules {
    Collect(ParsePieces(Split(text, ',')))
  }

  /** Whether parsed piece `j` is a well-formed rule for `key`. */
  predicate Defines(parsed: seq<Option<(string, string)>>, j: int, key: string)
    requires 0 <= j < |parsed|
  {
    parsed[j].Some? && parsed[j].value.0 == key
  }

  /** A key is in the table exactly when some piece defines it. */
  lemma {:induction false} CollectDomain(parsed: seq<Option<(string, string)>>, key: string)
    ensures key in Collect(parsed) <==> exists j :: 0 <= j < |parsed| && Defines(parsed, j, key)
  {
    if parsed != [] {
      var init := parsed[..|parsed| - 1];
      var last := |parsed| - 1;
      CollectDomain(init, key);
      if key in Collect(parsed) && !Defines(parsed, last, key) {
        var j :| 0 <= j < |init| && Defines(init, j, key);
        assert parsed[j] == init[j];
        assert Defines(parsed, j, key);
      }
      if j :| 0 <= j < |parsed| && Defines(parsed, j, key) {
        if j < last {
          assert parsed[j] == init[j];
          assert Defines(init, j, key);
        }
      }
    }
  }

  /** The value stored for a key is the one given by the last piece that
      defines it: a later duplicate overwrites an earlier one. */
  lemma {:induction false} CollectLastWins(parsed: seq<Option<(string, string)>>, key: string, j: nat)
    requires j < |parsed| && Defines(parsed, j, key)
    requires forall j' :: j < j' < |parsed| ==> !Defines(parsed, j', key)
    ensures key in Collect(parsed) && Collect(parsed)[key] == parsed[j].value.1
  {
    var init := parsed[..|parsed| - 1];
    var last := |parsed| - 1;
    if j < last {
      forall j' | j < j' < |init| ensures !Defines(init, j', key) {
        assert init[j'] == parsed[j'];
        assert !Defines(parsed, j', key);
      }
      assert init[j] == parsed[j];
      CollectLastWins(init, key, j);
      assert !Defines(parsed, last, key);
    }
  }

  /** The custom-rule loop of `generate_2d` and `generate_3d`: split the
      text on ',' and store every well-formed piece in turn. */
  method ParseCustomRules(text: string) returns (rules: Rules)
    ensures rules == RulesOf(text)
  {
    var pieces := Split(text, ',');
    ghost var parsed := ParsePieces(pieces);
    rules := map[];
    var i := 0;
    while i < |pieces|
      invariant 0 <= i <= |pieces|
      invariant rules == Collect(parsed[..i])
    {
      ghost var before := parsed[..i + 1];
      assert before[..i] == parsed[..i] && before[i] == ParseRule(pieces[i]);
      var rule := ParseRule(pieces[i]);
      if rule.Some? {
        rules := rules[rule.value.0 := rule.value.1];
      }
      i := i + 1;
    }
    assert parsed[..|pieces|] == parsed;
  }

  /** The system `generate_2d` and `generate_3d` build: a preset when the
      first argument names one (custom rules and angle are then ignored);
      otherwise the argument is the axiom, custom rules are required, and the
      angle defaults to 25 degrees. */
  function Configuration(presetOrAxiom: string, customRules: Option<string>, customAngle: Option<real>): (r: Result<LSystem>)
    ensures presetOrAxiom in Presets ==> r == FromPreset(presetOrAxiom) && r.Ok?
    ensures r.ValueError? <==> presetOrAxiom !in Presets && customRules.None?
    ensures r.ValueError? ==> r.message == "Custom rules required when not using a preset"
    ensures presetOrAxiom !in Presets && customRules.Some? ==>
      && r.value.axiom == presetOrAxiom
      && r.value.rules == RulesOf(customRules.value)
      && r.value.angle == (if customAngle.Some? then customAngle.value else 25.0)
  {
    if presetOrAxiom in Presets then FromPreset(presetOrAxiom)
    else if customRules.None? then ValueError("Custom rules required when not using a preset")
    else
      var angle := if customAngle.Some? then customAngle.value else 25.0;
      Ok(LSystem(presetOrAxiom, RulesOf(customRules.value), angle))
  }

  /** The configuration step as `generate_2d` and `generate_3d` run it, with
      the parsing loop. */
  method Configure(presetOrAxiom: string, customRules: Option<string>, customAngle: Option<real>)
    returns (r: Result<LSystem>)
    ensures r == Configuration(presetOrAxiom, customRules, customAngle)
  {
    if presetOrAxiom in Presets {
      r := FromPreset(presetOrAxiom);
    } else if customRules.None? {
      r := ValueError("Custom rules required when not using a preset");
    } else {
      var rules := ParseCustomRules(customRules.value);
      var angle := if customAngle.Some? then customAngle.value else 25.0;
      r := Ok(LSystem(presetOrAxiom, rules, angle));
    }
  }
}
