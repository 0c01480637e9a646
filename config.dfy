/** The doxygen configuration: merging user settings over the defaults, the
    three values the plugin forces, and the `KEY = value` text written to
    the doxyfile. */
module Config {
  import opened Strings

  /** A configuration value: a Python bool, a string, or an int. */
  datatype Value = Flag(b: bool) | Str(s: string) | Int(i: int)

  type Doxyfile = map<string, Value>

  /** `merge_configs(old, new)`: a fresh dictionary holding `old` updated with `new`. */
  function MergeConfigs(base: Doxyfile, overrides: Doxyfile): (r: Doxyfile)
    ensures r.Keys == base.Keys + overrides.Keys
    ensures forall k :: k in overrides ==> r[k] == overrides[k]
    ensures forall k :: k in base && k !in overrides ==> r[k] == base[k]
  {
    base + overrides
  }

  const ForcedKeys: set<string> := {"PROJECT_NAME", "OUTPUT_DIRECTORY", "INPUT"}

  /** `setup`: the project name, output directory and input directory of the
      run override whatever the configuration says. */
  function Setup(config: Doxyfile, package: string, buildDir: string, sourceDir: string): (r: Doxyfile)
    ensures r.Keys == config.Keys + ForcedKeys
    ensures r["PROJECT_NAME"] == Str(package)
    ensures r["OUTPUT_DIRECTORY"] == Str(buildDir)
    ensures r["INPUT"] == Str(sourceDir)
    ensures forall k :: k in config && k !in ForcedKeys ==> r[k] == config[k]
  {
    MergeConfigs(config, map["PROJECT_NAME" := Str(package), "OUTPUT_DIRECTORY" := Str(buildDir), "INPUT" := Str(sourceDir)])
  }

  function IntToString(i: int): string {
    if i < 0 then "-" + NatToString(-i) else NatToString(i)
  }

  /** How a value is written: `True` as YES, `False` as NO, others as `str` writes them. */
  function ValueText(v: Value): string {
    match v
    case Flag(b) => if b then "YES" else "NO"
    case Str(s) => s
    case Int(i) => IntToString(i)
  }

  /** One line of the doxyfile. */
  function ConfigLine(key: string, v: Value): string {
    Upper(key) + " = " + ValueText(v) + "\n"
  }

  /** The lines for the keys in `order`, one per key. */
  function LinesOf(config: Doxyfile, order: seq<string>): (lines: seq<string>)
    requires forall k :: k in order ==> k in config
    ensures |lines| == |order|
    ensures forall i :: 0 <= i < |order| ==> lines[i] == ConfigLine(order[i], config[order[i]])
  {
    seq(|order|, i requires 0 <= i < |order| => ConfigLine(order[i], config[order[i]]))
  }

  function Concat(ss: seq<string>): string {
    if ss == [] then "" else Concat(ss[..|ss| - 1]) + ss[|ss| - 1]
  }

  lemma {:induction false} ConcatFirst(ss: seq<string>)
    requires ss != []
    ensures Concat(ss) == ss[0] + Concat(ss[1..])
    decreases |ss|
  {
    if |ss| > 1 {
      ConcatFirst(ss[..|ss| - 1]);
      assert ss[..|ss| - 1][1..] == ss[1..][..|ss[1..]| - 1];
    }
  }

  /** The doxyfile text for the keys visited in `order`: the lines without
      whatever whitespace opens the first or closes the last. */
  function DoxText(config: Doxyfile, order: seq<string>): string
    requires forall k :: k in order ==> k in config
  {
    Strip(Concat(LinesOf(config, order)))
  }

  lemma LinesOfSnoc(config: Doxyfile, order: seq<string>, i: nat)
    requires forall k :: k in order ==> k in config
    requires i < |order|
    ensures Concat(LinesOf(config, order[..i + 1])) == Concat(LinesOf(config, order[..i])) + ConfigLine(order[i], config[order[i]])
  {
    var a := LinesOf(config, order[..i + 1]);
    var b := LinesOf(config, order[..i]);
    assert a[..i] == b;
    assert a[i] == ConfigLine(order[i], config[order[i]]);
  }

  /** `dox_dict2str`: one line per entry, visited in the dictionary's own order. */
  method DoxDictToStr(config: Doxyfile, order: seq<string>) returns (s: string)
    requires Enumerates(order, config.Keys)
    ensures s == DoxText(config, order)
  {
    var acc := "";
    var i := 0;
    while i < |order|
      invariant 0 <= i <= |order|
      invariant acc == Concat(LinesOf(config, order[..i]))
    {
      var key := order[i];
      var value := config[key];
      acc := acc + ConfigLine(key, value);
      LinesOfSnoc(config, order, i);
      i := i + 1;
    }
    assert order[..i] == order;
    s := Strip(acc);
  }

  /** The lines are exactly one `UPPER(key) = value` line per entry of the
      configuration, whatever order the dictionary is visited in. */
  lemma OneLinePerKey(config: Doxyfile, order: seq<string>)
    requires Enumerates(order, config.Keys)
    ensures |LinesOf(config, order)| == |config|
    ensures forall k :: k in config ==> ConfigLine(k, config[k]) in LinesOf(config, order)
    ensures forall l :: l in LinesOf(config, order) ==> exists k :: k in config && l == ConfigLine(k, config[k])
  {
    assert |config.Keys| == |config|;
    forall k | k in config ensures ConfigLine(k, config[k]) in LinesOf(config, order) {
      EveryKeyHasLine(config, order, k);
    }
    forall l | l in LinesOf(config, order) ensures exists k :: k in config && l == ConfigLine(k, config[k]) {
      LineHasKey(config, order, l);
    }
  }

  lemma LineHasKey(config: Doxyfile, order: seq<string>, l: string)
    requires forall k :: k in order ==> k in config
    requires l in LinesOf(config, order)
    ensures exists k :: k in config && l == ConfigLine(k, config[k])
  {
    var lines := LinesOf(config, order);
    var i :| 0 <= i < |lines| && lines[i] == l;
    var k := order[i];
    assert k in config && l == ConfigLine(k, config[k]);
  }

  lemma EveryKeyHasLine(config: Doxyfile, order: seq<string>, k: string)
    requires forall k :: k in order ==> k in config
    requires k in order
    ensures ConfigLine(k, config[k]) in LinesOf(config, order)
  {
    var i :| 0 <= i < |order| && order[i] == k;
    assert LinesOf(config, order)[i] == ConfigLine(k, config[k]);
  }

  /** The text neither starts nor ends with whitespace: in particular the
      last line's newline is gone. */
  lemma NoTrailingNewline(config: Doxyfile, order: seq<string>)
    requires Enumerates(order, config.Keys)
    ensures var s := DoxText(config, order);
      s == [] || (!IsSpace(s[0]) && !IsSpace(s[|s| - 1]))
  {
    StripSpec(Concat(LinesOf(config, order)));
  }

  lemma UpperKeepsNonSpace(c: char)
    requires !IsSpace(c)
    ensures !IsSpace(UpperChar(c))
  {
  }

  /** The concatenated lines up to the last value, without its newline. */
  ghost function LinesBody(config: Doxyfile, order: seq<string>): string
    requires forall k :: k in order ==> k in config
    requires order != []
  {
    var n := |order|;
    Concat(LinesOf(config, order[..n - 1])) + Upper(order[n - 1]) + " = " + ValueText(config[order[n - 1]])
  }

  /** The concatenated lines end with the last key's line. */
  lemma ConcatEndsWithLast(config: Doxyfile, order: seq<string>)
    requires forall k :: k in order ==> k in config
    requires order != []
    ensures Concat(LinesOf(config, order)) == LinesBody(config, order) + "\n"
  {
    var n := |order|;
    var lines := LinesOf(config, order);
    assert lines[..n - 1] == LinesOf(config, order[..n - 1]);
    assert lines[n - 1] == ConfigLine(order[n - 1], config[order[n - 1]]);
  }

  /** The concatenated lines start with the first key's first character, upper-cased. */
  lemma ConcatStartsWithFirst(config: Doxyfile, order: seq<string>)
    requires forall k :: k in order ==> k in config
    requires order != [] && order[0] != []
    ensures var raw := Concat(LinesOf(config, order)); |raw| > 0 && raw[0] == UpperChar(order[0][0])
  {
    var lines := LinesOf(config, order);
    ConcatFirst(lines);
    var first := lines[0];
    assert first == Upper(order[0]) + " = " + ValueText(config[order[0]]) + "\n";
    assert first[0] == UpperChar(order[0][0]);
  }

  lemma BodyEndsNonSpace(config: Doxyfile, order: seq<string>)
    requires forall k :: k in order ==> k in config
    requires order != [] && order[0] != [] && !IsSpace(order[0][0])
    requires var t := ValueText(config[order[|order| - 1]]); t != [] && !IsSpace(t[|t| - 1])
    ensures var body := LinesBody(config, order); body != [] && !IsSpace(body[0]) && !IsSpace(body[|body| - 1])
  {
    var body := LinesBody(config, order);
    var t := ValueText(config[order[|order| - 1]]);
    assert body[|body| - 1] == t[|t| - 1];
    ConcatEndsWithLast(config, order);
    ConcatStartsWithFirst(config, order);
    UpperKeepsNonSpace(order[0][0]);
    assert body[0] == Concat(LinesOf(config, order))[0];
  }

  /** When the first key starts, and the last value ends, with a non-space
      character, stripping removes the final newline and nothing else. */
  lemma OnlyFinalNewlineStripped(config: Doxyfile, order: seq<string>)
    requires Enumerates(order, config.Keys)
    requires order != [] && order[0] != [] && !IsSpace(order[0][0])
    requires var t := ValueText(config[order[|order| - 1]]); t != [] && !IsSpace(t[|t| - 1])
    ensures var raw := Concat(LinesOf(config, order));
      |raw| >= 1 && DoxText(config, order) == raw[..|raw| - 1]
  {
    var raw := Concat(LinesOf(config, order));
    var body := LinesBody(config, order);
    ConcatEndsWithLast(config, order);
    BodyEndsNonSpace(config, order);
    StripFinalNewline(body);
    assert raw[..|raw| - 1] == body;
  }
}
