/** `parse_class`: the per-section member dictionaries of one class, with
    the rename loop that keeps same-named members apart. */
module Classes {
  import opened Wrappers
  import opened Strings
  import opened Xml
  import opened Members
  import Names
  import Index

  // ---------------------------------------------------------------------------
  // The rename loop

  /** The key the rename loop tries after `k` rounds: the name itself, then
      `str(1)` appended, and from then on the last character replaced by
      `str(k)`. */
  function Candidate(name: string, k: nat): (c: string)
    ensures k == 0 ==> c == name
    ensures k >= 1 ==> |c| > |name|
    ensures StartsWith(c, name)
  {
    if k == 0 then name
    else if k == 1 then name + NatToString(1)
    else
      var prev := Candidate(name, k - 1);
      prev[..|prev| - 1] + NatToString(k)
  }

  /** Candidates never get shorter, and from the tenth on every round makes
      them longer, because `str(k)` has two digits or more. */
  lemma CandidateGrows(name: string, k: nat)
    ensures |Candidate(name, k + 1)| >= |Candidate(name, k)|
    ensures k >= 9 ==> |Candidate(name, k + 1)| > |Candidate(name, k)|
  {
    if k >= 1 {
      assert |NatToString(k + 1)| >= 1;
    }
  }

  /** For the first ten rounds the candidate is the name with `str(k)` appended. */
  lemma {:induction false} CandidateSmall(name: string, k: nat)
    requires 1 <= k <= 10
    ensures Candidate(name, k) == name + NatToString(k)
  {
    if k > 1 {
      CandidateSmall(name, k - 1);
      var prev := name + NatToString(k - 1);
      assert |NatToString(k - 1)| == 1;
      assert prev[..|prev| - 1] == name;
    }
  }

  /** The eleventh round drops only one of the two digits of "10": the key is
      `foo111`, not `foo11`. */
  lemma CandidateEleven()
    ensures Candidate("foo", 11) == "foo111"
  {
    CandidateSmall("foo", 10);
    assert NatToString(10) == "10";
    assert NatToString(11) == "11";
  }

  /** The longest key of a finite set. */
  ghost function MaxLen(keys: set<string>): (m: nat)
    ensures forall x :: x in keys ==> |x| <= m
    decreases keys
  {
    if keys == {} then 0
    else
      var x :| x in keys;
      var rest := MaxLen(keys - {x});
      if |x| > rest then |x| else rest
  }

  ghost function RenameMeasure(keys: set<string>, name: string, j: nat): nat {
    var c := Candidate(name, j);
    if |c| <= MaxLen(keys) + 1 then MaxLen(keys) + 1 - |c| else 0
  }

  /** The number of rounds the rename loop runs, starting from round `j`. */
  function FirstFree(keys: set<string>, name: string, j: nat): (k: nat)
    ensures k >= j && Candidate(name, k) !in keys
    ensures forall i :: j <= i < k ==> Candidate(name, i) in keys
    decreases RenameMeasure(keys, name, j), if j < 10 then 10 - j else 0
  {
    if Candidate(name, j) !in keys then j
    else
      CandidateGrows(name, j);
      FirstFree(keys, name, j + 1)
  }

  /** One round of the rename loop turns candidate `k` into candidate `k + 1`. */
  lemma CandidateNext(name: string, k: nat)
    ensures Candidate(name, k + 1) == (if k == 0 then Candidate(name, k) else Candidate(name, k)[..|Candidate(name, k)| - 1]) + NatToString(k + 1)
  {
  }

  /** A taken candidate sends the loop on to the next round, with a smaller measure. */
  lemma RenameStep(keys: set<string>, name: string, j: nat)
    requires Candidate(name, j) in keys
    ensures FirstFree(keys, name, j) == FirstFree(keys, name, j + 1)
    ensures RenameMeasure(keys, name, j + 1) < RenameMeasure(keys, name, j)
      || (RenameMeasure(keys, name, j + 1) == RenameMeasure(keys, name, j) && j < 10)
  {
    CandidateGrows(name, j);
  }

  /** The body of the rename loop: `mem_name[:-1]` from the second round on,
      then `str(i)` appended. */
  method NextCandidate(name: string, key: string, i: nat) returns (next: string)
    requires i >= 1 && key == Candidate(name, i - 1)
    ensures next == Candidate(name, i)
  {
    CandidateNext(name, i - 1);
    next := key;
    if i > 1 {
      next := next[..|next| - 1];
    }
    next := next + NatToString(i);
  }

  /** The rename loop: the first candidate that is not yet a key. */
  method FreshKey(keys: set<string>, name: string) returns (key: string)
    ensures key !in keys
    ensures StartsWith(key, name)
    ensures key == Candidate(name, FirstFree(keys, name, 0))
  {
    key := name;
    var i: nat := 1;
    while key in keys
      invariant i >= 1 && key == Candidate(name, i - 1)
      invariant FirstFree(keys, name, 0) == FirstFree(keys, name, i - 1)
      decreases RenameMeasure(keys, name, i - 1), if i - 1 < 10 then 10 - (i - 1) else 0
    {
      RenameStep(keys, name, i - 1);
      key := NextCandidate(name, key, i);
      i := i + 1;
    }
  }

  // ---------------------------------------------------------------------------
  // One section

  /** The member kinds `parse_class` parses. */
  predicate Parsed(kind: string) {
    kind == "function" || kind == "variable"
  }

  /** The member dictionary of one `memberdef` of a parsed kind. */
  function ParseMember(mem: Element, kind: string): Result<Member>
    requires Parsed(kind)
  {
    var s :- if kind == "function" then FuncFields(mem) else ParseVariable(mem);
    ParseCommon(mem, s)
  }

  /** The member loop of a section, continued from `sec` over `mems`;
      members of other kinds are skipped (see the findings). */
  function SectionFrom(mems: seq<Element>, sec: map<string, Member>): (r: Result<map<string, Member>>)
    ensures r.Ok? ==> forall i :: 0 <= i < |mems| ==> "kind" in mems[i].attrib
    ensures r.Ok? ==> sec.Keys <= r.value.Keys
    decreases mems
  {
    if mems == [] then Ok(sec)
    else
      var kind :- Attr(mems[0], "kind");
      if !Parsed(kind) then SectionFrom(mems[1..], sec)
      else
        var m :- ParseMember(mems[0], kind);
        var name :- ChildName(mems[0], "name");
        SectionFrom(mems[1..], sec[Candidate(name, FirstFree(sec.Keys, name, 0)) := m])
  }

  /** How many members of `mems` are of a parsed kind. */
  function ParsedCount(mems: seq<Element>): nat {
    if mems == [] then 0
    else (if "kind" in mems[0].attrib && Parsed(mems[0].attrib["kind"]) then 1 else 0) + ParsedCount(mems[1..])
  }

  /** A section gains exactly one entry per parsed member, and no entry is
      ever overwritten. */
  lemma {:induction false} SectionGrows(mems: seq<Element>, sec: map<string, Member>)
    ensures var r := SectionFrom(mems, sec);
      r.Ok? ==> (|r.value| == |sec| + ParsedCount(mems) && forall k :: k in sec ==> k in r.value && r.value[k] == sec[k])
    decreases mems
  {
    if mems != [] {
      var kind := Attr(mems[0], "kind");
      if kind.Ok? {
        if !Parsed(kind.value) {
          SectionGrows(mems[1..], sec);
        } else {
          var m := ParseMember(mems[0], kind.value);
          var name := ChildName(mems[0], "name");
          if m.Ok? && name.Ok? {
            var key := Candidate(name.value, FirstFree(sec.Keys, name.value, 0));
            SectionGrows(mems[1..], sec[key := m.value]);
          }
        }
      }
    }
  }

  /** The member loop of one section. */
  method ParseSection(mems: seq<Element>) returns (r: Result<map<string, Member>>)
    ensures r == SectionFrom(mems, map[])
  {
    var sec: map<string, Member> := map[];
    var i := 0;
    while i < |mems|
      invariant 0 <= i <= |mems|
      invariant SectionFrom(mems, map[]) == SectionFrom(mems[i..], sec)
    {
      assert mems[i..][1..] == mems[i + 1..];
      var mem := mems[i];
      var kind := Attr(mem, "kind");
      if kind.Err? {
        return Err(kind.error);
      }
      if Parsed(kind.value) {
        var s: Result<Specific>;
        if kind.value == "function" {
          s := ParseFunc(mem);
        } else {
          s := ParseVariable(mem);
        }
        if s.Err? {
          return Err(s.error);
        }
        var m := ParseCommon(mem, s.value);
        if m.Err? {
          return Err(m.error);
        }
        var name := ChildName(mem, "name");
        if name.Err? {
          return Err(name.error);
        }
        var key := FreshKey(sec.Keys, name.value);
        sec := sec[key := m.value];
      }
      i := i + 1;
    }
    return Ok(sec);
  }

  // ---------------------------------------------------------------------------
  // The whole class

  /** The dictionary `parse_class` returns. The section dictionaries are
      keyed by section kind; a later section of the same kind replaces an
      earlier one. */
  datatype ClassDesc = ClassDesc(
    sections: map<string, map<string, Member>>,
    klsName: Option<string>,
    methods: seq<string>,
    variables: seq<string>,
    fileName: string,
    namespace: string)

  /** The section loop of `parse_class`, continued from `data`: every
      section is stored under its kind, a later one replacing an earlier
      one of the same kind. */
  function SectionsFrom(secs: seq<Element>, data: map<string, map<string, Member>>): (r: Result<map<string, map<string, Member>>>)
    ensures r.Ok? ==> data.Keys <= r.value.Keys
    ensures r.Ok? ==> forall i :: 0 <= i < |secs| ==> "kind" in secs[i].attrib && secs[i].attrib["kind"] in r.value
    ensures r.Ok? ==> forall k :: k in r.value ==> k in data || exists i :: 0 <= i < |secs| && "kind" in secs[i].attrib && secs[i].attrib["kind"] == k
    decreases secs
  {
    if secs == [] then Ok(data)
    else
      var kind :- Attr(secs[0], "kind");
      var sec :- SectionFrom(Iter(secs[0], "memberdef"), map[]);
      SectionsFrom(secs[1..], data[kind := sec])
  }

  /** What `parse_class` returns for the compound document `root`. */
  function ClassFields(entry: Index.ClassEntry, root: Element, sep: char): Result<ClassDesc> {
    var compound :- Child(root, "compounddef");
    var sections :- SectionsFrom(Iter(compound, "sectiondef"), map[]);
    var klsName :- ChildText(compound, "compoundname");
    var location :- Child(compound, "location");
    var file :- Attr(location, "file");
    var qualified :- if klsName.Some? then Ok(klsName.value) else Err(AttributeError("split"));
    Ok(ClassDesc(sections, klsName, entry.methods, entry.vars, Names.Basename(file, sep), Names.Namespace(qualified)))
  }

  /** `parse_class(class_dict)`, with the documents given as a map from path
      to document element. */
  method ParseClass(entry: Index.ClassEntry, files: map<string, Element>, sep: char) returns (r: Result<ClassDesc>)
    ensures entry.fileName + ".xml" !in files ==> r == Err(IOError(entry.fileName + ".xml"))
    ensures entry.fileName + ".xml" in files ==> r == ClassFields(entry, files[entry.fileName + ".xml"], sep)
  {
    var fn := entry.fileName + ".xml";
    if fn !in files {
      return Err(IOError(fn));
    }
    var compound := Child(files[fn], "compounddef");
    if compound.Err? {
      return Err(compound.error);
    }
    var secs := Iter(compound.value, "sectiondef");
    var data: map<string, map<string, Member>> := map[];
    var i := 0;
    while i < |secs|
      invariant 0 <= i <= |secs|
      invariant SectionsFrom(secs, map[]) == SectionsFrom(secs[i..], data)
    {
      assert secs[i..][1..] == secs[i + 1..];
      var kind := Attr(secs[i], "kind");
      if kind.Err? {
        return Err(kind.error);
      }
      var sec := ParseSection(Iter(secs[i], "memberdef"));
      if sec.Err? {
        return Err(sec.error);
      }
      data := data[kind.value := sec.value];
      i := i + 1;
    }
    var klsName := ChildText(compound.value, "compoundname");
    if klsName.Err? {
      return Err(klsName.error);
    }
    var location := Child(compound.value, "location");
    if location.Err? {
      return Err(location.error);
    }
    var file := Attr(location.value, "file");
    if file.Err? {
      return Err(file.error);
    }
    if klsName.value.None? {
      return Err(AttributeError("split"));
    }
    var ns := Names.Namespace(klsName.value.value);
    return Ok(ClassDesc(data, klsName.value, entry.methods, entry.vars, Names.Basename(file.value, sep), ns));
  }

  /** The class's namespace and the last segment of its compound name give
      back the compound name. */
  lemma ClassNameRoundTrip(entry: Index.ClassEntry, root: Element, sep: char)
    ensures var r := ClassFields(entry, root, sep);
      r.Ok? ==> (r.value.klsName.Some?
             && (r.value.namespace != "" ==> r.value.namespace + Names.Scope + Names.ClassName(r.value.klsName.value) == r.value.klsName.value)
             && r.value.namespace == Names.Namespace(r.value.klsName.value))
  {
    var r := ClassFields(entry, root, sep);
    if r.Ok? && r.value.namespace != "" {
      Names.QualifiedRoundTrip(r.value.klsName.value);
    }
  }

  // ---------------------------------------------------------------------------
  // The member loop as written

  /** The member dictionary the loop as written stores for `mem`: for a kind
      other than function and variable no branch assigns `mem_dict`, so the
      one of the previous member (of any section) is reused, and there is
      none for the very first member. */
  function MemberAsWritten(mem: Element, kind: string, prev: Option<Member>): (r: Result<Member>)
    ensures Parsed(kind) ==> r == ParseMember(mem, kind)
    ensures !Parsed(kind) && prev.None? ==> r == Err(UnboundLocalError)
    ensures !Parsed(kind) && prev.Some? ==> (r.Ok? <==> Find(mem, "definition").Some?)
    ensures !Parsed(kind) && prev.Some? && r.Ok? ==> r.value.specific == prev.value.specific && r.value.brief == BriefText(mem)
  {
    var s :- if kind == "function" then FuncFields(mem)
             else if kind == "variable" then ParseVariable(mem)
             else if prev.Some? then Ok(prev.value.specific)
             else Err(UnboundLocalError);
    ParseCommon(mem, s)
  }

  /** `_parse_common` updates the dictionary it is given in place, so every
      entry of `sec` that holds that same dictionary (the keys in `shared`)
      now reads `m`; the other entries are untouched. */
  function Rewrite(sec: map<string, Member>, shared: set<string>, m: Member): (r: map<string, Member>)
    ensures r.Keys == sec.Keys
    ensures forall k :: k in sec && k in shared ==> r[k] == m
    ensures forall k :: k in sec && k !in shared ==> r[k] == sec[k]
  {
    map k | k in sec.Keys :: if k in shared then m else sec[k]
  }

  /** The member loop as written over one section, continued from `sec`
      with the last member dictionary `prev`, which the entries under the
      keys in `shared` hold. */
  function SectionAsWritten(mems: seq<Element>, sec: map<string, Member>, prev: Option<Member>, shared: set<string>): (r: Result<map<string, Member>>)
    ensures prev.None? && mems != [] && "kind" in mems[0].attrib && !Parsed(mems[0].attrib["kind"]) ==> r == Err(UnboundLocalError)
    ensures r.Ok? ==> forall i :: 0 <= i < |mems| ==> "kind" in mems[i].attrib
    ensures r.Ok? ==> sec.Keys <= r.value.Keys
    decreases mems
  {
    if mems == [] then Ok(sec)
    else
      var kind :- Attr(mems[0], "kind");
      var m :- MemberAsWritten(mems[0], kind, prev);
      var name :- ChildName(mems[0], "name");
      var key := Candidate(name, FirstFree(sec.Keys, name, 0));
      if Parsed(kind) then SectionAsWritten(mems[1..], sec[key := m], Some(m), {key})
      else SectionAsWritten(mems[1..], Rewrite(sec, shared, m)[key := m], Some(m), shared + {key})
  }

  /** On a section whose members are all functions or variables, the loop
      as written and the corrected loop agree. */
  lemma {:induction false} AsWrittenAgreesOnParsed(mems: seq<Element>, sec: map<string, Member>, prev: Option<Member>, shared: set<string>)
    requires forall i :: 0 <= i < |mems| ==> "kind" in mems[i].attrib && Parsed(mems[i].attrib["kind"])
    ensures SectionAsWritten(mems, sec, prev, shared) == SectionFrom(mems, sec)
    decreases mems
  {
    if mems != [] {
      var kind := mems[0].attrib["kind"];
      var m := ParseMember(mems[0], kind);
      var name := ChildName(mems[0], "name");
      if m.Ok? && name.Ok? {
        var key := Candidate(name.value, FirstFree(sec.Keys, name.value, 0));
        assert forall i :: 0 <= i < |mems| - 1 ==> mems[1..][i] == mems[i + 1];
        AsWrittenAgreesOnParsed(mems[1..], sec[key := m.value], Some(m.value), {key});
      }
    }
  }

  /** A class whose first member is a typedef makes the loop as written
      raise UnboundLocalError; the corrected loop skips the typedef. */
  lemma TypedefMember()
    ensures var t := Element("memberdef", map["kind" := "typedef"], None,
                       [Element("name", map[], Some("T"), []), Element("definition", map[], None, [])]);
      SectionAsWritten([t], map[], None, {}) == Err(UnboundLocalError)
      && SectionFrom([t], map[]) == Ok(map[])
  {
  }

  /** A member of another kind after another member is stored with that
      member's description, type and arguments, and every entry holding
      the shared dictionary now carries its brief description and
      definition. */
  lemma UnparsedReusesPrevious(t: Element, sec: map<string, Member>, prev: Member, shared: set<string>)
    requires "kind" in t.attrib && !Parsed(t.attrib["kind"])
    requires Find(t, "definition").Some? && ChildName(t, "name").Ok?
    ensures var name := ChildName(t, "name").value;
      var key := Candidate(name, FirstFree(sec.Keys, name, 0));
      var m := Member(prev.specific, BriefText(t), Find(t, "definition").value.text);
      var r := SectionAsWritten([t], sec, Some(prev), shared);
      && r.Ok?
      && r.value.Keys == sec.Keys + {key}
      && key !in sec
      && r.value[key] == m
      && (forall k :: k in sec && k in shared ==> r.value[k] == r.value[key])
      && (forall k :: k in sec && k !in shared ==> r.value[k] == sec[k])
  {
    var name := ChildName(t, "name").value;
    var key := Candidate(name, FirstFree(sec.Keys, name, 0));
    var m := Member(prev.specific, BriefText(t), Find(t, "definition").value.text);
    assert MemberAsWritten(t, t.attrib["kind"], Some(prev)) == Ok(m);
    var next := Rewrite(sec, shared, m)[key := m];
    assert SectionAsWritten([t], sec, Some(prev), shared) == SectionAsWritten([], next, Some(m), shared + {key});
  }

  /** A name not yet in the section is stored as it is. */
  lemma FreshName(keys: set<string>, name: string)
    requires name !in keys
    ensures Candidate(name, FirstFree(keys, name, 0)) == name
  {
  }

  /** A function first in a section is stored under its own name, and the
      loop goes on with that entry holding the current dictionary. */
  lemma FunctionFirst(f: Element, rest: seq<Element>, a: string)
    requires f.attrib == map["kind" := "function"]
    requires FuncFields(f).Ok? && Find(f, "definition").Some? && ChildName(f, "name") == Ok(a)
    ensures var mf := Member(FuncFields(f).value, BriefText(f), Find(f, "definition").value.text);
      SectionAsWritten([f] + rest, map[], None, {}) == SectionAsWritten(rest, map[a := mf], Some(mf), {a})
  {
    var mf := Member(FuncFields(f).value, BriefText(f), Find(f, "definition").value.text);
    assert MemberAsWritten(f, "function", None) == Ok(mf);
    FreshName({}, a);
    assert ([f] + rest)[1..] == rest;
  }

  /** A member of another kind after a single entry `a` holding the
      current dictionary: both names now hold the new dictionary. */
  lemma SharedPair(t: Element, a: string, b: string, prev: Member)
    requires "kind" in t.attrib && !Parsed(t.attrib["kind"])
    requires Find(t, "definition").Some? && ChildName(t, "name") == Ok(b) && a != b
    ensures var m := Member(prev.specific, BriefText(t), Find(t, "definition").value.text);
      SectionAsWritten([t], map[a := prev], Some(prev), {a}) == Ok(map[a := m, b := m])
  {
    var sec := map[a := prev];
    FreshName(sec.Keys, b);
    UnparsedReusesPrevious(t, sec, prev, {a});
    var m := Member(prev.specific, BriefText(t), Find(t, "definition").value.text);
    TwoKeys(SectionAsWritten([t], sec, Some(prev), {a}).value, a, b, m);
  }

  lemma TwoKeys(r: map<string, Member>, a: string, b: string, v: Member)
    requires r.Keys == {a} + {b} && a in r && b in r && r[a] == v && r[b] == v
    ensures r == map[a := v, b := v]
  {
  }

  /** In a section holding a function `f` and then a typedef `t`, the loop
      as written stores one dictionary under both names, so the entry of
      `f` carries the brief description and definition of `t`. */
  lemma SharedDictRewritten(f: Element, t: Element, a: string, b: string)
    requires f.attrib == map["kind" := "function"] && t.attrib == map["kind" := "typedef"]
    requires FuncFields(f).Ok? && Find(f, "definition").Some? && Find(t, "definition").Some?
    requires ChildName(f, "name") == Ok(a) && ChildName(t, "name") == Ok(b) && a != b
    ensures var m := Member(FuncFields(f).value, BriefText(t), Find(t, "definition").value.text);
      SectionAsWritten([f, t], map[], None, {}) == Ok(map[a := m, b := m])
  {
    FunctionFirst(f, [t], a);
    assert [f] + [t] == [f, t];
    SharedPair(t, a, b, Member(FuncFields(f).value, BriefText(f), Find(f, "definition").value.text));
  }
}
