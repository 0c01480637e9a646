/** The class part of `XDressPlugin.execute`: every requested class gets a
    class docstring and, for each of its methods that matches parsed
    entries, a method docstring. */
module Plugin {
  import opened Wrappers
  import opened Strings
  import opened Xml
  import opened Members
  import Names
  import Index
  import Classes
  import opened Docstrings
  import Config

  // ---------------------------------------------------------------------------
  // Matching a method against the parsed sections

  /** The names in one section that start with `m`, in ascending order
      (standing for the dictionary's order). */
  function NamesStarting(sec: map<string, Member>, m: string): (names: seq<string>)
    ensures forall n :: n in names <==> n in sec && StartsWith(n, m)
    ensures StrictlySorted(names)
  {
    SortedKeys(set n | n in sec && StartsWith(n, m))
  }

  /** The names of one section, each paired with the section's key. */
  function Tagged(key: string, names: seq<string>): (b: seq<(string, string)>)
    ensures |b| == |names|
    ensures forall j :: 0 <= j < |names| ==> b[j] == (key, names[j])
    ensures forall p :: p in b <==> p.0 == key && p.1 in names
  {
    var b := seq(|names|, j requires 0 <= j < |names| => (key, names[j]));
    assert forall p :: p in b <==> p.0 == key && p.1 in names by {
      forall p ensures p in b <==> p.0 == key && p.1 in names {
        if p.0 == key && p.1 in names {
          var j :| 0 <= j < |names| && names[j] == p.1;
          assert b[j] == p;
        }
      }
    }
    b
  }

  /** Which entries the matches of `m` are, section by section over `keys`. */
  function MatchPairs(sections: map<string, map<string, Member>>, keys: seq<string>, m: string): (ps: seq<(string, string)>)
    requires forall i :: 0 <= i < |keys| ==> keys[i] in sections
    ensures forall p :: p in ps <==> p.0 in keys && p.1 in sections[p.0] && StartsWith(p.1, m)
  {
    if keys == [] then []
    else
      var init := keys[..|keys| - 1];
      var last := keys[|keys| - 1];
      var prev := MatchPairs(sections, init, m);
      assert forall k :: k in keys <==> k in init || k == last;
      prev + Tagged(last, NamesStarting(sections[last], m))
  }

  /** `parsed[key][i] for i in m_names` for one section. */
  function SectionMatches(sec: map<string, Member>, m: string): (r: seq<Member>)
    ensures |r| == |NamesStarting(sec, m)|
  {
    var names := NamesStarting(sec, m);
    seq(|names|, j requires 0 <= j < |names| => sec[names[j]])
  }

  /** `matches`: the members `parsed[key][name]`, section by section over `keys`. */
  function MatchesFrom(sections: map<string, map<string, Member>>, keys: seq<string>, m: string): seq<Member>
    requires forall i :: 0 <= i < |keys| ==> keys[i] in sections
  {
    if keys == [] then []
    else
      MatchesFrom(sections, keys[..|keys| - 1], m) + SectionMatches(sections[keys[|keys| - 1]], m)
  }

  /** The matches are, one for one and in order, the entries named by the
      pairs, and no entry is matched twice. */
  lemma MatchesArePairs(sections: map<string, map<string, Member>>, keys: seq<string>, m: string)
    requires forall i :: 0 <= i < |keys| ==> keys[i] in sections
    requires Distinct(keys)
    ensures var ps := MatchPairs(sections, keys, m); var ms := MatchesFrom(sections, keys, m);
      && |ms| == |ps|
      && (forall i :: 0 <= i < |ps| ==> ms[i] == sections[ps[i].0][ps[i].1])
      && Distinct(ps)
  {
    MatchesPointwise(sections, keys, m);
    PairsDistinct(sections, keys, m);
  }

  lemma {:induction false} MatchesPointwise(sections: map<string, map<string, Member>>, keys: seq<string>, m: string)
    requires forall i :: 0 <= i < |keys| ==> keys[i] in sections
    ensures var ps := MatchPairs(sections, keys, m); var ms := MatchesFrom(sections, keys, m);
      && |ms| == |ps|
      && (forall i :: 0 <= i < |ps| ==> ms[i] == sections[ps[i].0][ps[i].1])
  {
    if keys != [] {
      var init := keys[..|keys| - 1];
      var last := keys[|keys| - 1];
      MatchesPointwise(sections, init, m);
      var prev := MatchPairs(sections, init, m);
      var block := Tagged(last, NamesStarting(sections[last], m));
      var prevMs := MatchesFrom(sections, init, m);
      var secMs := SectionMatches(sections[last], m);
      var ps := prev + block;
      var ms := prevMs + secMs;
      assert MatchPairs(sections, keys, m) == ps;
      assert MatchesFrom(sections, keys, m) == ms;
      forall i | 0 <= i < |ps| ensures ms[i] == sections[ps[i].0][ps[i].1] {
        if i >= |prev| {
          assert ps[i] == block[i - |prev|];
          assert ms[i] == secMs[i - |prev|];
        } else {
          assert ps[i] == prev[i];
          assert ms[i] == prevMs[i];
        }
      }
    }
  }

  lemma {:induction false} PairsDistinct(sections: map<string, map<string, Member>>, keys: seq<string>, m: string)
    requires forall i :: 0 <= i < |keys| ==> keys[i] in sections
    requires Distinct(keys)
    ensures Distinct(MatchPairs(sections, keys, m))
  {
    if keys != [] {
      var init := keys[..|keys| - 1];
      var last := keys[|keys| - 1];
      PairsDistinct(sections, init, m);
      var names := NamesStarting(sections[last], m);
      var prev := MatchPairs(sections, init, m);
      var block := Tagged(last, names);
      assert MatchPairs(sections, keys, m) == prev + block;
      assert last !in init;
      SortedDistinct(names);
      assert Distinct(block) by {
        forall i, j | 0 <= i < j < |block| ensures block[i] != block[j] {
          assert names[i] != names[j];
        }
      }
      DistinctAppend(prev, block);
    }
  }

  lemma MatchesFromSnoc(sections: map<string, map<string, Member>>, keys: seq<string>, i: nat, m: string)
    requires i < |keys| && forall k :: 0 <= k < |keys| ==> keys[k] in sections
    ensures MatchesFrom(sections, keys[..i + 1], m) == MatchesFrom(sections, keys[..i], m) + SectionMatches(sections[keys[i]], m)
  {
    assert keys[..i + 1][..i] == keys[..i];
  }

  /** The loop over the "func" sections, extending `matches`. */
  method CollectMatches(sections: map<string, map<string, Member>>, keys: seq<string>, m: string) returns (matches: seq<Member>)
    requires forall k :: 0 <= k < |keys| ==> keys[k] in sections
    ensures matches == MatchesFrom(sections, keys, m)
  {
    matches := [];
    var i := 0;
    while i < |keys|
      invariant 0 <= i <= |keys|
      invariant matches == MatchesFrom(sections, keys[..i], m)
    {
      MatchesFromSnoc(sections, keys, i, m);
      matches := matches + SectionMatches(sections[keys[i]], m);
      i := i + 1;
    }
    assert keys[..i] == keys;
  }

  /** The matching loop for one method `m`: every entry whose name starts
      with `m`, across the sections whose kind contains "func". */
  method MethodMatches(sections: map<string, map<string, Member>>, m: string) returns (matches: seq<Member>)
    ensures matches == MatchesFrom(sections, GroupKeys(sections, "func"), m)
  {
    var keys := GroupKeys(sections, "func");
    assert forall k :: 0 <= k < |keys| ==> keys[k] in keys;
    matches := CollectMatches(sections, keys, m);
  }

  /** Every parsed entry whose name starts with `m` in a "func" section is
      matched exactly once, in the order of the pairs, and nothing else is. */
  lemma MatchesSpec(sections: map<string, map<string, Member>>, m: string)
    ensures var keys := GroupKeys(sections, "func");
      var ps := MatchPairs(sections, keys, m);
      && |MatchesFrom(sections, keys, m)| == |ps|
      && (forall p :: p in ps <==> p.0 in sections && Contains(p.0, "func") && p.1 in sections[p.0] && StartsWith(p.1, m))
      && (forall i :: 0 <= i < |ps| ==> ps[i].0 in sections && ps[i].1 in sections[ps[i].0]
                                        && MatchesFrom(sections, keys, m)[i] == sections[ps[i].0][ps[i].1])
      && (forall i, j :: 0 <= i < j < |ps| ==> ps[i] != ps[j])
  {
    var keys := GroupKeys(sections, "func");
    forall i, j | 0 <= i < j < |keys| ensures keys[i] != keys[j] {
      LessIrreflexive(keys[i]);
    }
    MatchesArePairs(sections, keys, m);
  }

  // ---------------------------------------------------------------------------
  // The docstring of one method

  /** `_overload_msg.format(f_type=...)`. */
  function OverloadMsg(fType: string): string {
    "\nThis " + fType + " was overloaded in the C-based source. To overcome this we\n"
    + "ill put the relevant docstring for each version below. Each version will begin\n"
    + "with a line of # characters.\n"
  }

  /** `'#' * 64 + '\n\n'`, the separator between overloads. */
  function Banner(): (b: string)
    ensures |b| == 66 && forall i :: 0 <= i < 64 ==> b[i] == '#'
    ensures b[64..] == "\n\n"
  {
    seq(64, _ => '#') + "\n\n"
  }

  /** How one match is rendered: `func_docstr(i, is_method=True)`. */
  function Render(fill: Fill): Member -> Result<string> {
    m => FuncDoc(fill, m, true)
  }

  /** `[render(i) for i in matches]`, continued from `acc`. */
  function RenderingsFrom(render: Member -> Result<string>, ms: seq<Member>, acc: seq<string>): Result<seq<string>>
    decreases ms
  {
    if ms == [] then Ok(acc)
    else
      var d :- render(ms[0]);
      RenderingsFrom(render, ms[1..], acc + [d])
  }

  lemma {:induction false} RenderingsFromProps(render: Member -> Result<string>, ms: seq<Member>, acc: seq<string>)
    ensures var r := RenderingsFrom(render, ms, acc);
      && (r.Ok? <==> forall i :: 0 <= i < |ms| ==> render(ms[i]).Ok?)
      && (r.Ok? ==> |r.value| == |acc| + |ms| && r.value[..|acc|] == acc
                    && forall i :: 0 <= i < |ms| ==> r.value[|acc| + i] == render(ms[i]).value)
    decreases ms
  {
    if ms != [] {
      var d := render(ms[0]);
      if d.Ok? {
        RenderingsFromProps(render, ms[1..], acc + [d.value]);
        var r := RenderingsFrom(render, ms[1..], acc + [d.value]);
        assert forall i :: 1 <= i < |ms| ==> ms[i] == ms[1..][i - 1];
        if r.Ok? {
          assert r.value[..|acc|] == r.value[..|acc| + 1][..|acc|];
        }
      }
    }
  }

  /** One rendering per match, in order, or the first failure. */
  function Renderings(render: Member -> Result<string>, ms: seq<Member>): (r: Result<seq<string>>)
    ensures r.Ok? <==> forall i :: 0 <= i < |ms| ==> render(ms[i]).Ok?
    ensures r.Ok? ==> |r.value| == |ms| && forall i :: 0 <= i < |ms| ==> r.value[i] == render(ms[i]).value
  {
    RenderingsFromProps(render, ms, []);
    RenderingsFrom(render, ms, [])
  }

  /** The list comprehension over the matches. */
  method RenderAll(fill: Fill, ms: seq<Member>) returns (r: Result<seq<string>>)
    ensures r == Renderings(Render(fill), ms)
  {
    var dsList: seq<string> := [];
    var j := 0;
    while j < |ms|
      invariant 0 <= j <= |ms|
      invariant RenderingsFrom(Render(fill), ms, []) == RenderingsFrom(Render(fill), ms[j..], dsList)
    {
      assert ms[j..][1..] == ms[j + 1..];
      var ds := FuncDocstr(fill, ms[j], true);
      if ds.Err? {
        return Err(ds.error);
      }
      dsList := dsList + [ds.value];
      j := j + 1;
    }
    return Ok(dsList);
  }

  /** What is stored for a method with these matches, each rendered by
      `render`: nothing for none, its own docstring for one, and for more
      the wrapped overload notice followed by all renderings separated by
      the banner. */
  function MethodDoc(fill: Fill, render: Member -> Result<string>, matches: seq<Member>): (r: Result<Option<string>>)
    ensures matches == [] ==> r == Ok(None)
    ensures r.Ok? ==> (r.value.Some? <==> matches != [])
    ensures |matches| == 1 ==> (r.Ok? <==> render(matches[0]).Ok?)
    ensures |matches| == 1 && r.Ok? ==> r.value == Some(render(matches[0]).value)
    ensures |matches| > 1 ==> (r.Ok? <==> forall i :: 0 <= i < |matches| ==> render(matches[i]).Ok?)
    ensures |matches| > 1 && r.Ok? ==> r.value.Some? && StartsWith(r.value.value, fill(Wrap64, OverloadMsg("method")) + "\n\n")
  {
    if |matches| == 0 then Ok(None)
    else if |matches| == 1 then
      var d :- render(matches[0]);
      Ok(Some(d))
    else
      var ds :- Renderings(render, matches);
      Ok(Some(fill(Wrap64, OverloadMsg("method")) + "\n\n" + Join(ds, Banner())))
  }

  /** With several matches, the renderings after the notice are those of
      the matches, in order, joined by the banner. */
  lemma OverloadedDoc(fill: Fill, render: Member -> Result<string>, matches: seq<Member>)
    requires |matches| > 1
    ensures var r := MethodDoc(fill, render, matches);
      var ds := Renderings(render, matches);
      r.Ok? ==> (ds.Ok?
             && r.value == Some(fill(Wrap64, OverloadMsg("method")) + "\n\n" + Join(ds.value, Banner()))
             && forall i :: 0 <= i < |matches| ==> ds.value[i] == render(matches[i]).value)
  {
  }

  /** A method is rendered as a method's function docstring. */
  lemma RenderIsFuncDoc(fill: Fill, m: Member)
    ensures Render(fill)(m) == FuncDoc(fill, m, true)
    ensures Render(fill)(m).Ok? <==> m.specific.detailed.Some? && m.specific.FuncPart?
  {
    FuncDocOk(fill, m, true);
  }

  /** The docstring of method `m` of a class with these sections. */
  function MethodDocOf(fill: Fill, sections: map<string, map<string, Member>>): string -> Result<Option<string>> {
    m => MethodDocFor(fill, sections, m)
  }

  /** MethodDoc of the matches of method `m`. */
  function MethodDocFor(fill: Fill, sections: map<string, map<string, Member>>, m: string): Result<Option<string>> {
    MethodDoc(fill, Render(fill), MatchesFrom(sections, GroupKeys(sections, "func"), m))
  }

  /** The loop over `rc_methods`, continued from `docs`, for any way
      `docOf` of finding a method's docstring. */
  function DocsFrom(docOf: string -> Result<Option<string>>, ms: seq<string>, docs: map<string, string>): Result<map<string, string>>
    decreases ms
  {
    if ms == [] then Ok(docs)
    else
      var d :- docOf(ms[0]);
      DocsFrom(docOf, ms[1..], if d.Some? then docs[ms[0] := d.value] else docs)
  }

  /** The loop over `rc_methods` of one class, continued from `docs`. */
  function MethodDocsFrom(fill: Fill, sections: map<string, map<string, Member>>, ms: seq<string>, docs: map<string, string>): Result<map<string, string>> {
    DocsFrom(MethodDocOf(fill, sections), ms, docs)
  }

  /** Whether any parsed entry matches method `m`. */
  predicate HasMatch(sections: map<string, map<string, Member>>, m: string) {
    MatchesFrom(sections, GroupKeys(sections, "func"), m) != []
  }

  /** The loop stores a docstring for exactly the methods whose docstring
      is `Some`, and keeps the earlier ones. */
  lemma {:induction false} DocsFromKeys(docOf: string -> Result<Option<string>>, ms: seq<string>, docs: map<string, string>)
    ensures var r := DocsFrom(docOf, ms, docs);
      r.Ok? ==> forall m :: m in r.value <==> m in docs || (m in ms && docOf(m).Ok? && docOf(m).value.Some?)
    decreases ms
  {
    if ms != [] {
      var d := docOf(ms[0]);
      if d.Ok? {
        var next := if d.value.Some? then docs[ms[0] := d.value.value] else docs;
        DocsFromKeys(docOf, ms[1..], next);
        assert forall m :: m in ms <==> m == ms[0] || m in ms[1..];
      }
    }
  }

  /** A method gets a docstring exactly when it has a match; the others
      are skipped and earlier docstrings stay. */
  lemma MethodDocsKeys(fill: Fill, sections: map<string, map<string, Member>>, ms: seq<string>, docs: map<string, string>)
    ensures var r := MethodDocsFrom(fill, sections, ms, docs);
      r.Ok? ==> forall m :: m in r.value <==> m in docs || (m in ms && HasMatch(sections, m))
  {
    var docOf := MethodDocOf(fill, sections);
    DocsFromKeys(docOf, ms, docs);
    var r := DocsFrom(docOf, ms, docs);
    if r.Ok? {
      DocsFromOk(docOf, ms, docs);
      forall m | m in ms ensures docOf(m).Ok? && (docOf(m).value.Some? <==> HasMatch(sections, m)) {
        assert docOf(m) == MethodDoc(fill, Render(fill), MatchesFrom(sections, GroupKeys(sections, "func"), m));
      }
    }
  }

  /** A loop that finishes found a docstring, or none, for every method. */
  lemma {:induction false} DocsFromOk(docOf: string -> Result<Option<string>>, ms: seq<string>, docs: map<string, string>)
    ensures DocsFrom(docOf, ms, docs).Ok? ==> forall m :: m in ms ==> docOf(m).Ok?
    decreases ms
  {
    if ms != [] {
      var d := docOf(ms[0]);
      if d.Ok? {
        DocsFromOk(docOf, ms[1..], if d.value.Some? then docs[ms[0] := d.value.value] else docs);
        assert forall m :: m in ms ==> m == ms[0] || m in ms[1..];
      }
    }
  }

  /** An earlier docstring stays unless the loop finds a new one for its method. */
  lemma {:induction false} DocsFromKept(docOf: string -> Result<Option<string>>, ms: seq<string>, docs: map<string, string>)
    ensures var r := DocsFrom(docOf, ms, docs);
      r.Ok? ==> forall m :: m in docs && !(m in ms && docOf(m).Ok? && docOf(m).value.Some?) ==>
        m in r.value && r.value[m] == docs[m]
    decreases ms
  {
    if ms != [] && DocsFrom(docOf, ms, docs).Ok? {
      var d := docOf(ms[0]);
      DocsFromKept(docOf, ms[1..], if d.value.Some? then docs[ms[0] := d.value.value] else docs);
      assert forall m :: m in ms <==> m == ms[0] || m in ms[1..];
    }
  }

  /** Every method with a docstring has that docstring stored. */
  lemma {:induction false} DocsFromStored(docOf: string -> Result<Option<string>>, ms: seq<string>, docs: map<string, string>)
    ensures var r := DocsFrom(docOf, ms, docs);
      r.Ok? ==> forall m :: m in ms && docOf(m).Ok? && docOf(m).value.Some? ==>
        m in r.value && r.value[m] == docOf(m).value.value
    decreases ms
  {
    if ms != [] && DocsFrom(docOf, ms, docs).Ok? {
      var d := docOf(ms[0]);
      var next := if d.value.Some? then docs[ms[0] := d.value.value] else docs;
      DocsFromStored(docOf, ms[1..], next);
      DocsFromKept(docOf, ms[1..], next);
      assert forall m :: m in ms <==> m == ms[0] || m in ms[1..];
    }
  }

  /** A method has a docstring exactly when it has a match. */
  lemma MethodDocForSome(fill: Fill, sections: map<string, map<string, Member>>, m: string)
    ensures MethodDocFor(fill, sections, m).Ok? ==> (MethodDocFor(fill, sections, m).value.Some? <==> HasMatch(sections, m))
  {
  }

  /** The method loop stores, for each method with a match, the docstring
      MethodDoc gives for its matches. */
  lemma MethodDocsValues(fill: Fill, sections: map<string, map<string, Member>>, ms: seq<string>, docs: map<string, string>)
    ensures var r := MethodDocsFrom(fill, sections, ms, docs);
      r.Ok? ==> forall m :: m in ms && HasMatch(sections, m) ==>
        var d := MethodDocFor(fill, sections, m);
        d.Ok? && d.value.Some? && m in r.value && r.value[m] == d.value.value
  {
    var docOf := MethodDocOf(fill, sections);
    var r := DocsFrom(docOf, ms, docs);
    if r.Ok? {
      DocsFromOk(docOf, ms, docs);
      DocsFromStored(docOf, ms, docs);
      forall m | m in ms && HasMatch(sections, m)
        ensures docOf(m) == MethodDocFor(fill, sections, m) && docOf(m).Ok? && docOf(m).value.Some?
      {
        MethodDocForSome(fill, sections, m);
      }
    }
  }

  /** An earlier docstring stays unless its method has a match. */
  lemma MethodDocsKept(fill: Fill, sections: map<string, map<string, Member>>, ms: seq<string>, docs: map<string, string>)
    ensures var r := MethodDocsFrom(fill, sections, ms, docs);
      r.Ok? ==> forall m :: m in docs && !(m in ms && HasMatch(sections, m)) ==> m in r.value && r.value[m] == docs[m]
  {
    var docOf := MethodDocOf(fill, sections);
    var r := DocsFrom(docOf, ms, docs);
    if r.Ok? {
      DocsFromOk(docOf, ms, docs);
      DocsFromKept(docOf, ms, docs);
      forall m | m in ms && !HasMatch(sections, m)
        ensures docOf(m) == MethodDocFor(fill, sections, m) && docOf(m).Ok? && docOf(m).value.None?
      {
        MethodDocForSome(fill, sections, m);
      }
    }
  }

  /** The branch on the number of matches. */
  method MethodDocstring(fill: Fill, matches: seq<Member>) returns (r: Result<Option<string>>)
    ensures r == MethodDoc(fill, Render(fill), matches)
  {
    if |matches| == 1 {
      var mDs := FuncDocstr(fill, matches[0], true);
      assert Render(fill)(matches[0]) == FuncDoc(fill, matches[0], true);
      if mDs.Err? {
        return Err(mDs.error);
      }
      return Ok(Some(mDs.value));
    } else if |matches| > 1 {
      var dsList := RenderAll(fill, matches);
      if dsList.Err? {
        return Err(dsList.error);
      }
      var mDs := fill(Wrap64, OverloadMsg("method"));
      mDs := mDs + "\n\n";
      mDs := mDs + Join(dsList.value, Banner());
      return Ok(Some(mDs));
    } else {
      return Ok(None);
    }
  }

  /** The docstring found for method `m`: its matches, then the branch on their number. */
  method DocumentMethod(fill: Fill, sections: map<string, map<string, Member>>, m: string) returns (r: Result<Option<string>>)
    ensures r == MethodDocOf(fill, sections)(m)
  {
    var matches := MethodMatches(sections, m);
    r := MethodDocstring(fill, matches);
  }

  /** One pass of the method loop: a failure ends it, a docstring is stored. */
  lemma DocsFromStep(docOf: string -> Result<Option<string>>, ms: seq<string>, i: nat, docs: map<string, string>, d: Result<Option<string>>)
    requires i < |ms| && d == docOf(ms[i])
    ensures d.Err? ==> DocsFrom(docOf, ms[i..], docs) == Err(d.error)
    ensures d.Ok? ==> DocsFrom(docOf, ms[i..], docs) == DocsFrom(docOf, ms[i + 1..], if d.value.Some? then docs[ms[i] := d.value.value] else docs)
  {
    assert ms[i..][0] == ms[i];
    assert ms[i..][1..] == ms[i + 1..];
  }

  /** The method loop of `execute` for one class. */
  method DocumentMethods(fill: Fill, sections: map<string, map<string, Member>>, rcMethods: seq<string>) returns (r: Result<map<string, string>>)
    ensures r == MethodDocsFrom(fill, sections, rcMethods, map[])
    ensures r.Ok? ==> forall m :: m in r.value <==> m in rcMethods && HasMatch(sections, m)
    ensures r.Ok? ==> forall m :: m in rcMethods && HasMatch(sections, m) ==>
      var d := MethodDocFor(fill, sections, m);
      d.Ok? && d.value.Some? && m in r.value && r.value[m] == d.value.value
  {
    MethodDocsKeys(fill, sections, rcMethods, map[]);
    MethodDocsValues(fill, sections, rcMethods, map[]);
    ghost var docOf := MethodDocOf(fill, sections);
    var docs: map<string, string> := map[];
    var i := 0;
    while i < |rcMethods|
      invariant 0 <= i <= |rcMethods|
      invariant DocsFrom(docOf, rcMethods, map[]) == DocsFrom(docOf, rcMethods[i..], docs)
    {
      var m := rcMethods[i];
      var mDs := DocumentMethod(fill, sections, m);
      DocsFromStep(docOf, rcMethods, i, docs, mDs);
      if mDs.Err? {
        return Err(mDs.error);
      }
      if mDs.value.Some? {
        docs := docs[m := mDs.value.value];
      }
      i := i + 1;
    }
    return Ok(docs);
  }

  // ---------------------------------------------------------------------------
  // The class loop

  /** A class of the host's registry: its name, its module and the names of
      its methods as the registry lists them. */
  datatype RcClass = RcClass(name: string, moduleName: string, methods: seq<string>)

  /** What the loop produces for one requested class. */
  datatype ClassOutcome = Skipped | Documented(classDoc: string, methodDocs: map<string, string>)

  /** `build_dir + sep + 'xml' + sep`, put in front of the class's file name. */
  function XmlDir(buildDir: string, sep: char): string {
    buildDir + [sep] + "xml" + [sep]
  }

  /** One pass of the class loop: the outcome and the index afterwards,
      whose entry for the class now has the longer file name. */
  function ClassStep(fill: Fill, index: map<string, Index.ClassEntry>, c: RcClass, files: map<string, Element>, buildDir: string, sep: char)
    : Result<(ClassOutcome, map<string, Index.ClassEntry>)>
  {
    if c.name !in index then Ok((Skipped, index))
    else
      var e := index[c.name];
      var entry := e.(fileName := XmlDir(buildDir, sep) + e.fileName);
      var outcome :- ClassDocs(fill, entry, c.methods, files, sep);
      Ok((outcome, index[c.name := entry]))
  }

  /** The class docstring and the method docstrings of one indexed class,
      read from `<file_name>.xml`. */
  function ClassDocs(fill: Fill, entry: Index.ClassEntry, methods: seq<string>, files: map<string, Element>, sep: char): Result<ClassOutcome> {
    var fn := entry.fileName + ".xml";
    var parsed :- if fn in files then Classes.ClassFields(entry, files[fn], sep) else Err(IOError(fn));
    var classDoc :- ClassDoc(fill, parsed, false);
    var methodDocs :- MethodDocsFrom(fill, parsed.sections, methods, map[]);
    Ok(Documented(classDoc, methodDocs))
  }

  /** The class loop, continued from `index` with the outcomes `acc` so far. */
  function ClassesFrom(fill: Fill, index: map<string, Index.ClassEntry>, cs: seq<RcClass>, files: map<string, Element>, buildDir: string, sep: char, acc: seq<ClassOutcome>)
    : Result<seq<ClassOutcome>>
    decreases cs
  {
    if cs == [] then Ok(acc)
    else
      var step :- ClassStep(fill, index, cs[0], files, buildDir, sep);
      ClassesFrom(fill, step.1, cs[1..], files, buildDir, sep, acc + [step.0])
  }

  /** A class missing from the index is skipped and leaves the index alone. */
  lemma MissingClassSkipped(fill: Fill, index: map<string, Index.ClassEntry>, c: RcClass, files: map<string, Element>, buildDir: string, sep: char)
    requires c.name !in index
    ensures ClassStep(fill, index, c, files, buildDir, sep) == Ok((Skipped, index))
  {
  }

  /** The file-name prefix is written back into the index, so a class
      requested twice is looked for under the prefix written twice. */
  lemma {:induction false} RepeatedClassPrefix(fill: Fill, index: map<string, Index.ClassEntry>, c: RcClass, files: map<string, Element>, buildDir: string, sep: char)
    requires c.name in index
    ensures var s := ClassStep(fill, index, c, files, buildDir, sep);
      s.Ok? ==> (c.name in s.value.1
             && s.value.1[c.name].fileName == XmlDir(buildDir, sep) + index[c.name].fileName
             && forall k :: k in index && k != c.name ==> k in s.value.1 && s.value.1[k] == index[k])
  {
  }

  /** The documentation of one indexed class. */
  method DocumentEntry(fill: Fill, entry: Index.ClassEntry, methods: seq<string>, files: map<string, Element>, sep: char)
    returns (r: Result<ClassOutcome>)
    ensures r == ClassDocs(fill, entry, methods, files, sep)
  {
    var parsed := Classes.ParseClass(entry, files, sep);
    if parsed.Err? {
      return Err(parsed.error);
    }
    var classDoc := ClassDocstr(fill, parsed.value, false);
    if classDoc.Err? {
      return Err(classDoc.error);
    }
    var methodDocs := DocumentMethods(fill, parsed.value.sections, methods);
    if methodDocs.Err? {
      return Err(methodDocs.error);
    }
    return Ok(Documented(classDoc.value, methodDocs.value));
  }

  /** The loop body of `execute` for one class. */
  method DocumentClass(fill: Fill, classes: map<string, Index.ClassEntry>, c: RcClass, files: map<string, Element>, buildDir: string, sep: char)
    returns (r: Result<(ClassOutcome, map<string, Index.ClassEntry>)>)
    ensures r == ClassStep(fill, classes, c, files, buildDir, sep)
  {
    if c.name !in classes {
      return Ok((Skipped, classes));
    }
    var thisKls := classes[c.name];
    thisKls := thisKls.(fileName := XmlDir(buildDir, sep) + thisKls.fileName);
    var updated := classes[c.name := thisKls];
    var outcome := DocumentEntry(fill, thisKls, c.methods, files, sep);
    if outcome.Err? {
      return Err(outcome.error);
    }
    return Ok((outcome.value, updated));
  }

  /** The class loop of `execute`. */
  method DocumentClasses(fill: Fill, index: map<string, Index.ClassEntry>, cs: seq<RcClass>, files: map<string, Element>, buildDir: string, sep: char)
    returns (r: Result<seq<ClassOutcome>>)
    ensures r == ClassesFrom(fill, index, cs, files, buildDir, sep, [])
  {
    var classes := index;
    var outcomes: seq<ClassOutcome> := [];
    var i := 0;
    while i < |cs|
      invariant 0 <= i <= |cs|
      invariant ClassesFrom(fill, index, cs, files, buildDir, sep, []) == ClassesFrom(fill, classes, cs[i..], files, buildDir, sep, outcomes)
    {
      assert cs[i..][1..] == cs[i + 1..];
      var step := DocumentClass(fill, classes, cs[i], files, buildDir, sep);
      if step.Err? {
        return Err(step.error);
      }
      outcomes := outcomes + [step.value.0];
      classes := step.value.1;
      i := i + 1;
    }
    return Ok(outcomes);
  }

  // ---------------------------------------------------------------------------
  // execute

  /** The path of the index doxygen writes under the build directory. */
  function IndexXmlPath(buildDir: string, sep: char): string {
    XmlDir(buildDir, sep) + Names.IndexFile
  }

  /** What the documentation steps give: an error when the index path is
      empty, absent from `files` or malformed, and otherwise the class loop
      over the classes of that index. */
  ghost predicate BuildOutcome(fill: Fill, buildDir: string, sep: char, files: map<string, Element>, cs: seq<RcClass>,
                               r: Result<seq<ClassOutcome>>)
  {
    var path := Names.IndexPath(IndexXmlPath(buildDir, sep), sep);
    if path.Err? || path.value !in files || Index.ReadIndex(files[path.value]).Err? then r.Err?
    else r == ClassesFrom(fill, Index.IndexOfRaw(Index.ReadIndex(files[path.value]).value).classes, cs, files, buildDir, sep, [])
  }

  /** The documentation steps of `execute`: the name index read from
      `<build_dir>/xml/index.xml`, then the class loop over it. */
  method DocumentBuild(fill: Fill, buildDir: string, sep: char, files: map<string, Element>, cs: seq<RcClass>)
    returns (r: Result<seq<ClassOutcome>>)
    ensures BuildOutcome(fill, buildDir, sep, files, cs, r)
  {
    var parsed := Index.ParseIndexXml(IndexXmlPath(buildDir, sep), sep, files);
    if parsed.Err? {
      return Err(parsed.error);
    }
    r := DocumentClasses(fill, parsed.value.classes, cs, files, buildDir, sep);
  }

  /** `execute(rc)` up to the registry writes: the doxyfile text, then the
      documentation steps. Running doxygen and writing the doxyfile are not
      modelled; the XML doxygen would write is given as `files`. */
  method Execute(fill: Fill, config: Config.Doxyfile, order: seq<string>, buildDir: string, sep: char,
                 files: map<string, Element>, cs: seq<RcClass>)
    returns (doxyfile: string, r: Result<seq<ClassOutcome>>)
    requires Enumerates(order, config.Keys)
    ensures doxyfile == Config.DoxText(config, order)
    ensures BuildOutcome(fill, buildDir, sep, files, cs, r)
  {
    doxyfile := Config.DoxDictToStr(config, order);
    r := DocumentBuild(fill, buildDir, sep, files, cs);
  }
}
