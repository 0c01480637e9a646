/** `parse_index_xml`: the name index read from doxygen's `index.xml`, one
    entry per class and one per free function, with repeated function
    names within a namespace made distinct by a counter. */
module Index {
  import opened Wrappers
  import opened Strings
  import opened Xml
  import Names

  /** Where a free function is documented: `{'file_name', 'refid', 'namespace'}`. */
  datatype FuncEntry = FuncEntry(fileName: string, refid: string, namespace: Option<string>)

  /** Where a class is documented and its members' names:
      `{'file_name', 'namespace', 'vars', 'methods'}`. */
  datatype ClassEntry = ClassEntry(fileName: string, namespace: string, vars: seq<string>, methods: seq<string>)

  /** The pair `(classes, funcs)` that `parse_index_xml` returns. */
  datatype NameIndex = NameIndex(classes: map<string, ClassEntry>, funcs: map<string, FuncEntry>)

  // ---------------------------------------------------------------------------
  // Reading the index document

  datatype RawFunc = RawFunc(name: string, refid: string)
  datatype RawNamespace = RawNamespace(name: Option<string>, funcs: seq<RawFunc>)
  datatype RawMember = RawMember(name: string, kind: string)
  datatype RawClass = RawClass(qualified: string, refid: string, members: seq<RawMember>)
  datatype RawIndex = RawIndex(namespaces: seq<RawNamespace>, classes: seq<RawClass>)

  /** `filter(lambda i: i.attrib['kind'] == kind, es)`, which raises
      KeyError as soon as one element has no `kind` attribute. */
  function OfKind(es: seq<Element>, kind: string): (r: Result<seq<Element>>)
    ensures r.Ok? <==> forall e :: e in es ==> "kind" in e.attrib
    ensures r.Ok? ==> forall e :: e in r.value <==> e in es && e.attrib["kind"] == kind
  {
    if es == [] then Ok([])
    else
      var k :- Attr(es[0], "kind");
      var rest :- OfKind(es[1..], kind);
      if k == kind then Ok([es[0]] + rest) else Ok(rest)
  }

  /** The filter keeps document order: filtering a concatenation
      concatenates the filtered parts, and it fails when either part fails. */
  lemma {:induction false} OfKindAppend(a: seq<Element>, b: seq<Element>, kind: string)
    ensures OfKind(a + b, kind).Ok? <==> OfKind(a, kind).Ok? && OfKind(b, kind).Ok?
    ensures OfKind(a + b, kind).Ok? ==> OfKind(a + b, kind).value == OfKind(a, kind).value + OfKind(b, kind).value
    decreases a
  {
    if a != [] {
      assert (a + b)[0] == a[0];
      assert (a + b)[1..] == a[1..] + b;
      OfKindAppend(a[1..], b, kind);
    } else {
      assert a + b == b;
    }
  }

  /** One element is kept, once, exactly when it has the kind. */
  lemma OfKindSingle(e: Element, kind: string)
    requires "kind" in e.attrib
    ensures OfKind([e], kind) == if e.attrib["kind"] == kind then Ok([e]) else Ok([])
  {
    assert [e][1..] == [];
    assert OfKind([e][1..], kind) == Ok([]);
    assert [e][0] == e && [e] + [] == [e];
  }

  function ReadFuncs(ms: seq<Element>): (r: Result<seq<RawFunc>>)
    ensures r.Ok? ==> |r.value| == |ms|
  {
    if ms == [] then Ok([])
    else
      var name :- ChildName(ms[0], "name");
      var refid :- Attr(ms[0], "refid");
      var rest :- ReadFuncs(ms[1..]);
      Ok([RawFunc(name, refid)] + rest)
  }

  function ReadNamespace(ns: Element): Result<RawNamespace> {
    var name :- ChildText(ns, "name");
    var members :- OfKind(Iter(ns, "member"), "function");
    var funcs :- ReadFuncs(members);
    Ok(RawNamespace(name, funcs))
  }

  function ReadNamespaces(nss: seq<Element>): Result<seq<RawNamespace>> {
    if nss == [] then Ok([])
    else
      var ns :- ReadNamespace(nss[0]);
      var rest :- ReadNamespaces(nss[1..]);
      Ok([ns] + rest)
  }

  function ReadMembers(ms: seq<Element>): Result<seq<RawMember>> {
    if ms == [] then Ok([])
    else
      var name :- ChildName(ms[0], "name");
      var kind :- Attr(ms[0], "kind");
      var rest :- ReadMembers(ms[1..]);
      Ok([RawMember(name, kind)] + rest)
  }

  function ReadClass(kls: Element): Result<RawClass> {
    var text :- ChildText(kls, "name");
    var qualified :- if text.Some? then Ok(text.value) else Err(AttributeError("split"));
    var refid :- Attr(kls, "refid");
    var members :- ReadMembers(Iter(kls, "member"));
    Ok(RawClass(qualified, refid, members))
  }

  function ReadClasses(cs: seq<Element>): Result<seq<RawClass>> {
    if cs == [] then Ok([])
    else
      var c :- ReadClass(cs[0]);
      var rest :- ReadClasses(cs[1..]);
      Ok([c] + rest)
  }

  /** Everything `parse_index_xml` reads from the document, in the order it
      reads it: both compound filters first, then the namespaces, then the
      classes. */
  function ReadIndex(root: Element): Result<RawIndex> {
    var compounds := Iter(root, "compound");
    var classList :- OfKind(compounds, "class");
    var namespaces :- OfKind(compounds, "namespace");
    var nss :- ReadNamespaces(namespaces);
    var cls :- ReadClasses(classList);
    Ok(RawIndex(nss, cls))
  }

  // ---------------------------------------------------------------------------
  // The overload counter

  /** How many of the first `i` functions of a namespace are named `x`. */
  function Occurrences(fs: seq<RawFunc>, i: nat, x: string): nat
    requires i <= |fs|
  {
    if i == 0 then 0 else Occurrences(fs, i - 1, x) + (if fs[i - 1].name == x then 1 else 0)
  }

  /** The name the `i`-th function of a namespace is stored under: the
      first function with a name keeps it, the k-th (k >= 2) gets
      `str(k - 1)` appended. */
  function DecoratedName(fs: seq<RawFunc>, i: nat): string
    requires i < |fs|
  {
    var k := Occurrences(fs, i, fs[i].name);
    if k == 0 then fs[i].name else fs[i].name + NatToString(k)
  }

  /** `'namespace%s.xml' % ns_name`, which spells a missing name `None`. */
  function NamespaceFile(name: Option<string>): (f: string)
    ensures StartsWith(f, "namespace") && EndsWith(f, ".xml")
    ensures name.Some? ==> f == "namespace" + name.value + ".xml"
  {
    "namespace" + Show(name) + ".xml"
  }

  /** `funcs` after the first `n` functions of namespace `ns` were stored. */
  function NamespaceFuncs(funcs: map<string, FuncEntry>, ns: RawNamespace, n: nat): map<string, FuncEntry>
    requires n <= |ns.funcs|
  {
    if n == 0 then funcs
    else
      var f := ns.funcs[n - 1];
      NamespaceFuncs(funcs, ns, n - 1)[DecoratedName(ns.funcs, n - 1) := FuncEntry(NamespaceFile(ns.name), f.refid, ns.name)]
  }

  function AllFuncs(funcs: map<string, FuncEntry>, nss: seq<RawNamespace>): map<string, FuncEntry>
    decreases nss
  {
    if nss == [] then funcs else AllFuncs(NamespaceFuncs(funcs, nss[0], |nss[0].funcs|), nss[1..])
  }

  /** `f_name_cnts` after the first `i` functions: how often each name has
      been seen so far, with no entry for the names not seen. */
  ghost predicate CountsAfter(counts: map<string, nat>, fs: seq<RawFunc>, i: nat)
    requires i <= |fs|
  {
    && (forall x :: x in counts <==> Occurrences(fs, i, x) > 0)
    && (forall x :: x in counts ==> counts[x] == Occurrences(fs, i, x))
  }

  /** The counter update for function `i`, with the name it is stored under. */
  method CountName(counts: map<string, nat>, fs: seq<RawFunc>, i: nat) returns (next: map<string, nat>, fName: string)
    requires i < |fs| && CountsAfter(counts, fs, i)
    ensures CountsAfter(next, fs, i + 1)
    ensures fName == DecoratedName(fs, i)
  {
    fName := fs[i].name;
    if fName in counts {
      var orig := fName;
      fName := fName + NatToString(counts[fName]);
      next := counts[orig := counts[orig] + 1];
    } else {
      next := counts[fName := 1];
    }
  }

  /** The loop over one namespace's functions, with its counter dictionary
      `f_name_cnts`, which starts empty for every namespace. */
  method AddNamespaceFuncs(funcs: map<string, FuncEntry>, ns: RawNamespace) returns (r: map<string, FuncEntry>)
    ensures r == NamespaceFuncs(funcs, ns, |ns.funcs|)
  {
    var counts: map<string, nat> := map[];
    var fileName := NamespaceFile(ns.name);
    r := funcs;
    var i := 0;
    while i < |ns.funcs|
      invariant 0 <= i <= |ns.funcs|
      invariant CountsAfter(counts, ns.funcs, i)
      invariant r == NamespaceFuncs(funcs, ns, i)
    {
      var k := ns.funcs[i];
      var fName;
      counts, fName := CountName(counts, ns.funcs, i);
      r := r[fName := FuncEntry(fileName, k.refid, ns.name)];
      i := i + 1;
    }
  }

  lemma {:induction false} OccurrencesMonotone(fs: seq<RawFunc>, i: nat, j: nat, x: string)
    requires i <= j <= |fs|
    ensures Occurrences(fs, i, x) <= Occurrences(fs, j, x)
    ensures i < j && fs[i].name == x ==> Occurrences(fs, i, x) < Occurrences(fs, j, x)
    decreases j - i
  {
    if i < j {
      OccurrencesMonotone(fs, i, j - 1, x);
      if fs[i].name == x && i + 1 < j {
        OccurrencesMonotone(fs, i + 1, j - 1, x);
      }
    }
  }

  /** The positions below `i` of the functions named `x`. */
  ghost function EarlierWith(fs: seq<RawFunc>, i: nat, x: string): set<nat>
    requires i <= |fs|
  {
    set j: nat | j < i && fs[j].name == x
  }

  lemma EarlierWithStep(fs: seq<RawFunc>, i: nat, x: string)
    requires 0 < i <= |fs|
    ensures fs[i - 1].name == x ==> EarlierWith(fs, i, x) == EarlierWith(fs, i - 1, x) + {i - 1}
    ensures fs[i - 1].name != x ==> EarlierWith(fs, i, x) == EarlierWith(fs, i - 1, x)
  {
  }

  /** `Occurrences` counts the earlier functions of that name. */
  lemma {:induction false} OccurrencesCount(fs: seq<RawFunc>, i: nat, x: string)
    requires i <= |fs|
    ensures Occurrences(fs, i, x) == |EarlierWith(fs, i, x)|
  {
    if i > 0 {
      OccurrencesCount(fs, i - 1, x);
      EarlierWithStep(fs, i, x);
      var prev := EarlierWith(fs, i - 1, x);
      if fs[i - 1].name == x {
        assert i - 1 !in prev;
        assert |prev + {i - 1}| == |prev| + 1;
      }
    }
  }

  /** A function keeps its name exactly when no earlier function of the
      namespace has it; otherwise the number of earlier ones is appended. */
  lemma DecoratedNameSpec(fs: seq<RawFunc>, i: nat)
    requires i < |fs|
    ensures var k := |EarlierWith(fs, i, fs[i].name)|;
      && (DecoratedName(fs, i) == fs[i].name <==> k == 0)
      && (k > 0 ==> DecoratedName(fs, i) == fs[i].name + NatToString(k))
  {
    OccurrencesCount(fs, i, fs[i].name);
  }

  /** Two functions of one namespace with the same name are stored under
      different names. */
  lemma DecoratedDistinct(fs: seq<RawFunc>, i: nat, j: nat)
    requires i < j < |fs| && fs[i].name == fs[j].name
    ensures DecoratedName(fs, i) != DecoratedName(fs, j)
  {
    var x := fs[i].name;
    OccurrencesMonotone(fs, i, j, x);
    var a := Occurrences(fs, i, x);
    var b := Occurrences(fs, j, x);
    if a > 0 && DecoratedName(fs, i) == DecoratedName(fs, j) {
      assert (x + NatToString(a))[|x|..] == NatToString(a);
      assert (x + NatToString(b))[|x|..] == NatToString(b);
      NatToStringInjective(a, b);
    }
  }

  /** Every function of a namespace is stored, each under its decorated
      name, and nothing else changes. */
  lemma {:induction false} NamespaceFuncsKeys(funcs: map<string, FuncEntry>, ns: RawNamespace, n: nat)
    requires n <= |ns.funcs|
    ensures NamespaceFuncs(funcs, ns, n).Keys == funcs.Keys + set i | 0 <= i < n :: DecoratedName(ns.funcs, i)
    ensures forall k :: k in funcs && (forall i :: 0 <= i < n ==> DecoratedName(ns.funcs, i) != k) ==>
      NamespaceFuncs(funcs, ns, n)[k] == funcs[k]
  {
    if n > 0 {
      NamespaceFuncsKeys(funcs, ns, n - 1);
      var prev := set i | 0 <= i < n - 1 :: DecoratedName(ns.funcs, i);
      assert (set i | 0 <= i < n :: DecoratedName(ns.funcs, i)) == prev + {DecoratedName(ns.funcs, n - 1)};
    }
  }

  /** The counter works per namespace only and its suffixes can meet a real
      name: `f1`, `f`, `f` in one namespace leave two entries, because the
      second `f` is stored as `f1` over the first function. */
  lemma CounterCollision()
    ensures var ns := RawNamespace(Some("n"), [RawFunc("f1", "a"), RawFunc("f", "b"), RawFunc("f", "c")]);
      NamespaceFuncs(map[], ns, 3) == map["f1" := FuncEntry("namespacen.xml", "c", Some("n")), "f" := FuncEntry("namespacen.xml", "b", Some("n"))]
  {
    var ns := RawNamespace(Some("n"), [RawFunc("f1", "a"), RawFunc("f", "b"), RawFunc("f", "c")]);
    assert Occurrences(ns.funcs, 2, "f") == 1;
    assert NatToString(1) == "1";
    assert DecoratedName(ns.funcs, 2) == "f1";
    assert DecoratedName(ns.funcs, 1) == "f";
    assert DecoratedName(ns.funcs, 0) == "f1";
    var e := "namespacen.xml";
    assert NamespaceFile(ns.name) == e;
    assert NamespaceFuncs(map[], ns, 0) == map[];
    assert NamespaceFuncs(map[], ns, 1) == map["f1" := FuncEntry(e, "a", Some("n"))];
    assert NamespaceFuncs(map[], ns, 2) == map["f1" := FuncEntry(e, "a", Some("n")), "f" := FuncEntry(e, "b", Some("n"))];
  }

  // ---------------------------------------------------------------------------
  // Classes

  /** The names of the members of one kind, in document order. */
  function NamesOfKind(ms: seq<RawMember>, kind: string): (names: seq<string>)
    ensures forall x :: x in names <==> exists m :: m in ms && m.kind == kind && m.name == x
  {
    if ms == [] then []
    else
      var last := ms[|ms| - 1];
      var init := NamesOfKind(ms[..|ms| - 1], kind);
      assert forall m :: m in ms <==> m in ms[..|ms| - 1] || m == last;
      if last.kind == kind then init + [last.name] else init
  }

  /** Names are listed in document order: the names of a concatenation
      are the names of its parts, one after the other. */
  lemma {:induction false} NamesOfKindAppend(a: seq<RawMember>, b: seq<RawMember>, kind: string)
    ensures NamesOfKind(a + b, kind) == NamesOfKind(a, kind) + NamesOfKind(b, kind)
    decreases b
  {
    if b == [] {
      assert a + b == a;
    } else {
      var init := b[..|b| - 1];
      assert (a + b)[..|a + b| - 1] == a + init;
      assert (a + b)[|a + b| - 1] == b[|b| - 1];
      NamesOfKindAppend(a, init, kind);
    }
  }

  /** One member contributes its name exactly when it has the kind. */
  lemma NamesOfKindSingle(m: RawMember, kind: string)
    ensures NamesOfKind([m], kind) == if m.kind == kind then [m.name] else []
  {
    assert [m][..0] == [];
  }

  function ClassEntryOf(c: RawClass): ClassEntry {
    ClassEntry(c.refid, Names.Namespace(c.qualified),
               NamesOfKind(c.members, "variable"), NamesOfKind(c.members, "function"))
  }

  function AllClasses(classes: map<string, ClassEntry>, cs: seq<RawClass>): map<string, ClassEntry>
    decreases cs
  {
    if cs == [] then classes
    else AllClasses(classes[Names.ClassName(cs[0].qualified) := ClassEntryOf(cs[0])], cs[1..])
  }

  /** The body of the class loop: name, namespace and the two member lists. */
  method IndexClass(c: RawClass) returns (name: string, entry: ClassEntry)
    ensures name == Names.ClassName(c.qualified)
    ensures entry == ClassEntryOf(c)
  {
    name := Names.ClassName(c.qualified);
    var ns := Names.Namespace(c.qualified);
    var vars: seq<string> := [];
    var methods: seq<string> := [];
    var i := 0;
    while i < |c.members|
      invariant 0 <= i <= |c.members|
      invariant vars == NamesOfKind(c.members[..i], "variable")
      invariant methods == NamesOfKind(c.members[..i], "function")
    {
      var mem := c.members[i];
      assert c.members[..i + 1][..i] == c.members[..i];
      if mem.kind == "variable" {
        vars := vars + [mem.name];
      } else if mem.kind == "function" {
        methods := methods + [mem.name];
      }
      i := i + 1;
    }
    assert c.members[..i] == c.members;
    entry := ClassEntry(c.refid, ns, vars, methods);
  }

  // ---------------------------------------------------------------------------
  // The whole index

  function IndexOfRaw(raw: RawIndex): NameIndex {
    NameIndex(AllClasses(map[], raw.classes), AllFuncs(map[], raw.namespaces))
  }

  method BuildIndex(raw: RawIndex) returns (index: NameIndex)
    ensures index == IndexOfRaw(raw)
  {
    var funcs: map<string, FuncEntry> := map[];
    var classes: map<string, ClassEntry> := map[];
    var i := 0;
    while i < |raw.namespaces|
      invariant 0 <= i <= |raw.namespaces|
      invariant AllFuncs(map[], raw.namespaces) == AllFuncs(funcs, raw.namespaces[i..])
    {
      assert raw.namespaces[i..][1..] == raw.namespaces[i + 1..];
      funcs := AddNamespaceFuncs(funcs, raw.namespaces[i]);
      i := i + 1;
    }
    var j := 0;
    while j < |raw.classes|
      invariant 0 <= j <= |raw.classes|
      invariant AllClasses(map[], raw.classes) == AllClasses(classes, raw.classes[j..])
    {
      assert raw.classes[j..][1..] == raw.classes[j + 1..];
      var name, entry := IndexClass(raw.classes[j]);
      classes := classes[name := entry];
      j := j + 1;
    }
    index := NameIndex(classes, funcs);
  }

  /** `parse_index_xml(index_path)`, with the parsed documents given as a
      map from file path to document element; a path not in it is a file
      that cannot be opened. */
  method ParseIndexXml(indexPath: string, sep: char, files: map<string, Element>) returns (r: Result<NameIndex>)
    ensures r.Err? <==> (Names.IndexPath(indexPath, sep).Err? || Names.IndexPath(indexPath, sep).value !in files
                         || ReadIndex(files[Names.IndexPath(indexPath, sep).value]).Err?)
    ensures r.Ok? ==> r.value == IndexOfRaw(ReadIndex(files[Names.IndexPath(indexPath, sep).value]).value)
  {
    var path := Names.IndexPath(indexPath, sep);
    if path.Err? {
      return Err(path.error);
    }
    if path.value !in files {
      return Err(IOError(path.value));
    }
    var raw := ReadIndex(files[path.value]);
    if raw.Err? {
      return Err(raw.error);
    }
    var index := BuildIndex(raw.value);
    return Ok(index);
  }
}
