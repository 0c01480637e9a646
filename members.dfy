/** `_parse_func`, `_parse_variable` and `_parse_common`: the member
    dictionaries built from one `memberdef` element. */
module Members {
  import opened Wrappers
  import opened Xml

  /** Whether an argument got a `'desc'` key, and its text when it did. */
  datatype Described = Undescribed | Described(text: Option<string>)

  /** `args[name]`: `{'type': ...}` plus an optional `'desc'`. */
  datatype Arg = Arg(argType: Option<string>, desc: Described)

  /** The keys `_parse_func` or `_parse_variable` fill in. */
  datatype Specific =
    | FuncPart(detailed: Option<string>, retType: Option<string>, args: Option<map<string, Arg>>, argString: Option<string>)
    | VarPart(detailed: Option<string>, varType: Option<string>)

  /** A member dictionary once `_parse_common` added `briefdescription`
      and `definition`. */
  datatype Member = Member(specific: Specific, brief: string, definition: Option<string>)

  // ---------------------------------------------------------------------------
  // _parse_func

  /** The detailed text and, with two paragraphs, the `arg_dict` of
      parameter descriptions. */
  datatype Paragraphs = Paragraphs(detailed: Option<string>, argDocs: Option<map<string, Option<string>>>)

  /** One `parameteritem`: its name and the text of its description's first paragraph. */
  function ParamDoc(item: Element): Result<(string, Option<string>)> {
    var names :- Child(item, "parameternamelist");
    var name :- ChildName(names, "parametername");
    var descs :- Child(item, "parameterdescription");
    var desc :- ChildText(descs, "para");
    Ok((name, desc))
  }

  /** The `arg_dict` loop, continued from `docs` over `items`. */
  function ParamDocsFrom(items: seq<Element>, docs: map<string, Option<string>>): Result<map<string, Option<string>>>
    decreases items
  {
    if items == [] then Ok(docs)
    else
      var d :- ParamDoc(items[0]);
      ParamDocsFrom(items[1..], docs[d.0 := d.1])
  }

  /** One item documents the text of its `parametername` with the text of
      its description's first paragraph, and fails when one is missing. */
  lemma ParamDocFields(item: Element)
    ensures var r := ParamDoc(item);
      && (r.Ok? <==> (&& Find(item, "parameternamelist").Some?
                      && ChildName(Find(item, "parameternamelist").value, "parametername").Ok?
                      && Find(item, "parameterdescription").Some?
                      && Find(Find(item, "parameterdescription").value, "para").Some?))
      && (r.Ok? ==> r.value == (ChildName(Find(item, "parameternamelist").value, "parametername").value,
                                Find(Find(item, "parameterdescription").value, "para").value.text))
  {
  }

  /** The parameter names the items document. */
  ghost function DocNames(items: seq<Element>): set<string> {
    set i | 0 <= i < |items| && ParamDoc(items[i]).Ok? :: ParamDoc(items[i]).value.0
  }

  /** Item `i` is the last one documenting its name. */
  ghost predicate LastDocumenting(items: seq<Element>, i: nat)
    requires i < |items|
  {
    ParamDoc(items[i]).Ok?
    && forall j :: i < j < |items| && ParamDoc(items[j]).Ok? ==> ParamDoc(items[j]).value.0 != ParamDoc(items[i]).value.0
  }

  lemma DocNamesCons(items: seq<Element>)
    requires items != [] && ParamDoc(items[0]).Ok?
    ensures DocNames(items) == {ParamDoc(items[0]).value.0} + DocNames(items[1..])
  {
    var rest := items[1..];
    forall n | n in DocNames(items) ensures n in {ParamDoc(items[0]).value.0} + DocNames(rest) {
      var i :| 0 <= i < |items| && ParamDoc(items[i]).Ok? && ParamDoc(items[i]).value.0 == n;
      if i > 0 { assert items[i] == rest[i - 1]; }
    }
    forall n | n in DocNames(rest) ensures n in DocNames(items) {
      var i :| 0 <= i < |rest| && ParamDoc(rest[i]).Ok? && ParamDoc(rest[i]).value.0 == n;
      assert items[i + 1] == rest[i];
    }
  }

  /** A loop that finishes read every item. */
  lemma {:induction false} ParamDocsFromOk(items: seq<Element>, docs: map<string, Option<string>>)
    ensures ParamDocsFrom(items, docs).Ok? ==> forall i :: 0 <= i < |items| ==> ParamDoc(items[i]).Ok?
    decreases items
  {
    if items != [] && ParamDocsFrom(items, docs).Ok? {
      var d := ParamDoc(items[0]).value;
      ParamDocsFromOk(items[1..], docs[d.0 := d.1]);
      assert forall i :: 0 < i < |items| ==> items[i] == items[1..][i - 1];
    }
  }

  /** The `arg_dict` loop adds exactly the documented names. */
  lemma {:induction false} ParamDocsFromKeys(items: seq<Element>, docs: map<string, Option<string>>)
    ensures var r := ParamDocsFrom(items, docs);
      r.Ok? ==> r.value.Keys == docs.Keys + DocNames(items)
    decreases items
  {
    var r := ParamDocsFrom(items, docs);
    if items != [] && r.Ok? {
      var d := ParamDoc(items[0]).value;
      ParamDocsFromKeys(items[1..], docs[d.0 := d.1]);
      DocNamesCons(items);
    }
  }

  /** Each documented name holds the description of the last item
      documenting it. */
  lemma {:induction false} ParamDocsFromLast(items: seq<Element>, docs: map<string, Option<string>>)
    ensures var r := ParamDocsFrom(items, docs);
      r.Ok? ==> forall i :: 0 <= i < |items| && LastDocumenting(items, i) ==>
        ParamDoc(items[i]).value.0 in r.value && r.value[ParamDoc(items[i]).value.0] == ParamDoc(items[i]).value.1
    decreases items
  {
    var r := ParamDocsFrom(items, docs);
    if items != [] && r.Ok? {
      var d := ParamDoc(items[0]).value;
      var rest := items[1..];
      var next := docs[d.0 := d.1];
      ParamDocsFromLast(rest, next);
      forall i | 0 < i < |items| && LastDocumenting(items, i)
        ensures LastDocumenting(rest, i - 1) && items[i] == rest[i - 1]
      {
        LastDocumentingTail(items, i);
      }
      if LastDocumenting(items, 0) {
        ParamDocsFromKept(rest, next);
        LastDocumentingFirst(items);
      }
    }
  }

  /** Being the last to document a name survives dropping the first item. */
  lemma LastDocumentingTail(items: seq<Element>, i: nat)
    requires 0 < i < |items| && LastDocumenting(items, i)
    ensures LastDocumenting(items[1..], i - 1) && items[i] == items[1..][i - 1]
  {
    var rest := items[1..];
    forall j | i - 1 < j < |rest| && ParamDoc(rest[j]).Ok?
      ensures ParamDoc(rest[j]).value.0 != ParamDoc(rest[i - 1]).value.0
    {
      assert rest[j] == items[j + 1];
    }
  }

  /** When the first item is the last to document its name, no later item documents it. */
  lemma LastDocumentingFirst(items: seq<Element>)
    requires items != [] && LastDocumenting(items, 0)
    ensures ParamDoc(items[0]).value.0 !in DocNames(items[1..])
  {
    var rest := items[1..];
    forall j | 0 <= j < |rest| && ParamDoc(rest[j]).Ok?
      ensures ParamDoc(rest[j]).value.0 != ParamDoc(items[0]).value.0
    {
      assert rest[j] == items[j + 1];
    }
  }

  /** The entries the loop started from that no item documents are kept. */
  lemma {:induction false} ParamDocsFromKept(items: seq<Element>, docs: map<string, Option<string>>)
    ensures var r := ParamDocsFrom(items, docs);
      r.Ok? ==> forall k :: k in docs && k !in DocNames(items) ==> k in r.value && r.value[k] == docs[k]
    decreases items
  {
    var r := ParamDocsFrom(items, docs);
    if items != [] && r.Ok? {
      var d := ParamDoc(items[0]).value;
      ParamDocsFromKept(items[1..], docs[d.0 := d.1]);
      DocNamesCons(items);
    }
  }

  /** The branch on the number of detailed-description paragraphs. */
  function ParagraphsOf(dd: Element): Result<Paragraphs> {
    var paras := FindAll(dd, "para");
    if |paras| == 1 then Ok(Paragraphs(paras[0].text, None))
    else if |paras| == 2 then
      var list :- Child(paras[1], "parameterlist");
      var docs :- ParamDocsFrom(FindAll(list, "parameteritem"), map[]);
      Ok(Paragraphs(paras[0].text, Some(docs)))
    else Ok(Paragraphs(Some(""), None))
  }

  /** `args[arg_name]['desc'] = arg_dict[arg_name]` when there is an `arg_dict`. */
  function ArgDesc(name: string, argDocs: Option<map<string, Option<string>>>): (r: Result<Described>)
    ensures r.Err? <==> argDocs.Some? && name !in argDocs.value
    ensures r.Ok? ==> r.value == if argDocs.None? then Undescribed else Described(argDocs.value[name])
  {
    if argDocs.None? then Ok(Undescribed)
    else if name in argDocs.value then Ok(Described(argDocs.value[name]))
    else Err(KeyError(name))
  }

  /** The `args` loop, continued from `args` over `params`: every param
      stores its type, and its description when there is an `arg_dict`. */
  function ArgsFrom(params: seq<Element>, argDocs: Option<map<string, Option<string>>>, args: map<string, Arg>): Result<map<string, Arg>>
    decreases params
  {
    if params == [] then Ok(args)
    else
      var name :- ChildName(params[0], "declname");
      var t :- ChildText(params[0], "type");
      var desc :- ArgDesc(name, argDocs);
      ArgsFrom(params[1..], argDocs, args[name := Arg(t, desc)])
  }

  /** What `_parse_func` returns, or the exception it raises. */
  function FuncFields(f: Element): (r: Result<Specific>)
    ensures r.Ok? ==> r.value.FuncPart?
  {
    var dd :- Child(f, "detaileddescription");
    var p :- ParagraphsOf(dd);
    var ret :- ChildText(f, "type");
    var args :- ArgsFrom(FindAll(f, "param"), p.argDocs, map[]);
    var argString :- ChildText(f, "argsstring");
    Ok(FuncPart(p.detailed, ret, if |args| == 0 then None else Some(args), argString))
  }

  /** The `arg_dict` loop over the parameter items of the second paragraph. */
  method ReadParamDocs(items: seq<Element>) returns (r: Result<map<string, Option<string>>>)
    ensures r == ParamDocsFrom(items, map[])
    ensures r.Ok? ==> r.value.Keys == DocNames(items)
    ensures r.Ok? ==> forall i :: 0 <= i < |items| && LastDocumenting(items, i) ==>
      ParamDoc(items[i]).value.0 in r.value && r.value[ParamDoc(items[i]).value.0] == ParamDoc(items[i]).value.1
  {
    ParamDocsFromKeys(items, map[]);
    ParamDocsFromLast(items, map[]);
    var docs: map<string, Option<string>> := map[];
    var i := 0;
    while i < |items|
      invariant 0 <= i <= |items|
      invariant ParamDocsFrom(items, map[]) == ParamDocsFrom(items[i..], docs)
    {
      assert items[i..][1..] == items[i + 1..];
      var d := ParamDoc(items[i]);
      if d.Err? {
        return Err(d.error);
      }
      docs := docs[d.value.0 := d.value.1];
      i := i + 1;
    }
    return Ok(docs);
  }

  method ReadParagraphs(dd: Element) returns (r: Result<Paragraphs>)
    ensures r == ParagraphsOf(dd)
  {
    var paras := FindAll(dd, "para");
    if |paras| == 1 {
      return Ok(Paragraphs(paras[0].text, None));
    } else if |paras| == 2 {
      var list := Child(paras[1], "parameterlist");
      if list.Err? {
        return Err(list.error);
      }
      var docs := ReadParamDocs(FindAll(list.value, "parameteritem"));
      if docs.Err? {
        return Err(docs.error);
      }
      return Ok(Paragraphs(paras[0].text, Some(docs.value)));
    } else {
      return Ok(Paragraphs(Some(""), None));
    }
  }

  /** The `args` loop over the `param` elements. */
  method ReadArgs(params: seq<Element>, argDocs: Option<map<string, Option<string>>>) returns (r: Result<map<string, Arg>>)
    ensures r == ArgsFrom(params, argDocs, map[])
    ensures r.Ok? ==> r.value.Keys == DeclNames(params) && DescribedBy(r.value, argDocs)
    ensures r.Ok? ==> forall i :: 0 <= i < |params| && LastDeclaring(params, i) ==>
      && ChildName(params[i], "declname").value in r.value && Find(params[i], "type").Some?
      && r.value[ChildName(params[i], "declname").value].argType == Find(params[i], "type").value.text
  {
    ArgsFromKeys(params, argDocs, map[]);
    ArgsFromTypes(params, argDocs, map[]);
    ArgsFromProps(params, argDocs, map[]);
    var args: map<string, Arg> := map[];
    var j := 0;
    while j < |params|
      invariant 0 <= j <= |params|
      invariant ArgsFrom(params, argDocs, map[]) == ArgsFrom(params[j..], argDocs, args)
    {
      assert params[j..][1..] == params[j + 1..];
      var name := ChildName(params[j], "declname");
      if name.Err? {
        return Err(name.error);
      }
      var t := ChildText(params[j], "type");
      if t.Err? {
        return Err(t.error);
      }
      var desc := ArgDesc(name.value, argDocs);
      if desc.Err? {
        return Err(desc.error);
      }
      args := args[name.value := Arg(t.value, desc.value)];
      j := j + 1;
    }
    return Ok(args);
  }

  /** `_parse_func(f_xml)`. */
  method ParseFunc(f: Element) returns (r: Result<Specific>)
    ensures r == FuncFields(f)
  {
    var dd := Child(f, "detaileddescription");
    if dd.Err? {
      return Err(dd.error);
    }
    var p := ReadParagraphs(dd.value);
    if p.Err? {
      return Err(p.error);
    }
    var ret := ChildText(f, "type");
    if ret.Err? {
      return Err(ret.error);
    }
    var args := ReadArgs(FindAll(f, "param"), p.value.argDocs);
    if args.Err? {
      return Err(args.error);
    }
    var argString := ChildText(f, "argsstring");
    if argString.Err? {
      return Err(argString.error);
    }
    return Ok(FuncPart(p.value.detailed, ret.value, if |args.value| == 0 then None else Some(args.value), argString.value));
  }

  /** Every stored argument carries a description exactly when there is an
      `arg_dict`, and then the one documented under its name. */
  ghost predicate DescribedBy(args: map<string, Arg>, argDocs: Option<map<string, Option<string>>>) {
    forall n :: n in args ==>
      if argDocs.None? then args[n].desc == Undescribed
      else n in argDocs.value && args[n].desc == Described(argDocs.value[n])
  }

  lemma {:induction false} ArgsFromProps(params: seq<Element>, argDocs: Option<map<string, Option<string>>>, args: map<string, Arg>)
    requires DescribedBy(args, argDocs)
    ensures var r := ArgsFrom(params, argDocs, args);
      r.Ok? ==> (DescribedBy(r.value, argDocs) && args.Keys <= r.value.Keys
             && (forall p :: p in params ==> ChildName(p, "declname").Ok? && ChildName(p, "declname").value in r.value))
    decreases params
  {
    if params != [] {
      var name := ChildName(params[0], "declname");
      var t := ChildText(params[0], "type");
      var desc := ArgDesc(if name.Ok? then name.value else "", argDocs);
      if name.Ok? && t.Ok? && desc.Ok? {
        var next := args[name.value := Arg(t.value, desc.value)];
        ArgsFromProps(params[1..], argDocs, next);
        var r := ArgsFrom(params[1..], argDocs, next);
        if r.Ok? {
          assert name.value in r.value.Keys;
          assert forall p :: p in params ==> p == params[0] || p in params[1..];
        }
      }
    }
  }

  /** The `declname` texts of the params. */
  ghost function DeclNames(params: seq<Element>): set<string> {
    set i | 0 <= i < |params| && ChildName(params[i], "declname").Ok? :: ChildName(params[i], "declname").value
  }

  /** Param `i` is the last one declaring its name. */
  ghost predicate LastDeclaring(params: seq<Element>, i: nat)
    requires i < |params|
  {
    ChildName(params[i], "declname").Ok?
    && forall j :: i < j < |params| && ChildName(params[j], "declname").Ok? ==>
         ChildName(params[j], "declname").value != ChildName(params[i], "declname").value
  }

  lemma DeclNamesCons(params: seq<Element>)
    requires params != [] && ChildName(params[0], "declname").Ok?
    ensures DeclNames(params) == {ChildName(params[0], "declname").value} + DeclNames(params[1..])
  {
    var rest := params[1..];
    forall n | n in DeclNames(params) ensures n in {ChildName(params[0], "declname").value} + DeclNames(rest) {
      var i :| 0 <= i < |params| && ChildName(params[i], "declname").Ok? && ChildName(params[i], "declname").value == n;
      if i > 0 { assert params[i] == rest[i - 1]; }
    }
    forall n | n in DeclNames(rest) ensures n in DeclNames(params) {
      var i :| 0 <= i < |rest| && ChildName(rest[i], "declname").Ok? && ChildName(rest[i], "declname").value == n;
      assert params[i + 1] == rest[i];
    }
  }

  /** The `args` loop adds exactly the declared names. */
  lemma {:induction false} ArgsFromKeys(params: seq<Element>, argDocs: Option<map<string, Option<string>>>, args: map<string, Arg>)
    ensures var r := ArgsFrom(params, argDocs, args);
      r.Ok? ==> r.value.Keys == args.Keys + DeclNames(params)
    decreases params
  {
    var r := ArgsFrom(params, argDocs, args);
    if params != [] && r.Ok? {
      var name := ChildName(params[0], "declname").value;
      var next := args[name := Arg(ChildText(params[0], "type").value, ArgDesc(name, argDocs).value)];
      ArgsFromKeys(params[1..], argDocs, next);
      DeclNamesCons(params);
    }
  }

  /** Entries the loop started from that no param declares are kept. */
  lemma {:induction false} ArgsFromKept(params: seq<Element>, argDocs: Option<map<string, Option<string>>>, args: map<string, Arg>)
    ensures var r := ArgsFrom(params, argDocs, args);
      r.Ok? ==> forall k :: k in args && k !in DeclNames(params) ==> k in r.value && r.value[k] == args[k]
    decreases params
  {
    var r := ArgsFrom(params, argDocs, args);
    if params != [] && r.Ok? {
      var name := ChildName(params[0], "declname").value;
      var next := args[name := Arg(ChildText(params[0], "type").value, ArgDesc(name, argDocs).value)];
      ArgsFromKept(params[1..], argDocs, next);
      DeclNamesCons(params);
    }
  }

  /** Each declared name holds the `type` text of the last param declaring it. */
  lemma {:induction false} ArgsFromTypes(params: seq<Element>, argDocs: Option<map<string, Option<string>>>, args: map<string, Arg>)
    ensures var r := ArgsFrom(params, argDocs, args);
      r.Ok? ==> forall i :: 0 <= i < |params| && LastDeclaring(params, i) ==>
        && Find(params[i], "type").Some?
        && ChildName(params[i], "declname").value in r.value
        && r.value[ChildName(params[i], "declname").value].argType == Find(params[i], "type").value.text
    decreases params
  {
    var r := ArgsFrom(params, argDocs, args);
    if params != [] && r.Ok? {
      var name := ChildName(params[0], "declname").value;
      var rest := params[1..];
      var next := args[name := Arg(ChildText(params[0], "type").value, ArgDesc(name, argDocs).value)];
      ArgsFromTypes(rest, argDocs, next);
      forall i | 0 < i < |params| && LastDeclaring(params, i)
        ensures LastDeclaring(rest, i - 1) && params[i] == rest[i - 1]
      {
        LastDeclaringTail(params, i);
      }
      if LastDeclaring(params, 0) {
        ArgsFromKept(rest, argDocs, next);
        LastDeclaringFirst(params);
      }
    }
  }

  /** Being the last to declare a name survives dropping the first param. */
  lemma LastDeclaringTail(params: seq<Element>, i: nat)
    requires 0 < i < |params| && LastDeclaring(params, i)
    ensures LastDeclaring(params[1..], i - 1) && params[i] == params[1..][i - 1]
  {
    var rest := params[1..];
    forall j | i - 1 < j < |rest| && ChildName(rest[j], "declname").Ok?
      ensures ChildName(rest[j], "declname").value != ChildName(rest[i - 1], "declname").value
    {
      assert rest[j] == params[j + 1];
    }
  }

  /** When the first param is the last to declare its name, no later param declares it. */
  lemma LastDeclaringFirst(params: seq<Element>)
    requires params != [] && LastDeclaring(params, 0)
    ensures ChildName(params[0], "declname").value !in DeclNames(params[1..])
  {
    var rest := params[1..];
    forall j | 0 <= j < |rest| && ChildName(rest[j], "declname").Ok?
      ensures ChildName(rest[j], "declname").value != ChildName(params[0], "declname").value
    {
      assert rest[j] == params[j + 1];
    }
  }

  /** `args` is None exactly when the function has no `param` element. */
  lemma ArgsNoneIffNoParams(f: Element)
    ensures FuncFields(f).Ok? ==> (FuncFields(f).value.args.None? <==> FindAll(f, "param") == [])
  {
    if FuncFields(f).Ok? {
      FuncFieldsParts(f);
      var p := ParagraphsOf(Find(f, "detaileddescription").value).value;
      var params := FindAll(f, "param");
      ArgsFromProps(params, p.argDocs, map[]);
      if params != [] {
        assert params[0] in params;
      }
    }
  }

  /** One detailed paragraph: the detailed text is that paragraph's and
      no argument has a description. */
  lemma OneParagraph(f: Element)
    requires Find(f, "detaileddescription").Some?
    requires |FindAll(Find(f, "detaileddescription").value, "para")| == 1
    ensures var r := FuncFields(f);
      r.Ok? ==> (r.value.detailed == FindAll(Find(f, "detaileddescription").value, "para")[0].text
             && (r.value.args.Some? ==> forall n :: n in r.value.args.value ==> r.value.args.value[n].desc == Undescribed))
  {
    ArgsFromProps(FindAll(f, "param"), None, map[]);
  }

  /** A parsed function's fields come from its paragraphs and its `args` loop. */
  lemma FuncFieldsParts(f: Element)
    ensures var r := FuncFields(f);
      r.Ok? ==> (&& Find(f, "detaileddescription").Some?
                 && var p := ParagraphsOf(Find(f, "detaileddescription").value);
                    && p.Ok?
                    && var args := ArgsFrom(FindAll(f, "param"), p.value.argDocs, map[]);
                       && args.Ok?
                       && r.value.detailed == p.value.detailed
                       && r.value.args == if |args.value| == 0 then None else Some(args.value))
  {
  }

  /** Two detailed paragraphs: the detailed text is the first paragraph's,
      and every argument is documented in the second paragraph's
      parameter list and carries that description. */
  lemma TwoParagraphs(f: Element)
    requires Find(f, "detaileddescription").Some?
    requires |FindAll(Find(f, "detaileddescription").value, "para")| == 2
    ensures var paras := FindAll(Find(f, "detaileddescription").value, "para");
      var r := FuncFields(f);
      r.Ok? ==> (Find(paras[1], "parameterlist").Some?
             && r.value.detailed == paras[0].text
             && var docs := ParamDocsFrom(FindAll(Find(paras[1], "parameterlist").value, "parameteritem"), map[]);
                docs.Ok? && (r.value.args.Some? ==>
                  forall n :: n in r.value.args.value ==> n in docs.value && r.value.args.value[n].desc == Described(docs.value[n]))
                && forall p :: p in FindAll(f, "param") ==> ChildName(p, "declname").Ok? && ChildName(p, "declname").value in docs.value)
  {
    var r := FuncFields(f);
    if r.Ok? {
      FuncFieldsParts(f);
      var dd := Find(f, "detaileddescription").value;
      var paras := FindAll(dd, "para");
      var list := Find(paras[1], "parameterlist").value;
      var docs := ParamDocsFrom(FindAll(list, "parameteritem"), map[]);
      assert ParagraphsOf(dd) == Ok(Paragraphs(paras[0].text, Some(docs.value)));
      ArgsFromProps(FindAll(f, "param"), Some(docs.value), map[]);
    }
  }

  /** Any other number of detailed paragraphs: the detailed text is empty
      and no argument has a description. */
  lemma OtherParagraphCount(f: Element)
    requires Find(f, "detaileddescription").Some?
    requires |FindAll(Find(f, "detaileddescription").value, "para")| !in {1, 2}
    ensures var r := FuncFields(f);
      r.Ok? ==> (r.value.detailed == Some("")
             && (r.value.args.Some? ==> forall n :: n in r.value.args.value ==> r.value.args.value[n].desc == Undescribed))
  {
    ArgsFromProps(FindAll(f, "param"), None, map[]);
  }

  // ---------------------------------------------------------------------------
  // _parse_variable and _parse_common

  /** `_parse_variable(v_xml)`: a missing description or paragraph gives
      `''` (the AttributeError is caught); a missing `type` is not caught. */
  function ParseVariable(v: Element): (r: Result<Specific>)
    ensures r.Ok? <==> Find(v, "type").Some?
    ensures r.Ok? ==> r.value.VarPart? && r.value.varType == Find(v, "type").value.text
    ensures r.Ok? && Find(v, "detaileddescription").None? ==> r.value.detailed == Some("")
    ensures r.Ok? && Find(v, "detaileddescription").Some? ==>
      var p := Find(Find(v, "detaileddescription").value, "para");
      r.value.detailed == (if p.None? then Some("") else p.value.text)
  {
    var detailed :=
      match Find(v, "detaileddescription")
      case None => Some("")
      case Some(dd) =>
        match Find(dd, "para")
        case None => Some("")
        case Some(p) => p.text;
    var t :- ChildText(v, "type");
    Ok(VarPart(detailed, t))
  }

  /** The text of `e.find('briefdescription').find('para')`, `''` when
      either is missing or the paragraph has no text. */
  function BriefText(e: Element): (brief: string)
    ensures Find(e, "briefdescription").None? ==> brief == ""
    ensures Find(e, "briefdescription").Some? && Find(Find(e, "briefdescription").value, "para").None? ==> brief == ""
    ensures brief != "" ==> exists p :: Find(Find(e, "briefdescription").value, "para") == Some(p) && p.text == Some(brief)
    ensures Find(e, "briefdescription").Some? && Find(Find(e, "briefdescription").value, "para").Some? ==>
      brief == Find(Find(e, "briefdescription").value, "para").value.text.GetOr("")
  {
    match Find(e, "briefdescription")
    case None => ""
    case Some(bd) =>
      match Find(bd, "para")
      case None => ""
      case Some(p) => p.text.GetOr("")
  }

  /** `_parse_common(xml, the_dict)`: adds the brief description and the
      definition; only a missing `definition` element raises. */
  function ParseCommon(e: Element, s: Specific): (r: Result<Member>)
    ensures r.Ok? <==> Find(e, "definition").Some?
    ensures r.Ok? ==> r.value == Member(s, BriefText(e), Find(e, "definition").value.text)
  {
    var definition :- ChildText(e, "definition");
    Ok(Member(s, BriefText(e), definition))
  }
}
