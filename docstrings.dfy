/** `func_docstr` and `class_docstr`: numpydoc-style docstrings assembled
    from the parsed member dictionaries. Text wrapping is `TextWrapper.fill`,
    which this model takes as a function parameter and does not interpret. */
module Docstrings {
  import opened Wrappers
  import opened Strings
  import opened Members
  import Names
  import Classes

  /** The settings of a `TextWrapper`: width, initial and subsequent indent. */
  datatype Wrapper = Wrapper(width: nat, initialIndent: nat, subsequentIndent: nat)

  /** `wrap_68`: the body of a class or function docstring. */
  const Wrap68 := Wrapper(68, 0, 0)
  /** `wrap_64`: the body of a method docstring. */
  const Wrap64 := Wrapper(64, 0, 0)
  /** `attrib_wrap`: one attribute or method in a class's lists. */
  const AttribWrap := Wrapper(64, 0, 4)

  /** `wrapper.fill(text)`. */
  type Fill = (Wrapper, string) -> string

  // ---------------------------------------------------------------------------
  // The method list of class_docstr

  /** `insert(1, pop())` on a list. */
  function MoveLastToSecond(s: seq<string>): (r: seq<string>)
    ensures |r| == |s|
  {
    if |s| <= 1 then s else [s[0], s[|s| - 1]] + s[1..|s| - 1]
  }

  /** Moving the largest of a sorted list to second place keeps the
      elements, keeps them distinct, and leaves the smallest first and the
      others ascending. */
  lemma MoveLastToSecondProps(s: seq<string>)
    requires StrictlySorted(s)
    ensures var r := MoveLastToSecond(s);
      && (forall x :: x in r <==> x in s)
      && (forall i, j :: 0 <= i < j < |r| ==> r[i] != r[j])
      && (|r| >= 2 ==>
           && (forall x :: x in r && x != r[0] ==> Less(r[0], x))
           && (forall x :: x in r && x != r[1] ==> Less(x, r[1]))
           && StrictlySorted(r[2..]))
  {
    var r := MoveLastToSecond(s);
    var n := |s|;
    if n >= 2 {
      assert forall x :: x in r <==> x in s by {
        forall x ensures x in r <==> x in s {
          if x in s {
            var k :| 0 <= k < n && s[k] == x;
            if 0 < k < n - 1 { assert r[k + 1] == x; }
          }
        }
      }
      forall i, j | 0 <= i < j < n ensures r[i] != r[j] {
        var a := if i == 0 then 0 else if i == 1 then n - 1 else i - 1;
        var b := if j == 0 then 0 else if j == 1 then n - 1 else j - 1;
        assert r[i] == s[a] && r[j] == s[b] && a != b;
        if a < b { LessIrreflexive(s[a]); } else { LessIrreflexive(s[b]); }
      }
      forall x | x in r && x != r[1] ensures Less(x, r[1]) {
        var k :| 0 <= k < n && s[k] == x;
      }
      forall x | x in r && x != r[0] ensures Less(r[0], x) {
        var k :| 0 <= k < n && s[k] == x;
      }
      assert r[2..] == s[1..n - 1];
    }
  }

  /** `methods = list(set(...))`, sorted, then `methods.insert(1, methods.pop())`:
      the distinct names, the smallest first, the largest second and the
      rest ascending. `pop` on an empty list raises IndexError. */
  function OrderedMethods(methods: seq<string>): (r: Result<seq<string>>)
    ensures r.Err? <==> methods == []
    ensures r.Ok? ==> |r.value| == |set m | m in methods|
    ensures r.Ok? ==> forall x :: x in r.value <==> x in methods
    ensures r.Ok? ==> forall i, j :: 0 <= i < j < |r.value| ==> r.value[i] != r.value[j]
    ensures r.Ok? && |r.value| >= 2 ==>
      && (forall x :: x in r.value && x != r.value[0] ==> Less(r.value[0], x))
      && (forall x :: x in r.value && x != r.value[1] ==> Less(x, r.value[1]))
      && StrictlySorted(r.value[2..])
  {
    if methods == [] then Err(IndexError)
    else
      var s := SortedKeys(set m | m in methods);
      MoveLastToSecondProps(s);
      Ok(MoveLastToSecond(s))
  }

  /** The sort, `pop` and `insert(1, ...)` of `class_docstr`. */
  method OrderMethods(methods: seq<string>) returns (r: Result<seq<string>>)
    ensures r == OrderedMethods(methods)
  {
    if methods == [] {
      return Err(IndexError);
    }
    var ms := SortedKeys(set m | m in methods);
    assert methods[0] in ms;
    ghost var sorted := ms;
    var last := ms[|ms| - 1];
    ms := ms[..|ms| - 1];
    var at := if |ms| < 1 then |ms| else 1;
    ms := ms[..at] + [last] + ms[at..];
    assert ms == MoveLastToSecond(sorted);
    return Ok(ms);
  }

  // ---------------------------------------------------------------------------
  // The parameter and return lists of func_docstr

  /** One entry of `params`: `"%s : %s" % (arg, type)`, followed by
      `"\n%s" % desc` when the argument has a description. */
  function ParamEntry(name: string, arg: Arg): (e: string)
    ensures StartsWith(e, name + " : " + Show(arg.argType))
    ensures |e| >= |name| + 3
  {
    var head := name + " : " + Show(arg.argType);
    if arg.desc.Described? then head + "\n" + Show(arg.desc.text) else head
  }

  /** A described argument's entry spans two lines, an undescribed one a
      single line (for names, types and descriptions without line breaks). */
  lemma ParamEntryLines(name: string, arg: Arg)
    requires OneLine(name) && OneLine(Show(arg.argType))
    requires arg.desc.Described? ==> Show(arg.desc.text) != "" && OneLine(Show(arg.desc.text))
    ensures arg.desc.Described? ==> SplitLines(ParamEntry(name, arg)) == [name + " : " + Show(arg.argType), Show(arg.desc.text)]
    ensures arg.desc.Undescribed? ==> SplitLines(ParamEntry(name, arg)) == [name + " : " + Show(arg.argType)]
  {
    var head := name + " : " + Show(arg.argType);
    assert OneLine(" : ");
    OneLineAppend(name, " : ");
    OneLineAppend(name + " : ", Show(arg.argType));
    if arg.desc.Described? {
      TwoLines(head, Show(arg.desc.text));
    } else {
      SplitLinesOne(head);
    }
  }

  /** The entries for the arguments named in `keys`, in that order. */
  function EntriesFor(a: map<string, Arg>, keys: seq<string>): (r: seq<string>)
    requires forall k :: k in keys ==> k in a
    ensures |r| == |keys|
    ensures forall i :: 0 <= i < |keys| ==> r[i] == ParamEntry(keys[i], a[keys[i]])
  {
    if keys == [] then []
    else EntriesFor(a, keys[..|keys| - 1]) + [ParamEntry(keys[|keys| - 1], a[keys[|keys| - 1]])]
  }

  /** `params`: `['None']` when `args` is None, otherwise one entry per
      argument (in ascending name order, standing for the dictionary's order). */
  function ParamEntries(args: Option<map<string, Arg>>): (r: seq<string>)
    ensures forall i :: 0 <= i < |r| ==> r[i] != ""
    ensures args.None? ==> r == ["None"]
    ensures args.Some? ==> |r| == |args.value|
    ensures args.Some? ==> forall n :: n in args.value ==> ParamEntry(n, args.value[n]) in r
  {
    match args
    case None => ["None"]
    case Some(a) =>
      var keys := SortedKeys(a.Keys);
      EntriesForProps(a, keys);
      EntriesFor(a, keys)
  }

  lemma EntriesForProps(a: map<string, Arg>, keys: seq<string>)
    requires forall k :: k in keys ==> k in a
    requires forall k :: k in a ==> k in keys
    ensures forall i :: 0 <= i < |EntriesFor(a, keys)| ==> EntriesFor(a, keys)[i] != ""
    ensures forall n :: n in a ==> ParamEntry(n, a[n]) in EntriesFor(a, keys)
  {
    var r := EntriesFor(a, keys);
    forall i | 0 <= i < |r| ensures r[i] != "" {
      assert |r[i]| >= 3;
    }
    forall n | n in a ensures ParamEntry(n, a[n]) in r {
      var i :| 0 <= i < |keys| && keys[i] == n;
      assert r[i] == ParamEntry(n, a[n]);
    }
  }

  lemma EntriesForSnoc(a: map<string, Arg>, keys: seq<string>, i: nat)
    requires forall k :: k in keys ==> k in a
    requires i < |keys|
    ensures EntriesFor(a, keys[..i + 1]) == EntriesFor(a, keys[..i]) + [ParamEntry(keys[i], a[keys[i]])]
  {
    assert keys[..i + 1][..i] == keys[..i];
  }

  /** One round of the `params` loop: `"%s : %s" % (arg, type)`, extended by
      the description when there is one. */
  method ParamLine(name: string, arg: Arg) returns (line: string)
    ensures line == ParamEntry(name, arg)
  {
    line := name + " : " + Show(arg.argType);
    if arg.desc.Described? {
      line := line + "\n" + Show(arg.desc.text);
    }
  }

  /** The loop that fills `params`. */
  method BuildParams(args: Option<map<string, Arg>>) returns (params: seq<string>)
    ensures params == ParamEntries(args)
  {
    if args.None? {
      return ["None"];
    }
    var a := args.value;
    var keys := SortedKeys(a.Keys);
    params := [];
    var i := 0;
    while i < |keys|
      invariant 0 <= i <= |keys|
      invariant params == EntriesFor(a, keys[..i])
    {
      var argStr := ParamLine(keys[i], a[keys[i]]);
      EntriesForSnoc(a, keys, i);
      params := params + [argStr];
      i := i + 1;
    }
    assert keys[..i] == keys;
  }

  /** What `func_docstr` finds under `ret_type`: None, one type, or a list
      of types. */
  datatype Returning = NoReturn | OneType(t: string) | TypeList(ts: seq<string>)

  /** `rets`: `['None']` for no return type, otherwise `res1 : ...`,
      `res2 : ...`, numbered from 1. */
  function ReturnEntries(ret: Returning): (r: seq<string>)
    ensures forall i :: 0 <= i < |r| ==> r[i] != ""
    ensures ret.NoReturn? ==> r == ["None"]
    ensures ret.OneType? ==> r == ["res1 : " + ret.t]
    ensures ret.TypeList? ==> |r| == |ret.ts|
    ensures ret.TypeList? ==> forall k :: 0 <= k < |r| ==> StartsWith(r[k], "res" + NatToString(k + 1) + " : ")
  {
    match ret
    case NoReturn => ["None"]
    case OneType(t) => ["res1 : " + t]
    case TypeList(ts) => seq(|ts|, k requires 0 <= k < |ts| => "res" + NatToString(k + 1) + " : " + ts[k])
  }

  /** The entries of a type list carry distinct numbers. */
  lemma ReturnNumbersDistinct(ts: seq<string>, j: nat, k: nat)
    requires j < k < |ts|
    ensures var r := ReturnEntries(TypeList(ts)); r[j][..|r[j]| - |ts[j]|] != r[k][..|r[k]| - |ts[k]|]
  {
    var r := ReturnEntries(TypeList(ts));
    var a := "res" + NatToString(j + 1) + " : ";
    var b := "res" + NatToString(k + 1) + " : ";
    assert r[j] == a + ts[j] && r[j][..|r[j]| - |ts[j]|] == a;
    assert r[k] == b + ts[k] && r[k][..|r[k]| - |ts[k]|] == b;
    if a == b {
      assert a[3..|a| - 3] == NatToString(j + 1);
      assert b[3..|b| - 3] == NatToString(k + 1);
      NatToStringInjective(j + 1, k + 1);
    }
  }

  /** The loop that fills `rets`, counting with `i` from 1. */
  method BuildReturns(ret: Returning) returns (rets: seq<string>)
    ensures rets == ReturnEntries(ret)
  {
    match ret
    case NoReturn =>
      rets := ["None"];
    case OneType(t) =>
      rets := ["res1 : " + t];
    case TypeList(ts) =>
      rets := [];
      var i := 1;
      while i <= |ts|
        invariant 1 <= i <= |ts| + 1
        invariant rets == seq(i - 1, k requires 0 <= k < i - 1 => "res" + NatToString(k + 1) + " : " + ts[k])
      {
        rets := rets + ["res" + NatToString(i) + " : " + ts[i - 1]];
        i := i + 1;
      }
      assert rets == ReturnEntries(ret);
  }

  // ---------------------------------------------------------------------------
  // func_docstr

  /** The wrapped lines, concatenated without separators. */
  function Wrapped(fill: Fill, w: Wrapper, lines: seq<string>): string {
    if lines == [] then "" else Wrapped(fill, w, lines[..|lines| - 1]) + fill(w, lines[|lines| - 1])
  }

  /** What one parameter adds: its first line, the further lines, and a
      blank line after it only when there were further lines. */
  function ParamBlock(fill: Fill, w: Wrapper, entry: string): string
    requires entry != ""
  {
    var lines := SplitLines(entry);
    fill(w, lines[0]) + "\n" + Wrapped(fill, w, lines[1..]) + (if |lines| > 1 then "\n\n" else "\n")
  }

  /** What one return value adds. */
  function ReturnBlock(fill: Fill, w: Wrapper, entry: string): string
    requires entry != ""
  {
    var lines := SplitLines(entry);
    fill(w, lines[0]) + "\n" + Wrapped(fill, w, lines[1..]) + "\n"
  }

  function ParamBlocks(fill: Fill, w: Wrapper, entries: seq<string>): string
    requires forall i :: 0 <= i < |entries| ==> entries[i] != ""
  {
    if entries == [] then ""
    else ParamBlocks(fill, w, entries[..|entries| - 1]) + ParamBlock(fill, w, entries[|entries| - 1])
  }

  function ReturnBlocks(fill: Fill, w: Wrapper, entries: seq<string>): string
    requires forall i :: 0 <= i < |entries| ==> entries[i] != ""
  {
    if entries == [] then ""
    else ReturnBlocks(fill, w, entries[..|entries| - 1]) + ReturnBlock(fill, w, entries[|entries| - 1])
  }

  lemma AppendAssoc(a: string, b: string, c: string)
    ensures (a + b) + c == a + (b + c)
  {
  }

  lemma ParamBlocksPrefix(fill: Fill, w: Wrapper, es: seq<string>, k: nat)
    requires forall i :: 0 <= i < |es| ==> es[i] != ""
    requires k < |es|
    ensures ParamBlocks(fill, w, es[..k + 1]) == ParamBlocks(fill, w, es[..k]) + ParamBlock(fill, w, es[k])
  {
    assert es[..k + 1][..k] == es[..k];
  }

  lemma ReturnBlocksPrefix(fill: Fill, w: Wrapper, es: seq<string>, k: nat)
    requires forall i :: 0 <= i < |es| ==> es[i] != ""
    requires k < |es|
    ensures ReturnBlocks(fill, w, es[..k + 1]) == ReturnBlocks(fill, w, es[..k]) + ReturnBlock(fill, w, es[k])
  {
    assert es[..k + 1][..k] == es[..k];
  }

  /** The return types of a parsed function: its `ret_type` text, if any. */
  function ReturningOf(retType: Option<string>): Returning {
    if retType.Some? then OneType(retType.value) else NoReturn
  }

  /** The text `func_docstr` builds ahead of the parameter list. */
  function FuncHead(fill: Fill, w: Wrapper, desc: string): string {
    fill(w, desc) + "\n\n" + fill(w, "Parameters") + "\n" + fill(w, "----------") + "\n"
  }

  function ReturnsHead(fill: Fill, w: Wrapper): string {
    fill(w, "Returns") + "\n" + fill(w, "-------") + "\n"
  }

  /** `func_docstr(func_dict, is_method)`: TypeError when the detailed
      description is None, KeyError when the dictionary is not a function's. */
  function FuncDoc(fill: Fill, m: Member, isMethod: bool): Result<string> {
    var w := if isMethod then Wrap64 else Wrap68;
    var detailed :- if m.specific.detailed.Some? then Ok(m.specific.detailed.value) else Err(TypeError);
    var desc := Strip(m.brief + "\n\n" + detailed);
    var args :- if m.specific.FuncPart? then Ok(m.specific.args) else Err(KeyError("args"));
    var params := ParamEntries(args);
    var rets := ReturnEntries(ReturningOf(m.specific.retType));
    Ok(FuncHead(fill, w, desc) + ParamBlocks(fill, w, params) + ReturnsHead(fill, w) + ReturnBlocks(fill, w, rets))
  }

  /** `func_docstr` fails exactly on a dictionary without a detailed text
      or without arguments. */
  lemma FuncDocOk(fill: Fill, m: Member, isMethod: bool)
    ensures FuncDoc(fill, m, isMethod).Ok? <==> m.specific.detailed.Some? && m.specific.FuncPart?
    ensures m.specific.detailed.None? ==> FuncDoc(fill, m, isMethod) == Err(TypeError)
  {
  }

  /** Appends the wrapped further lines `lines[1..]` to `msg`. */
  method AppendRest(fill: Fill, w: Wrapper, msg: string, lines: seq<string>) returns (out: string, more: bool)
    requires lines != []
    ensures out == msg + Wrapped(fill, w, lines[1..])
    ensures more == (|lines| > 1)
  {
    out := msg;
    more := false;
    var i := 1;
    while i < |lines|
      invariant 1 <= i <= |lines|
      invariant out == msg + Wrapped(fill, w, lines[1..i])
      invariant more == (i > 1)
    {
      more := true;
      assert lines[1..i + 1][..i - 1] == lines[1..i];
      out := out + fill(w, lines[i]);
      i := i + 1;
    }
    assert lines[1..i] == lines[1..];
  }

  /** One pass of the loop over `params`. */
  method AppendParamBlock(fill: Fill, w: Wrapper, msg: string, entry: string) returns (out: string)
    requires entry != ""
    ensures out == msg + ParamBlock(fill, w, entry)
  {
    var lines := SplitLines(entry);
    out := msg + fill(w, lines[0]) + "\n";
    var more;
    out, more := AppendRest(fill, w, out, lines);
    if more {
      out := out + "\n\n";
    } else {
      out := out + "\n";
    }
  }

  /** The pass of the loop over `params` that adds entry `k`. */
  method AppendNextParam(fill: Fill, w: Wrapper, msg: string, out: string, entries: seq<string>, k: nat) returns (next: string)
    requires forall i :: 0 <= i < |entries| ==> entries[i] != ""
    requires k < |entries|
    requires out == msg + ParamBlocks(fill, w, entries[..k])
    ensures next == msg + ParamBlocks(fill, w, entries[..k + 1])
  {
    ParamBlocksPrefix(fill, w, entries, k);
    next := AppendParamBlock(fill, w, out, entries[k]);
    AppendAssoc(msg, ParamBlocks(fill, w, entries[..k]), ParamBlock(fill, w, entries[k]));
  }

  /** The loop over `params`. */
  method AppendParamBlocks(fill: Fill, w: Wrapper, msg: string, params: seq<string>) returns (out: string)
    requires forall i :: 0 <= i < |params| ==> params[i] != ""
    ensures out == msg + ParamBlocks(fill, w, params)
  {
    out := msg;
    var k := 0;
    while k < |params|
      invariant 0 <= k <= |params|
      invariant out == msg + ParamBlocks(fill, w, params[..k])
    {
      out := AppendNextParam(fill, w, msg, out, params, k);
      k := k + 1;
    }
    assert params[..k] == params;
  }

  /** One pass of the loop over `rets`. */
  method AppendReturnBlock(fill: Fill, w: Wrapper, msg: string, entry: string) returns (out: string)
    requires entry != ""
    ensures out == msg + ReturnBlock(fill, w, entry)
  {
    var lines := SplitLines(entry);
    out := msg + fill(w, lines[0]) + "\n";
    var more;
    out, more := AppendRest(fill, w, out, lines);
    out := out + "\n";
  }

  /** The pass of the loop over `rets` that adds entry `k`. */
  method AppendNextReturn(fill: Fill, w: Wrapper, msg: string, out: string, entries: seq<string>, k: nat) returns (next: string)
    requires forall i :: 0 <= i < |entries| ==> entries[i] != ""
    requires k < |entries|
    requires out == msg + ReturnBlocks(fill, w, entries[..k])
    ensures next == msg + ReturnBlocks(fill, w, entries[..k + 1])
  {
    ReturnBlocksPrefix(fill, w, entries, k);
    next := AppendReturnBlock(fill, w, out, entries[k]);
    AppendAssoc(msg, ReturnBlocks(fill, w, entries[..k]), ReturnBlock(fill, w, entries[k]));
  }

  /** The loop over `rets`. */
  method AppendReturnBlocks(fill: Fill, w: Wrapper, msg: string, rets: seq<string>) returns (out: string)
    requires forall i :: 0 <= i < |rets| ==> rets[i] != ""
    ensures out == msg + ReturnBlocks(fill, w, rets)
  {
    out := msg;
    var k := 0;
    while k < |rets|
      invariant 0 <= k <= |rets|
      invariant out == msg + ReturnBlocks(fill, w, rets[..k])
    {
      out := AppendNextReturn(fill, w, msg, out, rets, k);
      k := k + 1;
    }
    assert rets[..k] == rets;
  }

  /** `func_docstr(func_dict, is_method)`. */
  method FuncDocstr(fill: Fill, m: Member, isMethod: bool) returns (r: Result<string>)
    ensures r == FuncDoc(fill, m, isMethod)
  {
    var w := if isMethod then Wrap64 else Wrap68;
    if m.specific.detailed.None? {
      return Err(TypeError);
    }
    var desc := Strip(m.brief + "\n\n" + m.specific.detailed.value);
    if !m.specific.FuncPart? {
      return Err(KeyError("args"));
    }
    var params := BuildParams(m.specific.args);
    var rets := BuildReturns(ReturningOf(m.specific.retType));
    var msg := AppendParamBlocks(fill, w, FuncHead(fill, w, desc), params);
    msg := AppendReturnBlocks(fill, w, msg + ReturnsHead(fill, w), rets);
    return Ok(msg);
  }

  // ---------------------------------------------------------------------------
  // class_docstr

  /** The section kinds whose key contains `sub`, in ascending order
      (standing for the dictionary's order). */
  function GroupKeys(sections: map<string, map<string, Member>>, sub: string): (keys: seq<string>)
    ensures forall k :: k in keys <==> k in sections && Contains(k, sub)
  {
    SortedKeys(set k | k in sections && Contains(k, sub))
  }

  /** `dict(items)` of the sections `keys`, in order: a name in a later
      section replaces the same name in an earlier one. */
  function Flatten(sections: map<string, map<string, Member>>, keys: seq<string>): (d: map<string, Member>)
    requires forall i :: 0 <= i < |keys| ==> keys[i] in sections
    ensures forall n :: n in d <==> exists i :: 0 <= i < |keys| && n in sections[keys[i]]
  {
    if keys == [] then map[]
    else
      var init := keys[..|keys| - 1];
      var last := keys[|keys| - 1];
      var d := Flatten(sections, init) + sections[last];
      assert forall n :: n in d <==> exists i :: 0 <= i < |keys| && n in sections[keys[i]] by {
        forall n ensures n in d <==> exists i :: 0 <= i < |keys| && n in sections[keys[i]] {
          if n in d && n !in sections[last] {
            var i :| 0 <= i < |init| && n in sections[init[i]];
            assert keys[i] == init[i];
          }
          if exists i :: 0 <= i < |keys| && n in sections[keys[i]] {
            var i :| 0 <= i < |keys| && n in sections[keys[i]];
            if i < |init| { assert init[i] == keys[i]; }
          }
        }
      }
      d
  }

  /** One line of the Attributes list: `name (type) : description`. */
  function VarLine(fill: Fill, ivars: map<string, Member>, name: string): (r: Result<string>)
    ensures r.Ok? <==> VarDocumented(ivars, name)
  {
    if name !in ivars then Err(KeyError(name))
    else
      var m := ivars[name];
      var detailed :- if m.specific.detailed.Some? then Ok(m.specific.detailed.value) else Err(TypeError);
      var desc := m.brief + " " + detailed;
      var t :- if m.specific.VarPart? then Ok(m.specific.varType) else Err(KeyError("type"));
      Ok(fill(AttribWrap, name + " (" + Show(t) + ") : " + Strip(desc)) + "\n")
  }

  /** The loop over `variables`, continued from `msg`. */
  function VarLinesFrom(fill: Fill, ivars: map<string, Member>, vars: seq<string>, msg: string): Result<string>
    decreases vars
  {
    if vars == [] then Ok(msg)
    else
      var line :- VarLine(fill, ivars, vars[0]);
      VarLinesFrom(fill, ivars, vars[1..], msg + line)
  }

  /** One line of the Methods list: the name, and its brief description
      only when `desc_funcs` is set and the description is not empty. */
  function MethodLine(fill: Fill, funcs: map<string, Member>, name: string, descFuncs: bool): (r: Result<string>)
    ensures r.Ok? <==> name in funcs
    ensures r.Ok? && !descFuncs ==> r.value == fill(AttribWrap, name) + "\n"
  {
    if name !in funcs then Err(KeyError(name))
    else
      var desc := funcs[name].brief;
      var text := if |desc| == 0 || !descFuncs then name else name + " : " + Strip(desc);
      Ok(fill(AttribWrap, text) + "\n")
  }

  function MethodLinesFrom(fill: Fill, funcs: map<string, Member>, ms: seq<string>, descFuncs: bool, msg: string): Result<string>
    decreases ms
  {
    if ms == [] then Ok(msg)
    else
      var line :- MethodLine(fill, funcs, ms[0], descFuncs);
      MethodLinesFrom(fill, funcs, ms[1..], descFuncs, msg + line)
  }

  function ClassHead(fill: Fill, clsMsg: string): string {
    fill(Wrap68, clsMsg) + "\n\n" + fill(Wrap68, "Attributes") + "\n" + fill(Wrap68, "----------") + "\n"
  }

  function MethodsHead(fill: Fill): string {
    "\n\n" + fill(Wrap68, "Methods") + "\n" + fill(Wrap68, "-------") + "\n"
  }

  function Notes(fill: Fill, fileName: string, namespace: string): string {
    "\n" + fill(Wrap68, "Notes") + "\n" + fill(Wrap68, "-----") + "\n"
    + fill(Wrap68, "This class was defined in " + fileName) + "\n\n"
    + fill(Wrap68, "The class is found in the \"" + namespace + "\" namespace")
  }

  /** The description of the class: the detailed text of the public
      method named like the class (its constructor). `fill(None)` fails
      with AttributeError. */
  function ClassMessage(cd: Classes.ClassDesc): Result<string> {
    var qualified :- if cd.klsName.Some? then Ok(cd.klsName.value) else Err(AttributeError("split"));
    var className := Names.ClassName(qualified);
    var pub :- if "public-func" in cd.sections then Ok(cd.sections["public-func"]) else Err(KeyError("public-func"));
    var ctor :- if className in pub then Ok(pub[className]) else Err(KeyError(className));
    if ctor.specific.detailed.Some? then Ok(ctor.specific.detailed.value) else Err(AttributeError("expandtabs"))
  }

  /** `class_docstr(class_dict, desc_funcs)`. */
  function ClassDoc(fill: Fill, cd: Classes.ClassDesc, descFuncs: bool): Result<string> {
    var clsMsg :- ClassMessage(cd);
    var ivars := Flatten(cd.sections, GroupKeys(cd.sections, "attrib"));
    var funcs := Flatten(cd.sections, GroupKeys(cd.sections, "func"));
    var withVars :- VarLinesFrom(fill, ivars, cd.variables, ClassHead(fill, clsMsg));
    var ordered :- OrderedMethods(cd.methods);
    var withMethods :- MethodLinesFrom(fill, funcs, ordered, descFuncs, withVars + MethodsHead(fill));
    Ok(withMethods + Notes(fill, cd.fileName, cd.namespace))
  }

  /** A variable's line can be written exactly when some `attrib` section
      holds it as a variable with a detailed text. */
  predicate VarDocumented(ivars: map<string, Member>, name: string) {
    name in ivars && ivars[name].specific.VarPart? && ivars[name].specific.detailed.Some?
  }

  lemma {:induction false} VarLinesOk(fill: Fill, ivars: map<string, Member>, vars: seq<string>, msg: string)
    ensures VarLinesFrom(fill, ivars, vars, msg).Ok? <==> forall v :: v in vars ==> VarDocumented(ivars, v)
    decreases vars
  {
    if vars != [] {
      assert forall v :: v in vars <==> v == vars[0] || v in vars[1..];
      var line := VarLine(fill, ivars, vars[0]);
      if line.Ok? {
        VarLinesOk(fill, ivars, vars[1..], msg + line.value);
      }
    }
  }

  lemma {:induction false} MethodLinesOk(fill: Fill, funcs: map<string, Member>, ms: seq<string>, descFuncs: bool, msg: string)
    ensures MethodLinesFrom(fill, funcs, ms, descFuncs, msg).Ok? <==> forall m :: m in ms ==> m in funcs
    decreases ms
  {
    if ms != [] {
      assert forall m :: m in ms <==> m == ms[0] || m in ms[1..];
      var line := MethodLine(fill, funcs, ms[0], descFuncs);
      if line.Ok? {
        MethodLinesOk(fill, funcs, ms[1..], descFuncs, msg + line.value);
      }
    }
  }

  /** `class_docstr` succeeds exactly when the class has a described
      constructor, every listed variable is documented in an `attrib`
      section, the method list is not empty and every method is in a
      `func` section. */
  lemma ClassDocOk(fill: Fill, cd: Classes.ClassDesc, descFuncs: bool)
    ensures var ivars := Flatten(cd.sections, GroupKeys(cd.sections, "attrib"));
      var funcs := Flatten(cd.sections, GroupKeys(cd.sections, "func"));
      ClassDoc(fill, cd, descFuncs).Ok? <==>
        && ClassMessage(cd).Ok?
        && (forall v :: v in cd.variables ==> VarDocumented(ivars, v))
        && cd.methods != []
        && (forall m :: m in cd.methods ==> m in funcs)
  {
    var ivars := Flatten(cd.sections, GroupKeys(cd.sections, "attrib"));
    var funcs := Flatten(cd.sections, GroupKeys(cd.sections, "func"));
    var clsMsg := ClassMessage(cd);
    if clsMsg.Ok? {
      VarLinesOk(fill, ivars, cd.variables, ClassHead(fill, clsMsg.value));
      var withVars := VarLinesFrom(fill, ivars, cd.variables, ClassHead(fill, clsMsg.value));
      var ordered := OrderedMethods(cd.methods);
      if withVars.Ok? && ordered.Ok? {
        MethodLinesOk(fill, funcs, ordered.value, descFuncs, withVars.value + MethodsHead(fill));
      }
    }
  }

  /** The flattening loops of `class_docstr`. */
  method FlattenSections(sections: map<string, map<string, Member>>, keys: seq<string>) returns (d: map<string, Member>)
    requires forall i :: 0 <= i < |keys| ==> keys[i] in sections
    ensures d == Flatten(sections, keys)
  {
    d := map[];
    var i := 0;
    while i < |keys|
      invariant 0 <= i <= |keys|
      invariant d == Flatten(sections, keys[..i])
    {
      assert keys[..i + 1][..i] == keys[..i];
      d := d + sections[keys[i]];
      i := i + 1;
    }
    assert keys[..i] == keys;
  }

  /** The loop over `variables`. */
  method AppendVarLines(fill: Fill, ivars: map<string, Member>, vars: seq<string>, msg: string) returns (r: Result<string>)
    ensures r == VarLinesFrom(fill, ivars, vars, msg)
  {
    var out := msg;
    var i := 0;
    while i < |vars|
      invariant 0 <= i <= |vars|
      invariant VarLinesFrom(fill, ivars, vars, msg) == VarLinesFrom(fill, ivars, vars[i..], out)
    {
      assert vars[i..][1..] == vars[i + 1..];
      var line := VarLine(fill, ivars, vars[i]);
      if line.Err? {
        return Err(line.error);
      }
      out := out + line.value;
      i := i + 1;
    }
    return Ok(out);
  }

  /** The loop over the ordered methods. */
  method AppendMethodLines(fill: Fill, funcs: map<string, Member>, ms: seq<string>, descFuncs: bool, msg: string) returns (r: Result<string>)
    ensures r == MethodLinesFrom(fill, funcs, ms, descFuncs, msg)
  {
    var out := msg;
    var i := 0;
    while i < |ms|
      invariant 0 <= i <= |ms|
      invariant MethodLinesFrom(fill, funcs, ms, descFuncs, msg) == MethodLinesFrom(fill, funcs, ms[i..], descFuncs, out)
    {
      assert ms[i..][1..] == ms[i + 1..];
      var line := MethodLine(fill, funcs, ms[i], descFuncs);
      if line.Err? {
        return Err(line.error);
      }
      out := out + line.value;
      i := i + 1;
    }
    return Ok(out);
  }

  /** `class_docstr(class_dict, desc_funcs)`. */
  method ClassDocstr(fill: Fill, cd: Classes.ClassDesc, descFuncs: bool) returns (r: Result<string>)
    ensures r == ClassDoc(fill, cd, descFuncs)
  {
    var clsMsg := ClassMessage(cd);
    if clsMsg.Err? {
      return Err(clsMsg.error);
    }
    var ivarKeys := GroupKeys(cd.sections, "attrib");
    var funcKeys := GroupKeys(cd.sections, "func");
    var ivars := FlattenSections(cd.sections, ivarKeys);
    var funcs := FlattenSections(cd.sections, funcKeys);
    var withVars := AppendVarLines(fill, ivars, cd.variables, ClassHead(fill, clsMsg.value));
    if withVars.Err? {
      return Err(withVars.error);
    }
    var ordered := OrderMethods(cd.methods);
    if ordered.Err? {
      return Err(ordered.error);
    }
    var withMethods := AppendMethodLines(fill, funcs, ordered.value, descFuncs, withVars.value + MethodsHead(fill));
    if withMethods.Err? {
      return Err(withMethods.error);
    }
    return Ok(withMethods.value + Notes(fill, cd.fileName, cd.namespace));
  }
}
