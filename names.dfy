/** Qualified C++ names, file base names and the location of `index.xml`. */
module Names {
  import opened Wrappers
  import opened Strings

  const Scope: string := "::"

  /** `q.split('::')[-1]`: the class name of a qualified name. */
  function ClassName(q: string): (name: string)
    ensures !Contains(name, Scope)
    ensures !Contains(q, Scope) ==> name == q
    ensures name == Split(q, Scope)[|Split(q, Scope)| - 1]
  {
    QualifierLastPiece(q, Scope);
    LastPiece(q, Scope)
  }

  /** `'::'.join(q.split('::')[:-1])`: the namespace of a qualified name. */
  function Namespace(q: string): (ns: string)
    ensures Contains(q, Scope) ==> ns + Scope + ClassName(q) == q
    ensures !Contains(q, Scope) ==> ns == ""
    ensures ns == Join(Split(q, Scope)[..|Split(q, Scope)| - 1], Scope)
  {
    QualifierLastPiece(q, Scope);
    Qualifier(q, Scope)
  }

  /** Namespace and class name put back together give the qualified name,
      whenever the namespace is not empty. */
  lemma QualifiedRoundTrip(q: string)
    requires Namespace(q) != ""
    ensures Namespace(q) + "::" + ClassName(q) == q
  {
  }

  /** Overlapping separators split as Python does, at the leftmost match:
      `"a:::b"` is namespace `"a"` and class name `":b"`. */
  lemma OverlappingScope()
    ensures Split("a:::b", Scope) == ["a", ":b"]
    ensures Namespace("a:::b") == "a" && ClassName("a:::b") == ":b"
  {
    var q := "a:::b";
    assert q[0..2] == "a:" && q[0..2] != Scope;
    assert q[1..3] == Scope;
    assert IndexOf(q, Scope, 1) == Some(1);
    assert IndexOf(q, Scope, 0) == Some(1);
    assert q[..1] == "a" && q[3..] == ":b";
    assert ":b"[0..2] == ":b" && ":b" != Scope;
    assert IndexOf(":b", Scope, 1) == None;
    assert IndexOf(":b", Scope, 0) == None;
    assert Split(":b", Scope) == [":b"];
    assert Split(q, Scope) == [q[..1]] + Split(q[3..], Scope);
  }

  /** `path.split(os.path.sep)[-1]`: the file name without its directories. */
  function Basename(path: string, sep: char): (base: string)
    ensures !Contains(base, [sep])
    ensures EndsWith(path, base)
    ensures base == path || (|base| < |path| && path[|path| - |base| - 1] == sep)
  {
    QualifierLastPiece(path, [sep]);
    var base := LastPiece(path, [sep]);
    if Contains(path, [sep]) then
      var q := Qualifier(path, [sep]);
      assert path == q + [sep] + base;
      assert path[|path| - |base|..] == base;
      assert path[|path| - |base| - 1] == sep;
      base
    else
      base
  }

  const IndexFile: string := "index.xml"

  /** The path normalisation at the top of `parse_index_xml`: a directory
      path gets `index.xml` appended, with a separator when it has none at
      its end. An empty path fails on `index_path[-1]`. */
  function IndexPath(path: string, sep: char): (r: Result<string>)
    ensures r.Err? <==> path == []
    ensures r.Ok? ==> EndsWith(r.value, IndexFile) && StartsWith(r.value, path)
    ensures r.Ok? && EndsWith(path, IndexFile) ==> r.value == path
    ensures r.Ok? && !EndsWith(path, IndexFile) ==>
      r.value == path + (if path[|path| - 1] == sep then "" else [sep]) + IndexFile
  {
    if EndsWith(path, IndexFile) then
      Ok(path)
    else if path == [] then
      Err(IndexError)
    else if path[|path| - 1] != sep then
      var r := path + [sep] + IndexFile;
      assert r[..|path|] == path;
      assert r[|r| - |IndexFile|..] == IndexFile;
      Ok(r)
    else
      var r := path + IndexFile;
      assert r[..|path|] == path;
      assert r[|r| - |IndexFile|..] == IndexFile;
      Ok(r)
  }

  /** Normalising an already normalised path changes nothing. */
  lemma IndexPathIdempotent(path: string, sep: char)
    requires IndexPath(path, sep).Ok?
    ensures IndexPath(IndexPath(path, sep).value, sep) == IndexPath(path, sep)
  {
  }
}
