/** The part of the ElementTree API the plugin uses, over an element tree
    given as a value: `find`, `findall`, `iter`, `attrib[...]` and `.text`. */
module Xml {
  import opened Wrappers

  /** An element: its tag, its attributes, its leading text (None when it
      has none, as ElementTree reports it) and its children in document order. */
  datatype Element = Element(tag: string, attrib: map<string, string>, text: Option<string>, children: seq<Element>)

  function FirstWithTag(cs: seq<Element>, tag: string): (r: Option<Element>)
    ensures r.Some? ==> r.value in cs && r.value.tag == tag
    ensures r.Some? ==> exists i :: 0 <= i < |cs| && cs[i] == r.value && forall j :: 0 <= j < i ==> cs[j].tag != tag
    ensures r.None? ==> forall c :: c in cs ==> c.tag != tag
  {
    if cs == [] then None
    else if cs[0].tag == tag then Some(cs[0])
    else
      var r := FirstWithTag(cs[1..], tag);
      assert r.Some? ==> exists i :: 1 <= i < |cs| && cs[i] == r.value && forall j :: 1 <= j < i ==> cs[j].tag != tag by {
        if r.Some? {
          var i :| 0 <= i < |cs[1..]| && cs[1..][i] == r.value && forall j :: 0 <= j < i ==> cs[1..][j].tag != tag;
          assert cs[i + 1] == r.value;
          forall j | 1 <= j < i + 1 ensures cs[j].tag != tag {
            assert cs[j] == cs[1..][j - 1];
          }
        }
      }
      r
  }

  /** `e.find(tag)`: the first child with that tag, or None. */
  function Find(e: Element, tag: string): Option<Element> {
    FirstWithTag(e.children, tag)
  }

  function WithTag(cs: seq<Element>, tag: string): (r: seq<Element>)
    ensures |r| <= |cs|
    ensures forall c :: c in r <==> c in cs && c.tag == tag
  {
    if cs == [] then []
    else if cs[0].tag == tag then [cs[0]] + WithTag(cs[1..], tag)
    else WithTag(cs[1..], tag)
  }

  /** `e.findall(tag)`: the children with that tag, in document order. */
  function FindAll(e: Element, tag: string): seq<Element> {
    WithTag(e.children, tag)
  }

  /** `e.iter(tag)`: the element itself and all its descendants with that
      tag, in document (pre-)order. */
  function Iter(e: Element, tag: string): seq<Element>
    decreases e, 1
  {
    (if e.tag == tag then [e] else []) + IterAll(e.children, tag)
  }

  function IterAll(cs: seq<Element>, tag: string): seq<Element>
    decreases cs, 0
  {
    if cs == [] then [] else Iter(cs[0], tag) + IterAll(cs[1..], tag)
  }

  /** `e.attrib[key]`, which raises KeyError when the attribute is absent. */
  function Attr(e: Element, key: string): (r: Result<string>)
    ensures r.Ok? <==> key in e.attrib
    ensures r.Ok? ==> r.value == e.attrib[key]
  {
    if key in e.attrib then Ok(e.attrib[key]) else Err(KeyError(key))
  }

  /** `e.find(tag)`, used as an object: AttributeError when there is no such child. */
  function Child(e: Element, tag: string): (r: Result<Element>)
    ensures r.Ok? <==> Find(e, tag).Some?
    ensures r.Ok? ==> r.value == Find(e, tag).value
  {
    match Find(e, tag)
    case Some(c) => Ok(c)
    case None => Err(AttributeError(tag))
  }

  /** `e.find(tag).text`. */
  function ChildText(e: Element, tag: string): (r: Result<Option<string>>)
    ensures r.Ok? <==> Find(e, tag).Some?
    ensures r.Ok? ==> r.value == Find(e, tag).value.text
  {
    var c :- Child(e, tag);
    Ok(c.text)
  }

  /** `e.find(tag).text` used as a dictionary key or as a string. */
  function ChildName(e: Element, tag: string): (r: Result<string>)
    ensures r.Ok? <==> Find(e, tag).Some? && Find(e, tag).value.text.Some?
    ensures r.Ok? ==> r.value == Find(e, tag).value.text.value
  {
    var c :- Child(e, tag);
    match c.text
    case Some(t) => Ok(t)
    case None => Err(NoneKey(tag))
  }
}
