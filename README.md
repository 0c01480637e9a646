# xdress doxygen plugin — a Dafny model

The xdress `doxygen` plugin writes a doxyfile from a configuration dictionary and runs doxygen. It then reads the XML that doxygen produced and turns it into numpydoc-style docstrings for the classes and methods that xdress wraps. This project models the deterministic logic between those I/O steps:

- the configuration merge and the `KEY = value` serialiser;
- the name index read from `index.xml`, with the per-namespace counter that renames overloaded free functions;
- the per-class member dictionaries and the rename loop that keeps same-named members apart;
- the member dictionaries built from one `memberdef` (function or variable);
- the parameter, return and method lists of the function and class docstrings;
- the `'::'` and path-separator string handling and the normalisation of the `index.xml` path;
- the class loop of `execute`, including the method matching with its three outcomes (no match, one match, several matches).

Conventions used throughout:

- The XML is an `Xml.Element` value (tag, attributes, optional text, children). Parsed documents are a map from file path to root element; a path missing from it is a file that cannot be opened.
- `TextWrapper.fill` is an uninterpreted function parameter `fill`.
- An exception the plugin does not catch is the `Err` value of a `Result` (`Wrappers.PyError`).
- Each loop of the source is a `method` with a `while` loop whose `ensures` ties its result to a recursive function that specifies it (for example `Members.ReadArgs` and `Members.ArgsFrom`, `Plugin.CollectMatches` and `Plugin.MatchesFrom`). Functions and lemmas use that function, and the lemmas about it state what the loop computes.
- Python dictionaries iterated by the plugin are visited in ascending key order. The one exception is the doxyfile serialiser, which accepts any enumeration of the keys.

Modules, in dependency order:

| module | what it models |
|---|---|
| `Wrappers` | Option, Result and the Python exceptions that escape |
| `Strings` | `strip`, `upper`, `startswith`, `in`, `split`/`join`, `splitlines`, `str(n)`, `%s` of None, string `<` |
| `Xml` | `find`, `findall`, `iter`, `attrib[...]`, `.text` |
| `Names` | qualified-name split and join, basename, `index.xml` path |
| `Config` | `merge_configs`, `setup`, `dox_dict2str` |
| `Members` | `_parse_func`, `_parse_variable`, `_parse_common` |
| `Index` | `parse_index_xml` |
| `Classes` | `parse_class` and its rename loop |
| `Docstrings` | `func_docstr`, `class_docstr` |
| `Plugin` | the class part of `XDressPlugin.execute` |

## Model

| member | source | states |
|---|---|---|
| Names.ClassName | xdress/doxygen.py:614-616 | the class name is the last piece of `split('::')`: it holds no `'::'`, and is the whole name when there is no `'::'` |
| Names.Namespace | xdress/doxygen.py:903 | the namespace is the `'::'`-join of the earlier pieces of `split('::')`; followed by `'::'` and the class name it is the qualified name whenever that contains `'::'`, and it is empty otherwise |
| Names.OverlappingScope | xdress/doxygen.py:614-616 | overlapping separators split at the leftmost match, as Python's `split` does: `"a:::b"` has namespace `"a"` and class name `":b"` |
| Names.QualifiedRoundTrip | xdress/doxygen.py:614-616 | a non-empty namespace, `'::'` and the class name give back the qualified name |
| Names.Basename | xdress/doxygen.py:900 | the basename has no separator, is a suffix of the path, and is either the whole path or preceded by a separator |
| Names.IndexPath | xdress/doxygen.py:574-578 | a path ending in `index.xml` is kept; any other path gets `index.xml` appended, with a separator only when it does not end in one; the result starts with the path and ends in `index.xml`; an empty path raises IndexError |
| Names.IndexPathIdempotent | xdress/doxygen.py:574-578 | normalising a normalised path changes nothing |
| Strings.StripSpec | xdress/doxygen.py:943 | `strip` returns an infix of the string, with only whitespace before and after it, and neither starts nor ends with whitespace |
| Strings.StripUnchanged | xdress/doxygen.py:943 | a string without whitespace at either end is its own `strip` |
| Strings.StripFinalNewline | xdress/doxygen.py:943 | stripping `s + "\n"` for such an `s` removes the newline only |
| Strings.JoinSplit | xdress/doxygen.py:614-615 | joining the pieces of a split on the same separator gives back the string |
| Strings.SplitPartsFree | xdress/doxygen.py:614 | no piece of a split contains the separator |
| Strings.QualifierLastPiece | xdress/doxygen.py:614-616 | a string with the separator is everything before the last separator, the separator and the last piece; without it the qualifier is empty and the last piece is the string |
| Strings.SplitLinesOne | xdress/doxygen.py:310 | a non-empty string without line breaks is a single line |
| Strings.TwoLines | xdress/doxygen.py:310 | two lines joined by `"\n"` split back into exactly those two lines |
| Strings.NatToStringRoundTrip | xdress/doxygen.py:605 | reading back the digits of `str(n)` gives `n` |
| Strings.NatToStringInjective | xdress/doxygen.py:605 | different numbers give different `str(n)` |
| Strings.SortedKeys | xdress/doxygen.py:210 | the keys, each once, in strictly ascending order |
| Strings.SortedUnique | xdress/doxygen.py:210 | two strictly ascending lists with the same elements are equal, so the sorted order is unique |
| Config.MergeConfigs | xdress/doxygen.py:922-925 | the merge has the keys of both maps; keys of `new` take `new`'s value, the other keys keep `old`'s value (`old` is a value and cannot change) |
| Config.Setup | xdress/doxygen.py:965-968 | the project name, output directory and input take the run's values; every other key keeps its value |
| Config.DoxDictToStr | xdress/doxygen.py:928-943 | the loop yields the stripped concatenation of one `UPPER(key) = value` line per key, in the order the dictionary is visited |
| Config.LinesOf | xdress/doxygen.py:930-940 | line `i` is the line for the `i`-th visited key: `YES` for True, `NO` for False, other values verbatim |
| Config.OneLinePerKey | xdress/doxygen.py:930-940 | for any visiting order there are as many lines as entries, every entry has its line, and every line belongs to an entry |
| Config.NoTrailingNewline | xdress/doxygen.py:942-943 | the text neither starts nor ends with whitespace, so there is no trailing newline |
| Config.OnlyFinalNewlineStripped | xdress/doxygen.py:942-943 | when the first key starts, and the last value ends, with a non-space character, exactly the final newline is removed |
| Index.OfKind | xdress/doxygen.py:584-594 | the filter keeps exactly the elements of that kind, and raises KeyError exactly when some element has no `kind` attribute |
| Index.OfKindAppend | xdress/doxygen.py:584-594 | the filter keeps document order and repeats: filtering a concatenation succeeds exactly when both parts do, and gives the filtered parts one after the other |
| Index.OfKindSingle | xdress/doxygen.py:584-594 | one element is kept, once, exactly when it has the kind |
| Index.NamespaceFile | xdress/doxygen.py:592 | the file name is `namespace<name>.xml`; a name without text is spelled `None` |
| Index.CountName | xdress/doxygen.py:599-608 | one counter step: the counter dictionary afterwards holds, for exactly the names seen so far, how often each was seen, and the stored name is the decorated name |
| Index.AddNamespaceFuncs | xdress/doxygen.py:597-611 | the counter loop of one namespace (counter starting empty) stores every function under its decorated name |
| Index.OccurrencesCount | xdress/doxygen.py:603-608 | the counter's value for a name is the number of earlier functions of that name in the namespace |
| Index.DecoratedNameSpec | xdress/doxygen.py:597-611 | a function keeps its name exactly when no earlier function of its namespace has it; the k-th one (k ≥ 2) is stored as `name + str(k-1)` |
| Index.DecoratedDistinct | xdress/doxygen.py:603-610 | two same-named functions of one namespace are stored under different names |
| Index.NamespaceFuncsKeys | xdress/doxygen.py:610-611 | after a namespace the keys are the earlier keys plus every decorated name, and entries under other keys are unchanged |
| Index.CounterCollision | xdress/doxygen.py:603-610 | `f1`, `f`, `f` in one namespace leave two entries: the second `f` is stored as `f1`, over the first function |
| Index.NamesOfKind | xdress/doxygen.py:621-626 | a name is listed exactly when a member of that kind has it |
| Index.NamesOfKindAppend | xdress/doxygen.py:621-626 | names are listed in document order: the names of a concatenation of members are those of the first part followed by those of the second |
| Index.NamesOfKindSingle | xdress/doxygen.py:621-626 | one member contributes its name, once, exactly when it has the kind |
| Index.IndexClass | xdress/doxygen.py:613-628 | the class loop body: the class name of the qualified name, its namespace and its variable and method lists |
| Index.BuildIndex | xdress/doxygen.py:581-630 | the namespace loop and the class loop build the index the raw document describes |
| Index.ParseIndexXml | xdress/doxygen.py:574-630 | fails exactly when the path normalisation fails, the file is missing or the document is malformed; otherwise gives the index of the document at the normalised path |
| Classes.Candidate | xdress/doxygen.py:883-888 | round 0 tries the name itself; every later candidate starts with the name and is longer than it |
| Classes.CandidateGrows | xdress/doxygen.py:885-887 | candidates never get shorter, and from the tenth round on each round makes them longer |
| Classes.CandidateSmall | xdress/doxygen.py:885-887 | for rounds 1 to 10 the candidate is the name with `str(k)` appended |
| Classes.CandidateEleven | xdress/doxygen.py:885-887 | the eleventh candidate for `foo` is `foo111`, because `mem_name[:-1]` drops only one digit of `10` |
| Classes.FirstFree | xdress/doxygen.py:884 | the loop stops: the round it stops at gives a key not yet in the section, and every earlier round's key was taken |
| Classes.RenameStep | xdress/doxygen.py:884-888 | a taken candidate moves the loop to the next round without changing where it stops, and the termination measure decreases |
| Classes.NextCandidate | xdress/doxygen.py:885-887 | the loop body turns candidate `i-1` into candidate `i` |
| Classes.FreshKey | xdress/doxygen.py:883-890 | the key chosen is not already in the section, starts with the member's name, and is candidate number `FirstFree` |
| Classes.SectionFrom | xdress/doxygen.py:865-890 | the corrected member loop of one section: a loop that finishes found a `kind` on every member and keeps every earlier key |
| Classes.SectionsFrom | xdress/doxygen.py:860-892 | the section loop: every section is stored under its `kind`, and no other key is added |
| Classes.MemberAsWritten | xdress/doxygen.py:868-877 | as written, a function or variable gets the dictionary its parser builds; another kind raises UnboundLocalError when no member came before, and otherwise reuses the previous member's type and arguments with its own brief description, raising exactly when `definition` is missing |
| Classes.SectionAsWritten | xdress/doxygen.py:865-890 | the member loop as written: a section that opens with a member of another kind and no earlier dictionary raises UnboundLocalError, and a loop that finishes keeps every earlier key |
| Classes.AsWrittenAgreesOnParsed | xdress/doxygen.py:865-890 | on a section of functions and variables only, the loop as written and the corrected loop give the same result |
| Classes.SectionGrows | xdress/doxygen.py:865-890 | a section gains exactly one entry per function or variable member, and no earlier entry is overwritten |
| Classes.ParseSection | xdress/doxygen.py:865-890 | the member loop of one section builds the section dictionary, or raises the first exception |
| Classes.ParseClass | xdress/doxygen.py:852-906 | a missing `<file_name>.xml` raises IOError; otherwise gives the sections (built with the corrected member loop `Classes.SectionFrom`), compound name, member lists, file basename and namespace of the document |
| Classes.ClassNameRoundTrip | xdress/doxygen.py:894-904 | a parsed class has a compound name, and a non-empty namespace, `'::'` and the class name give back the compound name |
| Classes.TypedefMember | xdress/doxygen.py:868-877 | a typedef as the first member raises UnboundLocalError in the loop as written; the corrected loop skips it |
| Classes.Rewrite | xdress/doxygen.py:756-761 | `_parse_common` updates the shared dictionary in place: every entry holding it reads the new dictionary, the others are unchanged, and no key is added or removed |
| Classes.UnparsedReusesPrevious | xdress/doxygen.py:868-877 | a member of another kind after another member is stored under a fresh key with the previous member's type, description and arguments; every entry holding the shared dictionary becomes equal to the new entry, and the others are unchanged |
| Classes.FreshName | xdress/doxygen.py:881-886 | a name not yet in the section is stored unrenamed |
| Classes.FunctionFirst | xdress/doxygen.py:868-888 | a function first in a section is stored under its own name, and the loop continues with that entry holding the current dictionary |
| Classes.SharedPair | xdress/doxygen.py:868-888 | after a single entry, a member of another kind leaves both names holding the same new dictionary |
| Classes.SharedDictRewritten | xdress/doxygen.py:868-888 | for a section holding a function `f` and then a typedef `T`, the loop as written stores one dictionary under both names, so `f`'s entry carries `T`'s brief description and definition |
| Members.ArgDesc | xdress/doxygen.py:694-696 | with no `arg_dict` the argument is undescribed; with one it takes the description under its name, and KeyError when that is missing |
| Members.ParamDocFields | xdress/doxygen.py:670-674 | one parameter item gives its `parametername` text and its description's first paragraph text, and fails exactly when one of those elements (or the name's text) is missing |
| Members.DocNamesCons | xdress/doxygen.py:670-674 | the documented names of a list are the first item's name and those of the rest |
| Members.ParamDocsFromOk | xdress/doxygen.py:670-674 | a loop that finishes read every parameter item |
| Members.ParamDocsFromKeys | xdress/doxygen.py:670-674 | the `arg_dict` loop adds exactly the documented parameter names to the dictionary it starts from |
| Members.ParamDocsFromLast | xdress/doxygen.py:670-674 | each documented name holds the description of the last item that documents it |
| Members.LastDocumentingTail | xdress/doxygen.py:670-674 | an item that is the last to document its name stays so when the first item is dropped |
| Members.LastDocumentingFirst | xdress/doxygen.py:670-674 | when the first item is the last to document its name, no later item documents it |
| Members.ParamDocsFromKept | xdress/doxygen.py:670-674 | entries the loop started from that no item documents are kept |
| Members.ReadParamDocs | xdress/doxygen.py:670-674 | the `arg_dict` loop's keys are exactly the documented parameter names, and each name maps to the first-paragraph text of the last item documenting it |
| Members.ReadParagraphs | xdress/doxygen.py:656-680 | the branch on the paragraph count gives the detailed text and the `arg_dict` |
| Members.DeclNamesCons | xdress/doxygen.py:688-696 | the declared names of a list of params are the first param's name and those of the rest |
| Members.ArgsFromKeys | xdress/doxygen.py:688-696 | the `args` loop adds exactly the `declname` texts of the params |
| Members.ArgsFromKept | xdress/doxygen.py:688-696 | entries the loop started from that no param declares are kept |
| Members.ArgsFromTypes | xdress/doxygen.py:688-696 | each declared name holds the `type` text of the last param declaring it |
| Members.LastDeclaringTail | xdress/doxygen.py:688-696 | a param that is the last to declare its name stays so when the first param is dropped |
| Members.LastDeclaringFirst | xdress/doxygen.py:688-696 | when the first param is the last to declare its name, no later param declares it |
| Members.ReadArgs | xdress/doxygen.py:688-696 | the `args` loop's keys are exactly the `declname` texts; each name holds the `type` text of the last param declaring it, and a description exactly when there is an `arg_dict`, the one documented under that name |
| Members.ParseFunc | xdress/doxygen.py:650-705 | `_parse_func` fills detailed text, return type, arguments (None when empty) and argument string, or raises |
| Members.ArgsFromProps | xdress/doxygen.py:689-696 | every declared parameter is stored, each described exactly when there is an `arg_dict`, with the description documented under its name |
| Members.ArgsNoneIffNoParams | xdress/doxygen.py:698 | `args` is None exactly when there is no `param` element |
| Members.OneParagraph | xdress/doxygen.py:659-663 | with one paragraph the detailed text is that paragraph's and no argument has a description |
| Members.FuncFieldsParts | xdress/doxygen.py:656-699 | a parsed function's detailed text comes from its paragraph branch, and its arguments from the `args` loop |
| Members.TwoParagraphs | xdress/doxygen.py:664-674 | with two paragraphs the detailed text is the first one's, every parameter is documented in the second one's list, and each argument carries that description |
| Members.OtherParagraphCount | xdress/doxygen.py:675-680 | with any other paragraph count the detailed text is `''` and no argument has a description |
| Members.ParseVariable | xdress/doxygen.py:708-724 | a missing description or paragraph gives `''`; a paragraph's text is kept; only a missing `type` raises |
| Members.BriefText | xdress/doxygen.py:749-755 | the brief description is `''` when its element or paragraph is missing; when both are present it is the paragraph's text, or `''` when the paragraph has none |
| Members.ParseCommon | xdress/doxygen.py:727-761 | adds the brief description and the definition text; raises exactly when there is no `definition` element |
| Docstrings.MoveLastToSecondProps | xdress/doxygen.py:210-213 | on a sorted list, `insert(1, pop())` keeps the elements and their distinctness, leaves the smallest first and puts the largest second, with the rest ascending |
| Docstrings.OrderedMethods | xdress/doxygen.py:171 | the method list is the distinct names (as many as there are), the smallest first, the largest second and the rest ascending; an empty list raises IndexError from `pop` |
| Docstrings.OrderMethods | xdress/doxygen.py:210-213 | the sort, `pop` and `insert` give the ordered list |
| Docstrings.ParamEntry | xdress/doxygen.py:280-282 | an entry starts with `name : type` (`None` for a missing type) |
| Docstrings.ParamEntryLines | xdress/doxygen.py:280-282 | a described argument's entry splits into the head line and the description, an undescribed one into the head line only |
| Docstrings.ParamEntries | xdress/doxygen.py:274-283 | `['None']` when there are no arguments; otherwise one non-empty entry per argument, and every argument has its entry |
| Docstrings.BuildParams | xdress/doxygen.py:274-283 | the loop builds the parameter entries |
| Docstrings.ReturnEntries | xdress/doxygen.py:285-296 | `['None']` for no return type, `['res1 : t']` for one type, and for a list one entry per type numbered `res1`, `res2`, … |
| Docstrings.ReturnNumbersDistinct | xdress/doxygen.py:290-296 | the entries of a type list carry distinct `resN` labels |
| Docstrings.BuildReturns | xdress/doxygen.py:285-296 | the loop counting from 1 builds the return entries |
| Docstrings.AppendRest | xdress/doxygen.py:313-317 | appends the wrapped further lines and reports whether there were any |
| Docstrings.AppendParamBlocks | xdress/doxygen.py:308-322 | appends, per parameter, its wrapped first line, further lines and one blank line after it only when it had further lines |
| Docstrings.AppendReturnBlocks | xdress/doxygen.py:330-338 | appends, per return value, its wrapped lines each closed by a newline |
| Docstrings.FuncDocOk | xdress/doxygen.py:270-283 | `func_docstr` succeeds exactly on a function dictionary with a detailed text; a None detailed text raises TypeError |
| Docstrings.FuncDocstr | xdress/doxygen.py:241-347 | the docstring: the wrapped description, the Parameters section and the Returns section |
| Docstrings.GroupKeys | xdress/doxygen.py:174-175 | the section kinds containing `attrib` or `func`, and no others |
| Docstrings.Flatten | xdress/doxygen.py:177-186 | the flattened dictionary holds exactly the names of the grouped sections |
| Docstrings.FlattenSections | xdress/doxygen.py:178-186 | the flattening loops build the flattened dictionary |
| Docstrings.VarLine | xdress/doxygen.py:195-200 | a variable's line can be written exactly when an `attrib` section holds it as a variable with a detailed text |
| Docstrings.MethodLine | xdress/doxygen.py:215-222 | a method's line can be written exactly when a `func` section holds it; without `desc_funcs` it is the bare name |
| Docstrings.VarLinesOk | xdress/doxygen.py:195-200 | the variable loop succeeds exactly when every listed variable is documented |
| Docstrings.MethodLinesOk | xdress/doxygen.py:215-222 | the method loop succeeds exactly when every method is in a `func` section |
| Docstrings.AppendVarLines | xdress/doxygen.py:195-200 | the variable loop yields the Attributes lines or its first exception |
| Docstrings.AppendMethodLines | xdress/doxygen.py:215-222 | the method loop yields the Methods lines or its first exception |
| Docstrings.ClassDocOk | xdress/doxygen.py:165-238 | `class_docstr` succeeds exactly when the class has a described constructor, every listed variable is documented, the method list is not empty and every method is in a `func` section |
| Docstrings.ClassDocstr | xdress/doxygen.py:144-238 | the class docstring: description, Attributes, ordered Methods and Notes |
| Plugin.NamesStarting | xdress/doxygen.py:1027 | the names of a section that start with `m`, each once |
| Plugin.Tagged | xdress/doxygen.py:1028 | each name of a section paired with the section's key, in order |
| Plugin.MatchPairs | xdress/doxygen.py:1024-1028 | a pair (section, name) is listed exactly when the section is searched and the name starts with `m` |
| Plugin.MatchesPointwise | xdress/doxygen.py:1024-1028 | the matches are, one for one and in order, the members named by the pairs |
| Plugin.PairsDistinct | xdress/doxygen.py:1024-1028 | over distinct sections no pair is listed twice |
| Plugin.MatchesArePairs | xdress/doxygen.py:1024-1028 | the matches correspond one for one to the pairs, and the pairs are distinct |
| Plugin.CollectMatches | xdress/doxygen.py:1023-1031 | the loop over the searched sections extends `matches` section by section |
| Plugin.MethodMatches | xdress/doxygen.py:1019-1031 | `m` is matched across the sections whose kind contains `func` |
| Plugin.MatchesSpec | xdress/doxygen.py:1019-1031 | every entry of a `func` section whose name starts with `m` is matched exactly once, and nothing else is; the `i`-th match is the entry named by the `i`-th (section, name) pair |
| Plugin.Banner | xdress/doxygen.py:1043 | the separator is 64 `#` characters followed by `"\n\n"` |
| Plugin.Renderings | xdress/doxygen.py:1038 | one rendering per match in order; fails exactly when some match fails to render |
| Plugin.RenderAll | xdress/doxygen.py:1038 | the list comprehension gives the renderings with `func_docstr(…, is_method=True)` |
| Plugin.MethodDoc | xdress/doxygen.py:1033-1050 | no match stores nothing; one match stores its own docstring; more store the wrapped notice and the renderings; a docstring is stored exactly when there is a match |
| Plugin.OverloadedDoc | xdress/doxygen.py:1037-1046 | with several matches the notice is followed by the renderings of all matches in order, joined by the banner |
| Plugin.RenderIsFuncDoc | xdress/doxygen.py:1034 | a match renders as a method's function docstring, which fails exactly on a non-function or a None detailed text |
| Plugin.MethodDocstring | xdress/doxygen.py:1033-1050 | the branch on the number of matches gives the method's docstring outcome |
| Plugin.DocumentMethod | xdress/doxygen.py:1022-1050 | matching and then branching give the method's docstring outcome |
| Plugin.DocsFromKeys | xdress/doxygen.py:1022-1050 | the loop stores exactly the methods that have a docstring and keeps the earlier ones |
| Plugin.DocsFromOk | xdress/doxygen.py:1022-1050 | a loop that finishes found an outcome for every method |
| Plugin.MethodDocsKeys | xdress/doxygen.py:1022-1050 | a method gets a docstring exactly when some entry matches it; unmatched methods are skipped and earlier docstrings stay |
| Plugin.DocsFromKept | xdress/doxygen.py:1022-1050 | an earlier docstring stays unless the loop finds a new one for its method |
| Plugin.DocsFromStored | xdress/doxygen.py:1022-1050 | every method whose docstring is found has that docstring stored |
| Plugin.MethodDocForSome | xdress/doxygen.py:1033-1050 | a method has a docstring exactly when some entry matches it |
| Plugin.MethodDocsValues | xdress/doxygen.py:1022-1050 | each matched method stores the docstring `Plugin.MethodDoc` gives for its matches: the one rendering for one match, the notice plus the renderings for several |
| Plugin.MethodDocsKept | xdress/doxygen.py:1022-1050 | an earlier docstring stays unless its method has a match |
| Plugin.DocumentMethods | xdress/doxygen.py:1022-1050 | the method loop of one class stores a docstring for exactly the matched methods, each the one `Plugin.MethodDoc` gives for its matches, or raises the first exception |
| Plugin.MissingClassSkipped | xdress/doxygen.py:996-1001 | a class absent from the index is skipped and leaves the index unchanged |
| Plugin.RepeatedClassPrefix | xdress/doxygen.py:1003-1004 | the class's file name in the index gains the `<build>/xml/` prefix, and every other class's entry is unchanged |
| Plugin.DocumentEntry | xdress/doxygen.py:1005-1050 | one indexed class is parsed, gets its class docstring, then its method docstrings |
| Plugin.DocumentClass | xdress/doxygen.py:991-1050 | the class loop body: the outcome for one requested class and the index afterwards |
| Plugin.DocumentClasses | xdress/doxygen.py:991-1050 | the class loop gives the outcome of every requested class in order, or the first exception |
| Plugin.DocumentBuild | xdress/doxygen.py:985-1050 | reads `<build>/xml/index.xml` and runs the class loop over its classes; fails when the index is missing or malformed |
| Plugin.Execute | xdress/doxygen.py:970-1050 | the doxyfile text is the serialised configuration, and the documentation outcome is that of the build |

## Left out

- Running doxygen (`subprocess.call`) and writing the doxyfile (`newoverwrite`) are process and file I/O, not modelled (xdress/doxygen.py:980-983). `Plugin.Execute` returns the doxyfile text instead.
- `print` calls are output only.
- `etree.parse` and the import fallback chain are not modelled. Documents are `Xml.Element` values in a map from path to root element, and a path not in the map is an IOError.
- `fix_xml_links` (xdress/doxygen.py:633-647) is a file rewrite done with a regular-expression library, not modelled.
- `TextWrapper.fill` is library code that cannot be seen. It is the uninterpreted parameter `fill`, and no width bound is claimed for it.
- The free-function loop of `execute` (xdress/doxygen.py:1053-1081) is not modelled: it cannot work as written. `f` is the whole tuple, so `f in x` and `funcs[f]` fail, and `matches is not None` always holds. `parse_function` (xdress/doxygen.py:764-780) is used only there and is not modelled either.
- The `default_doxygen_config` table (xdress/doxygen.py:359-546) is data, not modelled.
- The writes into the host registry (`rc.env`, `rc.classes`, `rc.functions`) and the registration of `merge_configs` as an `rcupdaters` entry belong to the host pipeline.
  - The class loop returns a `Plugin.ClassOutcome` per requested class instead of writing into `rc.env`.
  - A class's methods are given as the names the registry lists.
  - A class or module missing from `rc.env` is not modelled.
- Classes.ParseClass: builds every section with the corrected member loop `Classes.SectionFrom`, which skips members that are neither functions nor variables. On a class whose first member (across its sections, in document order) is a typedef, enum or other kind, the source raises UnboundLocalError; on a later one it reuses and rewrites the previous dictionary (see "## Findings"). `ParseClass` and the whole `Plugin` chain built on it do neither.
- Plugin.DocumentMethods: starts from no method docstrings. In the source, a `docstrings` dictionary already in the registry is kept and added to. `Plugin.MethodDocsKeys` states the loop for any starting dictionary.
- Config.Setup: `setup` updates the configuration in place. The model returns the updated map.
- Config.DoxDictToStr: values are only booleans, strings and integers; other Python values and their `str` are not modelled. The order of the lines is the dictionary's own, which is unspecified. The model takes any enumeration `order` of the keys and states nothing about it. When the last value is empty, `strip` also removes the space after its `=`; `Config.OnlyFinalNewlineStripped` excludes that case.
- Strings.Upper: upper-cases ASCII letters only, which is what `str.upper` does on Python 2 byte strings.
- Plugin.NamesStarting, Docstrings.GroupKeys, Docstrings.ParamEntries and Docstrings.Flatten visit dictionaries in ascending key order, standing for Python 2's unspecified dictionary order. This changes the order of the matches, the argument entries, and which section wins for a name found in two sections.
- Index.ReadFuncs, Index.ReadMembers, Classes.SectionFrom, Classes.SectionAsWritten, Members.ParamDoc and Members.ArgsFrom stop with `NoneKey` on a name element without text. The source would use `None` as a dictionary key or list entry and fail, or not, later.
- A section kind equal to one of the other keys of the class dictionary (`kls_name`, `members`, `file_name`, `namespace`) would be overwritten by it in the source. The model keeps sections apart from those keys.
- Docstrings.Returning: the `TypeList` case (a list of return types) is modelled as the source handles it. `ret_type` comes from one element's text. When lxml returns that text as `unicode`, which it does for non-ASCII text, the `isinstance(returning, str)` test fails and the source iterates over the characters, which is the `TypeList` case; the model's parsed members never produce it, because all texts are one string type.
- Docstrings.FuncDoc: all texts are one string type. In the source, a parameter or return entry built from `unicode` text is itself `unicode`, and `str.splitlines` on it raises TypeError; that exception is not modelled.
- Classes.SectionAsWritten: models one section. In the source, `mem_dict` also survives from one section to the next, so a member of another kind first in a section reuses the last dictionary of the previous section and rewrites its entries there too; the model starts each section with no shared entries.
- In `execute`, `class_docstr` is called with `desc_funcs` at its default `False`, so `Plugin.ClassDocs` passes `false`.
- `os.path.sep` is the parameter `sep`.

## Findings

| source | as written | input that shows it | evidently intended | confidence | as-written member | corrected member |
|---|---|---|---|---|---|---|
| xdress/doxygen.py:868-877 | only the `function` and `variable` branches assign `mem_dict`; a member of any other kind reuses the previous member's dictionary, or raises UnboundLocalError when it comes first | a class whose first `memberdef` in its first section has `kind="typedef"` (doxygen writes such members into `public-type` sections) | members of other kinds are skipped | not executed | Classes.TypedefMember | Classes.SectionGrows |

`Classes.SectionAsWritten` and `Classes.MemberAsWritten` model the loop as written, including the in-place update of the shared dictionary by `_parse_common`: `shared` is the set of keys whose entries hold it. `Classes.TypedefMember` exhibits the UnboundLocalError. `Classes.UnparsedReusesPrevious` shows the previous member's type and arguments being reused and every entry holding the dictionary being rewritten. `Classes.SharedDictRewritten` shows the consequence: after a function `f` and a typedef `T`, the entry of `f` carries `T`'s brief description and definition. The rest of the model uses `Classes.SectionFrom`, which skips such members. `Classes.SectionGrows` proves that with it a section gains exactly one entry per function or variable member, and that no entry is ever overwritten.
