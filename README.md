# LinkedQL method synthesiser — a Dafny model

The Cayley Python client generates its query-building class `Path`. The
generator, `generate/generate.py`, reads the LinkedQL ontology. This is a
JSON-LD `@graph` of nodes carrying `@id`, `@type`, `rdfs:subClassOf`,
`rdfs:domain` (possibly an `owl:unionOf` list), `rdfs:range`,
`owl:cardinality`, `owl:onProperty` and `rdfs:comment`. For every *step
class* of the ontology it synthesises one method and appends it to class
`Path` of a header module. Each method has:

- a name derived from the class id;
- `self` plus one annotated argument per domained property (once per domain
  entry naming the class), except a property whose stripped name is `from`;
- a docstring taken from the class comment;
- a body that passes a step dictionary to `__add_step` or `__add_final_step`.

This project models that generator in Dafny and proves what it computes.

| file | module | models |
|---|---|---|
| `wrappers.dfy` | `Wrappers` | `Option` and `Result`; a Python exception is a `Failure` |
| `schema.dfy` | `Schema` | JSON-LD nodes (`Doc`, an absent key is `None`), the exceptions, and `normalize_list`, `is_step_class`, `is_restriction`, `is_single_cardinality_restriction`, `is_property`, `get_domains` |
| `names.dfy` | `Names` | `remove_linked_ql` (Python's `str.replace`) and `normalize_keywords` |
| `ordering.dfy` | `Ordering` | Python's `<` on `str` and the stable `sorted(..., key=@id)` |
| `types.dfy` | `Types` | the annotation expressions and `range_to_type` |
| `extract.dfy` | `Extract` | the first loop of `generate()`, which builds `step_classes` and `properties_by_domain` |
| `synthesize.dfy` | `Synthesize` | one iteration of the per-class loop: superclass scan, argument loop, `name_to_property_name`, step dictionary, return target, docstring |
| `generate.dfy` | `Generate` | `generate()`: the header check, both loops, and appending to the body of class `Path` |

Each part of the code that works step by step is a Dafny `method` with a loop:
- the extraction loop (`Extract.ExtractSchema`) and its inner domain loop (`Extract.AddToDomains`);
- the superclass loop (`Synthesize.ScanSuperClasses`) and the argument loop
  (`Synthesize.BuildArguments`), which the loop body `Synthesize.SynthesizeStepMethod` runs in turn;
- the per-class loop that grows the class body (`Generate.Generate`).

Each such method is proved equal to a specification function. That function
is written as "the loop from this state over what is still to be read", and
the method's loop invariant is that function. Lemmas then state what the
function means, independently of how it is written:
- which nodes are step classes, and which properties each class receives;
- the exact argument list;
- the step dictionary;
- when generation raises, and which exception it raises.

On a schema of the modelled shape (see "Left out" for the shapes that are
not), every exception the code raises is a `Failure`, raised in the order
the code reads the keys:
- a missing key is a `KeyError` naming the key;
- an unknown range is `UnexpectedRange`;
- an empty header is `IndexError`;
- a header not ending in class `Path` is `AssertionError`.

No entry point (`Generate.GenerateSpec`, `Generate.Generate`,
`Extract.ExtractSchema`, `Synthesize.SynthesizeSpec`) has a precondition that
rules out malformed input. The helpers that require ids are only reached
after the code has read those ids.

Some behaviours of the code are easy to misread as the generator's intent.
The model follows the code:
- **Direct superclasses only.** A step class is recognised from its direct
  superclasses only; there is no transitive closure.
- **`from` counts toward arity.** The positional or keyword-only choice uses
  `len(properties)`, which counts a property named `from`, although that
  property gets no argument.
- **No `from` key.** The step dictionary never has a `from` key.
- **`typing.List`.** Multi-valued arguments are annotated `typing.List[...]`.
- **Only `Path` methods.** Methods are generated only into class `Path`; no
  module-level functions are generated.
- **Fixed indent.** The docstring indent is always eight spaces.
- **No all-or-nothing write.** `generate/__main__.py` truncates the output
  file before generating, so a run that raises leaves an empty file.

## Model

| member | source | states |
|---|---|---|
| Schema.NormalizeList | generate/generate.py:14-17 | a list comes back unchanged; a single node becomes a one-element list |
| Schema.IsStepClass | generate/generate.py:24-29 | raises KeyError "@id" if a direct superclass has no id, else KeyError "@type" if the node has none; otherwise true iff the type is rdfs:Class or owl:Class and some direct superclass id is linkedql:PathStep or linkedql:IteratorStep |
| Schema.IsProperty | generate/generate.py:40-41 | raises KeyError "@type" exactly when the type is missing; otherwise true iff the type is owl:ObjectProperty or owl:DatatypeProperty |
| Schema.IsRestriction | generate/generate.py:32-33 | reads "@type" with `.get`, so a node without "@type" is simply not a restriction and raises nothing; only the exact type owl:Restriction counts. Its effect on the superclass scan is stated by Synthesize.ScanFromCorrect and Synthesize.ScanFromError |
| Schema.IsSingleCardinalityRestriction | generate/generate.py:36-37 | reads "owl:cardinality" with `.get`, so an absent cardinality is false rather than a KeyError; only a cardinality of exactly 1 counts. Its effect on the superclass scan (which properties are single-valued, and when owl:onProperty is read at all) is stated by Synthesize.ScanFromCorrect and Synthesize.ScanFromError |
| Schema.GetDomains | generate/generate.py:104-110 | the owl:unionOf members in order when present, otherwise the domain itself exactly once |
| Schema.PropertyIsNeverStepClass | generate/generate.py:20-41 | a node that is a property is never a step class |
| Schema.DirectSuperclassesOnly | generate/generate.py:24-29 | a class none of whose direct superclasses is linkedql:PathStep or linkedql:IteratorStep is not a step class, whatever those superclasses are themselves |
| Schema.StepClassIsNotInherited | generate/generate.py:24-29 | an example: a class whose only superclass is a step class is not a step class itself |
| Names.RemoveLinkedQlIdentity | generate/generate.py:44-45 | a name comes back unchanged iff it holds no "linkedql:" anywhere |
| Names.RemoveLinkedQlShortens | generate/generate.py:44-45 | a name holding "linkedql:" loses at least its nine characters |
| Names.RemoveLeadingLinkedQl | generate/generate.py:44-45 | a leading "linkedql:" is dropped and the rest is processed alike |
| Names.RemoveInnerLinkedQl | generate/generate.py:44-45 | an occurrence after the start is removed too: "ex:linkedql:Foo" becomes "ex:Foo" |
| Names.RemoveLinkedQlIsSinglePass | generate/generate.py:44-45 | one scan only: removing an inner occurrence can splice a new "linkedql:" that stays in the result |
| Names.NormalizeKeywords | generate/generate.py:98-101 | the name changes iff it is as, is, in or except; it then gets a trailing underscore; the result is never one of the four |
| Names.NormalizeKeywordsIdempotent | generate/generate.py:98-101 | normalising twice equals normalising once |
| Ordering.SortById | generate/generate.py:152 | the sort is a permutation of its input |
| Ordering.SortByIdSorted | generate/generate.py:152 | the sort gives ascending "@id" order |
| Ordering.SortByIdStable | generate/generate.py:152 | nodes sharing an "@id" keep their schema order |
| Types.RangeToType | generate/generate.py:48-95 | succeeds exactly for the ten known range ids; a missing id raises KeyError "@id"; an unknown id raises with the offending range; no known range is itself a typing.List |
| Extract.IndexDomainsSucceeds | generate/generate.py:127-130 | the domain loop raises iff some domain member lacks "@id", and the exception is then KeyError "@id" |
| Extract.IndexDomainsLookup | generate/generate.py:127-130 | after the domain loop, each class id's list has gained the property once per domain member with that id; ids not among the members keep their lists |
| Extract.AddToDomains | generate/generate.py:127-130 | the setdefault/append loop computes IndexDomains |
| Extract.ExtractOneSucceeds | generate/generate.py:126-132 | one node raises exactly the exception DocError gives for it |
| Extract.ExtractOneLookup | generate/generate.py:126-130 | a node that raises nothing is listed under class c once per domain member with id c, and only if it is a property |
| Extract.ExtractFromSucceeds | generate/generate.py:125-132 | the loop from any state raises iff some node raises, and then with the first such node's exception |
| Extract.ExtractFromStepClasses | generate/generate.py:125-132 | a successful loop appends exactly the step classes of the nodes read, in order |
| Extract.ExtractFromLookup | generate/generate.py:125-130 | a successful loop appends PropsFor c under every class id c |
| Extract.ExtractSpecCorrect | generate/generate.py:122-132 | from the empty start: step_classes is StepClassesOf the graph, properties_by_domain.get(c, []) is PropsFor c, or the first node's exception |
| Extract.StepClassesOfMembers | generate/generate.py:131-132 | a node is listed as a step class iff it is in the graph and is a step class |
| Extract.PropsForMembers | generate/generate.py:126-130 | a node is listed under class c iff it is a property of the graph with a domain member whose id is c |
| Extract.ExtractSchema | generate/generate.py:122-132 | the extraction loop computes ExtractSpec: the first exception, or the step classes in schema order and PropsFor under every class id |
| Synthesize.Put | generate/generate.py:156 | storing into the dict keeps an existing key in place and appends a new key last; afterwards the key maps to the new value and every other key keeps its value |
| Synthesize.ScanSuperClasses | generate/generate.py:135-144 | the superclass loop computes ScanFrom from an empty set and is_path_step false |
| Synthesize.ScanFromCorrect | generate/generate.py:135-144 | the superclass loop raises iff some superclass lacks "@id", or is a cardinality-1 restriction without an owl:onProperty id; otherwise is_path_step says whether some direct superclass is linkedql:PathStep, and single_properties holds exactly the owl:onProperty ids of those restrictions |
| Synthesize.BuildArguments | generate/generate.py:150-167 | the argument loop, from [self], no keyword-only arguments and an empty dict, computes BuildArgsFrom |
| Synthesize.BuildArgsFromSucceeds | generate/generate.py:152-157 | the argument loop raises iff some property not named "from" has a missing or unknown range |
| Synthesize.BuildArgsFromNames | generate/generate.py:152-156 | the loop stores every property not named "from", in order, into name_to_property_name |
| Synthesize.BuildArgsFromArgs | generate/generate.py:150-167 | the loop appends one argument per property not named "from", in order, to the one list the arity selects, and leaves the other list unchanged |
| Synthesize.PropertyTypeMeaning | generate/generate.py:157-162 | the annotation succeeds exactly when the range has an id among the ten known ones; it is a typing.List exactly when the property is not single-valued (no known range is itself a List) |
| Synthesize.FilterNotFromWithId | generate/generate.py:152-155 | skipping "from" keeps every property of a given id, in order, unless the id strips to "from", when it keeps none |
| Synthesize.BoundStable | generate/generate.py:152-155 | the bound properties with one "@id" are the domained properties with that id in schema order, or none when the id strips to "from" |
| Synthesize.FilterNotFromSorted | generate/generate.py:152-155 | skipping "from" keeps the ascending "@id" order |
| Synthesize.BoundMembers | generate/generate.py:152-155 | the bound properties are the domained properties not named "from", with their multiplicities |
| Synthesize.SynthesizeSucceedsIff | generate/generate.py:134-184 | one class synthesises iff every key it reads is present and every bound range is known |
| Synthesize.ScanFromError | generate/generate.py:137-144 | the superclass loop raises iff some superclass raises, and then with the first such superclass's exception: KeyError "@id", then for a cardinality-1 restriction KeyError "owl:onProperty" or KeyError "@id" |
| Synthesize.PropertyTypeError | generate/generate.py:157 | annotating a property raises KeyError "rdfs:range" without a range, KeyError "@id" for a range without an id, UnexpectedRange for an unknown range id, and nothing otherwise |
| Synthesize.BuildArgsFromError | generate/generate.py:152-157 | the argument loop raises iff some property not named "from" raises on its range, and then with the first such property's exception |
| Synthesize.SynthesisErrorCorrect | generate/generate.py:134-184 | one class raises iff SynthesisError names an exception, and then raises exactly that one: "rdfs:subClassOf", then the superclasses in order, then the class "@id", then the properties' "@id", then the first bound property's range in ascending id order, then "rdfs:comment" |
| Synthesize.SynthesizedParts | generate/generate.py:134-189 | a synthesised method combines the superclass scan's findings with the argument loop's result |
| Synthesize.SynthesizedSignature | generate/generate.py:145-167 | name is normalize_keywords(convert(remove_linked_ql(id))); self comes first, then one argument per bound property; all positional iff at most two domained properties (counting "from"), otherwise all keyword-only |
| Synthesize.BoundArguments | generate/generate.py:152-163 | the bound properties are in ascending "@id" order; each argument is named by its property's stripped id, never "from", and annotated with its range type, inside typing.List unless single-valued |
| Synthesize.SynthesizedStepDict | generate/generate.py:148-181 | the dict is "@type" mapped to the class id, then one entry per distinct argument name of the bound properties, in first-occurrence order, mapping the id of the last bound property of that name to that name; each later key is a bound property's id paired with its own name, and none strips to "from" |
| Synthesize.SynthesizedTable | generate/generate.py:148-181 | the keys and values of the dict are read off name_to_property_name as built from the bound properties |
| Synthesize.StepDictOrder | generate/generate.py:156-181 | the entries after "@type" follow the first occurrences of the names, each holding the last id stored under its name |
| Synthesize.StepDictBound | generate/generate.py:156-181 | each entry after "@type" pairs some bound property's id with the argument of that property's name, so no such key strips to "from" |
| Synthesize.StepDictEntries | generate/generate.py:176-181 | the keys and values lists pair "@type" with the class id, then each dict entry's id with its name, index by index |
| Synthesize.SynthesizedStepDictWithoutCollisions | generate/generate.py:176-181 | when no two bound properties share a name, the keys after "@type" are the property ids in argument order and the values are their argument names |
| Synthesize.NameTableOf | generate/generate.py:156 | the dict built from the bound properties has distinct names, in the order of their first occurrence, exactly the names met, each mapped to the last id of that name; every entry is some bound property's (name, id), so no id strips to "from" |
| Synthesize.FirstOccurrences | generate/generate.py:156 | the reference order of a dict's keys: the distinct elements, with the same members as the input |
| Synthesize.PutEntries | generate/generate.py:156 | after storing, every entry is an old entry or the stored pair |
| Synthesize.PutAllEntries | generate/generate.py:156 | after storing properties, every entry is an old entry or some property's (name, id) |
| Synthesize.PutAllSnoc | generate/generate.py:152-156 | storing one more property is one more store after the others |
| Synthesize.PutAllKeys | generate/generate.py:156 | the names stored into an empty dict keep the order of their first occurrence |
| Synthesize.GetEntry | generate/generate.py:156 | with distinct names, looking up an entry's name finds that entry's id |
| Synthesize.PutAllTable | generate/generate.py:156 | storing properties keeps names distinct, adds exactly their names, and only ever stores their ids |
| Synthesize.PutAllGet | generate/generate.py:156 | looking a name up after storing finds the id of the last property bearing it |
| Synthesize.PutAllNoCollision | generate/generate.py:156 | without name collisions, storing appends each property's (name, id), in order, after the existing entries |
| Synthesize.CollidingNamesShareOneEntry | generate/generate.py:153-156 | "foo" and "linkedql:foo" both become argument "foo", yet share one dict entry holding "linkedql:foo" |
| Synthesize.SynthesizedReturnAndDocstring | generate/generate.py:182-188 | returns Path via __add_step iff some direct superclass is linkedql:PathStep, otherwise FinalPath via __add_final_step; the docstring is a newline and the eight-space indent, the comment, then a newline and the indent again |
| Synthesize.UnknownRangeAborts | generate/generate.py:152-157 | a domained property not named "from" whose range id is unknown makes its class raise |
| Synthesize.FromCountsTowardArity | generate/generate.py:152-167 | three domained properties, one of them "from", give two keyword-only arguments and only self positional |
| Synthesize.SynthesizeStepMethod | generate/generate.py:134-189 | the loop body computes SynthesizeSpec |
| Generate.SynthesizeAllFromSucceeds | generate/generate.py:134-205 | for any per-class synthesis function (generate() uses SynthesizeSpec, via Synthesizer), the per-class loop succeeds iff every step class synthesises |
| Generate.SynthesizeAllFromValue | generate/generate.py:134-205 | for any per-class synthesis function, a successful per-class loop keeps the methods built so far, then holds one method per step class, in order |
| Generate.SynthesizeAllFromFirstFailure | generate/generate.py:134-205 | for any per-class synthesis function, a failing per-class loop reports the exception of the first step class that raises, all earlier ones having succeeded |
| Generate.AppendedBody | generate/generate.py:205 | appending the methods keeps the old body of class Path and adds one function definition per step class, in order |
| Generate.GenerateChecksInOrder | generate/generate.py:119-125 | an empty header raises IndexError; a header not ending in class Path raises AssertionError; then a missing "@graph" raises KeyError; then the first unreadable node raises its exception |
| Generate.GenerateSucceedsIff | generate/generate.py:119-205 | generation succeeds iff the header ends in class Path, the graph is readable and every step class synthesises; otherwise it reports the first failing step class's exception |
| Generate.GenerateRaisesFirstSynthesisError | generate/generate.py:134-205 | once the header and the graph are read, generation fails iff SynthesisError names an exception for some step class, and then raises the one named for the first such class in schema order |
| Generate.GenerateAppendsMethods | generate/generate.py:119-205 | on success, every header statement but the last is unchanged; the last is class Path with its old body followed by exactly one method per step class, in schema order |
| Generate.GenerateAbortsOnUnknownRange | generate/generate.py:152-157 | a step class of the graph with a bound property of unknown range makes the whole generation fail |
| Generate.Generate | generate/generate.py:113-206 | the generator computes GenerateSpec |

## Left out

- Parsing `header.py` and rendering the module with `astor` are left out. They are a foreign library. The header is a list of `Stmt` values, and the result is the extended list, not source text.
- Reading `schema.json` and `header.py` from disk is left out. It is I/O. The parsed "@graph" is an input, and `None` models a schema without that key.
- `snake_case.convert` is not part of this model. Its source is not available, so it is a function parameter `convert`, about which nothing is assumed.
- `generate/__main__.py` is left out. It is file writing, and it truncates the output before generation, so the model makes no claim about what is on disk after a failure.
- `cayley/client.py` is left out. It is network I/O with retries and sleeps.
- `generate/header.py` is left out. It wraps `json.dumps`. The `__add_step` and `__add_final_step` helpers are not in it, so the generated methods are modelled only up to the call they make.
- `setup.py` is left out. It is packaging metadata.
- `cayley/client_test.py` is left out. It only exercises the generated module at run time.
- JSON values of unexpected shape are not modelled, such as a superclass given as a string or a "@type" that is not a string. A node is a record with optional fields.
- Schema.IsStepClass: a "@type" that is a list is not modelled. Python would raise TypeError on the set test.
- Schema.IsSingleCardinalityRestriction: the cardinality is an integer. Python's `== 1` also accepts `1.0` and `True`, and this is not modelled.
- Schema.GetDomains: `owl:unionOf` is modelled as the member list itself. An `owl:unionOf` without "@list" raises KeyError in Python, and that error is not modelled.
- `kwonlyargs or None` is not modelled; an empty keyword-only list stays an empty sequence. The fixed parts of `ast.arguments` (no varargs, no defaults) and of the method body (the docstring expression, then `return self.<target>(<dict>)`) are implied by the record rather than stored.
- Synthesize.SynthesizeStepMethod: the argument annotations and the return annotation are `TypeExpr` trees; the step dictionary is two lists, its keys as strings and its values as `DictValue`s (the class id constant or an argument name), rather than `ast.Constant`/`ast.Name` nodes. The `ast.Index`/`ast.ExtSlice` wrappers are folded into the subscript's list of elements.
- `Stmt.ClassDef` holds only a class's name and body. The `@dataclass` decorator and the `BasePath` base of class `Path` in `generate/header.py` (lines 45-47) are not represented. So "the last statement is class Path with its old body followed by the methods" speaks only of name and body; the decorator and base are carried over in the code, but the model does not show it.
- Generate.Generate: the body of class `Path` is extended in a local copy and the new module is returned, rather than mutating the parsed module in place. Nothing else holds a reference to it.
- Generate.GenerateSucceedsIff: a failure stops generation in the model as the exception does in the code. The partially extended class body is then discarded, as is the module.
