/**
 * The per-class body of the second loop of generate(): from one step class
 * and the property index, the method definition the generator appends to
 * class Path — its name, its arguments and their annotations, the step
 * dictionary it passes on, its return annotation and its docstring.
 */
module Synthesize {
  import opened Wrappers
  import opened Schema
  import opened Names
  import opened Ordering
  import opened Types
  import opened Extract

  /** `ast.arg`: a parameter name and its annotation, if any. */
  datatype Arg = Arg(name: string, annotation: Option<TypeExpr>)

  /** A value of the step dictionary: `ast.Constant` or `ast.Name`. */
  datatype DictValue = ConstValue(s: string) | NameValue(id: string)

  /**
   * The generated `ast.FunctionDef`. Its body is always a docstring and
   * `return self.<callTarget>({<stepDictKeys>: <stepDictValues>})`.
   */
  datatype MethodSpec = MethodSpec(
    name: string,
    positionalArgs: seq<Arg>,
    kwOnlyArgs: seq<Arg>,
    returnType: TypeExpr,
    callTarget: string,
    stepDictKeys: seq<string>,
    stepDictValues: seq<DictValue>,
    docstring: string)

  const SelfArg: Arg := Arg("self", None)
  const DocstringIndent: string := "        "
  const AddStep: string := "__add_step"
  const AddFinalStep: string := "__add_final_step"

  function Docstring(comment: string): string {
    "\n" + DocstringIndent + comment + "\n" + DocstringIndent
  }

  // ---------------------------------------------------------------------------
  // name_to_property_name: a Python dict, whose keys keep insertion order

  /** Argument name to property id, in the order the names were first stored. */
  type NameTable = seq<(string, string)>

  function Keys(t: NameTable): seq<string> {
    if t == [] then [] else [t[0].0] + Keys(t[1..])
  }

  function Values(t: NameTable): seq<string> {
    if t == [] then [] else [t[0].1] + Values(t[1..])
  }

  /** `t.get(k)` */
  function Get(t: NameTable, k: string): Option<string> {
    if t == [] then None
    else if t[0].0 == k then Some(t[0].1)
    else Get(t[1..], k)
  }

  predicate Distinct(s: seq<string>) {
    forall i, j :: 0 <= i < j < |s| ==> s[i] != s[j]
  }

  /**
   * `t[k] = v`: an existing key keeps its place and takes the new value; a
   * new key goes last.
   */
  function Put(t: NameTable, k: string, v: string): (r: NameTable)
    ensures k in Keys(t) ==> Keys(r) == Keys(t)
    ensures k !in Keys(t) ==> Keys(r) == Keys(t) + [k]
    ensures forall k' :: Get(r, k') == if k' == k then Some(v) else Get(t, k')
    ensures forall x <- Values(r) :: x == v || x in Values(t)
    decreases |t|
  {
    if t == [] then [(k, v)]
    else if t[0].0 == k then [(k, v)] + t[1..]
    else
      var r := [t[0]] + Put(t[1..], k, v);
      assert r[1..] == Put(t[1..], k, v);
      r
  }

  lemma {:induction false} KeysValuesLength(t: NameTable)
    ensures |Keys(t)| == |t| && |Values(t)| == |t|
    ensures forall i | 0 <= i < |t| :: Keys(t)[i] == t[i].0 && Values(t)[i] == t[i].1
    decreases |t|
  {
    if t != [] {
      KeysValuesLength(t[1..]);
    }
  }

  lemma DistinctAppend(s: seq<string>, k: string)
    requires Distinct(s) && k !in s
    ensures Distinct(s + [k])
  {
  }

  /** With distinct keys, looking up an entry's key finds that entry's value. */
  lemma {:induction false} GetEntry(t: NameTable, j: int)
    requires Distinct(Keys(t)) && 0 <= j < |t|
    ensures Get(t, t[j].0) == Some(t[j].1)
    decreases |t|
  {
    KeysValuesLength(t);
    if j > 0 {
      assert Keys(t)[0] != Keys(t)[j];
      KeysValuesLength(t[1..]);
      assert Distinct(Keys(t[1..])) by {
        forall a, b | 0 <= a < b < |t[1..]|
          ensures Keys(t[1..])[a] != Keys(t[1..])[b]
        {
          assert Keys(t)[a + 1] != Keys(t)[b + 1];
        }
      }
      GetEntry(t[1..], j - 1);
    }
  }

  // ---------------------------------------------------------------------------
  // The scan of the direct superclasses

  /** What the superclass loop gathers: is_path_step and single_properties. */
  datatype SuperScan = SuperScan(isPathStep: bool, single: set<string>)

  /** One superclass: "@id" is indexed; a cardinality-1 restriction adds its property. */
  function ScanOne(acc: SuperScan, s: Doc): Result<SuperScan, Error> {
    if s.id.None? then Failure(KeyError("@id"))
    else
      var isPathStep := acc.isPathStep || s.id.value == PathStepId;
      if IsRestriction(s) && IsSingleCardinalityRestriction(s) then
        if s.onProperty.None? then Failure(KeyError("owl:onProperty"))
        else if s.onProperty.value.id.None? then Failure(KeyError("@id"))
        else Success(SuperScan(isPathStep, acc.single + {s.onProperty.value.id.value}))
      else Success(SuperScan(isPathStep, acc.single))
  }

  /** The superclass loop from state `acc` over the superclasses still to read. */
  function ScanFrom(acc: SuperScan, sups: seq<Doc>): Result<SuperScan, Error>
    decreases |sups|
  {
    if sups == [] then Success(acc)
    else
      var next :- ScanOne(acc, sups[0]);
      ScanFrom(next, sups[1..])
  }

  /** Every superclass can be read without a KeyError. */
  predicate ScanOk(sups: seq<Doc>) {
    forall s <- sups ::
      && s.id.Some?
      && (IsRestriction(s) && IsSingleCardinalityRestriction(s) ==>
            s.onProperty.Some? && s.onProperty.value.id.Some?)
  }

  /** The properties that are the owl:onProperty of a cardinality-1 restriction among `sups`. */
  function SingleIds(sups: seq<Doc>): set<string> {
    set s | s in sups && IsRestriction(s) && IsSingleCardinalityRestriction(s)
                      && s.onProperty.Some? && s.onProperty.value.id.Some?
          :: s.onProperty.value.id.value
  }

  /** Some direct superclass is the PathStep marker. */
  predicate NamesPathStep(sups: seq<Doc>) {
    exists s <- sups :: s.id == Some(PathStepId)
  }

  /**
   * The superclass loop succeeds exactly when every superclass can be read;
   * it then finds the PathStep marker among them and exactly the single-valued
   * properties.
   */
  lemma {:induction false} ScanFromCorrect(acc: SuperScan, sups: seq<Doc>)
    ensures ScanFrom(acc, sups).Success? <==> ScanOk(sups)
    ensures ScanFrom(acc, sups).Success? ==>
      && ScanFrom(acc, sups).value.isPathStep == (acc.isPathStep || NamesPathStep(sups))
      && ScanFrom(acc, sups).value.single == acc.single + SingleIds(sups)
    decreases |sups|
  {
    if sups != [] {
      var s := sups[0];
      assert sups == [s] + sups[1..];
      assert forall x <- sups :: x == s || x in sups[1..];
      if ScanOne(acc, s).Success? {
        var next := ScanOne(acc, s).value;
        ScanFromCorrect(next, sups[1..]);
        assert NamesPathStep(sups) == (s.id == Some(PathStepId) || NamesPathStep(sups[1..]));
        assert SingleIds(sups) == SingleIds([s]) + SingleIds(sups[1..]);
      }
    }
  }

  // ---------------------------------------------------------------------------
  // The argument loop

  /** The argument name of a property: its id with every "linkedql:" removed. */
  function ArgName(p: Doc): string
    requires p.id.Some?
  {
    RemoveLinkedQl(p.id.value)
  }

  /**
   * The annotation of a property's argument: the range's type, inside
   * `typing.List` unless the property is single-valued.
   */
  function PropertyType(p: Doc, single: set<string>): Result<TypeExpr, Error>
    requires p.id.Some?
  {
    if p.range.None? then Failure(KeyError("rdfs:range"))
    else
      var t :- RangeToType(p.range.value);
      Success(if p.id.value in single then t else ListOf(t))
  }

  /**
   * The annotation exists exactly for a range with a known id, and it is a
   * `typing.List` exactly when the property is not single-valued.
   */
  lemma PropertyTypeMeaning(p: Doc, single: set<string>)
    requires p.id.Some?
    ensures PropertyType(p, single).Success? <==>
      p.range.Some? && p.range.value.id.Some? && p.range.value.id.value in RangeIds
    ensures PropertyType(p, single).Success? ==>
      var t := PropertyType(p, single).value;
      (t.Subscript? && t.base == Typing("List") <==> p.id.value !in single)
  {
  }

  /** The properties that get an argument: all but those whose name is "from", in order. */
  function FilterNotFrom(ps: seq<Doc>): (r: seq<Doc>)
    requires HasIds(ps)
    ensures HasIds(r)
    ensures forall b <- r :: ArgName(b) != "from"
    decreases |ps|
  {
    if ps == [] then []
    else
      assert ps == [ps[0]] + ps[1..];
      var rest := FilterNotFrom(ps[1..]);
      if ArgName(ps[0]) == "from" then rest else [ps[0]] + rest
  }

  /** Filtering keeps each property not named "from" as often as it occurs. */
  lemma {:induction false} FilterNotFromCount(ps: seq<Doc>, p: Doc)
    requires HasIds(ps)
    ensures multiset(FilterNotFrom(ps))[p] == if p.id.Some? && ArgName(p) != "from" then multiset(ps)[p] else 0
    decreases |ps|
  {
    if ps != [] {
      assert ps == [ps[0]] + ps[1..];
      FilterNotFromCount(ps[1..], p);
    }
  }

  /** Skipping "from" keeps, for each id, all its properties in order, or none when the id strips to "from". */
  lemma {:induction false} FilterNotFromWithId(ps: seq<Doc>, k: string)
    requires HasIds(ps)
    ensures WithId(FilterNotFrom(ps), k) == if RemoveLinkedQl(k) == "from" then [] else WithId(ps, k)
    decreases |ps|
  {
    if ps != [] {
      var rest := FilterNotFrom(ps[1..]);
      FilterNotFromWithId(ps[1..], k);
      if ArgName(ps[0]) != "from" {
        assert FilterNotFrom(ps) == [ps[0]] + rest;
        assert ([ps[0]] + rest)[0] == ps[0] && ([ps[0]] + rest)[1..] == rest;
      }
    }
  }

  /** The bound properties of a class: its domained properties sorted by id, "from" left out. */
  function Bound(props: seq<Doc>): seq<Doc>
    requires HasIds(props)
  {
    FilterNotFrom(SortById(props))
  }

  predicate TypesOk(bs: seq<Doc>, single: set<string>)
    requires HasIds(bs)
  {
    forall b <- bs :: PropertyType(b, single).Success?
  }

  /** One argument per bound property: its name and its annotation. */
  function ArgsOf(bs: seq<Doc>, single: set<string>): (r: seq<Arg>)
    requires HasIds(bs) && TypesOk(bs, single)
    ensures |r| == |bs|
    decreases |bs|
  {
    if bs == [] then []
    else
      assert bs == [bs[0]] + bs[1..];
      [Arg(ArgName(bs[0]), Some(PropertyType(bs[0], single).value))] + ArgsOf(bs[1..], single)
  }

  lemma {:induction false} ArgsOfElements(bs: seq<Doc>, single: set<string>)
    requires HasIds(bs) && TypesOk(bs, single)
    ensures forall i | 0 <= i < |bs| :: ArgsOf(bs, single)[i] == Arg(ArgName(bs[i]), Some(PropertyType(bs[i], single).value))
    decreases |bs|
  {
    if bs != [] {
      assert bs == [bs[0]] + bs[1..];
      ArgsOfElements(bs[1..], single);
    }
  }

  /** The name table after storing every bound property, in order. */
  function PutAll(t: NameTable, bs: seq<Doc>): NameTable
    requires HasIds(bs)
    decreases |bs|
  {
    if bs == [] then t
    else PutAll(Put(t, ArgName(bs[0]), bs[0].id.value), bs[1..])
  }

  /** The id of the last property in `bs` whose argument name is `k`. */
  function LastIdNamed(bs: seq<Doc>, k: string): Option<string>
    requires HasIds(bs)
    decreases |bs|
  {
    if bs == [] then None
    else
      var later := LastIdNamed(bs[1..], k);
      if later.Some? then later
      else if ArgName(bs[0]) == k then Some(bs[0].id.value)
      else None
  }

  /** The argument names of the properties, in order. */
  function ArgNames(bs: seq<Doc>): (r: seq<string>)
    requires HasIds(bs)
    ensures |r| == |bs|
    ensures forall i | 0 <= i < |bs| :: r[i] == ArgName(bs[i])
  {
    seq(|bs|, i requires 0 <= i < |bs| => ArgName(bs[i]))
  }

  /** The distinct elements of `s`, each in the place of its first occurrence. */
  function FirstOccurrences(s: seq<string>): (r: seq<string>)
    ensures Distinct(r)
    ensures forall x :: x in r <==> x in s
    decreases |s|
  {
    if s == [] then []
    else
      var init := s[..|s| - 1];
      var r := FirstOccurrences(init);
      assert s == init + [s[|s| - 1]];
      if s[|s| - 1] in r then r else r + [s[|s| - 1]]
  }

  /** What the argument loop builds. */
  datatype ArgsAcc = ArgsAcc(positional: seq<Arg>, kwOnly: seq<Arg>, names: NameTable)

  /**
   * The argument loop from state `acc` over the sorted properties still to
   * read: "from" is skipped; otherwise the name is stored, then the
   * annotation is computed (which may raise) and the argument is appended to
   * the positional list when `small`, to the keyword-only list otherwise.
   */
  function BuildArgsFrom(acc: ArgsAcc, ps: seq<Doc>, single: set<string>, small: bool): Result<ArgsAcc, Error>
    requires HasIds(ps)
    decreases |ps|
  {
    if ps == [] then Success(acc)
    else
      var p := ps[0];
      var name := ArgName(p);
      if name == "from" then BuildArgsFrom(acc, ps[1..], single, small)
      else
        var names := Put(acc.names, name, p.id.value);
        var t :- PropertyType(p, single);
        BuildArgsFrom(Push(acc, Arg(name, Some(t)), names, small), ps[1..], single, small)
  }

  /** Appends `arg` to the list `small` selects and installs the new name table. */
  function Push(acc: ArgsAcc, arg: Arg, names: NameTable, small: bool): ArgsAcc {
    if small then ArgsAcc(acc.positional + [arg], acc.kwOnly, names)
    else ArgsAcc(acc.positional, acc.kwOnly + [arg], names)
  }

  /** The argument loop succeeds exactly when every bound property has a known range. */
  lemma {:induction false} BuildArgsFromSucceeds(acc: ArgsAcc, ps: seq<Doc>, single: set<string>, small: bool)
    requires HasIds(ps)
    ensures BuildArgsFrom(acc, ps, single, small).Success? <==> TypesOk(FilterNotFrom(ps), single)
    decreases |ps|
  {
    if ps != [] {
      var p := ps[0];
      assert ps == [p] + ps[1..];
      var rest := FilterNotFrom(ps[1..]);
      if ArgName(p) == "from" {
        assert FilterNotFrom(ps) == rest;
        BuildArgsFromSucceeds(acc, ps[1..], single, small);
      } else {
        var bs := [p] + rest;
        assert FilterNotFrom(ps) == bs;
        var pt := PropertyType(p, single);
        if pt.Failure? {
          assert !TypesOk(bs, single) by { assert p in bs; }
        } else {
          var next := Push(acc, Arg(ArgName(p), Some(pt.value)), Put(acc.names, ArgName(p), p.id.value), small);
          assert BuildArgsFrom(acc, ps, single, small) == BuildArgsFrom(next, ps[1..], single, small);
          BuildArgsFromSucceeds(next, ps[1..], single, small);
          assert TypesOk(bs, single) <==> TypesOk(rest, single) by {
            assert forall b <- bs :: b == p || b in rest;
            assert forall b <- rest :: b in bs;
          }
        }
      }
    }
  }

  /** A successful argument loop stores every bound property, in order, in the name table. */
  lemma {:induction false} BuildArgsFromNames(acc: ArgsAcc, ps: seq<Doc>, single: set<string>, small: bool)
    requires HasIds(ps)
    requires BuildArgsFrom(acc, ps, single, small).Success?
    ensures BuildArgsFrom(acc, ps, single, small).value.names == PutAll(acc.names, FilterNotFrom(ps))
    decreases |ps|
  {
    if ps != [] {
      var p := ps[0];
      assert ps == [p] + ps[1..];
      var rest := FilterNotFrom(ps[1..]);
      if ArgName(p) == "from" {
        assert FilterNotFrom(ps) == rest;
        BuildArgsFromNames(acc, ps[1..], single, small);
      } else {
        var bs := [p] + rest;
        assert FilterNotFrom(ps) == bs;
        assert bs[0] == p && bs[1..] == rest;
        var names := Put(acc.names, ArgName(p), p.id.value);
        var pt := PropertyType(p, single);
        var next := Push(acc, Arg(ArgName(p), Some(pt.value)), names, small);
        assert BuildArgsFrom(acc, ps, single, small) == BuildArgsFrom(next, ps[1..], single, small);
        BuildArgsFromNames(next, ps[1..], single, small);
      }
    }
  }

  /**
   * A successful argument loop appends one argument per bound property, in
   * order, to the one list `small` selects, and leaves the other unchanged.
   */
  lemma {:induction false} BuildArgsFromArgs(acc: ArgsAcc, ps: seq<Doc>, single: set<string>, small: bool)
    requires HasIds(ps)
    requires BuildArgsFrom(acc, ps, single, small).Success?
    ensures TypesOk(FilterNotFrom(ps), single)
    ensures
      var res := BuildArgsFrom(acc, ps, single, small).value;
      var args := ArgsOf(FilterNotFrom(ps), single);
      && (small ==> res.positional == acc.positional + args && res.kwOnly == acc.kwOnly)
      && (!small ==> res.positional == acc.positional && res.kwOnly == acc.kwOnly + args)
    decreases |ps|
  {
    if ps != [] {
      var p := ps[0];
      if ArgName(p) == "from" {
        assert FilterNotFrom(ps) == FilterNotFrom(ps[1..]);
        BuildArgsFromArgs(acc, ps[1..], single, small);
      } else {
        var rest := FilterNotFrom(ps[1..]);
        var arg := Arg(ArgName(p), Some(PropertyType(p, single).value));
        var names := Put(acc.names, ArgName(p), p.id.value);
        var next := Push(acc, arg, names, small);
        assert BuildArgsFrom(acc, ps, single, small) == BuildArgsFrom(next, ps[1..], single, small);
        BuildArgsFromArgs(next, ps[1..], single, small);
        assert FilterNotFrom(ps) == [p] + rest;
        ArgsOfCons(p, rest, single);
        PushThenAppend(acc, arg, names, small, BuildArgsFrom(acc, ps, single, small).value, ArgsOf(rest, single));
      }
    }
  }

  /** The arguments of a property followed by others. */
  lemma ArgsOfCons(p: Doc, rest: seq<Doc>, single: set<string>)
    requires p.id.Some? && PropertyType(p, single).Success?
    requires HasIds(rest) && TypesOk(rest, single)
    ensures HasIds([p] + rest) && TypesOk([p] + rest, single)
    ensures ArgsOf([p] + rest, single) == [Arg(ArgName(p), Some(PropertyType(p, single).value))] + ArgsOf(rest, single)
  {
    assert ([p] + rest)[0] == p && ([p] + rest)[1..] == rest;
  }

  /** Pushing one argument and then appending others appends them all. */
  lemma PushThenAppend(acc: ArgsAcc, arg: Arg, names: NameTable, small: bool, res: ArgsAcc, args: seq<Arg>)
    requires var next := Push(acc, arg, names, small);
      && (small ==> res.positional == next.positional + args && res.kwOnly == next.kwOnly)
      && (!small ==> res.positional == next.positional && res.kwOnly == next.kwOnly + args)
    ensures small ==> res.positional == acc.positional + ([arg] + args) && res.kwOnly == acc.kwOnly
    ensures !small ==> res.positional == acc.positional && res.kwOnly == acc.kwOnly + ([arg] + args)
  {
    if small {
      assert acc.positional + [arg] + args == acc.positional + ([arg] + args);
    } else {
      assert acc.kwOnly + [arg] + args == acc.kwOnly + ([arg] + args);
    }
  }

  // ---------------------------------------------------------------------------
  // The whole synthesis of one method

  /**
   * One iteration of the per-class loop of generate(). The keys are read in
   * the code's order: "rdfs:subClassOf" and each superclass, "@id", each
   * domained property's "@id" (the sort key), each bound property's range,
   * and last "rdfs:comment".
   */
  function SynthesizeSpec(sc: Doc, byDomain: map<string, seq<Doc>>, convert: string -> string): Result<MethodSpec, Error> {
    if sc.subClassOf.None? then Failure(KeyError("rdfs:subClassOf"))
    else
      var scan :- ScanFrom(SuperScan(false, {}), NormalizeList(sc.subClassOf.value));
      if sc.id.None? then Failure(KeyError("@id"))
      else SynthesizeFor(sc, scan, Lookup(byDomain, sc.id.value), convert)
  }

  /** The synthesis once the superclasses are scanned and the properties looked up. */
  function SynthesizeFor(sc: Doc, scan: SuperScan, props: seq<Doc>, convert: string -> string): Result<MethodSpec, Error>
    requires sc.id.Some?
  {
    if !HasIds(props) then Failure(KeyError("@id"))
    else
      var args :- BuildArgsFrom(ArgsAcc([SelfArg], [], []), SortById(props), scan.single, |props| <= 2);
      if sc.comment.None? then Failure(KeyError("rdfs:comment"))
      else Success(Assemble(sc.id.value, scan.isPathStep, args, sc.comment.value, convert))
  }

  /** The `ast.FunctionDef` built from what the two loops gathered. */
  function Assemble(id: string, isPathStep: bool, args: ArgsAcc, comment: string, convert: string -> string): MethodSpec {
    MethodSpec(
      NormalizeKeywords(convert(RemoveLinkedQl(id))),
      args.positional,
      args.kwOnly,
      if isPathStep then Const("Path") else Name("FinalPath"),
      if isPathStep then AddStep else AddFinalStep,
      ["@type"] + Values(args.names),
      [ConstValue(id)] + NameValues(Keys(args.names)),
      Docstring(comment))
  }

  /** `[ast.Name(name) for name in names]` */
  function NameValues(names: seq<string>): (r: seq<DictValue>)
    ensures |r| == |names|
    ensures forall i | 0 <= i < |names| :: r[i] == NameValue(names[i])
  {
    seq(|names|, i requires 0 <= i < |names| => NameValue(names[i]))
  }

  /** Every key read by the synthesis of `sc` is present and every bound range is known. */
  predicate SynthesisOk(sc: Doc, byDomain: map<string, seq<Doc>>) {
    && sc.subClassOf.Some?
    && ScanOk(SuperClasses(sc))
    && sc.id.Some?
    && HasIds(Lookup(byDomain, sc.id.value))
    && TypesOk(Bound(Lookup(byDomain, sc.id.value)), SingleIds(SuperClasses(sc)))
    && sc.comment.Some?
  }

  /** The synthesis of one method raises exactly when SynthesisOk fails. */
  lemma SynthesizeSucceedsIff(sc: Doc, byDomain: map<string, seq<Doc>>, convert: string -> string)
    ensures SynthesizeSpec(sc, byDomain, convert).Success? <==> SynthesisOk(sc, byDomain)
  {
    if sc.subClassOf.Some? {
      var sups := NormalizeList(sc.subClassOf.value);
      assert SuperClasses(sc) == sups;
      ScanFromCorrect(SuperScan(false, {}), sups);
      var scan := ScanFrom(SuperScan(false, {}), sups);
      if scan.Success? && sc.id.Some? {
        var props := Lookup(byDomain, sc.id.value);
        assert SynthesizeSpec(sc, byDomain, convert) == SynthesizeFor(sc, scan.value, props, convert);
        if HasIds(props) {
          BuildArgsFromSucceeds(ArgsAcc([SelfArg], [], []), SortById(props), scan.value.single, |props| <= 2);
        }
      }
    }
  }

  // ---------------------------------------------------------------------------
  // Which exception a failing synthesis raises

  /** The exception reading one superclass raises, if any. */
  function SuperClassError(s: Doc): Option<Error> {
    var single := IsRestriction(s) && IsSingleCardinalityRestriction(s);
    if s.id.None? then Some(KeyError("@id"))
    else if single && s.onProperty.None? then Some(KeyError("owl:onProperty"))
    else if single && s.onProperty.value.id.None? then Some(KeyError("@id"))
    else None
  }

  /** The exception of the first superclass that raises one. */
  function FirstSuperClassError(sups: seq<Doc>): Option<Error> {
    if sups == [] then None
    else if SuperClassError(sups[0]).Some? then SuperClassError(sups[0])
    else FirstSuperClassError(sups[1..])
  }

  /** The exception annotating a property raises, if any: a missing range, its missing "@id", an unknown range. */
  function RangeError(p: Doc): Option<Error> {
    if p.range.None? then Some(KeyError("rdfs:range"))
    else if p.range.value.id.None? then Some(KeyError("@id"))
    else if p.range.value.id.value !in RangeIds then Some(UnexpectedRange(p.range.value))
    else None
  }

  /** The exception of the first property whose annotation raises one. */
  function FirstRangeError(bs: seq<Doc>): Option<Error> {
    if bs == [] then None
    else if RangeError(bs[0]).Some? then RangeError(bs[0])
    else FirstRangeError(bs[1..])
  }

  /**
   * The exception the synthesis of `sc` raises, if any, with the keys taken
   * in the code's order: "rdfs:subClassOf", the superclasses one by one, the
   * class's "@id", the domained properties' "@id" (read by the sort), the
   * ranges of the bound properties in ascending id order, "rdfs:comment".
   */
  function SynthesisError(sc: Doc, byDomain: map<string, seq<Doc>>): Option<Error> {
    if sc.subClassOf.None? then Some(KeyError("rdfs:subClassOf"))
    else if FirstSuperClassError(SuperClasses(sc)).Some? then FirstSuperClassError(SuperClasses(sc))
    else if sc.id.None? then Some(KeyError("@id"))
    else if !HasIds(Lookup(byDomain, sc.id.value)) then Some(KeyError("@id"))
    else if FirstRangeError(Bound(Lookup(byDomain, sc.id.value))).Some? then
      FirstRangeError(Bound(Lookup(byDomain, sc.id.value)))
    else if sc.comment.None? then Some(KeyError("rdfs:comment"))
    else None
  }

  /** The superclass loop raises the exception of the first superclass that raises one. */
  lemma {:induction false} ScanFromError(acc: SuperScan, sups: seq<Doc>)
    ensures ScanFrom(acc, sups).Success? <==> FirstSuperClassError(sups).None?
    ensures ScanFrom(acc, sups).Failure? ==> Some(ScanFrom(acc, sups).error) == FirstSuperClassError(sups)
    decreases |sups|
  {
    if sups != [] {
      var one := ScanOne(acc, sups[0]);
      if one.Success? {
        ScanFromError(one.value, sups[1..]);
      }
    }
  }

  /** The annotation of a property raises exactly the exception RangeError names. */
  lemma PropertyTypeError(p: Doc, single: set<string>)
    requires p.id.Some?
    ensures PropertyType(p, single).Success? <==> RangeError(p).None?
    ensures PropertyType(p, single).Failure? ==> Some(PropertyType(p, single).error) == RangeError(p)
  {
  }

  /** The argument loop raises the exception of the first bound property whose annotation raises. */
  lemma {:induction false} BuildArgsFromError(acc: ArgsAcc, ps: seq<Doc>, single: set<string>, small: bool)
    requires HasIds(ps)
    ensures BuildArgsFrom(acc, ps, single, small).Success? <==> FirstRangeError(FilterNotFrom(ps)).None?
    ensures BuildArgsFrom(acc, ps, single, small).Failure? ==>
      Some(BuildArgsFrom(acc, ps, single, small).error) == FirstRangeError(FilterNotFrom(ps))
    decreases |ps|
  {
    if ps != [] {
      var p := ps[0];
      var rest := FilterNotFrom(ps[1..]);
      if ArgName(p) == "from" {
        assert FilterNotFrom(ps) == rest;
        BuildArgsFromError(acc, ps[1..], single, small);
      } else {
        var bs := [p] + rest;
        assert FilterNotFrom(ps) == bs;
        assert bs[0] == p && bs[1..] == rest;
        PropertyTypeError(p, single);
        var pt := PropertyType(p, single);
        if pt.Success? {
          var next := Push(acc, Arg(ArgName(p), Some(pt.value)), Put(acc.names, ArgName(p), p.id.value), small);
          assert BuildArgsFrom(acc, ps, single, small) == BuildArgsFrom(next, ps[1..], single, small);
          BuildArgsFromError(next, ps[1..], single, small);
        }
      }
    }
  }

  /**
   * The synthesis of one method succeeds exactly when SynthesisError names no
   * exception, and otherwise raises the one it names.
   */
  lemma SynthesisErrorCorrect(sc: Doc, byDomain: map<string, seq<Doc>>, convert: string -> string)
    ensures SynthesizeSpec(sc, byDomain, convert).Success? <==> SynthesisError(sc, byDomain).None?
    ensures SynthesizeSpec(sc, byDomain, convert).Failure? ==>
      Some(SynthesizeSpec(sc, byDomain, convert).error) == SynthesisError(sc, byDomain)
  {
    if sc.subClassOf.Some? {
      var sups := NormalizeList(sc.subClassOf.value);
      assert SuperClasses(sc) == sups;
      ScanFromError(SuperScan(false, {}), sups);
      var scan := ScanFrom(SuperScan(false, {}), sups);
      if scan.Success? && sc.id.Some? {
        var props := Lookup(byDomain, sc.id.value);
        assert SynthesizeSpec(sc, byDomain, convert) == SynthesizeFor(sc, scan.value, props, convert);
        if HasIds(props) {
          BuildArgsFromError(ArgsAcc([SelfArg], [], []), SortById(props), scan.value.single, |props| <= 2);
        }
      }
    }
  }

  /**
   * The signature of a synthesised method: its name comes from the class id;
   * `self` comes first, then one argument per bound property (see
   * BoundArguments). The arguments are positional when the class has at most
   * two domained properties, counting "from", and keyword-only otherwise.
   */
  lemma SynthesizedSignature(sc: Doc, byDomain: map<string, seq<Doc>>, convert: string -> string)
    requires SynthesizeSpec(sc, byDomain, convert).Success?
    ensures SynthesisOk(sc, byDomain)
    ensures
      var m := SynthesizeSpec(sc, byDomain, convert).value;
      var props := Lookup(byDomain, sc.id.value);
      var args := ArgsOf(Bound(props), SingleIds(SuperClasses(sc)));
      && m.name == NormalizeKeywords(convert(RemoveLinkedQl(sc.id.value)))
      && (|props| <= 2 ==> m.positionalArgs == [SelfArg] + args && m.kwOnlyArgs == [])
      && (|props| > 2 ==> m.positionalArgs == [SelfArg] && m.kwOnlyArgs == args)
  {
    SynthesizedParts(sc, byDomain, convert);
    var props := Lookup(byDomain, sc.id.value);
    BuildArgsFromArgs(ArgsAcc([SelfArg], [], []), SortById(props), SingleIds(SuperClasses(sc)), |props| <= 2);
  }

  /**
   * The arguments of the bound properties — the domained properties in
   * ascending "@id" order, "from" left out — are named by the stripped id and
   * annotated with the range type, inside `typing.List` unless single-valued.
   */
  lemma BoundArguments(props: seq<Doc>, single: set<string>)
    requires HasIds(props) && TypesOk(Bound(props), single)
    ensures
      var bound := Bound(props);
      var args := ArgsOf(bound, single);
      && SortedById(bound)
      && (forall i | 0 <= i < |bound| ::
            && args[i].name == RemoveLinkedQl(bound[i].id.value)
            && args[i].name != "from"
            && bound[i].range.Some?
            && RangeToType(bound[i].range.value).Success?
            && var t := RangeToType(bound[i].range.value).value;
               args[i].annotation == Some(if bound[i].id.value in single then t else ListOf(t)))
  {
    var bound := Bound(props);
    SortByIdSorted(props);
    FilterNotFromSorted(SortById(props));
    ArgsOfElements(bound, single);
    forall i | 0 <= i < |bound|
      ensures PropertyType(bound[i], single).Success?
    {
      assert bound[i] in bound;
    }
  }

  /**
   * A successful synthesis is the assembly of the superclass scan's findings
   * and the argument loop's result.
   */
  lemma SynthesizedParts(sc: Doc, byDomain: map<string, seq<Doc>>, convert: string -> string)
    requires SynthesizeSpec(sc, byDomain, convert).Success?
    ensures SynthesisOk(sc, byDomain)
    ensures
      var props := Lookup(byDomain, sc.id.value);
      var built := BuildArgsFrom(ArgsAcc([SelfArg], [], []), SortById(props), SingleIds(SuperClasses(sc)), |props| <= 2);
      && built.Success?
      && SynthesizeSpec(sc, byDomain, convert)
         == Success(Assemble(sc.id.value, NamesPathStep(SuperClasses(sc)), built.value, sc.comment.value, convert))
  {
    SynthesizeSucceedsIff(sc, byDomain, convert);
    var sups := NormalizeList(sc.subClassOf.value);
    assert SuperClasses(sc) == sups;
    ScanFromCorrect(SuperScan(false, {}), sups);
    var scan := ScanFrom(SuperScan(false, {}), sups).value;
    assert scan == SuperScan(NamesPathStep(sups), SingleIds(sups));
    var props := Lookup(byDomain, sc.id.value);
    assert SynthesizeSpec(sc, byDomain, convert) == SynthesizeFor(sc, scan, props, convert);
  }

  /** Filtering keeps a lower bound on the ids. */
  lemma {:induction false} FilterNotFromNoneBelow(ps: seq<Doc>, b: string)
    requires HasIds(ps) && NoneBelow(ps, b)
    ensures NoneBelow(FilterNotFrom(ps), b)
    decreases |ps|
  {
    if ps != [] {
      var rest := FilterNotFrom(ps[1..]);
      forall i | 0 <= i < |ps[1..]|
        ensures !StrLess(ps[1..][i].id.value, b)
      {
        assert ps[1..][i] == ps[i + 1];
      }
      FilterNotFromNoneBelow(ps[1..], b);
      if ArgName(ps[0]) != "from" {
        forall i | 0 <= i < |[ps[0]] + rest|
          ensures !StrLess(([ps[0]] + rest)[i].id.value, b)
        {
          if i > 0 {
            assert ([ps[0]] + rest)[i] == rest[i - 1];
          }
        }
      }
    }
  }

  /** Filtering keeps the ascending "@id" order. */
  lemma {:induction false} FilterNotFromSorted(ps: seq<Doc>)
    requires HasIds(ps) && SortedById(ps)
    ensures SortedById(FilterNotFrom(ps))
    decreases |ps|
  {
    if ps != [] {
      FirstIsLowerBound(ps);
      assert SortedById(ps[1..]) by {
        forall i, j | 0 <= i < j < |ps[1..]|
          ensures !StrLess(ps[1..][j].id.value, ps[1..][i].id.value)
        {
          assert ps[1..][i] == ps[i + 1] && ps[1..][j] == ps[j + 1];
        }
      }
      FilterNotFromSorted(ps[1..]);
      if ArgName(ps[0]) != "from" {
        FilterNotFromNoneBelow(ps[1..], ps[0].id.value);
        ConsSorted(ps[0], FilterNotFrom(ps[1..]));
      }
    }
  }

  /**
   * The bound properties are exactly the domained properties not named
   * "from", with their multiplicities.
   */
  lemma BoundMembers(props: seq<Doc>, p: Doc)
    requires HasIds(props)
    ensures multiset(Bound(props))[p] == if p.id.Some? && ArgName(p) != "from" then multiset(props)[p] else 0
  {
    FilterNotFromCount(SortById(props), p);
  }

  /**
   * The bound properties sharing one "@id" are exactly the domained
   * properties with that id, in schema order, or none when the id strips to
   * "from": sorting is stable and skipping "from" keeps the order.
   */
  lemma BoundStable(props: seq<Doc>, k: string)
    requires HasIds(props)
    ensures WithId(Bound(props), k) == if RemoveLinkedQl(k) == "from" then [] else WithId(props, k)
  {
    SortByIdStable(props, k);
    FilterNotFromWithId(SortById(props), k);
  }

  /**
   * The step dictionary: "@type" mapped to the class id, then one entry per
   * distinct argument name of the bound properties, in the order of its first
   * occurrence, mapping the id of the LAST bound property with that name to the
   * argument of that name. Every later entry is thus a bound property's id and
   * its own name, and no key strips to "from".
   */
  lemma SynthesizedStepDict(sc: Doc, byDomain: map<string, seq<Doc>>, convert: string -> string)
    requires SynthesizeSpec(sc, byDomain, convert).Success?
    ensures SynthesisOk(sc, byDomain)
    ensures
      var m := SynthesizeSpec(sc, byDomain, convert).value;
      var bound := Bound(Lookup(byDomain, sc.id.value));
      var names := FirstOccurrences(ArgNames(bound));
      && |m.stepDictKeys| == |m.stepDictValues| == |names| + 1
      && m.stepDictKeys[0] == "@type" && m.stepDictValues[0] == ConstValue(sc.id.value)
      && (forall i | 0 <= i < |names| ::
            m.stepDictValues[i + 1] == NameValue(names[i]) && Some(m.stepDictKeys[i + 1]) == LastIdNamed(bound, names[i]))
      && (forall i | 1 <= i < |m.stepDictKeys| ::
            exists b <- bound :: m.stepDictKeys[i] == b.id.value && m.stepDictValues[i] == NameValue(ArgName(b)))
      && (forall i | 1 <= i < |m.stepDictKeys| :: RemoveLinkedQl(m.stepDictKeys[i]) != "from")
  {
    SynthesizedTable(sc, byDomain, convert);
    StepDictOrder(sc.id.value, Bound(Lookup(byDomain, sc.id.value)));
    StepDictBound(sc.id.value, Bound(Lookup(byDomain, sc.id.value)));
  }

  /** The step dictionary is read off the name table of the bound properties. */
  lemma SynthesizedTable(sc: Doc, byDomain: map<string, seq<Doc>>, convert: string -> string)
    requires SynthesizeSpec(sc, byDomain, convert).Success?
    ensures SynthesisOk(sc, byDomain)
    ensures
      var m := SynthesizeSpec(sc, byDomain, convert).value;
      var table := PutAll([], Bound(Lookup(byDomain, sc.id.value)));
      && m.stepDictKeys == ["@type"] + Values(table)
      && m.stepDictValues == [ConstValue(sc.id.value)] + NameValues(Keys(table))
  {
    SynthesizedParts(sc, byDomain, convert);
    var props := Lookup(byDomain, sc.id.value);
    BuildArgsFromNames(ArgsAcc([SelfArg], [], []), SortById(props), SingleIds(SuperClasses(sc)), |props| <= 2);
  }

  /** The later entries of the step dictionary follow the first occurrences of the names. */
  lemma StepDictOrder(id: string, bs: seq<Doc>)
    requires HasIds(bs) && forall b <- bs :: ArgName(b) != "from"
    ensures
      var table := PutAll([], bs);
      var keys := ["@type"] + Values(table);
      var values := [ConstValue(id)] + NameValues(Keys(table));
      var names := FirstOccurrences(ArgNames(bs));
      && |keys| == |values| == |names| + 1
      && keys[0] == "@type" && values[0] == ConstValue(id)
      && forall i | 0 <= i < |names| ::
           values[i + 1] == NameValue(names[i]) && Some(keys[i + 1]) == LastIdNamed(bs, names[i])
  {
    var table := PutAll([], bs);
    PutAllTable([], bs);
    PutAllKeys(bs);
    StepDictEntries(id, table);
    KeysValuesLength(table);
    forall i | 0 <= i < |table|
      ensures Some(table[i].1) == LastIdNamed(bs, table[i].0)
    {
      GetEntry(table, i);
      PutAllGet([], bs, table[i].0);
    }
  }

  /** Each later entry of the step dictionary is a bound property's id and the argument of its name. */
  lemma StepDictBound(id: string, bs: seq<Doc>)
    requires HasIds(bs) && forall b <- bs :: ArgName(b) != "from"
    ensures
      var table := PutAll([], bs);
      var keys := ["@type"] + Values(table);
      var values := [ConstValue(id)] + NameValues(Keys(table));
      && |keys| == |values|
      && (forall i | 1 <= i < |keys| ::
            exists b <- bs :: keys[i] == b.id.value && values[i] == NameValue(ArgName(b)))
      && (forall i | 1 <= i < |keys| :: RemoveLinkedQl(keys[i]) != "from")
  {
    var table := PutAll([], bs);
    PutAllEntries([], bs);
    StepDictEntries(id, table);
    forall i | 0 <= i < |table|
      ensures exists b <- bs :: table[i] == (ArgName(b), b.id.value)
    {
      assert table[i] in table;
    }
  }

  /** The entries of the step dictionary built from a name table. */
  lemma StepDictEntries(id: string, table: NameTable)
    ensures
      var keys := ["@type"] + Values(table);
      var values := [ConstValue(id)] + NameValues(Keys(table));
      && |keys| == |values| == |table| + 1
      && keys[0] == "@type" && values[0] == ConstValue(id)
      && forall i | 1 <= i < |keys| :: values[i] == NameValue(table[i - 1].0) && keys[i] == table[i - 1].1
  {
    KeysValuesLength(table);
    var keys := ["@type"] + Values(table);
    var values := [ConstValue(id)] + NameValues(Keys(table));
    forall i | 1 <= i < |keys|
      ensures values[i] == NameValue(table[i - 1].0) && keys[i] == table[i - 1].1
    {
      assert keys[i] == Values(table)[i - 1];
      assert values[i] == NameValues(Keys(table))[i - 1];
    }
  }

  /**
   * When no two bound properties share an argument name, the step dictionary
   * maps each bound property's id, in ascending id order, to the argument of
   * its name.
   */
  lemma SynthesizedStepDictWithoutCollisions(sc: Doc, byDomain: map<string, seq<Doc>>, convert: string -> string)
    requires SynthesizeSpec(sc, byDomain, convert).Success?
    requires sc.id.Some? && HasIds(Lookup(byDomain, sc.id.value))
    requires var bound := Bound(Lookup(byDomain, sc.id.value));
      forall i, j | 0 <= i < j < |bound| :: ArgName(bound[i]) != ArgName(bound[j])
    ensures
      var m := SynthesizeSpec(sc, byDomain, convert).value;
      var bound := Bound(Lookup(byDomain, sc.id.value));
      && |m.stepDictKeys| == |m.stepDictValues| == |bound| + 1
      && forall i | 0 <= i < |bound| ::
           m.stepDictKeys[i + 1] == bound[i].id.value && m.stepDictValues[i + 1] == NameValue(ArgName(bound[i]))
  {
    SynthesizedTable(sc, byDomain, convert);
    StepDictEntries(sc.id.value, PutAll([], Bound(Lookup(byDomain, sc.id.value))));
    KeysValuesLength([]);
    PutAllNoCollision([], Bound(Lookup(byDomain, sc.id.value)));
    assert [] + NamePairs(Bound(Lookup(byDomain, sc.id.value))) == NamePairs(Bound(Lookup(byDomain, sc.id.value)));
  }

  /**
   * The name table built from properties none of which is named "from":
   * distinct names, in the order of their first occurrence, each holding the
   * id of the last property of that name; every entry pairs a property's
   * name with its id, so no stored id strips to "from".
   */
  lemma NameTableOf(bs: seq<Doc>)
    requires HasIds(bs) && forall b <- bs :: ArgName(b) != "from"
    ensures Distinct(Keys(PutAll([], bs)))
    ensures Keys(PutAll([], bs)) == FirstOccurrences(ArgNames(bs))
    ensures forall k :: Get(PutAll([], bs), k) == LastIdNamed(bs, k)
    ensures forall k :: k in Keys(PutAll([], bs)) <==> exists b <- bs :: ArgName(b) == k
    ensures forall e <- PutAll([], bs) :: exists b <- bs :: e == (ArgName(b), b.id.value)
    ensures forall e <- PutAll([], bs) :: RemoveLinkedQl(e.1) != "from"
  {
    PutAllTable([], bs);
    PutAllKeys(bs);
    PutAllEntries([], bs);
    forall k
      ensures Get(PutAll([], bs), k) == LastIdNamed(bs, k)
    {
      PutAllGet([], bs, k);
    }
  }

  /** Every entry after a store is an old entry or the stored pair. */
  lemma {:induction false} PutEntries(t: NameTable, k: string, v: string)
    ensures forall e <- Put(t, k, v) :: e in t || e == (k, v)
    decreases |t|
  {
    if t != [] && t[0].0 != k {
      PutEntries(t[1..], k, v);
      assert Put(t, k, v) == [t[0]] + Put(t[1..], k, v);
      assert forall e <- t[1..] :: e in t;
    }
  }

  /** Every entry after storing properties is an old entry or a property's (name, id). */
  lemma {:induction false} PutAllEntries(t: NameTable, bs: seq<Doc>)
    requires HasIds(bs)
    ensures forall e <- PutAll(t, bs) :: e in t || exists b <- bs :: e == (ArgName(b), b.id.value)
    decreases |bs|
  {
    if bs != [] {
      var t' := Put(t, ArgName(bs[0]), bs[0].id.value);
      PutEntries(t, ArgName(bs[0]), bs[0].id.value);
      PutAllEntries(t', bs[1..]);
      assert forall b <- bs[1..] :: b in bs;
    }
  }

  /** Storing one more property is one more store after the others. */
  lemma {:induction false} PutAllSnoc(t: NameTable, bs: seq<Doc>, b: Doc)
    requires HasIds(bs) && b.id.Some?
    ensures HasIds(bs + [b])
    ensures PutAll(t, bs + [b]) == Put(PutAll(t, bs), ArgName(b), b.id.value)
    decreases |bs|
  {
    if bs == [] {
      assert [b][1..] == [];
    } else {
      assert (bs + [b])[0] == bs[0] && (bs + [b])[1..] == bs[1..] + [b];
      PutAllSnoc(Put(t, ArgName(bs[0]), bs[0].id.value), bs[1..], b);
    }
  }

  /** The names stored into an empty table keep the order of their first occurrence. */
  lemma {:induction false} PutAllKeys(bs: seq<Doc>)
    requires HasIds(bs)
    ensures Keys(PutAll([], bs)) == FirstOccurrences(ArgNames(bs))
    decreases |bs|
  {
    if bs != [] {
      var n := |bs| - 1;
      var init, b := bs[..n], bs[n];
      assert bs == init + [b];
      PutAllSnoc([], init, b);
      PutAllKeys(init);
      assert ArgNames(bs)[..n] == ArgNames(init);
    }
  }

  /**
   * Storing bound properties keeps the names distinct, keeps exactly the names
   * met, and only ever stores their ids.
   */
  lemma {:induction false} PutAllTable(t: NameTable, bs: seq<Doc>)
    requires HasIds(bs) && Distinct(Keys(t))
    ensures Distinct(Keys(PutAll(t, bs)))
    ensures forall k :: k in Keys(PutAll(t, bs)) <==> k in Keys(t) || exists b <- bs :: ArgName(b) == k
    ensures forall v <- Values(PutAll(t, bs)) :: v in Values(t) || exists b <- bs :: b.id.value == v
    decreases |bs|
  {
    if bs != [] {
      var b := bs[0];
      var t' := Put(t, ArgName(b), b.id.value);
      if ArgName(b) !in Keys(t) {
        DistinctAppend(Keys(t), ArgName(b));
      }
      PutAllTable(t', bs[1..]);
      assert bs == [b] + bs[1..];
      assert forall x <- bs :: x == b || x in bs[1..];
    }
  }

  /** Looking a name up finds the id of the last property bearing it. */
  lemma {:induction false} PutAllGet(t: NameTable, bs: seq<Doc>, k: string)
    requires HasIds(bs)
    ensures Get(PutAll(t, bs), k) == if LastIdNamed(bs, k).Some? then LastIdNamed(bs, k) else Get(t, k)
    decreases |bs|
  {
    if bs != [] {
      PutAllGet(Put(t, ArgName(bs[0]), bs[0].id.value), bs[1..], k);
    }
  }

  /** Each property's argument name paired with its id, in order. */
  function NamePairs(bs: seq<Doc>): (r: NameTable)
    requires HasIds(bs)
    ensures |r| == |bs|
    ensures forall i | 0 <= i < |bs| :: r[i] == (ArgName(bs[i]), bs[i].id.value)
  {
    seq(|bs|, i requires 0 <= i < |bs| => (ArgName(bs[i]), bs[i].id.value))
  }

  /**
   * Without colliding names, storing the properties appends one entry per
   * property, in order: its argument name with its id.
   */
  lemma {:induction false} PutAllNoCollision(t: NameTable, bs: seq<Doc>)
    requires HasIds(bs)
    requires forall i, j | 0 <= i < j < |bs| :: ArgName(bs[i]) != ArgName(bs[j])
    requires forall i | 0 <= i < |bs| :: ArgName(bs[i]) !in Keys(t)
    ensures PutAll(t, bs) == t + NamePairs(bs)
    decreases |bs|
  {
    if bs != [] {
      var e := (ArgName(bs[0]), bs[0].id.value);
      var t' := t + [e];
      assert PutAll(t, bs) == PutAll(t', bs[1..]) by {
        PutNew(t, e.0, e.1);
      }
      NoCollisionTail(t, bs);
      PutAllNoCollision(t', bs[1..]);
      NamePairsCons(t, bs);
    }
  }

  lemma NamePairsCons(t: NameTable, bs: seq<Doc>)
    requires HasIds(bs) && bs != []
    ensures t + NamePairs(bs) == (t + [(ArgName(bs[0]), bs[0].id.value)]) + NamePairs(bs[1..])
  {
    assert NamePairs(bs) == [(ArgName(bs[0]), bs[0].id.value)] + NamePairs(bs[1..]);
  }

  /** The conditions of PutAllNoCollision pass from `bs` to its tail, once its head is stored. */
  lemma NoCollisionTail(t: NameTable, bs: seq<Doc>)
    requires HasIds(bs) && bs != []
    requires forall i, j | 0 <= i < j < |bs| :: ArgName(bs[i]) != ArgName(bs[j])
    requires forall i | 0 <= i < |bs| :: ArgName(bs[i]) !in Keys(t)
    ensures var t' := t + [(ArgName(bs[0]), bs[0].id.value)];
      && HasIds(bs[1..])
      && (forall i, j | 0 <= i < j < |bs[1..]| :: ArgName(bs[1..][i]) != ArgName(bs[1..][j]))
      && (forall i | 0 <= i < |bs[1..]| :: ArgName(bs[1..][i]) !in Keys(t'))
  {
    var e := (ArgName(bs[0]), bs[0].id.value);
    KeysAppend(t, e);
    var rest := bs[1..];
    forall i | 0 <= i < |rest|
      ensures ArgName(rest[i]) !in Keys(t + [e])
    {
      assert rest[i] == bs[i + 1];
    }
    forall i, j | 0 <= i < j < |rest|
      ensures ArgName(rest[i]) != ArgName(rest[j])
    {
      assert rest[i] == bs[i + 1] && rest[j] == bs[j + 1];
    }
  }

  lemma {:induction false} KeysAppend(t: NameTable, e: (string, string))
    ensures Keys(t + [e]) == Keys(t) + [e.0]
    decreases |t|
  {
    if t != [] {
      assert (t + [e])[1..] == t[1..] + [e];
      KeysAppend(t[1..], e);
    }
  }

  lemma {:induction false} PutNew(t: NameTable, k: string, v: string)
    requires k !in Keys(t)
    ensures Put(t, k, v) == t + [(k, v)]
    decreases |t|
  {
    if t != [] {
      PutNew(t[1..], k, v);
      assert t == [t[0]] + t[1..];
    }
  }

  /**
   * Two properties whose ids differ only by "linkedql:" both get an argument
   * named alike, but share one name-table entry, holding the later id in
   * sorted order.
   */
  lemma CollidingNamesShareOneEntry(plain: Doc, prefixed: Doc)
    requires plain.id == Some("foo") && prefixed.id == Some(LinkedQlPrefix + "foo")
    ensures StrLess(plain.id.value, prefixed.id.value)
    ensures ArgName(plain) == ArgName(prefixed) == "foo"
    ensures PutAll([], [plain, prefixed]) == [("foo", LinkedQlPrefix + "foo")]
  {
    assert "foo"[0] < (LinkedQlPrefix + "foo")[0];
    RemoveLeadingLinkedQl("foo");
    var first := Put([], "foo", "foo");
    assert first == [("foo", "foo")];
    assert PutAll([], [plain, prefixed]) == PutAll(first, [prefixed]) by {
      assert [plain, prefixed][1..] == [prefixed];
    }
    assert Put(first, "foo", LinkedQlPrefix + "foo") == [("foo", LinkedQlPrefix + "foo")];
    assert PutAll(first, [prefixed]) == PutAll(Put(first, "foo", LinkedQlPrefix + "foo"), []);
  }

  /**
   * The return annotation and the chaining helper: `Path` via `__add_step`
   * exactly when a direct superclass is the PathStep marker, `FinalPath` via
   * `__add_final_step` otherwise. The docstring is the class comment with a
   * newline and the eight-space indent of a method body on each side.
   */
  lemma SynthesizedReturnAndDocstring(sc: Doc, byDomain: map<string, seq<Doc>>, convert: string -> string)
    requires SynthesizeSpec(sc, byDomain, convert).Success?
    ensures
      var m := SynthesizeSpec(sc, byDomain, convert).value;
      && (NamesPathStep(SuperClasses(sc)) ==> m.returnType == Const("Path") && m.callTarget == AddStep)
      && (!NamesPathStep(SuperClasses(sc)) ==> m.returnType == Name("FinalPath") && m.callTarget == AddFinalStep)
      && sc.comment.Some?
      && m.docstring == "\n" + DocstringIndent + sc.comment.value + "\n" + DocstringIndent
  {
    SynthesizedParts(sc, byDomain, convert);
  }

  /**
   * A bound property whose range id is not one of the ten known ids makes the
   * synthesis of its class raise.
   */
  lemma UnknownRangeAborts(sc: Doc, byDomain: map<string, seq<Doc>>, convert: string -> string, p: Doc)
    requires sc.id.Some? && p in Lookup(byDomain, sc.id.value)
    requires p.id.Some? && ArgName(p) != "from"
    requires p.range.Some? && p.range.value.id.Some? && p.range.value.id.value !in RangeIds
    ensures SynthesizeSpec(sc, byDomain, convert).Failure?
  {
    SynthesizeSucceedsIff(sc, byDomain, convert);
    var props := Lookup(byDomain, sc.id.value);
    if HasIds(props) {
      assert p in multiset(props);
      BoundMembers(props, p);
      assert p in multiset(Bound(props));
      assert PropertyType(p, SingleIds(SuperClasses(sc))).Failure?;
    }
  }

  /**
   * The arity test counts "from": a class with three domained properties, one
   * of them "from", gets its two arguments keyword-only.
   */
  lemma FromCountsTowardArity(sc: Doc, byDomain: map<string, seq<Doc>>, convert: string -> string)
    requires SynthesizeSpec(sc, byDomain, convert).Success?
    requires sc.id.Some? && |Lookup(byDomain, sc.id.value)| == 3
    requires HasIds(Lookup(byDomain, sc.id.value)) && |Bound(Lookup(byDomain, sc.id.value))| == 2
    ensures SynthesizeSpec(sc, byDomain, convert).value.positionalArgs == [SelfArg]
    ensures |SynthesizeSpec(sc, byDomain, convert).value.kwOnlyArgs| == 2
  {
    SynthesizedSignature(sc, byDomain, convert);
  }

  // ---------------------------------------------------------------------------
  // The per-class loop body itself

  /** The superclass loop of the per-class iteration. */
  method ScanSuperClasses(superClasses: seq<Doc>) returns (r: Result<SuperScan, Error>)
    ensures r == ScanFrom(SuperScan(false, {}), superClasses)
  {
    var single: set<string> := {};
    var isPathStep := false;
    var i := 0;
    while i < |superClasses|
      invariant 0 <= i <= |superClasses|
      invariant ScanFrom(SuperScan(isPathStep, single), superClasses[i..])
             == ScanFrom(SuperScan(false, {}), superClasses)
    {
      assert superClasses[i..][0] == superClasses[i] && superClasses[i..][1..] == superClasses[i + 1..];
      var superClass := superClasses[i];
      if superClass.id.None? {
        return Failure(KeyError("@id"));
      }
      if superClass.id.value == PathStepId {
        isPathStep := true;
      }
      if IsRestriction(superClass) && IsSingleCardinalityRestriction(superClass) {
        if superClass.onProperty.None? {
          return Failure(KeyError("owl:onProperty"));
        }
        var property := superClass.onProperty.value;
        if property.id.None? {
          return Failure(KeyError("@id"));
        }
        single := single + {property.id.value};
      }
      i := i + 1;
    }
    assert superClasses[i..] == [];
    return Success(SuperScan(isPathStep, single));
  }

  /**
   * The argument loop of the per-class iteration, over the properties sorted
   * by "@id".
   */
  method BuildArguments(sorted: seq<Doc>, single: set<string>, small: bool) returns (r: Result<ArgsAcc, Error>)
    requires HasIds(sorted)
    ensures r == BuildArgsFrom(ArgsAcc([SelfArg], [], []), sorted, single, small)
  {
    var positionalArgs := [SelfArg];
    var kwOnlyArgs: seq<Arg> := [];
    var nameToPropertyName: NameTable := [];
    var j := 0;
    while j < |sorted|
      invariant 0 <= j <= |sorted|
      invariant BuildArgsFrom(ArgsAcc(positionalArgs, kwOnlyArgs, nameToPropertyName), sorted[j..], single, small)
             == BuildArgsFrom(ArgsAcc([SelfArg], [], []), sorted, single, small)
    {
      assert sorted[j..][0] == sorted[j] && sorted[j..][1..] == sorted[j + 1..];
      var property := sorted[j];
      var argumentName := RemoveLinkedQl(property.id.value);
      if argumentName != "from" {
        nameToPropertyName := Put(nameToPropertyName, argumentName, property.id.value);
        if property.range.None? {
          return Failure(KeyError("rdfs:range"));
        }
        var annotation :- RangeToType(property.range.value);
        if property.id.value !in single {
          annotation := ListOf(annotation);
        }
        var arg := Arg(argumentName, Some(annotation));
        if small {
          positionalArgs := positionalArgs + [arg];
        } else {
          kwOnlyArgs := kwOnlyArgs + [arg];
        }
      }
      j := j + 1;
    }
    assert sorted[j..] == [];
    return Success(ArgsAcc(positionalArgs, kwOnlyArgs, nameToPropertyName));
  }

  /**
   * One iteration of the per-class loop of generate(): scans the direct
   * superclasses, then builds the arguments and the step dictionary.
   */
  method SynthesizeStepMethod(sc: Doc, byDomain: map<string, seq<Doc>>, convert: string -> string)
    returns (r: Result<MethodSpec, Error>)
    ensures r == SynthesizeSpec(sc, byDomain, convert)
  {
    if sc.subClassOf.None? {
      return Failure(KeyError("rdfs:subClassOf"));
    }
    var scan :- ScanSuperClasses(NormalizeList(sc.subClassOf.value));
    if sc.id.None? {
      return Failure(KeyError("@id"));
    }
    var methodName := NormalizeKeywords(convert(RemoveLinkedQl(sc.id.value)));
    var properties := Lookup(byDomain, sc.id.value);
    if !HasIds(properties) {
      return Failure(KeyError("@id"));
    }
    var args :- BuildArguments(SortById(properties), scan.single, |properties| <= 2);
    var values := NameValues(Keys(args.names));
    var keys := Values(args.names);
    if sc.comment.None? {
      return Failure(KeyError("rdfs:comment"));
    }
    var returnType := if scan.isPathStep then Const("Path") else Name("FinalPath");
    var target := if scan.isPathStep then AddStep else AddFinalStep;
    r := Success(MethodSpec(methodName, args.positional, args.kwOnly, returnType, target,
                            ["@type"] + keys, [ConstValue(sc.id.value)] + values,
                            Docstring(sc.comment.value)));
  }
}
