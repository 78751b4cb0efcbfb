/**
 * generate() of generate/generate.py: checks that the header module ends with
 * class Path, extracts the schema, and appends one synthesised method per
 * step class, in schema order, to the body of class Path.
 */
module Generate {
  import opened Wrappers
  import opened Schema
  import opened Extract
  import opened Synthesize

  /**
   * The statements of the header module. Only class definitions and the
   * generated function definitions matter here; every other statement is
   * carried through as its source text.
   */
  datatype Stmt =
    | ClassDef(name: string, body: seq<Stmt>)
    | FunctionDef(fn: MethodSpec)
    | OtherStmt(source: string)

  /** `isinstance(s, ast.ClassDef) and s.name == "Path"` */
  predicate IsPathClass(s: Stmt) {
    s.ClassDef? && s.name == "Path"
  }

  function FunctionDefs(ms: seq<MethodSpec>): (r: seq<Stmt>)
    ensures |r| == |ms|
    ensures forall i | 0 <= i < |ms| :: r[i] == FunctionDef(ms[i])
  {
    seq(|ms|, i requires 0 <= i < |ms| => FunctionDef(ms[i]))
  }

  /** One iteration of the per-class loop: the synthesis of one step class. */
  function Synthesizer(byDomain: map<string, seq<Doc>>, convert: string -> string): Doc -> Result<MethodSpec, Error> {
    sc => SynthesizeSpec(sc, byDomain, convert)
  }

  /**
   * The per-class loop from the methods built so far over the step classes
   * still to read, `synth` synthesising each one.
   */
  function SynthesizeAllFrom(acc: seq<MethodSpec>, scs: seq<Doc>, synth: Doc -> Result<MethodSpec, Error>)
    : Result<seq<MethodSpec>, Error>
    decreases |scs|
  {
    if scs == [] then Success(acc)
    else
      var m :- synth(scs[0]);
      SynthesizeAllFrom(acc + [m], scs[1..], synth)
  }

  /**
   * generate(), on the parsed header and the schema's "@graph" (None when the
   * schema has no such key). The checks run in the code's order: the last
   * header statement, then the graph, then each step class.
   */
  function GenerateSpec(header: seq<Stmt>, graph: Option<seq<Doc>>, convert: string -> string): Result<seq<Stmt>, Error> {
    if |header| == 0 then Failure(IndexError)
    else if !IsPathClass(header[|header| - 1]) then Failure(AssertionError)
    else if graph.None? then Failure(KeyError("@graph"))
    else
      var extraction :- ExtractSpec(graph.value);
      var methods :- SynthesizeAllFrom([], extraction.stepClasses, Synthesizer(extraction.byDomain, convert));
      Success(header[..|header| - 1] + [ClassDef("Path", header[|header| - 1].body + FunctionDefs(methods))])
  }

  // ---------------------------------------------------------------------------
  // Properties of the per-class loop

  /** The per-class loop succeeds exactly when every step class synthesises. */
  lemma {:induction false} SynthesizeAllFromSucceeds(acc: seq<MethodSpec>, scs: seq<Doc>,
                                                     synth: Doc -> Result<MethodSpec, Error>)
    ensures SynthesizeAllFrom(acc, scs, synth).Success? <==>
      forall i | 0 <= i < |scs| :: synth(scs[i]).Success?
    decreases |scs|
  {
    if scs != [] {
      var first := synth(scs[0]);
      if first.Success? {
        var rest := scs[1..];
        assert SynthesizeAllFrom(acc, scs, synth)
            == SynthesizeAllFrom(acc + [first.value], rest, synth);
        SynthesizeAllFromSucceeds(acc + [first.value], rest, synth);
        assert forall i | 1 <= i < |scs| :: scs[i] == rest[i - 1];
      }
    }
  }

  /**
   * A successful per-class loop keeps the methods built so far and then holds
   * one method per step class, in order.
   */
  lemma {:induction false} SynthesizeAllFromValue(acc: seq<MethodSpec>, scs: seq<Doc>,
                                                  synth: Doc -> Result<MethodSpec, Error>)
    requires SynthesizeAllFrom(acc, scs, synth).Success?
    ensures
      var ms := SynthesizeAllFrom(acc, scs, synth).value;
      && |ms| == |acc| + |scs|
      && ms[..|acc|] == acc
      && forall i | 0 <= i < |scs| ::
           synth(scs[i]).Success? &&
           ms[|acc| + i] == synth(scs[i]).value
    decreases |scs|
  {
    if scs != [] {
      SynthesizeAllFromStep(acc, scs, synth);
      var m := synth(scs[0]).value;
      SynthesizeAllFromValue(acc + [m], scs[1..], synth);
      MethodsShift(acc, m, scs, SynthesizeAllFrom(acc, scs, synth).value, synth);
    }
  }

  /** A successful first step class moves its method into `acc` and the loop goes on with the rest. */
  lemma SynthesizeAllFromStep(acc: seq<MethodSpec>, scs: seq<Doc>,
                              synth: Doc -> Result<MethodSpec, Error>)
    requires SynthesizeAllFrom(acc, scs, synth).Success? && scs != []
    ensures synth(scs[0]).Success?
    ensures SynthesizeAllFrom(acc, scs, synth)
         == SynthesizeAllFrom(acc + [synth(scs[0]).value], scs[1..], synth)
  {
  }

  /** The inductive step of SynthesizeAllFromValue: one method moves from the loop to `acc`. */
  lemma MethodsShift(acc: seq<MethodSpec>, m: MethodSpec, scs: seq<Doc>, ms: seq<MethodSpec>,
                     synth: Doc -> Result<MethodSpec, Error>)
    requires scs != [] && synth(scs[0]) == Success(m)
    requires |ms| == |acc + [m]| + |scs[1..]| && ms[..|acc + [m]|] == acc + [m]
    requires forall i | 0 <= i < |scs[1..]| ::
      synth(scs[1..][i]).Success? &&
      ms[|acc + [m]| + i] == synth(scs[1..][i]).value
    ensures |ms| == |acc| + |scs| && ms[..|acc|] == acc
    ensures forall i | 0 <= i < |scs| ::
      synth(scs[i]).Success? &&
      ms[|acc| + i] == synth(scs[i]).value
  {
    assert ms[..|acc|] == ms[..|acc| + 1][..|acc|];
    forall i | 0 <= i < |scs|
      ensures synth(scs[i]).Success? &&
              ms[|acc| + i] == synth(scs[i]).value
    {
      if i == 0 {
        assert ms[|acc|] == ms[..|acc| + 1][|acc|];
      } else {
        assert scs[i] == scs[1..][i - 1];
      }
    }
  }

  /** A failing per-class loop reports the exception of the first step class that raises. */
  lemma {:induction false} SynthesizeAllFromFirstFailure(acc: seq<MethodSpec>, scs: seq<Doc>,
                                                         synth: Doc -> Result<MethodSpec, Error>)
    requires SynthesizeAllFrom(acc, scs, synth).Failure?
    ensures
      exists i | 0 <= i < |scs| ::
        && synth(scs[i]).Failure?
        && SynthesizeAllFrom(acc, scs, synth).error == synth(scs[i]).error
        && forall j | 0 <= j < i :: synth(scs[j]).Success?
    decreases |scs|
  {
    var first := synth(scs[0]);
    if first.Failure? {
      assert SynthesizeAllFrom(acc, scs, synth).error == first.error;
    } else {
      var rest := scs[1..];
      var res := SynthesizeAllFrom(acc + [first.value], rest, synth);
      assert SynthesizeAllFrom(acc, scs, synth) == res;
      SynthesizeAllFromFirstFailure(acc + [first.value], rest, synth);
      var k :| 0 <= k < |rest| && synth(rest[k]).Failure?
               && res.error == synth(rest[k]).error
               && forall j | 0 <= j < k :: synth(rest[j]).Success?;
      assert scs[k + 1] == rest[k];
      forall j | 0 <= j < k + 1
        ensures synth(scs[j]).Success?
      {
        if j > 0 {
          assert scs[j] == rest[j - 1];
        }
      }
    }
  }

  // ---------------------------------------------------------------------------
  // Properties of generate()

  /**
   * generate() fails on the header before anything else: an empty module
   * raises IndexError, a module not ending with class Path raises
   * AssertionError, then a schema without "@graph" raises KeyError, then the
   * first node the extraction cannot read raises its exception.
   */
  lemma GenerateChecksInOrder(header: seq<Stmt>, graph: Option<seq<Doc>>, convert: string -> string)
    ensures |header| == 0 ==> GenerateSpec(header, graph, convert) == Failure(IndexError)
    ensures |header| > 0 && !IsPathClass(header[|header| - 1]) ==>
      GenerateSpec(header, graph, convert) == Failure(AssertionError)
    ensures |header| > 0 && IsPathClass(header[|header| - 1]) && graph.None? ==>
      GenerateSpec(header, graph, convert) == Failure(KeyError("@graph"))
    ensures |header| > 0 && IsPathClass(header[|header| - 1]) && graph.Some? && FirstError(graph.value).Some? ==>
      GenerateSpec(header, graph, convert) == Failure(FirstError(graph.value).value)
  {
    if graph.Some? {
      ExtractSpecCorrect(graph.value);
    }
  }

  /**
   * generate() succeeds exactly when the header ends with class Path, the
   * schema has a readable "@graph", and every step class synthesises; a
   * failing step class reports the exception of the first one that raises.
   */
  lemma GenerateSucceedsIff(header: seq<Stmt>, graph: Option<seq<Doc>>, convert: string -> string)
    ensures GenerateSpec(header, graph, convert).Success? <==>
      && |header| > 0 && IsPathClass(header[|header| - 1])
      && graph.Some? && FirstError(graph.value).None?
      && ExtractSpec(graph.value).Success?
      && var ex := ExtractSpec(graph.value).value;
         forall i | 0 <= i < |ex.stepClasses| :: SynthesisOk(ex.stepClasses[i], ex.byDomain)
    ensures
      && |header| > 0 && IsPathClass(header[|header| - 1])
      && graph.Some? && ExtractSpec(graph.value).Success?
      && GenerateSpec(header, graph, convert).Failure? ==>
      var ex := ExtractSpec(graph.value).value;
      exists i | 0 <= i < |ex.stepClasses| ::
        && SynthesizeSpec(ex.stepClasses[i], ex.byDomain, convert).Failure?
        && GenerateSpec(header, graph, convert).error == SynthesizeSpec(ex.stepClasses[i], ex.byDomain, convert).error
        && forall j | 0 <= j < i :: SynthesizeSpec(ex.stepClasses[j], ex.byDomain, convert).Success?
  {
    if |header| > 0 && IsPathClass(header[|header| - 1]) && graph.Some? {
      ExtractSpecCorrect(graph.value);
      if ExtractSpec(graph.value).Success? {
        var ex := ExtractSpec(graph.value).value;
        SynthesizeAllFromSucceeds([], ex.stepClasses, Synthesizer(ex.byDomain, convert));
        if SynthesizeAllFrom([], ex.stepClasses, Synthesizer(ex.byDomain, convert)).Failure? {
          SynthesizeAllFromFirstFailure([], ex.stepClasses, Synthesizer(ex.byDomain, convert));
        }
        forall i | 0 <= i < |ex.stepClasses|
          ensures SynthesizeSpec(ex.stepClasses[i], ex.byDomain, convert).Success? <==>
                  SynthesisOk(ex.stepClasses[i], ex.byDomain)
        {
          SynthesizeSucceedsIff(ex.stepClasses[i], ex.byDomain, convert);
        }
      }
    }
  }

  /**
   * Once the header and the graph are read, a failing generate() raises the
   * exception SynthesisError names for the first step class (in schema order)
   * for which it names one.
   */
  lemma GenerateRaisesFirstSynthesisError(header: seq<Stmt>, graph: seq<Doc>, convert: string -> string)
    requires |header| > 0 && IsPathClass(header[|header| - 1]) && FirstError(graph).None?
    ensures ExtractSpec(graph).Success?
    ensures
      var ex := ExtractSpec(graph).value;
      GenerateSpec(header, Some(graph), convert).Failure? <==>
        exists i | 0 <= i < |ex.stepClasses| :: SynthesisError(ex.stepClasses[i], ex.byDomain).Some?
    ensures GenerateSpec(header, Some(graph), convert).Failure? ==>
      var ex := ExtractSpec(graph).value;
      exists i | 0 <= i < |ex.stepClasses| ::
        && Some(GenerateSpec(header, Some(graph), convert).error) == SynthesisError(ex.stepClasses[i], ex.byDomain)
        && forall j | 0 <= j < i :: SynthesisError(ex.stepClasses[j], ex.byDomain).None?
  {
    ExtractSpecCorrect(graph);
    var ex := ExtractSpec(graph).value;
    GenerateSucceedsIff(header, Some(graph), convert);
    forall i | 0 <= i < |ex.stepClasses|
      ensures SynthesizeSpec(ex.stepClasses[i], ex.byDomain, convert).Success? <==>
              SynthesisError(ex.stepClasses[i], ex.byDomain).None?
      ensures SynthesizeSpec(ex.stepClasses[i], ex.byDomain, convert).Failure? ==>
              Some(SynthesizeSpec(ex.stepClasses[i], ex.byDomain, convert).error) ==
              SynthesisError(ex.stepClasses[i], ex.byDomain)
    {
      SynthesisErrorCorrect(ex.stepClasses[i], ex.byDomain, convert);
    }
    if GenerateSpec(header, Some(graph), convert).Success? {
      GenerateAppendsMethods(header, Some(graph), convert);
      SynthesizeAllFromSucceeds([], ex.stepClasses, Synthesizer(ex.byDomain, convert));
    }
  }

  /**
   * A successful generate() keeps every header statement but the last, and
   * replaces the last by class Path with its old body followed by one method
   * per step class of the schema, in schema order; nothing else is added.
   */
  lemma GenerateAppendsMethods(header: seq<Stmt>, graph: Option<seq<Doc>>, convert: string -> string)
    requires GenerateSpec(header, graph, convert).Success?
    ensures |header| > 0 && IsPathClass(header[|header| - 1]) && graph.Some?
    ensures ExtractSpec(graph.value).Success?
    ensures
      var out := GenerateSpec(header, graph, convert).value;
      var n := |header| - 1;
      var old_body := header[n].body;
      var ex := ExtractSpec(graph.value).value;
      var scs := StepClassesOf(graph.value);
      && ex.stepClasses == scs
      && |out| == |header|
      && out[..n] == header[..n]
      && IsPathClass(out[n])
      && |out[n].body| == |old_body| + |scs|
      && out[n].body[..|old_body|] == old_body
      && forall i | 0 <= i < |scs| ::
           SynthesizeSpec(scs[i], ex.byDomain, convert).Success? &&
           out[n].body[|old_body| + i] == FunctionDef(SynthesizeSpec(scs[i], ex.byDomain, convert).value)
  {
    ExtractSpecCorrect(graph.value);
    var ex := ExtractSpec(graph.value).value;
    var ms := SynthesizeAllFrom([], ex.stepClasses, Synthesizer(ex.byDomain, convert)).value;
    SynthesizeAllFromValue([], ex.stepClasses, Synthesizer(ex.byDomain, convert));
    var n := |header| - 1;
    var out := GenerateSpec(header, graph, convert).value;
    assert out == header[..n] + [ClassDef("Path", header[n].body + FunctionDefs(ms))];
    AppendedBody(header[n].body, ms, ex.stepClasses, ex.byDomain, convert);
    LastReplaced(header, ClassDef("Path", header[n].body + FunctionDefs(ms)));
  }

  /** The body of class Path once the synthesised methods are appended to it. */
  lemma AppendedBody(oldBody: seq<Stmt>, ms: seq<MethodSpec>, scs: seq<Doc>,
                     byDomain: map<string, seq<Doc>>, convert: string -> string)
    requires |ms| == |scs|
    requires forall i | 0 <= i < |scs| ::
      SynthesizeSpec(scs[i], byDomain, convert).Success? &&
      ms[i] == SynthesizeSpec(scs[i], byDomain, convert).value
    ensures
      var body := oldBody + FunctionDefs(ms);
      && |body| == |oldBody| + |scs|
      && body[..|oldBody|] == oldBody
      && forall i | 0 <= i < |scs| ::
           SynthesizeSpec(scs[i], byDomain, convert).Success? &&
           body[|oldBody| + i] == FunctionDef(SynthesizeSpec(scs[i], byDomain, convert).value)
  {
    var body := oldBody + FunctionDefs(ms);
    forall i | 0 <= i < |scs|
      ensures body[|oldBody| + i] == FunctionDef(ms[i])
    {
    }
  }

  /** Replacing the last statement keeps the others. */
  lemma LastReplaced(header: seq<Stmt>, last: Stmt)
    requires |header| > 0
    ensures var out := header[..|header| - 1] + [last];
      |out| == |header| && out[..|header| - 1] == header[..|header| - 1] && out[|header| - 1] == last
  {
  }

  /**
   * Every step class with a bound property whose range is unknown makes the
   * whole generation fail: no partial output.
   */
  lemma GenerateAbortsOnUnknownRange(header: seq<Stmt>, graph: seq<Doc>, convert: string -> string, sc: Doc, p: Doc)
    requires sc in graph && IsStepClassDoc(sc) && sc.id.Some?
    requires p in PropsFor(graph, sc.id.value)
    requires p.id.Some? && ArgName(p) != "from"
    requires p.range.Some? && p.range.value.id.Some? && p.range.value.id.value !in Types.RangeIds
    ensures GenerateSpec(header, Some(graph), convert).Failure?
  {
    ExtractSpecCorrect(graph);
    if GenerateSpec(header, Some(graph), convert).Success? {
      GenerateAppendsMethods(header, Some(graph), convert);
      var ex := ExtractSpec(graph).value;
      StepClassesOfMembers(graph, sc);
      var i :| 0 <= i < |ex.stepClasses| && ex.stepClasses[i] == sc;
      assert p in Lookup(ex.byDomain, sc.id.value);
      UnknownRangeAborts(sc, ex.byDomain, convert, p);
    }
  }

  // ---------------------------------------------------------------------------
  // The generator

  /**
   * generate(): the body of class Path grows by one method per step class,
   * as the per-class loop runs.
   */
  method Generate(header: seq<Stmt>, graph: Option<seq<Doc>>, convert: string -> string)
    returns (r: Result<seq<Stmt>, Error>)
    ensures r == GenerateSpec(header, graph, convert)
  {
    if |header| == 0 {
      return Failure(IndexError);
    }
    var classDef := header[|header| - 1];
    if !(classDef.ClassDef? && classDef.name == "Path") {
      return Failure(AssertionError);
    }
    if graph.None? {
      return Failure(KeyError("@graph"));
    }
    var extraction :- ExtractSchema(graph.value);
    var stepClasses := extraction.stepClasses;
    var body := classDef.body;
    ghost var methods: seq<MethodSpec> := [];
    var i := 0;
    while i < |stepClasses|
      invariant 0 <= i <= |stepClasses|
      invariant body == classDef.body + FunctionDefs(methods)
      invariant SynthesizeAllFrom(methods, stepClasses[i..], Synthesizer(extraction.byDomain, convert))
             == SynthesizeAllFrom([], stepClasses, Synthesizer(extraction.byDomain, convert))
    {
      assert stepClasses[i..][0] == stepClasses[i] && stepClasses[i..][1..] == stepClasses[i + 1..];
      var functionDef :- SynthesizeStepMethod(stepClasses[i], extraction.byDomain, convert);
      body := body + [FunctionDef(functionDef)];
      methods := methods + [functionDef];
      assert FunctionDefs(methods) == FunctionDefs(methods[..|methods| - 1]) + [FunctionDef(functionDef)];
      i := i + 1;
    }
    assert stepClasses[i..] == [];
    r := Success(header[..|header| - 1] + [ClassDef("Path", body)]);
  }
}
