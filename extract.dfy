/**
 * The first loop of generate(): one pass over the "@graph" that indexes every
 * property under each of its domain ids (properties_by_domain) and collects
 * the step classes (step_classes), both in schema order.
 */
module Extract {
  import opened Wrappers
  import opened Schema

  /** The two values the extraction loop builds. */
  datatype Extraction = Extraction(stepClasses: seq<Doc>, byDomain: map<string, seq<Doc>>)

  /** `properties_by_domain.get(c, [])` */
  function Lookup(m: map<string, seq<Doc>>, c: string): seq<Doc> {
    if c in m then m[c] else []
  }

  // ---------------------------------------------------------------------------
  // The loop, written as functions over the part of the graph still to read

  /**
   * The inner loop over get_domains(document): each member's "@id" (indexed,
   * so a member without one raises) gets the property appended, via
   * `setdefault(c, []).append(document)`.
   */
  function IndexDomains(m: map<string, seq<Doc>>, d: Doc, members: seq<Doc>): Result<map<string, seq<Doc>>, Error>
    decreases |members|
  {
    if members == [] then Success(m)
    else if members[0].id.None? then Failure(KeyError("@id"))
    else
      var c := members[0].id.value;
      IndexDomains(m[c := Lookup(m, c) + [d]], d, members[1..])
  }

  /** One iteration of the loop over the graph. */
  function ExtractOne(acc: Extraction, d: Doc): Result<Extraction, Error> {
    var isProp :- IsProperty(d);
    var byDomain :-
      if !isProp then Success(acc.byDomain)
      else if d.domain.None? then Failure(KeyError("rdfs:domain"))
      else IndexDomains(acc.byDomain, d, GetDomains(d.domain.value));
    var isStep :- IsStepClass(d);
    Success(Extraction(if isStep then acc.stepClasses + [d] else acc.stepClasses, byDomain))
  }

  /** The loop from state `acc` over the nodes `g` still to read. */
  function ExtractFrom(acc: Extraction, g: seq<Doc>): Result<Extraction, Error>
    decreases |g|
  {
    if g == [] then Success(acc)
    else
      var next :- ExtractOne(acc, g[0]);
      ExtractFrom(next, g[1..])
  }

  /** The whole loop, from empty collections. */
  function ExtractSpec(g: seq<Doc>): Result<Extraction, Error> {
    ExtractFrom(Extraction([], map[]), g)
  }

  // ---------------------------------------------------------------------------
  // What the loop is meant to compute, stated independently of it

  /** The exception reading node `d` raises in the loop, if any, in the order the code reads keys. */
  function DocError(d: Doc): Option<Error> {
    if d.typ.None? then Some(KeyError("@type"))
    else if d.typ.value in PropertyTypes && d.domain.None? then Some(KeyError("rdfs:domain"))
    else if d.typ.value in PropertyTypes && exists m <- GetDomains(d.domain.value) :: m.id.None? then
      Some(KeyError("@id"))
    else if exists s <- SuperClasses(d) :: s.id.None? then Some(KeyError("@id"))
    else None
  }

  /** The exception of the first node that raises one. */
  function FirstError(g: seq<Doc>): Option<Error> {
    if g == [] then None
    else if DocError(g[0]).Some? then DocError(g[0])
    else FirstError(g[1..])
  }

  predicate IsStepClassDoc(d: Doc) {
    IsStepClass(d) == Success(true)
  }

  predicate IsPropertyDoc(d: Doc) {
    IsProperty(d) == Success(true)
  }

  /** The step-class nodes of `g`, in schema order. */
  function StepClassesOf(g: seq<Doc>): seq<Doc> {
    if g == [] then []
    else (if IsStepClassDoc(g[0]) then [g[0]] else []) + StepClassesOf(g[1..])
  }

  /** How many of the domain members `ms` have the id `c`. */
  function CountId(ms: seq<Doc>, c: string): nat {
    if ms == [] then 0
    else (if ms[0].id == Some(c) then 1 else 0) + CountId(ms[1..], c)
  }

  function Repeat(d: Doc, n: nat): seq<Doc> {
    if n == 0 then [] else [d] + Repeat(d, n - 1)
  }

  /**
   * The properties of `g` whose domain names class `c`, in schema order, each
   * once per domain member whose id is `c`.
   */
  function PropsFor(g: seq<Doc>, c: string): seq<Doc> {
    if g == [] then []
    else
      var d := g[0];
      (if IsPropertyDoc(d) && d.domain.Some? then Repeat(d, CountId(GetDomains(d.domain.value), c)) else [])
      + PropsFor(g[1..], c)
  }

  // ---------------------------------------------------------------------------
  // The loop computes it

  /** The domain loop raises exactly when a domain member has no "@id". */
  lemma {:induction false} IndexDomainsSucceeds(m: map<string, seq<Doc>>, d: Doc, ms: seq<Doc>)
    ensures IndexDomains(m, d, ms).Success? <==> forall x <- ms :: x.id.Some?
    ensures IndexDomains(m, d, ms).Failure? ==> IndexDomains(m, d, ms).error == KeyError("@id")
    decreases |ms|
  {
    if ms != [] {
      assert forall x <- ms :: x in ms[1..] || x == ms[0] by {
        assert ms == [ms[0]] + ms[1..];
      }
      if ms[0].id.Some? {
        var c0 := ms[0].id.value;
        IndexDomainsSucceeds(m[c0 := Lookup(m, c0) + [d]], d, ms[1..]);
      }
    }
  }

  /**
   * A successful domain loop appends the property under class `c` once per
   * domain member whose id is `c`, and changes nothing else.
   */
  lemma {:induction false} IndexDomainsLookup(m: map<string, seq<Doc>>, d: Doc, ms: seq<Doc>, c: string)
    requires IndexDomains(m, d, ms).Success?
    ensures Lookup(IndexDomains(m, d, ms).value, c) == Lookup(m, c) + Repeat(d, CountId(ms, c))
    decreases |ms|
  {
    if ms != [] {
      var c0 := ms[0].id.value;
      var m' := m[c0 := Lookup(m, c0) + [d]];
      assert IndexDomains(m, d, ms) == IndexDomains(m', d, ms[1..]);
      IndexDomainsLookup(m', d, ms[1..], c);
      if c == c0 {
        assert Lookup(m', c) == Lookup(m, c) + [d];
        assert Repeat(d, CountId(ms, c)) == [d] + Repeat(d, CountId(ms[1..], c));
        assert Lookup(m, c) + [d] + Repeat(d, CountId(ms[1..], c))
            == Lookup(m, c) + ([d] + Repeat(d, CountId(ms[1..], c)));
      } else {
        assert Lookup(m', c) == Lookup(m, c);
      }
    }
  }

  /** One node raises exactly its DocError. */
  lemma ExtractOneSucceeds(acc: Extraction, d: Doc)
    ensures ExtractOne(acc, d).Success? <==> DocError(d).None?
    ensures ExtractOne(acc, d).Failure? ==> Some(ExtractOne(acc, d).error) == DocError(d)
  {
    if IsPropertyDoc(d) && d.domain.Some? {
      IndexDomainsSucceeds(acc.byDomain, d, GetDomains(d.domain.value));
    }
  }

  /** A node that raises nothing is appended to the step classes iff it is one. */
  lemma ExtractOneStepClasses(acc: Extraction, d: Doc)
    requires ExtractOne(acc, d).Success?
    ensures ExtractOne(acc, d).value.stepClasses == acc.stepClasses + (if IsStepClassDoc(d) then [d] else [])
  {
  }

  /**
   * A node that raises nothing is listed under class `c` once per domain
   * member with id `c` iff it is a property.
   */
  lemma ExtractOneLookup(acc: Extraction, d: Doc, c: string)
    requires ExtractOne(acc, d).Success?
    ensures Lookup(ExtractOne(acc, d).value.byDomain, c) == Lookup(acc.byDomain, c) +
      (if IsPropertyDoc(d) && d.domain.Some? then Repeat(d, CountId(GetDomains(d.domain.value), c)) else [])
  {
    if IsPropertyDoc(d) && d.domain.Some? {
      IndexDomainsLookup(acc.byDomain, d, GetDomains(d.domain.value), c);
    }
  }

  /**
   * The extraction loop from any state succeeds exactly when no node raises,
   * and otherwise reports the first node's exception.
   */
  lemma {:induction false} ExtractFromSucceeds(acc: Extraction, g: seq<Doc>)
    ensures ExtractFrom(acc, g).Success? <==> FirstError(g).None?
    ensures ExtractFrom(acc, g).Failure? ==> Some(ExtractFrom(acc, g).error) == FirstError(g)
    decreases |g|
  {
    if g != [] {
      ExtractOneSucceeds(acc, g[0]);
      assert FirstError(g) == if DocError(g[0]).Some? then DocError(g[0]) else FirstError(g[1..]);
      if ExtractOne(acc, g[0]).Success? {
        var next := ExtractOne(acc, g[0]).value;
        assert ExtractFrom(acc, g) == ExtractFrom(next, g[1..]);
        ExtractFromSucceeds(next, g[1..]);
      }
    }
  }

  /** A successful extraction loop appends the step classes of `g`, in order. */
  lemma {:induction false} ExtractFromStepClasses(acc: Extraction, g: seq<Doc>)
    requires ExtractFrom(acc, g).Success?
    ensures ExtractFrom(acc, g).value.stepClasses == acc.stepClasses + StepClassesOf(g)
    decreases |g|
  {
    if g != [] {
      var d := g[0];
      var next := ExtractOne(acc, d).value;
      assert ExtractFrom(acc, g) == ExtractFrom(next, g[1..]);
      assert StepClassesOf(g) == (if IsStepClassDoc(d) then [d] else []) + StepClassesOf(g[1..]);
      ExtractOneStepClasses(acc, d);
      ExtractFromStepClasses(next, g[1..]);
    }
  }

  /** A successful extraction loop appends PropsFor(g, c) under every class id `c`. */
  lemma {:induction false} ExtractFromLookup(acc: Extraction, g: seq<Doc>, c: string)
    requires ExtractFrom(acc, g).Success?
    ensures Lookup(ExtractFrom(acc, g).value.byDomain, c) == Lookup(acc.byDomain, c) + PropsFor(g, c)
    decreases |g|
  {
    if g != [] {
      var d := g[0];
      var next := ExtractOne(acc, d).value;
      var added := if IsPropertyDoc(d) && d.domain.Some? then Repeat(d, CountId(GetDomains(d.domain.value), c)) else [];
      assert PropsFor(g, c) == added + PropsFor(g[1..], c);
      assert ExtractFrom(acc, g) == ExtractFrom(next, g[1..]);
      ExtractOneLookup(acc, d, c);
      ExtractFromLookup(next, g[1..], c);
      assert Lookup(acc.byDomain, c) + added + PropsFor(g[1..], c) == Lookup(acc.byDomain, c) + (added + PropsFor(g[1..], c));
    }
  }

  /**
   * The extraction loop from the empty start of generate(): the first node's
   * exception, or the step classes in schema order and, under every class id
   * `c`, PropsFor(g, c).
   */
  lemma ExtractSpecCorrect(g: seq<Doc>)
    ensures ExtractSpec(g).Success? <==> FirstError(g).None?
    ensures ExtractSpec(g).Failure? ==> Some(ExtractSpec(g).error) == FirstError(g)
    ensures ExtractSpec(g).Success? ==>
      && ExtractSpec(g).value.stepClasses == StepClassesOf(g)
      && forall c :: Lookup(ExtractSpec(g).value.byDomain, c) == PropsFor(g, c)
  {
    var start := Extraction([], map[]);
    ExtractFromSucceeds(start, g);
    if ExtractSpec(g).Success? {
      ExtractFromStepClasses(start, g);
      forall c
        ensures Lookup(ExtractSpec(g).value.byDomain, c) == PropsFor(g, c)
      {
        ExtractFromLookup(start, g, c);
      }
    }
  }

  /** A step class of the schema is exactly a step-class node of `g`. */
  lemma {:induction false} StepClassesOfMembers(g: seq<Doc>, d: Doc)
    ensures d in StepClassesOf(g) <==> d in g && IsStepClassDoc(d)
    decreases |g|
  {
    if g != [] {
      StepClassesOfMembers(g[1..], d);
      assert g == [g[0]] + g[1..];
    }
  }

  /**
   * A node is listed under class `c` exactly when it is a property with a
   * domain member whose id is `c`.
   */
  lemma {:induction false} PropsForMembers(g: seq<Doc>, c: string, p: Doc)
    ensures p in PropsFor(g, c) <==>
      p in g && IsPropertyDoc(p) && p.domain.Some? && exists m <- GetDomains(p.domain.value) :: m.id == Some(c)
    decreases |g|
  {
    if g != [] {
      PropsForMembers(g[1..], c, p);
      assert g == [g[0]] + g[1..];
      var d := g[0];
      if IsPropertyDoc(d) && d.domain.Some? {
        var ms := GetDomains(d.domain.value);
        CountIdPositive(ms, c);
        RepeatMembers(d, CountId(ms, c), p);
      }
    }
  }

  lemma {:induction false} CountIdPositive(ms: seq<Doc>, c: string)
    ensures CountId(ms, c) > 0 <==> exists m <- ms :: m.id == Some(c)
    decreases |ms|
  {
    if ms != [] {
      CountIdPositive(ms[1..], c);
      assert ms == [ms[0]] + ms[1..];
    }
  }

  lemma {:induction false} RepeatMembers(d: Doc, n: nat, p: Doc)
    ensures p in Repeat(d, n) <==> n > 0 && p == d
    decreases n
  {
    if n > 0 {
      RepeatMembers(d, n - 1, p);
    }
  }

  // ---------------------------------------------------------------------------
  // The loop itself

  /**
   * The domain loop of one property: `setdefault(c, []).append(document)`
   * for the "@id" of every member of get_domains(document).
   */
  method AddToDomains(byDomain: map<string, seq<Doc>>, d: Doc, members: seq<Doc>)
    returns (r: Result<map<string, seq<Doc>>, Error>)
    ensures r == IndexDomains(byDomain, d, members)
  {
    var index := byDomain;
    var j := 0;
    while j < |members|
      invariant 0 <= j <= |members|
      invariant IndexDomains(index, d, members[j..]) == IndexDomains(byDomain, d, members)
    {
      assert members[j..][0] == members[j] && members[j..][1..] == members[j + 1..];
      var member := members[j];
      if member.id.None? {
        return Failure(KeyError("@id"));
      }
      var c := member.id.value;
      index := index[c := Lookup(index, c) + [d]];
      j := j + 1;
    }
    assert members[j..] == [];
    r := Success(index);
  }

  /**
   * The extraction loop of generate(): reads the graph once, in order,
   * stopping at the first exception.
   */
  method ExtractSchema(graph: seq<Doc>) returns (r: Result<Extraction, Error>)
    ensures r == ExtractSpec(graph)
  {
    var stepClasses: seq<Doc> := [];
    var byDomain: map<string, seq<Doc>> := map[];
    var i := 0;
    while i < |graph|
      invariant 0 <= i <= |graph|
      invariant ExtractFrom(Extraction(stepClasses, byDomain), graph[i..]) == ExtractSpec(graph)
    {
      var d := graph[i];
      assert graph[i..][0] == d && graph[i..][1..] == graph[i + 1..];
      var isProp :- IsProperty(d);
      if isProp {
        if d.domain.None? {
          return Failure(KeyError("rdfs:domain"));
        }
        byDomain :- AddToDomains(byDomain, d, GetDomains(d.domain.value));
      }
      var isStep :- IsStepClass(d);
      if isStep {
        stepClasses := stepClasses + [d];
      }
      i := i + 1;
    }
    assert graph[i..] == [];
    r := Success(Extraction(stepClasses, byDomain));
  }
}
