/**
 * The LinkedQL ontology graph as the generator reads it: JSON-LD nodes with
 * the handful of keys it looks at, the exceptions reading them can raise, and
 * the small classification helpers of generate/generate.py.
 */
module Schema {
  import opened Wrappers

  /** A JSON value written either as one object or as a list of objects. */
  datatype OneOrMany<+T> = One(item: T) | Many(items: seq<T>)

  /**
   * One JSON-LD node of the graph. A field is None when the node has no such
   * key. `unionOf` is the `@list` under an `owl:unionOf` key.
   */
  datatype Doc = Doc(
    id: Option<string>,                   // "@id"
    typ: Option<string>,                  // "@type"
    subClassOf: Option<OneOrMany<Doc>>,   // "rdfs:subClassOf"
    domain: Option<Doc>,                  // "rdfs:domain"
    unionOf: Option<seq<Doc>>,            // "owl:unionOf" -> "@list"
    range: Option<Doc>,                   // "rdfs:range"
    cardinality: Option<int>,             // "owl:cardinality"
    onProperty: Option<Doc>,              // "owl:onProperty"
    comment: Option<string>)              // "rdfs:comment"

  /** The exceptions generation can raise. */
  datatype Error =
    | KeyError(key: string)          // a dictionary lookup of a missing key
    | UnexpectedRange(range: Doc)    // range_to_type met an unknown range
    | IndexError                     // the header module has no statement
    | AssertionError                 // the header does not end with class Path

  const ClassTypes: set<string> := {"rdfs:Class", "owl:Class"}
  const PathStepId: string := "linkedql:PathStep"
  const IteratorStepId: string := "linkedql:IteratorStep"
  const StepClassIds: set<string> := {PathStepId, IteratorStepId}
  const PropertyTypes: set<string> := {"owl:ObjectProperty", "owl:DatatypeProperty"}
  const RestrictionType: string := "owl:Restriction"

  /** normalize_list: a list is kept as it is, a single object becomes a one-element list. */
  function NormalizeList<T>(obj: OneOrMany<T>): (r: seq<T>)
    ensures obj.Many? ==> r == obj.items
    ensures obj.One? ==> |r| == 1 && r[0] == obj.item
  {
    match obj
    case One(x) => [x]
    case Many(xs) => xs
  }

  /** The direct superclasses of a node; an absent "rdfs:subClassOf" reads as []. */
  function SuperClasses(d: Doc): seq<Doc> {
    if d.subClassOf.Some? then NormalizeList(d.subClassOf.value) else []
  }

  /**
   * is_step_class: the node is a class and one of its DIRECT superclasses is
   * a step marker. Every superclass is indexed with "@id" before "@type" is
   * read, so a superclass without "@id" raises first.
   */
  function IsStepClass(d: Doc): (r: Result<bool, Error>)
    ensures r.Success? <==> (forall s <- SuperClasses(d) :: s.id.Some?) && d.typ.Some?
    ensures (exists s <- SuperClasses(d) :: s.id.None?) ==> r == Failure(KeyError("@id"))
    ensures (forall s <- SuperClasses(d) :: s.id.Some?) && d.typ.None? ==> r == Failure(KeyError("@type"))
    ensures r.Success? ==>
      (r.value <==> d.typ.value in ClassTypes && exists s <- SuperClasses(d) :: s.id.value in StepClassIds)
  {
    var sups := SuperClasses(d);
    if exists s <- sups :: s.id.None? then Failure(KeyError("@id"))
    else if d.typ.None? then Failure(KeyError("@type"))
    else
      var ids := set s <- sups :: s.id.value;
      assert (exists s <- sups :: s.id.value in StepClassIds) <==> StepClassIds * ids != {} by {
        if exists s <- sups :: s.id.value in StepClassIds {
          var s :| s in sups && s.id.value in StepClassIds;
          assert s.id.value in StepClassIds * ids;
        }
      }
      Success(d.typ.value in ClassTypes && StepClassIds * ids != {})
  }

  /** is_restriction: `.get("@type")`, so an absent "@type" is simply not a restriction. */
  predicate IsRestriction(d: Doc) {
    d.typ == Some(RestrictionType)
  }

  /** is_single_cardinality_restriction: "owl:cardinality" is present and equal to 1. */
  predicate IsSingleCardinalityRestriction(d: Doc) {
    d.cardinality == Some(1)
  }

  /** is_property: "@type" is indexed directly, so an absent "@type" raises. */
  function IsProperty(d: Doc): (r: Result<bool, Error>)
    ensures r.Failure? <==> d.typ.None?
    ensures r.Failure? ==> r.error == KeyError("@type")
    ensures r.Success? ==> (r.value <==> d.typ.value in PropertyTypes)
  {
    if d.typ.None? then Failure(KeyError("@type"))
    else Success(d.typ.value in PropertyTypes)
  }

  /**
   * get_domains: the members of an "owl:unionOf" list, in order, when the
   * domain node has one; otherwise the domain node itself, once.
   */
  function GetDomains(domain: Doc): (r: seq<Doc>)
    ensures domain.unionOf.Some? ==> r == domain.unionOf.value
    ensures domain.unionOf.None? ==> |r| == 1 && r[0] == domain
  {
    if domain.unionOf.Some? then domain.unionOf.value else [domain]
  }

  /** A property node is never a step class: the two "@type" sets are disjoint. */
  lemma PropertyIsNeverStepClass(d: Doc)
    requires IsProperty(d) == Success(true)
    ensures IsStepClass(d) != Success(true)
  {
  }

  /**
   * Step-class membership looks at direct superclasses only: a node none of
   * whose direct superclasses is a marker is not a step class, whatever its
   * superclasses' own superclasses are.
   */
  lemma DirectSuperclassesOnly(child: Doc)
    requires forall s <- SuperClasses(child) :: s.id.Some? && s.id.value !in StepClassIds
    ensures IsStepClass(child) != Success(true)
  {
  }

  /**
   * The membership is not transitive: a class whose only superclass is a step
   * class, and which names no marker directly, is not a step class.
   */
  lemma StepClassIsNotInherited(parent: Doc, child: Doc)
    requires parent == Doc(Some("linkedql:Parent"), Some("rdfs:Class"),
                           Some(One(Doc(Some(PathStepId), None, None, None, None, None, None, None, None))),
                           None, None, None, None, None, None)
    requires child == Doc(Some("linkedql:Child"), Some("owl:Class"), Some(Many([parent])),
                          None, None, None, None, None, None)
    ensures IsStepClass(parent) == Success(true)
    ensures IsStepClass(child) == Success(false)
  {
    assert SuperClasses(parent)[0].id.value in StepClassIds;
    assert SuperClasses(child) == [parent];
  }
}
