/**
 * range_to_type of generate/generate.py: the Python type annotation, as a
 * small expression tree, for each range the LinkedQL schema uses.
 */
module Types {
  import opened Wrappers
  import opened Schema

  /**
   * The fragment of Python's `ast` expressions the generator builds:
   * `ast.Constant`, `ast.Name`, `ast.Attribute` and `ast.Subscript`; the
   * subscript's `ast.Index`/`ast.ExtSlice` wrapper is kept as the list of its
   * elements.
   */
  datatype TypeExpr =
    | Const(value: string)
    | Name(id: string)
    | Attribute(base: TypeExpr, attr: string)
    | Subscript(base: TypeExpr, slice: seq<TypeExpr>)

  /** `typing.<attr>` */
  function Typing(attr: string): TypeExpr {
    Attribute(Name("typing"), attr)
  }

  /** `typing.List[t]`, the annotation of a multi-valued property. */
  function ListOf(t: TypeExpr): TypeExpr {
    Subscript(Typing("List"), [t])
  }

  /** The ten range ids the generator knows. */
  const RangeIds: set<string> := {
    "linkedql:PathStep", "linkedql:PropertyPath", "rdf:JSON", "xsd:string", "xsd:int",
    "xsd:float", "xsd:boolean", "linkedql:Operator", "rdfs:Resource", "owl:Thing"
  }

  /**
   * range_to_type: a fixed annotation for each of the ten known range ids;
   * an unknown id raises with the offending range, and a range without "@id"
   * raises a KeyError. No known range maps to a bare `typing.List[...]`, so
   * a List annotation always comes from the multi-valued wrapping.
   */
  function RangeToType(range: Doc): (r: Result<TypeExpr, Error>)
    ensures r.Success? <==> range.id.Some? && range.id.value in RangeIds
    ensures range.id.None? ==> r == Failure(KeyError("@id"))
    ensures range.id.Some? && range.id.value !in RangeIds ==> r == Failure(UnexpectedRange(range))
    ensures r.Success? ==> !(r.value.Subscript? && r.value.base == Typing("List"))
  {
    if range.id.None? then Failure(KeyError("@id"))
    else
      var id := range.id.value;
      if id == "linkedql:PathStep" then Success(Const("Path"))
      else if id == "linkedql:PropertyPath" then
        Success(Subscript(Typing("Union"), [Name("str"), ListOf(Name("str"))]))
      else if id == "rdf:JSON" then Success(Subscript(Typing("Dict"), [Name("str"), Name("str")]))
      else if id == "xsd:string" then Success(Name("str"))
      else if id == "xsd:int" then Success(Name("int"))
      else if id == "xsd:float" then Success(Name("float"))
      else if id == "xsd:boolean" then Success(Name("bool"))
      else if id == "linkedql:Operator" then Success(Name("Operator"))
      else if id == "rdfs:Resource" then Success(Attribute(Attribute(Name("rdflib"), "term"), "Node"))
      else if id == "owl:Thing" then Success(Attribute(Attribute(Name("rdflib"), "term"), "Identifier"))
      else Failure(UnexpectedRange(range))
  }
}
