/** The meta-AST an ASDL description is parsed into: a module holds its type
    definitions in source order; each definition names either a sum (a list
    of constructors plus attributes shared by all of them) or a product (one
    field list plus attributes); constructors carry fields, and fields are
    leaves. */
module Nodes {
  import opened Errors

  /** A field: the name of its type, an optional binding name, and the two
      independent quantifier markers `*` (sequence) and `?` (optional). */
  datatype Field = Field(typ: string, name: Option<string>, isSeq: bool, isOpt: bool)

  /** A constructor of a sum. A constructor written without a field list has
      no fields. */
  datatype Constructor = Constructor(name: string, fields: seq<Field>)

  /** The value of a type definition. `types` holds a sum's constructors, in
      source order. Missing attributes are an empty list. */
  datatype Value =
    | Sum(types: seq<Constructor>, attributes: seq<Field>)
    | Product(fields: seq<Field>, attributes: seq<Field>)

  datatype Type = Type(name: string, value: Value)

  datatype Module = Module(name: string, dfns: seq<Type>) {

    /** The name-to-value map the module derives from its definitions. */
    function Types(): (m: map<string, Value>)
      ensures m.Keys == set d | d in dfns :: d.name
      ensures forall i | 0 <= i < |dfns| && LastWithName(dfns, i) :: dfns[i].name in m && m[dfns[i].name] == dfns[i].value
    {
      TypesOf(dfns)
    }
  }

  /** The type names every module may use without declaring them. */
  const Builtins: set<string> := {"identifier", "string", "int", "constant", "bool", "conversion_flag"}

  /** No definition after the one at `i` has the same name. */
  predicate LastWithName(dfns: seq<Type>, i: int)
    requires 0 <= i < |dfns|
  {
    forall j | i < j < |dfns| :: dfns[j].name != dfns[i].name
  }

  /** The definitions folded into a map in source order, so that a later
      definition with the same name wins: the keys are exactly the defined
      names, and each name maps to the value of its last definition. */
  function TypesOf(dfns: seq<Type>): (m: map<string, Value>)
    ensures m.Keys == set d | d in dfns :: d.name
    ensures forall i | 0 <= i < |dfns| && LastWithName(dfns, i) :: dfns[i].name in m && m[dfns[i].name] == dfns[i].value
  {
    if |dfns| == 0 then
      map[]
    else
      var init := dfns[..|dfns| - 1];
      var d := dfns[|dfns| - 1];
      assert dfns == init + [d];
      assert (set e | e in dfns :: e.name) == (set e | e in init :: e.name) + {d.name};
      LastWithNameInit(dfns);
      TypesOf(init)[d.name := d.value]
  }

  lemma LastWithNameInit(dfns: seq<Type>)
    requires |dfns| > 0
    ensures forall i | 0 <= i < |dfns| - 1 && LastWithName(dfns, i) :: LastWithName(dfns[..|dfns| - 1], i)
  {
  }
}
