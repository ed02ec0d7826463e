/** The consistency check on a parsed module. The visitor walks the
    definitions in source order: every constructor name is registered with
    the type that defines it (a name already registered adds one error and
    keeps its first owner), and every field type is recorded together with
    the constructor or product that uses it. Afterwards each recorded field
    type that is neither defined by the module nor builtin adds one error,
    and the check succeeds when there are no errors. Attributes are never
    visited. */
module Checker {
  import opened Errors
  import opened Nodes

  /** The visitor's state: constructor name to the type that first defined
      it, the error count, and field type to the names of its users in visit
      order. */
  datatype CheckState = CheckState(cons: map<string, string>, errors: nat, types: map<string, seq<string>>)

  const Empty := CheckState(map[], 0, map[])

  // ---------------------------------------------------------------------
  // The visitor
  // ---------------------------------------------------------------------

  /** Registers constructor `name` for `owner`: a name already registered
      counts one error and keeps its first owner. */
  function Registered(st: CheckState, name: string, owner: string): (r: CheckState)
    ensures r.cons.Keys == st.cons.Keys + {name}
    ensures r.errors == st.errors + (if name in st.cons then 1 else 0)
    ensures forall k | k in st.cons :: r.cons[k] == st.cons[k]
    ensures name !in st.cons ==> r.cons[name] == owner
    ensures r.types == st.types
  {
    if name in st.cons then st.(errors := st.errors + 1) else st.(cons := st.cons[name := owner])
  }

  /** Records that `owner` uses type `name`: the type's list of users, empty
      at first, gets `owner` appended. */
  function Used(types: map<string, seq<string>>, name: string, owner: string): (r: map<string, seq<string>>)
    ensures r.Keys == types.Keys + {name}
    ensures UsersOf(r, name) == UsersOf(types, name) + [owner]
    ensures forall k | k in types && k != name :: r[k] == types[k]
  {
    types[name := UsersOf(types, name) + [owner]]
  }

  /** The users recorded for type `name`; none when it is not recorded. */
  function UsersOf(types: map<string, seq<string>>, name: string): seq<string> {
    if name in types then types[name] else []
  }

  /** A field of `owner`. */
  function VisitField(st: CheckState, f: Field, owner: string): (r: CheckState)
    ensures r.cons == st.cons && r.errors == st.errors
    ensures r.types.Keys == st.types.Keys + {f.typ}
  {
    st.(types := Used(st.types, f.typ, owner))
  }

  /** The type names of some fields. */
  function TypesIn(fs: seq<Field>): set<string> {
    set f | f in fs :: f.typ
  }

  /** The fields of `owner`: the registry and the error count stay, and the
      index gains exactly the fields' types. */
  function VisitFields(st: CheckState, fs: seq<Field>, owner: string): (r: CheckState)
    ensures r.cons == st.cons && r.errors == st.errors
    ensures r.types.Keys == st.types.Keys + TypesIn(fs)
    decreases |fs|
  {
    if |fs| == 0 then st
    else
      assert TypesIn(fs) == {fs[0].typ} + TypesIn(fs[1..]) by {
        assert fs == [fs[0]] + fs[1..];
      }
      VisitFields(VisitField(st, fs[0], owner), fs[1..], owner)
  }

  /** A constructor of the type `typeName`: a name seen before counts one
      error and keeps its first owner; then the fields are visited with the
      constructor's name as their owner. */
  function VisitConstructor(st: CheckState, c: Constructor, typeName: string): (r: CheckState)
    ensures r.cons.Keys == st.cons.Keys + {c.name}
    ensures r.errors == st.errors + (if c.name in st.cons then 1 else 0)
    ensures forall k | k in st.cons :: r.cons[k] == st.cons[k]
    ensures c.name !in st.cons ==> r.cons[c.name] == typeName
    ensures r.types.Keys == st.types.Keys + TypesIn(c.fields)
  {
    VisitFields(Registered(st, c.name, typeName), c.fields, c.name)
  }

  /** The names of some constructors. */
  function NamesIn(cs: seq<Constructor>): set<string> {
    set c | c in cs :: c.name
  }

  /** The constructors of `typeName`: the registry gains exactly their
      names, each new one owned by `typeName`, the names registered before
      keep their owners, and each constructor adds at most one error. */
  function VisitConstructors(st: CheckState, cs: seq<Constructor>, typeName: string): (r: CheckState)
    ensures r.cons.Keys == st.cons.Keys + NamesIn(cs)
    ensures forall k | k in st.cons :: r.cons[k] == st.cons[k]
    ensures forall k | k in r.cons && k !in st.cons :: r.cons[k] == typeName
    ensures st.errors <= r.errors <= st.errors + |cs|
    ensures st.types.Keys <= r.types.Keys
    decreases |cs|
  {
    if |cs| == 0 then st
    else
      assert NamesIn(cs) == {cs[0].name} + NamesIn(cs[1..]) by {
        assert cs == [cs[0]] + cs[1..];
      }
      VisitConstructors(VisitConstructor(st, cs[0], typeName), cs[1..], typeName)
  }

  /** A definition: a sum visits its constructors, a product its fields,
      both on behalf of the definition's name. A product registers nothing
      and counts no error; the names a sum registers are its constructors,
      owned by the sum. */
  function VisitType(st: CheckState, d: Type): (r: CheckState)
    ensures d.value.Product? ==> r.cons == st.cons && r.errors == st.errors
    ensures d.value.Product? ==> r.types.Keys == st.types.Keys + TypesIn(d.value.fields)
    ensures d.value.Sum? ==> r.cons.Keys == st.cons.Keys + NamesIn(d.value.types)
    ensures forall k | k in st.cons :: r.cons[k] == st.cons[k]
    ensures forall k | k in r.cons && k !in st.cons :: r.cons[k] == d.name
    ensures st.types.Keys <= r.types.Keys
  {
    match d.value
    case Sum(cs, _) => VisitConstructors(st, cs, d.name)
    case Product(fs, _) => VisitFields(st, fs, d.name)
  }

  /** The definitions in order: names registered before keep their owners,
      and neither the registry, the error count nor the index shrinks. */
  function VisitDefinitions(st: CheckState, dfns: seq<Type>): (r: CheckState)
    ensures st.cons.Keys <= r.cons.Keys
    ensures forall k | k in st.cons :: r.cons[k] == st.cons[k]
    ensures st.errors <= r.errors
    ensures st.types.Keys <= r.types.Keys
    decreases |dfns|
  {
    if |dfns| == 0 then st else VisitDefinitions(VisitType(st, dfns[0]), dfns[1..])
  }

  // ---------------------------------------------------------------------
  // What the visitor sees, flattened
  // ---------------------------------------------------------------------

  /** A name seen by the visitor together with the name it is reported
      against: a constructor and its type, or a field type and its user. */
  datatype Site = Site(name: string, owner: string)

  function Names(sites: seq<Site>): set<string> {
    set s | s in sites :: s.name
  }

  function FieldSites(fs: seq<Field>, owner: string): (r: seq<Site>)
    ensures |r| == |fs|
    ensures forall i | 0 <= i < |fs| :: r[i] == Site(fs[i].typ, owner)
  {
    seq(|fs|, i requires 0 <= i < |fs| => Site(fs[i].typ, owner))
  }

  function ConstructorsOf(d: Type): seq<Site> {
    match d.value
    case Sum(cs, _) => seq(|cs|, i requires 0 <= i < |cs| => Site(cs[i].name, d.name))
    case Product(_, _) => []
  }

  function ConstructorFieldSites(cs: seq<Constructor>): seq<Site> {
    if |cs| == 0 then [] else FieldSites(cs[0].fields, cs[0].name) + ConstructorFieldSites(cs[1..])
  }

  function FieldsOf(d: Type): seq<Site> {
    match d.value
    case Sum(cs, _) => ConstructorFieldSites(cs)
    case Product(fs, _) => FieldSites(fs, d.name)
  }

  /** Every constructor of the module, with its type, in source order. */
  function ConstructorSites(dfns: seq<Type>): seq<Site> {
    if |dfns| == 0 then [] else ConstructorsOf(dfns[0]) + ConstructorSites(dfns[1..])
  }

  /** Every field type of the module with its user, in source order;
      attributes are not included. */
  function FieldUses(dfns: seq<Type>): seq<Site> {
    if |dfns| == 0 then [] else FieldsOf(dfns[0]) + FieldUses(dfns[1..])
  }

  /** The owner of the first site named `k`. */
  function FirstOwner(sites: seq<Site>, k: string): string
    requires k in Names(sites)
  {
    if sites[0].name == k then sites[0].owner else FirstOwner(sites[1..], k)
  }

  /** The owners of the sites named `k`, in order. */
  function OwnersOf(sites: seq<Site>, k: string): seq<string> {
    if |sites| == 0 then []
    else (if sites[0].name == k then [sites[0].owner] else []) + OwnersOf(sites[1..], k)
  }

  predicate NoDuplicates(sites: seq<Site>) {
    forall i, j | 0 <= i < j < |sites| :: sites[i].name != sites[j].name
  }

  /** The field types that are neither defined by the module nor builtin. */
  function Undefined(m: Module): set<string> {
    set t | t in Names(FieldUses(m.dfns)) && t !in m.Types() && t !in Builtins
  }

  /** What `check` accepts: constructor names are unique across the module,
      and every field type outside attributes is defined or builtin. */
  predicate WellFormed(m: Module) {
    && NoDuplicates(ConstructorSites(m.dfns))
    && forall u | u in FieldUses(m.dfns) :: u.name in m.Types() || u.name in Builtins
  }

  // ---------------------------------------------------------------------
  // The visitor in flat terms
  // ---------------------------------------------------------------------

  /** Registering constructor sites one after another, as the visitor
      does. */
  function Register(st: CheckState, sites: seq<Site>): CheckState
    decreases |sites|
  {
    if |sites| == 0 then st
    else
      Register(Registered(st, sites[0].name, sites[0].owner), sites[1..])
  }

  /** Recording field uses one after another, as the visitor does. */
  function Index(types: map<string, seq<string>>, uses: seq<Site>): map<string, seq<string>>
    decreases |uses|
  {
    if |uses| == 0 then types
    else
      Index(Used(types, uses[0].name, uses[0].owner), uses[1..])
  }

  lemma {:induction false} RegisterAppend(st: CheckState, a: seq<Site>, b: seq<Site>)
    ensures Register(st, a + b) == Register(Register(st, a), b)
    decreases |a|
  {
    if |a| > 0 {
      assert (a + b)[1..] == a[1..] + b;
      var s := a[0];
      var next := Registered(st, s.name, s.owner);
      RegisterAppend(next, a[1..], b);
    } else {
      assert a + b == b;
    }
  }

  lemma {:induction false} IndexAppend(types: map<string, seq<string>>, a: seq<Site>, b: seq<Site>)
    ensures Index(types, a + b) == Index(Index(types, a), b)
    decreases |a|
  {
    if |a| > 0 {
      assert (a + b)[1..] == a[1..] + b;
      var u := a[0];
      IndexAppend(Used(types, u.name, u.owner), a[1..], b);
    } else {
      assert a + b == b;
    }
  }

  lemma {:induction false} VisitFieldsFlat(st: CheckState, fs: seq<Field>, owner: string)
    ensures VisitFields(st, fs, owner).types == Index(st.types, FieldSites(fs, owner))
    decreases |fs|
  {
    if |fs| > 0 {
      assert FieldSites(fs, owner)[1..] == FieldSites(fs[1..], owner);
      VisitFieldsFlat(VisitField(st, fs[0], owner), fs[1..], owner);
    }
  }

  lemma {:induction false} VisitConstructorsFlat(st: CheckState, cs: seq<Constructor>, typeName: string)
    ensures VisitConstructors(st, cs, typeName).cons == Register(st, ConstructorsOf(Type(typeName, Sum(cs, [])))).cons
    ensures VisitConstructors(st, cs, typeName).errors == Register(st, ConstructorsOf(Type(typeName, Sum(cs, [])))).errors
    ensures VisitConstructors(st, cs, typeName).types == Index(st.types, ConstructorFieldSites(cs))
    decreases |cs|
  {
    var sites := ConstructorsOf(Type(typeName, Sum(cs, [])));
    if |cs| > 0 {
      var c := cs[0];
      var registered := Registered(st, c.name, typeName);
      var next := VisitConstructor(st, c, typeName);
      assert next.cons == registered.cons && next.errors == registered.errors;
      VisitFieldsFlat(registered, c.fields, c.name);
      VisitConstructorsFlat(next, cs[1..], typeName);
      var rest := ConstructorsOf(Type(typeName, Sum(cs[1..], [])));
      assert sites[1..] == rest;
      RegisterSameKeys(next, registered, rest);
      IndexAppend(st.types, FieldSites(c.fields, c.name), ConstructorFieldSites(cs[1..]));
    }
  }

  /** Registration only looks at the registry and the error count. */
  lemma {:induction false} RegisterSameKeys(a: CheckState, b: CheckState, sites: seq<Site>)
    requires a.cons == b.cons && a.errors == b.errors
    ensures Register(a, sites).cons == Register(b, sites).cons
    ensures Register(a, sites).errors == Register(b, sites).errors
    decreases |sites|
  {
    if |sites| > 0 {
      var s := sites[0];
      var na := Registered(a, s.name, s.owner);
      var nb := Registered(b, s.name, s.owner);
      RegisterSameKeys(na, nb, sites[1..]);
    }
  }

  /** Registration leaves the field index alone. */
  lemma {:induction false} RegisterKeepsTypes(st: CheckState, sites: seq<Site>)
    ensures Register(st, sites).types == st.types
    decreases |sites|
  {
    if |sites| > 0 {
      var s := sites[0];
      var next := Registered(st, s.name, s.owner);
      RegisterKeepsTypes(next, sites[1..]);
    }
  }

  lemma {:induction false} VisitTypeFlat(st: CheckState, d: Type)
    ensures VisitType(st, d).cons == Register(st, ConstructorsOf(d)).cons
    ensures VisitType(st, d).errors == Register(st, ConstructorsOf(d)).errors
    ensures VisitType(st, d).types == Index(st.types, FieldsOf(d))
  {
    match d.value
    case Sum(cs, attributes) =>
      VisitConstructorsFlat(st, cs, d.name);
      assert ConstructorsOf(d) == ConstructorsOf(Type(d.name, Sum(cs, [])));
    case Product(fs, _) =>
      VisitFieldsFlat(st, fs, d.name);
      assert ConstructorsOf(d) == [];
  }

  /** The visitor over the definitions is registration of all constructor
      sites plus indexing of all field uses. */
  lemma {:induction false} VisitFlat(st: CheckState, dfns: seq<Type>)
    ensures VisitDefinitions(st, dfns).cons == Register(st, ConstructorSites(dfns)).cons
    ensures VisitDefinitions(st, dfns).errors == Register(st, ConstructorSites(dfns)).errors
    ensures VisitDefinitions(st, dfns).types == Index(st.types, FieldUses(dfns))
    decreases |dfns|
  {
    if |dfns| > 0 {
      var next := VisitType(st, dfns[0]);
      VisitTypeFlat(st, dfns[0]);
      VisitFlat(next, dfns[1..]);
      RegisterSameKeys(next, Register(st, ConstructorsOf(dfns[0])), ConstructorSites(dfns[1..]));
      RegisterAppend(st, ConstructorsOf(dfns[0]), ConstructorSites(dfns[1..]));
      IndexAppend(st.types, FieldsOf(dfns[0]), FieldUses(dfns[1..]));
    }
  }

  // ---------------------------------------------------------------------
  // Closed forms
  // ---------------------------------------------------------------------

  lemma {:induction false} NamesCons(sites: seq<Site>)
    requires |sites| > 0
    ensures Names(sites) == {sites[0].name} + Names(sites[1..])
  {
    assert sites == [sites[0]] + sites[1..];
  }

  /** The registry keeps every name registered before, and each new name
      maps to the owner of its first site. */
  lemma {:induction false} RegisterRegistry(st: CheckState, sites: seq<Site>)
    ensures Register(st, sites).cons.Keys == st.cons.Keys + Names(sites)
    ensures forall k | k in st.cons :: Register(st, sites).cons[k] == st.cons[k]
    ensures forall k | k in Names(sites) && k !in st.cons :: Register(st, sites).cons[k] == FirstOwner(sites, k)
    decreases |sites|
  {
    if |sites| > 0 {
      var s := sites[0];
      NamesCons(sites);
      var next := Registered(st, s.name, s.owner);
      RegisterRegistry(next, sites[1..]);
    }
  }

  /** Each site whose name is already registered, or registered by an
      earlier site, is one error: the errors grow by the sites that bring no
      new name. */
  lemma {:induction false} RegisterErrors(st: CheckState, sites: seq<Site>)
    ensures Register(st, sites).errors == st.errors + |sites| - |Names(sites) - st.cons.Keys|
    decreases |sites|
  {
    if |sites| > 0 {
      hide *;
      var s := sites[0];
      var next := Registered(st, s.name, s.owner);
      RegisterStep(st, sites);
      RegisterErrors(next, sites[1..]);
      NewNames(st.cons.Keys, sites);
    }
  }

  lemma {:induction false} RegisterStep(st: CheckState, sites: seq<Site>)
    requires |sites| > 0
    ensures Register(st, sites) == Register(Registered(st, sites[0].name, sites[0].owner), sites[1..])
  {
  }

  /** The names a non-empty list brings beyond `seen`: those of its tail
      beyond `seen` and its head's name, counted once. */
  lemma {:induction false} NewNames(seen: set<string>, sites: seq<Site>)
    requires |sites| > 0
    ensures sites[0].name in seen ==> Names(sites) - seen == Names(sites[1..]) - seen
    ensures sites[0].name !in seen ==>
      |Names(sites) - seen| == 1 + |Names(sites[1..]) - (seen + {sites[0].name})|
  {
    var n := sites[0].name;
    NamesCons(sites);
    if n !in seen {
      assert Names(sites) - seen == {n} + (Names(sites[1..]) - (seen + {n}));
    }
  }

  /** The index gains exactly the used type names. */
  lemma {:induction false} IndexKeys(types: map<string, seq<string>>, uses: seq<Site>)
    ensures Index(types, uses).Keys == types.Keys + Names(uses)
    decreases |uses|
  {
    if |uses| > 0 {
      NamesCons(uses);
      IndexKeys(Used(types, uses[0].name, uses[0].owner), uses[1..]);
    }
  }

  /** Each type's list of users grows by the owners of its uses, in
      order. */
  lemma {:induction false} IndexUsers(types: map<string, seq<string>>, uses: seq<Site>, k: string)
    ensures UsersOf(Index(types, uses), k) == UsersOf(types, k) + OwnersOf(uses, k)
    decreases |uses|
  {
    if |uses| > 0 {
      var u := uses[0];
      IndexUsers(Used(types, u.name, u.owner), uses[1..], k);
      if k == u.name {
        assert UsersOf(types, k) + [u.owner] + OwnersOf(uses[1..], k)
          == UsersOf(types, k) + ([u.owner] + OwnersOf(uses[1..], k));
      }
    } else {
      assert UsersOf(types, k) + [] == UsersOf(types, k);
    }
  }

  lemma {:induction false} NamesBound(sites: seq<Site>)
    ensures |Names(sites)| <= |sites|
    decreases |sites|
  {
    if |sites| > 0 {
      NamesCons(sites);
      NamesBound(sites[1..]);
    } else {
      assert Names(sites) == {};
    }
  }

  /** Sites have pairwise different names exactly when there are as many
      names as sites. */
  lemma {:induction false} NoDuplicatesCount(sites: seq<Site>)
    ensures NoDuplicates(sites) <==> |Names(sites)| == |sites|
    decreases |sites|
  {
    if |sites| == 0 {
      assert Names(sites) == {};
    } else {
      var rest := sites[1..];
      NamesCons(sites);
      NoDuplicatesCount(rest);
      NamesBound(rest);
      if sites[0].name in Names(rest) {
        var j :| j in rest && j.name == sites[0].name;
        var k :| 0 <= k < |rest| && rest[k] == j;
        assert sites[k + 1].name == sites[0].name;
        assert !NoDuplicates(sites);
      } else {
        assert |Names(sites)| == 1 + |Names(rest)|;
        if NoDuplicates(rest) {
          forall i, j | 0 <= i < j < |sites|
            ensures sites[i].name != sites[j].name
          {
            if i == 0 {
              assert sites[j] == rest[j - 1];
            } else {
              assert sites[i] == rest[i - 1] && sites[j] == rest[j - 1];
            }
          }
        } else {
          var i, j :| 0 <= i < j < |rest| && rest[i].name == rest[j].name;
          assert sites[i + 1].name == sites[j + 1].name;
        }
      }
    }
  }

  // ---------------------------------------------------------------------
  // check
  // ---------------------------------------------------------------------

  /** The names in `ts` that are neither in `defined` nor builtin. */
  function UndefinedAmong(ts: set<string>, defined: set<string>): set<string> {
    set t | t in ts && t !in defined && t !in Builtins
  }

  lemma {:induction false} UndefinedAmongAdd(ts: set<string>, t: string, defined: set<string>)
    requires t !in ts
    ensures t !in defined && t !in Builtins ==> |UndefinedAmong(ts + {t}, defined)| == |UndefinedAmong(ts, defined)| + 1
    ensures t in defined || t in Builtins ==> UndefinedAmong(ts + {t}, defined) == UndefinedAmong(ts, defined)
  {
    if t !in defined && t !in Builtins {
      assert UndefinedAmong(ts + {t}, defined) == UndefinedAmong(ts, defined) + {t};
    }
  }

  /** The loop over the recorded field types: each one the module does not
      define and that is not builtin counts one error. */
  method CountUndefined(types: map<string, seq<string>>, defined: set<string>) returns (count: nat)
    ensures count == |UndefinedAmong(types.Keys, defined)|
  {
    count := 0;
    var todo := types.Keys;
    ghost var done: set<string> := {};
    while todo != {}
      invariant todo + done == types.Keys && todo !! done
      invariant count == |UndefinedAmong(done, defined)|
      decreases |todo|
    {
      var t :| t in todo;
      UndefinedAmongAdd(done, t, defined);
      if t !in defined && t !in Builtins {
        count := count + 1;
      }
      todo := todo - {t};
      done := done + {t};
    }
  }

  /** `check`: visits the module, then counts the undefined field types.
      The errors are the constructor sites that bring no new name plus the
      undefined types, and the check succeeds exactly when the module is
      well formed. */
  method Check(m: Module) returns (ok: bool, errors: nat)
    ensures errors == |ConstructorSites(m.dfns)| - |Names(ConstructorSites(m.dfns))| + |Undefined(m)|
    ensures ok <==> errors == 0
    ensures ok <==> WellFormed(m)
  {
    var st := VisitDefinitions(Empty, m.dfns);
    var undefined := CountUndefined(st.types, m.Types().Keys);
    errors := st.errors + undefined;
    ok := errors == 0;
    CheckFacts(m);
    assert UndefinedAmong(st.types.Keys, m.Types().Keys) == Undefined(m);
  }

  lemma {:induction false} CheckFacts(m: Module)
    ensures VisitDefinitions(Empty, m.dfns).errors == |ConstructorSites(m.dfns)| - |Names(ConstructorSites(m.dfns))|
    ensures VisitDefinitions(Empty, m.dfns).types.Keys == Names(FieldUses(m.dfns))
    ensures WellFormed(m) <==> |ConstructorSites(m.dfns)| == |Names(ConstructorSites(m.dfns))| && Undefined(m) == {}
  {
    var sites := ConstructorSites(m.dfns);
    VisitFlat(Empty, m.dfns);
    RegisterErrors(Empty, sites);
    IndexKeys(map[], FieldUses(m.dfns));
    assert Empty.errors == 0 && Empty.cons.Keys == {} && Empty.types == map[];
    hide *;
    assert Names(sites) - {} == Names(sites);
    WellFormedCount(m);
  }

  /** Being well formed is having as many constructor names as constructor
      sites, and no undefined field type. */
  lemma WellFormedCount(m: Module)
    ensures WellFormed(m) <==> |ConstructorSites(m.dfns)| == |Names(ConstructorSites(m.dfns))| && Undefined(m) == {}
  {
    NoDuplicatesCount(ConstructorSites(m.dfns));
    if Undefined(m) != {} {
      var t :| t in Undefined(m);
      var u :| u in FieldUses(m.dfns) && u.name == t;
      assert !WellFormed(m);
    }
  }

  /** The registry after the visit maps each constructor name to the type
      that defined it first, and the index maps each field type to its users
      in visit order. */
  lemma {:induction false} VisitResult(m: Module)
    ensures VisitDefinitions(Empty, m.dfns).cons.Keys == Names(ConstructorSites(m.dfns))
    ensures forall k | k in Names(ConstructorSites(m.dfns)) ::
      VisitDefinitions(Empty, m.dfns).cons[k] == FirstOwner(ConstructorSites(m.dfns), k)
    ensures VisitDefinitions(Empty, m.dfns).types.Keys == Names(FieldUses(m.dfns))
    ensures forall k :: UsersOf(VisitDefinitions(Empty, m.dfns).types, k) == OwnersOf(FieldUses(m.dfns), k)
  {
    VisitFlat(Empty, m.dfns);
    RegisterRegistry(Empty, ConstructorSites(m.dfns));
    IndexKeys(map[], FieldUses(m.dfns));
    forall k
      ensures UsersOf(VisitDefinitions(Empty, m.dfns).types, k) == OwnersOf(FieldUses(m.dfns), k)
    {
      IndexUsers(map[], FieldUses(m.dfns), k);
    }
  }

  /** Two definition lists that differ only in their attributes. */
  predicate SameButAttributes(a: seq<Type>, b: seq<Type>) {
    && |a| == |b|
    && forall i | 0 <= i < |a| ::
      && a[i].name == b[i].name
      && a[i].value.Sum? == b[i].value.Sum?
      && (a[i].value.Sum? ==> a[i].value.types == b[i].value.types)
      && (a[i].value.Product? ==> a[i].value.fields == b[i].value.fields)
  }

  /** Attributes are never visited: changing them changes nothing the
      visitor records. */
  lemma {:induction false} AttributesIgnored(st: CheckState, a: seq<Type>, b: seq<Type>)
    requires SameButAttributes(a, b)
    ensures VisitDefinitions(st, a) == VisitDefinitions(st, b)
    decreases |a|
  {
    if |a| > 0 {
      assert VisitType(st, a[0]) == VisitType(st, b[0]);
      assert SameButAttributes(a[1..], b[1..]) by {
        forall i | 0 <= i < |a[1..]|
          ensures a[1..][i] == a[i + 1] && b[1..][i] == b[i + 1]
        {
        }
      }
      AttributesIgnored(VisitType(st, a[0]), a[1..], b[1..]);
    }
  }
}
