/** The parts of GraphQL queries and schemas that execution looks at. */
module GraphQL {
  import opened Common

  type Name = string

  /** Names in a query have no colon. */
  type FieldName = s: string | ':' !in s

  datatype Value =
    | Null
    | Boolean(b: bool)
    | Int(n: int)
    | Str(s: string)
    | Enum(value: Name)
    | Variable(variable: Name)
    | List(items: seq<Value>)
    | Object(fields: map<string, Value>)

  datatype Directive = Directive(name: Name, arguments: seq<(Name, Value)>)

  datatype Selection =
    | Field(alias: Option<Name>, name: FieldName, arguments: seq<(Name, Value)>, directives: seq<Directive>,
            selectionSet: seq<Selection>)
    | FragmentSpread(fragmentName: Name)
    | InlineFragment(typeCondition: Option<Name>, body: seq<Selection>)

  datatype Fragment = Fragment(typeCondition: Name, selectionSet: seq<Selection>)

  datatype Type = NamedType(name: Name) | ListType(inner: Type) | NonNullType(inner: Type)

  datatype TypeDefinition =
    | ObjectType(name: Name, implementsInterfaces: set<Name>, fieldTypes: map<Name, Type>)
    | InterfaceType(name: Name, fieldTypes: map<Name, Type>)
    | UnionType(name: Name, members: set<Name>)
    | ScalarType(name: Name)
    | EnumType(name: Name, values: set<Name>)
    | InputObjectType(name: Name)

  /** A query's fragments and variables, and the schema it runs against. */
  datatype Query = Query(fragments: map<Name, Fragment>, variables: map<Name, Value>, types: map<Name, TypeDefinition>)

  function FindDirective(directives: seq<Directive>, name: Name): Option<Directive> {
    if directives == [] then None
    else if directives[0].name == name then Some(directives[0])
    else FindDirective(directives[1..], name)
  }

  function ArgumentValue(arguments: seq<(Name, Value)>, name: Name): Option<Value> {
    if arguments == [] then None
    else if arguments[0].0 == name then Some(arguments[0].1)
    else ArgumentValue(arguments[1..], name)
  }

  /** The truth value of a directive's `if` argument: a literal or a variable, false for anything else, and true when
      there is no such argument. */
  function Condition(q: Query, d: Directive): bool {
    match ArgumentValue(d.arguments, "if")
    case None => true
    case Some(Boolean(b)) => b
    case Some(Variable(v)) => v in q.variables && q.variables[v] == Boolean(true)
    case _ => false
  }

  /** Only fields are looked at for `@skip` and `@include`. */
  predicate SkipSelection(q: Query, s: Selection) {
    s.Field? && var d := FindDirective(s.directives, "skip"); d.Some? && Condition(q, d.value)
  }

  predicate IncludeSelection(q: Query, s: Selection) {
    s.Field? ==> var d := FindDirective(s.directives, "include"); d.None? || Condition(q, d.value)
  }

  predicate Selected(q: Query, s: Selection) {
    !SkipSelection(q, s) && IncludeSelection(q, s)
  }

  function ResponseKey(field: Selection): Name
    requires field.Field?
  {
    if field.alias.Some? then field.alias.value else field.name
  }

  /** Whether a fragment with the given type condition applies to an object type. */
  predicate Applies(q: Query, objectType: TypeDefinition, condition: Name)
    requires objectType.ObjectType?
  {
    condition in q.types &&
    match q.types[condition]
    case ObjectType(_, _, _) => objectType == q.types[condition]
    case InterfaceType(name, _) => name in objectType.implementsInterfaces
    case UnionType(_, members) => objectType.name in members
    case _ => false
  }

  function GetField(def: TypeDefinition, name: Name): Option<Type> {
    if def.ObjectType? || def.InterfaceType? then
      if name == "__typename" then Some(NonNullType(NamedType("String"))) else Lookup(def.fieldTypes, name)
    else None
  }

  function BaseType(ty: Type): Name {
    match ty
    case NamedType(name) => name
    case ListType(inner) => BaseType(inner)
    case NonNullType(inner) => BaseType(inner)
  }

  /** Values of the type are entities, or lists of them. */
  predicate HoldsEntities(q: Query, ty: Type) {
    BaseType(ty) in q.types && (q.types[BaseType(ty)].ObjectType? || q.types[BaseType(ty)].InterfaceType?)
  }

  predicate IsListOrNonNullList(ty: Type) {
    ty.ListType? || (ty.NonNullType? && ty.inner.ListType?)
  }

  predicate HasList(ty: Type) {
    match ty
    case NamedType(_) => false
    case ListType(_) => true
    case NonNullType(inner) => HasList(inner)
  }

  /** The object types of the schema that values of the named type may have. */
  predicate IsRuntimeType(q: Query, name: Name, ot: TypeDefinition) {
    ot.ObjectType? && ot in q.types.Values && Applies(q, ot, name)
  }
}
