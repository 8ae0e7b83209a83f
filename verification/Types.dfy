/** Names and types of the type checker (src/typechecker/scope.rs,
    src/typechecker/types.rs). */
module Types {
  datatype ResolvedName = ResolvedName(scope: nat, ident: string)

  datatype Type =
    | Var(index: nat)
    | ExplicitVar(ident: string)
    | IntVar(index: nat, mustBeSigned: bool)
    | FloatVar(index: nat)
    | RecordVar(index: nat, varFields: seq<(string, Type)>)
    | Unit
    | Never
    | Record(fields: seq<(string, Type)>)
    | Function(parameters: seq<Type>, result: Type)
    | Name(name: ResolvedName, arguments: seq<Type>)

  datatype EnumVariant = EnumVariant(name: string, fields: seq<Type>)

  datatype TypeDefinition =
    | EnumDefinition(variants: seq<EnumVariant>)
    | RecordDefinition(fields: seq<(string, Type)>)
    | Runtime
    | Primitive
    | List

  /** The types that stand for a not yet known type. */
  predicate IsTypeVariable(ty: Type) {
    ty.Var? || ty.IntVar? || ty.FloatVar? || ty.RecordVar?
  }
}
