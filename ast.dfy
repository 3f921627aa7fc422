/**
 * The parts of a parsed GraphQL document and schema that the client generator reads.
 * Each datatype keeps only the fields the generator looks at.
 */
module Ast {
  import opened Wrappers

  /** The kind of an operation definition. */
  datatype OperationKind = Query | Mutation | Subscription

  /**
   * One member of a selection set. A selection is never nil here: the nil
   * case of the generator's type switch cannot be written down.
   */
  datatype Selection =
    | Field(alias: string, name: string, selectionSet: seq<Selection>)
    | FragmentSpread(name: string)
    | InlineFragment(typeCondition: string, selectionSet: seq<Selection>)

  type SelectionSet = seq<Selection>

  datatype VariableDefinition = VariableDefinition(variable: string, typeName: string)

  datatype OperationDefinition = OperationDefinition(
    operation: OperationKind,
    name: string,
    variableDefinitions: seq<VariableDefinition>,
    selectionSet: SelectionSet)

  datatype FragmentDefinition = FragmentDefinition(
    name: string,
    typeCondition: string,
    selectionSet: SelectionSet)

  /** A query document: its operations and fragments, in document order. */
  datatype QueryDocument = QueryDocument(
    operations: seq<OperationDefinition>,
    fragments: seq<FragmentDefinition>)

  /** A schema type definition; only its name is read directly. */
  datatype Definition = Definition(name: string)

  /** The schema's root types; a schema without mutations has `mutation == None`. */
  datatype Schema = Schema(query: Definition, mutation: Option<Definition>)
}
