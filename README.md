# gqlgenc client generator: the `Source` orchestration, in Dafny

gqlgenc generates a typed Go client from a GraphQL schema and a set of query
documents. Its `clientgen.Source` type walks a parsed query document and turns
it into the flat, ordered lists of named type descriptors that the code
templates consume:

- one `Fragment` per fragment definition;
- one `Operation` record per operation: its name, its response type name, its
  formatted query text, its arguments and its variable definitions;
- the `OperationResponse` entries of every operation: a pre-order walk of the
  operation's selection tree, with one entry for each field that resolves to a
  struct, followed by the operation's root response type;
- the root `Query` type and an optional `Mutation` type.

Along the way `Source` consults and extends the model registry, a table that
maps GraphQL type names to Go types. Fragment names and root response names
are checked against the registry as it stood when the call began. Every check
happens before any registration, so a failure leaves the registry as it was.
Operation names are instead checked against each other, after the
identifier transform `ToGo`. Response type names come from the naming
transform: the prefix and suffix configured for the operation's own kind.

The project has four files:

- `wrappers.dfy`: `Option`, which stands for Go's nil pointers, and `Result`,
  which stands for `(value, error)` returns.
- `ast.dfy`: the parts of the GraphQL document and schema that are read.
- `config.dfy`: the naming configuration and the `Models` registry class.
- `source.dfy`: the `Source` class and the specification functions and
  lemmas about it.

Code that `Source` calls but does not define is given to the model as the
functions of an `Externals` value:

- the field resolver: `NewResponseFields`, `NewResponseFieldsByDefinition`
  and `OperationArguments`;
- the client package name `Pkg()`;
- the identifier transform `templates.ToGo`;
- the query formatter behind `queryString`.

The model states its results in terms of these functions.

Each state-changing or looping Go function becomes a method proved against a
specification function:

- Fragment and response collection is specified by `FirstRegistered`, which
  gives the first position already in the registry.
- Operation collection is specified by `FirstRepeat`, which gives the first
  position whose transformed name repeats an earlier one.
- The two lookup maps are specified by folds, `QueryDocumentMap` and
  `OperationArgsMap`. The `...LastWins` lemmas give their last-wins meaning.
- The tree walk is specified by `NestedTypes` / `SelectionTypes`.
- Registration is specified by `RecordedAll`.

The loop of `OperationResponses` is the read-only method `CollectResponses`.
`OperationResponses` then registers the names it collected.

## Details of the code worth noting

- The operation duplicate check compares `ToGo(name)` of the raw operation
  names (`clientgen/source.go:90`). Prefixes and suffixes play no part in it.
- The duplicate errors read `"<name> is duplicated"` and
  `"duplicate operation: <name>"`, as in the code.

## Model

| member | source | states |
|---|---|---|
| ClientGen.ResponseStructName | clientgen/source.go:244-269 | Without a configuration the name is unchanged. Otherwise it is the prefix for the operation's kind, then the name, then the suffix for that kind. A kind with no affix in a rule gets nothing from it. |
| ClientGen.ResponseStructNameOwnKindOnly | clientgen/source.go:246-265 | Two configurations that agree on the affixes of an operation's own kind give it the same name, whatever they say about the other kind. |
| ClientGen.ResponseStructNameSubscription | clientgen/source.go:248-263 | A subscription keeps its name under any configuration. |
| ClientGen.ResponseStructNameExample | clientgen/source.go:244-269 | Prefix "Get" and suffix "Result" for queries turn query "User" into "GetUserResult". The same configuration leaves mutation "User" unchanged. |
| ClientGen.Source.constructor | clientgen/source.go:21-28 | The source holds exactly the schema, document, collaborators, configuration and registry it is given. |
| ClientGen.Source.AddAll | clientgen/source.go:51-57 | Registering a list of names makes one Add call per name, in order, each recording `Pkg() + "." + ToGo(name)`. |
| Config.Models.Add | clientgen/source.go:53-56 | After Add, the name's reference history is the old history followed by the new reference. No other name changes. |
| Config.RecordedAllKeys | clientgen/source.go:185-191 | After a batch of Add calls, exactly the previously registered names and the batch's names exist. |
| Config.RecordedAllLookup | clientgen/source.go:185-191 | After a batch of Add calls, each name holds its old references followed by the batch's references for it, in call order. |
| Config.RecordedAllContains | clientgen/source.go:51-57 | Every Add of a batch leaves its reference under its name. |
| ClientGen.RegisteredNames | clientgen/source.go:51-57 | Registering a list of names leaves exactly the old names plus the list's names in the registry. Each listed name then holds its qualified Go type. |
| ClientGen.FirstRegistered | clientgen/source.go:37-41 | Gives the first position whose name is already registered, with no registered name before it. Gives none exactly when no name is registered. |
| ClientGen.Source.Fragments | clientgen/source.go:35-60 | Fails with "F is duplicated" for the first fragment F already in the registry, and the registry is unchanged. Otherwise returns one descriptor per fragment, in order, with its name and resolved type. Every fragment name is then registered. |
| ClientGen.FragmentBatchDuplicate | clientgen/source.go:37-57 | Two fragments of one batch with the same name are not refused. The name is then registered twice. |
| ClientGen.LastMatch | clientgen/source.go:119-121 | Gives the last position holding a key, or none exactly when the key does not occur. |
| ClientGen.QueryDocumentMapByOperationName | clientgen/source.go:117-125 | Builds the map that files each document under its first operation's name, in order. |
| ClientGen.QueryDocumentMapLastWins | clientgen/source.go:117-125 | Looking up a name in the documents map finds the last document whose first operation has that name. A name no document starts with finds nil. |
| ClientGen.Source.OperationArgsMapByOperationName | clientgen/source.go:108-115 | Builds the map that files each operation's arguments under its name, in order. |
| ClientGen.OperationArgsMapLastWins | clientgen/source.go:108-115 | The arguments map has a key for exactly the operation names. Under each key are the arguments of the last operation with that name. |
| ClientGen.FirstRepeat | clientgen/source.go:83-94 | Gives the first position whose name repeats an earlier one, with no repeat before it. Gives none only when no name repeats. |
| ClientGen.Source.Operations | clientgen/source.go:80-106 | Fails with "duplicate operation: N" at the first operation N whose ToGo name repeats an earlier one. Otherwise returns one record per operation, in order. Each record carries the operation's name, its response type name, the formatted text of the document filed under its name, its own arguments and its variable definitions. The registry is not touched. |
| ClientGen.LastMatchOfUnrepeated | clientgen/source.go:88-96 | When no ToGo name repeats, each operation is the last one with its raw name. |
| ClientGen.UnrepeatedOperation | clientgen/source.go:88-96 | When no ToGo name repeats, the arguments map holds each operation's own arguments. The documents map lookup is the last-wins document. |
| ClientGen.NewOperation | clientgen/source.go:70-78 | The record holds the operation's raw name, its response type name, the formatted text of the given document, the given arguments and the operation's variable definitions. Without a naming configuration the response type name is the operation's name. |
| ClientGen.OperationsUnrepeated | clientgen/source.go:70-78 | Without repeats, each record built from the two maps has the operation's own name, response type name, document text, arguments and variable definitions. |
| ClientGen.Source.GetNestedTypes | clientgen/source.go:140-164 | Returns the pre-order walk `NestedTypes` of the selection set under the parent name. |
| ClientGen.NestedTypesAppend | clientgen/source.go:143-162 | Walking a concatenation of selection sets gives the two walks one after the other. |
| ClientGen.NestedTypesPrefixed | clientgen/source.go:148-156 | Every nested type name starts with the parent name. |
| ClientGen.SelectionTypesPrefixed | clientgen/source.go:147-157 | Every entry a single selection contributes is named with the parent name as prefix. |
| ClientGen.FieldNotStructNotDescended | clientgen/source.go:148-157 | A field whose resolved fields are not a struct contributes no entry. Its sub-selections are not walked, whatever they would resolve to. |
| ClientGen.NestedTypesNoStruct | clientgen/source.go:148-157 | When no selection set resolves to a struct, a tree of any depth has no nested types. |
| ClientGen.NestedTypesFieldsOnly | clientgen/source.go:144-161 | Fragment spreads and inline fragments contribute nothing. The walk equals the walk of the fields alone. |
| ClientGen.NestedTypesChain | clientgen/source.go:148-156 | When every selection set is a struct, a chain of N nested fields gives N entries in pre-order. The entry at depth k is named by the parent name and the first k transformed aliases. |
| ClientGen.Source.CollectResponses | clientgen/source.go:167-183 | Fails with "R is duplicated" at the first root name R already in the registry. Otherwise returns every operation's nested entries followed by its root entry, in operation order. Nested names are not checked. |
| ClientGen.Source.OperationResponses | clientgen/source.go:166-194 | Does what `CollectResponses` does. On failure the registry is unchanged. On success every returned name, nested or root, is registered in order. |
| ClientGen.ResponsesForShape | clientgen/source.go:168-182 | One operation's entries end with its root entry, named by the naming transform and typed by the resolver. Every entry before the root is nested and starts with the root name. |
| ClientGen.ResponsesForChain | clientgen/source.go:168-182 | An operation whose selections form a chain of N struct fields contributes N + 1 entries. |
| ClientGen.AllResponsesAppend | clientgen/source.go:168-183 | The entries of two operation lists, one after the other, are the two lists' entries concatenated. |
| ClientGen.NestedNameCollision | clientgen/source.go:172-178 | Query "A" with struct field "B" and query "AB" both produce the name "AB". Only the root name is checked: with an empty registry the root names "A" and "AB" pass the duplicate check, so the collision is not detected. |
| ClientGen.Source.Query | clientgen/source.go:201-216 | A resolution failure E gives "generate failed for query struct type : E" and registers nothing. Success gives the query type's name and struct type and registers that name once. |
| ClientGen.Source.Mutation | clientgen/source.go:223-242 | No mutation root gives success with no descriptor and no registration. A mutation root behaves like Query, with the mutation error text. |

## Left out

- The query formatter, `queryString` with `formatter.NewFormatter`, is an abstract function of the looked-up document. A name the documents map lacks passes `None`, which stands for Go's nil document. What the formatter prints for it is not modelled.
- The field resolver, `Pkg()` and `templates.ToGo` are abstract collaborators. Go's `types.Type` values are an opaque `TypeRepr`.
- Config.Models.Add: `entries[name]` is the log of every Add call for `name`, in order. The real `Models.Add` lives outside this file; whichever of append or overwrite it does can be read off that log (overwrite keeps its last element), and `Exists` is key membership under both.
- GetNestedTypes: the `fmt.Println` for an unknown selection kind is output only and is left out. The walk just skips such selections.
- The `nil` case of the selection type switch panics in Go. The model has no nil selection, so that case cannot arise.
- The `indent` parameter of `getNestedTypes` is unused by the computation and is left out.
- QueryDocumentMapByOperationName: a document without operations makes the Go code panic on `Operations[0]`. The model requires every document to have an operation (`HasOperations`).
- `getNestedTypes` is a package-level function taking the source. It is modelled as a method of `Source`.
- The registry is reached in Go through `sourceGenerator.cfg.Models`. In the model it is a field of `Source`.
- Errors are plain strings. The `%w` wrapping in Query and Mutation is concatenation.
- Go returns pointers to fresh records, which the model returns as values. Aliasing between them is not modelled.
- Nil schema, nil query document and nil source generator pointers are not modelled. A nil generate configuration is `None`.
