/**
 * The orchestration part of the client generator: it turns a parsed query
 * document into flat, ordered lists of named type descriptors (fragments,
 * operations, operation responses, root query and mutation types) and
 * records their names in the shared model registry.
 */
module ClientGen {
  import opened Wrappers
  import opened Ast
  import opened Config

  /** A Go type built by the field resolver; its structure is not modelled. */
  datatype TypeRepr = TypeRepr(goType: string)

  /** An operation argument, as the field resolver derives it from a variable definition. */
  datatype Argument = Argument(variable: string, typ: TypeRepr)

  /** What the field resolver reports for a selection set: whether it is a struct, and the type. */
  datatype ResponseFields = ResponseFields(isStructType: bool, structType: TypeRepr)

  /**
   * The code this component calls but does not define, as functions it is given:
   * the field resolver's NewResponseFields, NewResponseFieldsByDefinition and
   * OperationArguments, the client package's Pkg(), the identifier transform
   * ToGo, and the query formatter behind queryString (applied to the looked-up
   * document, `None` standing for a nil document).
   */
  datatype Externals = Externals(
    newResponseFields: (SelectionSet, string) -> ResponseFields,
    newResponseFieldsByDefinition: Definition -> Result<ResponseFields>,
    operationArguments: seq<VariableDefinition> -> seq<Argument>,
    pkg: string,
    toGo: string -> string,
    formatQueryDocument: Option<QueryDocument> -> string)

  datatype Fragment = Fragment(name: string, typ: TypeRepr)

  datatype Operation = Operation(
    name: string,
    responseStructName: string,
    operation: string,
    args: seq<Argument>,
    variableDefinitions: seq<VariableDefinition>)

  datatype OperationResponse = OperationResponse(name: string, typ: TypeRepr)

  /** The Query and the Mutation descriptor, which have the same shape. */
  datatype RootType = RootType(name: string, typ: TypeRepr)

  // ---------------------------------------------------------------------------
  // Naming transform

  /** The affix a naming rule gives an operation kind: nothing for a kind it does not name. */
  function AffixFor(rule: Option<NamingConfig>, kind: OperationKind): string
  {
    match rule
    case None => ""
    case Some(c) =>
      match kind
      case Query => c.query
      case Mutation => c.mutation
      case Subscription => ""
  }

  /**
   * The response type name of an operation: its name, unchanged without a
   * configuration, otherwise wrapped in the prefix and suffix configured for
   * the operation's own kind.
   */
  function ResponseStructName(op: OperationDefinition, cfg: Option<GenerateConfig>): (name: string)
    ensures cfg.None? ==> name == op.name
    ensures cfg.Some? ==>
      name == AffixFor(cfg.value.prefix, op.operation) + op.name + AffixFor(cfg.value.suffix, op.operation)
  {
    if cfg.None? then op.name
    else
      var c := cfg.value;
      var name := op.name;
      var name := if c.prefix.Some? && op.operation == Mutation then c.prefix.value.mutation + name else name;
      var name := if c.prefix.Some? && op.operation == Query then c.prefix.value.query + name else name;
      var name := if c.suffix.Some? && op.operation == Mutation then name + c.suffix.value.mutation else name;
      var name := if c.suffix.Some? && op.operation == Query then name + c.suffix.value.query else name;
      name
  }

  /** The name depends only on the affixes of the operation's own kind. */
  lemma ResponseStructNameOwnKindOnly(op: OperationDefinition, c1: GenerateConfig, c2: GenerateConfig)
    requires AffixFor(c1.prefix, op.operation) == AffixFor(c2.prefix, op.operation)
    requires AffixFor(c1.suffix, op.operation) == AffixFor(c2.suffix, op.operation)
    ensures ResponseStructName(op, Some(c1)) == ResponseStructName(op, Some(c2))
  {
  }

  /** A subscription keeps its name whatever the configuration says. */
  lemma ResponseStructNameSubscription(op: OperationDefinition, cfg: Option<GenerateConfig>)
    requires op.operation == Subscription
    ensures ResponseStructName(op, cfg) == op.name
  {
  }

  /** Prefix "Get" and suffix "Result" for queries turn query "User" into "GetUserResult", and leave mutation "User" alone. */
  lemma ResponseStructNameExample(vars: seq<VariableDefinition>, sels: SelectionSet)
    ensures var cfg := Some(GenerateConfig(Some(NamingConfig("Get", "")), Some(NamingConfig("Result", ""))));
      ResponseStructName(OperationDefinition(Query, "User", vars, sels), cfg) == "GetUserResult" &&
      ResponseStructName(OperationDefinition(Mutation, "User", vars, sels), cfg) == "User"
  {
  }

  // ---------------------------------------------------------------------------
  // Registration of generated names

  /** The Add call the generator makes for a name: the name and `Pkg() + "." + ToGo(name)`. */
  function RegistrationFor(x: Externals, name: string): Registration
  {
    Registration(name, x.pkg + "." + x.toGo(name))
  }

  function RegistrationsFor(x: Externals, names: seq<string>): (adds: seq<Registration>)
    ensures |adds| == |names|
  {
    seq(|names|, i requires 0 <= i < |names| => RegistrationFor(x, names[i]))
  }

  /**
   * After registering `names`, exactly the old names and `names` exist, and
   * each of `names` has its qualified Go type among its references.
   */
  lemma RegisteredNames(x: Externals, entries: map<string, seq<string>>, names: seq<string>)
    ensures RecordedAll(entries, RegistrationsFor(x, names)).Keys == entries.Keys + (set n | n in names)
    ensures forall i :: 0 <= i < |names| ==>
      x.pkg + "." + x.toGo(names[i]) in RecordedAll(entries, RegistrationsFor(x, names))[names[i]]
  {
    var adds := RegistrationsFor(x, names);
    RecordedAllKeys(entries, adds);
    assert NamesOf(adds) == set n | n in names by {
      forall n | n in names ensures n in NamesOf(adds) {
        var i :| 0 <= i < |names| && names[i] == n;
        assert adds[i].name == n;
      }
    }
    forall i | 0 <= i < |names|
      ensures x.pkg + "." + x.toGo(names[i]) in RecordedAll(entries, adds)[names[i]]
    {
      RecordedAllContains(entries, adds, i);
    }
  }

  /** The position of the first of `names` that is already in `entries`, if there is one. */
  function FirstRegistered(names: seq<string>, entries: map<string, seq<string>>): (r: Option<nat>)
    ensures r.None? <==> forall j :: 0 <= j < |names| ==> names[j] !in entries
    ensures r.Some? ==>
      r.value < |names| && names[r.value] in entries && forall j :: 0 <= j < r.value ==> names[j] !in entries
    decreases |names|
  {
    if names == [] then None
    else if names[0] in entries then Some(0)
    else
      match FirstRegistered(names[1..], entries)
      case None => None
      case Some(k) => Some(k + 1)
  }

  /** A registered name with no registered name before it is the first one. */
  lemma FirstRegisteredAt(names: seq<string>, entries: map<string, seq<string>>, i: nat)
    requires i < |names| && names[i] in entries
    requires forall j :: 0 <= j < i ==> names[j] !in entries
    ensures FirstRegistered(names, entries) == Some(i)
  {
  }

  /** A sequence is its own longest prefix. */
  lemma WholePrefix<T>(s: seq<T>)
    ensures s[..|s|] == s
  {
  }

  /** Dropping the last element of a concatenation drops it from the second part. */
  lemma AppendInit<T>(a: seq<T>, b: seq<T>)
    requires b != []
    ensures (a + b)[..|a + b| - 1] == a + b[..|b| - 1]
    ensures (a + b)[|a + b| - 1] == b[|b| - 1]
  {
  }

  /** The prefix one longer than `s[..i]` extends it by `s[i]`. */
  lemma PrefixStep<T>(s: seq<T>, i: nat)
    requires i < |s|
    ensures s[..i + 1][..i] == s[..i]
    ensures s[..i + 1][i] == s[i]
  {
  }

  lemma AppendEmpty<T>(a: seq<T>)
    ensures a + [] == a
  {
  }

  lemma AppendAssoc<T>(a: seq<T>, b: seq<T>, c: seq<T>)
    ensures a + b + c == a + (b + c)
  {
  }

  // ---------------------------------------------------------------------------
  // Fragments

  function FragmentNames(fs: seq<FragmentDefinition>): (names: seq<string>)
    ensures |names| == |fs| && forall i :: 0 <= i < |fs| ==> names[i] == fs[i].name
  {
    seq(|fs|, i requires 0 <= i < |fs| => fs[i].name)
  }

  function FragmentOf(x: Externals, f: FragmentDefinition): Fragment
  {
    Fragment(f.name, x.newResponseFields(f.selectionSet, "").structType)
  }

  /**
   * Only names registered before the call are refused: two fragments named
   * "F" in one document, against an empty registry, are both accepted, and
   * "F" is then registered twice.
   */
  lemma FragmentBatchDuplicate(x: Externals)
    ensures FirstRegistered(["F", "F"], map[]) == None
    ensures var reference := x.pkg + "." + x.toGo("F");
      RecordedAll(map[], RegistrationsFor(x, ["F", "F"])) == map["F" := [reference, reference]]
  {
    var adds := RegistrationsFor(x, ["F", "F"]);
    var first := RegistrationFor(x, "F");
    assert adds == [first, first];
    assert adds[..1] == [first];
    assert adds[..1][..0] == [];
    var empty: map<string, seq<string>> := map[];
    assert RecordedAll(empty, adds[..1]) == Recorded(empty, first);
    assert Lookup(empty, "F") + [first.reference] == [first.reference];
    assert Recorded(empty, first) == map["F" := [first.reference]];
    assert RecordedAll(empty, adds) == Recorded(map["F" := [first.reference]], first);
    assert [first.reference] + [first.reference] == [first.reference, first.reference];
  }

  // ---------------------------------------------------------------------------
  // Operations

  /** `i` is the last position of `keys` that holds `name`, if there is one. */
  function LastMatch(keys: seq<string>, name: string): (r: Option<nat>)
    ensures r.None? <==> name !in keys
    ensures r.Some? ==>
      r.value < |keys| && keys[r.value] == name && forall j :: r.value < j < |keys| ==> keys[j] != name
    decreases |keys|
  {
    if keys == [] then None
    else if keys[|keys| - 1] == name then Some(|keys| - 1)
    else LastMatch(keys[..|keys| - 1], name)
  }

  function OperationNames(ops: seq<OperationDefinition>): (names: seq<string>)
    ensures |names| == |ops| && forall i :: 0 <= i < |ops| ==> names[i] == ops[i].name
  {
    seq(|ops|, i requires 0 <= i < |ops| => ops[i].name)
  }

  /** The identifier-transformed operation names, which is what the duplicate check compares. */
  function GoNames(x: Externals, ops: seq<OperationDefinition>): (names: seq<string>)
    ensures |names| == |ops| && forall i :: 0 <= i < |ops| ==> names[i] == x.toGo(ops[i].name)
  {
    seq(|ops|, i requires 0 <= i < |ops| => x.toGo(ops[i].name))
  }

  /** Position `j` of `s` repeats a value found earlier in `s`. */
  ghost predicate RepeatsEarlier(s: seq<string>, j: int)
  {
    0 <= j < |s| && exists k :: 0 <= k < j && s[k] == s[j]
  }

  /** When no transformed name repeats, each operation is the last one with its raw name. */
  lemma LastMatchOfUnrepeated(x: Externals, ops: seq<OperationDefinition>, j: nat)
    requires forall k :: 0 <= k < |ops| ==> !RepeatsEarlier(GoNames(x, ops), k)
    requires j < |ops|
    ensures LastMatch(OperationNames(ops), ops[j].name) == Some(j)
  {
    var names := OperationNames(ops);
    assert names[j] == ops[j].name;
    var l := LastMatch(names, ops[j].name).value;
    if l != j {
      assert RepeatsEarlier(GoNames(x, ops), l);
    }
  }

  ghost predicate NoRepeatBefore(names: seq<string>, i: int)
  {
    forall j :: 0 <= j < i ==> !RepeatsEarlier(names, j)
  }

  lemma NoRepeatStep(names: seq<string>, i: nat)
    requires NoRepeatBefore(names, i) && i < |names| && !RepeatsEarlier(names, i)
    ensures NoRepeatBefore(names, i + 1)
  {
  }

  /** Whether a position repeats an earlier one is decided by the names up to it. */
  lemma RepeatsEarlierInPrefix(names: seq<string>, n: nat)
    requires n <= |names|
    ensures forall j :: 0 <= j < n ==> (RepeatsEarlier(names[..n], j) <==> RepeatsEarlier(names, j))
  {
    forall j | 0 <= j < n
      ensures RepeatsEarlier(names[..n], j) <==> RepeatsEarlier(names, j)
    {
      if RepeatsEarlier(names, j) {
        var k :| 0 <= k < j && names[k] == names[j];
        assert names[..n][k] == names[..n][j];
      }
      if RepeatsEarlier(names[..n], j) {
        var k :| 0 <= k < j && names[..n][k] == names[..n][j];
        assert names[k] == names[j];
      }
    }
  }

  /** The position of the first name that repeats an earlier one, if any. */
  function FirstRepeat(names: seq<string>): (r: Option<nat>)
    ensures r.None? ==> NoRepeatBefore(names, |names|)
    ensures r.Some? ==> RepeatsEarlier(names, r.value) && NoRepeatBefore(names, r.value)
    decreases |names|
  {
    if names == [] then None
    else
      var init, last := names[..|names| - 1], names[|names| - 1];
      RepeatsEarlierInPrefix(names, |names| - 1);
      match FirstRepeat(init)
      case Some(j) => Some(j)
      case None =>
        if last in init then
          var k :| 0 <= k < |init| && init[k] == last;
          assert names[k] == names[|names| - 1];
          Some(|names| - 1)
        else
          assert !RepeatsEarlier(names, |names| - 1);
          None
  }

  /** A repeat with none before it is the first repeat. */
  lemma FirstRepeatAt(names: seq<string>, i: nat)
    requires RepeatsEarlier(names, i) && NoRepeatBefore(names, i)
    ensures FirstRepeat(names) == Some(i)
  {
  }

  /** With no repeat among all names there is no first repeat. */
  lemma FirstRepeatNone(names: seq<string>)
    requires NoRepeatBefore(names, |names|)
    ensures FirstRepeat(names) == None
  {
  }

  /** The step of the duplicate check: `seen` holds the first `i` names. */
  lemma SeenNames(names: seq<string>, i: nat, seen: set<string>)
    requires i < |names|
    requires seen == set k | 0 <= k < i :: names[k]
    ensures names[i] in seen <==> RepeatsEarlier(names, i)
    ensures seen + {names[i]} == set k | 0 <= k < i + 1 :: names[k]
  {
  }

  /** Every document has at least one operation: the documents map indexes the first one. */
  ghost predicate HasOperations(docs: seq<QueryDocument>)
  {
    forall i :: 0 <= i < |docs| ==> |docs[i].operations| > 0
  }

  /** The name of each document's first operation, which is the key it is filed under. */
  function DocumentKeys(docs: seq<QueryDocument>): (keys: seq<string>)
    requires HasOperations(docs)
    ensures |keys| == |docs| && forall i :: 0 <= i < |docs| ==> keys[i] == docs[i].operations[0].name
  {
    seq(|docs|, i requires 0 <= i < |docs| => docs[i].operations[0].name)
  }

  /** The document filed under `name`: the last one whose first operation has that name. */
  function DocumentFor(docs: seq<QueryDocument>, name: string): Option<QueryDocument>
    requires HasOperations(docs)
  {
    match LastMatch(DocumentKeys(docs), name)
    case None => None
    case Some(k) => Some(docs[k])
  }

  /**
   * The record of one operation: its raw name, its response type name, the
   * formatted text of the document it was looked up in, the arguments it is
   * given and its own variable definitions. Without a naming configuration
   * the response type is named after the operation itself.
   */
  function NewOperation(x: Externals, op: OperationDefinition, doc: Option<QueryDocument>,
                        args: seq<Argument>, cfg: Option<GenerateConfig>): (r: Operation)
    ensures r.name == op.name && r.responseStructName == ResponseStructName(op, cfg)
    ensures r.operation == x.formatQueryDocument(doc) && r.args == args
    ensures r.variableDefinitions == op.variableDefinitions
    ensures cfg.None? ==> r.responseStructName == r.name
  {
    Operation(op.name, ResponseStructName(op, cfg), x.formatQueryDocument(doc), args, op.variableDefinitions)
  }

  /** Go's index into the documents map: nil, here `None`, for a name that is not a key. */
  function DocumentIn(m: map<string, QueryDocument>, name: string): Option<QueryDocument>
  {
    if name in m then Some(m[name]) else None
  }

  /** The documents map as it is built: each document filed in turn under its first operation's name. */
  function QueryDocumentMap(docs: seq<QueryDocument>): map<string, QueryDocument>
    requires HasOperations(docs)
    decreases |docs|
  {
    if docs == [] then map[]
    else
      var last := docs[|docs| - 1];
      QueryDocumentMap(docs[..|docs| - 1])[last.operations[0].name := last]
  }

  /**
   * Looking a name up in the documents map finds the last document whose
   * first operation has that name, and nothing when there is none.
   */
  lemma {:induction false} QueryDocumentMapLastWins(docs: seq<QueryDocument>, name: string)
    requires HasOperations(docs)
    ensures DocumentIn(QueryDocumentMap(docs), name) == DocumentFor(docs, name)
    decreases |docs|
  {
    if docs != [] {
      var init := docs[..|docs| - 1];
      QueryDocumentMapLastWins(init, name);
      assert DocumentKeys(docs)[..|docs| - 1] == DocumentKeys(init);
      match LastMatch(DocumentKeys(init), name)
      case None =>
      case Some(k) => assert docs[k] == init[k];
    }
  }

  /** The arguments map as it is built: each operation's arguments filed in turn under its name. */
  function OperationArgsMap(x: Externals, ops: seq<OperationDefinition>): map<string, seq<Argument>>
    decreases |ops|
  {
    if ops == [] then map[]
    else
      var last := ops[|ops| - 1];
      OperationArgsMap(x, ops[..|ops| - 1])[last.name := x.operationArguments(last.variableDefinitions)]
  }

  /**
   * The arguments map has a key for every operation name, and under it the
   * arguments of the last operation with that name.
   */
  lemma {:induction false} OperationArgsMapLastWins(x: Externals, ops: seq<OperationDefinition>, name: string)
    ensures name in OperationArgsMap(x, ops) <==> name in OperationNames(ops)
    ensures name in OperationArgsMap(x, ops) ==>
      LastMatch(OperationNames(ops), name).Some? &&
      OperationArgsMap(x, ops)[name] ==
        x.operationArguments(ops[LastMatch(OperationNames(ops), name).value].variableDefinitions)
    decreases |ops|
  {
    if ops != [] {
      var init := ops[..|ops| - 1];
      OperationArgsMapLastWins(x, init, name);
      assert OperationNames(ops)[..|ops| - 1] == OperationNames(init);
      assert OperationNames(ops) == OperationNames(init) + [ops[|ops| - 1].name];
      match LastMatch(OperationNames(init), name)
      case None =>
      case Some(k) => assert ops[k] == init[k];
    }
  }

  /** Go's index into the arguments map: a nil slice, here empty, for a name that is not a key. */
  function ArgsIn(m: map<string, seq<Argument>>, name: string): seq<Argument>
  {
    if name in m then m[name] else []
  }

  /** The records the loop of `Operations` builds, one per operation, from the two maps. */
  function OperationRecords(x: Externals, ops: seq<OperationDefinition>, docMap: map<string, QueryDocument>,
                            argsMap: map<string, seq<Argument>>, cfg: Option<GenerateConfig>): seq<Operation>
  {
    seq(|ops|, j requires 0 <= j < |ops| =>
      NewOperation(x, ops[j], DocumentIn(docMap, ops[j].name), ArgsIn(argsMap, ops[j].name), cfg))
  }

  lemma OperationRecordsStep(x: Externals, ops: seq<OperationDefinition>, i: nat, docMap: map<string, QueryDocument>,
                             argsMap: map<string, seq<Argument>>, cfg: Option<GenerateConfig>)
    requires i < |ops|
    ensures OperationRecords(x, ops[..i + 1], docMap, argsMap, cfg) ==
      OperationRecords(x, ops[..i], docMap, argsMap, cfg) +
      [NewOperation(x, ops[i], DocumentIn(docMap, ops[i].name), ArgsIn(argsMap, ops[i].name), cfg)]
  {
  }

  /**
   * When no transformed operation name repeats, every operation's record
   * carries its own name, naming, document and arguments: the arguments map
   * then holds each operation's own arguments under its name.
   */
  lemma OperationsUnrepeated(x: Externals, ops: seq<OperationDefinition>, docs: seq<QueryDocument>,
                             cfg: Option<GenerateConfig>, operations: seq<Operation>)
    requires HasOperations(docs)
    requires NoRepeatBefore(GoNames(x, ops), |ops|)
    requires operations == OperationRecords(x, ops, QueryDocumentMap(docs), OperationArgsMap(x, ops), cfg)
    ensures forall i :: 0 <= i < |ops| ==>
      operations[i].name == ops[i].name &&
      operations[i].responseStructName == ResponseStructName(ops[i], cfg) &&
      operations[i].operation == x.formatQueryDocument(DocumentFor(docs, ops[i].name)) &&
      operations[i].args == x.operationArguments(ops[i].variableDefinitions) &&
      operations[i].variableDefinitions == ops[i].variableDefinitions
  {
    forall i | 0 <= i < |ops| {
      UnrepeatedOperation(x, ops, docs, i);
    }
  }

  /**
   * When no transformed operation name repeats, the arguments map holds each
   * operation's own arguments under its name, and the documents map the
   * document `DocumentFor` finds.
   */
  lemma UnrepeatedOperation(x: Externals, ops: seq<OperationDefinition>, docs: seq<QueryDocument>, i: nat)
    requires HasOperations(docs)
    requires NoRepeatBefore(GoNames(x, ops), |ops|)
    requires i < |ops|
    ensures ArgsIn(OperationArgsMap(x, ops), ops[i].name) == x.operationArguments(ops[i].variableDefinitions)
    ensures DocumentIn(QueryDocumentMap(docs), ops[i].name) == DocumentFor(docs, ops[i].name)
  {
    var name := ops[i].name;
    assert OperationNames(ops)[i] == name;
    LastMatchOfUnrepeated(x, ops, i);
    OperationArgsMapLastWins(x, ops, name);
    QueryDocumentMapLastWins(docs, name);
  }

  /** Files every document under the name of its first operation, in order. */
  method QueryDocumentMapByOperationName(queryDocuments: seq<QueryDocument>)
    returns (m: map<string, QueryDocument>)
    requires HasOperations(queryDocuments)
    ensures m == QueryDocumentMap(queryDocuments)
  {
    m := map[];
    var i := 0;
    while i < |queryDocuments|
      invariant 0 <= i <= |queryDocuments|
      invariant m == QueryDocumentMap(queryDocuments[..i])
    {
      var operation := queryDocuments[i].operations[0];
      m := m[operation.name := queryDocuments[i]];
      PrefixStep(queryDocuments, i);
      i := i + 1;
    }
    WholePrefix(queryDocuments);
  }

  // ---------------------------------------------------------------------------
  // Nested types of an operation response

  /**
   * The nested response types of a selection set, in pre-order: for each
   * field whose resolved fields form a struct, an entry named after its
   * parent and its transformed alias, followed by the field's own nested types.
   */
  function NestedTypes(x: Externals, selectionSet: SelectionSet, parentName: string): seq<OperationResponse>
    decreases selectionSet, 1
  {
    if selectionSet == [] then []
    else NestedTypes(x, selectionSet[..|selectionSet| - 1], parentName)
         + SelectionTypes(x, selectionSet[|selectionSet| - 1], parentName)
  }

  /** The entries one selection contributes; fragment spreads and inline fragments contribute none. */
  function SelectionTypes(x: Externals, selection: Selection, parentName: string): seq<OperationResponse>
    decreases selection, 0
  {
    match selection
    case Field(alias, _, sub) =>
      var name := parentName + x.toGo(alias);
      var responseFields := x.newResponseFields(sub, name);
      if responseFields.isStructType then [OperationResponse(name, responseFields.structType)] + NestedTypes(x, sub, name)
      else []
    case _ => []
  }

  /** Walking a concatenation of selection sets gives the two walks one after the other. */
  lemma {:induction false} NestedTypesAppend(x: Externals, a: SelectionSet, b: SelectionSet, parentName: string)
    ensures NestedTypes(x, a + b, parentName) == NestedTypes(x, a, parentName) + NestedTypes(x, b, parentName)
    decreases |b|
  {
    if b == [] {
      AppendEmpty(a);
    } else {
      var init := b[..|b| - 1];
      AppendInit(a, b);
      NestedTypesAppend(x, a, init, parentName);
      AppendAssoc(NestedTypes(x, a, parentName), NestedTypes(x, init, parentName),
                  SelectionTypes(x, b[|b| - 1], parentName));
    }
  }

  /** Every nested type name starts with the parent name. */
  lemma {:induction false} NestedTypesPrefixed(x: Externals, selectionSet: SelectionSet, parentName: string)
    ensures forall e :: e in NestedTypes(x, selectionSet, parentName) ==> parentName <= e.name
    decreases selectionSet, 1
  {
    if selectionSet != [] {
      NestedTypesPrefixed(x, selectionSet[..|selectionSet| - 1], parentName);
      SelectionTypesPrefixed(x, selectionSet[|selectionSet| - 1], parentName);
    }
  }

  lemma {:induction false} SelectionTypesPrefixed(x: Externals, selection: Selection, parentName: string)
    ensures forall e :: e in SelectionTypes(x, selection, parentName) ==> parentName <= e.name
    decreases selection, 0
  {
    match selection
    case Field(alias, _, sub) =>
      var name := parentName + x.toGo(alias);
      NestedTypesPrefixed(x, sub, name);
      forall e | e in NestedTypes(x, sub, name) ensures parentName <= e.name {
        assert e.name[..|name|] == name;
        assert e.name[..|parentName|] == name[..|parentName|];
      }
    case _ =>
  }

  /**
   * A field whose resolved fields are not a struct is not descended into:
   * when no selection set resolves to a struct, a selection set of any
   * depth has no nested types.
   */
  lemma {:induction false} NestedTypesNoStruct(x: Externals, selectionSet: SelectionSet, parentName: string)
    requires forall s, n :: !x.newResponseFields(s, n).isStructType
    ensures NestedTypes(x, selectionSet, parentName) == []
    decreases |selectionSet|
  {
    if selectionSet != [] {
      NestedTypesNoStruct(x, selectionSet[..|selectionSet| - 1], parentName);
    }
  }

  /**
   * A field whose resolved fields are not a struct contributes nothing, and
   * its sub-selections are not walked, whatever they would resolve to.
   */
  lemma FieldNotStructNotDescended(x: Externals, alias: string, n: string, sub: SelectionSet, parentName: string)
    requires !x.newResponseFields(sub, parentName + x.toGo(alias)).isStructType
    ensures SelectionTypes(x, Field(alias, n, sub), parentName) == []
  {
  }

  /** The fields of a selection set, in order; spreads and inline fragments dropped. */
  function FieldsOnly(selectionSet: SelectionSet): (fields: SelectionSet)
    ensures forall s :: s in fields ==> s.Field? && s in selectionSet
    decreases |selectionSet|
  {
    if selectionSet == [] then []
    else FieldsOnly(selectionSet[..|selectionSet| - 1])
         + (if selectionSet[|selectionSet| - 1].Field? then [selectionSet[|selectionSet| - 1]] else [])
  }

  /** Fragment spreads and inline fragments contribute nothing to the walk. */
  lemma {:induction false} NestedTypesFieldsOnly(x: Externals, selectionSet: SelectionSet, parentName: string)
    ensures NestedTypes(x, selectionSet, parentName) == NestedTypes(x, FieldsOnly(selectionSet), parentName)
    decreases |selectionSet|
  {
    if selectionSet != [] {
      var init, last := selectionSet[..|selectionSet| - 1], selectionSet[|selectionSet| - 1];
      NestedTypesFieldsOnly(x, init, parentName);
      var tail := if last.Field? then [last] else [];
      NestedTypesAppend(x, FieldsOnly(init), tail, parentName);
      if last.Field? {
        assert tail[..0] == [];
      }
    }
  }

  /** The identifier-transformed aliases, concatenated. */
  function GoPath(x: Externals, aliases: seq<string>): string
    decreases |aliases|
  {
    if aliases == [] then "" else x.toGo(aliases[0]) + GoPath(x, aliases[1..])
  }

  /** A selection set nesting one field per level, with the given aliases from the top down. */
  function Chain(aliases: seq<string>): SelectionSet
    decreases |aliases|
  {
    if aliases == [] then [] else [Field(aliases[0], aliases[0], Chain(aliases[1..]))]
  }

  function ResponseNames(rs: seq<OperationResponse>): (names: seq<string>)
    ensures |names| == |rs| && forall i :: 0 <= i < |rs| ==> names[i] == rs[i].name
  {
    seq(|rs|, i requires 0 <= i < |rs| => rs[i].name)
  }

  /** The names of an entry followed by more entries. */
  lemma ResponseNamesCons(e: OperationResponse, rs: seq<OperationResponse>)
    ensures ResponseNames([e] + rs) == [e.name] + ResponseNames(rs)
  {
  }

  /** The top field of a chain of struct fields gives the first entry, then the rest of the chain's. */
  lemma ChainHead(x: Externals, aliases: seq<string>, parentName: string)
    requires forall s, n :: x.newResponseFields(s, n).isStructType
    requires aliases != []
    ensures var name := parentName + x.toGo(aliases[0]);
      NestedTypes(x, Chain(aliases), parentName) ==
        [OperationResponse(name, x.newResponseFields(Chain(aliases[1..]), name).structType)]
        + NestedTypes(x, Chain(aliases[1..]), name)
  {
    var top := Field(aliases[0], aliases[0], Chain(aliases[1..]));
    assert Chain(aliases) == [top];
    assert [top][..0] == [];
  }

  lemma GoPathCons(x: Externals, aliases: seq<string>, k: nat)
    requires k < |aliases|
    ensures GoPath(x, aliases[..k + 1]) == x.toGo(aliases[0]) + GoPath(x, aliases[1..][..k])
  {
    assert aliases[..k + 1][0] == aliases[0];
    assert aliases[..k + 1][1..] == aliases[1..][..k];
  }

  /**
   * When every selection set resolves to a struct, a chain of N fields gives N
   * nested types, the one at depth k named after the parent and the first k
   * transformed aliases.
   */
  lemma {:induction false} NestedTypesChain(x: Externals, aliases: seq<string>, parentName: string)
    requires forall s, n :: x.newResponseFields(s, n).isStructType
    ensures var names := ResponseNames(NestedTypes(x, Chain(aliases), parentName));
      |names| == |aliases| &&
      forall k :: 0 <= k < |aliases| ==> names[k] == parentName + GoPath(x, aliases[..k + 1])
    decreases |aliases|
  {
    if aliases != [] {
      var name := parentName + x.toGo(aliases[0]);
      ChainHead(x, aliases, parentName);
      NestedTypesChain(x, aliases[1..], name);
      var names := ResponseNames(NestedTypes(x, Chain(aliases), parentName));
      var rest := ResponseNames(NestedTypes(x, Chain(aliases[1..]), name));
      ResponseNamesCons(NestedTypes(x, Chain(aliases), parentName)[0], NestedTypes(x, Chain(aliases[1..]), name));
      ChainNamesStep(x, aliases, parentName, names, rest);
    }
  }

  /** The inductive step of NestedTypesChain, on the names alone. */
  lemma ChainNamesStep(x: Externals, aliases: seq<string>, parentName: string, names: seq<string>, rest: seq<string>)
    requires aliases != []
    requires names == [parentName + x.toGo(aliases[0])] + rest
    requires |rest| == |aliases| - 1
    requires forall k :: 0 <= k < |rest| ==> rest[k] == parentName + x.toGo(aliases[0]) + GoPath(x, aliases[1..][..k + 1])
    ensures forall k :: 0 <= k < |aliases| ==> names[k] == parentName + GoPath(x, aliases[..k + 1])
  {
    forall k | 0 <= k < |aliases|
      ensures names[k] == parentName + GoPath(x, aliases[..k + 1])
    {
      GoPathCons(x, aliases, k);
      if k > 0 {
        assert names[k] == rest[k - 1];
        assert aliases[1..][..k] == aliases[1..][..(k - 1) + 1];
      } else {
        assert aliases[1..][..0] == [];
      }
    }
  }

  // ---------------------------------------------------------------------------
  // Operation responses

  /** The root response entry of an operation, named by the naming transform. */
  function RootResponse(x: Externals, op: OperationDefinition, cfg: Option<GenerateConfig>): OperationResponse
  {
    var name := ResponseStructName(op, cfg);
    OperationResponse(name, x.newResponseFields(op.selectionSet, name).structType)
  }

  /** One operation's entries: its nested types, then its root entry. */
  function ResponsesFor(x: Externals, op: OperationDefinition, cfg: Option<GenerateConfig>): seq<OperationResponse>
  {
    NestedTypes(x, op.selectionSet, ResponseStructName(op, cfg)) + [RootResponse(x, op, cfg)]
  }

  /** The entries of all operations, operation by operation in document order. */
  function AllResponses(x: Externals, ops: seq<OperationDefinition>, cfg: Option<GenerateConfig>): seq<OperationResponse>
    decreases |ops|
  {
    if ops == [] then []
    else AllResponses(x, ops[..|ops| - 1], cfg) + ResponsesFor(x, ops[|ops| - 1], cfg)
  }

  function RootNames(ops: seq<OperationDefinition>, cfg: Option<GenerateConfig>): (names: seq<string>)
    ensures |names| == |ops| && forall i :: 0 <= i < |ops| ==> names[i] == ResponseStructName(ops[i], cfg)
  {
    seq(|ops|, i requires 0 <= i < |ops| => ResponseStructName(ops[i], cfg))
  }

  /** Extending the operations by one appends that operation's nested entries and then its root entry. */
  lemma AllResponsesStep(x: Externals, ops: seq<OperationDefinition>, i: nat, cfg: Option<GenerateConfig>,
                         done: seq<OperationResponse>, nested: seq<OperationResponse>)
    requires i < |ops|
    requires done == AllResponses(x, ops[..i], cfg)
    requires nested == NestedTypes(x, ops[i].selectionSet, ResponseStructName(ops[i], cfg))
    ensures done + nested + [RootResponse(x, ops[i], cfg)] == AllResponses(x, ops[..i + 1], cfg)
  {
    PrefixStep(ops, i);
    assert AllResponses(x, ops[..i + 1], cfg) == done + ResponsesFor(x, ops[i], cfg);
  }

  /** The entries of a concatenation of operation lists are the two lists' entries, in order. */
  lemma {:induction false} AllResponsesAppend(x: Externals, a: seq<OperationDefinition>, b: seq<OperationDefinition>,
                                             cfg: Option<GenerateConfig>)
    ensures AllResponses(x, a + b, cfg) == AllResponses(x, a, cfg) + AllResponses(x, b, cfg)
    decreases |b|
  {
    if b == [] {
      AppendEmpty(a);
    } else {
      var init, last := b[..|b| - 1], b[|b| - 1];
      AppendInit(a, b);
      AllResponsesAppend(x, a, init, cfg);
      AppendAssoc(AllResponses(x, a, cfg), AllResponses(x, init, cfg), ResponsesFor(x, last, cfg));
    }
  }

  /**
   * One operation's entries end with its root entry, named by the naming
   * transform; every entry before it is nested and its name starts with the
   * root name.
   */
  lemma ResponsesForShape(x: Externals, op: OperationDefinition, cfg: Option<GenerateConfig>)
    ensures var rs := ResponsesFor(x, op, cfg);
      |rs| == |NestedTypes(x, op.selectionSet, ResponseStructName(op, cfg))| + 1 &&
      rs[|rs| - 1] == OperationResponse(ResponseStructName(op, cfg),
                                        x.newResponseFields(op.selectionSet, ResponseStructName(op, cfg)).structType) &&
      forall i :: 0 <= i < |rs| ==> ResponseStructName(op, cfg) <= rs[i].name
  {
    var root := ResponseStructName(op, cfg);
    NestedTypesPrefixed(x, op.selectionSet, root);
    var rs := ResponsesFor(x, op, cfg);
    forall i | 0 <= i < |rs| ensures root <= rs[i].name {
      if i < |rs| - 1 {
        assert rs[i] in NestedTypes(x, op.selectionSet, root);
      }
    }
  }

  /** An operation whose selections form a chain of N struct fields has N + 1 entries. */
  lemma ResponsesForChain(x: Externals, op: OperationDefinition, cfg: Option<GenerateConfig>, aliases: seq<string>)
    requires forall s, n :: x.newResponseFields(s, n).isStructType
    requires op.selectionSet == Chain(aliases)
    ensures |ResponsesFor(x, op, cfg)| == |aliases| + 1
  {
    NestedTypesChain(x, aliases, ResponseStructName(op, cfg));
  }

  /**
   * Nested names are not checked: an operation "A" with a struct field "B"
   * and an operation "AB" both produce the name "AB", and with an empty
   * registry the root names pass the duplicate check.
   */
  lemma NestedNameCollision(vars: seq<VariableDefinition>)
    ensures var x := Externals((s, n) => ResponseFields(true, TypeRepr(n)), d => Failure("none"),
                               v => [], "gen", n => n, d => "");
      var a := OperationDefinition(Query, "A", vars, [Field("B", "b", [])]);
      var ab := OperationDefinition(Query, "AB", vars, []);
      ResponseNames(AllResponses(x, [a, ab], None)) == ["AB", "A", "AB"] &&
      FirstRegistered(RootNames([a, ab], None), map[]) == None
  {
    var x := Externals((s, n) => ResponseFields(true, TypeRepr(n)), d => Failure("none"),
                       v => [], "gen", n => n, d => "");
    var a := OperationDefinition(Query, "A", vars, [Field("B", "b", [])]);
    var ab := OperationDefinition(Query, "AB", vars, []);
    var field := Field("B", "b", []);
    assert "A" + "B" == "AB";
    assert SelectionTypes(x, field, "A") == [OperationResponse("AB", TypeRepr("AB"))];
    assert [field][..0] == [];
    assert NestedTypes(x, [field], "A") == [OperationResponse("AB", TypeRepr("AB"))];
    assert ResponsesFor(x, a, None) == [OperationResponse("AB", TypeRepr("AB")), OperationResponse("A", TypeRepr("A"))];
    assert ResponsesFor(x, ab, None) == [OperationResponse("AB", TypeRepr("AB"))];
    assert [a, ab][..1] == [a];
    assert [a][..0] == [];
    assert AllResponses(x, [a], None) == ResponsesFor(x, a, None);
  }

  // ---------------------------------------------------------------------------
  // The generator's entry points

  /**
   * The generator's view of one query document: everything its entry points
   * read, and the shared model registry they extend.
   */
  class Source {
    const schema: Schema
    const queryDocument: QueryDocument
    const ext: Externals
    const generateConfig: Option<GenerateConfig>
    /** The registry reached through the source generator's configuration. */
    const models: Models

    constructor (schema: Schema, queryDocument: QueryDocument, ext: Externals,
                 generateConfig: Option<GenerateConfig>, models: Models)
      ensures this.schema == schema && this.queryDocument == queryDocument && this.ext == ext
      ensures this.generateConfig == generateConfig && this.models == models
    {
      this.schema := schema;
      this.queryDocument := queryDocument;
      this.ext := ext;
      this.generateConfig := generateConfig;
      this.models := models;
    }

    /** Adds every name of `names` to the registry, in order, with its qualified Go type. */
    method AddAll(names: seq<string>)
      modifies models
      ensures models.entries == RecordedAll(old(models.entries), RegistrationsFor(ext, names))
    {
      ghost var adds := RegistrationsFor(ext, names);
      var k := 0;
      while k < |names|
        invariant 0 <= k <= |names|
        invariant models.entries == RecordedAll(old(models.entries), adds[..k])
      {
        models.Add(names[k], ext.pkg + "." + ext.toGo(names[k]));
        PrefixStep(adds, k);
        k := k + 1;
      }
      WholePrefix(adds);
    }

    /**
     * One fragment descriptor per fragment definition, in document order,
     * unless some fragment name is already registered. Registration happens
     * only after every fragment has been checked, so a failure leaves the
     * registry as it was, and two fragments of one batch with the same name
     * are both accepted.
     */
    method Fragments() returns (r: Result<seq<Fragment>>)
      modifies models
      ensures var fs := queryDocument.fragments;
        var names := FragmentNames(fs);
        match FirstRegistered(names, old(models.entries))
        case Some(i) =>
          r == Failure(names[i] + " is duplicated") && models.entries == old(models.entries)
        case None =>
          r.Success? && |r.value| == |fs| &&
          (forall i :: 0 <= i < |fs| ==>
             r.value[i].name == fs[i].name && r.value[i].typ == ext.newResponseFields(fs[i].selectionSet, "").structType) &&
          models.entries == RecordedAll(old(models.entries), RegistrationsFor(ext, names))
    {
      var fs := queryDocument.fragments;
      ghost var names := FragmentNames(fs);
      var fragments: seq<Fragment> := [];
      var i := 0;
      while i < |fs|
        invariant 0 <= i <= |fs|
        invariant models.entries == old(models.entries)
        invariant |fragments| == i
        invariant forall j :: 0 <= j < i ==> fragments[j] == FragmentOf(ext, fs[j])
        invariant forall j :: 0 <= j < i ==> names[j] !in models.entries
      {
        var responseFields := ext.newResponseFields(fs[i].selectionSet, "");
        if models.Exists(fs[i].name) {
          FirstRegisteredAt(names, models.entries, i);
          return Failure(fs[i].name + " is duplicated");
        }
        fragments := fragments + [Fragment(fs[i].name, responseFields.structType)];
        i := i + 1;
      }
      var fragmentNames := seq(|fragments|, k requires 0 <= k < |fragments| => fragments[k].name);
      assert fragmentNames == names;
      AddAll(fragmentNames);
      return Success(fragments);
    }

    /** Files each operation's arguments under its name, in order. */
    method OperationArgsMapByOperationName() returns (m: map<string, seq<Argument>>)
      ensures m == OperationArgsMap(ext, queryDocument.operations)
    {
      var ops := queryDocument.operations;
      m := map[];
      var i := 0;
      while i < |ops|
        invariant 0 <= i <= |ops|
        invariant m == OperationArgsMap(ext, ops[..i])
      {
        m := m[ops[i].name := ext.operationArguments(ops[i].variableDefinitions)];
        PrefixStep(ops, i);
        i := i + 1;
      }
      WholePrefix(ops);
    }

    /**
     * One operation record per operation definition, in document order,
     * unless two operations have the same identifier-transformed name: then
     * the first operation that repeats an earlier one is reported. The
     * registry is not touched.
     */
    method Operations(queryDocuments: seq<QueryDocument>) returns (r: Result<seq<Operation>>)
      requires HasOperations(queryDocuments)
      ensures var ops := queryDocument.operations;
        match FirstRepeat(GoNames(ext, ops))
        case Some(j) => r == Failure("duplicate operation: " + ops[j].name)
        case None =>
          r.Success? && |r.value| == |ops| &&
          forall i :: 0 <= i < |ops| ==>
            r.value[i].name == ops[i].name &&
            r.value[i].responseStructName == ResponseStructName(ops[i], generateConfig) &&
            r.value[i].operation == ext.formatQueryDocument(DocumentFor(queryDocuments, ops[i].name)) &&
            r.value[i].args == ext.operationArguments(ops[i].variableDefinitions) &&
            r.value[i].variableDefinitions == ops[i].variableDefinitions
    {
      var ops := queryDocument.operations;
      ghost var names := GoNames(ext, ops);
      var operations: seq<Operation> := [];
      var operationNames: set<string> := {};
      var queryDocumentsMap := QueryDocumentMapByOperationName(queryDocuments);
      var operationArgsMap := OperationArgsMapByOperationName();
      var i := 0;
      while i < |ops|
        invariant 0 <= i <= |ops|
        invariant operationNames == set k | 0 <= k < i :: names[k]
        invariant NoRepeatBefore(names, i)
        invariant operations == OperationRecords(ext, ops[..i], queryDocumentsMap, operationArgsMap, generateConfig)
      {
        var operation := ops[i];
        var document := DocumentIn(queryDocumentsMap, operation.name);
        SeenNames(names, i, operationNames);
        if ext.toGo(operation.name) in operationNames {
          FirstRepeatAt(names, i);
          return Failure("duplicate operation: " + operation.name);
        }
        operationNames := operationNames + {ext.toGo(operation.name)};
        NoRepeatStep(names, i);
        var args := ArgsIn(operationArgsMap, operation.name);
        OperationRecordsStep(ext, ops, i, queryDocumentsMap, operationArgsMap, generateConfig);
        operations := operations + [NewOperation(ext, operation, document, args, generateConfig)];
        i := i + 1;
      }
      WholePrefix(ops);
      OperationsUnrepeated(ext, ops, queryDocuments, generateConfig, operations);
      FirstRepeatNone(names);
      return Success(operations);
    }

    /** The nested response types of a selection set, in pre-order. */
    method GetNestedTypes(selectionSet: SelectionSet, parentName: string) returns (results: seq<OperationResponse>)
      ensures results == NestedTypes(ext, selectionSet, parentName)
      decreases selectionSet
    {
      results := [];
      var i := 0;
      while i < |selectionSet|
        invariant 0 <= i <= |selectionSet|
        invariant results == NestedTypes(ext, selectionSet[..i], parentName)
      {
        PrefixStep(selectionSet, i);
        match selectionSet[i] {
          case Field(alias, _, sub) =>
            var responseFields := ext.newResponseFields(sub, parentName + ext.toGo(alias));
            if responseFields.isStructType {
              results := results + [OperationResponse(parentName + ext.toGo(alias), responseFields.structType)];
              var nested := GetNestedTypes(sub, parentName + ext.toGo(alias));
              results := results + nested;
            }
          case _ =>
        }
        i := i + 1;
      }
      WholePrefix(selectionSet);
    }

    /**
     * The loop of `OperationResponses`: for each operation in order, its
     * nested response types and then its root response type, unless some
     * root name is already registered, in which case the first such name is
     * reported. Only root names are checked. Changes nothing.
     */
    method CollectResponses() returns (r: Result<seq<OperationResponse>>)
      ensures var roots := RootNames(queryDocument.operations, generateConfig);
        match FirstRegistered(roots, models.entries)
        case Some(i) => r == Failure(roots[i] + " is duplicated")
        case None => r == Success(AllResponses(ext, queryDocument.operations, generateConfig))
    {
      var ops := queryDocument.operations;
      ghost var roots := RootNames(ops, generateConfig);
      ghost var registered := models.entries;
      var operationResponse: seq<OperationResponse> := [];
      var i := 0;
      while i < |ops|
        invariant 0 <= i <= |ops|
        invariant operationResponse == AllResponses(ext, ops[..i], generateConfig)
        invariant models.entries == registered
        invariant forall j :: 0 <= j < i ==> roots[j] !in registered
      {
        var operation := ops[i];
        var queryName := ResponseStructName(operation, generateConfig);
        var responseFields := ext.newResponseFields(operation.selectionSet, queryName);
        var nestedTypes := GetNestedTypes(operation.selectionSet, queryName);
        ghost var done := operationResponse;
        operationResponse := operationResponse + nestedTypes;
        var name := ResponseStructName(operation, generateConfig);
        if models.Exists(name) {
          FirstRegisteredAt(roots, registered, i);
          return Failure(name + " is duplicated");
        }
        var root := OperationResponse(queryName, responseFields.structType);
        assert root == RootResponse(ext, operation, generateConfig);
        AllResponsesStep(ext, ops, i, generateConfig, done, nestedTypes);
        operationResponse := operationResponse + [root];
        i := i + 1;
      }
      WholePrefix(ops);
      return Success(operationResponse);
    }

    /**
     * The response types of all operations, or the first root name that is
     * already registered. Only root names are checked, against the registry
     * as it stood at the call; on success every entry's name, nested or
     * root, is registered, and on failure the registry is left as it was.
     */
    method OperationResponses() returns (r: Result<seq<OperationResponse>>)
      modifies models
      ensures var roots := RootNames(queryDocument.operations, generateConfig);
        match FirstRegistered(roots, old(models.entries))
        case Some(i) =>
          r == Failure(roots[i] + " is duplicated") && models.entries == old(models.entries)
        case None =>
          r == Success(AllResponses(ext, queryDocument.operations, generateConfig)) &&
          models.entries == RecordedAll(old(models.entries), RegistrationsFor(ext, ResponseNames(r.value)))
    {
      var collected := CollectResponses();
      if collected.Failure? {
        return Failure(collected.error);
      }
      var operationResponse := collected.value;
      var names := seq(|operationResponse|, k requires 0 <= k < |operationResponse| => operationResponse[k].name);
      assert names == ResponseNames(operationResponse);
      AddAll(names);
      return Success(operationResponse);
    }

    /**
     * The root query descriptor. A resolution failure is reported wrapped and
     * registers nothing; on success the query type's name is registered once.
     */
    method Query() returns (r: Result<RootType>)
      modifies models
      ensures var name := schema.query.name;
        match ext.newResponseFieldsByDefinition(schema.query)
        case Failure(e) =>
          r == Failure("generate failed for query struct type : " + e) && models.entries == old(models.entries)
        case Success(fields) =>
          r == Success(RootType(name, fields.structType)) &&
          models.entries == Recorded(old(models.entries), RegistrationFor(ext, name))
    {
      var fields := ext.newResponseFieldsByDefinition(schema.query);
      if fields.Failure? {
        return Failure("generate failed for query struct type : " + fields.error);
      }
      models.Add(schema.query.name, ext.pkg + "." + ext.toGo(schema.query.name));
      return Success(RootType(schema.query.name, fields.value.structType));
    }

    /**
     * The root mutation descriptor: none, and no registration, when the
     * schema has no mutation type; otherwise as for the query type.
     */
    method Mutation() returns (r: Result<Option<RootType>>)
      modifies models
      ensures schema.mutation.None? ==> r == Success(None) && models.entries == old(models.entries)
      ensures schema.mutation.Some? ==>
        var name := schema.mutation.value.name;
        match ext.newResponseFieldsByDefinition(schema.mutation.value)
        case Failure(e) =>
          r == Failure("generate failed for mutation struct type : " + e) && models.entries == old(models.entries)
        case Success(fields) =>
          r == Success(Some(RootType(name, fields.structType))) &&
          models.entries == Recorded(old(models.entries), RegistrationFor(ext, name))
    {
      if schema.mutation.None? {
        return Success(None);
      }
      var mutation := schema.mutation.value;
      var fields := ext.newResponseFieldsByDefinition(mutation);
      if fields.Failure? {
        return Failure("generate failed for mutation struct type : " + fields.error);
      }
      models.Add(mutation.name, ext.pkg + "." + ext.toGo(mutation.name));
      return Success(Some(RootType(mutation.name, fields.value.structType)));
    }
  }
}
