/**
 * The generator's configuration: the optional naming rules for operation
 * response types, and the model registry (the name-to-Go-type table that
 * every phase of the generator consults and extends).
 */
module Config {
  import opened Wrappers

  /** One string per operation kind that naming rules apply to. */
  datatype NamingConfig = NamingConfig(query: string, mutation: string)

  /** The `generate` section of the configuration: an optional prefix and suffix rule. */
  datatype GenerateConfig = GenerateConfig(prefix: Option<NamingConfig>, suffix: Option<NamingConfig>)

  /** One call of the registry's Add: a type name and the qualified Go type it stands for. */
  datatype Registration = Registration(name: string, reference: string)

  /** The references recorded so far under `name`, empty when the name is absent. */
  function Lookup(entries: map<string, seq<string>>, name: string): seq<string>
  {
    if name in entries then entries[name] else []
  }

  /**
   * The registry contents after one Add. The registry keeps every reference
   * recorded for a name, in order, so adding a name twice is tolerated.
   */
  function Recorded(entries: map<string, seq<string>>, r: Registration): map<string, seq<string>>
  {
    entries[r.name := Lookup(entries, r.name) + [r.reference]]
  }

  /** The registry contents after the Add calls `adds`, made in order. */
  function RecordedAll(entries: map<string, seq<string>>, adds: seq<Registration>): map<string, seq<string>>
    decreases |adds|
  {
    if adds == [] then entries
    else Recorded(RecordedAll(entries, adds[..|adds| - 1]), adds[|adds| - 1])
  }

  /** The names that the Add calls `adds` mention. */
  function NamesOf(adds: seq<Registration>): set<string>
  {
    set i | 0 <= i < |adds| :: adds[i].name
  }

  /** The references that `adds` records under `name`, in order. */
  function ReferencesFor(adds: seq<Registration>, name: string): seq<string>
    decreases |adds|
  {
    if adds == [] then []
    else ReferencesFor(adds[..|adds| - 1], name)
         + (if adds[|adds| - 1].name == name then [adds[|adds| - 1].reference] else [])
  }

  /** After a batch of Add calls, exactly the old names and the added names exist. */
  lemma {:induction false} RecordedAllKeys(entries: map<string, seq<string>>, adds: seq<Registration>)
    ensures RecordedAll(entries, adds).Keys == entries.Keys + NamesOf(adds)
    decreases |adds|
  {
    if adds != [] {
      var init := adds[..|adds| - 1];
      RecordedAllKeys(entries, init);
      assert NamesOf(adds) == NamesOf(init) + {adds[|adds| - 1].name} by {
        forall n | n in NamesOf(adds) ensures n in NamesOf(init) + {adds[|adds| - 1].name} {
          var i :| 0 <= i < |adds| && adds[i].name == n;
          if i < |adds| - 1 { assert init[i] == adds[i]; }
        }
        forall n | n in NamesOf(init) ensures n in NamesOf(adds) {
          var i :| 0 <= i < |init| && init[i].name == n;
          assert adds[i] == init[i];
        }
      }
    }
  }

  /**
   * After a batch of Add calls, each name holds what it held before followed
   * by the references the batch recorded for it, in call order.
   */
  lemma {:induction false} RecordedAllLookup(entries: map<string, seq<string>>, adds: seq<Registration>, name: string)
    ensures Lookup(RecordedAll(entries, adds), name) == Lookup(entries, name) + ReferencesFor(adds, name)
    decreases |adds|
  {
    if adds != [] {
      RecordedAllLookup(entries, adds[..|adds| - 1], name);
    }
  }

  /** Every Add of a batch leaves its reference under its name. */
  lemma RecordedAllContains(entries: map<string, seq<string>>, adds: seq<Registration>, i: nat)
    requires i < |adds|
    ensures adds[i].name in RecordedAll(entries, adds)
    ensures adds[i].reference in RecordedAll(entries, adds)[adds[i].name]
  {
    RecordedAllKeys(entries, adds);
    RecordedAllLookup(entries, adds, adds[i].name);
    ReferencesForContains(adds, i);
  }

  lemma {:induction false} ReferencesForContains(adds: seq<Registration>, i: nat)
    requires i < |adds|
    ensures adds[i].reference in ReferencesFor(adds, adds[i].name)
    decreases |adds|
  {
    if i < |adds| - 1 {
      var init := adds[..|adds| - 1];
      assert init[i] == adds[i];
      ReferencesForContains(init, i);
    }
  }

  /**
   * The model registry: a table from GraphQL type names to the Go types
   * generated for them. The client generator only ever asks whether a name
   * exists and adds names; Add never refuses a name that is already there.
   */
  class Models {
    var entries: map<string, seq<string>>

    constructor (initial: map<string, seq<string>>)
      ensures entries == initial
    {
      entries := initial;
    }

    /** Whether some type has already been recorded under `name`. */
    predicate Exists(name: string)
      reads this
    {
      name in entries
    }

    /** Records `reference` under `name`, whether or not the name already exists. */
    method Add(name: string, reference: string)
      modifies this
      ensures entries == Recorded(old(entries), Registration(name, reference))
    {
      entries := Recorded(entries, Registration(name, reference));
    }
  }
}
