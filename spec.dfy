/** What each parse step of config.go computes, as pure functions.

    Each function follows one Go function branch by branch. It returns the
    value the step stores through its pointer on success, or the first
    error, or the panic the step runs into. Between blocks the decoder fails
    fast: the first failing block ends the walk, and no partial result
    survives (Parse returns nil). The methods in ConfigParse are proved
    equal to these functions. */
module ConfigSpec {
  import opened Outcomes
  import opened Hcl
  import opened Ascii
  import opened KeyCheck
  import opened ConfigModel

  /** The allow-lists of config.go:84-88, 132, 157, 192 and 306. */
  const RootKeys: seq<string> := ["process", "unidata", "mongodb"]
  const UnidataKeys: seq<string> := ["host", "username", "password", "udt_bin"]
  const MongoDBKeys: seq<string> := ["server", "database"]
  const ProcessKeys: seq<string> := ["input", "output", "transform"]
  const FieldKeys: seq<string> := ["type", "is_multi"]

  /** hcl.DecodeObject into a map; its error is returned unchanged. */
  function DecodeAttrs(lib: Library, node: Node): (r: Outcome<Attrs>)
    ensures !r.Crash?
    ensures r.Ok? <==> lib.decodeObject(node).Decoded?
    ensures r.Ok? ==> r.value == lib.decodeObject(node).value
    ensures r.Fail? ==> r.error == LibraryError(lib.decodeObject(node).error)
  {
    match lib.decodeObject(node)
    case Decoded(m) => Ok(m)
    case DecodeError(e) => Fail(LibraryError(e))
  }

  /** The part parseUnidata and parseMongoDB share: more than one block is an
      error; the one block must pass the key check and decode to a map. */
  function SingletonAttrs(lib: Library, items: seq<Item>, keyword: string, valid: seq<string>): Outcome<Attrs>
    requires |items| > 0
  {
    if |items| > 1 then Fail(OnlyOneBlock(keyword))
    else
      var _ :- PrefixWith(keyword + ":", CheckKeys(items[0].val, valid));
      DecodeAttrs(lib, items[0].val)
  }

  /** parseUnidata: the UnidataInfo it stores, or its error. */
  function UnidataSpec(lib: Library, items: seq<Item>): Outcome<UnidataInfo>
    requires |items| > 0
  {
    var m :- SingletonAttrs(lib, items, "unidata", UnidataKeys);
    var (u, err) := lib.weakUnidata(m);
    if err.Some? then Fail(LibraryError(err.value)) else Ok(u)
  }

  /** parseMongoDB: the MongoDBInfo it stores, or its error. */
  function MongoDBSpec(lib: Library, items: seq<Item>): Outcome<MongoDBInfo>
    requires |items| > 0
  {
    var m :- SingletonAttrs(lib, items, "mongodb", MongoDBKeys);
    var (i, err) := lib.weakMongoDB(m);
    if err.Some? then Fail(LibraryError(err.value)) else Ok(i)
  }

  /** The loop parseProcesses and parseFields share, from the current item
      on, with the names `seen` so far: each item's label is its first key
      (`item.Keys[0]`, which panics on an item without keys); a label seen
      before is rejected as a `kind` defined more than once; otherwise
      `block` turns the label and the body into one result or fails, and
      the results are collected in order. */
  function Named<T>(kind: string, block: (string, Node) -> Outcome<T>, items: seq<Item>, seen: set<string>): Outcome<seq<T>>
    decreases |items|
  {
    if items == [] then Ok([])
    else if |items[0].keys| == 0 then Crash(IndexOutOfRange)
    else
      var n := items[0].keys[0];
      if n in seen then Fail(DefinedMoreThanOnce(kind, n))
      else
        var b :- block(n, items[0].val);
        var rest :- Named(kind, block, items[1..], seen + {n});
        Ok([b] + rest)
  }

  /** One iteration of the loop in parseFields after the duplicate check,
      for the field labelled `n` with body `body`: the key check, the decode,
      the weak decode, and the `type` and `is_multi` lookups with their type
      assertions. */
  function FieldSpec(lib: Library, n: string, body: Node): Outcome<FieldInfo>
  {
    var _ :- PrefixWith("field '" + n + "':", CheckKeys(body, FieldKeys));
    var m :- DecodeAttrs(lib, body);
    var (decoded, err) := lib.weakField(m);
    if err.Some? then Fail(FieldDecode(n, err.value))
    else
      var field := decoded.(name := n);
      if "type" !in m then Fail(MissingFieldType(n))
      else if !m["type"].VString? then Crash(TypeAssertion("string"))
      else
        var field := field.(typeName := m["type"].s);
        if "is_multi" !in m then Ok(field.(isMulti := false))
        else if !m["is_multi"].VBool? then Crash(TypeAssertion("bool"))
        else Ok(field.(isMulti := m["is_multi"].b))
  }

  /** FieldSpec as the block of the parseFields loop. */
  function FieldBlock(lib: Library): (string, Node) -> Outcome<FieldInfo>
  {
    (n, body) => FieldSpec(lib, n, body)
  }

  /** parseInputs: only the first labelled input block is used; no labelled
      block leaves `Input` nil. */
  function InputsSpec(lib: Library, list: seq<Item>): Outcome<Option<InputValue>>
  {
    var children := Children(list);
    if children == [] then Ok(None)
    else
      var item := children[0];
      var key := item.keys[0];
      if !item.val.ObjectType? then Fail(ShouldBeObject(key))
      else
        var m :- DecodeAttrs(lib, item.val);
        var fieldItems := Filter(item.val.list, "field");
        var fields :- if |fieldItems| > 0 then Within("field", Named("field", FieldBlock(lib), fieldItems, {})) else Ok([]);
        Ok(Some(InputValue(ToLower(key), m, fields)))
  }

  /** parseTransforms from the current item on. */
  function TransformsSpec(lib: Library, items: seq<Item>): Outcome<seq<TransformInfo>>
  {
    if items == [] then Ok([])
    else if |items[0].keys| == 0 then Fail(TypeOnly("transforms"))
    else
      var m :- DecodeAttrs(lib, items[0].val);
      var rest :- TransformsSpec(lib, items[1..]);
      Ok([TransformInfo(ToLower(items[0].keys[0]), m)] + rest)
  }

  /** parseOutputs: exactly one labelled output block. */
  function OutputsSpec(lib: Library, list: seq<Item>): Outcome<OutputInfo>
  {
    var children := Children(list);
    if |children| != 1 then Fail(OnlyOneOutput)
    else
      var m :- DecodeAttrs(lib, children[0].val);
      Ok(OutputInfo(ToLower(children[0].keys[0]), m))
  }

  /** One iteration of the loop in parseProcesses after the duplicate check,
      for the process labelled `n` with body `body`. */
  function ProcessSpec(lib: Library, n: string, body: Node): Outcome<ProcessValue>
  {
    var _ :- PrefixWith("process '" + n + "':", CheckKeys(body, ProcessKeys));
    if !body.ObjectType? then Fail(ShouldBeObject(n))
    else
      var listVal := body.list;
      var _ :- DecodeAttrs(lib, body);
      var inputs := Filter(listVal, "input");
      var input :- if |inputs| > 0 then Within("input", InputsSpec(lib, inputs)) else Ok(None);
      var transformItems := Filter(listVal, "transform");
      var transforms :- if |transformItems| > 0 then Within("transform", TransformsSpec(lib, transformItems)) else Ok([]);
      var outputs := Filter(listVal, "output");
      var output :- if |outputs| > 0 then (var o :- Within("output", OutputsSpec(lib, outputs)); Ok(Some(o))) else Ok(None);
      Ok(ProcessValue(n, input, transforms, output))
  }

  /** ProcessSpec as the block of the parseProcesses loop. */
  function ProcessBlock(lib: Library): (string, Node) -> Outcome<ProcessValue>
  {
    (n, body) => ProcessSpec(lib, n, body)
  }

  /** parseProcesses: the labelled process blocks. */
  function ProcessListSpec(lib: Library, list: seq<Item>): Outcome<seq<ProcessValue>>
  {
    Named("process", ProcessBlock(lib), Children(list), {})
  }

  /** The `process` step of Parse (config.go:96-101). */
  function ProcessesPart(lib: Library, list: seq<Item>): Outcome<seq<ProcessValue>>
  {
    var processItems := Filter(list, "process");
    if |processItems| > 0 then Within("process", ProcessListSpec(lib, processItems)) else Ok([])
  }

  /** The `unidata` step of Parse (config.go:104-109). */
  function UnidataPart(lib: Library, list: seq<Item>): Outcome<Option<UnidataInfo>>
  {
    var unidataItems := Filter(list, "unidata");
    if |unidataItems| > 0 then (var u :- Within("unidata", UnidataSpec(lib, unidataItems)); Ok(Some(u)))
    else Ok(None)
  }

  /** The `mongodb` step of Parse (config.go:112-117). */
  function MongoDBPart(lib: Library, list: seq<Item>): Outcome<Option<MongoDBInfo>>
  {
    var mongoItems := Filter(list, "mongodb");
    if |mongoItems| > 0 then (var m :- Within("mongodb", MongoDBSpec(lib, mongoItems)); Ok(Some(m)))
    else Ok(None)
  }

  /** Parse, from the tree hcl.Parse returns: the root must be an object
      list with allowed keys; then processes, unidata and mongodb are parsed
      in that order, and the first failure is the result. */
  function ParseSpec(lib: Library, root: Node): Outcome<ConfigValue>
  {
    if !root.ObjectList? then Fail(NoRootObject)
    else
      var _ :- CheckKeys(root, RootKeys);
      var processes :- ProcessesPart(lib, root.items);
      var unidata :- UnidataPart(lib, root.items);
      var mongoDB :- MongoDBPart(lib, root.items);
      Ok(ConfigValue(processes, unidata, mongoDB))
  }
}
