/** The parse functions of config.go as methods that fill the Config,
    ProcessInfo and InputInfo objects in place, as the Go code does through
    its pointers.

    Each method returns the Go `error` (or the panic) as an Outcome<()> and
    is proved to agree with the ConfigSpec function for the same step. On a
    failure a method leaves the fields the step would have set unchanged,
    with one exception: parseUnidata and parseMongoDB store the struct before
    the weak decode that can fail. */
module ConfigParse {
  import opened Outcomes
  import opened Hcl
  import opened Ascii
  import opened KeyCheck
  import opened ConfigModel
  import opened ConfigSpec

  /** parseFields: one FieldInfo per `field` block, in order; stores them in
      `result.Fields` when every block is accepted. */
  method ParseFields(lib: Library, result: InputInfo, items: seq<Item>) returns (status: Outcome<()>)
    modifies result
    ensures status == Named("field", FieldBlock(lib), items, {}).Status()
    ensures status.Ok? ==> result.fields == Named("field", FieldBlock(lib), items, {}).value
    ensures !status.Ok? ==> result.fields == old(result.fields)
    ensures result.typeName == old(result.typeName) && result.config == old(result.config)
  {
    var collection: seq<FieldInfo> := [];
    var seen: set<string> := {};
    assert items[0..] == items;
    PrependNothing(Named("field", FieldBlock(lib), items, {}));
    for i := 0 to |items|
      invariant Named("field", FieldBlock(lib), items, {}) == Prepend(collection, Named("field", FieldBlock(lib), items[i..], seen))
      invariant unchanged(result)
    {
      var item := items[i];
      assert items[i..][0] == item && items[i..][1..] == items[i + 1..];
      if |item.keys| == 0 {
        return Crash(IndexOutOfRange);
      }
      var n := item.keys[0];
      if n in seen {
        return Fail(DefinedMoreThanOnce("field", n));
      }
      seen := seen + {n};

      var check := CheckHCLKeys(item.val, FieldKeys);
      if !check.Ok? {
        return PrefixWith("field '" + n + "':", check);
      }
      var decoded := lib.decodeObject(item.val);
      if decoded.DecodeError? {
        return Fail(LibraryError(decoded.error));
      }
      var m := decoded.value;
      var (field, err) := lib.weakField(m);
      if err.Some? {
        return Fail(FieldDecode(n, err.value));
      }
      field := field.(name := n);
      if "type" !in m {
        return Fail(MissingFieldType(n));
      }
      if !m["type"].VString? {
        return Crash(TypeAssertion("string"));
      }
      field := field.(typeName := m["type"].s);
      if "is_multi" in m {
        if !m["is_multi"].VBool? {
          return Crash(TypeAssertion("bool"));
        }
        field := field.(isMulti := m["is_multi"].b);
      } else {
        field := field.(isMulti := false);
      }
      assert FieldBlock(lib)(n, item.val) == FieldSpec(lib, n, item.val) == Ok(field);
      PrependPrepend(collection, [field], Named("field", FieldBlock(lib), items[i + 1..], seen));
      collection := collection + [field];
    }
    assert items[|items|..] == [];
    result.fields := collection;
    return Ok(());
  }

  /** parseInputs: decodes the first labelled input block into a new
      InputInfo and stores it in `process.Input`. */
  method ParseInputs(lib: Library, process: ProcessInfo, list: seq<Item>) returns (status: Outcome<()>)
    modifies process
    ensures status == InputsSpec(lib, list).Status()
    ensures status.Ok? && InputsSpec(lib, list).value.Some? ==>
      process.input != null && fresh(process.input) && process.input.View() == InputsSpec(lib, list).value.value
    ensures !(status.Ok? && InputsSpec(lib, list).value.Some?) ==> process.input == old(process.input)
    ensures process.name == old(process.name) && process.transforms == old(process.transforms)
    ensures process.output == old(process.output)
  {
    var children := Children(list);
    if |children| == 0 {
      return Ok(());
    }
    var item := children[0];
    var key := item.keys[0];
    if !item.val.ObjectType? {
      return Fail(ShouldBeObject(key));
    }
    var listVal := item.val.list;
    var decoded := lib.decodeObject(item.val);
    if decoded.DecodeError? {
      return Fail(LibraryError(decoded.error));
    }
    var input := new InputInfo();
    input.typeName := ToLower(key);
    input.config := decoded.value;

    var fieldItems := Filter(listVal, "field");
    if |fieldItems| > 0 {
      var st := ParseFields(lib, input, fieldItems);
      if !st.Ok? {
        return Within("field", st);
      }
    }
    process.input := input;
    return Ok(());
  }

  /** parseTransforms: one TransformInfo per `transform` block, in order;
      stores them in `process.Transforms` when every block is accepted. */
  method ParseTransforms(lib: Library, process: ProcessInfo, items: seq<Item>) returns (status: Outcome<()>)
    modifies process
    ensures status == TransformsSpec(lib, items).Status()
    ensures status.Ok? ==> process.transforms == TransformsSpec(lib, items).value
    ensures !status.Ok? ==> process.transforms == old(process.transforms)
    ensures process.name == old(process.name) && process.input == old(process.input)
    ensures process.output == old(process.output)
  {
    var collection: seq<TransformInfo> := [];
    assert items[0..] == items;
    PrependNothing(TransformsSpec(lib, items));
    for i := 0 to |items|
      invariant TransformsSpec(lib, items) == Prepend(collection, TransformsSpec(lib, items[i..]))
      invariant unchanged(process)
    {
      var item := items[i];
      assert items[i..][0] == item && items[i..][1..] == items[i + 1..];
      if |item.keys| == 0 {
        return Fail(TypeOnly("transforms"));
      }
      var key := item.keys[0];
      var decoded := lib.decodeObject(item.val);
      if decoded.DecodeError? {
        return Fail(LibraryError(decoded.error));
      }
      var c := TransformInfo(ToLower(key), decoded.value);
      PrependPrepend(collection, [c], TransformsSpec(lib, items[i + 1..]));
      collection := collection + [c];
    }
    assert items[|items|..] == [];
    process.transforms := collection;
    return Ok(());
  }

  /** parseOutputs: decodes the single labelled output block and stores it in
      `process.Output`. */
  method ParseOutputs(lib: Library, process: ProcessInfo, list: seq<Item>) returns (status: Outcome<()>)
    modifies process
    ensures status == OutputsSpec(lib, list).Status()
    ensures status.Ok? ==> process.output == Some(OutputsSpec(lib, list).value)
    ensures !status.Ok? ==> process.output == old(process.output)
    ensures process.name == old(process.name) && process.input == old(process.input)
    ensures process.transforms == old(process.transforms)
  {
    var children := Children(list);
    if |children| != 1 {
      return Fail(OnlyOneOutput);
    }
    var item := children[0];
    var key := item.keys[0];
    var decoded := lib.decodeObject(item.val);
    if decoded.DecodeError? {
      return Fail(LibraryError(decoded.error));
    }
    process.output := Some(OutputInfo(ToLower(key), decoded.value));
    return Ok(());
  }

  /** The body of the loop in parseProcesses after the duplicate check
      (config.go:191-239): checks the block and builds a new ProcessInfo. */
  method ParseProcessBlock(lib: Library, n: string, body: Node) returns (process: ProcessInfo?, status: Outcome<()>)
    ensures status == ProcessSpec(lib, n, body).Status()
    ensures process != null <==> status.Ok?
    ensures process != null ==> fresh(process) && process.View() == ProcessSpec(lib, n, body).value
  {
    var check := CheckHCLKeys(body, ProcessKeys);
    if !check.Ok? {
      return null, PrefixWith("process '" + n + "':", check);
    }
    if !body.ObjectType? {
      return null, Fail(ShouldBeObject(n));
    }
    var listVal := body.list;
    var decoded := lib.decodeObject(body);
    if decoded.DecodeError? {
      return null, Fail(LibraryError(decoded.error));
    }

    var p := new ProcessInfo(n);
    var inputs := Filter(listVal, "input");
    if |inputs| > 0 {
      var st := ParseInputs(lib, p, inputs);
      if !st.Ok? {
        return null, Within("input", st);
      }
    }
    var transformItems := Filter(listVal, "transform");
    if |transformItems| > 0 {
      var st := ParseTransforms(lib, p, transformItems);
      if !st.Ok? {
        return null, Within("transform", st);
      }
    }
    var outputs := Filter(listVal, "output");
    if |outputs| > 0 {
      var st := ParseOutputs(lib, p, outputs);
      if !st.Ok? {
        return null, Within("output", st);
      }
    }
    return p, Ok(());
  }

  /** parseProcesses: one new ProcessInfo per labelled process block, in
      order; stores them in `result.Processes` when every block is accepted. */
  method ParseProcesses(lib: Library, result: Config, list: seq<Item>) returns (status: Outcome<()>)
    modifies result
    ensures status == ProcessListSpec(lib, list).Status()
    ensures status.Ok? && |Children(list)| > 0 ==>
      |result.processes| == |ProcessListSpec(lib, list).value| &&
      forall j :: 0 <= j < |result.processes| ==> result.processes[j].View() == ProcessListSpec(lib, list).value[j]
    ensures !(status.Ok? && |Children(list)| > 0) ==> result.processes == old(result.processes)
    ensures result.unidata == old(result.unidata) && result.mongoDB == old(result.mongoDB)
  {
    var children := Children(list);
    if |children| == 0 {
      return Ok(());
    }
    var collection: seq<ProcessInfo> := [];
    ghost var views: seq<ProcessValue> := [];
    var seen: set<string> := {};
    assert children[0..] == children;
    PrependNothing(Named("process", ProcessBlock(lib), children, {}));
    for i := 0 to |children|
      invariant |collection| == |views|
      invariant forall j :: 0 <= j < |collection| ==> collection[j].View() == views[j]
      invariant Named("process", ProcessBlock(lib), children, {}) == Prepend(views, Named("process", ProcessBlock(lib), children[i..], seen))
      invariant unchanged(result)
    {
      var item := children[i];
      assert children[i..][0] == item && children[i..][1..] == children[i + 1..];
      var n := item.keys[0];
      if n in seen {
        return Fail(DefinedMoreThanOnce("process", n));
      }
      seen := seen + {n};

      label Before:
      var process, st := ParseProcessBlock(lib, n, item.val);
      assert forall j :: 0 <= j < |collection| ==> collection[j].View() == old@Before(collection[j].View());
      if !st.Ok? {
        return st;
      }
      assert ProcessBlock(lib)(n, item.val) == ProcessSpec(lib, n, item.val);
      PrependPrepend(views, [process.View()], Named("process", ProcessBlock(lib), children[i + 1..], seen));
      ghost var before := collection;
      collection := collection + [process];
      views := views + [process.View()];
      forall j | 0 <= j < |collection| ensures collection[j].View() == views[j] {
        if j < |before| {
          assert collection[j] == before[j];
        }
      }
    }
    assert children[|children|..] == [];
    result.processes := collection;
    return Ok(());
  }

  /** The shared first half of parseUnidata and parseMongoDB
      (config.go:124-140 and 149-165). */
  method SingletonBlockAttrs(lib: Library, items: seq<Item>, keyword: string, valid: seq<string>)
    returns (r: Outcome<Attrs>)
    requires |items| > 0
    ensures r == SingletonAttrs(lib, items, keyword, valid)
    ensures |items| > 1 ==> r == Fail(OnlyOneBlock(keyword))
    ensures r.Ok? <==>
      |items| == 1 && CheckKeys(items[0].val, valid).Ok? && lib.decodeObject(items[0].val).Decoded?
    ensures r.Ok? ==> r.value == lib.decodeObject(items[0].val).value
    ensures |items| == 1 && CheckKeys(items[0].val, valid).Fail? ==>
      r == Fail(Prefixed(keyword + ":", CheckKeys(items[0].val, valid).error))
    ensures |items| == 1 && CheckKeys(items[0].val, valid).Crash? ==>
      r == Crash(CheckKeys(items[0].val, valid).panic)
    ensures |items| == 1 && CheckKeys(items[0].val, valid).Ok? && lib.decodeObject(items[0].val).DecodeError? ==>
      r == Fail(LibraryError(lib.decodeObject(items[0].val).error))
  {
    if |items| > 1 {
      return Fail(OnlyOneBlock(keyword));
    }
    var item := items[0];
    var check := CheckHCLKeys(item.val, valid);
    if !check.Ok? {
      var p := PrefixWith(keyword + ":", check);
      return p.PropagateFailure();
    }
    var decoded := lib.decodeObject(item.val);
    if decoded.DecodeError? {
      return Fail(LibraryError(decoded.error));
    }
    return Ok(decoded.value);
  }

  /** parseUnidata. Its caller only calls it with at least one block. */
  method ParseUnidata(lib: Library, result: Config, items: seq<Item>) returns (status: Outcome<()>)
    requires |items| > 0
    modifies result
    ensures status == UnidataSpec(lib, items).Status()
    ensures var m := SingletonAttrs(lib, items, "unidata", UnidataKeys);
      result.unidata == if m.Ok? then Some(lib.weakUnidata(m.value).0) else old(result.unidata)
    ensures result.processes == old(result.processes) && result.mongoDB == old(result.mongoDB)
  {
    var m := SingletonBlockAttrs(lib, items, "unidata", UnidataKeys);
    if !m.Ok? {
      return m.Status();
    }
    var (u, err) := lib.weakUnidata(m.value);
    result.unidata := Some(u);
    if err.Some? {
      return Fail(LibraryError(err.value));
    }
    return Ok(());
  }

  /** parseMongoDB. Its caller only calls it with at least one block. */
  method ParseMongoDB(lib: Library, result: Config, items: seq<Item>) returns (status: Outcome<()>)
    requires |items| > 0
    modifies result
    ensures status == MongoDBSpec(lib, items).Status()
    ensures var m := SingletonAttrs(lib, items, "mongodb", MongoDBKeys);
      result.mongoDB == if m.Ok? then Some(lib.weakMongoDB(m.value).0) else old(result.mongoDB)
    ensures result.processes == old(result.processes) && result.unidata == old(result.unidata)
  {
    var m := SingletonBlockAttrs(lib, items, "mongodb", MongoDBKeys);
    if !m.Ok? {
      return m.Status();
    }
    var (i, err) := lib.weakMongoDB(m.value);
    result.mongoDB := Some(i);
    if err.Some? {
      return Fail(LibraryError(err.value));
    }
    return Ok(());
  }

  /** The unidata and mongodb steps of Parse (config.go:103-117), in that
      order, each run only when its blocks are present. */
  method ParseSettings(lib: Library, result: Config, list: seq<Item>) returns (status: Outcome<()>)
    requires result.unidata == None && result.mongoDB == None
    modifies result
    ensures status == (if UnidataPart(lib, list).Ok? then MongoDBPart(lib, list).Status() else UnidataPart(lib, list).Status())
    ensures status.Ok? ==> result.unidata == UnidataPart(lib, list).value && result.mongoDB == MongoDBPart(lib, list).value
    ensures result.processes == old(result.processes)
  {
    var unidataItems := Filter(list, "unidata");
    if |unidataItems| > 0 {
      var st := ParseUnidata(lib, result, unidataItems);
      if !st.Ok? {
        return Within("unidata", st);
      }
    }
    var mongoItems := Filter(list, "mongodb");
    if |mongoItems| > 0 {
      var st := ParseMongoDB(lib, result, mongoItems);
      if !st.Ok? {
        return Within("mongodb", st);
      }
    }
    return Ok(());
  }

  /** Parse, from the tree hcl.Parse returns: a new Config on success, nil
      with the first error otherwise. */
  method Parse(lib: Library, root: Node) returns (config: Config?, status: Outcome<()>)
    ensures status == ParseSpec(lib, root).Status()
    ensures config != null <==> status.Ok?
    ensures config != null ==>
      var spec := ParseSpec(lib, root).value;
      && fresh(config)
      && config.unidata == spec.unidata
      && config.mongoDB == spec.mongoDB
      && |config.processes| == |spec.processes|
      && forall j :: 0 <= j < |config.processes| ==> config.processes[j].View() == spec.processes[j]
  {
    if !root.ObjectList? {
      return null, Fail(NoRootObject);
    }
    var list := root.items;
    var check := CheckHCLKeys(root, RootKeys);
    if !check.Ok? {
      return null, check;
    }

    var result := new Config();
    var processItems := Filter(list, "process");
    if |processItems| > 0 {
      var st := ParseProcesses(lib, result, processItems);
      if !st.Ok? {
        return null, Within("process", st);
      }
    }
    label Processed:
    var st := ParseSettings(lib, result, list);
    if !st.Ok? {
      return null, st;
    }
    assert forall j :: 0 <= j < |result.processes| ==>
      result.processes[j].View() == old@Processed(result.processes[j].View());
    return result, Ok(());
  }
}
