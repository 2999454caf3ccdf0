/** What the decoder promises, stated over the ConfigSpec functions that the
    ConfigParse methods are proved to compute. */
module ConfigProperties {
  import opened Outcomes
  import opened Hcl
  import opened Ascii
  import opened KeyCheck
  import opened ConfigModel
  import opened ConfigSpec

  /** Every key of a node that passed checkHCLKeys is on the allow-list. */
  predicate KeysWithin(node: Node, valid: seq<string>)
  {
    && CheckedItems(node).Some?
    && AllKeyed(CheckedItems(node).value)
    && forall i :: 0 <= i < |CheckedItems(node).value| ==> CheckedItems(node).value[i].keys[0] in valid
  }

  // ---------------------------------------------------------------------
  // The loop of parseProcesses and parseFields

  /** An accepted loop: every item has a label; there is one result per
      item, in order, each the block's result for that item; the labels are
      pairwise distinct and none was seen before. */
  lemma {:induction false} NamedOk<T>(kind: string, block: (string, Node) -> Outcome<T>, items: seq<Item>, seen: set<string>)
    requires Named(kind, block, items, seen).Ok?
    ensures AllKeyed(items)
    ensures var rs := Named(kind, block, items, seen).value;
      && |rs| == |items|
      && (forall i :: 0 <= i < |items| ==> block(items[i].keys[0], items[i].val) == Ok(rs[i]) && items[i].keys[0] !in seen)
      && (forall i, j :: 0 <= i < j < |items| ==> items[i].keys[0] != items[j].keys[0])
    decreases |items|
  {
    if items != [] {
      var n := items[0].keys[0];
      var tail := items[1..];
      NamedOk(kind, block, tail, seen + {n});
      var rs := Named(kind, block, items, seen).value;
      var rest := Named(kind, block, tail, seen + {n}).value;
      assert rs == [block(n, items[0].val).value] + rest;
      forall i | 0 < i < |items|
        ensures items[i] == tail[i - 1] && rs[i] == rest[i - 1]
      {
      }
    }
  }

  /** The converse of NamedOk: a list whose items all have a label, whose
      labels are pairwise distinct and new, and whose blocks all succeed is
      accepted. */
  lemma {:induction false} NamedAccepts<T>(kind: string, block: (string, Node) -> Outcome<T>, items: seq<Item>, seen: set<string>)
    requires AllKeyed(items)
    requires forall i :: 0 <= i < |items| ==> block(items[i].keys[0], items[i].val).Ok? && items[i].keys[0] !in seen
    requires forall i, j :: 0 <= i < j < |items| ==> items[i].keys[0] != items[j].keys[0]
    ensures Named(kind, block, items, seen).Ok?
    decreases |items|
  {
    if items != [] {
      var n := items[0].keys[0];
      var tail := items[1..];
      assert AllKeyed(tail) by {
        forall i | 0 <= i < |tail| ensures |tail[i].keys| > 0 {
          assert tail[i] == items[i + 1];
        }
      }
      forall i | 0 <= i < |tail|
        ensures block(tail[i].keys[0], tail[i].val).Ok? && tail[i].keys[0] !in seen + {n}
      {
        assert tail[i] == items[i + 1];
      }
      forall i, j | 0 <= i < j < |tail|
        ensures tail[i].keys[0] != tail[j].keys[0]
      {
        assert tail[i] == items[i + 1] && tail[j] == items[j + 1];
      }
      NamedAccepts(kind, block, tail, seen + {n});
    }
  }

  /** Once the items before it are accepted under distinct new labels, an
      item that repeats one of those labels (or one seen before) is
      rejected there, naming it. */
  lemma {:induction false} NamedRejectsRepeat<T>(kind: string, block: (string, Node) -> Outcome<T>, items: seq<Item>, seen: set<string>, j: nat)
    requires j < |items| && AllKeyed(items)
    requires forall i :: 0 <= i < j ==> block(items[i].keys[0], items[i].val).Ok? && items[i].keys[0] !in seen
    requires forall i, k :: 0 <= i < k < j ==> items[i].keys[0] != items[k].keys[0]
    requires items[j].keys[0] in seen || exists i :: 0 <= i < j && items[i].keys[0] == items[j].keys[0]
    ensures Named(kind, block, items, seen) == Fail(DefinedMoreThanOnce(kind, items[j].keys[0]))
    decreases j
  {
    if j > 0 {
      var n := items[0].keys[0];
      var tail := items[1..];
      assert forall i :: 0 <= i < |tail| ==> tail[i] == items[i + 1];
      var name := items[j].keys[0];
      if name !in seen + {n} {
        var i :| 0 <= i < j && items[i].keys[0] == name;
        assert i > 0 && tail[i - 1] == items[i];
      }
      forall i | 0 <= i < j - 1
        ensures block(tail[i].keys[0], tail[i].val).Ok? && tail[i].keys[0] !in seen + {n}
      {
        assert tail[i] == items[i + 1];
      }
      NamedRejectsRepeat(kind, block, tail, seen + {n}, j - 1);
      assert n !in seen && block(n, items[0].val).Ok?;
    }
  }

  /** An item without a label makes `item.Keys[0]` panic once the items
      before it are accepted. */
  lemma {:induction false} NamedUnlabelledPanics<T>(kind: string, block: (string, Node) -> Outcome<T>, items: seq<Item>, seen: set<string>, j: nat)
    requires j < |items| && |items[j].keys| == 0
    requires forall i :: 0 <= i < j ==> |items[i].keys| > 0
    requires forall i :: 0 <= i < j ==> block(items[i].keys[0], items[i].val).Ok? && items[i].keys[0] !in seen
    requires forall i, k :: 0 <= i < k < j ==> items[i].keys[0] != items[k].keys[0]
    ensures Named(kind, block, items, seen) == Crash(IndexOutOfRange)
    decreases j
  {
    if j > 0 {
      var n := items[0].keys[0];
      var tail := items[1..];
      assert forall i :: 0 <= i < |tail| ==> tail[i] == items[i + 1];
      forall i | 0 <= i < j - 1
        ensures block(tail[i].keys[0], tail[i].val).Ok? && tail[i].keys[0] !in seen + {n}
      {
        assert tail[i] == items[i + 1];
      }
      NamedUnlabelledPanics(kind, block, tail, seen + {n}, j - 1);
      assert n !in seen && block(n, items[0].val).Ok?;
    }
  }

  // ---------------------------------------------------------------------
  // parseFields

  /** An accepted field block: its name is the label, whatever the weak
      decode produced; its keys are `type` and `is_multi` only; its type is
      the string under `type`; `is_multi` is false unless given as true. */
  lemma FieldSpecOk(lib: Library, n: string, body: Node)
    requires FieldSpec(lib, n, body).Ok?
    ensures KeysWithin(body, FieldKeys)
    ensures lib.decodeObject(body).Decoded?
    ensures var m := lib.decodeObject(body).value;
      var f := FieldSpec(lib, n, body).value;
      && lib.weakField(m).1.None?
      && f.name == n
      && "type" in m && m["type"] == VString(f.typeName)
      && f.isMulti == ("is_multi" in m && m["is_multi"] == VBool(true))
  {
    CheckKeysOkIff(body, FieldKeys);
  }

  /** The converse of FieldSpecOk: a field block with allowed keys that
      decodes, whose weak decode reports no error, with a string `type` and
      an `is_multi` that is absent or a bool, is accepted. */
  lemma FieldSpecAccepts(lib: Library, n: string, body: Node)
    requires KeysWithin(body, FieldKeys)
    requires lib.decodeObject(body).Decoded?
    requires var m := lib.decodeObject(body).value;
      && lib.weakField(m).1.None?
      && "type" in m && m["type"].VString?
      && ("is_multi" in m ==> m["is_multi"].VBool?)
    ensures FieldSpec(lib, n, body).Ok?
  {
    CheckKeysOkIff(body, FieldKeys);
  }

  /** An allowed, decodable field block without `type` is rejected, naming
      the field. */
  lemma FieldSpecRequiresType(lib: Library, n: string, body: Node)
    requires KeysWithin(body, FieldKeys)
    requires lib.decodeObject(body).Decoded?
    requires lib.weakField(lib.decodeObject(body).value).1.None?
    requires "type" !in lib.decodeObject(body).value
    ensures FieldSpec(lib, n, body) == Fail(MissingFieldType(n))
  {
    CheckKeysOkIff(body, FieldKeys);
  }

  /** A `type` that is not a string, or an `is_multi` that is not a bool,
      makes the type assertion panic. */
  lemma FieldSpecAssertionPanics(lib: Library, n: string, body: Node)
    requires KeysWithin(body, FieldKeys)
    requires lib.decodeObject(body).Decoded?
    requires var m := lib.decodeObject(body).value;
      && lib.weakField(m).1.None?
      && "type" in m
      && (!m["type"].VString? || ("is_multi" in m && !m["is_multi"].VBool?))
    ensures FieldSpec(lib, n, body).Crash? && FieldSpec(lib, n, body).panic.TypeAssertion?
  {
    CheckKeysOkIff(body, FieldKeys);
  }

  /** The value the weak decode writes into the FieldInfo is overwritten:
      two libraries that decode alike and whose weak decodes fail alike give
      the same outcome. */
  lemma FieldSpecIgnoresWeakValue(lib1: Library, lib2: Library, n: string, body: Node)
    requires lib1.decodeObject(body) == lib2.decodeObject(body)
    requires forall m :: lib1.weakField(m).1 == lib2.weakField(m).1
    ensures FieldSpec(lib1, n, body) == FieldSpec(lib2, n, body)
  {
    if lib1.decodeObject(body).Decoded? {
      var m := lib1.decodeObject(body).value;
      assert lib1.weakField(m).1 == lib2.weakField(m).1;
    }
  }

  /** Accepted field blocks: one FieldInfo per block, in order, each named
      by its block's label, the labels pairwise distinct. */
  lemma FieldsOk(lib: Library, items: seq<Item>)
    requires Named("field", FieldBlock(lib), items, {}).Ok?
    ensures AllKeyed(items)
    ensures var fs := Named("field", FieldBlock(lib), items, {}).value;
      && |fs| == |items|
      && (forall i :: 0 <= i < |items| ==> FieldSpec(lib, items[i].keys[0], items[i].val) == Ok(fs[i]) && fs[i].name == items[i].keys[0])
      && (forall i, j :: 0 <= i < j < |items| ==> items[i].keys[0] != items[j].keys[0])
  {
    NamedOk("field", FieldBlock(lib), items, {});
    var fs := Named("field", FieldBlock(lib), items, {}).value;
    forall i | 0 <= i < |items|
      ensures FieldSpec(lib, items[i].keys[0], items[i].val) == Ok(fs[i]) && fs[i].name == items[i].keys[0]
    {
      assert FieldBlock(lib)(items[i].keys[0], items[i].val) == Ok(fs[i]);
      FieldSpecOk(lib, items[i].keys[0], items[i].val);
    }
  }

  /** The converse of FieldsOk: labelled field blocks with distinct labels,
      each accepted, are accepted together. */
  lemma FieldsAccepted(lib: Library, items: seq<Item>)
    requires AllKeyed(items)
    requires forall i :: 0 <= i < |items| ==> FieldSpec(lib, items[i].keys[0], items[i].val).Ok?
    requires forall i, j :: 0 <= i < j < |items| ==> items[i].keys[0] != items[j].keys[0]
    ensures Named("field", FieldBlock(lib), items, {}).Ok?
  {
    forall i | 0 <= i < |items|
      ensures FieldBlock(lib)(items[i].keys[0], items[i].val).Ok? && items[i].keys[0] !in {}
    {
    }
    NamedAccepts("field", FieldBlock(lib), items, {});
  }

  // ---------------------------------------------------------------------
  // parseTransforms

  /** Every transform block is accepted exactly when each has a label and
      decodes; the result keeps their order, repeats included, each with the
      lower-cased label as type and the decoded map as config. */
  lemma {:induction false} TransformsSpecOk(lib: Library, items: seq<Item>)
    ensures TransformsSpec(lib, items).Ok? <==>
      forall i :: 0 <= i < |items| ==> |items[i].keys| > 0 && lib.decodeObject(items[i].val).Decoded?
    ensures TransformsSpec(lib, items).Ok? ==>
      var ts := TransformsSpec(lib, items).value;
      && |ts| == |items|
      && forall i :: 0 <= i < |items| ==>
           ts[i] == TransformInfo(ToLower(items[i].keys[0]), lib.decodeObject(items[i].val).value)
    decreases |items|
  {
    if items != [] {
      TransformsSpecOk(lib, items[1..]);
      forall i | 0 < i < |items| ensures items[i] == items[1..][i - 1] { }
    }
  }

  /** The first transform block without a label (the ones before it being
      accepted) is rejected. */
  lemma {:induction false} TransformsSpecUnlabelled(lib: Library, items: seq<Item>, j: nat)
    requires j < |items| && |items[j].keys| == 0
    requires forall i :: 0 <= i < j ==> |items[i].keys| > 0 && lib.decodeObject(items[i].val).Decoded?
    ensures TransformsSpec(lib, items) == Fail(TypeOnly("transforms"))
    decreases j
  {
    if j > 0 {
      var tail := items[1..];
      assert forall i :: 0 <= i < |tail| ==> tail[i] == items[i + 1];
      TransformsSpecUnlabelled(lib, tail, j - 1);
    }
  }

  // ---------------------------------------------------------------------
  // parseOutputs

  /** An output list with no labelled block is rejected. */
  lemma OutputsSpecNone(lib: Library, list: seq<Item>)
    requires forall i :: 0 <= i < |list| ==> |list[i].keys| == 0
    ensures OutputsSpec(lib, list) == Fail(OnlyOneOutput)
  {
    ChildrenEmpty(list);
  }

  /** An output list with two labelled blocks is rejected. */
  lemma OutputsSpecTwo(lib: Library, list: seq<Item>, i: nat, j: nat)
    requires i < j < |list| && |list[i].keys| > 0 && |list[j].keys| > 0
    ensures OutputsSpec(lib, list) == Fail(OnlyOneOutput)
  {
    ChildrenAtLeastTwo(list, i, j);
  }

  /** An accepted output list has exactly one labelled block; the output is
      its lower-cased label and its decoded map. */
  lemma OutputsSpecOk(lib: Library, list: seq<Item>)
    requires OutputsSpec(lib, list).Ok?
    ensures exists k ::
      && 0 <= k < |list| && |list[k].keys| > 0
      && (forall i :: 0 <= i < |list| && i != k ==> |list[i].keys| == 0)
      && lib.decodeObject(list[k].val).Decoded?
      && OutputsSpec(lib, list).value == OutputInfo(ToLower(list[k].keys[0]), lib.decodeObject(list[k].val).value)
  {
    var c := Children(list)[0];
    ChildrenMembers(list);
    assert c in Children(list);
    var k :| 0 <= k < |list| && list[k] == c;
    forall i | 0 <= i < |list| && i != k ensures |list[i].keys| == 0 {
      if |list[i].keys| > 0 {
        if i < k {
          ChildrenAtLeastTwo(list, i, k);
        } else {
          ChildrenAtLeastTwo(list, k, i);
        }
      }
    }
  }

  /** The converse of OutputsSpecOk: an output list with exactly one
      labelled block, which decodes, is accepted. */
  lemma OutputsSpecAccepts(lib: Library, list: seq<Item>, k: nat)
    requires k < |list| && |list[k].keys| > 0
    requires forall i :: 0 <= i < |list| && i != k ==> |list[i].keys| == 0
    requires lib.decodeObject(list[k].val).Decoded?
    ensures OutputsSpec(lib, list).Ok?
  {
    ChildrenOnly(list, k);
  }

  // ---------------------------------------------------------------------
  // parseInputs

  /** The input is left nil, with no error, exactly when no input block
      carries a label. */
  lemma InputsSpecNone(lib: Library, list: seq<Item>)
    ensures InputsSpec(lib, list) == Ok(None) <==> forall i :: 0 <= i < |list| ==> |list[i].keys| == 0
  {
    ChildrenEmpty(list);
  }

  /** Only the first labelled input block counts: the outcome is the one
      that block alone gives, and on success the type is its lower-cased
      label and the config its decoded map. */
  lemma InputsSpecFirstLabelled(lib: Library, list: seq<Item>, k: nat)
    requires k < |list| && |list[k].keys| > 0
    requires forall i :: 0 <= i < k ==> |list[i].keys| == 0
    ensures InputsSpec(lib, list) == InputsSpec(lib, [list[k]])
    ensures InputsSpec(lib, list).Ok? ==>
      && InputsSpec(lib, list).value.Some?
      && list[k].val.ObjectType?
      && lib.decodeObject(list[k].val).Decoded?
      && InputsSpec(lib, list).value.value.typeName == ToLower(list[k].keys[0])
      && InputsSpec(lib, list).value.value.config == lib.decodeObject(list[k].val).value
    ensures InputsSpec(lib, list).Ok? ==>
      var fi := Filter(list[k].val.list, "field");
      && (fi != [] ==> Named("field", FieldBlock(lib), fi, {}).Ok?)
      && InputsSpec(lib, list).value.value.fields ==
           if fi == [] then [] else Named("field", FieldBlock(lib), fi, {}).value
  {
    ChildrenFirst(list, k);
    ChildrenFirst([list[k]], 0);
  }

  // ---------------------------------------------------------------------
  // parseUnidata and parseMongoDB

  /** More than one unidata block is rejected before anything is decoded. */
  lemma UnidataSpecTwoBlocks(lib: Library, items: seq<Item>)
    requires |items| >= 2
    ensures UnidataSpec(lib, items) == Fail(OnlyOneBlock("unidata"))
  {
  }

  /** More than one mongodb block is rejected before anything is decoded. */
  lemma MongoDBSpecTwoBlocks(lib: Library, items: seq<Item>)
    requires |items| >= 2
    ensures MongoDBSpec(lib, items) == Fail(OnlyOneBlock("mongodb"))
  {
  }

  /** An accepted unidata block is the only one, uses only the keys host,
      username, password and udt_bin, and is what the weak decode makes of
      its decoded map. */
  lemma UnidataSpecOk(lib: Library, items: seq<Item>)
    requires |items| > 0 && UnidataSpec(lib, items).Ok?
    ensures |items| == 1 && KeysWithin(items[0].val, UnidataKeys)
    ensures lib.decodeObject(items[0].val).Decoded?
    ensures lib.weakUnidata(lib.decodeObject(items[0].val).value) == (UnidataSpec(lib, items).value, None)
  {
    CheckKeysOkIff(items[0].val, UnidataKeys);
  }

  /** An accepted mongodb block is the only one, uses only the keys server
      and database, and is what the weak decode makes of its decoded map. */
  lemma MongoDBSpecOk(lib: Library, items: seq<Item>)
    requires |items| > 0 && MongoDBSpec(lib, items).Ok?
    ensures |items| == 1 && KeysWithin(items[0].val, MongoDBKeys)
    ensures lib.decodeObject(items[0].val).Decoded?
    ensures lib.weakMongoDB(lib.decodeObject(items[0].val).value) == (MongoDBSpec(lib, items).value, None)
  {
    CheckKeysOkIff(items[0].val, MongoDBKeys);
  }

  // ---------------------------------------------------------------------
  // parseProcesses

  /** No labelled block under `keyword` exactly when every item under it
      has nothing after the keyword. */
  lemma {:induction false} NoLabelledBlock(list: seq<Item>, keyword: string)
    ensures Children(Filter(list, keyword)) == [] <==>
      forall i :: 0 <= i < |list| && Matches(list[i], keyword) ==> |list[i].keys| == 1
    decreases |list|
  {
    if list != [] {
      NoLabelledBlock(list[1..], keyword);
      forall i | 0 < i < |list| ensures list[i] == list[1..][i - 1] { }
      if Matches(list[0], keyword) {
        assert Filter(list, keyword) == [Stripped(list[0])] + Filter(list[1..], keyword);
      }
    }
  }

  /** An accepted process block is an object using only the keys input,
      output and transform. */
  lemma ProcessSpecKeys(lib: Library, n: string, body: Node)
    requires ProcessSpec(lib, n, body).Ok?
    ensures body.ObjectType? && KeysWithin(body, ProcessKeys)
  {
    CheckKeysOkIff(body, ProcessKeys);
  }

  /** What a process block needs to be accepted: an object body with only
      the process keys that decodes, and an input, transform and output step
      that succeed, each where its blocks are present. A missing step asks
      for nothing. */
  predicate ProcessAccepts(lib: Library, body: Node)
  {
    && body.ObjectType?
    && CheckKeys(body, ProcessKeys).Ok?
    && lib.decodeObject(body).Decoded?
    && (Filter(body.list, "input") != [] ==> InputsSpec(lib, Filter(body.list, "input")).Ok?)
    && (Filter(body.list, "transform") != [] ==> TransformsSpec(lib, Filter(body.list, "transform")).Ok?)
    && (Filter(body.list, "output") != [] ==> OutputsSpec(lib, Filter(body.list, "output")).Ok?)
  }

  /** A process block is accepted exactly when ProcessAccepts holds. */
  lemma ProcessSpecOkIff(lib: Library, n: string, body: Node)
    ensures ProcessSpec(lib, n, body).Ok? <==> ProcessAccepts(lib, body)
  {
    if CheckKeys(body, ProcessKeys).Ok? {
      CheckKeysOkIff(body, ProcessKeys);
    }
  }

  /** A process block whose present steps succeed is accepted, and a missing
      block does not stop it: the input is nil exactly when there is no
      labelled input block, and the output is nil exactly when there is no
      output block. There are no transforms exactly when there is no
      transform block. */
  lemma ProcessSpecParts(lib: Library, n: string, body: Node)
    requires ProcessAccepts(lib, body)
    ensures ProcessSpec(lib, n, body).Ok?
    ensures var p := ProcessSpec(lib, n, body).value;
      var list := body.list;
      && (p.input.None? <==> Children(Filter(list, "input")) == [])
      && (p.output.None? <==> Filter(list, "output") == [])
      && (p.transforms == [] <==> Filter(list, "transform") == [])
  {
    ProcessSpecOkIff(lib, n, body);
    var transformItems := Filter(body.list, "transform");
    if transformItems != [] {
      TransformsSpecOk(lib, transformItems);
    }
  }

  /** An accepted process block is named by its label. */
  lemma ProcessSpecName(lib: Library, n: string, body: Node)
    requires ProcessSpec(lib, n, body).Ok?
    ensures ProcessSpec(lib, n, body).value.name == n
  {
  }

  /** Accepted process blocks: one process per block, in order, each named
      by its block's label, the labels pairwise distinct. */
  lemma ProcessesOk(lib: Library, items: seq<Item>)
    requires Named("process", ProcessBlock(lib), items, {}).Ok?
    ensures AllKeyed(items)
    ensures var ps := Named("process", ProcessBlock(lib), items, {}).value;
      && |ps| == |items|
      && (forall i :: 0 <= i < |items| ==> ProcessSpec(lib, items[i].keys[0], items[i].val) == Ok(ps[i]) && ps[i].name == items[i].keys[0])
      && (forall i, j :: 0 <= i < j < |items| ==> items[i].keys[0] != items[j].keys[0])
  {
    NamedOk("process", ProcessBlock(lib), items, {});
    var ps := Named("process", ProcessBlock(lib), items, {}).value;
    forall i | 0 <= i < |items|
      ensures ProcessSpec(lib, items[i].keys[0], items[i].val) == Ok(ps[i]) && ps[i].name == items[i].keys[0]
    {
      assert ProcessBlock(lib)(items[i].keys[0], items[i].val) == Ok(ps[i]);
      ProcessSpecName(lib, items[i].keys[0], items[i].val);
    }
  }

  /** The converse of ProcessesOk: labelled process blocks with distinct
      labels, each accepted, are accepted together. */
  lemma ProcessesAccepted(lib: Library, items: seq<Item>)
    requires AllKeyed(items)
    requires forall i :: 0 <= i < |items| ==> ProcessSpec(lib, items[i].keys[0], items[i].val).Ok?
    requires forall i, j :: 0 <= i < j < |items| ==> items[i].keys[0] != items[j].keys[0]
    ensures Named("process", ProcessBlock(lib), items, {}).Ok?
  {
    forall i | 0 <= i < |items|
      ensures ProcessBlock(lib)(items[i].keys[0], items[i].val).Ok? && items[i].keys[0] !in {}
    {
    }
    NamedAccepts("process", ProcessBlock(lib), items, {});
  }

  // ---------------------------------------------------------------------
  // Parse

  /** A root key other than process, unidata and mongodb rejects the file,
      with an error that lists that key on its line. */
  lemma ParseRejectsRootKey(lib: Library, root: Node, i: nat)
    requires root.ObjectList? && AllKeyed(root.items)
    requires i < |root.items| && root.items[i].keys[0] !in RootKeys
    ensures ParseSpec(lib, root).Fail? && ParseSpec(lib, root).error.InvalidKeys?
    ensures KeyErrorOf(root.items[i]) in ParseSpec(lib, root).error.errors
  {
    InvalidKeyErrorsComplete(root.items, RootKeys);
  }

  /** Processes are parsed first: a failing process step is the result,
      whatever the unidata and mongodb blocks hold. */
  lemma ParseProcessErrorFirst(lib: Library, root: Node)
    requires root.ObjectList? && CheckKeys(root, RootKeys).Ok?
    requires |Filter(root.items, "process")| > 0
    requires !ProcessListSpec(lib, Filter(root.items, "process")).Ok?
    ensures var p := ProcessListSpec(lib, Filter(root.items, "process"));
      && (p.Fail? ==> ParseSpec(lib, root) == Fail(Wrapped("process", p.error)))
      && (p.Crash? ==> ParseSpec(lib, root) == Crash(p.panic))
  {
  }

  /** Unidata comes second: with the processes accepted, a failing unidata
      step (two blocks, a bad key, a decode or weak-decode error, or a panic)
      is the result, whatever the mongodb blocks hold. */
  lemma ParseUnidataFailure(lib: Library, root: Node)
    requires root.ObjectList? && CheckKeys(root, RootKeys).Ok?
    requires ProcessesPart(lib, root.items).Ok?
    requires |Filter(root.items, "unidata")| > 0
    requires !UnidataSpec(lib, Filter(root.items, "unidata")).Ok?
    ensures var u := UnidataSpec(lib, Filter(root.items, "unidata"));
      && (u.Fail? ==> ParseSpec(lib, root) == Fail(Wrapped("unidata", u.error)))
      && (u.Crash? ==> ParseSpec(lib, root) == Crash(u.panic))
  {
  }

  /** Mongodb comes last: with processes and unidata accepted, a failing
      mongodb step is the result. */
  lemma ParseMongoDBFailure(lib: Library, root: Node)
    requires root.ObjectList? && CheckKeys(root, RootKeys).Ok?
    requires ProcessesPart(lib, root.items).Ok? && UnidataPart(lib, root.items).Ok?
    requires |Filter(root.items, "mongodb")| > 0
    requires !MongoDBSpec(lib, Filter(root.items, "mongodb")).Ok?
    ensures var m := MongoDBSpec(lib, Filter(root.items, "mongodb"));
      && (m.Fail? ==> ParseSpec(lib, root) == Fail(Wrapped("mongodb", m.error)))
      && (m.Crash? ==> ParseSpec(lib, root) == Crash(m.panic))
  {
  }

  /** An accepted file: the root is an object list using only the root keys,
      and each labelled process block became one process, in order, named by
      its label, with distinct names. */
  lemma ParseOkProcesses(lib: Library, root: Node)
    requires ParseSpec(lib, root).Ok?
    ensures root.ObjectList? && KeysWithin(root, RootKeys)
    ensures var blocks := Children(Filter(root.items, "process"));
      var ps := ParseSpec(lib, root).value.processes;
      && |ps| == |blocks|
      && (forall i :: 0 <= i < |blocks| ==> ProcessSpec(lib, blocks[i].keys[0], blocks[i].val) == Ok(ps[i]) && ps[i].name == blocks[i].keys[0])
      && (forall i, j :: 0 <= i < j < |blocks| ==> blocks[i].keys[0] != blocks[j].keys[0])
  {
    CheckKeysOkIff(root, RootKeys);
    var processItems := Filter(root.items, "process");
    if |processItems| > 0 {
      ProcessesOk(lib, Children(processItems));
    } else {
      assert Children(processItems) == [];
    }
  }

  /** An accepted file has unidata exactly when it has a unidata block; then
      it has only that one, using only the unidata keys, and the stored
      unidata is what that block parses to. The same holds for mongodb. */
  lemma ParseOkSettings(lib: Library, root: Node)
    requires ParseSpec(lib, root).Ok?
    ensures var c := ParseSpec(lib, root).value;
      var us := Filter(root.items, "unidata");
      && (c.unidata.Some? <==> us != [])
      && (us != [] ==> |us| == 1 && KeysWithin(us[0].val, UnidataKeys))
      && (us != [] ==> UnidataSpec(lib, us) == Ok(c.unidata.value))
    ensures var c := ParseSpec(lib, root).value;
      var ms := Filter(root.items, "mongodb");
      && (c.mongoDB.Some? <==> ms != [])
      && (ms != [] ==> |ms| == 1 && KeysWithin(ms[0].val, MongoDBKeys))
      && (ms != [] ==> MongoDBSpec(lib, ms) == Ok(c.mongoDB.value))
  {
    var us := Filter(root.items, "unidata");
    if us != [] {
      UnidataSpecOk(lib, us);
    }
    var ms := Filter(root.items, "mongodb");
    if ms != [] {
      MongoDBSpecOk(lib, ms);
    }
  }

  /** The converse of the rejection lemmas: a root object list with only
      root keys whose process, unidata and mongodb steps all succeed is
      accepted, with exactly their results. */
  lemma ParseAccepts(lib: Library, root: Node)
    requires root.ObjectList? && CheckKeys(root, RootKeys).Ok?
    requires ProcessesPart(lib, root.items).Ok?
    requires UnidataPart(lib, root.items).Ok? && MongoDBPart(lib, root.items).Ok?
    ensures ParseSpec(lib, root) == Ok(ConfigValue(
      ProcessesPart(lib, root.items).value,
      UnidataPart(lib, root.items).value,
      MongoDBPart(lib, root.items).value))
  {
  }

  /** A file with no blocks at all is accepted as the empty configuration. */
  lemma ParseEmpty(lib: Library)
    ensures ParseSpec(lib, ObjectList([])) == Ok(ConfigValue([], None, None))
  {
  }
}
