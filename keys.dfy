/** checkHCLKeys: validation of a node's keys against an allow-list.

    It is the one place in the decoder that collects several errors: it
    looks at every item of the node and reports each item whose first key is
    not allowed, in item order, without removing repeats. */
module KeyCheck {
  import opened Outcomes
  import opened Hcl

  /** The error reported for an item whose first key is not allowed. */
  function KeyErrorOf(it: Item): KeyError
    requires |it.keys| > 0
  {
    KeyError(it.keys[0], it.assignLine)
  }

  /** The invalid-key errors of `items`, one per item whose first key is not
      in `valid`, in item order. */
  function InvalidKeyErrors(items: seq<Item>, valid: seq<string>): (r: seq<KeyError>)
    requires AllKeyed(items)
    ensures |r| <= |items|
  {
    if items == [] then []
    else
      assert AllKeyed(items[1..]) by {
        assert forall i :: 0 <= i < |items| - 1 ==> items[1..][i] == items[i + 1];
      }
      var rest := InvalidKeyErrors(items[1..], valid);
      if items[0].keys[0] in valid then rest else [KeyErrorOf(items[0])] + rest
  }

  /** Every error reports an item whose first key is not allowed. */
  lemma {:induction false} InvalidKeyErrorsSound(items: seq<Item>, valid: seq<string>)
    requires AllKeyed(items)
    ensures forall e :: e in InvalidKeyErrors(items, valid) ==>
      exists i :: 0 <= i < |items| && items[i].keys[0] !in valid && e == KeyErrorOf(items[i])
  {
    if items != [] {
      assert forall i :: 0 <= i < |items| - 1 ==> items[1..][i] == items[i + 1];
      InvalidKeyErrorsSound(items[1..], valid);
      forall e | e in InvalidKeyErrors(items, valid)
        ensures exists i :: 0 <= i < |items| && items[i].keys[0] !in valid && e == KeyErrorOf(items[i])
      {
        if e in InvalidKeyErrors(items[1..], valid) {
          var i :| 0 <= i < |items[1..]| && items[1..][i].keys[0] !in valid && e == KeyErrorOf(items[1..][i]);
          assert items[i + 1] == items[1..][i];
        } else {
          assert items[0].keys[0] !in valid && e == KeyErrorOf(items[0]);
        }
      }
    }
  }

  /** Every item whose first key is not allowed is reported. */
  lemma {:induction false} InvalidKeyErrorsComplete(items: seq<Item>, valid: seq<string>)
    requires AllKeyed(items)
    ensures forall i :: 0 <= i < |items| && items[i].keys[0] !in valid ==> KeyErrorOf(items[i]) in InvalidKeyErrors(items, valid)
  {
    if items != [] {
      assert forall i :: 0 <= i < |items| - 1 ==> items[1..][i] == items[i + 1];
      InvalidKeyErrorsComplete(items[1..], valid);
    }
  }

  /** The items checkHCLKeys looks at: those of an object list, or of the list
      an object wraps; any other node cannot be checked. */
  function CheckedItems(node: Node): Option<seq<Item>>
  {
    match node
    case ObjectList(items) => Some(items)
    case ObjectType(list) => Some(list)
    case _ => None
  }

  /** What checkHCLKeys(node, valid) returns. An item without keys makes the
      loop panic at `item.Keys[0]`, whatever it has collected so far. */
  function CheckKeys(node: Node, valid: seq<string>): Outcome<()>
  {
    match CheckedItems(node)
    case None => Fail(CannotCheckKeys(TypeName(node)))
    case Some(items) =>
      if !AllKeyed(items) then Crash(IndexOutOfRange)
      else
        var errs := InvalidKeyErrors(items, valid);
        if errs == [] then Ok(()) else Fail(InvalidKeys(errs))
  }

  /** The error list of a concatenation is the concatenation of the error
      lists: errors keep item order and nothing is merged. */
  lemma {:induction false} InvalidKeyErrorsAppend(a: seq<Item>, b: seq<Item>, valid: seq<string>)
    requires AllKeyed(a) && AllKeyed(b)
    ensures AllKeyed(a + b)
    ensures InvalidKeyErrors(a + b, valid) == InvalidKeyErrors(a, valid) + InvalidKeyErrors(b, valid)
  {
    assert forall i :: 0 <= i < |a + b| ==> (a + b)[i] == if i < |a| then a[i] else b[i - |a|];
    if a == [] {
      assert a + b == b;
    } else {
      assert (a + b)[0] == a[0];
      assert (a + b)[1..] == a[1..] + b;
      assert AllKeyed(a[1..]) by {
        assert forall i :: 0 <= i < |a| - 1 ==> a[1..][i] == a[i + 1];
      }
      InvalidKeyErrorsAppend(a[1..], b, valid);
    }
  }

  /** One item contributes exactly one error when its key is not allowed and
      none otherwise. */
  lemma InvalidKeyErrorsSingle(it: Item, valid: seq<string>)
    requires |it.keys| > 0
    ensures AllKeyed([it])
    ensures InvalidKeyErrors([it], valid) == if it.keys[0] in valid then [] else [KeyErrorOf(it)]
  {
    assert [it][1..] == [];
  }

  /** Checking one more item appends its error, if any, to those found so
      far. */
  lemma InvalidKeyErrorsSnoc(prefix: seq<Item>, it: Item, valid: seq<string>)
    requires AllKeyed(prefix) && |it.keys| > 0
    ensures AllKeyed(prefix + [it])
    ensures InvalidKeyErrors(prefix + [it], valid) ==
      InvalidKeyErrors(prefix, valid) + if it.keys[0] in valid then [] else [KeyErrorOf(it)]
  {
    InvalidKeyErrorsSingle(it, valid);
    InvalidKeyErrorsAppend(prefix, [it], valid);
  }

  /** checkHCLKeys reports no error exactly when the node is an object (list)
      whose items all have an allowed first key. */
  lemma CheckKeysOkIff(node: Node, valid: seq<string>)
    ensures CheckKeys(node, valid).Ok? <==>
      CheckedItems(node).Some? && AllKeyed(CheckedItems(node).value) &&
      forall i :: 0 <= i < |CheckedItems(node).value| ==> CheckedItems(node).value[i].keys[0] in valid
  {
    match CheckedItems(node)
    case None =>
    case Some(items) =>
      if AllKeyed(items) {
        var errs := InvalidKeyErrors(items, valid);
        InvalidKeyErrorsSound(items, valid);
        InvalidKeyErrorsComplete(items, valid);
        if errs != [] {
          assert errs[0] in errs;
        }
      }
  }

  /** When some key is rejected, the one error value lists exactly the
      rejected items, with their lines. */
  lemma CheckKeysErrors(node: Node, valid: seq<string>)
    requires CheckKeys(node, valid).Fail?
    ensures CheckKeys(node, valid).error.CannotCheckKeys? <==> CheckedItems(node).None?
    ensures CheckedItems(node).Some? ==>
      CheckKeys(node, valid) == Fail(InvalidKeys(InvalidKeyErrors(CheckedItems(node).value, valid)))
  {
  }

  /** A literal or a list cannot be checked and is reported by its type name. */
  lemma CheckKeysNotObject(node: Node, valid: seq<string>)
    requires node.LiteralType? || node.ListType?
    ensures CheckKeys(node, valid) == Fail(CannotCheckKeys(TypeName(node)))
  {
  }

  /** The `validMap` checkHCLKeys builds from the allow-list: a key is in
      it exactly when the list holds it. */
  method KeySet(valid: seq<string>) returns (validMap: set<string>)
    ensures forall s :: s in validMap <==> s in valid
  {
    validMap := {};
    for k := 0 to |valid|
      invariant forall s :: s in validMap <==> s in valid[..k]
    {
      assert valid[..k + 1] == valid[..k] + [valid[k]];
      validMap := validMap + {valid[k]};
    }
    assert valid[..|valid|] == valid;
  }

  /** checkHCLKeys(node, valid). The node is a value and the method has no
      `modifies` clause: the node cannot be changed by the check. */
  method CheckHCLKeys(node: Node, valid: seq<string>) returns (result: Outcome<()>)
    ensures result == CheckKeys(node, valid)
  {
    var list: seq<Item>;
    match node {
      case ObjectList(items) => list := items;
      case ObjectType(l) => list := l;
      case _ => return Fail(CannotCheckKeys(TypeName(node)));
    }

    var validMap := KeySet(valid);
    var errs: seq<KeyError> := [];
    for i := 0 to |list|
      invariant AllKeyed(list[..i])
      invariant errs == InvalidKeyErrors(list[..i], valid)
    {
      var item := list[i];
      if |item.keys| == 0 {
        assert |list[i].keys| == 0;
        return Crash(IndexOutOfRange);
      }
      var key := item.keys[0];
      assert list[..i + 1] == list[..i] + [item];
      InvalidKeyErrorsSnoc(list[..i], item, valid);
      assert (key in validMap) == (key in valid);
      if key !in validMap {
        errs := errs + [KeyError(key, item.assignLine)];
      }
    }
    assert list[..|list|] == list;
    if errs == [] {
      return Ok(());
    }
    return Fail(InvalidKeys(errs));
  }
}
