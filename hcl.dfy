/** The part of the HCL library (github.com/hashicorp/hcl, package ast) the
    decoder relies on, restated as values.

    The decoder starts from a tree that hcl.Parse has already built. Only the
    node kinds config.go distinguishes are modelled. `Filter` and `Children`
    are library methods whose code is not part of this model; their
    behaviour here is an ASSUMPTION, stated at each definition. */
module Hcl {

  /** A literal token (ast.LiteralType); floating-point and heredoc tokens are
      not modelled. */
  datatype Literal = Str(s: string) | Number(n: int) | Bool(b: bool)

  /** ast.Node as far as the decoder looks at it: an object list, an object
      (`{ ... }`, which wraps an object list), a literal or a list. */
  datatype Node =
    | ObjectList(items: seq<Item>)
    | ObjectType(list: seq<Item>)
    | LiteralType(token: Literal)
    | ListType(elems: seq<Node>)

  /** ast.ObjectItem: the keys before the value (`process "load" { ... }` has
      the keys ["process", "load"]), the value, and the line of the `=` token
      (`item.Assign.Line`), which is 0 when the item is written as a block
      without `=`. Key tokens are strings after `Token.Value()`. */
  datatype Item = Item(keys: seq<string>, val: Node, assignLine: nat)

  /** The dynamic value hcl.DecodeObject stores in a map[string]interface{}:
      a closed sum of the shapes HCL can produce. */
  datatype Value =
    | VString(s: string)
    | VInt(i: int)
    | VBool(b: bool)
    | VList(elems: seq<Value>)
    | VMap(fields: map<string, Value>)

  type Attrs = map<string, Value>

  /** The Go type name `%T` prints for a node (`*ast.ObjectList`, ...). */
  function TypeName(n: Node): string
  {
    match n
    case ObjectList(_) => "*ast.ObjectList"
    case ObjectType(_) => "*ast.ObjectType"
    case LiteralType(_) => "*ast.LiteralType"
    case ListType(_) => "*ast.ListType"
  }

  /** ObjectList.Filter(prefix). ASSUMED: it keeps, in order, the items whose
      first key equals `prefix` and strips that key from each of them. */
  function Filter(items: seq<Item>, prefix: string): (r: seq<Item>)
    ensures |r| <= |items|
  {
    if items == [] then []
    else
      var rest := Filter(items[1..], prefix);
      var it := items[0];
      if Matches(it, prefix) then [Stripped(it)] + rest
      else rest
  }

  /** The item's first key is `prefix`. */
  predicate Matches(it: Item, prefix: string)
  {
    |it.keys| > 0 && it.keys[0] == prefix
  }

  /** The item with its first key removed. */
  function Stripped(it: Item): Item
    requires |it.keys| > 0
  {
    it.(keys := it.keys[1..])
  }

  /** Every item Filter returns is a matching item of the list with its
      first key stripped. */
  lemma {:induction false} FilterSound(items: seq<Item>, prefix: string)
    ensures forall it :: it in Filter(items, prefix) ==>
      exists j :: 0 <= j < |items| && Matches(items[j], prefix) && it == Stripped(items[j])
  {
    if items != [] {
      FilterSound(items[1..], prefix);
      forall it | it in Filter(items, prefix)
        ensures exists j :: 0 <= j < |items| && Matches(items[j], prefix) && it == Stripped(items[j])
      {
        if it in Filter(items[1..], prefix) {
          var j :| 0 <= j < |items[1..]| && Matches(items[1..][j], prefix) && it == Stripped(items[1..][j]);
          assert items[j + 1] == items[1..][j];
        } else {
          assert Matches(items[0], prefix) && it == Stripped(items[0]);
        }
      }
    }
  }

  /** Every matching item of the list is returned, stripped. */
  lemma {:induction false} FilterComplete(items: seq<Item>, prefix: string)
    ensures forall j :: 0 <= j < |items| && Matches(items[j], prefix) ==> Stripped(items[j]) in Filter(items, prefix)
  {
    if items != [] {
      FilterComplete(items[1..], prefix);
      forall j | 0 <= j < |items| && Matches(items[j], prefix)
        ensures Stripped(items[j]) in Filter(items, prefix)
      {
        if j > 0 {
          assert items[1..][j - 1] == items[j];
        }
      }
    }
  }

  /** No item of the list matches exactly when Filter returns nothing. */
  lemma {:induction false} FilterEmpty(items: seq<Item>, prefix: string)
    ensures Filter(items, prefix) == [] <==> forall j :: 0 <= j < |items| ==> !Matches(items[j], prefix)
  {
    if items != [] {
      FilterEmpty(items[1..], prefix);
      if !Matches(items[0], prefix) {
        forall j | 0 <= j < |items| - 1 ensures items[1..][j] == items[j + 1] { }
      }
    }
  }

  /** Every item of `items` has at least one key, so `item.Keys[0]` cannot
      panic on it. */
  predicate AllKeyed(items: seq<Item>)
  {
    forall i :: 0 <= i < |items| ==> |items[i].keys| > 0
  }

  /** ObjectList.Children(). ASSUMED: it keeps, in order, the items that have
      at least one key (after a Filter, the ones that carry a label). */
  function Children(items: seq<Item>): (r: seq<Item>)
    ensures |r| <= |items|
    ensures AllKeyed(r)
  {
    if items == [] then []
    else
      var rest := Children(items[1..]);
      if |items[0].keys| > 0 then [items[0]] + rest else rest
  }

  /** Children returns exactly the items of the list that have a key. */
  lemma {:induction false} ChildrenMembers(items: seq<Item>)
    ensures forall it :: it in Children(items) <==> it in items && |it.keys| > 0
  {
    if items != [] {
      ChildrenMembers(items[1..]);
      assert items == [items[0]] + items[1..];
    }
  }

  /** Children returns nothing exactly when no item has a key. */
  lemma {:induction false} ChildrenEmpty(items: seq<Item>)
    ensures Children(items) == [] <==> forall i :: 0 <= i < |items| ==> |items[i].keys| == 0
  {
    if items != [] {
      ChildrenEmpty(items[1..]);
      if |items[0].keys| == 0 {
        forall i | 0 <= i < |items| - 1 ensures items[1..][i] == items[i + 1] { }
      }
    }
  }

  /** Children of a concatenation is the concatenation of the Children. */
  lemma {:induction false} ChildrenAppend(a: seq<Item>, b: seq<Item>)
    ensures Children(a + b) == Children(a) + Children(b)
  {
    if a != [] {
      assert (a + b)[0] == a[0];
      assert (a + b)[1..] == a[1..] + b;
      ChildrenAppend(a[1..], b);
    } else {
      assert a + b == b;
    }
  }

  /** Two items with a key give at least two children. */
  lemma ChildrenAtLeastTwo(items: seq<Item>, i: nat, j: nat)
    requires i < j < |items| && |items[i].keys| > 0 && |items[j].keys| > 0
    ensures |Children(items)| >= 2
  {
    assert items == items[..j] + items[j..];
    ChildrenAppend(items[..j], items[j..]);
    assert items[..j][i] == items[i];
    ChildrenEmpty(items[..j]);
    assert items[j..][0] == items[j];
    ChildrenEmpty(items[j..]);
  }

  /** A list in which exactly one item has a key has that item as its only
      child. */
  lemma {:induction false} ChildrenOnly(items: seq<Item>, k: nat)
    requires k < |items| && |items[k].keys| > 0
    requires forall i :: 0 <= i < |items| && i != k ==> |items[i].keys| == 0
    ensures Children(items) == [items[k]]
    decreases k
  {
    var tail := items[1..];
    if k == 0 {
      forall i | 0 <= i < |tail| ensures |tail[i].keys| == 0 {
        assert tail[i] == items[i + 1];
      }
      ChildrenEmpty(tail);
    } else {
      forall i | 0 <= i < |tail| && i != k - 1 ensures |tail[i].keys| == 0 {
        assert tail[i] == items[i + 1];
      }
      ChildrenOnly(tail, k - 1);
    }
  }

  /** The first child is the first item with a key. */
  lemma ChildrenFirst(items: seq<Item>, k: nat)
    requires k < |items| && |items[k].keys| > 0
    requires forall i :: 0 <= i < k ==> |items[i].keys| == 0
    ensures Children(items) != [] && Children(items)[0] == items[k]
  {
    assert items == items[..k] + items[k..];
    ChildrenAppend(items[..k], items[k..]);
    ChildrenEmpty(items[..k]);
    assert items[k..] == [items[k]] + items[k + 1..];
  }
}
