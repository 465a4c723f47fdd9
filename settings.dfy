/** The settings store as a map from option path to value, and what
    applyOptions writes into it. */
module Settings {
  import opened ShortcutTree

  /** What setOption receives: QVariant(), a single string, or a list of strings. */
  datatype OptionValue = Absent | Scalar(text: string) | List(items: seq<string>)

  type Store = map<string, OptionValue>

  /** The reading direction of the convention. */
  function Expand(v: OptionValue): seq<string> {
    match v
    case Absent => []
    case Scalar(x) => [x]
    case List(xs) => xs
  }

  /** The store's convention for a list of key sequences: none is an empty
      value, one is a scalar, two or more are a list. The collapse loses
      nothing, and a list value always holds at least two sequences. */
  function Collapse(keys: seq<string>): (v: OptionValue)
    ensures Expand(v) == keys
    ensures v.List? ==> |v.items| >= 2
  {
    if |keys| == 1 then Scalar(keys[0])
    else if |keys| > 1 then List(keys)
    else Absent
  }

  /** What applyOptions writes for one shortcut item. */
  function Written(sc: ShortcutItem): OptionValue {
    Collapse(KeyTexts(sc.keys))
  }

  /** Every shortcut item of the tree, top-level item by top-level item, in child order. */
  function Shortcuts(t: Tree): seq<ShortcutItem> {
    if t == [] then [] else Shortcuts(t[..|t| - 1]) + t[|t| - 1].children
  }

  /** The flattened list holds every shortcut item of the tree and nothing else. */
  lemma {:induction false} ShortcutsMembers(t: Tree)
    ensures forall g, s :: 0 <= g < |t| && 0 <= s < |t[g].children| ==> t[g].children[s] in Shortcuts(t)
    ensures forall x :: x in Shortcuts(t) ==> exists g :: 0 <= g < |t| && x in t[g].children
  {
    if t != [] {
      var init := t[..|t| - 1];
      ShortcutsMembers(init);
      assert forall g :: 0 <= g < |init| ==> init[g] == t[g];
    }
  }

  /** The store after setOption has been called for each item in turn. */
  function Commit(store: Store, items: seq<ShortcutItem>): Store {
    if items == [] then store
    else
      var last := items[|items| - 1];
      Commit(store, items[..|items| - 1])[last.path := Written(last)]
  }

  lemma CommitAppend(store: Store, items: seq<ShortcutItem>, x: ShortcutItem)
    ensures Commit(store, items + [x]) == Commit(store, items)[x.path := Written(x)]
  {
    assert (items + [x])[..|items|] == items;
  }

  /** One more setOption call, for the next child of the current top-level item. */
  lemma CommitStep(store: Store, done: seq<ShortcutItem>, children: seq<ShortcutItem>, j: nat)
    requires j < |children|
    ensures Commit(store, done + children[..j + 1])
            == Commit(store, done + children[..j])[children[j].path := Written(children[j])]
  {
    assert done + children[..j + 1] == (done + children[..j]) + [children[j]];
    CommitAppend(store, done + children[..j], children[j]);
  }

  /** All children of top-level item i visited: the prefix grows by that item. */
  lemma ShortcutsAppend(t: Tree, i: nat)
    requires i < |t|
    ensures Shortcuts(t[..i + 1]) == Shortcuts(t[..i]) + t[i].children[..|t[i].children|]
    ensures Shortcuts(t[..i]) + t[i].children[..0] == Shortcuts(t[..i])
  {
    assert t[..i + 1][..i] == t[..i];
    assert t[i].children[..|t[i].children|] == t[i].children;
  }

  /** A path that no item carries keeps its old value (or stays absent). */
  lemma {:induction false} CommitUntouched(store: Store, items: seq<ShortcutItem>, p: string)
    requires forall i :: 0 <= i < |items| ==> items[i].path != p
    ensures p in Commit(store, items) <==> p in store
    ensures p in store ==> Commit(store, items)[p] == store[p]
  {
    if items != [] {
      CommitUntouched(store, items[..|items| - 1], p);
    }
  }

  /** The last write to a path decides its value. */
  lemma {:induction false} CommitLastWrite(store: Store, items: seq<ShortcutItem>, k: nat)
    requires k < |items|
    requires forall i :: k < i < |items| ==> items[i].path != items[k].path
    ensures items[k].path in Commit(store, items)
    ensures Commit(store, items)[items[k].path] == Written(items[k])
  {
    var n := |items| - 1;
    if k < n {
      var init := items[..n];
      assert init[k] == items[k];
      CommitLastWrite(store, init, k);
    }
  }

  predicate DistinctPaths(items: seq<ShortcutItem>) {
    forall i, j :: 0 <= i < j < |items| ==> items[i].path != items[j].path
  }

  /** When shortcut paths are unique, every shortcut item of the tree ends up in
      the store at its own path, in the none/scalar/list form of its keys. */
  lemma CommitWritesEveryShortcut(store: Store, t: Tree, g: nat, s: nat)
    requires g < |t| && s < |t[g].children|
    requires DistinctPaths(Shortcuts(t))
    ensures t[g].children[s].path in Commit(store, Shortcuts(t))
    ensures Commit(store, Shortcuts(t))[t[g].children[s].path] == Collapse(KeyTexts(t[g].children[s].keys))
  {
    var items := Shortcuts(t);
    ShortcutsMembers(t);
    var x := t[g].children[s];
    var k :| 0 <= k < |items| && items[k] == x;
    CommitLastWrite(store, items, k);
  }

  /** A path that is no shortcut's path, such as a top-level item's, is never written. */
  lemma CommitLeavesOtherPaths(store: Store, t: Tree, p: string)
    requires forall g, s :: 0 <= g < |t| && 0 <= s < |t[g].children| ==> t[g].children[s].path != p
    ensures p in Commit(store, Shortcuts(t)) <==> p in store
    ensures p in store ==> Commit(store, Shortcuts(t))[p] == store[p]
  {
    var items := Shortcuts(t);
    ShortcutsMembers(t);
    forall i | 0 <= i < |items| ensures items[i].path != p {
      assert items[i] in items;
    }
    CommitUntouched(store, items, p);
  }
}
