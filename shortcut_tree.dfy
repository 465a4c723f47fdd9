/** The three-level tree of the shortcut editor with the widgets taken away:
    top-level (group) items hold shortcut items, shortcut items hold key items.
    Each level is the same QTreeWidgetItem in the source, told apart by its
    ITEMKIND data; here the level is the type. */
module ShortcutTree {
  import opened KeyLabels

  /** A key item: column 0 is its "Key N" label, column 1 its key sequence. */
  datatype KeyItem = KeyItem(caption: string, key: string)

  /** A shortcut item: column 0 is the option's comment, OPTIONSTREEPATH its option path. */
  datatype ShortcutItem = ShortcutItem(comment: string, path: string, keys: seq<KeyItem>)

  /** A top-level item for one shortcut group, e.g. the chat dialog's. */
  datatype TopItem = TopItem(comment: string, path: string, children: seq<ShortcutItem>)

  type Tree = seq<TopItem>

  /** Where an item sits in the tree; a selection is a sequence of these. */
  datatype Pos = TopPos(g: nat) | ShortcutPos(g: nat, s: nat) | KeyPos(g: nat, s: nat, k: nat)

  predicate ValidPos(t: Tree, p: Pos) {
    match p
    case TopPos(g) => g < |t|
    case ShortcutPos(g, s) => g < |t| && s < |t[g].children|
    case KeyPos(g, s, k) => g < |t| && s < |t[g].children| && k < |t[g].children[s].keys|
  }

  /** childCount() of the item at p. */
  function ChildCount(t: Tree, p: Pos): nat
    requires ValidPos(t, p)
  {
    match p
    case TopPos(g) => |t[g].children|
    case ShortcutPos(g, s) => |t[g].children[s].keys|
    case KeyPos(_, _, _) => 0
  }

  /** A selection names existing items, each once (selectedItems() is a set). */
  predicate ValidSelection(t: Tree, sel: seq<Pos>) {
    && (forall i :: 0 <= i < |sel| ==> ValidPos(t, sel[i]))
    && (forall i, j :: 0 <= i < j < |sel| ==> sel[i] != sel[j])
  }

  /** Key labels "Key 1".."Key N" in child order. */
  predicate DenseKeys(keys: seq<KeyItem>) {
    forall k :: 0 <= k < |keys| ==> keys[k].caption == KeyLabel(k + 1)
  }

  predicate DenseTree(t: Tree) {
    forall g, s :: 0 <= g < |t| && 0 <= s < |t[g].children| ==> DenseKeys(t[g].children[s].keys)
  }

  /** The key sequences (column 1) of a shortcut's key items, in child order. */
  function KeyTexts(keys: seq<KeyItem>): (r: seq<string>)
    ensures |r| == |keys|
    ensures forall k :: 0 <= k < |keys| ==> r[k] == keys[k].key
  {
    seq(|keys|, k requires 0 <= k < |keys| => keys[k].key)
  }

  /** takeChild(k): the other items, in their order. */
  function RemoveAt(keys: seq<KeyItem>, k: nat): (r: seq<KeyItem>)
    requires k < |keys|
    ensures |r| == |keys| - 1
    ensures forall i :: 0 <= i < k ==> r[i] == keys[i]
    ensures forall i :: k <= i < |r| ==> r[i] == keys[i + 1]
  {
    keys[..k] + keys[k + 1..]
  }

  /** Renumbers labels after a removal, keeping every key sequence. */
  function Relabel(keys: seq<KeyItem>): (r: seq<KeyItem>)
    ensures DenseKeys(r)
    ensures KeyTexts(r) == KeyTexts(keys)
  {
    seq(|keys|, k requires 0 <= k < |keys| => keys[k].(caption := KeyLabel(k + 1)))
  }

  /** The tree with the key items of shortcut (g, s) replaced and everything else kept. */
  function SetKeys(t: Tree, g: nat, s: nat, keys: seq<KeyItem>): (r: Tree)
    requires g < |t| && s < |t[g].children|
    ensures |r| == |t|
    ensures forall h :: 0 <= h < |t| && h != g ==> r[h] == t[h]
    ensures r[g].comment == t[g].comment && r[g].path == t[g].path
    ensures |r[g].children| == |t[g].children|
    ensures forall i :: 0 <= i < |t[g].children| && i != s ==> r[g].children[i] == t[g].children[i]
    ensures r[g].children[s] == t[g].children[s].(keys := keys)
  {
    t[g := t[g].(children := t[g].children[s := t[g].children[s].(keys := keys)])]
  }

  /** t2 has every item of t at the same place, with possibly more children appended. */
  predicate Grows(t: Tree, t2: Tree) {
    && |t2| == |t|
    && (forall g :: 0 <= g < |t| ==> |t[g].children| <= |t2[g].children|)
    && (forall g, s :: 0 <= g < |t| && 0 <= s < |t[g].children| ==> t2[g].children[s] == t[g].children[s])
  }

  lemma GrowsKeepsSelection(t: Tree, t2: Tree, sel: seq<Pos>)
    requires Grows(t, t2) && ValidSelection(t, sel)
    ensures ValidSelection(t2, sel)
  {
    forall i | 0 <= i < |sel| ensures ValidPos(t2, sel[i]) {
      assert ValidPos(t, sel[i]);
      match sel[i]
      case TopPos(g) =>
      case ShortcutPos(g, s) =>
      case KeyPos(g, s, k) => assert t2[g].children[s] == t[g].children[s];
    }
  }

  /** Replacing one shortcut's keys with dense ones keeps the whole tree dense. */
  lemma SetKeysDense(t: Tree, g: nat, s: nat, keys: seq<KeyItem>)
    requires g < |t| && s < |t[g].children|
    requires DenseTree(t) && DenseKeys(keys)
    ensures DenseTree(SetKeys(t, g, s, keys))
  {
    var r := SetKeys(t, g, s, keys);
    forall h, i | 0 <= h < |r| && 0 <= i < |r[h].children| ensures DenseKeys(r[h].children[i].keys) {
      if h == g && i == s {
      } else if h == g {
        assert r[h].children[i] == t[h].children[i];
      } else {
        assert r[h] == t[h];
      }
    }
  }

  /** Replacing one shortcut's keys by ones no shorter keeps every selected position valid. */
  lemma SetKeysKeepsSelection(t: Tree, g: nat, s: nat, keys: seq<KeyItem>, sel: seq<Pos>)
    requires g < |t| && s < |t[g].children|
    requires |keys| >= |t[g].children[s].keys|
    requires ValidSelection(t, sel)
    ensures ValidSelection(SetKeys(t, g, s, keys), sel)
  {
    var r := SetKeys(t, g, s, keys);
    forall i | 0 <= i < |sel| ensures ValidPos(r, sel[i]) {
      assert ValidPos(t, sel[i]);
      match sel[i]
      case TopPos(h) =>
      case ShortcutPos(h, j) =>
      case KeyPos(h, j, k) =>
        if h != g { assert r[h] == t[h]; }
        else if j != s { assert r[h].children[j] == t[h].children[j]; }
    }
  }

  /** After removing key k and renumbering, the other key sequences keep their order. */
  lemma {:induction false} RemoveKeepsOrder(keys: seq<KeyItem>, k: nat)
    requires k < |keys|
    ensures DenseKeys(Relabel(RemoveAt(keys, k)))
    ensures KeyTexts(Relabel(RemoveAt(keys, k))) == KeyTexts(keys)[..k] + KeyTexts(keys)[k + 1..]
  {
    var r := Relabel(RemoveAt(keys, k));
    var want := KeyTexts(keys)[..k] + KeyTexts(keys)[k + 1..];
    assert |KeyTexts(r)| == |want|;
    forall i | 0 <= i < |want| ensures KeyTexts(r)[i] == want[i] {
      if i < k {
        assert want[i] == keys[i].key;
      } else {
        assert want[i] == KeyTexts(keys)[i + 1];
      }
    }
  }

  /** Under dense labelling each label occurs once: it names a single key item. */
  lemma DenseLabelsUnique(keys: seq<KeyItem>, i: nat, j: nat)
    requires DenseKeys(keys) && i < |keys| && j < |keys|
    requires keys[i].caption == keys[j].caption
    ensures i == j
  {
    KeyLabelInjective(i + 1, j + 1);
  }

  /** Appending "Key n+1" to n dense key items keeps them dense. */
  lemma AppendDense(keys: seq<KeyItem>, key: string)
    requires DenseKeys(keys)
    ensures DenseKeys(keys + [KeyItem(KeyLabel(|keys| + 1), key)])
  {
  }

  /** Changing one key sequence keeps the labels, hence density. */
  lemma SetKeyTextDense(keys: seq<KeyItem>, k: nat, key: string)
    requires DenseKeys(keys) && k < |keys|
    ensures DenseKeys(keys[k := keys[k].(key := key)])
  {
  }
}
