/** The structural edits of the shortcut editor and the button table,
    as functions of the tree and the selection. */
module Editing {
  import opened KeyLabels
  import opened Wrappers
  import opened ShortcutTree

  /** Enabled state of the Add and Remove buttons. */
  datatype Buttons = Buttons(add: bool, remove: bool)

  /** The table onItemSelectionChanged applies. */
  function Enablement(sel: seq<Pos>): (r: Buttons)
    ensures r.add <==> |sel| == 1 && !sel[0].TopPos?
    ensures r.remove <==> |sel| == 1 && sel[0].KeyPos?
  {
    if |sel| != 1 then Buttons(false, false)
    else
      match sel[0]
      case TopPos(_) => Buttons(false, false)
      case ShortcutPos(_, _) => Buttons(true, false)
      case KeyPos(_, _, _) => Buttons(true, true)
  }

  /** The shortcut onAdd appends to: the first selected item, or its parent when
      that is a key item; none for an empty selection or a top-level item. */
  function AddTarget(t: Tree, sel: seq<Pos>): (r: Option<Pos>)
    requires ValidSelection(t, sel)
    ensures r.None? <==> |sel| == 0 || sel[0].TopPos?
    ensures r.Some? ==> r.value.ShortcutPos? && ValidPos(t, r.value)
    ensures r.Some? ==> r.value.g == sel[0].g && !sel[0].TopPos? && r.value.s == sel[0].s
  {
    if |sel| == 0 then None
    else
      match sel[0]
      case TopPos(_) => None
      case ShortcutPos(g, s) => Some(ShortcutPos(g, s))
      case KeyPos(g, s, _) => Some(ShortcutPos(g, s))
  }

  /** The key item onRemove and onNewShortcutKey act on: the selection's only item,
      when it is a key item. */
  function SoleKey(sel: seq<Pos>): (r: Option<Pos>)
    ensures r.Some? <==> |sel| == 1 && sel[0].KeyPos?
    ensures r.Some? ==> r.value == sel[0]
  {
    if |sel| == 1 && sel[0].KeyPos? then Some(sel[0]) else None
  }

  /** The tree after onAdd appended a new, empty key item to shortcut p. */
  function AddKey(t: Tree, p: Pos): (r: Tree)
    requires p.ShortcutPos? && ValidPos(t, p)
    ensures |r| == |t| && |r[p.g].children| == |t[p.g].children|
    ensures r == SetKeys(t, p.g, p.s, r[p.g].children[p.s].keys)
    ensures var old_ := t[p.g].children[p.s].keys; var new_ := r[p.g].children[p.s].keys;
            && |new_| == |old_| + 1
            && new_[..|old_|] == old_
            && KeyTexts(new_) == KeyTexts(old_) + [""]
            && new_[|old_|].caption == KeyLabel(|new_|)
    ensures DenseTree(t) ==> DenseTree(r)
  {
    var keys := t[p.g].children[p.s].keys;
    var r := SetKeys(t, p.g, p.s, keys + [KeyItem(KeyLabel(|keys| + 1), "")]);
    assert DenseTree(t) ==> DenseTree(r) by {
      if DenseTree(t) {
        AppendDense(keys, "");
        SetKeysDense(t, p.g, p.s, keys + [KeyItem(KeyLabel(|keys| + 1), "")]);
      }
    }
    assert KeyTexts(keys + [KeyItem(KeyLabel(|keys| + 1), "")]) == KeyTexts(keys) + [""];
    r
  }

  /** The tree after onRemove took key item p and renumbered its siblings. */
  function RemoveKey(t: Tree, p: Pos): (r: Tree)
    requires p.KeyPos? && ValidPos(t, p)
    ensures |r| == |t| && |r[p.g].children| == |t[p.g].children|
    ensures r == SetKeys(t, p.g, p.s, r[p.g].children[p.s].keys)
    ensures var old_ := t[p.g].children[p.s].keys; var new_ := r[p.g].children[p.s].keys;
            && DenseKeys(new_)
            && KeyTexts(new_) == KeyTexts(old_)[..p.k] + KeyTexts(old_)[p.k + 1..]
    ensures DenseTree(t) ==> DenseTree(r)
  {
    var keys := Relabel(RemoveAt(t[p.g].children[p.s].keys, p.k));
    RemoveKeepsOrder(t[p.g].children[p.s].keys, p.k);
    assert DenseTree(t) ==> DenseTree(SetKeys(t, p.g, p.s, keys)) by {
      if DenseTree(t) {
        SetKeysDense(t, p.g, p.s, keys);
      }
    }
    SetKeys(t, p.g, p.s, keys)
  }

  /** The tree after onNewShortcutKey set key item p's key sequence. */
  function SetKeyText(t: Tree, p: Pos, key: string): (r: Tree)
    requires p.KeyPos? && ValidPos(t, p)
    ensures |r| == |t| && |r[p.g].children| == |t[p.g].children|
    ensures r == SetKeys(t, p.g, p.s, r[p.g].children[p.s].keys)
    ensures var old_ := t[p.g].children[p.s].keys; var new_ := r[p.g].children[p.s].keys;
            && |new_| == |old_|
            && new_[p.k].caption == old_[p.k].caption && new_[p.k].key == key
            && forall m :: 0 <= m < |old_| && m != p.k ==> new_[m] == old_[m]
    ensures DenseTree(t) ==> DenseTree(r)
  {
    var keys := t[p.g].children[p.s].keys;
    assert DenseTree(t) ==> DenseTree(SetKeys(t, p.g, p.s, keys[p.k := keys[p.k].(key := key)])) by {
      if DenseTree(t) {
        SetKeyTextDense(keys, p.k, key);
        SetKeysDense(t, p.g, p.s, keys[p.k := keys[p.k].(key := key)]);
      }
    }
    SetKeys(t, p.g, p.s, keys[p.k := keys[p.k].(key := key)])
  }

  /** Remove is enabled exactly when onRemove would take an item. */
  lemma RemoveEnabledIffRemoves(sel: seq<Pos>)
    ensures Enablement(sel).remove <==> SoleKey(sel).Some?
  {
  }

  /** Add is enabled exactly when a single item is selected and onAdd has a target for it. */
  lemma AddEnabledIffAdds(t: Tree, sel: seq<Pos>)
    requires ValidSelection(t, sel)
    ensures Enablement(sel).add <==> |sel| == 1 && AddTarget(t, sel).Some?
  {
  }

  /** Removing renumbers: the item that followed the removed one is now labelled with its old ordinal. */
  lemma RemoveRelabelsFollower(t: Tree, p: Pos)
    requires p.KeyPos? && ValidPos(t, p) && p.k + 1 < |t[p.g].children[p.s].keys|
    ensures var new_ := RemoveKey(t, p)[p.g].children[p.s].keys;
            new_[p.k].caption == KeyLabel(p.k + 1) && new_[p.k].key == t[p.g].children[p.s].keys[p.k + 1].key
  {
    var old_ := t[p.g].children[p.s].keys;
    var new_ := RemoveKey(t, p)[p.g].children[p.s].keys;
    assert KeyTexts(new_)[p.k] == KeyTexts(old_)[p.k + 1];
  }
}
