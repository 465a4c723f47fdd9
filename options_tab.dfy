/** OptionsTabShortcuts: the options tab that edits the keyboard shortcuts.
    Its state is the tree shown in the tree widget, the tree widget's
    selection, the enabled state of the Add and Remove buttons, whether the
    widget has been built (w != 0), and counters for the dataChanged()
    signals it emitted and the key-capture dialogs it opened. */
module OptionsTab {
  import opened KeyLabels
  import opened Wrappers
  import opened ShortcutTree
  import opened Settings
  import opened Synchronizer
  import opened Editing

  /** The value applyOptions hands to setOption for one shortcut item: its only
      key sequence directly, several collected in a list, none as an empty value. */
  method OptionValueOf(shortcut: ShortcutItem) returns (value: OptionValue)
    ensures value == Collapse(KeyTexts(shortcut.keys))
  {
    var count := |shortcut.keys|;
    if count == 1 {
      value := Scalar(shortcut.keys[0].key);
    } else if count > 1 {
      var sequences: seq<string> := [];
      var k := 0;
      while k < count
        invariant 0 <= k <= count
        invariant |sequences| == k
        invariant forall m :: 0 <= m < k ==> sequences[m] == shortcut.keys[m].key
      {
        sequences := sequences + [shortcut.keys[k].key];
        k := k + 1;
      }
      value := List(sequences);
    } else {
      value := Absent;
    }
  }

  class ShortcutsTab {
    var built: bool
    var tree: Tree
    var selection: seq<Pos>
    var addEnabled: bool
    var removeEnabled: bool
    var dataChanged: nat
    var capturesStarted: nat

    /** The selection names items of the tree, key labels are dense under every
        shortcut, and before the widget exists there is neither tree nor selection. */
    ghost predicate Valid()
      reads this
    {
      && ValidSelection(tree, selection)
      && DenseTree(tree)
      && (!built ==> tree == [] && selection == [])
    }

    constructor ()
      ensures Valid() && !built && tree == [] && selection == []
      ensures !addEnabled && !removeEnabled && dataChanged == 0 && capturesStarted == 0
    {
      built := false;
      tree := [];
      selection := [];
      addEnabled := false;
      removeEnabled := false;
      dataChanged := 0;
      capturesStarted := 0;
    }

    /** widget(): builds the group level once; a second call returns null and changes nothing. */
    method Widget(env: Env) returns (created: bool)
      requires Valid()
      modifies this`built, this`tree, this`selection, this`addEnabled, this`removeEnabled
      ensures Valid() && built
      ensures created <==> !old(built)
      ensures !old(built) ==> tree == Groups(env) && selection == [] && !addEnabled && !removeEnabled
      ensures old(built) ==>
                && tree == old(tree) && selection == old(selection)
                && addEnabled == old(addEnabled) && removeEnabled == old(removeEnabled)
    {
      if built {
        return false;
      }
      built := true;
      var groups := env.childNames(ShortcutsRoot);
      var items: Tree := [];
      var i := 0;
      while i < |groups|
        invariant 0 <= i <= |groups|
        invariant items == Groups(env)[..i]
      {
        items := items + [TopItem(env.comment(groups[i]), groups[i], [])];
        i := i + 1;
      }
      tree := items;
      selection := [];
      addEnabled := false;
      removeEnabled := false;
      created := true;
    }

    /** applyOptions: one setOption per shortcut item, in tree order; the tab itself does not change. */
    method ApplyOptions(store: Store) returns (out: Store)
      requires Valid()
      ensures out == Commit(store, Shortcuts(tree))
      ensures !built ==> out == store
    {
      out := store;
      if !built {
        return;
      }
      var i := 0;
      while i < |tree|
        invariant 0 <= i <= |tree|
        invariant out == Commit(store, Shortcuts(tree[..i]))
      {
        var top := tree[i];
        ShortcutsAppend(tree, i);
        var j := 0;
        while j < |top.children|
          invariant 0 <= j <= |top.children|
          invariant out == Commit(store, Shortcuts(tree[..i]) + top.children[..j])
        {
          var shortcut := top.children[j];
          var value := OptionValueOf(shortcut);
          out := out[shortcut.path := value];
          CommitStep(store, Shortcuts(tree[..i]), top.children, j);
          j := j + 1;
        }
        i := i + 1;
      }
      assert tree[..i] == tree;
    }

    /** restoreOptions: appends the stored shortcuts and their keys under every
        top-level item that has a path; nothing is cleared, nothing else changes. */
    method RestoreOptions(env: Env)
      requires Valid()
      modifies this`tree
      ensures Valid()
      ensures tree == Restored(env, old(tree))
    {
      if !built {
        assert Restored(env, tree) == tree;
        return;
      }
      var t := tree;
      var i := 0;
      while i < |t|
        invariant 0 <= i <= |t| == |tree|
        invariant forall g :: 0 <= g < i ==> t[g] == RestoreTop(env, tree[g])
        invariant forall g :: i <= g < |t| ==> t[g] == tree[g]
      {
        var top := t[i];
        if top.path != "" {
          var shortcuts := env.childNames(top.path);
          var j := 0;
          while j < |shortcuts|
            invariant 0 <= j <= |shortcuts|
            invariant top.path == tree[i].path && top.comment == tree[i].comment
            invariant |top.children| == |tree[i].children| + j
            invariant top.children[..|tree[i].children|] == tree[i].children
            invariant forall m :: 0 <= m < j ==> top.children[|tree[i].children| + m] == ShortcutFor(env, shortcuts[m])
          {
            var name := shortcuts[j];
            var keys := env.keysOf(LogicalName(name));
            var comment := env.comment(name);
            var keyItems: seq<KeyItem> := [];
            var k := 0;
            while k < |keys|
              invariant 0 <= k <= |keys|
              invariant |keyItems| == k
              invariant forall m :: 0 <= m < k ==> keyItems[m] == KeyItem(KeyLabel(m + 1), keys[m])
            {
              keyItems := keyItems + [KeyItem(KeyLabel(k + 1), keys[k])];
              k := k + 1;
            }
            assert keyItems == KeysFor(keys);
            top := top.(children := top.children + [ShortcutItem(comment, name, keyItems)]);
            j := j + 1;
          }
          assert top == RestoreTop(env, tree[i]);
          t := t[i := top];
        }
        i := i + 1;
      }
      assert t == Restored(env, tree);
      RestoredShape(env, tree);
      GrowsKeepsSelection(tree, t, selection);
      tree := t;
    }

    /** The user changes the tree widget's selection (a toolkit event). */
    method SetSelection(sel: seq<Pos>)
      requires Valid() && built && ValidSelection(tree, sel)
      modifies this`selection
      ensures Valid() && selection == sel
    {
      selection := sel;
    }

    /** onItemSelectionChanged: the buttons follow the table of Enablement. */
    method OnItemSelectionChanged()
      requires Valid() && built
      modifies this`addEnabled, this`removeEnabled
      ensures Valid()
      ensures Buttons(addEnabled, removeEnabled) == Enablement(selection)
    {
      if |selection| == 0 || |selection| > 1 {
        addEnabled := false;
        removeEnabled := false;
        return;
      }
      match selection[0] {
        case TopPos(_) =>
          addEnabled := false;
          removeEnabled := false;
        case ShortcutPos(_, _) =>
          addEnabled := true;
          removeEnabled := false;
        case KeyPos(_, _, _) =>
          addEnabled := true;
          removeEnabled := true;
      }
    }

    /** onItemDoubleClicked: opens a capture dialog for a non-null item without children. */
    method OnItemDoubleClicked(item: Option<Pos>)
      requires Valid() && built
      requires item.Some? ==> ValidPos(tree, item.value)
      modifies this`capturesStarted
      ensures Valid()
      ensures capturesStarted ==
                old(capturesStarted) + if item.Some? && ChildCount(tree, item.value) == 0 then 1 else 0
    {
      if item.None? || ChildCount(tree, item.value) > 0 {
        return;
      }
      capturesStarted := capturesStarted + 1;
    }

    /** onAdd: appends an empty key item to the target shortcut, selects exactly
        that item (so the selection handler runs) and starts a capture for it. */
    method OnAdd()
      requires Valid() && built
      modifies this`tree, this`selection, this`addEnabled, this`removeEnabled, this`capturesStarted
      ensures Valid()
      ensures AddTarget(old(tree), old(selection)).None? ==>
                && tree == old(tree) && selection == old(selection)
                && addEnabled == old(addEnabled) && removeEnabled == old(removeEnabled)
                && capturesStarted == old(capturesStarted)
      ensures AddTarget(old(tree), old(selection)).Some? ==>
                var p := AddTarget(old(tree), old(selection)).value;
                && tree == AddKey(old(tree), p)
                && selection == [KeyPos(p.g, p.s, |old(tree)[p.g].children[p.s].keys|)]
                && addEnabled && removeEnabled
                && capturesStarted == old(capturesStarted) + 1
    {
      if |selection| == 0 {
        return;
      }
      var first := selection[0];
      var g, s;
      match first {
        case TopPos(_) =>
          return;
        case ShortcutPos(g0, s0) =>
          g, s := g0, s0;
        case KeyPos(g0, s0, _) =>
          g, s := g0, s0;
      }
      var keys := tree[g].children[s].keys;
      var newKey := KeyPos(g, s, |keys|);
      AppendDense(keys, "");
      SetKeysDense(tree, g, s, keys + [KeyItem(KeyLabel(|keys| + 1), "")]);
      tree := SetKeys(tree, g, s, keys + [KeyItem(KeyLabel(|keys| + 1), "")]);
      selection := [newKey];
      OnItemSelectionChanged();
      OnItemDoubleClicked(Some(newKey));
    }

    /** onRemove: with exactly one key item selected, takes it and renumbers the
        rest; with zero or several items selected, disables both buttons. */
    method OnRemove()
      requires Valid() && built
      modifies this`tree, this`selection, this`addEnabled, this`removeEnabled, this`dataChanged
      ensures Valid()
      ensures |old(selection)| != 1 ==>
                && !addEnabled && !removeEnabled
                && tree == old(tree) && selection == old(selection) && dataChanged == old(dataChanged)
      ensures |old(selection)| == 1 ==> addEnabled == old(addEnabled) && removeEnabled == old(removeEnabled)
      ensures |old(selection)| == 1 && SoleKey(old(selection)).None? ==>
                tree == old(tree) && selection == old(selection) && dataChanged == old(dataChanged)
      ensures SoleKey(old(selection)).Some? ==>
                && tree == RemoveKey(old(tree), old(selection)[0])
                && selection == []
                && dataChanged == old(dataChanged) + 1
    {
      if |selection| == 0 || |selection| > 1 {
        addEnabled := false;
        removeEnabled := false;
        return;
      }
      var item := selection[0];
      if item.KeyPos? {
        var g, s := item.g, item.s;
        var rest := RemoveAt(tree[g].children[s].keys, item.k);
        var keys := rest;
        var i := 0;
        while i < |keys|
          invariant 0 <= i <= |keys| == |rest|
          invariant forall m :: 0 <= m < i ==> keys[m] == rest[m].(caption := KeyLabel(m + 1))
          invariant forall m :: i <= m < |keys| ==> keys[m] == rest[m]
        {
          keys := keys[i := keys[i].(caption := KeyLabel(i + 1))];
          i := i + 1;
        }
        assert keys == Relabel(rest);
        assert SetKeys(tree, g, s, keys) == RemoveKey(tree, item);
        SetKeysDense(tree, g, s, keys);
        tree := SetKeys(tree, g, s, keys);
        selection := [];
        dataChanged := dataChanged + 1;
      }
    }

    /** onNewShortcutKey: a captured key sequence goes to the selected item when
        it is the only one and a key item; its label and every other item stay. */
    method OnNewShortcutKey(key: string)
      requires Valid() && built
      modifies this`tree, this`dataChanged
      ensures Valid()
      ensures SoleKey(selection).Some? ==>
                tree == SetKeyText(old(tree), selection[0], key) && dataChanged == old(dataChanged) + 1
      ensures SoleKey(selection).None? ==> tree == old(tree) && dataChanged == old(dataChanged)
    {
      if |selection| == 0 || |selection| > 1 {
        return;
      }
      var item := selection[0];
      if item.KeyPos? {
        var keys := tree[item.g].children[item.s].keys;
        SetKeysKeepsSelection(tree, item.g, item.s, keys[item.k := keys[item.k].(key := key)], selection);
        tree := SetKeyText(tree, item, key);
        dataChanged := dataChanged + 1;
      }
    }
  }
}
