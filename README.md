# Psi keyboard-shortcut options tab, modelled in Dafny

This project models `OptionsTabShortcuts` from Psi, an instant-messaging
client's options tab for editing keyboard shortcuts, with the widgets taken
away. What is left is a three-level tree:

- top-level (group) items, each with a comment and an option path;
- shortcut items, each with a comment and an option path;
- key items, each with a "Key N" label and a key-sequence string.

The tab keeps this tree together with the tree widget's selection, the
enabled state of the Add and Remove buttons, and whether the widget has
been built. The model also counts the `dataChanged()` signals the tab emits
and the key-capture dialogs it opens.

The settings store (`PsiOptions`) is split in two:

- `Settings.Store` is a map from option path to value. A value is absent,
  a scalar string or a list of strings.
- `Synchronizer.Env` holds the read side as three plain functions: child
  option names of a path, the comment of a path, and the key sequences
  bound to a logical shortcut name (`ShortcutManager::shortcuts`).

The capture dialog is not modelled. It reaches the tab as an outside call
to `OnNewShortcutKey(key)`.

Files and modules:

- `key_labels.dfy` (`KeyLabels`): the decimal "Key N" labels.
- `shortcut_tree.dfy` (`ShortcutTree`): the item datatypes, positions and
  selections, and dense labelling.
- `settings.dfy` (`Settings`): store values, the none/scalar/list
  convention, and `Commit`, which gives the store after applyOptions.
- `synchronizer.dfy` (`Synchronizer`): the group level built by `widget()`,
  the tree after restoreOptions, and the round trip.
- `editing.dfy` (`Editing`): the button table and the trees after Add,
  Remove and a capture.
- `options_tab.dfy` (`OptionsTab`): the class `ShortcutsTab`. It has the
  C++ class's constructor, `widget()`, `applyOptions`, `restoreOptions` and
  its five slots, each proved against the functions above. `SetSelection`
  stands for the toolkit's selection change. The destructor is not
  modelled: it does nothing.
- `scenarios.dfy` (`Scenarios`): clients that drive the class through
  worked examples: load then remove, add then capture, a stale capture.
- `wrappers.dfy` (`Wrappers`): `Option`.

`ShortcutsTab.Valid()` is kept by every method. It says three things:

- the selection names existing items, each once;
- under every shortcut the key labels are "Key 1".."Key N" in child order;
- there is neither tree nor selection before the widget exists.

## Model

| member | source | states |
|---|---|---|
| KeyLabels.KeyLabelInjective | src/options/opt_shortcuts.cpp:208 | two "Key %1" labels are equal only for the same ordinal, so a dense label names exactly one child position |
| KeyLabels.KeyLabel | src/options/opt_shortcuts.cpp:208 | the text "Key " followed by the decimal ordinal, as QString("Key %1").arg(n) renders it |
| KeyLabels.Decimal | src/options/opt_shortcuts.cpp:252 | a non-empty string of decimal digits, one digit exactly for ordinals below ten |
| KeyLabels.ParseDecimalOfDecimal | src/options/opt_shortcuts.cpp:252 | the decimal text that %1 puts into a label reads back as the same number |
| ShortcutTree.Relabel | src/options/opt_shortcuts.cpp:291-294 | the renumbering loop leaves labels "Key 1".."Key N" in child order and keeps every key sequence |
| ShortcutTree.RemoveAt | src/options/opt_shortcuts.cpp:289 | takeChild removes exactly one child; the children before it keep their places and the ones after it move up by one |
| ShortcutTree.RemoveKeepsOrder | src/options/opt_shortcuts.cpp:286-294 | after the removal and renumbering, labels are dense and the key sequences are the old ones minus the removed one, in the old order |
| ShortcutTree.SetKeys | src/options/opt_shortcuts.cpp:251-254 | replacing one shortcut's key items changes no other top-level item, no other shortcut and none of that shortcut's own comment and path |
| ShortcutTree.DenseLabelsUnique | src/options/opt_shortcuts.cpp:291-294 | under dense labelling no two key items of a shortcut carry the same label |
| ShortcutTree.SetKeysDense | src/options/opt_shortcuts.cpp:286-294 | changing one shortcut's key items to dense ones keeps labels dense under every shortcut |
| ShortcutTree.GrowsKeepsSelection | src/options/opt_shortcuts.cpp:198-211 | appending children keeps every selected item where it was |
| Settings.ShortcutsMembers | src/options/opt_shortcuts.cpp:122-129 | the flattened shortcut list contains every shortcut item of every top-level item, and nothing else |
| Settings.Collapse | src/options/opt_shortcuts.cpp:134-153 | the none/scalar/list form loses nothing: the key list can be read back from the written value, and a list value holds at least two sequences |
| Settings.Shortcuts | src/options/opt_shortcuts.cpp:122-129 | the shortcut items in the order applyOptions visits them: top-level item by top-level item, children in order |
| Settings.Commit | src/options/opt_shortcuts.cpp:127-154 | the store after one setOption per item, in order, each writing the item's none/scalar/list value at its path |
| Settings.CommitLastWrite | src/options/opt_shortcuts.cpp:127-154 | after the sequence of setOption calls, a path holds the value of the last shortcut item written to it |
| Settings.CommitUntouched | src/options/opt_shortcuts.cpp:127-154 | a path that no shortcut item carries keeps its old value, or stays absent |
| Settings.CommitWritesEveryShortcut | src/options/opt_shortcuts.cpp:122-155 | with unique shortcut paths, every shortcut item is in the store at its own path: absent for 0 keys, the single key text for 1, the key texts in child order for 2 or more |
| Settings.CommitLeavesOtherPaths | src/options/opt_shortcuts.cpp:122-128 | a path that is no shortcut's path, for example a top-level item's, is never written |
| Synchronizer.LogicalName | src/options/opt_shortcuts.cpp:194 | the lookup name is the path without its first len("options.shortcuts")+1 characters, and empty when the path is shorter than that |
| Synchronizer.LogicalNameOfOptionPath | src/options/opt_shortcuts.cpp:194 | for a path "options.shortcuts.X" the lookup name is X |
| Synchronizer.KeysFor | src/options/opt_shortcuts.cpp:205-212 | one key item per looked-up sequence, in order, labelled "Key 1".."Key N" |
| Synchronizer.ShortcutFor | src/options/opt_shortcuts.cpp:194-212 | a loaded shortcut item carries its path, its path's comment, dense labels, and exactly the key sequences looked up under its logical name |
| Synchronizer.Loaded | src/options/opt_shortcuts.cpp:190-213 | one loaded shortcut item per child option name, in order |
| Synchronizer.RestoreTop | src/options/opt_shortcuts.cpp:185-214 | a top-level item with an empty path is left alone; otherwise its loaded shortcuts are appended after its existing children |
| Synchronizer.Restored | src/options/opt_shortcuts.cpp:183-215 | every top-level item, in order, as RestoreTop leaves it |
| Synchronizer.RestoredShape | src/options/opt_shortcuts.cpp:183-215 | restoreOptions keeps every existing item in place; under each top-level item with a non-empty path it appends one shortcut item per child option name, in order; items with an empty path are untouched; dense labels stay dense |
| Synchronizer.Groups | src/options/opt_shortcuts.cpp:76-86 | one top-level item per enumerated group name, in order, with that group's path and comment and no children |
| Synchronizer.RoundTrip | src/options/opt_shortcuts.cpp:135-153 | committing a restored tree writes back, for every shortcut restoreOptions loaded, its looked-up key list in the none/scalar/list form (paths assumed unique) |
| Synchronizer.RestoredFresh | src/options/opt_shortcuts.cpp:183-215 | on the freshly built group level, each restored top-level item holds exactly the loaded shortcuts of its path, or none when the path is empty |
| Editing.Enablement | src/options/opt_shortcuts.cpp:310-334 | Add is on exactly for a single selected item that is not top-level; Remove is on exactly for a single selected key item |
| Editing.AddTarget | src/options/opt_shortcuts.cpp:231-246 | onAdd has no target for an empty selection or when the first selected item is a top-level item; otherwise the target is the first selected shortcut, or the parent of the first selected key item |
| Editing.SoleKey | src/options/opt_shortcuts.cpp:366-373 | remove and capture act only when exactly one item is selected and it is a key item, and then they act on that item |
| Editing.AddKey | src/options/opt_shortcuts.cpp:249-254 | the new key item is appended after the existing ones with an empty key, labelled with the new child count; nothing else in the tree changes; labels stay dense |
| Editing.RemoveKey | src/options/opt_shortcuts.cpp:286-294 | the key item is gone, the siblings keep their key sequences in order under dense labels, and no other item changes |
| Editing.SetKeyText | src/options/opt_shortcuts.cpp:373-374 | only the key text of the target key item changes; its label, its siblings and the rest of the tree stay as they were |
| Editing.RemoveEnabledIffRemoves | src/options/opt_shortcuts.cpp:305-335 | Remove is enabled exactly when onRemove would take an item |
| Editing.AddEnabledIffAdds | src/options/opt_shortcuts.cpp:305-335 | Add is enabled exactly when one item is selected and onAdd has a target for it |
| Editing.RemoveRelabelsFollower | src/options/opt_shortcuts.cpp:292-294 | after a removal, the key that followed the removed one takes over its label and keeps its key sequence |
| OptionsTab.OptionValueOf | src/options/opt_shortcuts.cpp:134-153 | the value handed to setOption for one shortcut is its none/scalar/list form |
| OptionsTab.ShortcutsTab.constructor | src/options/opt_shortcuts.cpp:47-51 | a new tab has no widget, no tree and no selection |
| OptionsTab.ShortcutsTab.Widget | src/options/opt_shortcuts.cpp:64-96 | the first call builds the group level and disables both buttons; a later call returns null and changes nothing |
| OptionsTab.ShortcutsTab.ApplyOptions | src/options/opt_shortcuts.cpp:102-156 | the store afterwards is the one after one setOption per shortcut item, in tree order; nothing is written when the widget was never built |
| OptionsTab.ShortcutsTab.RestoreOptions | src/options/opt_shortcuts.cpp:162-216 | the tree afterwards is the restored tree; nothing is cleared and no other state changes |
| OptionsTab.ShortcutsTab.SetSelection | src/options/opt_shortcuts.cpp:227 | the toolkit's selection change: selectedItems() afterwards is the new selection, and nothing else changes |
| OptionsTab.ShortcutsTab.OnItemSelectionChanged | src/options/opt_shortcuts.cpp:305-335 | the buttons follow the table: off/off for no or several items or a top-level item, on/off for a shortcut, on/on for a key |
| OptionsTab.ShortcutsTab.OnItemDoubleClicked | src/options/opt_shortcuts.cpp:340-351 | a capture dialog opens exactly for a non-null item without children |
| OptionsTab.ShortcutsTab.OnAdd | src/options/opt_shortcuts.cpp:221-263 | with no target nothing changes; otherwise the target gets an empty "Key n" item, exactly that item is selected, both buttons turn on and one capture starts |
| OptionsTab.ShortcutsTab.OnRemove | src/options/opt_shortcuts.cpp:268-299 | with zero or several items selected both buttons turn off and the tree stays; with one key item it is removed and the rest renumbered, and dataChanged fires; with one other item nothing changes |
| OptionsTab.ShortcutsTab.OnNewShortcutKey | src/options/opt_shortcuts.cpp:358-377 | with a single key item selected its key text is replaced and dataChanged fires; otherwise nothing changes |
| Scenarios.RemoveFirstKeyThenApply | src/options/opt_shortcuts.cpp:268-299 | loading "Ctrl+Return", "Enter", removing "Key 1" and applying leaves "Key 1" = "Enter" and writes the scalar "Enter" |
| Scenarios.AddCaptureThenApply | src/options/opt_shortcuts.cpp:221-263 | adding to a shortcut without keys, capturing "F2" and applying writes the scalar "F2" |
| Scenarios.CaptureAfterReselection | src/options/opt_shortcuts.cpp:358-377 | a capture whose result arrives after the user selected a non-key item changes nothing and fires no dataChanged |

## Behaviour of the code worth knowing

- `onAdd` emits no `dataChanged()` (lines 221-263). Only a removal and an
  applied capture do, so adding an empty key alone does not mark the tab
  changed.
- A capture result is not tied to the item it was started for (lines
  366-374). It goes to whichever item is the only one selected when it
  arrives, if that is a key item, and is dropped otherwise.
- `restoreOptions` appends to the existing items and never clears them
  (lines 198-211). Running it twice lists every shortcut twice.
- A path shorter than "options.shortcuts." gives an empty lookup name
  (line 194): `QString::mid` past the end returns an empty string
  (`Synchronizer.LogicalName`).
- A capture can also start on a top-level or shortcut item that has no
  children (lines 344-345). Its result is dropped unless a single key item
  is selected when it arrives.

## Left out

- `src/tools/advwidget/advwidget.h` is not part of this model. It is
  window-manager glue (snapping, flashing, geometry) that delegates to a
  hidden private class.
- `src/contactlistitemproxy.h` is not part of this model. It is two
  auto-nulling toolkit pointers with getters.
- Column widths, expand state and the `connect` calls (lines 72, 84, 91-94,
  249) are left out. They only affect display.
- The capture dialog's creation and modality (lines 348-350) are left out.
  Opening it counts one `capturesStarted`, and its result arrives as a
  later outside call to `OnNewShortcutKey`.
- `PsiOptions::instance()` and `ShortcutManager::instance()` become the
  `Env` parameter and the `Store` map. How the store persists values is not
  modelled.
- `QKeySequence::toString` is left out. Key sequences are opaque strings.
- The toolkit's item-kind data (ITEMKIND) is left out. The datatypes'
  levels carry the kind.
- Toolkit signals are left out. The itemSelectionChanged signal is an
  explicit call: a user's selection change is `SetSelection` followed by
  `OnItemSelectionChanged`. Inside `onAdd`, which changes the selection
  itself, the model runs the handler.
- After `onRemove` takes the selected item, the handler is not run again,
  and the buttons keep their state. A second Remove press then finds an
  empty selection and disables both buttons (lines 273-276).
- The slots (`OnAdd`, `OnRemove`, `OnItemSelectionChanged`,
  `OnItemDoubleClicked`, `OnNewShortcutKey`) require the widget to be
  built. `onAdd`, `onRemove`, `onItemSelectionChanged` and
  `onNewShortcutKey` dereference the widget's pointer `w`. Every slot is
  reached only after `widget()`: the tree and button signals are connected
  there (lines 91-94), and `onNewShortcutKey` is connected to a capture
  dialog that only a double-click on the tree opens (line 349).
- Settings.CommitWritesEveryShortcut and Synchronizer.RoundTrip assume that
  shortcut paths are unique, because the code does not enforce it.
  Settings.CommitLastWrite states the general case: the last writer wins.
- The addChild-after-parented-construction detail (80/85, 198/202,
  207/211, 251/254) is left out. Each item is appended once.
