/** Whole-tab scenarios: a client that drives ShortcutsTab the way the options
    dialog and the user do, with a small settings store. */
module Scenarios {
  import opened KeyLabels
  import opened Wrappers
  import opened ShortcutTree
  import opened Settings
  import opened Synchronizer
  import opened Editing
  import opened OptionsTab

  const ChatGroup: string := "options.shortcuts.chatdlg"
  const SendPath: string := "options.shortcuts.chatdlg.send"

  /** A store with the chat dialog group holding the single shortcut "send". */
  function ChatEnv(sendKeys: seq<string>): Env {
    Env(
      p => if p == ShortcutsRoot then [ChatGroup] else if p == ChatGroup then [SendPath] else [],
      p => if p == ChatGroup then "Chat dialog" else if p == SendPath then "Send message" else "",
      n => if n == "chatdlg.send" then sendKeys else [])
  }

  function ChatTree(sendKeys: seq<string>): Tree {
    [TopItem("Chat dialog", ChatGroup, [ShortcutItem("Send message", SendPath, KeysFor(sendKeys))])]
  }

  /** Loading that store gives one group holding one shortcut with the given keys. */
  lemma ChatLoaded(sendKeys: seq<string>)
    ensures Restored(ChatEnv(sendKeys), Groups(ChatEnv(sendKeys))) == ChatTree(sendKeys)
  {
    var env := ChatEnv(sendKeys);
    assert SendPath == ShortcutsRoot + "." + "chatdlg.send";
    LogicalNameOfOptionPath("chatdlg.send");
    var groups := Groups(env);
    assert groups == [TopItem("Chat dialog", ChatGroup, [])];
    assert env.childNames(ChatGroup) == [SendPath];
    assert LogicalName(SendPath) == "chatdlg.send";
    assert ShortcutFor(env, SendPath) == ShortcutItem("Send message", SendPath, KeysFor(sendKeys));
    assert Loaded(env, [SendPath]) == [ShortcutFor(env, SendPath)];
    assert RestoreTop(env, groups[0]) == TopItem("Chat dialog", ChatGroup, [ShortcutFor(env, SendPath)]);
  }

  /** The options dialog opens the tab: widget(), then restoreOptions. */
  method OpenChatTab(sendKeys: seq<string>) returns (tab: ShortcutsTab)
    ensures fresh(tab) && tab.Valid() && tab.built
    ensures tab.tree == ChatTree(sendKeys) && tab.selection == []
    ensures tab.dataChanged == 0 && tab.capturesStarted == 0
  {
    var env := ChatEnv(sendKeys);
    tab := new ShortcutsTab();
    var created := tab.Widget(env);
    tab.RestoreOptions(env);
    ChatLoaded(sendKeys);
  }

  /** A tree with a single shortcut item has that item as its only write. */
  lemma SingleShortcutWrites(t: Tree)
    requires |t| == 1 && |t[0].children| == 1
    ensures Shortcuts(t) == [t[0].children[0]]
  {
    assert t[..0] == [];
  }

  /** Load ["Ctrl+Return", "Enter"], remove "Key 1", apply: "Enter" is left as
      "Key 1" and is written back as a scalar. */
  method RemoveFirstKeyThenApply() returns (keys: seq<KeyItem>, written: Store)
    ensures keys == [KeyItem(KeyLabel(1), "Enter")]
    ensures SendPath in written && written[SendPath] == Scalar("Enter")
  {
    var tab := OpenChatTab(["Ctrl+Return", "Enter"]);
    var loaded := tab.tree;
    assert |loaded[0].children[0].keys| == 2;
    tab.SetSelection([KeyPos(0, 0, 0)]);
    tab.OnItemSelectionChanged();
    tab.OnRemove();
    var t := tab.tree;
    assert t == RemoveKey(loaded, KeyPos(0, 0, 0));
    keys := t[0].children[0].keys;
    assert KeyTexts(keys) == ["Enter"];
    written := tab.ApplyOptions(map[]);
    SingleShortcutWrites(t);
    CommitWritesEveryShortcut(map[], t, 0, 0);
  }

  /** A shortcut without keys: Add creates an empty "Key 1" and opens a capture;
      the captured "F2" lands in it and is written back as a scalar. */
  method AddCaptureThenApply() returns (written: Store)
    ensures SendPath in written && written[SendPath] == Scalar("F2")
  {
    var tab := OpenChatTab([]);
    tab.SetSelection([ShortcutPos(0, 0)]);
    tab.OnItemSelectionChanged();
    tab.OnAdd();
    assert tab.selection == [KeyPos(0, 0, 0)];
    tab.OnNewShortcutKey("F2");
    var t := tab.tree;
    assert KeyTexts(t[0].children[0].keys) == ["F2"];
    written := tab.ApplyOptions(map[]);
    SingleShortcutWrites(t);
    CommitWritesEveryShortcut(map[], t, 0, 0);
  }

  /** A capture started on "Key 1" whose result arrives after the user selected
      the shortcut item itself is dropped: the key and the store stay as loaded. */
  method CaptureAfterReselection() returns (key: string, started: nat, changes: nat)
    ensures key == "Ctrl+Return" && started == 1 && changes == 0
  {
    var tab := OpenChatTab(["Ctrl+Return"]);
    tab.SetSelection([KeyPos(0, 0, 0)]);
    tab.OnItemSelectionChanged();
    tab.OnItemDoubleClicked(Some(KeyPos(0, 0, 0)));
    tab.SetSelection([ShortcutPos(0, 0)]);
    tab.OnItemSelectionChanged();
    tab.OnNewShortcutKey("F5");
    key := tab.tree[0].children[0].keys[0].key;
    started := tab.capturesStarted;
    changes := tab.dataChanged;
  }
}
