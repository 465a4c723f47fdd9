/** Loading the tree from the settings store (widget() for the group level,
    restoreOptions for the rest) and the round trip with applyOptions. */
module Synchronizer {
  import opened KeyLabels
  import opened ShortcutTree
  import opened Settings

  /** The collaborators the tab reads from: PsiOptions::getChildOptionNames(path, true, true),
      PsiOptions::getComment and ShortcutManager::shortcuts, each as a plain function. */
  datatype Env = Env(
    childNames: string -> seq<string>,
    comment: string -> string,
    keysOf: string -> seq<string>)

  const ShortcutsRoot: string := "options.shortcuts"

  /** QString::mid(|ShortcutsRoot| + 1): the path without "options.shortcuts.";
      a path too short for that gives the empty string, as mid does. */
  function LogicalName(path: string): (r: string)
    ensures |path| >= |ShortcutsRoot| + 1 ==> path == path[..|ShortcutsRoot| + 1] + r
    ensures |path| < |ShortcutsRoot| + 1 ==> r == ""
  {
    if |path| <= |ShortcutsRoot| + 1 then "" else path[|ShortcutsRoot| + 1..]
  }

  /** Stripping undoes the prefix every shortcut option path carries. */
  lemma LogicalNameOfOptionPath(name: string)
    ensures LogicalName(ShortcutsRoot + "." + name) == name
  {
    var p := ShortcutsRoot + "." + name;
    assert p[|ShortcutsRoot| + 1..] == name;
  }

  /** One key item per looked-up sequence, in order, labelled "Key 1".."Key N". */
  function KeysFor(keys: seq<string>): (r: seq<KeyItem>)
    ensures DenseKeys(r)
    ensures KeyTexts(r) == keys
  {
    seq(|keys|, k requires 0 <= k < |keys| => KeyItem(KeyLabel(k + 1), keys[k]))
  }

  /** The shortcut item restoreOptions creates for option path name. */
  function ShortcutFor(env: Env, name: string): (r: ShortcutItem)
    ensures r.path == name && r.comment == env.comment(name)
    ensures DenseKeys(r.keys)
    ensures KeyTexts(r.keys) == env.keysOf(LogicalName(name))
  {
    ShortcutItem(env.comment(name), name, KeysFor(env.keysOf(LogicalName(name))))
  }

  function Loaded(env: Env, names: seq<string>): seq<ShortcutItem> {
    seq(|names|, j requires 0 <= j < |names| => ShortcutFor(env, names[j]))
  }

  /** A top-level item after restoreOptions: shortcuts appended when it has a path. */
  function RestoreTop(env: Env, top: TopItem): TopItem {
    if top.path == "" then top
    else top.(children := top.children + Loaded(env, env.childNames(top.path)))
  }

  /** The tree after restoreOptions. */
  function Restored(env: Env, t: Tree): Tree {
    seq(|t|, g requires 0 <= g < |t| => RestoreTop(env, t[g]))
  }

  /** restoreOptions keeps every item where it was and appends, under each
      top-level item with a path, one loaded shortcut per child option name. */
  lemma RestoredShape(env: Env, t: Tree)
    ensures Grows(t, Restored(env, t))
    ensures forall g :: 0 <= g < |t| ==>
              Restored(env, t)[g].path == t[g].path && Restored(env, t)[g].comment == t[g].comment
    ensures forall g :: 0 <= g < |t| && t[g].path == "" ==> Restored(env, t)[g] == t[g]
    ensures forall g :: 0 <= g < |t| && t[g].path != "" ==>
              |Restored(env, t)[g].children| == |t[g].children| + |env.childNames(t[g].path)|
    ensures forall g, j :: 0 <= g < |t| && t[g].path != "" && 0 <= j < |env.childNames(t[g].path)| ==>
              Restored(env, t)[g].children[|t[g].children| + j] == ShortcutFor(env, env.childNames(t[g].path)[j])
    ensures DenseTree(t) ==> DenseTree(Restored(env, t))
  {
    var r := Restored(env, t);
    if DenseTree(t) {
      forall g, s | 0 <= g < |r| && 0 <= s < |r[g].children| ensures DenseKeys(r[g].children[s].keys) {
        if s >= |t[g].children| {
          assert r[g].children[s] == ShortcutFor(env, env.childNames(t[g].path)[s - |t[g].children|]);
        }
      }
    }
  }

  /** The group level widget() builds: one top-level item per enumerated group, in order. */
  function Groups(env: Env): (r: Tree)
    ensures |r| == |env.childNames(ShortcutsRoot)|
    ensures forall g :: 0 <= g < |r| ==>
              && r[g].path == env.childNames(ShortcutsRoot)[g]
              && r[g].comment == env.comment(r[g].path)
              && r[g].children == []
  {
    var names := env.childNames(ShortcutsRoot);
    seq(|names|, g requires 0 <= g < |names| => TopItem(env.comment(names[g]), names[g], []))
  }

  /** Round trip: committing a restored tree writes back, for every shortcut
      restoreOptions loaded, the looked-up key list in its none/scalar/list form. */
  lemma RoundTrip(store: Store, env: Env, t: Tree, g: nat, j: nat)
    requires g < |t| && t[g].path != ""
    requires j < |env.childNames(t[g].path)|
    requires DistinctPaths(Shortcuts(Restored(env, t)))
    ensures var name := env.childNames(t[g].path)[j];
            && name in Commit(store, Shortcuts(Restored(env, t)))
            && Commit(store, Shortcuts(Restored(env, t)))[name] == Collapse(env.keysOf(LogicalName(name)))
  {
    var r := Restored(env, t);
    RestoredShape(env, t);
    var s := |t[g].children| + j;
    assert r[g].children[s] == ShortcutFor(env, env.childNames(t[g].path)[j]);
    CommitWritesEveryShortcut(store, r, g, s);
  }

  /** On a freshly built group level, the restored tree holds exactly the loaded shortcuts. */
  lemma RestoredFresh(env: Env, g: nat)
    requires g < |Groups(env)|
    ensures var top := Groups(env)[g];
            Restored(env, Groups(env))[g].children ==
              if top.path == "" then [] else Loaded(env, env.childNames(top.path))
  {
    var t := Groups(env);
    var r := Restored(env, t);
    RestoredShape(env, t);
    if t[g].path != "" {
      var want := Loaded(env, env.childNames(t[g].path));
      assert |r[g].children| == |want|;
      forall j | 0 <= j < |want| ensures r[g].children[j] == want[j] {
        assert r[g].children[|t[g].children| + j] == ShortcutFor(env, env.childNames(t[g].path)[j]);
      }
    }
  }
}
