/**
 * Clients of the editor that use only its contracts, one per behaviour the
 * source promises across several calls.
 */
module Scenarios {
  import opened Wrappers
  import opened OutlineView
  import opened Editor

  /**
   * Two deferred updates in one turn: the second throws, and when the queued
   * continuation runs, only the first candidate is committed.
   */
  method SecondDeferredUpdateFails(element: Element, body: Node)
    returns (first: Outcome<EditorError>, second: Outcome<EditorError>, a: ViewModel, ghost commits: seq<ViewModel>)
    ensures first == Pass && second == Fail(UpdateInProgress)
    ensures commits == [a]
  {
    var editor, _ := CreateOutlineEditor(element, NotAFunction, body);
    a := new ViewModel();
    var b := new ViewModel();
    first := editor.Update(a, false);
    assert editor.IsUpdating();
    second := editor.Update(b, false);
    editor.RunDeferred();
    assert !editor.IsUpdating();
    commits := editor.committed;
  }

  /**
   * Updating with the current view model does nothing, even with
   * `forceSync`; a different candidate with `forceSync` is committed before
   * the call returns and leaves nothing pending.
   */
  method SyncUpdateCommitsAtOnce(element: Element, body: Node)
    returns (same: Outcome<EditorError>, other: Outcome<EditorError>, a: ViewModel, updating: bool, ghost commits: seq<ViewModel>)
    ensures same == Pass && other == Pass && !updating
    ensures commits == [a]
  {
    var editor, _ := CreateOutlineEditor(element, NotAFunction, body);
    same := editor.Update(editor.viewModel, true);
    assert editor.committed == [];
    a := new ViewModel();
    other := editor.Update(a, true);
    updating := editor.IsUpdating();
    commits := editor.committed;
  }

  /**
   * A tag registered twice holds the later class; the first registration's
   * unregister function still deletes the tag.
   */
  method NodeTypeRoundTrip(element: Element, body: Node)
    returns (registered: Option<NodeKind>, unregistered: Option<NodeKind>, block: Option<NodeKind>)
    ensures registered == Some(UserNode("second"))
    ensures unregistered == None
    ensures block == Some(BlockNode)
  {
    var editor, _ := CreateOutlineEditor(element, NotAFunction, body);
    var unregisterFirst := editor.AddNodeType("custom", UserNode("first"));
    var _ := editor.AddNodeType("custom", UserNode("second"));
    registered := Lookup(editor.registeredNodeTypes, "custom");
    assert Lookup(editor.registeredNodeTypes, "block") == Some(BlockNode);
    unregisterFirst.Invoke();
    unregistered := Lookup(editor.registeredNodeTypes, "custom");
    block := Lookup(editor.registeredNodeTypes, "block");
  }

  /**
   * Adding a transform twice keeps one copy; its unregister function removes
   * it and leaves the other transforms registered.
   */
  method TextTransformRoundTrip(element: Element, body: Node, f: Transform, g: Transform)
    returns (transforms: set<Transform>)
    requires f != g
    ensures transforms == {g}
  {
    var editor, _ := CreateOutlineEditor(element, Function(0), body);
    var unregisterF := editor.AddTextTransform(f);
    var _ := editor.AddTextTransform(f);
    var _ := editor.AddTextTransform(g);
    assert editor.textTransforms == {f, g};
    unregisterF.Invoke();
    transforms := editor.textTransforms;
  }

  /** A freshly created editor can resolve `'body'` and no other key. */
  method FreshEditorLookups(element: Element, body: Node, key: Key)
    returns (bodyElement: Result<Element, EditorError>, other: Result<Element, EditorError>)
    requires key != "body" && element != Undefined
    ensures bodyElement == Success(element)
    ensures other == Failure(KeyNotFound(key))
  {
    var editor, _ := CreateOutlineEditor(element, NotAFunction, body);
    bodyElement := editor.GetElementByKey("body");
    other := editor.GetElementByKey(key);
  }

  /**
   * An editor created over an `undefined` element binds `'body'` to
   * `undefined`, so looking `'body'` up throws.
   */
  method UndefinedEditorElement(body: Node) returns (bodyElement: Result<Element, EditorError>, bound: bool)
    ensures bound
    ensures bodyElement == Failure(KeyNotFound("body"))
  {
    var editor, _ := CreateOutlineEditor(Undefined, NotAFunction, body);
    bound := "body" in editor.keyToDOMMap;
    bodyElement := editor.GetElementByKey("body");
  }
}
