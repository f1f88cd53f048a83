/**
 * The editor coordinator of OutlineEditor.js: the node-type and
 * text-transform registries with their unregister capabilities, the
 * key-to-element lookup, diff extraction, and the update scheduler.
 */
module Editor {
  import opened Wrappers
  import opened OutlineView
  import Scheduler

  /**
   * A value stored as a rendered element: a DOM element handle (or any other
   * value, `null` included), or JavaScript's `undefined`, which
   * `getElementByKey` cannot tell apart from a missing key.
   */
  datatype Element = Element(handle: nat) | Undefined

  /** A text-transform function, compared by reference like the source's Set members. */
  datatype Transform = Transform(fn: nat)

  /** The `onChange` argument: a function, or any value whose `typeof` is not 'function'. */
  datatype Callback = Function(fn: nat) | NotAFunction

  /** The errors the editor throws. */
  datatype EditorError = KeyNotFound(key: Key) | DiffUnavailable | UpdateInProgress

  /** The message of the `Error` the source throws for each case. */
  function Message(e: EditorError): (msg: string)
    ensures e.KeyNotFound? ==> |msg| >= |e.key| && msg[|msg| - |e.key|..] == e.key
  {
    match e
    case KeyNotFound(key) => "getElementByKey failed for key " + key
    case DiffUnavailable => "getDiffFromViewModel" + ": unable to get diff from view mode"
    case UpdateInProgress => "TODOL: Should never occur?"
  }

  /** Each thrown message names its failure: different errors never share a message. */
  lemma MessageIdentifiesError(e1: EditorError, e2: EditorError)
    requires e1 != e2
    ensures Message(e1) != Message(e2)
  {
    var prefix := "getElementByKey failed for key ";
    if e1.KeyNotFound? && e2.KeyNotFound? {
      assert Message(e1)[|prefix|..] == e1.key != e2.key == Message(e2)[|prefix|..];
    } else {
      assert Message(e1)[3] != Message(e2)[3] by {
        assert e1.KeyNotFound? ==> Message(e1)[3] == (prefix + e1.key)[3] == 'E';
        assert e2.KeyNotFound? ==> Message(e2)[3] == (prefix + e2.key)[3] == 'E';
        assert e1.DiffUnavailable? ==> Message(e1)[3] == 'D';
        assert e2.DiffUnavailable? ==> Message(e2)[3] == 'D';
        assert e1.UpdateInProgress? ==> Message(e1)[3] == 'O';
        assert e2.UpdateInProgress? ==> Message(e2)[3] == 'O';
      }
    }
  }

  /** What `getDiffFromViewModel` returns. */
  datatype Diff = Diff(dirtySubTrees: set<Key>, nodes: seq<Option<Node>>, selection: Selection, timeStamp: int)

  /** The registry every editor starts with: `body` reuses the block node class. */
  function DefaultNodeTypes(): (types: map<string, NodeKind>)
    ensures types.Keys == {"block", "text", "body"}
    ensures types["block"] == BlockNode && types["text"] == TextNode
    ensures types["body"] == types["block"]
  {
    map["block" := BlockNode, "text" := TextNode, "body" := BlockNode]
  }

  /**
   * Distinct dirty keys (as a view model's Set holds them), all present in a
   * well-keyed node map, resolve to distinct nodes, one per key.
   */
  lemma ResolvedNodesDistinct(keys: seq<Key>, nodeMap: map<Key, Node>)
    requires Distinct(keys) && WellKeyed(nodeMap)
    requires forall i :: 0 <= i < |keys| ==> keys[i] in nodeMap
    ensures var nodes := ResolveKeys(keys, nodeMap);
      && (forall i :: 0 <= i < |nodes| ==> nodes[i].Some?)
      && (forall i, j :: 0 <= i < j < |nodes| ==> nodes[i] != nodes[j])
  {
    var nodes := ResolveKeys(keys, nodeMap);
    forall i, j | 0 <= i < j < |nodes|
      ensures nodes[i] != nodes[j]
    {
      assert nodes[i].value.key == keys[i] != keys[j] == nodes[j].value.key;
    }
  }

  /** `Array.from(dirtyNodes).map((nodeKey) => nodeMap[nodeKey])`. */
  function ResolveKeys(keys: seq<Key>, nodeMap: map<Key, Node>): (nodes: seq<Option<Node>>)
    ensures |nodes| == |keys|
    ensures forall i :: 0 <= i < |keys| ==> nodes[i] == Lookup(nodeMap, keys[i])
  {
    if keys == [] then [] else [Lookup(nodeMap, keys[0])] + ResolveKeys(keys[1..], nodeMap)
  }

  /** The keys of resolved nodes, with `None` for a node that was `undefined`. */
  function KeysOf(nodes: seq<Option<Node>>): seq<Option<Key>>
  {
    if nodes == [] then []
    else [if nodes[0].Some? then Some(nodes[0].value.key) else None] + KeysOf(nodes[1..])
  }

  /** Every node is stored under its own key, as a view model's node map keeps it. */
  ghost predicate WellKeyed(nodeMap: map<Key, Node>)
  {
    forall k :: k in nodeMap ==> nodeMap[k].key == k
  }

  /**
   * In a well-keyed node map, resolving dirty keys that are all present gives
   * the nodes of exactly those keys, in the dirty set's iteration order.
   */
  lemma {:induction false} ResolvedNodesFollowDirtyOrder(keys: seq<Key>, nodeMap: map<Key, Node>)
    requires WellKeyed(nodeMap)
    requires forall i :: 0 <= i < |keys| ==> keys[i] in nodeMap
    ensures KeysOf(ResolveKeys(keys, nodeMap)) == seq(|keys|, i requires 0 <= i < |keys| => Some(keys[i]))
  {
    if keys != [] {
      ResolvedNodesFollowDirtyOrder(keys[1..], nodeMap);
      var nodes := ResolveKeys(keys, nodeMap);
      assert nodes[1..] == ResolveKeys(keys[1..], nodeMap);
    }
  }

  class OutlineEditor {
    var editorElement: Element
    var viewModel: ViewModel
    var isUpdating: bool
    var keyToDOMMap: map<Key, Element>
    var onChange: Callback
    var textTransforms: set<Transform>
    var registeredNodeTypes: map<string, NodeKind>
    /** The continuation queued by a deferred `update`, holding its candidate. */
    var pending: Option<ViewModel>
    /** Every view model handed to `updateViewModel`, in order. */
    ghost var committed: seq<ViewModel>

    /** `_isUpdating` is set exactly while a deferred commit is queued. */
    ghost predicate Valid()
      reads this
    {
      isUpdating <==> pending.Some?
    }

    /** The scheduler phase this editor is in. */
    ghost function Phase(): Scheduler.Phase<ViewModel>
      reads this
    {
      if pending.Some? then Scheduler.CommitPending(pending.value) else Scheduler.Idle
    }

    constructor(editorElement: Element, viewModel: ViewModel, onChange: Callback)
      ensures Valid() && Phase() == Scheduler.Idle
      ensures this.editorElement == editorElement && this.viewModel == viewModel && this.onChange == onChange
      ensures !isUpdating && keyToDOMMap == map[] && textTransforms == {}
      ensures registeredNodeTypes == DefaultNodeTypes()
      ensures committed == []
    {
      this.editorElement := editorElement;
      this.viewModel := viewModel;
      isUpdating := false;
      keyToDOMMap := map[];
      this.onChange := onChange;
      textTransforms := {};
      registeredNodeTypes := DefaultNodeTypes();
      pending := None;
      committed := [];
    }

    /** Registers `node` under `nodeType`, replacing any earlier class for that tag. */
    method AddNodeType(nodeType: string, node: NodeKind) returns (unregister: NodeTypeUnregister)
      modifies this`registeredNodeTypes
      ensures nodeType in registeredNodeTypes && registeredNodeTypes[nodeType] == node
      ensures forall t :: t != nodeType ==> Lookup(registeredNodeTypes, t) == Lookup(old(registeredNodeTypes), t)
      ensures registeredNodeTypes.Keys == old(registeredNodeTypes).Keys + {nodeType}
      ensures fresh(unregister) && unregister.editor == this && unregister.nodeType == nodeType
    {
      registeredNodeTypes := registeredNodeTypes[nodeType := node];
      unregister := new NodeTypeUnregister(this, nodeType);
    }

    /** Adds `transformFn` to the transform set. */
    method AddTextTransform(transformFn: Transform) returns (unregister: TextTransformUnregister)
      modifies this`textTransforms
      ensures textTransforms == old(textTransforms) + {transformFn}
      ensures fresh(unregister) && unregister.editor == this && unregister.transformFn == transformFn
    {
      textTransforms := textTransforms + {transformFn};
      unregister := new TextTransformUnregister(this, transformFn);
    }

    /** `isUpdating()`: whether a deferred commit is queued. */
    function IsUpdating(): (updating: bool)
      requires Valid()
      reads this
      ensures updating <==> Phase().CommitPending?
    {
      isUpdating
    }

    /** The rendered element registered for `key`; throws when there is none. */
    function GetElementByKey(key: Key): (r: Result<Element, EditorError>)
      reads this
      ensures r.Success? <==> key in keyToDOMMap && keyToDOMMap[key] != Undefined
      ensures r.Success? ==> r.value == keyToDOMMap[key] && r.value != Undefined
      ensures r.Failure? ==> r.error == KeyNotFound(key)
    {
      var element := if key in keyToDOMMap then keyToDOMMap[key] else Undefined;
      if element == Undefined then Failure(KeyNotFound(key)) else Success(element)
    }

    /**
     * The diff of `viewModel`: throws unless both dirty sets are present;
     * otherwise resolves every dirty key through the node map in iteration
     * order, shares the dirty-subtree set and copies the selection. `now` is
     * the clock reading.
     */
    function GetDiffFromViewModel(viewModel: ViewModel, now: int): (r: Result<Diff, EditorError>)
      reads viewModel
      ensures r.Failure? <==> viewModel.dirtyNodes.None? || viewModel.dirtySubTrees.None?
      ensures r.Failure? ==> r.error == DiffUnavailable
      ensures r.Success? ==>
        && viewModel.dirtyNodes.Some? && viewModel.dirtySubTrees.Some?
        && r.value.dirtySubTrees == viewModel.dirtySubTrees.value
        && |r.value.nodes| == |viewModel.dirtyNodes.value|
        && (forall i :: 0 <= i < |r.value.nodes| ==>
              r.value.nodes[i] == Lookup(viewModel.nodeMap, viewModel.dirtyNodes.value[i]))
        && r.value.selection == viewModel.selection
        && r.value.timeStamp == now
    {
      if viewModel.dirtyNodes.None? || viewModel.dirtySubTrees.None? then
        Failure(DiffUnavailable)
      else
        Success(Diff(
          viewModel.dirtySubTrees.value,
          ResolveKeys(viewModel.dirtyNodes.value, viewModel.nodeMap),
          Selection(viewModel.selection.properties),
          now))
    }

    /**
     * `update(candidate, forceSync)`: throws while a commit is pending, does
     * nothing for the current view model, commits at once with `forceSync`,
     * and otherwise queues one continuation that will commit later.
     */
    method Update(candidate: ViewModel, forceSync: bool) returns (r: Outcome<EditorError>)
      requires Valid()
      modifies this, candidate
      ensures Valid()
      ensures var s := Scheduler.Step(old(Phase()), Scheduler.Update(candidate, candidate == old(viewModel), forceSync));
        && Phase() == s.phase
        && (r.Fail? <==> s.failed)
        && committed == old(committed) + s.commits
      ensures old(isUpdating) ==> r == Fail(UpdateInProgress) && unchanged(this) && unchanged(candidate)
      ensures !old(isUpdating) && candidate == old(viewModel) ==> r == Pass && unchanged(this) && unchanged(candidate)
      ensures !old(isUpdating) && candidate != old(viewModel) && forceSync ==>
        && r == Pass && !isUpdating && pending == None
        && committed == old(committed) + [candidate]
      ensures !old(isUpdating) && candidate != old(viewModel) && !forceSync ==>
        && r == Pass && isUpdating && pending == Some(candidate)
        && committed == old(committed)
        && unchanged(candidate)
        && unchanged(this`editorElement, this`viewModel, this`keyToDOMMap, this`onChange)
        && unchanged(this`textTransforms, this`registeredNodeTypes)
    {
      if isUpdating {
        return Fail(UpdateInProgress);
      }
      if candidate == viewModel {
        return Pass;
      }
      if forceSync {
        UpdateViewModel(candidate, this);
      } else {
        isUpdating := true;
        pending := Some(candidate);
      }
      r := Pass;
    }

    /** The queued continuation, run on a later turn: clears the flag, then commits. */
    method RunDeferred()
      requires Valid() && pending.Some?
      modifies this, pending.value
      ensures Valid()
      ensures var s := Scheduler.Step(old(Phase()), Scheduler.RunDeferred);
        Phase() == s.phase && committed == old(committed) + s.commits
      ensures !isUpdating && pending == None
      ensures committed == old(committed) + [old(pending).value]
    {
      var candidate := pending.value;
      isUpdating := false;
      pending := None;
      UpdateViewModel(candidate, this);
    }
  }

  /** The function `addNodeType` returns: deletes the tag it was created for. */
  class NodeTypeUnregister {
    const editor: OutlineEditor
    const nodeType: string

    constructor(editor: OutlineEditor, nodeType: string)
      ensures this.editor == editor && this.nodeType == nodeType
    {
      this.editor := editor;
      this.nodeType := nodeType;
    }

    /** Removes `nodeType`, whatever class is registered under it now. */
    method Invoke()
      modifies editor`registeredNodeTypes
      ensures editor.registeredNodeTypes == old(editor.registeredNodeTypes) - {nodeType}
    {
      editor.registeredNodeTypes := editor.registeredNodeTypes - {nodeType};
    }
  }

  /** The function `addTextTransform` returns: deletes the transform it was created for. */
  class TextTransformUnregister {
    const editor: OutlineEditor
    const transformFn: Transform

    constructor(editor: OutlineEditor, transformFn: Transform)
      ensures this.editor == editor && this.transformFn == transformFn
    {
      this.editor := editor;
      this.transformFn := transformFn;
    }

    /** Removes `transformFn` and no other transform. */
    method Invoke()
      modifies editor`textTransforms
      ensures editor.textTransforms == old(editor.textTransforms) - {transformFn}
    {
      editor.textTransforms := editor.textTransforms - {transformFn};
    }
  }

  /**
   * Stand-in for `updateViewModel` from OutlineView.js, which is not part of
   * this model: it records the commit and promises only that it leaves the
   * scheduler's state alone. It may change the editor and the view model.
   * The editor always commits while idle: the continuation clears the flag
   * first, so the commit (and the `onChange` it triggers) sees an editor
   * that accepts a new `update`.
   */
  method UpdateViewModel(viewModel: ViewModel, editor: OutlineEditor)
    requires !editor.isUpdating && editor.pending.None?
    modifies editor, viewModel
    ensures editor.committed == old(editor.committed) + [viewModel]
    ensures !editor.isUpdating && editor.pending.None?
  {
    editor.committed := editor.committed + [viewModel];
  }

  /**
   * `createOutlineEditor`: a fresh view model whose body is `body` (what
   * `createBodyNode()` returned), an editor over it with `'body'` bound to
   * the editor element, and one `onChange` call with the view model when,
   * and only when, `onChange` is a function (recorded in `notified`).
   */
  method CreateOutlineEditor(editorElement: Element, onChange: Callback, body: Node)
    returns (editor: OutlineEditor, ghost notified: seq<ViewModel>)
    ensures fresh(editor) && fresh(editor.viewModel) && editor.Valid()
    ensures editor.viewModel.body == Some(body)
    ensures "body" in editor.viewModel.nodeMap && editor.viewModel.nodeMap["body"] == body
    ensures editor.keyToDOMMap == map["body" := editorElement]
    ensures editor.GetElementByKey("body") ==
      if editorElement == Undefined then Failure(KeyNotFound("body")) else Success(editorElement)
    ensures editor.editorElement == editorElement && editor.onChange == onChange
    ensures !editor.isUpdating && editor.pending == None && editor.committed == []
    ensures editor.textTransforms == {} && editor.registeredNodeTypes == DefaultNodeTypes()
    ensures notified == if onChange.Function? then [editor.viewModel] else []
  {
    var viewModel := new ViewModel();
    viewModel.body := Some(body);
    viewModel.nodeMap := viewModel.nodeMap["body" := body];
    editor := new OutlineEditor(editorElement, viewModel, onChange);
    editor.keyToDOMMap := editor.keyToDOMMap["body" := editorElement];
    notified := [];
    if onChange.Function? {
      notified := notified + [viewModel];
    }
  }
}
