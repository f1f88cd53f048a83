/**
 * The values the editor receives from its collaborators: node kinds, nodes,
 * selections and view models. OutlineView.js and the node classes are not
 * part of this model, so these carry only what the editor itself touches.
 */
module OutlineView {
  import opened Wrappers

  /** A node's stable identity key. */
  type Key = string

  /**
   * A node class as stored in the node-type registry: the two built-in
   * classes, or one supplied by a caller of `addNodeType`, named by its tag.
   */
  datatype NodeKind = BlockNode | TextNode | UserNode(name: string)

  /** A document node, seen by the editor only as a key and a type tag. */
  datatype Node = Node(key: Key, nodeType: string)

  /** No key occurs twice, as in a JavaScript Set. */
  ghost predicate Distinct(keys: seq<Key>)
  {
    forall i, j :: 0 <= i < j < |keys| ==> keys[i] != keys[j]
  }

  /** An own property value of the selection record, opaque here. */
  datatype PropertyValue = PropertyValue(id: nat)

  /** The selection record: its own enumerable properties. */
  datatype Selection = Selection(properties: map<string, PropertyValue>)

  /**
   * A view model. It is a reference: the editor compares view models by
   * identity. `dirtyNodes` keeps the JavaScript Set's iteration order
   * (insertion order) and is `None` where the source holds `null`; `Valid`
   * says its keys are distinct, as a Set's members are.
   */
  class ViewModel {
    var body: Option<Node>
    var nodeMap: map<Key, Node>
    var dirtyNodes: Option<seq<Key>>
    var dirtySubTrees: Option<set<Key>>
    var selection: Selection

    ghost predicate Valid()
      reads this
    {
      dirtyNodes.Some? ==> Distinct(dirtyNodes.value)
    }

    /** `new ViewModel()`; its initial field values belong to OutlineView.js and are not promised. */
    constructor()
    {
      body := None;
      nodeMap := map[];
      dirtyNodes := None;
      dirtySubTrees := None;
      selection := Selection(map[]);
    }
  }
}
