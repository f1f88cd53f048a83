# OutlineEditor model

A Dafny model of the editor coordinator of the Outline rich-text editor
(`packages/outline/src/OutlineEditor.js`). The editor owns the committed
view model, a key-to-element map for rendered DOM elements, a registry of
node classes by type tag, a set of text transforms, and the flag that
schedules commits. The model keeps that shape:

- `OutlineView` holds the values the editor gets from its collaborators:
  node kinds, nodes, the selection record, and the `ViewModel` class.
  View models are references, because `update` compares them by identity.
- `Scheduler` is the update scheduler as a pure state machine
  (`Idle` / `CommitPending`). It carries the theorem that commits are
  serialized and never dropped or reordered.
- `Editor` holds the `OutlineEditor` class, the two unregister functions
  (classes whose `Invoke` performs the deletion they capture),
  `CreateOutlineEditor`, and a stand-in for `updateViewModel`.
  The queued `Promise` continuation of a deferred update is the field
  `pending` plus the method `RunDeferred`. `Update` and `RunDeferred` are
  proved to step exactly as `Scheduler.Step` does.
- `Scenarios` holds client methods that use only the contracts. They show
  the promises that span several calls.

One behaviour one might expect is not in the code, and the model follows the
code. Diff extraction might be expected to fail when a dirty key has no node.
`getDiffFromViewModel` does not check this: `nodeMap[nodeKey]` yields
`undefined` for such a key. The model's diff therefore holds
`Option<Node>` entries, with `None` for a missing key.
`ResolvedNodesFollowDirtyOrder` proves that, when the node map is keyed
consistently and every dirty key is present, no entry is `None` and the
entries carry the dirty keys in order.

## Model

| member | source | states |
|---|---|---|
| Editor.CreateOutlineEditor | packages/outline/src/OutlineEditor.js:7-18 | The new view model's body and `nodeMap['body']` are the body node. `'body'` is bound to the editor element, so `GetElementByKey("body")` returns it, or throws when the element is `undefined`. `onChange` is called once with the view model exactly when it is a function. The editor starts idle with default registries. |
| Editor.OutlineEditor.constructor | packages/outline/src/OutlineEditor.js:21-40 | A new editor is idle with nothing committed. Its key map and transform set are empty, and its node-type registry is the default one. |
| Editor.DefaultNodeTypes | packages/outline/src/OutlineEditor.js:35-39 | The default registry has exactly the tags `block`, `text` and `body`. `body` maps to the same class as `block`. |
| Editor.OutlineEditor.AddNodeType | packages/outline/src/OutlineEditor.js:41-45 | Afterwards the tag maps to the given class, whether or not it was registered before. Every other tag looks up as before. The returned unregister function is bound to this editor and this tag. |
| Editor.NodeTypeUnregister.constructor | packages/outline/src/OutlineEditor.js:43-45 | The closure captures the editor and the tag. |
| Editor.NodeTypeUnregister.Invoke | packages/outline/src/OutlineEditor.js:44 | Deletes the captured tag, whatever class it holds now (even after re-registration). Changes nothing else. |
| Editor.OutlineEditor.AddTextTransform | packages/outline/src/OutlineEditor.js:47-51 | The transform set becomes the old set plus the function. Adding a function twice leaves membership unchanged. The returned unregister function is bound to this editor and this function. |
| Editor.TextTransformUnregister.constructor | packages/outline/src/OutlineEditor.js:49-51 | The closure captures the editor and the transform. |
| Editor.TextTransformUnregister.Invoke | packages/outline/src/OutlineEditor.js:50 | Removes exactly the captured transform. Every other transform stays. |
| Editor.OutlineEditor.IsUpdating | packages/outline/src/OutlineEditor.js:53-55 | True exactly when a deferred commit is pending (phase `CommitPending`). |
| Editor.OutlineEditor.GetElementByKey | packages/outline/src/OutlineEditor.js:59-65 | Succeeds exactly when the key is bound to a value other than `undefined`, and returns that value. Otherwise it fails with a not-found error for that key. It reads state and changes none. |
| Editor.Message | packages/outline/src/OutlineEditor.js:62 | The thrown messages. The not-found message ends with the key that was looked up. |
| Editor.MessageIdentifiesError | packages/outline/src/OutlineEditor.js:62-91 | Different errors never share a message. The three messages differ from one another, and two not-found messages differ when their keys differ. |
| Editor.OutlineEditor.GetDiffFromViewModel | packages/outline/src/OutlineEditor.js:69-85 | Fails exactly when either dirty set is null. Otherwise: the result's subtree set equals the view model's at the time of the call; it has one node entry per dirty key in iteration order, each `nodeMap[key]` (absent when missing); it copies the selection and carries the clock reading. The view model is not changed. |
| Editor.ResolveKeys | packages/outline/src/OutlineEditor.js:81 | Mapping dirty keys through the node map gives one entry per key, at the same position, equal to the key's lookup. |
| Editor.ResolvedNodesFollowDirtyOrder | packages/outline/src/OutlineEditor.js:81 | When every node is stored under its own key and every dirty key is present, the resolved nodes carry exactly the dirty keys, in order. |
| Editor.ResolvedNodesDistinct | packages/outline/src/OutlineEditor.js:81 | Distinct dirty keys (a Set's members), all present in a well-keyed node map, resolve to present and pairwise distinct nodes. |
| Editor.OutlineEditor.Update | packages/outline/src/OutlineEditor.js:89-105 | Throws while a commit is pending and changes nothing, even with `forceSync` or the current view model. A call with the current view model is a no-op. With `forceSync` it commits the candidate before returning and leaves the flag false. Otherwise it sets the flag and queues only the candidate, without committing or changing anything else. It steps as `Scheduler.Step`. |
| Editor.OutlineEditor.RunDeferred | packages/outline/src/OutlineEditor.js:100-103 | The continuation clears the flag and the pending slot first, then commits exactly the queued candidate. The commit therefore runs on an idle editor that accepts a new `update`. It steps as `Scheduler.Step`. |
| Editor.UpdateViewModel | packages/outline/src/OutlineEditor.js:97 | A commit happens only on an idle editor (flag clear, nothing pending), both for `forceSync` and in the continuation. It is recorded once, in order, and leaves the editor idle. |
| Scheduler.Step | packages/outline/src/OutlineEditor.js:89-104 | An update throws exactly when a commit is pending, whatever its other arguments, and then changes nothing. An update with the current view model is otherwise a no-op. A step commits at most one view model. The continuation leaves the scheduler idle and commits what was queued. |
| Scheduler.CommitsFollowAcceptedUpdates | packages/outline/src/OutlineEditor.js:89-104 | For any sequence of updates and continuation runs: the commits, followed by the candidate still queued, equal the candidate queued at the start followed by every update that returned normally and was not a no-op, in call order. No commit is dropped, duplicated or reordered. |
| Scheduler.PendingRejectsUpdates | packages/outline/src/OutlineEditor.js:90-92 | While a commit is pending, any number of updates all throw, commit nothing and leave the one pending candidate in place. |
| Scenarios.SecondDeferredUpdateFails | packages/outline/src/OutlineEditor.js:96-104 | Two deferred updates in one turn: the first returns, the second throws, and the continuation commits only the first candidate. |
| Scenarios.SyncUpdateCommitsAtOnce | packages/outline/src/OutlineEditor.js:93-97 | Updating with the current view model commits nothing, even with `forceSync`. A different candidate with `forceSync` is committed at once and nothing is left pending. |
| Scenarios.NodeTypeRoundTrip | packages/outline/src/OutlineEditor.js:41-45 | A re-registered tag holds the later class. The first registration's unregister function still deletes the tag. Other tags stay. |
| Scenarios.TextTransformRoundTrip | packages/outline/src/OutlineEditor.js:47-51 | Adding a transform twice and then unregistering it leaves only the other transforms. |
| Scenarios.FreshEditorLookups | packages/outline/src/OutlineEditor.js:13 | A new editor resolves `'body'` to its element and throws for any other key. |
| Scenarios.UndefinedEditorElement | packages/outline/src/OutlineEditor.js:13 | An editor created over an `undefined` element has `'body'` bound to `undefined`, and looking `'body'` up throws. |

## Left out

- `useOutlineEditor` (React hook wiring with `useState`/`useEffect`): it belongs to the UI framework, not the editor.
- `createViewModel` (the editor method): it only forwards to OutlineView.js, which is not part of this model.
- `getEditorElement` and `getCurrentViewModel`: they only return a field. The model's fields are public and are read directly.
- OutlineView.js is not part of this model. That covers the `ViewModel` constructor (its initial field values are not promised), how a view model is forked and marked dirty, and `updateViewModel`.
- UpdateViewModel: this stand-in says nothing about how a commit replaces the editor's view model or consumes the dirty sets. It assumes the commit does not itself call `update` or touch the update flag.
- The node classes (`BlockNode`, `TextNode`, `createBodyNode`): node classes are tags, and the body node is a parameter of `CreateOutlineEditor`.
- `Date.now()`: the clock reading is the parameter `now` of `GetDiffFromViewModel`.
- `Promise.resolve().then(...)`: the microtask queue is not modelled. The queued continuation is the `pending` field, and the host's later turn is a call to `RunDeferred`.
- GetDiffFromViewModel: the diff's `dirtySubTrees` is a value equal to the view model's set when the diff is taken. In the source it is the same `Set` object, so later in-place changes to the view model's set show through the diff. The model does not capture this aliasing.
- The node map is treated as a dictionary. In the source it is a plain object, so `nodeMap[key]` for an inherited property name such as `'constructor'` yields that property rather than `undefined`. Keys are assumed not to be such names.
- The selection copy `{...selection}` is a copy of the selection's own properties, whose values are opaque.
- DOM element handles are opaque values. `undefined` is the one distinguished value, because `getElementByKey` treats it as missing. `null` and every other value are ordinary handles.
- Text-transform functions and the `onChange` callback are opaque values. Calls made by `onChange` are not modelled, and the call from `CreateOutlineEditor` is recorded in a ghost sequence.
