# MultronView tile layer, view registry and preload bridge in Dafny

MultronView is a desktop tiling window manager. Its layout is a tree of
tiles (leaves) and rows or columns (containers). Each tile is shown by a
web-content surface that the main process places over a host window. This
project models three small, stateful parts of it:

- **The node layer** of the renderer (`nodes.dfy`, module `Nodes`). It holds
  tile, row and column node objects, each with a `parent` back-reference. Every
  setter writes the node's own field and the mirrored props record. The two
  module-level records, `tiles` and `containers`, are filled by `recordTile`,
  `recordRow`, `recordColumn` and the `TileTree` constructor. Node objects live
  in an arena (`NodeStore.nodes`). A handle stands for an object's identity,
  and `parent` is an optional handle. IPC messages sent by the `url` setter go
  to an outbox. Invocations of a tile's context and resize behaviours go to a
  call log.
- **The view registry** of the main process (`listeners.dfy`, module
  `Listeners`). It maps a tile id to a `ViewInstance`: the surface, the tile
  id, the last rectangle and the URL. The module covers create, set-rectangle,
  set-url, snapshot, delete, resize-capture, the "apply to every view"
  handlers and the two layout constants. Surfaces and host windows are Dafny
  objects. A window is reduced to its list of child surfaces. The JavaScript
  `Map` keeps its keys in insertion order, and `order` models that order.
- **The preload bridge** (`preload.dfy`, module `Preload`). This is the
  `electronAPI` object with its module-level set of channels being listened
  on. Calls forwarded to `ipcRenderer` are recorded in order.

`common.dfy` (module `Common`) holds the shared `Option`, `Rect` and `Message`
values, and the "remove every occurrence" operation on sequences. That
operation is used for `removeChildView` and for `Map.delete`'s effect on
iteration order.

Outside calls are parameters:
- Fresh ids from `uuidv4` are passed in as `freshId`.
- Callbacks and listeners are opaque handles.
- The default rectangle and URL of a new `ViewInstance` are constants of the
  registry, `initialRect` and `initialUrl`. They come from `mainTypes.ts`,
  which is not part of this model.
- The three per-view operations `updateBounds`, `hide` and `unhide` are also
  in `mainTypes.ts`. The page capture is Electron's own `capturePage` on the
  surface's web contents. Each call to one of these four is recorded as an
  `Effect`.

Three behaviours of the code are kept as written:
- Setting the rectangle or URL of an unknown id is a non-null assertion in the
  code. Here it is a precondition, not a no-op.
- Deleting a view detaches its surface only from the main window and the hide
  window. It does not detach it from every window.
- Creating a view under an existing id overwrites the entry. The old surface
  stays attached.

## Model

| member | source | states |
|---|---|---|
| Nodes.NodeStore.NewTile | src/renderer/common/nodes.tsx:54-90 | The new tile is a fresh object under the given parent, with field and props in sync. Its id is the props' id, or the generated one when the props give none. Without props it has no class, style or URL and gets the logging-only behaviours. No other node changes. |
| Nodes.NodeStore.NewContainer | src/renderer/common/nodes.tsx:152-175 | The new row or column (the row constructor at lines 225-248 is the same) keeps the given children in order, with field and props in sync. Every child's `parent` becomes the new container and nothing else about the child changes. Nodes that are not children are unchanged. |
| Nodes.NodeStore.RecordTile | src/renderer/common/nodes.tsx:290-300 | A new parentless tile built as `NewTile` states: field and props in sync, class name, style, URL and behaviours from the props or the logging-only defaults without props, and no other node changed. `tiles` gains exactly the new tile under its id. Every other entry and all of `containers` are unchanged. |
| Nodes.NodeStore.RecordRow | src/renderer/common/nodes.tsx:302-306 | A new parentless row built as `NewContainer` states: field and props in sync and taken from the props, each child changed only in its `parent`, which becomes the row, and every other node unchanged. `containers` gains exactly the new row under its id, and `tiles` is unchanged. |
| Nodes.NodeStore.RecordColumn | src/renderer/common/nodes.tsx:308-312 | A new parentless column built as `NewContainer` states: field and props in sync and taken from the props, each child changed only in its `parent`, which becomes the column, and every other node unchanged. `containers` gains exactly the new column under its id, and `tiles` is unchanged. |
| Nodes.TileTree.constructor | src/renderer/common/nodes.tsx:17-22 | Sets `root`. It records the root in `tiles` only when the root is a tile with a non-empty id. Otherwise `tiles` is unchanged. |
| Nodes.WithStyle | src/renderer/common/nodes.tsx:111-115 | The style setter, the same on all three node classes (also lines 204-208 and 277-281): field and props both hold the new style, sync is preserved, and restoring the old style gives back the old node. |
| Nodes.NodeStore.SetStyle | src/renderer/common/nodes.tsx:111-115 | Only the addressed node changes, as `WithStyle` says. |
| Nodes.MergeStyle | src/renderer/common/nodes.tsx:116 | Every key of the appended style takes its value. Every other key is present exactly when it was in the current style, with its old value. An undefined style acts as empty. |
| Nodes.MergeStyleIdempotent | src/renderer/common/nodes.tsx:116 | Appending the same style twice equals appending it once. |
| Nodes.NodeStore.AppendStyle | src/renderer/common/nodes.tsx:116 | The node's style afterwards is set and has the key-wise properties of `MergeStyle`. Field and props change together. |
| Nodes.WithId | src/renderer/common/nodes.tsx:117-121 | The id setter, the same on all three node classes (also lines 210-214 and 283-287): field and props hold the new id, sync is preserved, and restoring the old id gives back the old node. |
| Nodes.NodeStore.SetId | src/renderer/common/nodes.tsx:117-121 | Only the addressed node changes, as `WithId` says. `tiles` and `containers` are not re-keyed. |
| Nodes.NodeStore.SetClassName | src/renderer/common/nodes.tsx:106-110 | The class name field and the props' class name take the value. Nothing else changes and sync is preserved. |
| Nodes.NodeStore.SetUrl | src/renderer/common/nodes.tsx:122-129 | Field and props take the URL and sync is preserved. Exactly one `set-view-url` message carrying the tile's id and the URL is appended to the outbox. |
| Nodes.NodeStore.Split | src/renderer/common/nodes.tsx:130-132 | Exactly one call is appended: the tile's context behaviour, with the given id and a split request in the given direction. |
| Nodes.NodeStore.Resize | src/renderer/common/nodes.tsx:137 | Exactly one call is appended: the tile's resize behaviour, with the given id and rectangle unchanged. |
| Nodes.NodeStore.SetContextBehavior | src/renderer/common/nodes.tsx:133-136 | Field and props take the behaviour. Sync is preserved. |
| Nodes.NodeStore.SetResizeBehavior | src/renderer/common/nodes.tsx:138-141 | Field and props take the behaviour. Sync is preserved. |
| Nodes.NodeStore.SetTileProps | src/renderer/common/nodes.tsx:104 | Only the props record is replaced. The fields keep their values, so sync may be lost. |
| Nodes.MergeTilePropsAssociative | src/renderer/common/nodes.tsx:105 | Two `appendProps` calls in a row have the same effect as one call with the second patch spread over the first. |
| Nodes.MergeTilePropsIdempotent | src/renderer/common/nodes.tsx:105 | Appending the same props twice equals appending them once. |
| Nodes.MergeTilePropsUnits | src/renderer/common/nodes.tsx:105 | Appending a record's own props leaves it unchanged, and a patch that defines every key replaces the props outright. |
| Nodes.NodeStore.AppendTileProps | src/renderer/common/nodes.tsx:105 | Only the props record changes, to the merge of the current and the given props. |
| Nodes.NodeStore.SetChildren | src/renderer/common/nodes.tsx:189-193 | Field and props take the new children. No child is re-parented and no other node changes. |
| Nodes.NodeStore.SetForceState | src/renderer/common/nodes.tsx:194-198 | The field and the props' `refreshRoot` take the callback. Sync is preserved. |
| Nodes.NodeStore.SetHandlePercents | src/renderer/common/nodes.tsx:199-203 | Field and props take the percentages. Sync is preserved. |
| Nodes.NodeStore.SetContainerProps | src/renderer/common/nodes.tsx:187 | Only the container's props record is replaced. |
| Nodes.NodeStore.constructor | src/renderer/common/nodes.tsx:10-11 | The module-level `tiles` and `containers` records start empty, and so do the arena, the outbox and the call log. |
| Listeners.ViewRegistry.constructor | src/common/listeners.ts:9 | The registry starts with no entries. |
| Listeners.ViewRegistry.OnCreateViewAsync | src/common/listeners.ts:46-78 | The id is bound to a fresh surface with the initial rectangle and URL. The surface is appended to the given window's children and the result is true. Other keys are untouched. A re-used id keeps its place in iteration order and its old surface stays attached. |
| Listeners.AddChildView | src/common/listeners.ts:75 | The attached view ends up on top. A view not yet attached is simply appended, and nothing else is added. |
| Listeners.CreateTwiceThenDelete | src/common/listeners.ts:52-53 | After creating twice under one id and then deleting, the first surface is still a child of the main window and no entry refers to it. |
| Listeners.ViewRegistry.OnSetViewRectangle | src/common/listeners.ts:79-84 | Requires the id to be registered. Only that entry's rectangle changes. |
| Listeners.ViewRegistry.OnSetViewUrl | src/common/listeners.ts:85-90 | Requires the id to be registered. Only that entry's URL changes. |
| Listeners.ViewRegistry.OnGetViewData | src/common/listeners.ts:91-100 | The snapshot has exactly the registry's keys, each mapped to that entry's URL and rectangle, and its keys come in the registry's insertion order. The registry is not modified. |
| Listeners.ViewRegistry.OnDeleteView | src/common/listeners.ts:101-111 | An unknown id changes nothing. A known id's surface is removed from the main and the hide window's children, and only that key leaves the map and the iteration order. |
| Common.Without | src/common/listeners.ts:104-110 | Removal from a child list or key order: the result holds exactly the elements other than the removed one, it is the input when that element is absent, and distinctness is preserved. |
| Common.WithoutKeepsOrder | src/common/listeners.ts:110 | Removing a key keeps the relative order of the remaining keys. |
| Listeners.ViewRegistry.OnResizeCaptureAsync | src/common/listeners.ts:118-128 | Requires the id to be registered. Only that entry's rectangle changes, and then a page capture for it is recorded. |
| Listeners.Applied | src/common/listeners.ts:160-171 | One effect per listed id, in the listed order. |
| Listeners.AppliedOnce | src/common/listeners.ts:160-171 | Over distinct ids, an action reaches each listed id exactly once and reaches no other id. |
| Listeners.ViewRegistry.ApplyToAll | src/common/listeners.ts:160-171 | The shared loop of the three handlers: one effect per entry, in insertion order. Each registered id is reached exactly once and the map is unchanged. |
| Listeners.ViewRegistry.OnRefreshAllViewBounds | src/common/listeners.ts:160-162 | `updateBounds` is applied to every entry once, in insertion order. The registry is unchanged. |
| Listeners.ViewRegistry.OnHideAllViews | src/common/listeners.ts:166-168 | `hide` is applied to every entry once, in insertion order. The registry is unchanged. |
| Listeners.ViewRegistry.OnUnhideAllViews | src/common/listeners.ts:169-171 | `unhide` is applied to every entry once, in insertion order. The registry is unchanged. |
| Listeners.ViewRegistry.OnUpdateBorderPx | src/common/listeners.ts:157-159 | `borderPx` takes the value and nothing else changes. |
| Listeners.ViewRegistry.OnUpdateTitlebarPx | src/common/listeners.ts:172-174 | `titlebarPx` takes the value and nothing else changes. |
| Preload.Track | src/preload/preload.ts:10-29 | `on` adds its channel, `removeListener` deletes its channel, and `once` and `send` leave the set alone. No other channel changes status. |
| Preload.TrackedIffLastWasOn | src/preload/preload.ts:10-34 | After any sequence of calls, a channel is tracked exactly when the last `on`/`removeListener` call naming it was an `on`. With no such call it keeps its initial status. |
| Preload.RemoveClearsDespiteSecondListener | src/preload/preload.ts:23-29 | Two `on` calls on one channel and one `removeListener` leave the channel untracked, although a listener is still registered. |
| Preload.ElectronApi.constructor | src/preload/preload.ts:4 | The tracked set starts empty. |
| Preload.ElectronApi.Send | src/preload/preload.ts:7-9 | The message is forwarded and the tracked set is unchanged. |
| Preload.ElectronApi.On | src/preload/preload.ts:10-16 | The channel becomes tracked, other channels keep their status, and the call is forwarded. |
| Preload.ElectronApi.Once | src/preload/preload.ts:17-22 | The call is forwarded and the tracked set is unchanged. |
| Preload.ElectronApi.RemoveListener | src/preload/preload.ts:23-29 | The channel becomes untracked whatever listener is named, other channels keep their status, and the call is forwarded. |
| Preload.ElectronApi.IsListening | src/preload/preload.ts:30-34 | Exactly membership of the tracked set, and so whether the last forwarded `on`/`removeListener` for the channel was an `on`. No state changes. |

## Left out

- React rendering: `toElement` on the three node classes and a tile's `ref` field.
- Id generation: `uuidv4` is not modelled. Ids arrive as the `freshId` parameter.
- Logging: the `log.info` calls in `nodes.tsx`, `src/common/logger.ts` and the logging wrappers in `src/renderer/common/util.ts`.
- `randomColor` in `src/renderer/common/util.ts`: it uses `Math.random`.
- The context menu and the Promise around it (`onShowContextMenuAsync`, listeners.ts:11-45): this is user interface.
- The event bindings `onCreateViewAsync` installs on the surface: context menu to pie menu, zoom adjustment (floating-point zoom arithmetic) and the input-event signal. These are Electron event plumbing.
- `onGetViewRectangle`: it reads the bounds of the Electron surface, which is foreign state.
- `onShowPieMenu`, `onGetDisplayMetrics`, `onSetOverlayIgnore`, `onCallTileContextBehavior`, `onFocusMainWindow` and `onReleaseHandles`: these are window and OS plumbing.
- `Listeners.ViewRegistry.OnResizeCaptureAsync`: does not return the captured image (JPEG at quality 80). The capture is an Electron call, recorded only as an effect.
- The bodies of `ViewInstance.updateBounds`, `hide` and `unhide`, and the `ViewInstance` constructor's defaults, are in `mainTypes.ts`, which is not part of this model. The three operations are recorded as effects, and the defaults are registry constants.
- `ViewInstance` as an object: the entry is a value in the map, because nothing else in these files holds a reference to it.
- `ipcRenderer`: its listener bookkeeping and delivery are not modelled. The bridge's calls to it are recorded in order.
- The channel module imported by `nodes.tsx` is not part of this model. The `set-view-url` value is taken from `src/common/ipcChannels.ts:4`.
- `TileProps`, `ColumnProps` and `RowProps` come from `interfaces.ts`, which is not part of this model. Their shape is taken from the destructuring in the constructors. An explicitly `undefined` key is not told apart from an absent one when props are spread.
- `borderPx` and `titlebarPx` are JavaScript numbers. They are modelled as integers.
- Handle percentages are carried as reals and never computed with.
- The per-view operations `updateBounds`, `hide` and `unhide`, and the writes `instance.rect = rect` and `instance.url = url` (listeners.ts:83, 89 and 123), are assumed to change no modelled state besides the entry's own field. Their bodies are in `mainTypes.ts`. If `hide` and `unhide` move a surface between the main and the hide window, or the writes reposition or navigate the surface, the model does not capture that.
- Shared references in the node layer: `_children` is the same array as `_props.children`, `_style` the same object as `_props.style` (nodes.tsx:163-173), `setProps` keeps the caller's object (nodes.tsx:104) and `getProps` hands out the live record (nodes.tsx:103). Mutating one of these in place changes both sides and the caller's copy. The model holds them as values, so it does not capture that aliasing.
- The logging-only behaviours a tile gets without props are fresh closures per tile in the code. The model uses one `MissingContext` and one `MissingResize` value for all such tiles.
- `Electron.Rectangle` fields are JavaScript numbers. `Rect` models them as integers.
- Missing windows: `onDeleteView` dereferences `mainWindow!` and `hideWindow!` (listeners.ts:104-109), so either may be null in the code. A null hide window makes the handler throw after detaching from the main window and before `views.delete(id)`, leaving the entry in place. The model takes both windows as constructor parameters that always exist, so it does not capture that path.
- `Preload.ElectronApi.Send`: `send` forwards `...args: any[]` (preload.ts:7-8), but `SendCall` holds its arguments as strings. Non-string arguments, such as a rectangle, are not represented.
- Timing: `onCreateViewAsync` and `onResizeCaptureAsync` run as sequential methods.
- Split and delete tree surgery, percentage renormalisation and rectangle tiling are not in these files. They live in components that are not part of this model, so none of them is modelled.
- `ts-configs/global.d.ts` and `src/common/ipcChannels.ts` hold declarations and constants only.
