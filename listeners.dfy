/** The main-process view registry (src/common/listeners.ts): the `views`
    map from tile id to the web-content surface that shows that tile, the two
    host windows the surfaces are attached to, and the shared layout
    constants `borderPx` and `titlebarPx`. */
module Listeners {
  import opened Common

  /** A web-content surface (a WebContentsView); only its identity matters. */
  class Surface {
    constructor () {}
  }

  /** A host window (a BrowserWindow), reduced to the child views of its
      content view, bottom first. */
  class Window {
    var children: seq<Surface>

    constructor ()
      ensures children == []
    {
      children := [];
    }
  }

  /** A registry entry: the surface bound to a tile, the tile's id, the last
      rectangle requested for it and its current URL. */
  datatype ViewInstance = ViewInstance(view: Surface, id: string, rect: Rect, url: string)

  /** One entry of the `getViewData` snapshot. */
  datatype ViewData = ViewData(url: string, rectangle: Rect)

  /** The per-view operations of a ViewInstance, and the page capture. */
  datatype ViewAction = UpdateBounds | Hide | Unhide | CapturePage

  /** One per-view operation applied to the registry entry with this id. */
  datatype Effect = Effect(action: ViewAction, id: string)

  /** Attaching a child view: a view already attached is moved to the top. */
  function AddChildView(children: seq<Surface>, v: Surface): (r: seq<Surface>)
    ensures |r| > 0 && r[|r| - 1] == v
    ensures v !in children ==> r == children + [v]
    ensures forall k :: 0 <= k < |r| ==> r[k] in children || r[k] == v
  {
    Without(children, v) + [v]
  }

  /** The effects of applying `action` to the entries with ids `ids`, in order. */
  function Applied(action: ViewAction, ids: seq<string>): (r: seq<Effect>)
    ensures |r| == |ids|
    ensures forall i :: 0 <= i < |ids| ==> r[i] == Effect(action, ids[i])
  {
    if ids == [] then [] else [Effect(action, ids[0])] + Applied(action, ids[1..])
  }

  /** Over distinct ids, the action reaches each listed id exactly once and
      no other id. */
  lemma {:induction false} AppliedOnce(action: ViewAction, ids: seq<string>, id: string)
    requires Distinct(ids)
    ensures multiset(Applied(action, ids))[Effect(action, id)] == if id in ids then 1 else 0
  {
    if ids != [] {
      assert Distinct(ids[1..]) by {
        forall i, j | 0 <= i < j < |ids[1..]| ensures ids[1..][i] != ids[1..][j] {
          assert ids[1..][i] == ids[i + 1] && ids[1..][j] == ids[j + 1];
        }
      }
      AppliedOnce(action, ids[1..], id);
      assert Applied(action, ids) == [Effect(action, ids[0])] + Applied(action, ids[1..]);
      assert ids == [ids[0]] + ids[1..];
      if id == ids[0] {
        assert id !in ids[1..] by {
          forall j | 0 <= j < |ids[1..]| ensures ids[1..][j] != id {
            assert ids[1..][j] == ids[j + 1];
          }
        }
      }
    }
  }

  /** The module-level state of listeners.ts. `order` holds the keys of
      `views` in insertion order, which is the order in which a JavaScript
      Map is iterated. */
  class ViewRegistry {
    var views: map<string, ViewInstance>
    var order: seq<string>
    var effects: seq<Effect>
    var borderPx: int
    var titlebarPx: int
    const mainWindow: Window
    const hideWindow: Window
    /** The rectangle and URL a newly constructed ViewInstance starts with. */
    const initialRect: Rect
    const initialUrl: string

    ghost predicate Valid()
      reads this
    {
      && Distinct(order)
      && (forall k :: k in views <==> k in order)
      && (forall k :: k in views ==> views[k].id == k)
    }

    constructor (mainWindow: Window, hideWindow: Window, initialRect: Rect, initialUrl: string, borderPx: int, titlebarPx: int)
      ensures Valid()
      ensures views == map[] && order == [] && effects == []
      ensures this.mainWindow == mainWindow && this.hideWindow == hideWindow
      ensures this.initialRect == initialRect && this.initialUrl == initialUrl
      ensures this.borderPx == borderPx && this.titlebarPx == titlebarPx
    {
      views := map[];
      order := [];
      effects := [];
      this.mainWindow := mainWindow;
      this.hideWindow := hideWindow;
      this.initialRect := initialRect;
      this.initialUrl := initialUrl;
      this.borderPx := borderPx;
      this.titlebarPx := titlebarPx;
    }

    /** Binds `nodeId` to a new surface and attaches that surface to `window`.
        An entry already bound to `nodeId` is overwritten and its surface is
        left attached wherever it was. */
    method OnCreateViewAsync(nodeId: string, window: Window) returns (created: bool)
      requires Valid()
      modifies this`views, this`order, window
      ensures Valid()
      ensures created
      ensures nodeId in views && fresh(views[nodeId].view)
      ensures views == old(views)[nodeId := ViewInstance(views[nodeId].view, nodeId, initialRect, initialUrl)]
      ensures order == if nodeId in old(views) then old(order) else old(order) + [nodeId]
      ensures window.children == old(window.children) + [views[nodeId].view]
    {
      var view := new Surface();
      views := views[nodeId := ViewInstance(view, nodeId, initialRect, initialUrl)];
      if nodeId !in order {
        order := order + [nodeId];
      }
      window.children := AddChildView(window.children, view);
      created := true;
    }

    method OnSetViewRectangle(id: string, rect: Rect)
      requires Valid() && id in views
      modifies this`views
      ensures Valid()
      ensures views == old(views)[id := old(views)[id].(rect := rect)]
    {
      views := views[id := views[id].(rect := rect)];
    }

    method OnSetViewUrl(id: string, url: string)
      requires Valid() && id in views
      modifies this`views
      ensures Valid()
      ensures views == old(views)[id := old(views)[id].(url := url)]
    {
      views := views[id := views[id].(url := url)];
    }

    /** A snapshot of every entry's URL and rectangle, keyed by id; `keys`
        is the snapshot Map's insertion order, which is the registry's. */
    method OnGetViewData() returns (data: map<string, ViewData>, keys: seq<string>)
      requires Valid()
      ensures data.Keys == views.Keys
      ensures forall id :: id in data ==> data[id] == ViewData(views[id].url, views[id].rect)
      ensures keys == order && Distinct(keys)
      ensures forall id :: id in data <==> id in keys
    {
      data := map[];
      keys := [];
      var i := 0;
      while i < |order|
        invariant 0 <= i <= |order|
        invariant keys == order[..i]
        invariant forall id :: id in data <==> id in order[..i]
        invariant forall id :: id in data ==> id in views && data[id] == ViewData(views[id].url, views[id].rect)
      {
        var instance := views[order[i]];
        data := data[order[i] := ViewData(instance.url, instance.rect)];
        keys := keys + [order[i]];
        assert order[..i + 1] == order[..i] + [order[i]];
        i := i + 1;
      }
      assert order[..i] == order;
    }

    /** Detaches the surface bound to `id` from the main and the hide window
        and drops the entry; an unknown id changes nothing. */
    method OnDeleteView(id: string)
      requires Valid()
      modifies this`views, this`order, mainWindow, hideWindow
      ensures Valid()
      ensures id !in old(views) ==> unchanged(this, mainWindow, hideWindow)
      ensures id in old(views) ==>
        && views == old(views) - {id}
        && order == Without(old(order), id)
        && mainWindow.children == Without(old(mainWindow.children), old(views[id].view))
        && hideWindow.children == Without(old(hideWindow.children), old(views[id].view))
    {
      if id !in views {
        return;
      }
      var v := views[id].view;
      if v in mainWindow.children {
        mainWindow.children := Without(mainWindow.children, v);
      }
      if v in hideWindow.children {
        hideWindow.children := Without(hideWindow.children, v);
      }
      views := views - {id};
      order := Without(order, id);
    }

    /** Records `rect` for the entry, then captures its page (the image
        itself is not modelled). */
    method OnResizeCaptureAsync(id: string, rect: Rect)
      requires Valid() && id in views
      modifies this`views, this`effects
      ensures Valid()
      ensures views == old(views)[id := old(views)[id].(rect := rect)]
      ensures effects == old(effects) + [Effect(CapturePage, id)]
    {
      views := views[id := views[id].(rect := rect)];
      effects := effects + [Effect(CapturePage, id)];
    }

    /** Applies `action` to every entry, in insertion order. */
    method ApplyToAll(action: ViewAction)
      requires Valid()
      modifies this`effects
      ensures Valid()
      ensures effects == old(effects) + Applied(action, order)
      ensures forall id :: multiset(Applied(action, order))[Effect(action, id)] == (if id in views then 1 else 0)
    {
      var i := 0;
      while i < |order|
        invariant 0 <= i <= |order|
        invariant effects == old(effects) + Applied(action, order[..i])
      {
        assert order[..i + 1] == order[..i] + [order[i]];
        AppliedSnoc(action, order[..i], order[i]);
        effects := effects + [Effect(action, order[i])];
        i := i + 1;
      }
      assert order[..i] == order;
      forall id ensures multiset(Applied(action, order))[Effect(action, id)] == (if id in views then 1 else 0) {
        AppliedOnce(action, order, id);
      }
    }

    method OnRefreshAllViewBounds()
      requires Valid()
      modifies this`effects
      ensures Valid()
      ensures effects == old(effects) + Applied(UpdateBounds, order)
    {
      ApplyToAll(UpdateBounds);
    }

    method OnHideAllViews()
      requires Valid()
      modifies this`effects
      ensures Valid()
      ensures effects == old(effects) + Applied(Hide, order)
    {
      ApplyToAll(Hide);
    }

    method OnUnhideAllViews()
      requires Valid()
      modifies this`effects
      ensures Valid()
      ensures effects == old(effects) + Applied(Unhide, order)
    {
      ApplyToAll(Unhide);
    }

    method OnUpdateBorderPx(px: int)
      modifies this`borderPx
      ensures borderPx == px
    {
      borderPx := px;
    }

    method OnUpdateTitlebarPx(px: int)
      modifies this`titlebarPx
      ensures titlebarPx == px
    {
      titlebarPx := px;
    }
  }

  lemma {:induction false} AppliedSnoc(action: ViewAction, ids: seq<string>, id: string)
    ensures Applied(action, ids + [id]) == Applied(action, ids) + [Effect(action, id)]
  {
  }

  /** Creating a view twice under one id and then deleting it leaves the
      first surface attached to the window, bound to no entry. */
  method CreateTwiceThenDelete(registry: ViewRegistry, id: string) returns (first: Surface)
    requires registry.Valid()
    modifies registry`views, registry`order, registry.mainWindow, registry.hideWindow
    ensures registry.Valid()
    ensures id !in registry.views
    ensures first in registry.mainWindow.children
    ensures forall k :: k in registry.views ==> registry.views[k].view != first
  {
    ghost var before := registry.views;
    var _ := registry.OnCreateViewAsync(id, registry.mainWindow);
    first := registry.views[id].view;
    assert forall k :: k in before ==> before[k].view != first;
    var _ := registry.OnCreateViewAsync(id, registry.mainWindow);
    var second := registry.views[id].view;
    assert second != first;
    assert first in registry.mainWindow.children;
    ghost var children := registry.mainWindow.children;
    registry.OnDeleteView(id);
    assert registry.mainWindow.children == Without(children, second);
    ghost var k :| 0 <= k < |children| && children[k] == first;
    assert children[k] != second;
  }
}
