/** The renderer's tile/container node layer (src/renderer/common/nodes.tsx).
    Node objects live in an arena: a handle stands for an object's identity
    and `parent` is the handle of the container a node believes it belongs
    to. Each node keeps its own fields and a mirrored props record. */
module Nodes {
  import opened Common

  /** The identity of a node object. */
  type Handle = nat
  /** A callback (a closure); only its identity matters. The two logging-only
      behaviours of a tile constructed without props are told apart from
      every callback a caller supplies. */
  datatype Behavior = MissingContext | MissingResize | Supplied(closure: nat)
  /** A React.CSSProperties record: property name to value. */
  type Style = map<string, string>
  /** A URL, in its serialised (`toString`) form. */
  type Url = string

  /** The channel on which the `url` setter announces a new URL. */
  const SetViewUrlChannel: string := "set-view-url"

  datatype Direction = Up | Down | Left | Right
  datatype ContextOption = Split | SetUrl | Delete
  datatype ContextParams = ContextParams(option: ContextOption, direction: Option<Direction>, url: Option<string>)

  /** The props of a tile; `None` is a key that is absent or undefined. */
  datatype TileProps = TileProps(
    className: Option<string>,
    style: Option<Style>,
    id: Option<string>,
    url: Option<Url>,
    contextBehavior: Behavior,
    resizeBehavior: Behavior)

  /** The props of a row or a column. */
  datatype ContainerProps = ContainerProps(
    children: seq<Handle>,
    refreshRoot: Behavior,
    handlePercents: seq<real>,
    style: Option<Style>,
    id: Option<string>)

  datatype Orientation = Row | Column

  /** A node object: a tile, or a row or column container. */
  datatype Node =
    | TileNode(
        parent: Option<Handle>,
        tileProps: TileProps,
        className: Option<string>,
        style: Option<Style>,
        id: string,
        url: Option<Url>,
        contextBehavior: Behavior,
        resizeBehavior: Behavior)
    | ContainerNode(
        orientation: Orientation,
        parent: Option<Handle>,
        containerProps: ContainerProps,
        children: seq<Handle>,
        forceState: Behavior,
        id: string,
        handlePercents: seq<real>,
        style: Option<Style>)

  /** An invocation of a tile's context or resize behaviour. */
  datatype BehaviorCall =
    | ContextCall(behavior: Behavior, id: string, params: ContextParams)
    | ResizeCall(behavior: Behavior, id: string, rect: Rect)

  /** The props record mirrors the node's own fields exactly. */
  predicate InSync(n: Node) {
    match n
    case TileNode(_, props, className, style, id, url, contextBehavior, resizeBehavior) =>
      props == TileProps(className, style, Some(id), url, contextBehavior, resizeBehavior)
    case ContainerNode(_, _, props, children, forceState, id, percents, style) =>
      props == ContainerProps(children, forceState, percents, style, Some(id))
  }

  function PropsStyle(n: Node): Option<Style> {
    if n.TileNode? then n.tileProps.style else n.containerProps.style
  }

  function PropsId(n: Node): Option<string> {
    if n.TileNode? then n.tileProps.id else n.containerProps.id
  }

  /** `{ ...current, ...patch }`, where an undefined current style spreads
      as the empty record. */
  function MergeStyle(current: Option<Style>, patch: Style): (r: Style)
    ensures forall k :: k in patch ==> k in r && r[k] == patch[k]
    ensures forall k :: k !in patch ==> (k in r <==> current.Some? && k in current.value)
    ensures forall k :: k !in patch && k in r ==> r[k] == current.value[k]
  {
    (if current.Some? then current.value else map[]) + patch
  }

  /** Appending the same style twice is appending it once. */
  lemma MergeStyleIdempotent(current: Option<Style>, patch: Style)
    ensures MergeStyle(Some(MergeStyle(current, patch)), patch) == MergeStyle(current, patch)
  {
  }

  /** `{ ...current, ...patch }` on tile props: a key the patch defines takes
      the patch's value, any other keeps the current one. */
  function MergeTileProps(current: TileProps, patch: TileProps): (r: TileProps)
    ensures patch.className.Some? ==> r.className == patch.className
    ensures patch.className.None? ==> r.className == current.className
    ensures patch.style.Some? ==> r.style == patch.style
    ensures patch.style.None? ==> r.style == current.style
    ensures patch.id.Some? ==> r.id == patch.id
    ensures patch.id.None? ==> r.id == current.id
    ensures patch.url.Some? ==> r.url == patch.url
    ensures patch.url.None? ==> r.url == current.url
    ensures r.contextBehavior == patch.contextBehavior && r.resizeBehavior == patch.resizeBehavior
  {
    TileProps(
      if patch.className.Some? then patch.className else current.className,
      if patch.style.Some? then patch.style else current.style,
      if patch.id.Some? then patch.id else current.id,
      if patch.url.Some? then patch.url else current.url,
      patch.contextBehavior,
      patch.resizeBehavior)
  }

  /** Two `appendProps` calls in a row have the effect of one call with the
      second patch appended onto the first. */
  lemma MergeTilePropsAssociative(current: TileProps, first: TileProps, second: TileProps)
    ensures MergeTileProps(MergeTileProps(current, first), second)
         == MergeTileProps(current, MergeTileProps(first, second))
  {
  }

  /** Appending the same props twice is appending them once. */
  lemma MergeTilePropsIdempotent(current: TileProps, patch: TileProps)
    ensures MergeTileProps(MergeTileProps(current, patch), patch) == MergeTileProps(current, patch)
  {
  }

  /** Appending a node's own props changes nothing, and a patch that defines
      every key replaces the props outright. */
  lemma MergeTilePropsUnits(current: TileProps, patch: TileProps)
    ensures MergeTileProps(current, current) == current
    ensures patch.className.Some? && patch.style.Some? && patch.id.Some? && patch.url.Some?
      ==> MergeTileProps(current, patch) == patch
  {
  }

  /** The `style` setter on either kind of node: field and props both take
      the new style, and putting the old style back gives the old node. */
  function WithStyle(n: Node, v: Style): (r: Node)
    ensures r.style == Some(v) && PropsStyle(r) == Some(v)
    ensures r.TileNode? == n.TileNode? && r.parent == n.parent && r.id == n.id
    ensures InSync(n) ==> InSync(r)
    ensures n.TileNode? ==> r.(style := n.style, tileProps := r.tileProps.(style := n.tileProps.style)) == n
    ensures n.ContainerNode? ==> r.(style := n.style, containerProps := r.containerProps.(style := n.containerProps.style)) == n
  {
    if n.TileNode? then n.(style := Some(v), tileProps := n.tileProps.(style := Some(v)))
    else n.(style := Some(v), containerProps := n.containerProps.(style := Some(v)))
  }

  /** The `id` setter on either kind of node: field and props both take the
      new id, and putting the old id back gives the old node. */
  function WithId(n: Node, v: string): (r: Node)
    ensures r.id == v && PropsId(r) == Some(v)
    ensures r.TileNode? == n.TileNode? && r.parent == n.parent && r.style == n.style
    ensures InSync(n) ==> InSync(r)
    ensures n.TileNode? ==> r.(id := n.id, tileProps := r.tileProps.(id := n.tileProps.id)) == n
    ensures n.ContainerNode? ==> r.(id := n.id, containerProps := r.containerProps.(id := n.containerProps.id)) == n
  {
    if n.TileNode? then n.(id := v, tileProps := n.tileProps.(id := Some(v)))
    else n.(id := v, containerProps := n.containerProps.(id := Some(v)))
  }

  /** Every handle a node holds names a node of the arena, and a parent is
      always a container. */
  ghost predicate RefsWithin(n: Node, nodes: map<Handle, Node>) {
    && (n.parent.Some? ==> n.parent.value in nodes && nodes[n.parent.value].ContainerNode?)
    && (n.ContainerNode? ==> forall c :: c in n.children ==> c in nodes)
  }

  ghost predicate AllRefsWithin(nodes: map<Handle, Node>) {
    forall h :: h in nodes ==> RefsWithin(nodes[h], nodes)
  }

  /** Replacing a node by one of the same kind, parent and children keeps
      every reference of the arena in place. */
  lemma ReplaceKeepsRefs(nodes: map<Handle, Node>, h: Handle, n: Node)
    requires AllRefsWithin(nodes) && h in nodes
    requires n.TileNode? == nodes[h].TileNode? && n.parent == nodes[h].parent
    requires n.ContainerNode? ==> n.children == nodes[h].children
    ensures AllRefsWithin(nodes[h := n])
  {
  }

  /** The node objects together with the module-level `tiles` and
      `containers` records. `outbox` holds the IPC messages sent, and
      `calls` the behaviour invocations made, oldest first. */
  class NodeStore {
    var nodes: map<Handle, Node>
    var next: Handle
    var tiles: map<string, Handle>
    var containers: map<string, Handle>
    var outbox: seq<Message>
    var calls: seq<BehaviorCall>

    ghost predicate Valid()
      reads this
    {
      && (forall h :: h in nodes ==> h < next)
      && AllRefsWithin(nodes)
      && (forall id :: id in tiles ==> tiles[id] in nodes && nodes[tiles[id]].TileNode?)
      && (forall id :: id in containers ==> containers[id] in nodes && nodes[containers[id]].ContainerNode?)
    }

    constructor ()
      ensures Valid()
      ensures nodes == map[] && tiles == map[] && containers == map[] && outbox == [] && calls == []
    {
      nodes := map[];
      next := 0;
      tiles := map[];
      containers := map[];
      outbox := [];
      calls := [];
    }

    /** Puts `n` in place of the node at `h`, which it resembles in kind,
        parent and children. */
    method Replace(h: Handle, n: Node)
      requires Valid() && h in nodes
      requires n.TileNode? == nodes[h].TileNode? && n.parent == nodes[h].parent
      requires n.ContainerNode? ==> n.children == nodes[h].children
      modifies this`nodes
      ensures Valid() && nodes == old(nodes)[h := n]
    {
      ReplaceKeepsRefs(nodes, h, n);
      nodes := nodes[h := n];
    }

    /** `new TileNode(props, parent)`; `freshId` is the id generated when the
        props give none. Without props the tile gets only an id and the
        logging-only behaviours. */
    method NewTile(props: Option<TileProps>, freshId: string, parent: Option<Handle>) returns (h: Handle)
      requires Valid()
      requires parent.Some? ==> parent.value in nodes && nodes[parent.value].ContainerNode?
      modifies this`nodes, this`next
      ensures Valid()
      ensures h !in old(nodes) && nodes.Keys == old(nodes).Keys + {h}
      ensures forall g :: g in old(nodes) ==> nodes[g] == old(nodes)[g]
      ensures nodes[h].TileNode? && nodes[h].parent == parent && InSync(nodes[h])
      ensures nodes[h].id == if props.Some? && props.value.id.Some? then props.value.id.value else freshId
      ensures props.Some? ==>
        && nodes[h].className == props.value.className
        && nodes[h].style == props.value.style
        && nodes[h].url == props.value.url
        && nodes[h].contextBehavior == props.value.contextBehavior
        && nodes[h].resizeBehavior == props.value.resizeBehavior
      ensures props.None? ==>
        && nodes[h].className == None && nodes[h].style == None && nodes[h].url == None
        && nodes[h].contextBehavior == MissingContext
        && nodes[h].resizeBehavior == MissingResize
    {
      var p := if props.Some? then props.value
               else TileProps(None, None, Some(freshId), None, MissingContext, MissingResize);
      var id := if p.id.Some? then p.id.value else freshId;
      h := next;
      next := next + 1;
      nodes := nodes[h := TileNode(
        parent,
        TileProps(p.className, p.style, Some(id), p.url, p.contextBehavior, p.resizeBehavior),
        p.className, p.style, id, p.url, p.contextBehavior, p.resizeBehavior)];
    }

    /** `new ColumnNode(props)` or `new RowNode(props)`: every child is
        re-parented onto the new container, which keeps the children in the
        given order. */
    method NewContainer(orientation: Orientation, props: ContainerProps, freshId: string) returns (h: Handle)
      requires Valid()
      requires forall c :: c in props.children ==> c in nodes
      modifies this`nodes, this`next
      ensures Valid()
      ensures h !in old(nodes) && nodes.Keys == old(nodes).Keys + {h}
      ensures nodes[h].ContainerNode? && nodes[h].orientation == orientation && nodes[h].parent == None
      ensures InSync(nodes[h])
      ensures nodes[h].children == props.children
      ensures nodes[h].forceState == props.refreshRoot
      ensures nodes[h].handlePercents == props.handlePercents
      ensures nodes[h].style == props.style
      ensures nodes[h].id == if props.id.Some? then props.id.value else freshId
      ensures forall c :: c in props.children ==> nodes[c].parent == Some(h)
      ensures forall c :: c in props.children ==> nodes[c] == old(nodes)[c].(parent := Some(h))
      ensures forall g :: g in old(nodes) && g !in props.children ==> nodes[g] == old(nodes)[g]
    {
      h := next;
      next := next + 1;
      var children := props.children;
      var i := 0;
      while i < |children|
        invariant 0 <= i <= |children|
        invariant next == h + 1
        invariant nodes.Keys == old(nodes).Keys
        invariant forall c :: c in children[..i] ==> nodes[c] == old(nodes)[c].(parent := Some(h))
        invariant forall g :: g in old(nodes) && g !in children[..i] ==> nodes[g] == old(nodes)[g]
      {
        var child := children[i];
        nodes := nodes[child := nodes[child].(parent := Some(h))];
        assert children[..i + 1] == children[..i] + [child];
        i := i + 1;
      }
      assert children[..i] == children;
      var id := if props.id.Some? then props.id.value else freshId;
      nodes := nodes[h := ContainerNode(
        orientation,
        None,
        ContainerProps(children, props.refreshRoot, props.handlePercents, props.style, Some(id)),
        children, props.refreshRoot, id, props.handlePercents, props.style)];
      forall g | g in nodes ensures RefsWithin(nodes[g], nodes) {
        if g != h && g !in children {
          assert RefsWithin(old(nodes)[g], old(nodes));
        } else if g != h {
          assert RefsWithin(old(nodes)[g], old(nodes));
        }
      }
    }

    /** `recordTile`: a new parentless tile, recorded in `tiles` under its id. */
    method RecordTile(props: Option<TileProps>, freshId: string) returns (h: Handle)
      requires Valid()
      modifies this`nodes, this`next, this`tiles
      ensures Valid()
      ensures h !in old(nodes) && nodes.Keys == old(nodes).Keys + {h}
      ensures forall g :: g in old(nodes) ==> nodes[g] == old(nodes)[g]
      ensures nodes[h].TileNode? && nodes[h].parent == None && InSync(nodes[h])
      ensures nodes[h].id == if props.Some? && props.value.id.Some? then props.value.id.value else freshId
      ensures props.Some? ==>
        && nodes[h].className == props.value.className
        && nodes[h].style == props.value.style
        && nodes[h].url == props.value.url
        && nodes[h].contextBehavior == props.value.contextBehavior
        && nodes[h].resizeBehavior == props.value.resizeBehavior
      ensures props.None? ==>
        && nodes[h].className == None && nodes[h].style == None && nodes[h].url == None
        && nodes[h].contextBehavior == MissingContext
        && nodes[h].resizeBehavior == MissingResize
      ensures tiles == old(tiles)[nodes[h].id := h]
      ensures containers == old(containers)
    {
      h := NewTile(props, freshId, None);
      tiles := tiles[nodes[h].id := h];
    }

    /** `recordRow`: a new row, recorded in `containers` under its id. */
    method RecordRow(props: ContainerProps, freshId: string) returns (h: Handle)
      requires Valid()
      requires forall c :: c in props.children ==> c in nodes
      modifies this`nodes, this`next, this`containers
      ensures Valid()
      ensures h !in old(nodes) && nodes.Keys == old(nodes).Keys + {h}
      ensures nodes[h].ContainerNode? && nodes[h].orientation == Row && nodes[h].parent == None
      ensures InSync(nodes[h])
      ensures nodes[h].children == props.children
      ensures nodes[h].forceState == props.refreshRoot
      ensures nodes[h].handlePercents == props.handlePercents
      ensures nodes[h].style == props.style
      ensures nodes[h].id == if props.id.Some? then props.id.value else freshId
      ensures forall c :: c in props.children ==> nodes[c].parent == Some(h)
      ensures forall c :: c in props.children ==> nodes[c] == old(nodes)[c].(parent := Some(h))
      ensures forall g :: g in old(nodes) && g !in props.children ==> nodes[g] == old(nodes)[g]
      ensures containers == old(containers)[nodes[h].id := h]
      ensures tiles == old(tiles)
    {
      h := NewContainer(Row, props, freshId);
      containers := containers[nodes[h].id := h];
    }

    /** `recordColumn`: a new column, recorded in `containers` under its id. */
    method RecordColumn(props: ContainerProps, freshId: string) returns (h: Handle)
      requires Valid()
      requires forall c :: c in props.children ==> c in nodes
      modifies this`nodes, this`next, this`containers
      ensures Valid()
      ensures h !in old(nodes) && nodes.Keys == old(nodes).Keys + {h}
      ensures nodes[h].ContainerNode? && nodes[h].orientation == Column && nodes[h].parent == None
      ensures InSync(nodes[h])
      ensures nodes[h].children == props.children
      ensures nodes[h].forceState == props.refreshRoot
      ensures nodes[h].handlePercents == props.handlePercents
      ensures nodes[h].style == props.style
      ensures nodes[h].id == if props.id.Some? then props.id.value else freshId
      ensures forall c :: c in props.children ==> nodes[c].parent == Some(h)
      ensures forall c :: c in props.children ==> nodes[c] == old(nodes)[c].(parent := Some(h))
      ensures forall g :: g in old(nodes) && g !in props.children ==> nodes[g] == old(nodes)[g]
      ensures containers == old(containers)[nodes[h].id := h]
      ensures tiles == old(tiles)
    {
      h := NewContainer(Column, props, freshId);
      containers := containers[nodes[h].id := h];
    }

    /** The `style` setter, on a tile or a container. */
    method SetStyle(h: Handle, v: Style)
      requires Valid() && h in nodes
      modifies this`nodes
      ensures Valid()
      ensures nodes == old(nodes)[h := WithStyle(old(nodes)[h], v)]
      ensures nodes[h].style == Some(v) && PropsStyle(nodes[h]) == Some(v)
      ensures InSync(old(nodes)[h]) ==> InSync(nodes[h])
    {
      Replace(h, WithStyle(nodes[h], v));
    }

    /** `appendStyle`: the keys of `v` take `v`'s values, every other key of
        the current style keeps its value. */
    method AppendStyle(h: Handle, v: Style)
      requires Valid() && h in nodes
      modifies this`nodes
      ensures Valid()
      ensures nodes == old(nodes)[h := WithStyle(old(nodes)[h], MergeStyle(old(nodes)[h].style, v))]
      ensures nodes[h].style.Some?
      ensures forall k :: k in v ==> k in nodes[h].style.value && nodes[h].style.value[k] == v[k]
      ensures forall k :: k !in v ==>
        (k in nodes[h].style.value <==> old(nodes)[h].style.Some? && k in old(nodes)[h].style.value)
      ensures forall k :: k !in v && k in nodes[h].style.value ==> nodes[h].style.value[k] == old(nodes)[h].style.value[k]
    {
      SetStyle(h, MergeStyle(nodes[h].style, v));
    }

    /** The `id` setter, on a tile or a container. The `tiles` and
        `containers` records are not re-keyed. */
    method SetId(h: Handle, v: string)
      requires Valid() && h in nodes
      modifies this`nodes
      ensures Valid()
      ensures nodes == old(nodes)[h := WithId(old(nodes)[h], v)]
      ensures nodes[h].id == v && PropsId(nodes[h]) == Some(v)
      ensures InSync(old(nodes)[h]) ==> InSync(nodes[h])
    {
      Replace(h, WithId(nodes[h], v));
    }

    /** The `className` setter of a tile. */
    method SetClassName(h: Handle, v: string)
      requires Valid() && h in nodes && nodes[h].TileNode?
      modifies this`nodes
      ensures Valid()
      ensures nodes == old(nodes)[h := old(nodes)[h].(
        className := Some(v),
        tileProps := old(nodes)[h].tileProps.(className := Some(v)))]
      ensures InSync(old(nodes)[h]) ==> InSync(nodes[h])
    {
      Replace(h, nodes[h].(className := Some(v), tileProps := nodes[h].tileProps.(className := Some(v))));
    }

    /** The `url` setter of a tile: field and props take the URL, and one
        message carrying the tile's id and the URL is sent. */
    method SetUrl(h: Handle, v: Url)
      requires Valid() && h in nodes && nodes[h].TileNode?
      modifies this`nodes, this`outbox
      ensures Valid()
      ensures nodes == old(nodes)[h := old(nodes)[h].(
        url := Some(v),
        tileProps := old(nodes)[h].tileProps.(url := Some(v)))]
      ensures InSync(old(nodes)[h]) ==> InSync(nodes[h])
      ensures outbox == old(outbox) + [Message(SetViewUrlChannel, [nodes[h].id, v])]
    {
      Replace(h, nodes[h].(url := Some(v), tileProps := nodes[h].tileProps.(url := Some(v))));
      outbox := outbox + [Message(SetViewUrlChannel, [nodes[h].id, v])];
    }

    method SetContextBehavior(h: Handle, b: Behavior)
      requires Valid() && h in nodes && nodes[h].TileNode?
      modifies this`nodes
      ensures Valid()
      ensures nodes == old(nodes)[h := old(nodes)[h].(
        contextBehavior := b,
        tileProps := old(nodes)[h].tileProps.(contextBehavior := b))]
      ensures InSync(old(nodes)[h]) ==> InSync(nodes[h])
    {
      Replace(h, nodes[h].(contextBehavior := b, tileProps := nodes[h].tileProps.(contextBehavior := b)));
    }

    method SetResizeBehavior(h: Handle, b: Behavior)
      requires Valid() && h in nodes && nodes[h].TileNode?
      modifies this`nodes
      ensures Valid()
      ensures nodes == old(nodes)[h := old(nodes)[h].(
        resizeBehavior := b,
        tileProps := old(nodes)[h].tileProps.(resizeBehavior := b))]
      ensures InSync(old(nodes)[h]) ==> InSync(nodes[h])
    {
      Replace(h, nodes[h].(resizeBehavior := b, tileProps := nodes[h].tileProps.(resizeBehavior := b)));
    }

    /** `setProps` on a tile replaces the props record only; the fields are
        left as they were. */
    method SetTileProps(h: Handle, props: TileProps)
      requires Valid() && h in nodes && nodes[h].TileNode?
      modifies this`nodes
      ensures Valid()
      ensures nodes == old(nodes)[h := old(nodes)[h].(tileProps := props)]
    {
      Replace(h, nodes[h].(tileProps := props));
    }

    /** `appendProps`: the props record becomes the merge of the current
        props with the given ones; the fields are left as they were. */
    method AppendTileProps(h: Handle, props: TileProps)
      requires Valid() && h in nodes && nodes[h].TileNode?
      modifies this`nodes
      ensures Valid()
      ensures nodes == old(nodes)[h := old(nodes)[h].(tileProps := MergeTileProps(old(nodes)[h].tileProps, props))]
    {
      Replace(h, nodes[h].(tileProps := MergeTileProps(nodes[h].tileProps, props)));
    }

    /** `split`: invokes the tile's context behaviour once, with a split
        request in direction `d` for the given id. */
    method Split(h: Handle, id: string, d: Direction)
      requires Valid() && h in nodes && nodes[h].TileNode?
      modifies this`calls
      ensures Valid()
      ensures calls == old(calls) + [ContextCall(nodes[h].contextBehavior, id, ContextParams(ContextOption.Split, Some(d), None))]
    {
      calls := calls + [ContextCall(nodes[h].contextBehavior, id, ContextParams(ContextOption.Split, Some(d), None))];
    }

    /** `resize`: forwards the id and rectangle to the tile's resize behaviour. */
    method Resize(h: Handle, id: string, rect: Rect)
      requires Valid() && h in nodes && nodes[h].TileNode?
      modifies this`calls
      ensures Valid()
      ensures calls == old(calls) + [ResizeCall(nodes[h].resizeBehavior, id, rect)]
    {
      calls := calls + [ResizeCall(nodes[h].resizeBehavior, id, rect)];
    }

    /** The `children` setter of a container. The new children are not
        re-parented. */
    method SetChildren(h: Handle, children: seq<Handle>)
      requires Valid() && h in nodes && nodes[h].ContainerNode?
      requires forall c :: c in children ==> c in nodes
      modifies this`nodes
      ensures Valid()
      ensures nodes == old(nodes)[h := old(nodes)[h].(
        children := children,
        containerProps := old(nodes)[h].containerProps.(children := children))]
      ensures InSync(old(nodes)[h]) ==> InSync(nodes[h])
    {
      nodes := nodes[h := nodes[h].(children := children, containerProps := nodes[h].containerProps.(children := children))];
      forall g | g in nodes ensures RefsWithin(nodes[g], nodes) {
        assert RefsWithin(old(nodes)[g], old(nodes));
      }
    }

    /** The `forceState` setter of a container (stored as `refreshRoot` in
        the props). */
    method SetForceState(h: Handle, b: Behavior)
      requires Valid() && h in nodes && nodes[h].ContainerNode?
      modifies this`nodes
      ensures Valid()
      ensures nodes == old(nodes)[h := old(nodes)[h].(
        forceState := b,
        containerProps := old(nodes)[h].containerProps.(refreshRoot := b))]
      ensures InSync(old(nodes)[h]) ==> InSync(nodes[h])
    {
      Replace(h, nodes[h].(forceState := b, containerProps := nodes[h].containerProps.(refreshRoot := b)));
    }

    method SetHandlePercents(h: Handle, percents: seq<real>)
      requires Valid() && h in nodes && nodes[h].ContainerNode?
      modifies this`nodes
      ensures Valid()
      ensures nodes == old(nodes)[h := old(nodes)[h].(
        handlePercents := percents,
        containerProps := old(nodes)[h].containerProps.(handlePercents := percents))]
      ensures InSync(old(nodes)[h]) ==> InSync(nodes[h])
    {
      Replace(h, nodes[h].(handlePercents := percents, containerProps := nodes[h].containerProps.(handlePercents := percents)));
    }

    /** `setProps` on a container replaces the props record only. */
    method SetContainerProps(h: Handle, props: ContainerProps)
      requires Valid() && h in nodes && nodes[h].ContainerNode?
      modifies this`nodes
      ensures Valid()
      ensures nodes == old(nodes)[h := old(nodes)[h].(containerProps := props)]
    {
      Replace(h, nodes[h].(containerProps := props));
    }
  }

  /** A tree with a root node. Constructing it records the root in `tiles`
      when the root is a tile with a non-empty id. */
  class TileTree {
    var root: Handle

    constructor (store: NodeStore, root: Handle)
      requires store.Valid() && root in store.nodes
      modifies store`tiles
      ensures store.Valid()
      ensures this.root == root
      ensures store.tiles ==
        if store.nodes[root].TileNode? && store.nodes[root].id != ""
        then old(store.tiles)[store.nodes[root].id := root]
        else old(store.tiles)
    {
      this.root := root;
      if store.nodes[root].TileNode? && store.nodes[root].id != "" {
        store.tiles := store.tiles[store.nodes[root].id := root];
      }
    }
  }
}
