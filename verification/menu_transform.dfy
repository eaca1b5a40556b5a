/** The two tree maps behind the menu tree view: menu records as they
    arrive in JSON become `MenuTree` nodes, and `MenuTree` nodes become the
    `DataNode`s of the tree widget. */
module MenuTransform {
  import opened Common

  /** A menu record of the JSON response: `id`, `title`, `parentID` and
      possibly `children`. */
  datatype MenuItem = MenuItem(id: int, title: string, parentID: Option<int>, children: Children<MenuItem>)

  /** `Api.SystemManage.MenuTree` as the conversion builds it: the parent
      is stored under `parentId`. */
  datatype MenuTree = MenuTree(id: int, labelText: string, parentId: Option<int>, children: Children<MenuTree>)

  /** A tree widget node: `key`, `title` and possibly `children`. */
  datatype DataNode = DataNode(key: int, title: string, children: Children<DataNode>)

  /** A `children` key: absent (or `undefined`), or present with an
      array, possibly empty. */
  datatype Children<T> = Absent | Present(nodes: seq<T>)

  /** The response object whose `data` field holds the menu records. */
  datatype MenuResponse = MenuResponse(data: seq<MenuItem>)

  /** `item.children && item.children.length > 0`. */
  predicate HasChildren(item: MenuItem)
  {
    item.children.Present? && |item.children.nodes| > 0
  }

  // convertToMenuTree

  function ConvertItem(item: MenuItem): (t: MenuTree)
    ensures t.id == item.id && t.labelText == item.title && t.parentId == item.parentID
    ensures t.children.Present? <==> HasChildren(item)
    decreases item, 1
  {
    MenuTree(item.id, item.title, item.parentID,
             if HasChildren(item) then Present(ConvertToMenuTree(item.children.nodes)) else Absent)
  }

  /** `convertToMenuTree`: one node per record, in order, children kept only
      when the record has a non-empty children array. */
  function ConvertToMenuTree(data: seq<MenuItem>): (r: seq<MenuTree>)
    ensures |r| == |data|
    ensures forall i :: 0 <= i < |data| ==> r[i] == ConvertItem(data[i])
    decreases data, 0
  {
    if data == [] then [] else [ConvertItem(data[0])] + ConvertToMenuTree(data[1..])
  }

  // recursiveTransform

  function TransformNode(t: MenuTree): (n: DataNode)
    ensures n.key == t.id && n.title == t.labelText
    ensures n.children.Present? <==> t.children.Present?
    decreases t, 1
  {
    if t.children.Present? then DataNode(t.id, t.labelText, Present(RecursiveTransform(t.children.nodes)))
    else DataNode(t.id, t.labelText, Absent)
  }

  /** `recursiveTransform`: one node per tree node, in order; `id` becomes
      `key`, `label` becomes `title`, and a defined children array, even an
      empty one, becomes a `children` key. */
  function RecursiveTransform(data: seq<MenuTree>): (r: seq<DataNode>)
    ensures |r| == |data|
    ensures forall i :: 0 <= i < |data| ==> r[i] == TransformNode(data[i])
    decreases data, 0
  {
    if data == [] then [] else [TransformNode(data[0])] + RecursiveTransform(data[1..])
  }

  /** `fullTransformToDataNode`: both maps, one after the other. */
  function FullTransformToDataNode(json: MenuResponse): (r: seq<DataNode>)
    ensures |r| == |json.data|
    ensures forall i :: 0 <= i < |r| ==>
              r[i].key == json.data[i].id && r[i].title == json.data[i].title
              && (r[i].children.Present? <==> HasChildren(json.data[i]))
  {
    RecursiveTransform(ConvertToMenuTree(json.data))
  }

  // A direct map from records to widget nodes, as a reference.

  function DirectNode(item: MenuItem): DataNode
    decreases item, 1
  {
    DataNode(item.id, item.title, if HasChildren(item) then Present(DirectForest(item.children.nodes)) else Absent)
  }

  function DirectForest(items: seq<MenuItem>): seq<DataNode>
    decreases items, 0
  {
    if items == [] then [] else [DirectNode(items[0])] + DirectForest(items[1..])
  }

  /** The two maps in a row are the direct map from records to widget
      nodes: the intermediate `MenuTree` loses nothing the widget shows. */
  lemma {:induction false} FullTransformIsDirect(json: MenuResponse)
    ensures FullTransformToDataNode(json) == DirectForest(json.data)
  {
    ComposeForest(json.data);
  }

  lemma {:induction false} ComposeNode(item: MenuItem)
    ensures TransformNode(ConvertItem(item)) == DirectNode(item)
    decreases item, 1
  {
    if HasChildren(item) {
      ComposeForest(item.children.nodes);
    }
  }

  lemma {:induction false} ComposeForest(items: seq<MenuItem>)
    ensures RecursiveTransform(ConvertToMenuTree(items)) == DirectForest(items)
    decreases items, 0
  {
    if items != [] {
      ComposeNode(items[0]);
      ComposeForest(items[1..]);
      assert ConvertToMenuTree(items)[1..] == ConvertToMenuTree(items[1..]);
    }
  }

  /** A record whose children array is present but empty becomes a leaf:
      a widget node without a `children` key. */
  lemma EmptyChildrenIsLeaf(json: MenuResponse, i: nat)
    requires i < |json.data| && json.data[i].children == Present([])
    ensures FullTransformToDataNode(json)[i] == DataNode(json.data[i].id, json.data[i].title, Absent)
  {
  }

  /** The same `MenuTree` with an empty children array keeps a `children`
      key when transformed on its own, unlike the record it came from. */
  lemma EmptyTreeChildrenKept(t: MenuTree)
    requires t.children == Present([])
    ensures RecursiveTransform([t]) == [DataNode(t.id, t.labelText, Present([]))]
  {
  }

  // Pre-order listings: every node, parents before their children.

  function ItemOrder(items: seq<MenuItem>): seq<(int, string)>
    decreases items, 0
  {
    if items == [] then [] else ItemOrderOf(items[0]) + ItemOrder(items[1..])
  }

  function ItemOrderOf(item: MenuItem): seq<(int, string)>
    decreases item, 1
  {
    [(item.id, item.title)] + (if item.children.Present? then ItemOrder(item.children.nodes) else [])
  }

  function TreeOrder(ts: seq<MenuTree>): seq<(int, string)>
    decreases ts, 0
  {
    if ts == [] then [] else TreeOrderOf(ts[0]) + TreeOrder(ts[1..])
  }

  function TreeOrderOf(t: MenuTree): seq<(int, string)>
    decreases t, 1
  {
    [(t.id, t.labelText)] + (if t.children.Present? then TreeOrder(t.children.nodes) else [])
  }

  function NodeOrder(ns: seq<DataNode>): seq<(int, string)>
    decreases ns, 0
  {
    if ns == [] then [] else NodeOrderOf(ns[0]) + NodeOrder(ns[1..])
  }

  function NodeOrderOf(n: DataNode): seq<(int, string)>
    decreases n, 1
  {
    [(n.key, n.title)] + (if n.children.Present? then NodeOrder(n.children.nodes) else [])
  }

  /** `convertToMenuTree` keeps every record, at every depth, in pre-order:
      dropping an empty children array drops no node. */
  lemma {:induction false} ConvertKeepsOrder(items: seq<MenuItem>)
    ensures TreeOrder(ConvertToMenuTree(items)) == ItemOrder(items)
    decreases items, 0
  {
    if items != [] {
      ConvertKeepsOrderOf(items[0]);
      ConvertKeepsOrder(items[1..]);
      assert ConvertToMenuTree(items)[1..] == ConvertToMenuTree(items[1..]);
    }
  }

  lemma {:induction false} ConvertKeepsOrderOf(item: MenuItem)
    ensures TreeOrderOf(ConvertItem(item)) == ItemOrderOf(item)
    decreases item, 1
  {
    if HasChildren(item) {
      ConvertKeepsOrder(item.children.nodes);
    } else if item.children.Present? {
      assert ItemOrder(item.children.nodes) == [];
    }
  }

  /** `recursiveTransform` keeps every node, at every depth, in pre-order,
      with its key and title. */
  lemma {:induction false} TransformKeepsOrder(ts: seq<MenuTree>)
    ensures NodeOrder(RecursiveTransform(ts)) == TreeOrder(ts)
    decreases ts, 0
  {
    if ts != [] {
      TransformKeepsOrderOf(ts[0]);
      TransformKeepsOrder(ts[1..]);
      assert RecursiveTransform(ts)[1..] == RecursiveTransform(ts[1..]);
    }
  }

  lemma {:induction false} TransformKeepsOrderOf(t: MenuTree)
    ensures NodeOrderOf(TransformNode(t)) == TreeOrderOf(t)
    decreases t, 1
  {
    if t.children.Present? {
      TransformKeepsOrder(t.children.nodes);
    }
  }

  /** The whole pipeline lists the records' ids and titles, at every depth,
      in the order the response gives them. */
  lemma FullTransformKeepsOrder(json: MenuResponse)
    ensures NodeOrder(FullTransformToDataNode(json)) == ItemOrder(json.data)
  {
    ConvertKeepsOrder(json.data);
    TransformKeepsOrder(ConvertToMenuTree(json.data));
  }
}
