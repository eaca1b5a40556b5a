/** `parseJsonToTables` of `src/utils/jsonparsing.ts`: a JSON value
    decomposed into a flat list of tables linked by parent ids. Objects get
    a table of their own scalar fields; arrays of objects get one table with
    the merged scalar fields of their elements; empty arrays vanish; a
    top-level object made only of containers gets no root table. */
module JsonTables {
  import opened Common
  import opened Schema
  import DateValidator

  predicate IsEmptyArray(v: Json)
  {
    v.JArr? && |v.items| == 0
  }

  /** An array the engine turns into a table of its own: non-empty, and its
      first non-null element (if any) is a container. */
  predicate IsObjectArray(v: Json)
  {
    v.JArr? && |v.items| > 0 && ElementType(v.items) == "object"
  }

  // ---------------------------------------------------------------------
  // The fields an object's own table gets (the loop of handleNode)
  // ---------------------------------------------------------------------

  /** The field property `key: v` of an object contributes to the object's
      own table: scalars under their type, non-empty arrays of scalars as
      `<type>[]`; empty arrays, objects and arrays of objects give none. */
  function PropField(key: string, v: Json): (r: Option<Field>)
    ensures r.Some? <==> !v.JObj? && !IsEmptyArray(v) && !IsObjectArray(v)
    ensures r.Some? ==> r.value.name == key && r.value.ftype != "object[]"
                        && r.value.ftype == (if v.JArr? then ArrayType(v.items) else DetectType(v))
  {
    if IsEmptyArray(v) then None
    else if DetectType(v) != "object" then Some(Field(key, DetectType(v)))
    else if v.JArr? && ElementType(v.items) != "object" then Some(Field(key, ArrayType(v.items)))
    else None
  }

  function NodeFields(props: seq<(string, Json)>): (r: seq<Field>)
    ensures |r| <= |props|
  {
    if |props| == 0 then []
    else
      match PropField(props[0].0, props[0].1)
      case None => NodeFields(props[1..])
      case Some(f) => [f] + NodeFields(props[1..])
  }

  // ---------------------------------------------------------------------
  // The fields an array of objects' table gets (the first pass of
  // handleArray)
  // ---------------------------------------------------------------------

  /** The field property `key: v` of an array element offers to the merge:
      scalars under their type and every non-empty array as `<type>[]`,
      `object[]` included; empty arrays and objects offer none. */
  function PropCandidate(key: string, v: Json): (r: Option<Field>)
    ensures r.Some? <==> !v.JObj? && !IsEmptyArray(v)
    ensures r.Some? ==> r.value.name == key
                        && r.value.ftype == (if v.JArr? then ArrayType(v.items) else DetectType(v))
  {
    if IsEmptyArray(v) then None
    else if DetectType(v) != "object" then Some(Field(key, DetectType(v)))
    else if v.JArr? then Some(Field(key, ArrayType(v.items)))
    else None
  }

  function ItemCandidates(props: seq<(string, Json)>): (r: seq<Field>)
    ensures |r| <= |props|
  {
    if |props| == 0 then []
    else
      match PropCandidate(props[0].0, props[0].1)
      case None => ItemCandidates(props[1..])
      case Some(f) => [f] + ItemCandidates(props[1..])
  }

  /** The candidates of one element; elements that are not objects offer
      none. */
  function Offered(item: Json): seq<Field>
  {
    if item.JObj? then ItemCandidates(item.props) else []
  }

  /** The first pass: every element's candidates merged in turn into the
      fields seen so far. */
  function MergeItems(items: seq<Json>, acc: seq<Field>): seq<Field>
  {
    if |items| == 0 then acc
    else MergeItems(items[1..], MergeFieldOrder(acc, Offered(items[0])))
  }

  function MergedFields(items: seq<Json>): seq<Field>
  {
    MergeItems(items, [])
  }

  /** Every element's candidates, in element order. */
  function AllCandidates(items: seq<Json>): seq<Field>
  {
    if |items| == 0 then [] else Offered(items[0]) + AllCandidates(items[1..])
  }

  // ---------------------------------------------------------------------
  // The recursion: handleNode, handleArray and their loops
  // ---------------------------------------------------------------------

  /** Every table of `r` from index `from` on is laid out. */
  predicate LaidOutFrom(r: Builder, from: nat)
  {
    forall i :: from <= i < |r.tables| ==> LaidOut(r.tables[i])
  }

  /** The tables a loop adds below table `tableId`: numbered on, hanging
      below `tableId` or a later table, typed and laid out. */
  predicate AddsBelow(b: Builder, r: Builder, tableId: nat)
  {
    Extends(b, r) && Hangs(r, |b.tables|, tableId) && Typed(r, |b.tables|) && LaidOutFrom(r, |b.tables|)
  }

  /** What `handleNode` and `handleArray` leave behind: tables numbered on
      from `b`, the first of them (if any) named `name` below `parentId`,
      every later one below a table whose id is at least `lo`; all of them
      typed and all but perhaps the first laid out. */
  predicate Added(b: Builder, r: Builder, name: string, parentId: nat, lo: nat)
  {
    && Extends(b, r)
    && (|r.tables| > |b.tables| ==> r.tables[|b.tables|].name == name && r.tables[|b.tables|].parentId == parentId)
    && Hangs(r, |b.tables| + 1, lo)
    && Typed(r, |b.tables|)
    && LaidOutFrom(r, |b.tables| + 1)
  }

  /** `handleNode(node, name, parentId)`: a table for the node first, then
      for an object its nested objects and arrays of objects, in key order,
      then its own fields. An array node hands over to `handleArray` (its
      own table stays empty) unless its elements are scalars. */
  function HandleNode(node: Json, name: string, parentId: nat, b: Builder): (r: Builder)
    requires parentId < b.nextId
    ensures Added(b, r, name, parentId, if node.JArr? then parentId else b.nextId) && |r.tables| > |b.tables|
    ensures node.JObj? ==> r.tables[|b.tables|].fields == NodeFields(node.props) && LaidOut(r.tables[|b.tables|])
    decreases node, 3
  {
    if node.JObj? then ObjectNode(node, name, parentId, b)
    else if node.JArr? then ArrayNode(node, name, parentId, b)
    else
      var r := AddTable(b, name, parentId);
      SingleExtends(b, r);
      SingleAdded(b, r, name, parentId, b.nextId);
      r
  }

  /** `handleNode` on an object: its table, the property loop, then the
      table's own fields, laid out. */
  function ObjectNode(node: Json, name: string, parentId: nat, b: Builder): (r: Builder)
    requires node.JObj? && parentId < b.nextId
    ensures Added(b, r, name, parentId, b.nextId) && |r.tables| > |b.tables|
    ensures r.tables[|b.tables|].fields == NodeFields(node.props) && LaidOut(r.tables[|b.tables|])
    decreases node, 2
  {
    var b1 := AddTable(b, name, parentId);
    var b2 := HandleProps(node, 0, b.nextId, b1);
    NodeFieldsTyped(node.props);
    ObjectAdded(b, b2, name, parentId, NodeFields(node.props));
    SetFields(b2, |b.tables|, NodeFields(node.props))
  }

  /** `handleNode` on an array: an array of objects is handed over to
      `handleArray` below the same parent, after an empty table of its own;
      an array of scalars fills its table with the single field
      `name: <type>[]`. */
  function ArrayNode(node: Json, name: string, parentId: nat, b: Builder): (r: Builder)
    requires node.JArr? && parentId < b.nextId
    ensures Added(b, r, name, parentId, parentId) && |r.tables| > |b.tables|
    decreases node, 2
  {
    if ElementType(node.items) == "object" then
      var r := HandleArray(node, name, parentId, AddTable(b, name, parentId));
      HandOverAdded(b, r, name, parentId);
      r
    else
      var r := SingleTable(b, name, parentId, ArrayType(node.items));
      SingleAdded(b, r, name, parentId, parentId);
      r
  }

  /** The loop of `handleNode` over an object's properties from index `i`,
      recursing into nested objects and arrays of objects under table
      `tableId`. */
  function HandleProps(node: Json, i: nat, tableId: nat, b: Builder): (r: Builder)
    requires node.JObj? && i <= |node.props| && tableId < b.nextId
    ensures AddsBelow(b, r, tableId)
    decreases node, 1, |node.props| - i
  {
    if i == |node.props| then (AddsNothing(b, tableId); b)
    else
      var key := node.props[i].0;
      var v := node.props[i].1;
      var b1 :=
        if v.JObj? then
          var b1 := HandleNode(v, key, tableId, b);
          AddedBelow(b, b1, key, tableId, b.nextId);
          b1
        else if IsObjectArray(v) then
          var b1 := HandleArray(v, key, tableId, b);
          AddedBelow(b, b1, key, tableId, b.nextId);
          b1
        else (AddsNothing(b, tableId); b);
      var r := HandleProps(node, i + 1, tableId, b1);
      AddsBelowTrans(b, b1, r, tableId);
      r
  }

  /** `handleArray(arr, name, parentId)`: nothing for an empty array or an
      array of scalars; otherwise one table with the merged fields of the
      elements, followed by a table for every object-valued property of
      every object element. */
  function HandleArray(arr: Json, name: string, parentId: nat, b: Builder): (r: Builder)
    requires arr.JArr?
    ensures Added(b, r, name, parentId, b.nextId)
    ensures |r.tables| > |b.tables| <==> IsObjectArray(arr)
    ensures |r.tables| > |b.tables| ==>
              r.tables[|b.tables|].fields == MergedFields(arr.items) && LaidOut(r.tables[|b.tables|])
    decreases arr, 1
  {
    if !IsObjectArray(arr) then
      AddsNothing(b, b.nextId);
      AddedBelowNothing(b, name, parentId, b.nextId);
      b
    else
      var b1 := AddTable(b, name, parentId);
      MergedFieldsTyped(arr.items);
      var b2 := SetFields(b1, |b.tables|, MergedFields(arr.items));
      var r := SecondPass(arr, 0, b.nextId, b2);
      ArrayAdded(b, b2, r, name, parentId, MergedFields(arr.items));
      r
  }

  /** The second pass of `handleArray` over the elements from index `j`. */
  function SecondPass(arr: Json, j: nat, tableId: nat, b: Builder): (r: Builder)
    requires arr.JArr? && j <= |arr.items| && tableId < b.nextId
    ensures AddsBelow(b, r, tableId)
    decreases arr, 0, |arr.items| - j
  {
    if j == |arr.items| then (AddsNothing(b, tableId); b)
    else
      var item := arr.items[j];
      var b1 := if item.JObj? then ItemProps(item, 0, tableId, b) else (AddsNothing(b, tableId); b);
      var r := SecondPass(arr, j + 1, tableId, b1);
      AddsBelowTrans(b, b1, r, tableId);
      r
  }

  /** The second pass over one object element's properties from index `k`:
      a child table for each object value; arrays are never entered. */
  function ItemProps(item: Json, k: nat, tableId: nat, b: Builder): (r: Builder)
    requires item.JObj? && k <= |item.props| && tableId < b.nextId
    ensures AddsBelow(b, r, tableId)
    decreases item, 0, |item.props| - k
  {
    if k == |item.props| then (AddsNothing(b, tableId); b)
    else
      var v := item.props[k].1;
      var b1 :=
        if v.JObj? then
          var b1 := HandleNode(v, item.props[k].0, tableId, b);
          AddedBelow(b, b1, item.props[k].0, tableId, b.nextId);
          b1
        else (AddsNothing(b, tableId); b);
      var r := ItemProps(item, k + 1, tableId, b1);
      AddsBelowTrans(b, b1, r, tableId);
      r
  }

  /** A table `name` below `parentId` holding the single field
      `name: ftype`, laid out. */
  function SingleTable(b: Builder, name: string, parentId: nat, ftype: string): (r: Builder)
    requires ftype in ScalarTypes || ftype in ArrayTypes
    ensures Extends(b, r) && |r.tables| == |b.tables| + 1
    ensures r.tables[|b.tables|].name == name && r.tables[|b.tables|].parentId == parentId
    ensures r.tables[|b.tables|].fields == [Field(name, ftype)] && LaidOut(r.tables[|b.tables|])
  {
    var r := SetFields(AddTable(b, name, parentId), |b.tables|, [Field(name, ftype)]);
    SingleExtends(b, r);
    r
  }

  // ---------------------------------------------------------------------
  // Bookkeeping lemmas for the recursion
  // ---------------------------------------------------------------------

  lemma {:induction false} AddsNothing(b: Builder, tableId: nat)
    ensures AddsBelow(b, b, tableId)
  {
  }

  lemma {:induction false} AddedBelowNothing(b: Builder, name: string, parentId: nat, lo: nat)
    ensures Added(b, b, name, parentId, lo)
  {
  }

  lemma {:induction false} AddsBelowTrans(a: Builder, b: Builder, c: Builder, tableId: nat)
    requires AddsBelow(a, b, tableId) && AddsBelow(b, c, tableId)
    ensures AddsBelow(a, c, tableId)
  {
    forall i | |a.tables| <= i < |c.tables|
      ensures tableId <= c.tables[i].parentId < c.tables[i].id
      ensures TypedFields(c.tables[i].fields) && LaidOut(c.tables[i])
    {
      if i < |b.tables| {
        assert c.tables[i] == b.tables[i];
      }
    }
  }

  /** A child added below table `tableId`, with its own descendants below
      it, is an addition below `tableId`. */
  lemma {:induction false} AddedBelow(b: Builder, r: Builder, name: string, tableId: nat, lo: nat)
    requires Added(b, r, name, tableId, lo) && tableId <= lo && tableId < b.nextId
    requires |r.tables| > |b.tables| ==> LaidOut(r.tables[|b.tables|])
    ensures AddsBelow(b, r, tableId)
  {
    forall i | |b.tables| <= i < |r.tables|
      ensures tableId <= r.tables[i].parentId < r.tables[i].id
      ensures LaidOut(r.tables[i])
    {
    }
  }

  lemma {:induction false} SingleExtends(b: Builder, r: Builder)
    requires |r.tables| == |b.tables| + 1 && r.nextId == b.nextId + 1
    requires forall i :: 0 <= i < |b.tables| ==> r.tables[i] == b.tables[i]
    requires r.tables[|b.tables|].id == b.nextId
    ensures Extends(b, r)
  {
    forall i | |b.tables| <= i < |r.tables| ensures r.tables[i].id == b.nextId + (i - |b.tables|) {
      assert i == |b.tables|;
    }
  }

  /** A single laid-out table with typed fields is an addition whatever the
      bound on later parents, since there are no later tables. */
  lemma {:induction false} SingleAdded(b: Builder, r: Builder, name: string, parentId: nat, lo: nat)
    requires Extends(b, r) && |r.tables| == |b.tables| + 1
    requires r.tables[|b.tables|].name == name && r.tables[|b.tables|].parentId == parentId
    requires TypedFields(r.tables[|b.tables|].fields)
    ensures Added(b, r, name, parentId, lo)
  {
    forall i | |b.tables| <= i < |r.tables| ensures TypedFields(r.tables[i].fields) {
      assert i == |b.tables|;
    }
  }

  /** `handleNode` on an object: its table, then the additions of the
      property loop, then its fields set and laid out. */
  lemma {:induction false} ObjectAdded(b: Builder, b2: Builder, name: string, parentId: nat, fields: seq<Field>)
    requires parentId < b.nextId && TypedFields(fields)
    requires AddsBelow(AddTable(b, name, parentId), b2, b.nextId)
    ensures var r := SetFields(b2, |b.tables|, fields);
            && Added(b, r, name, parentId, b.nextId) && |r.tables| > |b.tables|
            && r.tables[|b.tables|].fields == fields && LaidOut(r.tables[|b.tables|])
  {
    var b1 := AddTable(b, name, parentId);
    var k := |b.tables|;
    var r := SetFields(b2, k, fields);
    assert Extends(b, r) by {
      forall i | 0 <= i < |b.tables| ensures r.tables[i] == b.tables[i] {
        assert b2.tables[i] == b1.tables[i];
      }
      forall i | |b.tables| <= i < |r.tables| ensures r.tables[i].id == b.nextId + (i - |b.tables|) {
        if i == k {
          assert b2.tables[k] == b1.tables[k];
        }
      }
    }
    forall i | k + 1 <= i < |r.tables|
      ensures b.nextId <= r.tables[i].parentId < r.tables[i].id
      ensures TypedFields(r.tables[i].fields) && LaidOut(r.tables[i])
    {
      assert r.tables[i] == b2.tables[i];
    }
    assert r.tables[k].name == name && r.tables[k].parentId == parentId by {
      assert b2.tables[k] == b1.tables[k];
    }
  }

  /** `handleNode` on an array of objects: its own empty table, then
      everything `handleArray` adds below the same parent. */
  lemma {:induction false} HandOverAdded(b: Builder, r: Builder, name: string, parentId: nat)
    requires parentId < b.nextId
    requires Added(AddTable(b, name, parentId), r, name, parentId, b.nextId + 1)
    requires |r.tables| > |b.tables| + 1 ==> LaidOut(r.tables[|b.tables| + 1])
    ensures Added(b, r, name, parentId, parentId) && |r.tables| > |b.tables|
  {
    var b1 := AddTable(b, name, parentId);
    var k := |b.tables|;
    assert r.tables[k] == b1.tables[k];
    forall i | 0 <= i < |b.tables| ensures r.tables[i] == b.tables[i] {
      assert r.tables[i] == b1.tables[i];
    }
    forall i | k + 1 <= i < |r.tables|
      ensures parentId <= r.tables[i].parentId < r.tables[i].id
      ensures LaidOut(r.tables[i])
    {
    }
  }

  /** `handleArray` on an array of objects: its table with the merged
      fields, then the additions of the second pass. */
  lemma {:induction false} ArrayAdded(b: Builder, b2: Builder, r: Builder, name: string, parentId: nat, fields: seq<Field>)
    requires TypedFields(fields)
    requires b2 == SetFields(AddTable(b, name, parentId), |b.tables|, fields)
    requires AddsBelow(b2, r, b.nextId)
    ensures Added(b, r, name, parentId, b.nextId) && |r.tables| > |b.tables|
    ensures r.tables[|b.tables|].fields == fields && LaidOut(r.tables[|b.tables|])
  {
    var b1 := AddTable(b, name, parentId);
    var k := |b.tables|;
    assert r.tables[k] == b2.tables[k];
    SingleExtends(b, b2);
    ExtendsTrans(b, b2, r);
    forall i | k + 1 <= i < |r.tables|
      ensures b.nextId <= r.tables[i].parentId < r.tables[i].id
      ensures LaidOut(r.tables[i])
    {
    }
    forall i | k <= i < |r.tables| ensures TypedFields(r.tables[i].fields) {
    }
  }

  // ---------------------------------------------------------------------
  // Top level
  // ---------------------------------------------------------------------

  /** `hasSimpleValues(obj)`: an object with some property `detectType`
      does not call `"object"`; `null` counts as simple, every array does
      not. */
  function HasSimpleValues(input: Json): (r: bool)
    ensures r <==> input.JObj? && exists i :: 0 <= i < |input.props| && DetectType(input.props[i].1) != "object"
  {
    input.JObj? && SimpleFrom(input.props, 0)
  }

  function SimpleFrom(props: seq<(string, Json)>, i: nat): (r: bool)
    requires i <= |props|
    ensures r <==> exists j :: i <= j < |props| && DetectType(props[j].1) != "object"
    decreases |props| - i
  {
    if i == |props| then false
    else if DetectType(props[i].1) != "object" then true
    else SimpleFrom(props, i + 1)
  }

  /** The loop over a top-level object made only of containers: each
      non-empty property becomes a top-level table of its own. */
  function TopProps(input: Json, i: nat, b: Builder): (r: Builder)
    requires input.JObj? && !HasSimpleValues(input) && i <= |input.props| && 0 < b.nextId
    ensures AddsBelow(b, r, 0)
    decreases |input.props| - i
  {
    if i == |input.props| then (AddsNothing(b, 0); b)
    else
      assert DetectType(input.props[i].1) == "object";
      var b1 := TopProp(input.props[i].0, input.props[i].1, b);
      var r := TopProps(input, i + 1, b1);
      AddsBelowTrans(b, b1, r, 0);
      r
  }

  /** One property `key: v` of a top-level object made only of containers:
      an empty array is skipped, an array of objects is handled below no
      parent, an array of scalars becomes the table `key` with the single
      field `key: <type>[]`, an object is handled below no parent. */
  function TopProp(key: string, v: Json, b: Builder): (r: Builder)
    requires DetectType(v) == "object" && 0 < b.nextId
    ensures AddsBelow(b, r, 0)
  {
    if IsEmptyArray(v) then (AddsNothing(b, 0); b)
    else if v.JArr? && ElementType(v.items) == "object" then
      var r := HandleArray(v, key, 0, b);
      AddedBelow(b, r, key, 0, b.nextId);
      r
    else if v.JArr? then
      var r := SingleTable(b, key, 0, ArrayType(v.items));
      SingleBelow(b, r, key);
      r
    else
      var r := HandleNode(v, key, 0, b);
      AddedBelow(b, r, key, 0, b.nextId);
      r
  }

  /** The top-level dispatch of `parseJsonToTables`. */
  function TopLevel(input: Json): (r: Builder)
    ensures AddsBelow(Start, r, 0)
  {
    match input
    case JArr(items) =>
      if ElementType(items) == "object" then
        var r := HandleArray(input, "root", 0, Start);
        AddedBelow(Start, r, "root", 0, 1);
        r
      else SoleTable("root", ArrayType(items))
    case JObj(_) =>
      if HasSimpleValues(input) then
        var r := HandleNode(input, "root", 0, Start);
        AddedBelow(Start, r, "root", 0, 1);
        r
      else TopProps(input, 0, Start)
    case _ => SoleTable("root", DetectType(input))
  }

  /** The output made of the single table `name` with the single field
      `name: ftype`. */
  function SoleTable(name: string, ftype: string): (r: Builder)
    requires ftype in ScalarTypes || ftype in ArrayTypes
    ensures AddsBelow(Start, r, 0)
    ensures |r.tables| == 1 && r.tables[0].name == name && r.tables[0].parentId == 0
    ensures r.tables[0].fields == [Field(name, ftype)] && LaidOut(r.tables[0])
  {
    var r := SingleTable(Start, name, 0, ftype);
    SingleBelow(Start, r, name);
    r
  }

  /** A single laid-out table with typed fields below no parent. */
  lemma {:induction false} SingleBelow(b: Builder, r: Builder, name: string)
    requires 0 < b.nextId && Extends(b, r) && |r.tables| == |b.tables| + 1
    requires r.tables[|b.tables|].name == name && r.tables[|b.tables|].parentId == 0
    requires TypedFields(r.tables[|b.tables|].fields) && LaidOut(r.tables[|b.tables|])
    ensures AddsBelow(b, r, 0)
  {
    SingleAdded(b, r, name, 0, b.nextId);
    AddedBelow(b, r, name, 0, b.nextId);
  }

  /** The sole table's layout: ten units per character of `name: ftype`
      plus 30, and the type column where `ftype` still fits. */
  lemma {:induction false} SoleTableShape(name: string, ftype: string)
    requires ftype in ScalarTypes || ftype in ArrayTypes
    ensures var w := 10 * (|name| + |ftype|) + 30;
            SoleTable(name, ftype).tables == [Table(1, name, 0, w, w - (10 * |ftype| - 20), [Field(name, ftype)])]
  {
    var r := SoleTable(name, ftype);
    SingleLength(Field(name, ftype));
    assert r.tables[0].id == 1;
  }

  /** `parseJsonToTables` on an already parsed value. */
  function ParseJsonToTables(input: Json): (r: seq<Table>)
    ensures Sequential(r)
    ensures forall i :: 0 <= i < |r| ==> LaidOut(r[i]) && TypedFields(r[i].fields)
  {
    var b := TopLevel(input);
    StartSequential(b);
    b.tables
  }

  /** The value the engine works on: a string input is replaced by what
      `JSON.parse` makes of it (`parsed`), or kept when parsing fails
      (`parsed` is `None`). */
  function ParsedInput(input: Json, parsed: Option<Json>): Json
  {
    if input.JStr? && parsed.Some? then parsed.value else input
  }

  // ---------------------------------------------------------------------
  // Field lemmas
  // ---------------------------------------------------------------------

  lemma {:induction false} NodeFieldsTyped(props: seq<(string, Json)>)
    ensures TypedFields(NodeFields(props))
    ensures forall i :: 0 <= i < |NodeFields(props)| ==> NodeFields(props)[i].ftype != "object[]"
  {
    if |props| > 0 {
      NodeFieldsTyped(props[1..]);
    }
  }

  lemma {:induction false} ItemCandidatesTyped(props: seq<(string, Json)>)
    ensures TypedFields(ItemCandidates(props))
  {
    if |props| > 0 {
      ItemCandidatesTyped(props[1..]);
    }
  }

  lemma {:induction false} MergeItemsTyped(items: seq<Json>, acc: seq<Field>)
    requires TypedFields(acc)
    ensures TypedFields(MergeItems(items, acc))
    decreases |items|
  {
    if |items| > 0 {
      if items[0].JObj? {
        ItemCandidatesTyped(items[0].props);
      }
      MergeTyped(acc, Offered(items[0]));
      MergeItemsTyped(items[1..], MergeFieldOrder(acc, Offered(items[0])));
    }
  }

  lemma {:induction false} MergedFieldsTyped(items: seq<Json>)
    ensures TypedFields(MergedFields(items))
  {
    MergeItemsTyped(items, []);
  }

  // ---------------------------------------------------------------------
  // Which tables hang directly below which
  // ---------------------------------------------------------------------

  /** The keys `handleNode` makes child tables for: objects and arrays of
      objects, in key order. */
  function NodeChildren(props: seq<(string, Json)>): seq<string>
  {
    if |props| == 0 then []
    else
      (if props[0].1.JObj? || IsObjectArray(props[0].1) then [props[0].0] else [])
      + NodeChildren(props[1..])
  }

  /** The keys of an element's object-valued properties. */
  function ObjectKeys(props: seq<(string, Json)>): seq<string>
  {
    if |props| == 0 then []
    else (if props[0].1.JObj? then [props[0].0] else []) + ObjectKeys(props[1..])
  }

  /** The keys the second pass of `handleArray` makes child tables for: the
      object-valued properties of every object element, one per
      occurrence. */
  function NestedKeys(items: seq<Json>): seq<string>
  {
    if |items| == 0 then []
    else (if items[0].JObj? then ObjectKeys(items[0].props) else []) + NestedKeys(items[1..])
  }

  /** The keys of a top-level object whose value is not an empty array. */
  function NonEmptyKeys(props: seq<(string, Json)>): seq<string>
  {
    if |props| == 0 then []
    else (if IsEmptyArray(props[0].1) then [] else [props[0].0]) + NonEmptyKeys(props[1..])
  }

  /** A child added below table `id` whose own descendants hang below
      later tables counts as one child of `id`. */
  lemma {:induction false} OneChild(b: Builder, r: Builder, name: string, id: nat, lo: nat)
    requires Added(b, r, name, id, lo) && |r.tables| > |b.tables| && id < lo
    ensures ChildNames(NewTables(b, r), id) == [name]
  {
    var ts := NewTables(b, r);
    assert ts[0] == r.tables[|b.tables|];
    ChildNamesNone(ts[1..], id);
  }

  /** The direct children of table `tableId` made by the loop of
      `handleNode` from property `i` on are its objects and arrays of
      objects, one each, in key order. */
  lemma {:induction false} PropsChildren(node: Json, i: nat, tableId: nat, b: Builder)
    requires node.JObj? && i <= |node.props| && tableId < b.nextId
    ensures ChildNames(NewTables(b, HandleProps(node, i, tableId, b)), tableId) == NodeChildren(node.props[i..])
    decreases |node.props| - i
  {
    var r := HandleProps(node, i, tableId, b);
    if i == |node.props| {
      assert NewTables(b, r) == [];
    } else {
      var key := node.props[i].0;
      var v := node.props[i].1;
      var b1 :=
        if v.JObj? then HandleNode(v, key, tableId, b)
        else if IsObjectArray(v) then HandleArray(v, key, tableId, b)
        else b;
      AddsNothing(b, tableId);
      PropsChildren(node, i + 1, tableId, b1);
      NewTablesSplit(b, b1, r);
      ChildNamesAppend(NewTables(b, b1), NewTables(b1, r), tableId);
      if v.JObj? || IsObjectArray(v) {
        OneChild(b, b1, key, tableId, b.nextId);
      } else {
        assert NewTables(b, b1) == [];
      }
      assert node.props[i..][1..] == node.props[i + 1..];
    }
  }

  /** The direct children of an object's table are its objects and arrays
      of objects, one each, in key order. */
  lemma {:induction false} ObjectNodeChildren(node: Json, name: string, parentId: nat, b: Builder)
    requires node.JObj? && parentId < b.nextId
    ensures ChildNames(NewTables(b, HandleNode(node, name, parentId, b)), b.nextId) == NodeChildren(node.props)
  {
    var b1 := AddTable(b, name, parentId);
    var b2 := HandleProps(node, 0, b.nextId, b1);
    assert HandleNode(node, name, parentId, b) == SetFields(b2, |b.tables|, NodeFields(node.props));
    PropsChildren(node, 0, b.nextId, b1);
    assert node.props[0..] == node.props;
    OwnTableNotChild(b, b2, name, parentId, NodeFields(node.props));
  }

  /** Filling in the fields of a node's own table, which hangs below an
      earlier table, leaves the children of the node's id to those the loop
      added after it. */
  lemma {:induction false} OwnTableNotChild(b: Builder, b2: Builder, name: string, parentId: nat, fields: seq<Field>)
    requires parentId < b.nextId && Extends(AddTable(b, name, parentId), b2)
    ensures var r := SetFields(b2, |b.tables|, fields);
            ChildNames(NewTables(b, r), b.nextId) == ChildNames(NewTables(AddTable(b, name, parentId), b2), b.nextId)
  {
    var b1 := AddTable(b, name, parentId);
    var r := SetFields(b2, |b.tables|, fields);
    var ts := NewTables(b, r);
    assert ts[1..] == NewTables(b1, b2) by {
      forall j | 0 <= j < |ts[1..]| ensures ts[1..][j] == NewTables(b1, b2)[j] {
        assert r.tables[|b.tables| + 1 + j] == b2.tables[|b.tables| + 1 + j];
      }
    }
    assert ts[0].parentId == b2.tables[|b.tables|].parentId == b1.tables[|b.tables|].parentId;
  }

  /** The direct children made by the second pass over one element from
      property `k` on: its object values, one each, in key order. */
  lemma {:induction false} ItemChildren(item: Json, k: nat, tableId: nat, b: Builder)
    requires item.JObj? && k <= |item.props| && tableId < b.nextId
    ensures ChildNames(NewTables(b, ItemProps(item, k, tableId, b)), tableId) == ObjectKeys(item.props[k..])
    decreases |item.props| - k
  {
    var r := ItemProps(item, k, tableId, b);
    if k == |item.props| {
      assert NewTables(b, r) == [];
    } else {
      var v := item.props[k].1;
      var b1 := if v.JObj? then HandleNode(v, item.props[k].0, tableId, b) else b;
      AddsNothing(b, tableId);
      ItemChildren(item, k + 1, tableId, b1);
      NewTablesSplit(b, b1, r);
      ChildNamesAppend(NewTables(b, b1), NewTables(b1, r), tableId);
      if v.JObj? {
        OneChild(b, b1, item.props[k].0, tableId, b.nextId);
      } else {
        assert NewTables(b, b1) == [];
      }
      assert item.props[k..][1..] == item.props[k + 1..];
    }
  }

  /** The direct children made by the second pass from element `j` on: the
      object values of every object element, one per occurrence. */
  lemma {:induction false} SecondPassChildren(arr: Json, j: nat, tableId: nat, b: Builder)
    requires arr.JArr? && j <= |arr.items| && tableId < b.nextId
    ensures ChildNames(NewTables(b, SecondPass(arr, j, tableId, b)), tableId) == NestedKeys(arr.items[j..])
    decreases |arr.items| - j
  {
    var r := SecondPass(arr, j, tableId, b);
    if j == |arr.items| {
      assert NewTables(b, r) == [];
    } else {
      var item := arr.items[j];
      var b1 := if item.JObj? then ItemProps(item, 0, tableId, b) else b;
      AddsNothing(b, tableId);
      SecondPassChildren(arr, j + 1, tableId, b1);
      NewTablesSplit(b, b1, r);
      ChildNamesAppend(NewTables(b, b1), NewTables(b1, r), tableId);
      if item.JObj? {
        ItemChildren(item, 0, tableId, b);
        assert item.props[0..] == item.props;
      } else {
        assert NewTables(b, b1) == [];
      }
      assert arr.items[j..][1..] == arr.items[j + 1..];
    }
  }

  /** The direct children of an array's table: one table per object-valued
      property of each object element, never merged, and nothing for the
      arrays inside the elements. */
  lemma {:induction false} ArrayChildren(arr: Json, name: string, parentId: nat, b: Builder)
    requires IsObjectArray(arr) && parentId < b.nextId
    ensures ChildNames(NewTables(b, HandleArray(arr, name, parentId, b)), b.nextId) == NestedKeys(arr.items)
  {
    var b1 := AddTable(b, name, parentId);
    var b2 := SetFields(b1, |b.tables|, MergedFields(arr.items));
    var r := HandleArray(arr, name, parentId, b);
    assert r == SecondPass(arr, 0, b.nextId, b2);
    SecondPassChildren(arr, 0, b.nextId, b2);
    assert arr.items[0..] == arr.items;
    SingleExtends(b, b2);
    AddsNothing(b2, b.nextId);
    NewTablesSplit(b, b2, r);
    ChildNamesAppend(NewTables(b, b2), NewTables(b2, r), b.nextId);
    assert NewTables(b, b2) == [b2.tables[|b.tables|]];
  }

  lemma {:induction false} TopPropChild(key: string, v: Json, b: Builder)
    requires DetectType(v) == "object" && 0 < b.nextId
    ensures ChildNames(NewTables(b, TopProp(key, v, b)), 0) == if IsEmptyArray(v) then [] else [key]
  {
    var r := TopProp(key, v, b);
    if IsEmptyArray(v) {
      assert NewTables(b, r) == [];
    } else if v.JArr? && ElementType(v.items) == "object" {
      OneChild(b, r, key, 0, b.nextId);
    } else if v.JArr? {
      SingleAdded(b, r, key, 0, b.nextId);
      OneChild(b, r, key, 0, b.nextId);
    } else {
      OneChild(b, r, key, 0, b.nextId);
    }
  }

  lemma {:induction false} TopPropsChildren(input: Json, i: nat, b: Builder)
    requires input.JObj? && !HasSimpleValues(input) && i <= |input.props| && 0 < b.nextId
    ensures ChildNames(NewTables(b, TopProps(input, i, b)), 0) == NonEmptyKeys(input.props[i..])
    decreases |input.props| - i
  {
    var r := TopProps(input, i, b);
    if i == |input.props| {
      assert NewTables(b, r) == [];
    } else {
      assert DetectType(input.props[i].1) == "object";
      var b1 := TopProp(input.props[i].0, input.props[i].1, b);
      TopPropChild(input.props[i].0, input.props[i].1, b);
      TopPropsChildren(input, i + 1, b1);
      NewTablesSplit(b, b1, r);
      ChildNamesAppend(NewTables(b, b1), NewTables(b1, r), 0);
      assert input.props[i..][1..] == input.props[i + 1..];
    }
  }

  /** A top-level object whose every property is an object or an array
      (`null` would count as simple) gets no `root` table: the top-level
      tables are exactly its properties that are not empty arrays, one
      each, in key order. So `{x: []}` gives no table at all. */
  lemma {:induction false} NoRootForContainers(input: Json)
    requires input.JObj? && !HasSimpleValues(input)
    ensures ChildNames(ParseJsonToTables(input), 0) == NonEmptyKeys(input.props)
  {
    var r := TopProps(input, 0, Start);
    assert ParseJsonToTables(input) == r.tables;
    TopPropsChildren(input, 0, Start);
    assert input.props[0..] == input.props;
    assert NewTables(Start, r) == r.tables;
  }

  /** An object with a property `detectType` does not call `"object"` gets
      the table `root` first, below no parent, holding its own fields; it
      is the only top-level table, and the tables directly below it are
      made for its objects and arrays of objects, in key order. */
  lemma {:induction false} RootForSimpleValues(input: Json)
    requires HasSimpleValues(input)
    ensures var r := ParseJsonToTables(input);
            && |r| > 0 && r[0].name == "root" && r[0].parentId == 0 && r[0].fields == NodeFields(input.props)
            && ChildNames(r, 0) == ["root"] && ChildNames(r, 1) == NodeChildren(input.props)
  {
    var b := HandleNode(input, "root", 0, Start);
    assert ParseJsonToTables(input) == b.tables;
    assert NewTables(Start, b) == b.tables;
    OneChild(Start, b, "root", 0, 1);
    ObjectNodeChildren(input, "root", 0, Start);
  }

  /** A scalar (or `null`) input gives the single table `root` with the
      single field `root` typed by `detectType`; like every output table it
      is laid out, which `SoleTableShape` spells out. */
  lemma {:induction false} ScalarInput(input: Json)
    requires !input.JArr? && !input.JObj?
    ensures var r := ParseJsonToTables(input);
            |r| == 1 && r[0].name == "root" && r[0].parentId == 0 && r[0].fields == [Field("root", DetectType(input))]
  {
    TopLevelScalar(input);
    SoleRoot(input, DetectType(input));
  }

  /** An input whose dispatch is the sole table `root` gives that table. */
  lemma {:induction false} SoleRoot(input: Json, ftype: string)
    requires ftype in ScalarTypes || ftype in ArrayTypes
    requires TopLevel(input) == SoleTable("root", ftype)
    ensures var r := ParseJsonToTables(input);
            |r| == 1 && r[0].name == "root" && r[0].parentId == 0 && r[0].fields == [Field("root", ftype)]
  {
    TablesOfTopLevel(input);
  }

  lemma {:induction false} TablesOfTopLevel(input: Json)
    ensures ParseJsonToTables(input) == TopLevel(input).tables
  {
  }

  /** The entry of `parseJsonToTables`: a string is decomposed as the value
      `JSON.parse` makes of it; a string that does not parse is kept, and
      becomes the single table `root` with one `date` or `string` field;
      any other input is decomposed as it is. */
  lemma {:induction false} ParsedInputEntry(input: Json, parsed: Option<Json>)
    ensures input.JStr? && parsed.Some? ==> ParseJsonToTables(ParsedInput(input, parsed)) == ParseJsonToTables(parsed.value)
    ensures input.JStr? && parsed.None? ==>
              var r := ParseJsonToTables(ParsedInput(input, parsed));
              && |r| == 1 && r[0].name == "root" && r[0].parentId == 0
              && r[0].fields == [Field("root", if DateValidator.IsValidDate(input.s) then "date" else "string")]
    ensures !input.JStr? ==> ParseJsonToTables(ParsedInput(input, parsed)) == ParseJsonToTables(input)
  {
    if input.JStr? && parsed.None? {
      assert ParsedInput(input, parsed) == input;
      ScalarInput(input);
    }
  }

  lemma {:induction false} TopLevelScalar(input: Json)
    requires !input.JArr? && !input.JObj?
    ensures TopLevel(input) == SoleTable("root", DetectType(input))
  {
  }

  /** A top-level array whose first non-null element is a scalar gives the
      single table `root` with the single field `root: <type>[]`. */
  lemma {:induction false} ScalarArrayInput(input: Json)
    requires input.JArr? && ElementType(input.items) != "object"
    ensures var r := ParseJsonToTables(input);
            |r| == 1 && r[0].name == "root" && r[0].parentId == 0 && r[0].fields == [Field("root", ArrayType(input.items))]
  {
    assert ParseJsonToTables(input) == SoleTable("root", ArrayType(input.items)).tables;
  }

  /** A top-level array of objects gives the table `root` first, holding the
      merged fields of the elements, and below it one table per
      object-valued property of each object element. */
  lemma {:induction false} ObjectArrayInput(input: Json)
    requires IsObjectArray(input)
    ensures var r := ParseJsonToTables(input);
            && |r| > 0 && r[0].name == "root" && r[0].parentId == 0 && r[0].fields == MergedFields(input.items)
            && ChildNames(r, 1) == NestedKeys(input.items)
  {
    ArrayTopLevel(input);
    ObjectArrayTables(input, "root");
  }

  /** On an array of objects the dispatch goes to `handleArray` for `root`. */
  lemma ArrayTopLevel(input: Json)
    requires IsObjectArray(input)
    ensures ParseJsonToTables(input) == HandleArray(input, "root", 0, Start).tables
  {
  }

  lemma {:induction false} ObjectArrayTables(input: Json, name: string)
    requires IsObjectArray(input)
    ensures var r := HandleArray(input, name, 0, Start).tables;
            && |r| > 0 && r[0].name == name && r[0].parentId == 0 && r[0].fields == MergedFields(input.items)
            && ChildNames(r, 1) == NestedKeys(input.items)
  {
    var b := HandleArray(input, name, 0, Start);
    assert NewTables(Start, b) == b.tables;
    ArrayChildren(input, name, 0, Start);
  }


  /** An empty array gives no table, at the top level as anywhere else. */
  lemma {:induction false} EmptyArrayInput()
    ensures ParseJsonToTables(JArr([])) == []
  {
    assert !IsObjectArray(JArr([]));
  }

  /** An object whose only property is an empty array gives no table. */
  lemma {:induction false} EmptyArrayProperty(key: string)
    ensures ParseJsonToTables(JObj([(key, JArr([]))])) == []
  {
    var input := JObj([(key, JArr([]))]);
    assert !HasSimpleValues(input) by {
      assert DetectType(input.props[0].1) == "object";
    }
    assert TopProp(key, JArr([]), Start) == Start;
    assert TopProps(input, 1, Start) == Start;
  }

  /** An object whose only property is a non-empty array of scalars gives
      no `root` table: its one table is the sole table named after the key,
      holding the single field `key: <type>[]` (laid out as
      `SoleTableShape` states). */
  lemma {:induction false} ScalarArrayProperty(key: string, items: seq<Json>)
    requires |items| > 0 && ElementType(items) != "object"
    ensures ParseJsonToTables(JObj([(key, JArr(items))])) == SoleTable(key, ArrayType(items)).tables
  {
    SinglePropTop(key, JArr(items));
  }

  /** A top-level object with one container property is that property
      handled below no parent. */
  lemma {:induction false} SinglePropTop(key: string, v: Json)
    requires DetectType(v) == "object"
    ensures TopLevel(JObj([(key, v)])) == TopProp(key, v, Start)
  {
    var input := JObj([(key, v)]);
    assert !HasSimpleValues(input) by {
      assert DetectType(input.props[0].1) == "object";
    }
    var r := TopProp(key, v, Start);
    assert TopProps(input, 1, r) == r;
  }

  // ---------------------------------------------------------------------
  // Field properties
  // ---------------------------------------------------------------------

  /** Object keys as `Object.keys` gives them: no key twice. */
  predicate UniqueKeys(props: seq<(string, Json)>)
  {
    forall i, j :: 0 <= i < j < |props| ==> props[i].0 != props[j].0
  }

  /** An object's own fields are exactly what its properties contribute:
      each field comes from one property, and each contributing property
      gives its field. */
  lemma {:induction false} NodeFieldsFrom(props: seq<(string, Json)>)
    ensures forall f :: f in NodeFields(props) <==>
              exists i :: 0 <= i < |props| && PropField(props[i].0, props[i].1) == Some(f)
    decreases |props|
  {
    if |props| > 0 {
      NodeFieldsFrom(props[1..]);
      forall f | f in NodeFields(props)
        ensures exists i :: 0 <= i < |props| && PropField(props[i].0, props[i].1) == Some(f)
      {
        if PropField(props[0].0, props[0].1) != Some(f) {
          var i :| 0 <= i < |props[1..]| && PropField(props[1..][i].0, props[1..][i].1) == Some(f);
          assert props[1..][i] == props[i + 1];
        }
      }
      forall f, i | 0 <= i < |props| && PropField(props[i].0, props[i].1) == Some(f)
        ensures f in NodeFields(props)
      {
        if i > 0 {
          assert props[1..][i - 1] == props[i];
        }
      }
    }
  }

  /** An object's own field is named after one of its keys. */
  lemma NodeFieldNameIsKey(props: seq<(string, Json)>, f: Field)
    requires f in NodeFields(props)
    ensures exists i :: 0 <= i < |props| && props[i].0 == f.name
  {
    NodeFieldsFrom(props);
    var i :| 0 <= i < |props| && PropField(props[i].0, props[i].1) == Some(f);
  }

  /** With unique keys, an object's own fields have unique names. */
  lemma {:induction false} NodeFieldsUnique(props: seq<(string, Json)>)
    requires UniqueKeys(props)
    ensures UniqueNames(NodeFields(props))
    decreases |props|
  {
    if |props| > 0 {
      var tail := props[1..];
      assert UniqueKeys(tail) by {
        forall i, j | 0 <= i < j < |tail| ensures tail[i].0 != tail[j].0 {
          assert tail[i] == props[i + 1] && tail[j] == props[j + 1];
        }
      }
      NodeFieldsUnique(tail);
      var rest := NodeFields(tail);
      match PropField(props[0].0, props[0].1)
      case None =>
      case Some(f) =>
        forall k | 0 <= k < |rest| ensures rest[k].name != f.name {
          NodeFieldNameIsKey(tail, rest[k]);
          var m :| 0 <= m < |tail| && tail[m].0 == rest[k].name;
          assert tail[m] == props[m + 1];
        }
        ConsUnique(f, rest);
    }
  }

  lemma ConsUnique(f: Field, rest: seq<Field>)
    requires UniqueNames(rest) && forall k :: 0 <= k < |rest| ==> rest[k].name != f.name
    ensures UniqueNames([f] + rest)
  {
    var r := [f] + rest;
    forall i, j | 0 <= i < j < |r| ensures r[i].name != r[j].name {
      assert r[j] == rest[j - 1];
      if i > 0 {
        assert r[i] == rest[i - 1];
      }
    }
  }

  /** The first pass of `handleArray` is one merge over all the elements'
      candidates, in element order. */
  lemma {:induction false} MergeItemsIsMerge(items: seq<Json>, acc: seq<Field>)
    ensures MergeItems(items, acc) == MergeFieldOrder(acc, AllCandidates(items))
    decreases |items|
  {
    if |items| > 0 {
      MergeItemsIsMerge(items[1..], MergeFieldOrder(acc, Offered(items[0])));
      MergeConcat(acc, Offered(items[0]), AllCandidates(items[1..]));
    }
  }

  /** The merged fields of an array of objects have unique names, are
      named exactly as the elements' candidates are, and each is the FIRST
      candidate of its name (so the first-seen type wins), in order of first
      occurrence across the elements. */
  lemma {:induction false} MergedFieldsSpec(items: seq<Json>)
    ensures var m := MergedFields(items);
            var c := AllCandidates(items);
            && UniqueNames(m) && Names(m) == Names(c)
            && (forall k :: 0 <= k < |m| ==> m[k] == c[FirstIndex(c, m[k].name)])
            && (forall k, l :: 0 <= k < l < |m| ==> FirstIndex(c, m[k].name) < FirstIndex(c, m[l].name))
  {
    var c := AllCandidates(items);
    MergeItemsIsMerge(items, []);
    MergeShape([], c);
    MergeFirstOccurrence([], c);
    assert Names([]) == {};
  }

  /** Every non-empty array property of an element is a candidate typed
      `<type>[]`, `object[]` included: arrays inside array elements become
      fields and are never entered. */
  lemma {:induction false} ArrayPropertyOffered(props: seq<(string, Json)>, i: nat)
    requires i < |props| && props[i].1.JArr? && |props[i].1.items| > 0
    ensures Field(props[i].0, ArrayType(props[i].1.items)) in ItemCandidates(props)
    decreases i
  {
    CandidatesCons(props);
    if i > 0 {
      ArrayPropertyOffered(props[1..], i - 1);
      assert props[1..][i - 1] == props[i];
    }
  }

  /** `ItemCandidates` as the first property's candidate, if any, followed
      by the rest's. */
  lemma {:induction false} CandidatesCons(props: seq<(string, Json)>)
    requires |props| > 0
    ensures ItemCandidates(props)
            == (match PropCandidate(props[0].0, props[0].1) case None => [] case Some(f) => [f])
               + ItemCandidates(props[1..])
  {
    if PropCandidate(props[0].0, props[0].1).None? {
      assert [] + ItemCandidates(props[1..]) == ItemCandidates(props[1..]);
    }
  }

  // ---------------------------------------------------------------------
  // Concrete shapes
  // ---------------------------------------------------------------------

  /** Elements that are not objects add no fields and no tables. */
  lemma {:induction false} NoObjectElements(arr: Json, j: nat, tableId: nat, b: Builder, acc: seq<Field>)
    requires arr.JArr? && j <= |arr.items| && tableId < b.nextId
    requires forall i :: 0 <= i < |arr.items| ==> !arr.items[i].JObj?
    ensures SecondPass(arr, j, tableId, b) == b && MergeItems(arr.items[j..], acc) == acc
    decreases |arr.items| - j
  {
    if j < |arr.items| {
      NoObjectElements(arr, j + 1, tableId, b, acc);
      assert arr.items[j..][1..] == arr.items[j + 1..];
    }
  }

  /** A non-empty array of nulls counts as an array of objects (its element
      type is `detectType(undefined)`), so it gives the single table `root`
      with no fields, laid out at width 30 and type column 50. */
  lemma {:induction false} AllNullArray(items: seq<Json>)
    requires |items| > 0 && forall i :: 0 <= i < |items| ==> items[i].JNull?
    ensures var r := ParseJsonToTables(JArr(items));
            |r| == 1 && r[0].name == "root" && r[0].parentId == 0 && r[0].fields == []
            && r[0].width == 30 && r[0].fieldTypeX == 50
  {
    assert FirstNonNull(items).None?;
    ArrayTopLevel(JArr(items));
    AllNullTable(items, "root");
  }

  lemma AllNullTable(items: seq<Json>, name: string)
    requires |items| > 0 && forall i :: 0 <= i < |items| ==> items[i].JNull?
    ensures var r := HandleArray(JArr(items), name, 0, Start).tables;
            |r| == 1 && r[0].name == name && r[0].parentId == 0 && r[0].fields == []
            && r[0].width == 30 && r[0].fieldTypeX == 50
  {
    var input := JArr(items);
    assert FirstNonNull(items).None?;
    assert IsObjectArray(input);
    NoObjectElements(input, 0, 0, Start, []);
    assert items[0..] == items;
    ArrayTablesOnly(input, name, 0, Start);
    var r := HandleArray(input, name, 0, Start).tables;
    LayoutBounds(r[0]);
  }

  /** When no element is an object, `handleArray` of an array of objects
      adds its own table and nothing else. */
  lemma {:induction false} ArrayTablesOnly(arr: Json, name: string, parentId: nat, b: Builder)
    requires IsObjectArray(arr) && forall i :: 0 <= i < |arr.items| ==> !arr.items[i].JObj?
    ensures |HandleArray(arr, name, parentId, b).tables| == |b.tables| + 1
  {
    var b2 := SetFields(AddTable(b, name, parentId), |b.tables|, MergedFields(arr.items));
    NoObjectElements(arr, 0, b.nextId, b2, []);
  }
}
