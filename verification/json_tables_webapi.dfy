/** `parseJsonToTables` of `src/components/webapi/common/jsonparsing.ts`,
    the earlier engine. Every node gets a table and `root` always comes
    first; empty arrays and arrays of scalars get tables of their own; only
    scalar properties become fields, and every nested object or array,
    empty or not, becomes a child table. */
module WebApiJsonTables {
  import opened Common
  import opened Schema

  // ---------------------------------------------------------------------
  // Fields
  // ---------------------------------------------------------------------

  /** Every field typed by a scalar name of `detectType`. */
  predicate ScalarOnly(fields: seq<Field>)
  {
    forall i :: 0 <= i < |fields| ==> fields[i].ftype in ScalarTypes
  }

  /** The fields an object contributes, to its own table in `handleNode`
      and as merge candidates in `handleArray`: every property `detectType`
      does not call `"object"`, in key order, typed by `detectType`. */
  function ScalarFields(props: seq<(string, Json)>): (r: seq<Field>)
    ensures |r| <= |props| && ScalarOnly(r)
  {
    if |props| == 0 then []
    else
      var t := DetectType(props[0].1);
      if t != "object" then [Field(props[0].0, t)] + ScalarFields(props[1..])
      else ScalarFields(props[1..])
  }

  /** The candidates of one element; elements that are not objects offer
      none. */
  function ScalarOffer(item: Json): seq<Field>
  {
    if item.JObj? then ScalarFields(item.props) else []
  }

  /** The first pass of `handleArray`: each element's candidates merged in
      turn into the fields seen so far. */
  function MergeScalars(items: seq<Json>, acc: seq<Field>): seq<Field>
  {
    if |items| == 0 then acc
    else MergeScalars(items[1..], MergeFieldOrder(acc, ScalarOffer(items[0])))
  }

  function MergedScalars(items: seq<Json>): seq<Field>
  {
    MergeScalars(items, [])
  }

  /** Every element's candidates, in element order. */
  function AllOffers(items: seq<Json>): (r: seq<Field>)
    ensures ScalarOnly(r)
  {
    if |items| == 0 then [] else ScalarOffer(items[0]) + AllOffers(items[1..])
  }

  // ---------------------------------------------------------------------
  // What the recursion leaves behind
  // ---------------------------------------------------------------------

  /** The two kinds of table this engine makes: laid out by
      `updateFieldLength` with scalar fields only, or never laid out (width
      and type column left at 0) holding no field or the single field
      `name: <type>[]` of an array of scalars. */
  predicate Shaped(t: Table)
  {
    || (LaidOut(t) && ScalarOnly(t.fields))
    || (&& t.width == 0 && t.fieldTypeX == 0
        && (|t.fields| == 0
            || (|t.fields| == 1 && t.fields[0].name == t.name
                && t.fields[0].ftype in ArrayTypes && t.fields[0].ftype != "object[]")))
  }

  predicate ShapedFrom(r: Builder, from: nat)
  {
    forall i :: from <= i < |r.tables| ==> Shaped(r.tables[i])
  }

  /** What `handleNode` and `handleArray` leave behind: at least one new
      table, the first named `name` below `parentId`, every later one below
      a table whose id is at least `lo`, all of them shaped. */
  predicate Grown(b: Builder, r: Builder, name: string, parentId: nat, lo: nat)
  {
    && Extends(b, r) && |r.tables| > |b.tables|
    && r.tables[|b.tables|].name == name && r.tables[|b.tables|].parentId == parentId
    && Hangs(r, |b.tables| + 1, lo)
    && ShapedFrom(r, |b.tables|)
  }

  /** What a loop leaves behind under table `tableId`: new tables, all
      shaped, hanging below `tableId` or a later table. */
  predicate Below(b: Builder, r: Builder, tableId: nat)
  {
    Extends(b, r) && Hangs(r, |b.tables|, tableId) && ShapedFrom(r, |b.tables|)
  }

  // ---------------------------------------------------------------------
  // The recursion: handleNode, handleArray and their loops
  // ---------------------------------------------------------------------

  /** `handleNode(node, name, parentId)`: a table for the node first. An
      object then gets its children, in key order, and its scalar fields,
      laid out; an array is handed over to `handleArray` below the same
      parent; a scalar leaves its table empty and not laid out. */
  function HandleNode(node: Json, name: string, parentId: nat, b: Builder): (r: Builder)
    requires parentId < b.nextId
    ensures Grown(b, r, name, parentId, if node.JArr? then parentId else b.nextId)
    ensures node.JObj? ==> r.tables[|b.tables|].fields == ScalarFields(node.props) && LaidOut(r.tables[|b.tables|])
    ensures !node.JObj? ==> r.tables[|b.tables|] == Table(b.nextId, name, parentId, 0, 0, [])
    ensures !node.JObj? && !node.JArr? ==> |r.tables| == |b.tables| + 1
    decreases node, 3
  {
    if node.JObj? then ObjectNode(node, name, parentId, b)
    else
      var b1 := AddTable(b, name, parentId);
      AddTableGrown(b, name, parentId, b.nextId);
      if node.JArr? then
        var r := HandleArray(node, name, parentId, b1);
        HandOverGrown(b, r, name, parentId);
        r
      else b1
  }

  /** `handleNode` on an object: its table, the property loop, then the
      table's own scalar fields, laid out. */
  function ObjectNode(node: Json, name: string, parentId: nat, b: Builder): (r: Builder)
    requires node.JObj? && parentId < b.nextId
    ensures Grown(b, r, name, parentId, b.nextId)
    ensures r.tables[|b.tables|].fields == ScalarFields(node.props) && LaidOut(r.tables[|b.tables|])
    decreases node, 2
  {
    var b1 := AddTable(b, name, parentId);
    var b2 := Children(node, 0, b.nextId, b1);
    ObjectGrown(b, b2, name, parentId, ScalarFields(node.props));
    SetFields(b2, |b.tables|, ScalarFields(node.props))
  }

  /** The loop over an object's properties from index `k`, shared by
      `handleNode` and the second pass of `handleArray`: every array value
      goes to `handleArray` and every object value to `handleNode`, below
      table `tableId`. */
  function Children(obj: Json, k: nat, tableId: nat, b: Builder): (r: Builder)
    requires obj.JObj? && k <= |obj.props| && tableId < b.nextId
    ensures Below(b, r, tableId)
    decreases obj, 1, |obj.props| - k
  {
    if k == |obj.props| then (BelowNothing(b, tableId); b)
    else
      var key := obj.props[k].0;
      var v := obj.props[k].1;
      var b1 :=
        if v.JArr? then
          var b1 := HandleArray(v, key, tableId, b);
          GrownBelow(b, b1, key, tableId, b.nextId);
          b1
        else if v.JObj? then
          var b1 := HandleNode(v, key, tableId, b);
          GrownBelow(b, b1, key, tableId, b.nextId);
          b1
        else (BelowNothing(b, tableId); b);
      var r := Children(obj, k + 1, tableId, b1);
      BelowTrans(b, b1, r, tableId);
      r
  }

  /** `handleArray(arr, name, parentId)`: always exactly one table for the
      array itself. An empty array leaves it empty and not laid out; an
      array of scalars gives it the single field `name: <type>[]`, not laid
      out; an array of objects gives it the merged scalar fields of its
      elements, laid out, followed by the second pass. */
  function HandleArray(arr: Json, name: string, parentId: nat, b: Builder): (r: Builder)
    requires arr.JArr? && parentId < b.nextId
    ensures Grown(b, r, name, parentId, b.nextId)
    ensures |arr.items| == 0 ==>
              |r.tables| == |b.tables| + 1 && r.tables[|b.tables|] == Table(b.nextId, name, parentId, 0, 0, [])
    ensures |arr.items| > 0 && ElementType(arr.items) != "object" ==>
              && |r.tables| == |b.tables| + 1 && r.tables[|b.tables|].fields == [Field(name, ArrayType(arr.items))]
              && r.tables[|b.tables|].width == 0 && r.tables[|b.tables|].fieldTypeX == 0
    ensures |arr.items| > 0 && ElementType(arr.items) == "object" ==>
              r.tables[|b.tables|].fields == MergedScalars(arr.items) && LaidOut(r.tables[|b.tables|])
    decreases arr, 1
  {
    if |arr.items| == 0 then
      AddTableGrown(b, name, parentId, b.nextId);
      AddTable(b, name, parentId)
    else if ElementType(arr.items) == "object" then
      var b1 := AddTable(b, name, parentId);
      MergedScalarsOnly(arr.items);
      var b2 := SetFields(b1, |b.tables|, MergedScalars(arr.items));
      var r := SecondPass(arr, 0, b.nextId, b2);
      ArrayGrown(b, b2, r, name, parentId, MergedScalars(arr.items));
      r
    else
      var ftype := ArrayType(arr.items);
      var r := SetFieldsOnly(AddTable(b, name, parentId), |b.tables|, [Field(name, ftype)]);
      ScalarArrayGrown(b, name, parentId, ftype);
      r
  }

  /** The second pass of `handleArray` over the elements from index `j`:
      the property loop of every object element, below the array's
      table. */
  function SecondPass(arr: Json, j: nat, tableId: nat, b: Builder): (r: Builder)
    requires arr.JArr? && j <= |arr.items| && tableId < b.nextId
    ensures Below(b, r, tableId)
    decreases arr, 0, |arr.items| - j
  {
    if j == |arr.items| then (BelowNothing(b, tableId); b)
    else
      var item := arr.items[j];
      var b1 := if item.JObj? then Children(item, 0, tableId, b) else (BelowNothing(b, tableId); b);
      var r := SecondPass(arr, j + 1, tableId, b1);
      BelowTrans(b, b1, r, tableId);
      r
  }

  /** The entry point: `handleNode(input, "root", 0)` on an already parsed
      value. */
  function ParseJsonToTables(input: Json): (r: seq<Table>)
    ensures Sequential(r) && |r| > 0 && r[0].parentId == 0
    ensures forall i :: 0 <= i < |r| ==> Shaped(r[i])
  {
    var b := HandleNode(input, "root", 0, Start);
    RootSequential(b, "root", if input.JArr? then 0 else 1);
    b.tables
  }

  // ---------------------------------------------------------------------
  // Bookkeeping lemmas for the recursion
  // ---------------------------------------------------------------------

  lemma {:induction false} BelowNothing(b: Builder, tableId: nat)
    ensures Below(b, b, tableId)
  {
  }

  lemma {:induction false} BelowTrans(a: Builder, b: Builder, c: Builder, tableId: nat)
    requires Below(a, b, tableId) && Below(b, c, tableId)
    ensures Below(a, c, tableId)
  {
    forall i | |a.tables| <= i < |c.tables|
      ensures tableId <= c.tables[i].parentId < c.tables[i].id && Shaped(c.tables[i])
    {
      if i < |b.tables| {
        assert c.tables[i] == b.tables[i];
      }
    }
  }

  /** A child made below table `tableId`, with its descendants below later
      tables, is an addition below `tableId`. */
  lemma {:induction false} GrownBelow(b: Builder, r: Builder, name: string, tableId: nat, lo: nat)
    requires Grown(b, r, name, tableId, lo) && tableId <= lo && tableId < b.nextId
    ensures Below(b, r, tableId)
  {
    forall i | |b.tables| <= i < |r.tables|
      ensures tableId <= r.tables[i].parentId < r.tables[i].id
    {
    }
  }

  lemma {:induction false} AddTableGrown(b: Builder, name: string, parentId: nat, lo: nat)
    requires parentId < b.nextId
    ensures Grown(b, AddTable(b, name, parentId), name, parentId, lo)
  {
    var r := AddTable(b, name, parentId);
    SingleTableExtends(b, r);
    forall i | |b.tables| <= i < |r.tables| ensures Shaped(r.tables[i]) {
      assert i == |b.tables|;
    }
  }

  lemma {:induction false} SingleTableExtends(b: Builder, r: Builder)
    requires |r.tables| == |b.tables| + 1 && r.nextId == b.nextId + 1
    requires forall i :: 0 <= i < |b.tables| ==> r.tables[i] == b.tables[i]
    requires r.tables[|b.tables|].id == b.nextId
    ensures Extends(b, r)
  {
    forall i | |b.tables| <= i < |r.tables| ensures r.tables[i].id == b.nextId + (i - |b.tables|) {
      assert i == |b.tables|;
    }
  }

  /** `handleNode` on an array: its own empty table, then everything
      `handleArray` adds below the same parent. */
  lemma {:induction false} HandOverGrown(b: Builder, r: Builder, name: string, parentId: nat)
    requires parentId < b.nextId
    requires Grown(AddTable(b, name, parentId), r, name, parentId, b.nextId + 1)
    ensures Grown(b, r, name, parentId, parentId)
    ensures r.tables[|b.tables|] == Table(b.nextId, name, parentId, 0, 0, [])
  {
    var b1 := AddTable(b, name, parentId);
    var k := |b.tables|;
    assert r.tables[k] == b1.tables[k];
    AddTableGrown(b, name, parentId, b.nextId);
    ExtendsTrans(b, b1, r);
    forall i | k + 1 <= i < |r.tables|
      ensures parentId <= r.tables[i].parentId < r.tables[i].id
    {
    }
    forall i | k <= i < |r.tables| ensures Shaped(r.tables[i]) {
    }
  }

  /** `handleNode` on an object: its table, then the additions of the
      property loop, then its fields set and laid out. */
  lemma {:induction false} ObjectGrown(b: Builder, b2: Builder, name: string, parentId: nat, fields: seq<Field>)
    requires parentId < b.nextId && ScalarOnly(fields)
    requires Below(AddTable(b, name, parentId), b2, b.nextId)
    ensures var r := SetFields(b2, |b.tables|, fields);
            && Grown(b, r, name, parentId, b.nextId)
            && r.tables[|b.tables|].fields == fields && LaidOut(r.tables[|b.tables|])
  {
    var b1 := AddTable(b, name, parentId);
    var k := |b.tables|;
    var r := SetFields(b2, k, fields);
    assert Extends(b, r) by {
      forall i | 0 <= i < |b.tables| ensures r.tables[i] == b.tables[i] {
        assert b2.tables[i] == b1.tables[i];
      }
      forall i | |b.tables| <= i < |r.tables| ensures r.tables[i].id == b.nextId + (i - |b.tables|) {
        if i == k {
          assert b2.tables[k] == b1.tables[k];
        }
      }
    }
    forall i | k + 1 <= i < |r.tables|
      ensures b.nextId <= r.tables[i].parentId < r.tables[i].id && Shaped(r.tables[i])
    {
      assert r.tables[i] == b2.tables[i];
    }
    assert r.tables[k].name == name && r.tables[k].parentId == parentId by {
      assert b2.tables[k] == b1.tables[k];
    }
    assert Shaped(r.tables[k]);
  }

  /** `handleArray` on an array of objects: its table with the merged
      fields, then the additions of the second pass. */
  lemma {:induction false} ArrayGrown(b: Builder, b2: Builder, r: Builder, name: string, parentId: nat, fields: seq<Field>)
    requires parentId < b.nextId && ScalarOnly(fields)
    requires b2 == SetFields(AddTable(b, name, parentId), |b.tables|, fields)
    requires Below(b2, r, b.nextId)
    ensures Grown(b, r, name, parentId, b.nextId)
    ensures r.tables[|b.tables|].fields == fields && LaidOut(r.tables[|b.tables|])
  {
    var k := |b.tables|;
    assert r.tables[k] == b2.tables[k];
    SingleTableExtends(b, b2);
    ExtendsTrans(b, b2, r);
    forall i | k + 1 <= i < |r.tables|
      ensures b.nextId <= r.tables[i].parentId < r.tables[i].id
    {
    }
    forall i | k <= i < |r.tables| ensures Shaped(r.tables[i]) {
    }
  }

  /** `handleArray` on an array of scalars: one table holding the single
      field `name: <type>[]`, not laid out. */
  lemma {:induction false} ScalarArrayGrown(b: Builder, name: string, parentId: nat, ftype: string)
    requires parentId < b.nextId && ftype in ArrayTypes && ftype != "object[]"
    ensures Grown(b, SetFieldsOnly(AddTable(b, name, parentId), |b.tables|, [Field(name, ftype)]), name, parentId, b.nextId)
  {
    var r := SetFieldsOnly(AddTable(b, name, parentId), |b.tables|, [Field(name, ftype)]);
    SingleTableExtends(b, r);
    forall i | |b.tables| <= i < |r.tables| ensures Shaped(r.tables[i]) {
      assert i == |b.tables|;
    }
  }

  /** The output of the entry point is sequential: the root table comes
      first below no parent and everything else hangs below an earlier
      table. */
  lemma {:induction false} RootSequential(b: Builder, name: string, lo: nat)
    requires Grown(Start, b, name, 0, lo)
    ensures Sequential(b.tables) && |b.tables| > 0 && b.tables[0].parentId == 0
    ensures forall i :: 0 <= i < |b.tables| ==> Shaped(b.tables[i])
  {
    forall i | 0 <= i < |b.tables| ensures 0 <= b.tables[i].parentId < b.tables[i].id {
    }
    StartSequential(b);
  }

  // ---------------------------------------------------------------------
  // Field properties
  // ---------------------------------------------------------------------

  /** An object's fields are exactly its properties `detectType` does not
      call `"object"`, each typed by `detectType`. */
  lemma {:induction false} ScalarFieldsFrom(props: seq<(string, Json)>)
    ensures forall f :: f in ScalarFields(props) <==>
              exists i :: 0 <= i < |props| && DetectType(props[i].1) != "object"
                          && f == Field(props[i].0, DetectType(props[i].1))
    decreases |props|
  {
    if |props| > 0 {
      ScalarFieldsFrom(props[1..]);
      forall f | f in ScalarFields(props)
        ensures exists i :: 0 <= i < |props| && DetectType(props[i].1) != "object"
                            && f == Field(props[i].0, DetectType(props[i].1))
      {
        if !(DetectType(props[0].1) != "object" && f == Field(props[0].0, DetectType(props[0].1))) {
          var i :| 0 <= i < |props[1..]| && DetectType(props[1..][i].1) != "object"
                   && f == Field(props[1..][i].0, DetectType(props[1..][i].1));
          assert props[1..][i] == props[i + 1];
        }
      }
      forall f, i | 0 <= i < |props| && DetectType(props[i].1) != "object"
                    && f == Field(props[i].0, DetectType(props[i].1))
        ensures f in ScalarFields(props)
      {
        if i > 0 {
          assert props[1..][i - 1] == props[i];
        }
      }
    }
  }

  /** The first pass of `handleArray` is one merge over all the elements'
      candidates, in element order. */
  lemma {:induction false} MergeScalarsIsMerge(items: seq<Json>, acc: seq<Field>)
    ensures MergeScalars(items, acc) == MergeFieldOrder(acc, AllOffers(items))
    decreases |items|
  {
    if |items| > 0 {
      MergeScalarsIsMerge(items[1..], MergeFieldOrder(acc, ScalarOffer(items[0])));
      MergeConcat(acc, ScalarOffer(items[0]), AllOffers(items[1..]));
    }
  }

  /** The merged fields of an array of objects have unique names, are
      named exactly as the elements' scalar properties are, and each is the
      first candidate of its name (the first-seen type wins), in order of
      first occurrence across the elements. */
  lemma {:induction false} MergedScalarsSpec(items: seq<Json>)
    ensures var m := MergedScalars(items);
            var c := AllOffers(items);
            && UniqueNames(m) && Names(m) == Names(c)
            && (forall k :: 0 <= k < |m| ==> m[k] == c[FirstIndex(c, m[k].name)])
            && (forall k, l :: 0 <= k < l < |m| ==> FirstIndex(c, m[k].name) < FirstIndex(c, m[l].name))
  {
    var c := AllOffers(items);
    MergeScalarsIsMerge(items, []);
    MergeShape([], c);
    MergeFirstOccurrence([], c);
    assert Names([]) == {};
  }

  /** No object- or array-valued property ever becomes a merged field. */
  lemma {:induction false} MergedScalarsOnly(items: seq<Json>)
    ensures ScalarOnly(MergedScalars(items))
  {
    MergedScalarsSpec(items);
    var m := MergedScalars(items);
    var c := AllOffers(items);
    forall k | 0 <= k < |m| ensures m[k].ftype in ScalarTypes {
      assert m[k] == c[FirstIndex(c, m[k].name)];
    }
  }

  // ---------------------------------------------------------------------
  // Which tables hang directly below which
  // ---------------------------------------------------------------------

  /** The keys of an object's object- and array-valued properties, empty
      arrays included: one child table each. */
  function ContainerKeys(props: seq<(string, Json)>): seq<string>
  {
    if |props| == 0 then []
    else (if props[0].1.JArr? || props[0].1.JObj? then [props[0].0] else []) + ContainerKeys(props[1..])
  }

  /** The keys the second pass makes child tables for: the containers of
      every object element, one per occurrence. */
  function NestedContainerKeys(items: seq<Json>): seq<string>
  {
    if |items| == 0 then []
    else (if items[0].JObj? then ContainerKeys(items[0].props) else []) + NestedContainerKeys(items[1..])
  }

  /** A child made below table `id`, whose own descendants hang below
      later tables, counts as one child of `id`. */
  lemma {:induction false} GrownChild(b: Builder, r: Builder, name: string, id: nat, lo: nat)
    requires Grown(b, r, name, id, lo) && id < lo
    ensures ChildNames(NewTables(b, r), id) == [name]
  {
    var ts := NewTables(b, r);
    assert ts[0] == r.tables[|b.tables|];
    ChildNamesNone(ts[1..], id);
  }

  /** The direct children the property loop makes from property `k` on:
      one per container value, in key order. */
  lemma {:induction false} ChildrenNames(obj: Json, k: nat, tableId: nat, b: Builder)
    requires obj.JObj? && k <= |obj.props| && tableId < b.nextId
    ensures ChildNames(NewTables(b, Children(obj, k, tableId, b)), tableId) == ContainerKeys(obj.props[k..])
    decreases |obj.props| - k
  {
    var r := Children(obj, k, tableId, b);
    if k == |obj.props| {
      assert NewTables(b, r) == [];
    } else {
      var key := obj.props[k].0;
      var v := obj.props[k].1;
      var b1 :=
        if v.JArr? then HandleArray(v, key, tableId, b)
        else if v.JObj? then HandleNode(v, key, tableId, b)
        else b;
      BelowNothing(b, tableId);
      ChildrenNames(obj, k + 1, tableId, b1);
      NewTablesSplit(b, b1, r);
      ChildNamesAppend(NewTables(b, b1), NewTables(b1, r), tableId);
      if v.JArr? || v.JObj? {
        GrownChild(b, b1, key, tableId, b.nextId);
      } else {
        assert NewTables(b, b1) == [];
      }
      assert obj.props[k..][1..] == obj.props[k + 1..];
    }
  }

  /** The direct children the second pass makes from element `j` on. */
  lemma {:induction false} SecondPassNames(arr: Json, j: nat, tableId: nat, b: Builder)
    requires arr.JArr? && j <= |arr.items| && tableId < b.nextId
    ensures ChildNames(NewTables(b, SecondPass(arr, j, tableId, b)), tableId) == NestedContainerKeys(arr.items[j..])
    decreases |arr.items| - j
  {
    var r := SecondPass(arr, j, tableId, b);
    if j == |arr.items| {
      assert NewTables(b, r) == [];
    } else {
      var item := arr.items[j];
      var b1 := if item.JObj? then Children(item, 0, tableId, b) else b;
      BelowNothing(b, tableId);
      SecondPassNames(arr, j + 1, tableId, b1);
      NewTablesSplit(b, b1, r);
      ChildNamesAppend(NewTables(b, b1), NewTables(b1, r), tableId);
      if item.JObj? {
        ChildrenNames(item, 0, tableId, b);
        assert item.props[0..] == item.props;
      } else {
        assert NewTables(b, b1) == [];
      }
      assert arr.items[j..][1..] == arr.items[j + 1..];
    }
  }

  /** The direct children of an object's table: one per container value,
      in key order. */
  lemma {:induction false} ObjectChildren(node: Json, name: string, parentId: nat, b: Builder)
    requires node.JObj? && parentId < b.nextId
    ensures ChildNames(NewTables(b, HandleNode(node, name, parentId, b)), b.nextId) == ContainerKeys(node.props)
  {
    var b1 := AddTable(b, name, parentId);
    var b2 := Children(node, 0, b.nextId, b1);
    var r := SetFields(b2, |b.tables|, ScalarFields(node.props));
    assert HandleNode(node, name, parentId, b) == r;
    ChildrenNames(node, 0, b.nextId, b1);
    assert node.props[0..] == node.props;
    var ts := NewTables(b, r);
    assert ts[1..] == NewTables(b1, b2) by {
      forall j | 0 <= j < |ts[1..]| ensures ts[1..][j] == NewTables(b1, b2)[j] {
        assert r.tables[|b.tables| + 1 + j] == b2.tables[|b.tables| + 1 + j];
      }
    }
    assert ts[0].parentId == b2.tables[|b.tables|].parentId == b1.tables[|b.tables|].parentId;
  }

  /** The direct children of the table of an array of objects: the
      containers of every object element, one per occurrence, never
      merged. */
  lemma {:induction false} ArrayChildNames(arr: Json, name: string, parentId: nat, b: Builder)
    requires arr.JArr? && |arr.items| > 0 && ElementType(arr.items) == "object" && parentId < b.nextId
    ensures ChildNames(NewTables(b, HandleArray(arr, name, parentId, b)), b.nextId) == NestedContainerKeys(arr.items)
  {
    var b1 := AddTable(b, name, parentId);
    var b2 := SetFields(b1, |b.tables|, MergedScalars(arr.items));
    var r := HandleArray(arr, name, parentId, b);
    assert r == SecondPass(arr, 0, b.nextId, b2);
    SecondPassNames(arr, 0, b.nextId, b2);
    assert arr.items[0..] == arr.items;
    SingleTableExtends(b, b2);
    NewTablesSplit(b, b2, r);
    ChildNamesAppend(NewTables(b, b2), NewTables(b2, r), b.nextId);
    assert NewTables(b, b2) == [b2.tables[|b.tables|]];
  }

  // ---------------------------------------------------------------------
  // The entry point
  // ---------------------------------------------------------------------

  /** The entry always makes `handleNode(input, "root", 0)`. */
  lemma EntryIsRoot(input: Json)
    ensures ParseJsonToTables(input) == HandleNode(input, "root", 0, Start).tables
  {
  }

  /** The first output table is always `root`, below no parent. */
  lemma {:induction false} RootFirst(input: Json)
    ensures var r := ParseJsonToTables(input);
            |r| > 0 && r[0].name == "root" && r[0].parentId == 0
  {
    EntryIsRoot(input);
    NodeFirst(input, "root");
  }

  lemma {:induction false} NodeFirst(input: Json, name: string)
    ensures var r := HandleNode(input, name, 0, Start).tables;
            |r| > 0 && r[0].name == name && r[0].parentId == 0
  {
  }

  /** A scalar or `null` input gives the single table `root`, with no
      fields and its layout left at 0. */
  lemma {:induction false} ScalarInput(input: Json)
    requires !input.JArr? && !input.JObj?
    ensures var r := ParseJsonToTables(input);
            && |r| == 1 && r[0].id == 1 && r[0].name == "root" && r[0].parentId == 0
            && r[0].fields == [] && r[0].width == 0 && r[0].fieldTypeX == 0
  {
    EntryIsRoot(input);
    ScalarNode(input, "root");
  }

  lemma {:induction false} ScalarNode(input: Json, name: string)
    requires !input.JArr? && !input.JObj?
    ensures var r := HandleNode(input, name, 0, Start).tables;
            |r| == 1 && r[0] == Table(1, name, 0, 0, 0, [])
  {
  }

  /** A top-level array gives an empty, unlaid `root` table followed by the
      array's own table, also named `root` and also below no parent: empty
      and unlaid for an empty array, the single field `root: <type>[]`
      unlaid for an array of scalars, the merged fields laid out for an
      array of objects. */
  lemma {:induction false} ArrayInput(input: Json)
    requires input.JArr?
    ensures var r := ParseJsonToTables(input);
            && |r| >= 2
            && r[0].name == "root" && r[0].parentId == 0 && r[0].fields == [] && r[0].width == 0
            && r[1].name == "root" && r[1].parentId == 0
            && (|input.items| == 0 ==> |r| == 2 && r[1].fields == [] && r[1].width == 0)
            && (|input.items| > 0 && ElementType(input.items) != "object" ==>
                  |r| == 2 && r[1].fields == [Field("root", ArrayType(input.items))] && r[1].width == 0)
            && (|input.items| > 0 && ElementType(input.items) == "object" ==>
                  r[1].fields == MergedScalars(input.items) && LaidOut(r[1]))
  {
    EntryIsRoot(input);
    ArrayNodeTables(input, "root");
  }

  lemma {:induction false} ArrayNodeTables(input: Json, name: string)
    requires input.JArr?
    ensures var r := HandleNode(input, name, 0, Start).tables;
            && |r| >= 2
            && r[0].name == name && r[0].parentId == 0 && r[0].fields == [] && r[0].width == 0
            && r[1].name == name && r[1].parentId == 0
            && (|input.items| == 0 ==> |r| == 2 && r[1].fields == [] && r[1].width == 0)
            && (|input.items| > 0 && ElementType(input.items) != "object" ==>
                  |r| == 2 && r[1].fields == [Field(name, ArrayType(input.items))] && r[1].width == 0)
            && (|input.items| > 0 && ElementType(input.items) == "object" ==>
                  r[1].fields == MergedScalars(input.items) && LaidOut(r[1]))
  {
    var b1 := AddTable(Start, name, 0);
    assert HandleNode(input, name, 0, Start) == HandleArray(input, name, 0, b1);
  }

  /** A top-level object gives the table `root` first, holding its scalar
      fields laid out; the tables directly below it are one per container
      value, empty arrays included, in key order. */
  lemma {:induction false} ObjectInput(input: Json)
    requires input.JObj?
    ensures var r := ParseJsonToTables(input);
            && |r| > 0 && r[0].name == "root" && r[0].parentId == 0
            && r[0].fields == ScalarFields(input.props) && LaidOut(r[0])
            && ChildNames(r, 1) == ContainerKeys(input.props)
  {
    EntryIsRoot(input);
    ObjectNodeTables(input, "root");
  }

  lemma {:induction false} ObjectNodeTables(input: Json, name: string)
    requires input.JObj?
    ensures var r := HandleNode(input, name, 0, Start).tables;
            && |r| > 0 && r[0].name == name && r[0].parentId == 0
            && r[0].fields == ScalarFields(input.props) && LaidOut(r[0])
            && ChildNames(r, 1) == ContainerKeys(input.props)
  {
    var b := HandleNode(input, name, 0, Start);
    assert NewTables(Start, b) == b.tables;
    ObjectChildren(input, name, 0, Start);
  }

  /** `{key: []}` is not skipped: it gives the `root` table, laid out with
      no fields (width 30, type column 50), and below it the empty, unlaid
      table `key`. */
  lemma {:induction false} EmptyArrayProperty(key: string)
    ensures var r := ParseJsonToTables(JObj([(key, JArr([]))]));
            && |r| == 2 && r[0].fields == [] && r[0].width == 30 && r[0].fieldTypeX == 50
            && r[1].name == key && r[1].parentId == 1 && r[1].fields == [] && r[1].width == 0
  {
    var input := JObj([(key, JArr([]))]);
    EntryIsRoot(input);
    EmptyArrayChild(key, "root");
  }

  lemma {:induction false} EmptyArrayChild(key: string, name: string)
    ensures var r := HandleNode(JObj([(key, JArr([]))]), name, 0, Start).tables;
            && |r| == 2 && r[0].fields == [] && r[0].width == 30 && r[0].fieldTypeX == 50
            && r[1].name == key && r[1].parentId == 1 && r[1].fields == [] && r[1].width == 0
  {
    var input := JObj([(key, JArr([]))]);
    assert DetectType(JArr([])) == "object";
    assert ScalarFields(input.props) == [];
    var b1 := AddTable(Start, name, 0);
    var b2 := HandleArray(JArr([]), key, 1, b1);
    assert Children(input, 1, 1, b2) == b2;
    assert Children(input, 0, 1, b1) == b2;
    assert ObjectNode(input, name, 0, Start) == SetFields(b2, 0, ScalarFields(input.props));
    var r := HandleNode(input, name, 0, Start).tables;
    assert r == SetFields(b2, 0, []).tables;
    LayoutBounds(r[0]);
  }
}
