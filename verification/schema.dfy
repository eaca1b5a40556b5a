/** The table schema shared by both versions of the JSON-to-tables engine:
    the JSON value, the field and table records, the type classifier, the
    layout metrics, the threaded id counter and the field merge. */
module Schema {
  import opened Common
  import opened DateValidator

  // ---------------------------------------------------------------------
  // Values and records
  // ---------------------------------------------------------------------

  /** A parsed JSON value. Object keys are given in `Object.keys` order;
      numbers are kept exact. */
  datatype Json =
    | JNull
    | JBool(b: bool)
    | JNum(n: real)
    | JStr(s: string)
    | JArr(items: seq<Json>)
    | JObj(props: seq<(string, Json)>)

  datatype Field = Field(name: string, ftype: string)

  datatype Table = Table(id: nat, name: string, parentId: nat, width: int, fieldTypeX: int, fields: seq<Field>)

  /** The engine's mutable state: the id counter and the output list. */
  datatype Builder = Builder(nextId: nat, tables: seq<Table>)

  // ---------------------------------------------------------------------
  // Type classification
  // ---------------------------------------------------------------------

  /** `Number.isInteger`. */
  predicate IsWhole(n: real)
  {
    n.Floor as real == n
  }

  /** `detectType(v)`. */
  function DetectType(v: Json): (t: string)
    ensures t == "object" <==> v.JArr? || v.JObj?
    ensures t != "object" ==> t in ScalarTypes
  {
    match v
    case JNull => "null"
    case JStr(s) => if IsValidDate(s) then "date" else "string"
    case JNum(n) => if IsWhole(n) then "integer" else "decimal"
    case JBool(_) => "boolean"
    case _ => "object"
  }

  /** `arr.find(v => v !== null)`: the first element that is not null. */
  function FirstNonNull(items: seq<Json>): (r: Option<Json>)
    ensures r.Some? ==> r.value in items && !r.value.JNull?
    ensures r.None? <==> forall i :: 0 <= i < |items| ==> items[i].JNull?
  {
    if |items| == 0 then None
    else if !items[0].JNull? then Some(items[0])
    else FirstNonNull(items[1..])
  }

  /** `detectType(arr.find(v => v !== null))`; `detectType(undefined)` is
      `"object"`. */
  function ElementType(items: seq<Json>): (t: string)
    ensures t in ElementTypes
  {
    match FirstNonNull(items)
    case None => "object"
    case Some(v) => DetectType(v)
  }

  /** The type of a field holding a non-empty array: its element type
      followed by `[]`. */
  function ArrayType(items: seq<Json>): (t: string)
    ensures t in ArrayTypes
    ensures |t| >= 2 && t[|t| - 2..] == "[]" && t[..|t| - 2] == ElementType(items)
    ensures t == "object[]" <==> ElementType(items) == "object"
  {
    var e := ElementType(items);
    ArrayOf(e);
    e + "[]"
  }

  lemma {:induction false} ArrayOf(e: string)
    requires e in ElementTypes
    ensures e + "[]" in ArrayTypes && (e + "[]" == "object[]" <==> e == "object")
  {
    if e == "date" { assert e + "[]" == "date[]"; }
    else if e == "string" { assert e + "[]" == "string[]"; }
    else if e == "integer" { assert e + "[]" == "integer[]"; }
    else if e == "decimal" { assert e + "[]" == "decimal[]"; }
    else if e == "boolean" { assert e + "[]" == "boolean[]"; }
    else { assert e + "[]" == "object[]"; }
  }

  /** The names `detectType` gives a value that is not a container. */
  const ScalarTypes: set<string> := {"null", "date", "string", "integer", "decimal", "boolean"}

  /** The types an array's first non-null element can have; `"null"` is not
      among them. */
  const ElementTypes: set<string> := {"date", "string", "integer", "decimal", "boolean", "object"}

  const ArrayTypes: set<string> := {"date[]", "string[]", "integer[]", "decimal[]", "boolean[]", "object[]"}

  /** Every field is typed with a scalar name or an array-of name; none is
      typed plain `"object"`. */
  predicate TypedFields(fields: seq<Field>)
  {
    forall i :: 0 <= i < |fields| ==> fields[i].ftype in ScalarTypes || fields[i].ftype in ArrayTypes
  }

  /** Each scalar name `detectType` gives stands for exactly one kind of
      value. */
  lemma {:induction false} DetectTypeClasses(v: Json)
    ensures DetectType(v) == "null" <==> v.JNull?
    ensures DetectType(v) == "boolean" <==> v.JBool?
    ensures DetectType(v) == "date" <==> v.JStr? && IsValidDate(v.s)
    ensures DetectType(v) == "string" <==> v.JStr? && !IsValidDate(v.s)
    ensures DetectType(v) == "integer" <==> v.JNum? && IsWhole(v.n)
    ensures DetectType(v) == "decimal" <==> v.JNum? && !IsWhole(v.n)
  {
  }

  /** An array counts as an array of objects exactly when it has no non-null
      element (so an empty or all-null array does) or its first non-null
      element is a container. */
  lemma {:induction false} ElementTypeCases(items: seq<Json>)
    ensures ElementType(items) == "object"
            <==> (forall i :: 0 <= i < |items| ==> items[i].JNull?)
                 || (exists i :: 0 <= i < |items| && !items[i].JNull? && (items[i].JArr? || items[i].JObj?)
                                 && forall j :: 0 <= j < i ==> items[j].JNull?)
  {
    FirstNonNullIndex(items);
  }

  /** The element `FirstNonNull` returns sits at an index with only nulls
      before it. */
  lemma {:induction false} FirstNonNullIndex(items: seq<Json>)
    ensures FirstNonNull(items).Some? ==>
              exists i :: 0 <= i < |items| && items[i] == FirstNonNull(items).value
                          && forall j :: 0 <= j < i ==> items[j].JNull?
    ensures forall i :: 0 <= i < |items| && !items[i].JNull? && (forall j :: 0 <= j < i ==> items[j].JNull?)
                        ==> FirstNonNull(items) == Some(items[i])
  {
    if |items| > 0 && items[0].JNull? {
      FirstNonNullIndex(items[1..]);
      var r := FirstNonNull(items);
      if r.Some? {
        var k :| 0 <= k < |items[1..]| && items[1..][k] == r.value
                 && forall j :: 0 <= j < k ==> items[1..][j].JNull?;
        assert items[k + 1] == r.value;
        assert forall j :: 0 <= j < k + 1 ==> items[j].JNull? by {
          forall j | 0 <= j < k + 1 ensures items[j].JNull? {
            if j > 0 { assert items[j] == items[1..][j - 1]; }
          }
        }
      }
      forall i | 0 <= i < |items| && !items[i].JNull? && (forall j :: 0 <= j < i ==> items[j].JNull?)
        ensures FirstNonNull(items) == Some(items[i])
      {
        assert i > 0;
        assert items[1..][i - 1] == items[i];
        assert forall j :: 0 <= j < i - 1 ==> items[1..][j].JNull? by {
          forall j | 0 <= j < i - 1 ensures items[1..][j].JNull? {
            assert items[1..][j] == items[j + 1];
          }
        }
      }
    } else if |items| > 0 {
      assert items[0] == FirstNonNull(items).value;
    }
  }

  // ---------------------------------------------------------------------
  // Layout: updateFieldLength
  // ---------------------------------------------------------------------

  /** The reduce over the fields of `max(acc, |name| + |type|)` from 0. */
  function TotalLength(fields: seq<Field>): (n: nat)
    ensures forall i :: 0 <= i < |fields| ==> |fields[i].name| + |fields[i].ftype| <= n
    ensures n == 0 || exists i :: 0 <= i < |fields| && |fields[i].name| + |fields[i].ftype| == n
  {
    if |fields| == 0 then 0
    else
      var init := fields[..|fields| - 1];
      var last := fields[|fields| - 1];
      assert forall i :: 0 <= i < |init| ==> init[i] == fields[i];
      Max(TotalLength(init), |last.name| + |last.ftype|)
  }

  /** The reduce over the fields of `max(acc, |type|)` from 0. */
  function MaxTypeLength(fields: seq<Field>): (n: nat)
    ensures forall i :: 0 <= i < |fields| ==> |fields[i].ftype| <= n
    ensures n == 0 || exists i :: 0 <= i < |fields| && |fields[i].ftype| == n
  {
    if |fields| == 0 then 0
    else
      var init := fields[..|fields| - 1];
      var last := fields[|fields| - 1];
      assert forall i :: 0 <= i < |init| ==> init[i] == fields[i];
      Max(MaxTypeLength(init), |last.ftype|)
  }

  /** The table with its width and type-column position recomputed from its
      fields. */
  function UpdateFieldLength(t: Table): (r: Table)
    ensures r.id == t.id && r.name == t.name && r.parentId == t.parentId && r.fields == t.fields
    ensures LaidOut(r)
  {
    var width := TotalLength(t.fields) * 10 + 30;
    t.(width := width, fieldTypeX := width - (MaxTypeLength(t.fields) * 10 - 20))
  }

  /** The layout `updateFieldLength` leaves: the width fits the longest
      `name + type` and the type column starts where the longest type still
      fits. */
  predicate LaidOut(t: Table)
  {
    && t.width == TotalLength(t.fields) * 10 + 30
    && t.fieldTypeX == t.width - (MaxTypeLength(t.fields) * 10 - 20)
  }

  /** A laid-out table is at least 30 wide, its type column starts at 50 or
      more, and the type column never ends more than 20 past the width. An
      empty table gets exactly 30 and 50. */
  lemma {:induction false} LayoutBounds(t: Table)
    requires LaidOut(t)
    ensures t.width >= 30 && t.fieldTypeX >= 50 && t.fieldTypeX <= t.width + 20
    ensures |t.fields| == 0 ==> t.width == 30 && t.fieldTypeX == 50
    ensures forall i :: 0 <= i < |t.fields| ==>
              |t.fields[i].name| + |t.fields[i].ftype| <= (t.width - 30) / 10
              && |t.fields[i].ftype| <= (t.width - t.fieldTypeX + 20) / 10
  {
    TypeWithinTotal(t.fields);
  }

  /** The layout metrics of a single field. */
  lemma {:induction false} SingleLength(f: Field)
    ensures TotalLength([f]) == |f.name| + |f.ftype| && MaxTypeLength([f]) == |f.ftype|
  {
    assert [f][..0] == [];
  }

  /** The longest type is never longer than the longest `name + type`. */
  lemma {:induction false} TypeWithinTotal(fields: seq<Field>)
    ensures MaxTypeLength(fields) <= TotalLength(fields)
  {
    var m := MaxTypeLength(fields);
    if m > 0 {
      var i :| 0 <= i < |fields| && |fields[i].ftype| == m;
      assert |fields[i].name| + |fields[i].ftype| <= TotalLength(fields);
    }
  }

  // ---------------------------------------------------------------------
  // The id counter: addTable
  // ---------------------------------------------------------------------

  const Start: Builder := Builder(1, [])

  /** `addTable(name, parentId)`: a fresh table with the next id, no fields
      and zero layout, appended to the output. */
  function AddTable(b: Builder, name: string, parentId: nat): (r: Builder)
    ensures Extends(b, r) && |r.tables| == |b.tables| + 1
    ensures var t := r.tables[|b.tables|];
            t.name == name && t.parentId == parentId && t.width == 0 && t.fieldTypeX == 0 && t.fields == []
    ensures Sequential(b.tables) && b.nextId == |b.tables| + 1 && parentId < b.nextId
            ==> Sequential(r.tables) && r.nextId == |r.tables| + 1
  {
    Builder(b.nextId + 1, b.tables + [Table(b.nextId, name, parentId, 0, 0, [])])
  }

  /** Table `k` given `fields` and laid out, as `table.fields = ...;
      updateFieldLength(table)` does. */
  function SetFields(b: Builder, k: nat, fields: seq<Field>): (r: Builder)
    requires k < |b.tables|
    ensures r.nextId == b.nextId && |r.tables| == |b.tables|
    ensures forall i :: 0 <= i < |b.tables| && i != k ==> r.tables[i] == b.tables[i]
    ensures r.tables[k].id == b.tables[k].id && r.tables[k].name == b.tables[k].name
            && r.tables[k].parentId == b.tables[k].parentId
    ensures r.tables[k].fields == fields && LaidOut(r.tables[k])
  {
    b.(tables := b.tables[k := UpdateFieldLength(b.tables[k].(fields := fields))])
  }

  /** Table `k` given `fields` without recomputing its layout. */
  function SetFieldsOnly(b: Builder, k: nat, fields: seq<Field>): (r: Builder)
    requires k < |b.tables|
    ensures r.nextId == b.nextId && |r.tables| == |b.tables|
    ensures forall i :: 0 <= i < |b.tables| && i != k ==> r.tables[i] == b.tables[i]
    ensures r.tables[k] == b.tables[k].(fields := fields)
  {
    b.(tables := b.tables[k := b.tables[k].(fields := fields)])
  }

  /** `r` keeps every table of `b` and numbers the tables it adds on from
      `b.nextId`, with the counter one past the last of them. */
  predicate Extends(b: Builder, r: Builder)
  {
    && |b.tables| <= |r.tables|
    && r.nextId == b.nextId + (|r.tables| - |b.tables|)
    && (forall i :: 0 <= i < |b.tables| ==> r.tables[i] == b.tables[i])
    && (forall i :: |b.tables| <= i < |r.tables| ==> r.tables[i].id == b.nextId + (i - |b.tables|))
  }

  /** Every table of `r` from index `from` on hangs below a parent whose id
      is at least `lo` and smaller than its own. */
  predicate Hangs(r: Builder, from: nat, lo: nat)
  {
    forall i :: from <= i < |r.tables| ==> lo <= r.tables[i].parentId < r.tables[i].id
  }

  /** The output shape both engines promise: the table at index `i` has id
      `i + 1`, and its parent id is 0 or the id of an earlier table. */
  predicate Sequential(ts: seq<Table>)
  {
    forall i :: 0 <= i < |ts| ==> ts[i].id == i + 1 && ts[i].parentId <= i
  }

  /** Every table of `r` from index `from` on has typed fields. */
  predicate Typed(r: Builder, from: nat)
  {
    forall i :: from <= i < |r.tables| ==> TypedFields(r.tables[i].fields)
  }

  lemma {:induction false} ExtendsTrans(a: Builder, b: Builder, c: Builder)
    requires Extends(a, b) && Extends(b, c)
    ensures Extends(a, c)
  {
  }

  /** Parent bounds of a builder survive an extension whose own tables obey
      them too. */
  lemma {:induction false} HangsGrow(b: Builder, r: Builder, from: nat, lo: nat)
    requires Extends(b, r) && Hangs(b, from, lo) && Hangs(r, |b.tables|, lo)
    ensures Hangs(r, from, lo)
  {
  }

  lemma {:induction false} HangsWeaken(r: Builder, from: nat, lo: nat, from2: nat, lo2: nat)
    requires Hangs(r, from, lo) && from <= from2 && lo2 <= lo
    ensures Hangs(r, from2, lo2)
  {
  }

  /** Setting the fields of a table the extension added keeps the extension,
      and leaves every parent link where it was. */
  lemma {:induction false} SetFieldsExtends(b: Builder, r: Builder, k: nat, fields: seq<Field>, from: nat, lo: nat)
    requires Extends(b, r) && |b.tables| <= k < |r.tables|
    ensures Extends(b, SetFields(r, k, fields))
    ensures Hangs(r, from, lo) ==> Hangs(SetFields(r, k, fields), from, lo)
  {
  }

  /** A builder grown from the fresh counter with every table's parent
      earlier than itself has produced a sequential table list. */
  lemma {:induction false} StartSequential(r: Builder)
    requires Extends(Start, r) && Hangs(r, 0, 0)
    ensures Sequential(r.tables)
  {
  }

  // ---------------------------------------------------------------------
  // Which tables hang directly below which
  // ---------------------------------------------------------------------

  /** The names of the tables directly below the table with id `id`, in
      output order. */
  function ChildNames(ts: seq<Table>, id: nat): (r: seq<string>)
    ensures |r| <= |ts|
  {
    if |ts| == 0 then []
    else (if ts[0].parentId == id then [ts[0].name] else []) + ChildNames(ts[1..], id)
  }

  /** The tables `r` added after those of `b`. */
  function NewTables(b: Builder, r: Builder): seq<Table>
    requires |b.tables| <= |r.tables|
  {
    r.tables[|b.tables|..]
  }

  lemma {:induction false} ChildNamesAppend(a: seq<Table>, c: seq<Table>, id: nat)
    ensures ChildNames(a + c, id) == ChildNames(a, id) + ChildNames(c, id)
    decreases |a|
  {
    if |a| == 0 {
      assert a + c == c;
    } else {
      assert (a + c)[1..] == a[1..] + c;
      ChildNamesAppend(a[1..], c, id);
    }
  }

  lemma {:induction false} ChildNamesNone(ts: seq<Table>, id: nat)
    requires forall i :: 0 <= i < |ts| ==> ts[i].parentId != id
    ensures ChildNames(ts, id) == []
    decreases |ts|
  {
    if |ts| > 0 {
      ChildNamesNone(ts[1..], id);
    }
  }

  lemma {:induction false} NewTablesSplit(a: Builder, b: Builder, c: Builder)
    requires Extends(a, b) && Extends(b, c)
    ensures |a.tables| <= |c.tables| && NewTables(a, c) == NewTables(a, b) + NewTables(b, c)
  {
    assert NewTables(a, c) == NewTables(a, b) + NewTables(b, c) by {
      forall i | 0 <= i < |NewTables(a, c)|
        ensures NewTables(a, c)[i] == (NewTables(a, b) + NewTables(b, c))[i]
      {
        if |a.tables| + i < |b.tables| {
          assert c.tables[|a.tables| + i] == b.tables[|a.tables| + i];
        }
      }
    }
  }

  /** Tables all hanging below ids above `id` have no child of `id`. */
  lemma {:induction false} NoChildren(b: Builder, r: Builder, id: nat, lo: nat)
    requires Extends(b, r) && Hangs(r, |b.tables|, lo) && id < lo
    ensures ChildNames(NewTables(b, r), id) == []
  {
    ChildNamesNone(NewTables(b, r), id);
  }

  // ---------------------------------------------------------------------
  // Field merge: mergeFieldOrder and the seen-set loop
  // ---------------------------------------------------------------------

  function Names(fields: seq<Field>): (s: set<string>)
    ensures forall i :: 0 <= i < |fields| ==> fields[i].name in s
    ensures forall n :: n in s ==> exists i :: 0 <= i < |fields| && fields[i].name == n
  {
    set i | 0 <= i < |fields| :: fields[i].name
  }

  predicate UniqueNames(fields: seq<Field>)
  {
    forall i, j :: 0 <= i < j < |fields| ==> fields[i].name != fields[j].name
  }

  /** One step of the merge: append `f` unless a field of that name is
      already present. */
  function AddIfUnseen(acc: seq<Field>, f: Field): (r: seq<Field>)
  {
    if f.name in Names(acc) then acc else acc + [f]
  }

  /** `mergeFieldOrder(existing, candidate)`. */
  function MergeFieldOrder(existing: seq<Field>, cand: seq<Field>): (r: seq<Field>)
    decreases |cand|
  {
    if |cand| == 0 then existing
    else MergeFieldOrder(AddIfUnseen(existing, cand[0]), cand[1..])
  }

  /** The index of the first field named `n`. */
  function FirstIndex(fields: seq<Field>, n: string): (i: nat)
    requires n in Names(fields)
    ensures i < |fields| && fields[i].name == n
    ensures forall j :: 0 <= j < i ==> fields[j].name != n
  {
    if fields[0].name == n then 0
    else
      assert n in Names(fields[1..]) by {
        var k :| 0 <= k < |fields| && fields[k].name == n;
        assert fields[1..][k - 1] == fields[k];
      }
      1 + FirstIndex(fields[1..], n)
  }

  /** The merge keeps `existing` as a prefix, ends up with exactly the names
      of `existing` and of the candidates, and keeps names unique when they
      were unique to begin with. */
  lemma {:induction false} MergeShape(existing: seq<Field>, cand: seq<Field>)
    ensures var r := MergeFieldOrder(existing, cand);
            && |existing| <= |r| && r[..|existing|] == existing
            && Names(r) == Names(existing) + Names(cand)
            && (UniqueNames(existing) ==> UniqueNames(r))
  {
    MergePrefix(existing, cand);
    MergeNames(existing, cand);
    if UniqueNames(existing) {
      MergeUnique(existing, cand);
    }
  }

  lemma {:induction false} MergePrefix(existing: seq<Field>, cand: seq<Field>)
    ensures var r := MergeFieldOrder(existing, cand);
            |existing| <= |r| && r[..|existing|] == existing
    decreases |cand|
  {
    if |cand| > 0 {
      var e1 := AddIfUnseen(existing, cand[0]);
      MergePrefix(e1, cand[1..]);
      var r := MergeFieldOrder(existing, cand);
      assert r[..|e1|] == e1;
      assert r[..|existing|] == e1[..|existing|];
    }
  }

  lemma {:induction false} NamesCons(cand: seq<Field>)
    requires |cand| > 0
    ensures Names(cand) == {cand[0].name} + Names(cand[1..])
  {
    forall n | n in Names(cand) ensures n in {cand[0].name} + Names(cand[1..]) {
      var k :| 0 <= k < |cand| && cand[k].name == n;
      if k > 0 { assert cand[1..][k - 1] == cand[k]; }
    }
    forall n | n in Names(cand[1..]) ensures n in Names(cand) {
      var k :| 0 <= k < |cand[1..]| && cand[1..][k].name == n;
      assert cand[k + 1] == cand[1..][k];
    }
  }

  lemma {:induction false} AddIfUnseenNames(existing: seq<Field>, f: Field)
    ensures Names(AddIfUnseen(existing, f)) == Names(existing) + {f.name}
  {
    if f.name !in Names(existing) {
      NamesSnoc(existing, f);
    }
  }

  lemma {:induction false} MergeNames(existing: seq<Field>, cand: seq<Field>)
    ensures Names(MergeFieldOrder(existing, cand)) == Names(existing) + Names(cand)
    decreases |cand|
  {
    if |cand| > 0 {
      var e1 := AddIfUnseen(existing, cand[0]);
      MergeNames(e1, cand[1..]);
      NamesCons(cand);
      AddIfUnseenNames(existing, cand[0]);
    }
  }

  lemma {:induction false} MergeUnique(existing: seq<Field>, cand: seq<Field>)
    requires UniqueNames(existing)
    ensures UniqueNames(MergeFieldOrder(existing, cand))
    decreases |cand|
  {
    if |cand| > 0 {
      var e1 := AddIfUnseen(existing, cand[0]);
      if cand[0].name !in Names(existing) {
        assert UniqueNames(e1) by {
          forall i, j | 0 <= i < j < |e1| ensures e1[i].name != e1[j].name {
            if j == |existing| { assert e1[i] == existing[i]; }
          }
        }
      }
      MergeUnique(e1, cand[1..]);
    }
  }

  lemma {:induction false} NamesSnoc(fields: seq<Field>, f: Field)
    ensures Names(fields + [f]) == Names(fields) + {f.name}
  {
    var s := fields + [f];
    forall n | n in Names(s) ensures n in Names(fields) + {f.name} {
      var k :| 0 <= k < |s| && s[k].name == n;
      if k < |fields| { assert s[k] == fields[k]; }
    }
    forall n | n in Names(fields) + {f.name} ensures n in Names(s) {
      if n == f.name {
        assert s[|fields|] == f;
      } else {
        var k :| 0 <= k < |fields| && fields[k].name == n;
        assert s[k] == fields[k];
      }
    }
  }

  /** The merge only ever copies fields, so it keeps fields typed. */
  lemma {:induction false} MergeTyped(existing: seq<Field>, cand: seq<Field>)
    requires TypedFields(existing) && TypedFields(cand)
    ensures TypedFields(MergeFieldOrder(existing, cand))
    decreases |cand|
  {
    if |cand| > 0 {
      assert TypedFields(cand[1..]) by {
        forall i | 0 <= i < |cand[1..]| ensures cand[1..][i].ftype in ScalarTypes || cand[1..][i].ftype in ArrayTypes {
          assert cand[1..][i] == cand[i + 1];
        }
      }
      MergeTyped(AddIfUnseen(existing, cand[0]), cand[1..]);
    }
  }

  /** Each appended field is the FIRST candidate of its name, the names
      appended were not in `existing`, and they appear in the order of their
      first occurrence among the candidates. */
  lemma {:induction false} MergeFirstOccurrence(existing: seq<Field>, cand: seq<Field>)
    ensures var r := MergeFieldOrder(existing, cand);
            && (forall k :: |existing| <= k < |r| ==>
                  r[k].name !in Names(existing) && r[k].name in Names(cand)
                  && r[k] == cand[FirstIndex(cand, r[k].name)])
            && (forall k, l :: |existing| <= k < l < |r| ==>
                  FirstIndex(cand, r[k].name) < FirstIndex(cand, r[l].name))
    decreases |cand|
  {
    if |cand| > 0 {
      var e1 := AddIfUnseen(existing, cand[0]);
      var rest := cand[1..];
      MergeFirstOccurrence(e1, rest);
      MergeShape(e1, rest);
      var r := MergeFieldOrder(existing, cand);
      assert r == MergeFieldOrder(e1, rest);
      forall k | |existing| <= k < |r|
        ensures r[k].name !in Names(existing) && r[k].name in Names(cand)
        ensures r[k] == cand[FirstIndex(cand, r[k].name)]
        ensures k > |existing| && e1 != existing ==> FirstIndex(cand, r[k].name) > 0
      {
        FirstInTail(existing, cand, r, k);
      }
      forall k, l | |existing| <= k < l < |r|
        ensures FirstIndex(cand, r[k].name) < FirstIndex(cand, r[l].name)
      {
        FirstInTail(existing, cand, r, k);
        FirstInTail(existing, cand, r, l);
        if k >= |e1| {
          var nk := r[k].name;
          var nl := r[l].name;
          FirstIndexTail(cand, nk);
          FirstIndexTail(cand, nl);
        }
      }
    }
  }

  /** Where a field appended by the merge comes from, in terms of the first
      candidate. */
  lemma {:induction false} FirstInTail(existing: seq<Field>, cand: seq<Field>, r: seq<Field>, k: nat)
    requires |cand| > 0 && r == MergeFieldOrder(existing, cand) && |existing| <= k < |r|
    requires var e1 := AddIfUnseen(existing, cand[0]);
             var r1 := MergeFieldOrder(e1, cand[1..]);
             && |e1| <= |r1| && r1[..|e1|] == e1
             && (forall k :: |e1| <= k < |r1| ==>
                   r1[k].name !in Names(e1) && r1[k].name in Names(cand[1..])
                   && r1[k] == cand[1..][FirstIndex(cand[1..], r1[k].name)])
    ensures r[k].name !in Names(existing) && r[k].name in Names(cand)
    ensures r[k] == cand[FirstIndex(cand, r[k].name)]
    ensures k > |existing| && AddIfUnseen(existing, cand[0]) != existing ==> FirstIndex(cand, r[k].name) > 0
    ensures k >= |AddIfUnseen(existing, cand[0])| ==> r[k].name in Names(cand[1..]) && r[k].name != cand[0].name
    ensures k < |AddIfUnseen(existing, cand[0])| ==> k == |existing| && r[k] == cand[0] && FirstIndex(cand, r[k].name) == 0
  {
    var e1 := AddIfUnseen(existing, cand[0]);
    if k < |e1| {
      assert r[k] == e1[k] == cand[0];
    } else {
      var n := r[k].name;
      assert n !in Names(e1);
      if cand[0].name !in Names(existing) {
        NamesSnoc(existing, cand[0]);
      }
      assert n != cand[0].name;
      FirstIndexTail(cand, n);
    }
  }

  lemma {:induction false} FirstIndexTail(cand: seq<Field>, n: string)
    requires |cand| > 0 && n in Names(cand[1..]) && n != cand[0].name
    ensures n in Names(cand) && FirstIndex(cand, n) == 1 + FirstIndex(cand[1..], n)
  {
    var k :| 0 <= k < |cand[1..]| && cand[1..][k].name == n;
    assert cand[k + 1] == cand[1..][k];
  }

  /** Merging two candidate lists one after the other is merging their
      concatenation: the per-element merges of an array add up to one merge
      over all elements' candidates. */
  lemma {:induction false} MergeConcat(existing: seq<Field>, c1: seq<Field>, c2: seq<Field>)
    ensures MergeFieldOrder(MergeFieldOrder(existing, c1), c2) == MergeFieldOrder(existing, c1 + c2)
    decreases |c1|
  {
    if |c1| > 0 {
      assert (c1 + c2)[0] == c1[0];
      assert (c1 + c2)[1..] == c1[1..] + c2;
      MergeConcat(AddIfUnseen(existing, c1[0]), c1[1..], c2);
    } else {
      assert c1 + c2 == c2;
    }
  }
}
