// The inbound and outbound halves of sync_readonly_node_config: the rows that a node's template
// owns follow the template, and no other node notices.

module RowSync {
  import opened Wrappers
  import opened NodeTables
  import opened Protocols

  datatype SyncError =
    | EditableTag(tag: string)      // the tag already belongs to an editable row
    | ConflictingTag(tag: string)   // another node uses the tag with other content
    | InvalidRule(position: nat)    // a template rule is malformed

  // ---- the template's entries as a tag-keyed dictionary -------------------------------------

  function Find(items: seq<Item>, tag: string): Option<Item> {
    if items == [] then None
    else if items[|items| - 1].tag == tag then Some(items[|items| - 1])
    else Find(items[..|items| - 1], tag)
  }

  ghost predicate DistinctTags(items: seq<Item>) {
    forall i, j :: 0 <= i < j < |items| ==> items[i].tag != items[j].tag
  }

  lemma {:induction false} FindFinds(items: seq<Item>, tag: string)
    ensures Find(items, tag).None? <==> forall x :: x in items ==> x.tag != tag
    ensures Find(items, tag).Some? ==> Find(items, tag).value in items && Find(items, tag).value.tag == tag
  {
    if items != [] {
      var n := |items| - 1;
      assert items == items[..n] + [items[n]];
      FindFinds(items[..n], tag);
    }
  }

  lemma FindUnique(items: seq<Item>, x: Item)
    requires DistinctTags(items) && x in items
    ensures Find(items, x.tag) == Some(x)
  {
    FindFinds(items, x.tag);
  }

  // d[x.tag] = x on an insertion-ordered dictionary: a known tag keeps its place, a new one goes
  // to the end.
  function Put(d: seq<Item>, x: Item): seq<Item> {
    if d == [] then [x]
    else if d[0].tag == x.tag then [x] + d[1..]
    else [d[0]] + Put(d[1..], x)
  }

  function Dictionary(items: seq<Item>): seq<Item> {
    if items == [] then [] else Put(Dictionary(items[..|items| - 1]), items[|items| - 1])
  }

  lemma {:induction false} PutReplaces(d: seq<Item>, x: Item, i: nat)
    requires DistinctTags(d) && i < |d| && d[i].tag == x.tag
    ensures Put(d, x) == d[i := x]
  {
    if i != 0 {
      PutReplaces(d[1..], x, i - 1);
    }
  }

  lemma {:induction false} PutAppends(d: seq<Item>, x: Item)
    requires forall y :: y in d ==> y.tag != x.tag
    ensures Put(d, x) == d + [x]
  {
    if d != [] {
      PutAppends(d[1..], x);
    }
  }

  lemma PutDistinct(d: seq<Item>, x: Item)
    requires DistinctTags(d)
    ensures DistinctTags(Put(d, x))
  {
    if k: nat :| k < |d| && d[k].tag == x.tag {
      PutReplaces(d, x, k);
    } else {
      PutAppends(d, x);
    }
  }

  lemma PutFinds(d: seq<Item>, x: Item, tag: string)
    requires DistinctTags(d)
    ensures DistinctTags(Put(d, x))
    ensures Find(Put(d, x), tag) == if tag == x.tag then Some(x) else Find(d, tag)
  {
    PutDistinct(d, x);
    FindFinds(d, tag);
    FindFinds(Put(d, x), tag);
    if k: nat :| k < |d| && d[k].tag == x.tag {
      PutReplaces(d, x, k);
      FoundAmong(d, Put(d, x), x, tag, k);
    } else {
      PutAppends(d, x);
      FoundAmong(d, Put(d, x), x, tag, |d|);
    }
  }

  lemma FoundAmong(d: seq<Item>, d': seq<Item>, x: Item, tag: string, k: nat)
    requires DistinctTags(d) && DistinctTags(d') && k <= |d| && (k == |d| || d[k].tag == x.tag)
    requires d' == if k < |d| then d[k := x] else d + [x]
    ensures Find(d', tag) == if tag == x.tag then Some(x) else Find(d, tag)
  {
    FindFinds(d, tag);
    FindFinds(d', tag);
    assert d'[k] == x;
    if tag == x.tag {
      FindUnique(d', x);
    } else if Find(d, tag).Some? {
      var i :| 0 <= i < |d| && d[i] == Find(d, tag).value;
      assert d'[i] == d[i];
      FindUnique(d', d[i]);
    }
  }

  // The dictionary has one entry per tag, and each is the last one written under that tag.
  lemma {:induction false} DictionaryKeepsLast(items: seq<Item>, tag: string)
    ensures DistinctTags(Dictionary(items))
    ensures Find(Dictionary(items), tag) == Find(items, tag)
  {
    if items != [] {
      var n := |items| - 1;
      DictionaryKeepsLast(items[..n], tag);
      PutFinds(Dictionary(items[..n]), items[n], tag);
    }
  }

  lemma {:induction false} DictionaryOfDistinct(items: seq<Item>)
    requires DistinctTags(items)
    ensures Dictionary(items) == items
  {
    if items != [] {
      var n := |items| - 1;
      DictionaryOfDistinct(items[..n]);
      PutAppends(items[..n], items[n]);
    }
  }

  function SupportedInbounds(items: seq<Item>, excluded: set<string>): seq<Item> {
    if items == [] then []
    else
      var x := items[|items| - 1];
      SupportedInbounds(items[..|items| - 1], excluded) +
      if x.tag != "" && x.protocol in INBOUND_PROTOCOLS && x.tag !in excluded then [x] else []
  }

  function TaggedOutbounds(items: seq<Item>): seq<Item> {
    if items == [] then []
    else
      var x := items[|items| - 1];
      TaggedOutbounds(items[..|items| - 1]) + if x.tag != "" then [x] else []
  }

  function TemplateInboundContents(template: Template, excluded: set<string>): seq<Item> {
    Dictionary(SupportedInbounds(template.inbounds, excluded))
  }

  function TemplateOutboundContents(template: Template): seq<Item> {
    Dictionary(TaggedOutbounds(template.outbounds))
  }

  // ---- specification ------------------------------------------------------------------------

  function RowConflict(rows: seq<ConfigRow>, node: NodeId, x: Item): Option<SyncError> {
    match RowFor(rows, x.tag)
    case None => None
    case Some(row) =>
      if !row.readonly then Some(EditableTag(x.tag))
      else if row.nodes - {node} != {} && row.content != x then Some(ConflictingTag(x.tag))
      else None
  }

  function FirstConflict(rows: seq<ConfigRow>, node: NodeId, wanted: seq<Item>): Option<SyncError> {
    if wanted == [] then None
    else
      var n := |wanted| - 1;
      var earlier := FirstConflict(rows, node, wanted[..n]);
      if earlier.Some? then earlier else RowConflict(rows, node, wanted[n])
  }

  // A row of the template follows the template; a row the template dropped loses the node, and
  // goes when that was its last one; every other row stays.
  function KeptRow(row: ConfigRow, node: NodeId, wanted: seq<Item>): seq<ConfigRow> {
    match Find(wanted, row.tag)
    case Some(x) => [row.(content := x, enabled := true, nodes := row.nodes + {node})]
    case None =>
      if !row.readonly || node !in row.nodes then [row]
      else if row.nodes == {node} then []
      else [row.(nodes := row.nodes - {node})]
  }

  function KeptRows(rows: seq<ConfigRow>, node: NodeId, wanted: seq<Item>): seq<ConfigRow> {
    if rows == [] then []
    else KeptRows(rows[..|rows| - 1], node, wanted) + KeptRow(rows[|rows| - 1], node, wanted)
  }

  function NewRow(x: Item, node: NodeId): ConfigRow {
    ConfigRow(x.tag, x, true, true, {node})
  }

  function NewRows(rows: seq<ConfigRow>, node: NodeId, wanted: seq<Item>): seq<ConfigRow> {
    if wanted == [] then []
    else
      var x := wanted[|wanted| - 1];
      NewRows(rows, node, wanted[..|wanted| - 1]) +
      if RowFor(rows, x.tag).None? then [NewRow(x, node)] else []
  }

  function SyncedRows(rows: seq<ConfigRow>, node: NodeId, wanted: seq<Item>): seq<ConfigRow> {
    KeptRows(rows, node, wanted) + NewRows(rows, node, wanted)
  }

  // ---- the two loops ------------------------------------------------------------------------

  // After the first loop: rows the template dropped are detached or gone.
  function Detached(rows: seq<ConfigRow>, node: NodeId, wanted: seq<Item>): seq<ConfigRow> {
    if rows == [] then []
    else
      var row := rows[|rows| - 1];
      Detached(rows[..|rows| - 1], node, wanted) +
      if Find(wanted, row.tag).Some? then [row] else KeptRow(row, node, wanted)
  }

  // During the second loop: the entries of `seen` have been written to their rows.
  function Adopted(rows: seq<ConfigRow>, node: NodeId, seen: seq<Item>): seq<ConfigRow> {
    if rows == [] then []
    else
      var row := rows[|rows| - 1];
      Adopted(rows[..|rows| - 1], node, seen) +
      match Find(seen, row.tag)
      case Some(x) => [row.(content := x, enabled := true, nodes := row.nodes + {node})]
      case None => [row]
  }

  method DetachDroppedRows(rows: seq<ConfigRow>, node: NodeId, wanted: seq<Item>)
    returns (kept: seq<ConfigRow>, deleted: seq<string>)
    ensures kept == Detached(rows, node, wanted)
    ensures deleted == DeletedTags(rows, node, wanted)
  {
    kept, deleted := [], [];
    for i := 0 to |rows|
      invariant kept == Detached(rows[..i], node, wanted)
      invariant deleted == DeletedTags(rows[..i], node, wanted)
    {
      var row := rows[i];
      assert rows[..i + 1][..i] == rows[..i];
      if !row.readonly || node !in row.nodes || Find(wanted, row.tag).Some? {
        kept := kept + [row];
      } else {
        var others := row.nodes - {node};
        OnlyNode(row.nodes, node);
        if others == {} {
          deleted := deleted + [row.tag];
        } else {
          kept := kept + [row.(nodes := others)];
        }
      }
    }
    assert rows[..|rows|] == rows;
  }

  lemma OnlyNode(nodes: set<NodeId>, node: NodeId)
    requires node in nodes
    ensures nodes - {node} == {} <==> nodes == {node}
  {
  }

  // The tags of the rows that _cleanup_inbound removes.
  function DeletedTags(rows: seq<ConfigRow>, node: NodeId, wanted: seq<Item>): seq<string> {
    if rows == [] then []
    else
      var row := rows[|rows| - 1];
      DeletedTags(rows[..|rows| - 1], node, wanted) +
      if KeptRow(row, node, wanted) == [] then [row.tag] else []
  }

  method WriteRow(rows: seq<ConfigRow>, node: NodeId, x: Item) returns (written: seq<ConfigRow>)
    requires UniqueTags(rows)
    ensures written == Adopted(rows, node, [x])
  {
    written := [];
    for i := 0 to |rows|
      invariant written == Adopted(rows[..i], node, [x])
    {
      var row := rows[i];
      assert rows[..i + 1][..i] == rows[..i];
      FindFinds([x], row.tag);
      if row.tag == x.tag {
        written := written + [row.(content := x, enabled := true, nodes := row.nodes + {node})];
      } else {
        written := written + [row];
      }
    }
    assert rows[..|rows|] == rows;
  }

  method SyncConfigRows(rows: seq<ConfigRow>, node: NodeId, wanted: seq<Item>)
    returns (r: Result<seq<ConfigRow>, SyncError>, created: seq<ConfigRow>, deleted: seq<string>)
    requires UniqueTags(rows) && DistinctTags(wanted)
    ensures r == match FirstConflict(rows, node, wanted)
                 case Some(e) => Err(e)
                 case None => Ok(SyncedRows(rows, node, wanted))
    ensures r.Ok? ==> created == NewRows(rows, node, wanted)
    ensures deleted == DeletedTags(rows, node, wanted)
  {
    var table;
    table, deleted := DetachDroppedRows(rows, node, wanted);
    ghost var detached := table;
    AdoptNothing(detached, node);
    created := [];
    for i := 0 to |wanted|
      invariant FirstConflict(rows, node, wanted[..i]).None?
      invariant table == Adopted(detached, node, wanted[..i])
      invariant created == NewRows(rows, node, wanted[..i])
    {
      var x := wanted[i];
      AdoptStep(rows, node, wanted, i);
      match RowFor(table, x.tag)
      case Some(row) =>
        if !row.readonly {
          return Err(EditableTag(x.tag)), created, deleted;
        }
        if row.nodes - {node} != {} && row.content != x {
          return Err(ConflictingTag(x.tag)), created, deleted;
        }
        table := WriteRow(table, node, x);
      case None =>
        created := created + [NewRow(x, node)];
    }
    assert wanted[..|wanted|] == wanted;
    DetachThenAdopt(rows, node, wanted);
    r := Ok(table + created);
  }

  // One round of the second loop.
  lemma AdoptStep(rows: seq<ConfigRow>, node: NodeId, wanted: seq<Item>, i: nat)
    requires UniqueTags(rows) && DistinctTags(wanted) && i < |wanted|
    requires FirstConflict(rows, node, wanted[..i]).None?
    ensures
      var x, detached := wanted[i], Detached(rows, node, wanted);
      var table := Adopted(detached, node, wanted[..i]);
      var conflict := RowConflict(rows, node, x);
      && UniqueTags(table)
      && RowFor(table, x.tag) == RowFor(rows, x.tag)
      && FirstConflict(rows, node, wanted[..i + 1]) == conflict
      && (conflict.Some? ==> FirstConflict(rows, node, wanted) == conflict)
      && Adopted(detached, node, wanted[..i + 1]) == Adopted(table, node, [x])
      && (RowFor(rows, x.tag).None? ==> Adopted(table, node, [x]) == table)
      && NewRows(rows, node, wanted[..i + 1])
         == NewRows(rows, node, wanted[..i]) + if RowFor(rows, x.tag).None? then [NewRow(x, node)] else []
  {
    var x, detached, seen := wanted[i], Detached(rows, node, wanted), wanted[..i];
    assert wanted[..i + 1] == seen + [x] && (seen + [x])[..i] == seen;
    DetachedUnique(rows, node, wanted);
    AdoptedUnique(detached, node, seen);
    AdoptedRowFor(rows, node, wanted, i);
    AdoptOneMore(detached, node, seen, x);
    if RowConflict(rows, node, x).Some? {
      FirstConflictStays(rows, node, wanted, i + 1);
    }
    if RowFor(rows, x.tag).None? {
      AdoptUnmatched(detached, node, seen, x);
    }
  }

  lemma {:induction false} FirstConflictStays(rows: seq<ConfigRow>, node: NodeId, wanted: seq<Item>, k: nat)
    requires k <= |wanted|
    requires FirstConflict(rows, node, wanted[..k]).Some?
    ensures FirstConflict(rows, node, wanted) == FirstConflict(rows, node, wanted[..k])
    decreases |wanted|
  {
    if k == |wanted| {
      assert wanted[..k] == wanted;
    } else {
      var n := |wanted| - 1;
      assert wanted[..n][..k] == wanted[..k];
      FirstConflictStays(rows, node, wanted[..n], k);
    }
  }

  lemma RowForAppend(rows: seq<ConfigRow>, row: ConfigRow, tag: string)
    ensures RowFor(rows + [row], tag) == if row.tag == tag then Some(row) else RowFor(rows, tag)
  {
    assert (rows + [row])[..|rows|] == rows;
  }

  lemma {:induction false} DetachedFrom(rows: seq<ConfigRow>, node: NodeId, wanted: seq<Item>, row: ConfigRow)
    requires row in Detached(rows, node, wanted)
    ensures exists old_ :: old_ in rows && old_.tag == row.tag
  {
    var n := |rows| - 1;
    if row in Detached(rows[..n], node, wanted) {
      DetachedFrom(rows[..n], node, wanted, row);
      var old_ :| old_ in rows[..n] && old_.tag == row.tag;
      assert old_ in rows;
    } else {
      assert rows[n] in rows && rows[n].tag == row.tag;
    }
  }

  // Detaching keeps the relative order of rows, so it looks up as before whatever the template still
  // wants.
  lemma {:induction false} DetachedFinds(rows: seq<ConfigRow>, node: NodeId, wanted: seq<Item>, tag: string)
    requires Find(wanted, tag).Some?
    ensures RowFor(Detached(rows, node, wanted), tag) == RowFor(rows, tag)
  {
    if rows != [] {
      var n := |rows| - 1;
      var d, row := Detached(rows[..n], node, wanted), rows[n];
      DetachedFinds(rows[..n], node, wanted, tag);
      var tail := if Find(wanted, row.tag).Some? then [row] else KeptRow(row, node, wanted);
      if tail == [] {
        assert d + tail == d;
      } else {
        assert tail == [tail[0]] && tail[0].tag == row.tag;
        RowForAppend(d, tail[0], tag);
      }
    }
  }

  lemma {:induction false} DetachedUnique(rows: seq<ConfigRow>, node: NodeId, wanted: seq<Item>)
    requires UniqueTags(rows)
    ensures UniqueTags(Detached(rows, node, wanted))
  {
    if rows != [] {
      var n := |rows| - 1;
      DetachedUnique(rows[..n], node, wanted);
      forall row | row in Detached(rows[..n], node, wanted) ensures row.tag != rows[n].tag {
        DetachedFrom(rows[..n], node, wanted, row);
      }
    }
  }

  lemma {:induction false} AdoptNothing(rows: seq<ConfigRow>, node: NodeId)
    ensures Adopted(rows, node, []) == rows
  {
    if rows != [] {
      AdoptNothing(rows[..|rows| - 1], node);
    }
  }

  lemma {:induction false} AdoptedAt(rows: seq<ConfigRow>, node: NodeId, seen: seq<Item>)
    ensures |Adopted(rows, node, seen)| == |rows|
    ensures forall i :: 0 <= i < |rows| ==>
      Adopted(rows, node, seen)[i] ==
      match Find(seen, rows[i].tag)
      case Some(x) => rows[i].(content := x, enabled := true, nodes := rows[i].nodes + {node})
      case None => rows[i]
  {
    if rows != [] {
      AdoptedAt(rows[..|rows| - 1], node, seen);
    }
  }

  lemma AdoptedUnique(rows: seq<ConfigRow>, node: NodeId, seen: seq<Item>)
    requires UniqueTags(rows) && DistinctTags(seen)
    ensures UniqueTags(Adopted(rows, node, seen))
  {
    AdoptedAt(rows, node, seen);
  }

  lemma FindExtend(seen: seq<Item>, x: Item, tag: string)
    ensures Find(seen + [x], tag) == if x.tag == tag then Some(x) else Find(seen, tag)
  {
    assert (seen + [x])[..|seen|] == seen;
  }

  lemma AdoptOneMore(rows: seq<ConfigRow>, node: NodeId, seen: seq<Item>, x: Item)
    requires Find(seen, x.tag).None?
    ensures Adopted(Adopted(rows, node, seen), node, [x]) == Adopted(rows, node, seen + [x])
  {
    var once := Adopted(rows, node, seen);
    AdoptedAt(rows, node, seen);
    AdoptedAt(once, node, [x]);
    AdoptedAt(rows, node, seen + [x]);
    forall i | 0 <= i < |rows|
      ensures Adopted(once, node, [x])[i] == Adopted(rows, node, seen + [x])[i]
    {
      FindExtend(seen, x, rows[i].tag);
      FindExtend([], x, rows[i].tag);
      assert [] + [x] == [x];
    }
  }

  lemma {:induction false} AdoptUnmatched(rows: seq<ConfigRow>, node: NodeId, seen: seq<Item>, x: Item)
    requires RowFor(Adopted(rows, node, seen), x.tag).None?
    ensures Adopted(rows, node, seen + [x]) == Adopted(rows, node, seen)
  {
    if rows != [] {
      var n := |rows| - 1;
      FindExtend(seen, x, rows[n].tag);
      RowForAppend(Adopted(rows[..n], node, seen), Adopted(rows, node, seen)[|Adopted(rows[..n], node, seen)|], x.tag);
      AdoptUnmatched(rows[..n], node, seen, x);
    }
  }

  // A row not yet written looks up exactly as it stood before the sync.
  lemma AdoptedRowFor(rows: seq<ConfigRow>, node: NodeId, wanted: seq<Item>, i: nat)
    requires UniqueTags(rows) && DistinctTags(wanted) && i < |wanted|
    ensures RowFor(Adopted(Detached(rows, node, wanted), node, wanted[..i]), wanted[i].tag)
         == RowFor(rows, wanted[i].tag)
    ensures Find(wanted[..i], wanted[i].tag).None?
  {
    FindFinds(wanted[..i], wanted[i].tag);
    FindUnique(wanted, wanted[i]);
    DetachedFinds(rows, node, wanted, wanted[i].tag);
    DetachedUnique(rows, node, wanted);
    AdoptedLookup(Detached(rows, node, wanted), node, wanted[..i], wanted[i].tag);
  }

  lemma {:induction false} AdoptedLookup(rows: seq<ConfigRow>, node: NodeId, seen: seq<Item>, tag: string)
    requires Find(seen, tag).None?
    ensures RowFor(Adopted(rows, node, seen), tag) == RowFor(rows, tag)
  {
    if rows != [] {
      var n := |rows| - 1;
      var earlier := Adopted(rows[..n], node, seen);
      AdoptedLookup(rows[..n], node, seen, tag);
      RowForAppend(earlier, Adopted(rows, node, seen)[|earlier|], tag);
    }
  }

  lemma {:induction false} DetachThenAdopt(rows: seq<ConfigRow>, node: NodeId, wanted: seq<Item>)
    ensures Adopted(Detached(rows, node, wanted), node, wanted) == KeptRows(rows, node, wanted)
  {
    if rows != [] {
      var n := |rows| - 1;
      DetachThenAdopt(rows[..n], node, wanted);
      var d := Detached(rows[..n], node, wanted);
      var tail := if Find(wanted, rows[n].tag).Some? then [rows[n]] else KeptRow(rows[n], node, wanted);
      if tail == [] {
        assert d + tail == d;
      } else {
        assert (d + tail)[..|d + tail| - 1] == d;
      }
    }
  }
}
