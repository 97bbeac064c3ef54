// What the row sync promises: the template's rows end up as the template says, no other node's
// rows change, the table's invariants stay, and a settled table is exactly a fixed point.

module RowSyncProperties {
  import opened Wrappers
  import opened NodeTables
  import opened RowSync

  lemma {:induction false} NoConflictEach(rows: seq<ConfigRow>, node: NodeId, wanted: seq<Item>, x: Item)
    requires FirstConflict(rows, node, wanted).None? && x in wanted
    ensures RowConflict(rows, node, x).None?
  {
    var n := |wanted| - 1;
    assert wanted == wanted[..n] + [wanted[n]];
    if x != wanted[n] {
      NoConflictEach(rows, node, wanted[..n], x);
    }
  }

  // Without a conflict, a stored row under a wanted tag is read-only, and carries the wanted
  // content if another node has it too.
  lemma WantedRow(rows: seq<ConfigRow>, node: NodeId, wanted: seq<Item>, i: nat)
    requires UniqueTags(rows) && i < |rows|
    requires FirstConflict(rows, node, wanted).None? && Find(wanted, rows[i].tag).Some?
    ensures rows[i].readonly
    ensures rows[i].nodes <= {node} || rows[i].content == Find(wanted, rows[i].tag).value
  {
    var x := Find(wanted, rows[i].tag).value;
    FindFinds(wanted, rows[i].tag);
    RowForUnique(rows, i);
    NoConflictEach(rows, node, wanted, x);
  }

  // ---- isolation ----------------------------------------------------------------------------

  lemma KeptRowSeenBy(rows: seq<ConfigRow>, node: NodeId, wanted: seq<Item>, other: NodeId, i: nat)
    requires SoundRows(rows) && other != node && i < |rows|
    requires FirstConflict(rows, node, wanted).None?
    ensures NodeRows(KeptRow(rows[i], node, wanted), other) == NodeRows([rows[i]], other)
  {
    if Find(wanted, rows[i].tag).Some? {
      WantedRow(rows, node, wanted, i);
    }
  }

  lemma {:induction false} KeptRowsSeenBy(
      rows: seq<ConfigRow>, node: NodeId, wanted: seq<Item>, other: NodeId, k: nat)
    requires SoundRows(rows) && other != node && k <= |rows|
    requires FirstConflict(rows, node, wanted).None?
    ensures NodeRows(KeptRows(rows[..k], node, wanted), other) == NodeRows(rows[..k], other)
  {
    if k != 0 {
      KeptRowsSeenBy(rows, node, wanted, other, k - 1);
      KeptRowSeenBy(rows, node, wanted, other, k - 1);
      assert rows[..k] == rows[..k - 1] + [rows[k - 1]];
      KeptSeenStep(rows[..k - 1], rows[k - 1], node, wanted, other);
    }
  }

  lemma KeptSeenStep(rows: seq<ConfigRow>, row: ConfigRow, node: NodeId, wanted: seq<Item>, other: NodeId)
    requires NodeRows(KeptRows(rows, node, wanted), other) == NodeRows(rows, other)
    requires NodeRows(KeptRow(row, node, wanted), other) == NodeRows([row], other)
    ensures NodeRows(KeptRows(rows + [row], node, wanted), other) == NodeRows(rows + [row], other)
  {
    assert (rows + [row])[..|rows|] == rows;
    NodeRowsConcat(KeptRows(rows, node, wanted), KeptRow(row, node, wanted), other);
    NodeRowsConcat(rows, [row], other);
  }

  lemma {:induction false} NewRowsSeenBy(rows: seq<ConfigRow>, node: NodeId, wanted: seq<Item>, other: NodeId)
    requires other != node
    ensures NodeRows(NewRows(rows, node, wanted), other) == []
  {
    if wanted != [] {
      var n := |wanted| - 1;
      var init := NewRows(rows, node, wanted[..n]);
      var tail := if RowFor(rows, wanted[n].tag).None? then [NewRow(wanted[n], node)] else [];
      NewRowsSeenBy(rows, node, wanted[..n], other);
      NodeRowsConcat(init, tail, other);
    }
  }

  // Isolation: every other node is assigned the same rows, with the same contents, in the same
  // order, as before the sync.
  lemma OtherNodesKeepTheirRows(rows: seq<ConfigRow>, node: NodeId, wanted: seq<Item>, other: NodeId)
    requires SoundRows(rows) && other != node
    requires FirstConflict(rows, node, wanted).None?
    ensures NodeRows(SyncedRows(rows, node, wanted), other) == NodeRows(rows, other)
  {
    assert rows[..|rows|] == rows;
    KeptRowsSeenBy(rows, node, wanted, other, |rows|);
    NewRowsSeenBy(rows, node, wanted, other);
    NodeRowsConcat(KeptRows(rows, node, wanted), NewRows(rows, node, wanted), other);
  }

  // ---- what the table holds afterwards ------------------------------------------------------

  lemma {:induction false} KeptMembers(rows: seq<ConfigRow>, node: NodeId, wanted: seq<Item>, r: ConfigRow)
    ensures r in KeptRows(rows, node, wanted) <==>
      exists row :: row in rows && r in KeptRow(row, node, wanted)
  {
    if rows != [] {
      var n := |rows| - 1;
      assert rows == rows[..n] + [rows[n]];
      KeptMembers(rows[..n], node, wanted, r);
    }
  }

  lemma {:induction false} NewMembers(rows: seq<ConfigRow>, node: NodeId, wanted: seq<Item>, r: ConfigRow)
    ensures r in NewRows(rows, node, wanted) <==>
      exists x :: x in wanted && RowFor(rows, x.tag).None? && r == NewRow(x, node)
  {
    if wanted != [] {
      var n := |wanted| - 1;
      assert wanted == wanted[..n] + [wanted[n]];
      NewMembers(rows, node, wanted[..n], r);
    }
  }

  lemma {:induction false} KeptUnique(rows: seq<ConfigRow>, node: NodeId, wanted: seq<Item>)
    requires UniqueTags(rows)
    ensures UniqueTags(KeptRows(rows, node, wanted))
    ensures forall r :: r in KeptRows(rows, node, wanted) ==> exists row :: row in rows && row.tag == r.tag
  {
    if rows != [] {
      var n := |rows| - 1;
      assert rows == rows[..n] + [rows[n]];
      KeptUnique(rows[..n], node, wanted);
    }
  }

  lemma {:induction false} NewUnique(rows: seq<ConfigRow>, node: NodeId, wanted: seq<Item>)
    requires DistinctTags(wanted)
    ensures UniqueTags(NewRows(rows, node, wanted))
    ensures forall r :: r in NewRows(rows, node, wanted) ==>
      RowFor(rows, r.tag).None? && exists x :: x in wanted && x.tag == r.tag
  {
    if wanted != [] {
      var n := |wanted| - 1;
      assert wanted == wanted[..n] + [wanted[n]];
      NewUnique(rows, node, wanted[..n]);
    }
  }

  // The sync keeps the table's invariants: unique tags, tags repeated in contents, read-only rows
  // enabled.
  lemma SyncKeepsRowsSound(rows: seq<ConfigRow>, node: NodeId, wanted: seq<Item>)
    requires SoundRows(rows) && DistinctTags(wanted)
    requires forall x :: x in wanted ==> x.tag != ""
    ensures SoundRows(SyncedRows(rows, node, wanted))
    ensures CommaFree(rows) && (forall x :: x in wanted ==> ',' !in x.tag) ==> CommaFree(SyncedRows(rows, node, wanted))
  {
    var synced := SyncedRows(rows, node, wanted);
    KeptUnique(rows, node, wanted);
    NewUnique(rows, node, wanted);
    forall r | r in NewRows(rows, node, wanted) ensures forall row :: row in rows ==> row.tag != r.tag {
      RowForFinds(rows, r.tag);
    }
    forall r | r in synced
      ensures r.tag != "" && r.content.tag == r.tag && (r.readonly ==> r.enabled)
      ensures (exists row :: row in rows && row.tag == r.tag) || (exists x :: x in wanted && x.tag == r.tag)
    {
      SyncedRowSound(rows, node, wanted, r);
    }
  }

  lemma SyncedRowSound(rows: seq<ConfigRow>, node: NodeId, wanted: seq<Item>, r: ConfigRow)
    requires SoundRows(rows) && DistinctTags(wanted) && r in SyncedRows(rows, node, wanted)
    requires forall x :: x in wanted ==> x.tag != ""
    ensures r.tag != "" && r.content.tag == r.tag && (r.readonly ==> r.enabled)
    ensures (exists row :: row in rows && row.tag == r.tag) || (exists x :: x in wanted && x.tag == r.tag)
  {
    KeptMembers(rows, node, wanted, r);
    NewMembers(rows, node, wanted, r);
    FindFinds(wanted, r.tag);
  }

  // After the sync the node's read-only rows are exactly the template's entries, and its editable
  // rows are exactly the ones it had.
  lemma NodeOwnsExactlyTheTemplate(rows: seq<ConfigRow>, node: NodeId, wanted: seq<Item>, r: ConfigRow)
    requires SoundRows(rows) && DistinctTags(wanted)
    requires FirstConflict(rows, node, wanted).None?
    ensures r in SyncedRows(rows, node, wanted) && node in r.nodes && r.readonly ==>
      r.enabled && r.content in wanted && r.tag == r.content.tag
    ensures !r.readonly ==> (r in SyncedRows(rows, node, wanted) <==> r in rows)
    ensures !r.readonly && r in rows ==> Find(wanted, r.tag).None?
  {
    KeptMembers(rows, node, wanted, r);
    NewMembers(rows, node, wanted, r);
    FindFinds(wanted, r.tag);
    if r in SyncedRows(rows, node, wanted) && r.readonly && node in r.nodes
       && r in KeptRows(rows, node, wanted) {
      var row :| row in rows && r in KeptRow(row, node, wanted);
      assert row.tag == r.tag;
    }
    if !r.readonly {
      forall row | row in rows && r in KeptRow(row, node, wanted) ensures r == row {
        var i :| 0 <= i < |rows| && rows[i] == row;
        if Find(wanted, row.tag).Some? {
          WantedRow(rows, node, wanted, i);
        }
      }
      if r in rows {
        var i :| 0 <= i < |rows| && rows[i] == r;
        if Find(wanted, r.tag).Some? {
          WantedRow(rows, node, wanted, i);
        }
        assert r in KeptRow(r, node, wanted);
      }
    }
  }

  // A read-only, enabled row of the node holding exactly this template entry.
  ghost predicate Owns(r: ConfigRow, node: NodeId, x: Item) {
    r.tag == x.tag && r.content == x && r.enabled && r.readonly && node in r.nodes
  }

  // ... and every template entry has its row.
  lemma EveryEntryHasItsRow(rows: seq<ConfigRow>, node: NodeId, wanted: seq<Item>, x: Item)
    requires SoundRows(rows) && DistinctTags(wanted) && x in wanted
    requires FirstConflict(rows, node, wanted).None?
    ensures exists r :: r in SyncedRows(rows, node, wanted) && Owns(r, node, x)
  {
    FindUnique(wanted, x);
    RowForFinds(rows, x.tag);
    if RowFor(rows, x.tag).None? {
      NewMembers(rows, node, wanted, NewRow(x, node));
      assert NewRow(x, node) in SyncedRows(rows, node, wanted);
    } else {
      var row := RowFor(rows, x.tag).value;
      var i :| 0 <= i < |rows| && rows[i] == row;
      WantedRow(rows, node, wanted, i);
      var r := row.(content := x, enabled := true, nodes := row.nodes + {node});
      assert r in KeptRow(row, node, wanted);
      KeptMembers(rows, node, wanted, r);
      assert r in SyncedRows(rows, node, wanted);
    }
  }

  // ---- fixed points -------------------------------------------------------------------------

  // The table already agrees with the template, as a reader of the table could check.
  ghost predicate SettledRows(rows: seq<ConfigRow>, node: NodeId, wanted: seq<Item>) {
    && (forall x :: x in wanted ==> exists r :: r in rows && Owns(r, node, x))
    && (forall r :: r in rows && r.readonly && node in r.nodes ==> Find(wanted, r.tag).Some?)
  }

  lemma SettledKeepsRow(rows: seq<ConfigRow>, node: NodeId, wanted: seq<Item>, i: nat)
    requires SoundRows(rows) && DistinctTags(wanted) && SettledRows(rows, node, wanted) && i < |rows|
    ensures KeptRow(rows[i], node, wanted) == [rows[i]]
  {
    FindFinds(wanted, rows[i].tag);
    if Find(wanted, rows[i].tag).Some? {
      var x := Find(wanted, rows[i].tag).value;
      var r :| r in rows && Owns(r, node, x);
      assert r == rows[i];
      assert r.nodes + {node} == r.nodes;
    }
  }

  lemma {:induction false} KeptPrefix(rows: seq<ConfigRow>, node: NodeId, wanted: seq<Item>)
    requires forall i :: 0 <= i < |rows| ==> KeptRow(rows[i], node, wanted) == [rows[i]]
    ensures KeptRows(rows, node, wanted) == rows
  {
    if rows != [] {
      KeptPrefix(rows[..|rows| - 1], node, wanted);
    }
  }

  lemma {:induction false} NothingNew(rows: seq<ConfigRow>, node: NodeId, wanted: seq<Item>)
    requires forall x :: x in wanted ==> RowFor(rows, x.tag).Some?
    ensures NewRows(rows, node, wanted) == []
  {
    if wanted != [] {
      NothingNew(rows, node, wanted[..|wanted| - 1]);
    }
  }

  lemma {:induction false} NoRowConflicts(rows: seq<ConfigRow>, node: NodeId, wanted: seq<Item>)
    requires forall x :: x in wanted ==> RowConflict(rows, node, x).None?
    ensures FirstConflict(rows, node, wanted).None?
  {
    if wanted != [] {
      NoRowConflicts(rows, node, wanted[..|wanted| - 1]);
    }
  }

  lemma SettledIsFixed(rows: seq<ConfigRow>, node: NodeId, wanted: seq<Item>)
    requires SoundRows(rows) && DistinctTags(wanted) && SettledRows(rows, node, wanted)
    ensures FirstConflict(rows, node, wanted).None? && SyncedRows(rows, node, wanted) == rows
  {
    forall x | x in wanted
      ensures RowFor(rows, x.tag).Some? && RowConflict(rows, node, x).None?
    {
      var r :| r in rows && Owns(r, node, x);
      var i :| 0 <= i < |rows| && rows[i] == r;
      RowForUnique(rows, i);
    }
    NoRowConflicts(rows, node, wanted);
    forall i | 0 <= i < |rows| ensures KeptRow(rows[i], node, wanted) == [rows[i]] {
      SettledKeepsRow(rows, node, wanted, i);
    }
    KeptPrefix(rows, node, wanted);
    NothingNew(rows, node, wanted);
  }

  // The sync leaves the table as it is exactly when the table was settled.
  lemma FixedExactlyWhenSettled(rows: seq<ConfigRow>, node: NodeId, wanted: seq<Item>)
    requires SoundRows(rows) && DistinctTags(wanted)
    ensures FirstConflict(rows, node, wanted).None? && SyncedRows(rows, node, wanted) == rows
       <==> SettledRows(rows, node, wanted)
  {
    if SettledRows(rows, node, wanted) {
      SettledIsFixed(rows, node, wanted);
    } else if FirstConflict(rows, node, wanted).None? && SyncedRows(rows, node, wanted) == rows {
      forall x | x in wanted
        ensures exists r :: r in rows && Owns(r, node, x)
      {
        EveryEntryHasItsRow(rows, node, wanted, x);
      }
      forall r | r in rows && r.readonly && node in r.nodes ensures Find(wanted, r.tag).Some? {
        NodeOwnsExactlyTheTemplate(rows, node, wanted, r);
        FindFinds(wanted, r.tag);
      }
    }
  }

  // A sync settles the table, so a second one changes nothing.
  lemma SyncSettlesRows(rows: seq<ConfigRow>, node: NodeId, wanted: seq<Item>)
    requires SoundRows(rows) && DistinctTags(wanted)
    requires FirstConflict(rows, node, wanted).None?
    ensures SettledRows(SyncedRows(rows, node, wanted), node, wanted)
  {
    var synced := SyncedRows(rows, node, wanted);
    forall x | x in wanted
      ensures exists r :: r in synced && Owns(r, node, x)
    {
      EveryEntryHasItsRow(rows, node, wanted, x);
    }
    forall r | r in synced && r.readonly && node in r.nodes ensures Find(wanted, r.tag).Some? {
      NodeOwnsExactlyTheTemplate(rows, node, wanted, r);
      FindFinds(wanted, r.tag);
    }
  }
}
