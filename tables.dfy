/** Reading a whole table, as `Model.objects.all()` does. */
module Tables {
  /** The rows of `table` as (id, record) pairs: each row exactly once, in an order the
      database chooses (modelled by an arbitrary choice of the next key). */
  method AllRows<T>(table: map<nat, T>) returns (rows: seq<(nat, T)>)
    ensures forall i :: 0 <= i < |rows| ==> rows[i].0 in table && table[rows[i].0] == rows[i].1
    ensures forall id :: id in table ==> exists i :: 0 <= i < |rows| && rows[i].0 == id
    ensures forall i, j :: 0 <= i < j < |rows| ==> rows[i].0 != rows[j].0
  {
    var pending := table.Keys;
    rows := [];
    while pending != {}
      invariant pending <= table.Keys
      invariant forall i :: 0 <= i < |rows| ==> rows[i].0 in table && rows[i].0 !in pending && table[rows[i].0] == rows[i].1
      invariant forall id :: id in table && id !in pending ==> exists i :: 0 <= i < |rows| && rows[i].0 == id
      invariant forall i, j :: 0 <= i < j < |rows| ==> rows[i].0 != rows[j].0
      decreases pending
    {
      var id :| id in pending;
      ghost var before := rows;
      rows := rows + [(id, table[id])];
      assert forall i :: 0 <= i < |before| ==> rows[i] == before[i];
      assert rows[|before|].0 == id;
      pending := pending - {id};
    }
  }
}
