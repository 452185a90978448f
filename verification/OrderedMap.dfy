/** Insertion-ordered maps, as JavaScript's objects and Maps keep them. */
module OrderedMap {

  // Setting an existing key keeps its position.
  function Put<V>(table: seq<(string, V)>, key: string, value: V): seq<(string, V)> {
    if table == [] then [(key, value)]
    else if table[0].0 == key then [(key, value)] + table[1..]
    else [table[0]] + Put(table[1..], key, value)
  }

  function KeysOf<V>(table: seq<(string, V)>): seq<string> {
    seq(|table|, i requires 0 <= i < |table| => table[i].0)
  }

  ghost predicate Unique<V>(table: seq<(string, V)>) {
    forall i, j :: 0 <= i < j < |table| ==> table[i].0 != table[j].0
  }

  lemma {:induction false} PutKeepsPositions<V>(table: seq<(string, V)>, key: string, value: V)
    ensures KeysOf(Put(table, key, value)) == KeysOf(table) + (if key in KeysOf(table) then [] else [key])
  {
    if table != [] {
      assert KeysOf(table) == [table[0].0] + KeysOf(table[1..]);
      if table[0].0 != key {
        PutKeepsPositions(table[1..], key, value);
        assert KeysOf(Put(table, key, value)) == [table[0].0] + KeysOf(Put(table[1..], key, value));
      } else {
        assert KeysOf(Put(table, key, value)) == KeysOf(table);
      }
    }
  }

  lemma TailApart<V>(table: seq<(string, V)>)
    requires Unique(table) && table != []
    ensures Unique(table[1..])
    ensures forall e :: e in table <==> e == table[0] || e in table[1..]
    ensures forall e <- table[1..] :: e.0 != table[0].0
  {
    assert table == [table[0]] + table[1..];
    forall e | e in table[1..] ensures e.0 != table[0].0 {
      var i :| 0 <= i < |table[1..]| && table[1..][i] == e;
      assert table[i + 1] == e;
    }
  }

  lemma {:induction false} PutMembers<V>(table: seq<(string, V)>, key: string, value: V)
    requires Unique(table)
    ensures forall e :: e in Put(table, key, value) <==> e == (key, value) || (e in table && e.0 != key)
  {
    if table != [] {
      TailApart(table);
      var t := Put(table, key, value);
      if table[0].0 == key {
        assert forall e :: e in t <==> e == (key, value) || e in table[1..];
      } else {
        PutMembers(table[1..], key, value);
        assert forall e :: e in t <==> e == table[0] || e in Put(table[1..], key, value);
      }
    }
  }

  lemma PutUnique<V>(table: seq<(string, V)>, key: string, value: V)
    requires Unique(table)
    ensures Unique(Put(table, key, value))
  {
    var t := Put(table, key, value);
    PutKeepsPositions(table, key, value);
    forall i, j | 0 <= i < j < |t| ensures t[i].0 != t[j].0 {
      assert t[i].0 == KeysOf(t)[i] && t[j].0 == KeysOf(t)[j];
      assert forall k | 0 <= k < |table| :: KeysOf(t)[k] == table[k].0;
      if j == |table| { assert KeysOf(table)[i] == table[i].0; }
    }
  }
}
