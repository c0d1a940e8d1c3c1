/**
 Grouping picker rows by project (desktop/src/effect/pickerViewModel.ts:254-271),
 on which keyboard order depends. Rows carry the project key and label derived from
 their workspace.
 */
module PickerGroups {
  import opened Options

  type Key = string

  // `focusSeq` is the daemon's focus recency; older daemons do not send it.
  datatype Row = Row(paneId: string, key: Key, project: string, focusSeq: Option<int>)

  datatype Group = Group(key: Key, project: string, rows: seq<Row>)

  // ----- Specification -----

  /** The keys in the order they are first seen. */
  function Keys(rows: seq<Row>): seq<Key> {
    if rows == [] then []
    else
      var before, key := Keys(rows[..|rows| - 1]), rows[|rows| - 1].key;
      if key in before then before else before + [key]
  }

  /** A project's rows in order. */
  function RowsOf(rows: seq<Row>, key: Key): seq<Row> {
    if rows == [] then []
    else
      var before, row := RowsOf(rows[..|rows| - 1], key), rows[|rows| - 1];
      if row.key == key then before + [row] else before
  }

  function GroupOf(rows: seq<Row>, key: Key): Group {
    var own := RowsOf(rows, key);
    Group(key, if own == [] then "" else own[0].project, own)
  }

  function GroupsFor(rows: seq<Row>, keys: seq<Key>): seq<Group> {
    if keys == [] then [] else GroupsFor(rows, keys[..|keys| - 1]) + [GroupOf(rows, keys[|keys| - 1])]
  }

  /** One group for each project, in first-seen order. */
  function Grouped(rows: seq<Row>): seq<Group> {
    GroupsFor(rows, Keys(rows))
  }

  function Flatten(groups: seq<Group>): seq<Row> {
    if groups == [] then [] else Flatten(groups[..|groups| - 1]) + groups[|groups| - 1].rows
  }

  predicate DistinctKeys(keys: seq<Key>) {
    forall i, j :: 0 <= i < j < |keys| ==> keys[i] != keys[j]
  }

  // ----- The grouping loop -----

  lemma {:induction false} GroupAt(rows: seq<Row>, keys: seq<Key>, i: nat)
    requires i < |keys|
    ensures |GroupsFor(rows, keys)| == |keys| && GroupsFor(rows, keys)[i] == GroupOf(rows, keys[i])
    decreases |keys|
  {
    var n := |keys| - 1;
    if n > 0 {
      GroupAt(rows, keys[..n], if i < n then i else 0);
    }
  }

  lemma {:induction false} GroupsLength(rows: seq<Row>, keys: seq<Key>)
    ensures |GroupsFor(rows, keys)| == |keys|
    decreases |keys|
  {
    if keys != [] {
      GroupsLength(rows, keys[..|keys| - 1]);
    }
  }

  /** What holds after the first i rows: the groups are those rows' groups, and the
      index knows where each is. */
  ghost predicate Indexed(rows: seq<Row>, groups: seq<Group>, index: map<Key, nat>) {
    && groups == Grouped(rows)
    && |groups| == |Keys(rows)|
    && (forall key :: key in index <==> key in Keys(rows))
    && (forall key :: key in index ==> index[key] < |groups| && Keys(rows)[index[key]] == key)
  }

  method GroupRowsByProject(rows: seq<Row>) returns (groups: seq<Group>)
    ensures groups == Grouped(rows)
  {
    groups := [];
    var index: map<Key, nat> := map[];
    for i := 0 to |rows|
      invariant Indexed(rows[..i], groups, index)
    {
      var row := rows[i];
      assert rows[..i + 1] == rows[..i] + [row];
      if row.key !in index {
        NewProject(rows[..i], groups, index, row);
        index := index[row.key := |groups|];
        groups := groups + [Group(row.key, row.project, [row])];
      } else {
        KnownProject(rows[..i], groups, index, row);
        var at := index[row.key];
        groups := groups[at := groups[at].(rows := groups[at].rows + [row])];
      }
    }
    assert rows[..|rows|] == rows;
  }

  lemma RowsSnoc(rows: seq<Row>, row: Row, key: Key)
    ensures RowsOf(rows + [row], key) == RowsOf(rows, key) + (if row.key == key then [row] else [])
    ensures Keys(rows + [row]) == if row.key in Keys(rows) then Keys(rows) else Keys(rows) + [row.key]
  {
    assert (rows + [row])[..|rows|] == rows;
  }

  lemma {:induction false} KeysAreSeen(rows: seq<Row>, key: Key)
    ensures key in Keys(rows) <==> RowsOf(rows, key) != []
    ensures DistinctKeys(Keys(rows))
    decreases |rows|
  {
    if rows != [] {
      KeysAreSeen(rows[..|rows| - 1], key);
    }
  }

  lemma {:induction false} GroupsOfOthers(rows: seq<Row>, row: Row, keys: seq<Key>)
    requires row.key !in keys
    ensures GroupsFor(rows + [row], keys) == GroupsFor(rows, keys)
    decreases |keys|
  {
    if keys != [] {
      var n := |keys| - 1;
      GroupsOfOthers(rows, row, keys[..n]);
      RowsSnoc(rows, row, keys[n]);
    }
  }

  lemma NewProjectGroups(rows: seq<Row>, row: Row)
    requires row.key !in Keys(rows)
    ensures Grouped(rows + [row]) == Grouped(rows) + [Group(row.key, row.project, [row])]
  {
    var keys := Keys(rows);
    RowsSnoc(rows, row, row.key);
    KeysAreSeen(rows, row.key);
    GroupsOfOthers(rows, row, keys);
    assert (keys + [row.key])[..|keys|] == keys;
    assert RowsOf(rows + [row], row.key) == [row];
  }

  lemma NewProject(rows: seq<Row>, groups: seq<Group>, index: map<Key, nat>, row: Row)
    requires Indexed(rows, groups, index) && row.key !in index
    ensures Indexed(rows + [row], groups + [Group(row.key, row.project, [row])], index[row.key := |groups|])
  {
    NewProjectGroups(rows, row);
    RowsSnoc(rows, row, row.key);
  }

  lemma KnownProject(rows: seq<Row>, groups: seq<Group>, index: map<Key, nat>, row: Row)
    requires Indexed(rows, groups, index) && row.key in index
    ensures var at := index[row.key];
            Indexed(rows + [row], groups[at := groups[at].(rows := groups[at].rows + [row])], index)
  {
    var keys, at := Keys(rows), index[row.key];
    RowsSnoc(rows, row, row.key);
    KeysAreSeen(rows, row.key);
    GroupsLength(rows + [row], keys);
    var after, want := groups[at := groups[at].(rows := groups[at].rows + [row])], GroupsFor(rows + [row], keys);
    forall i | 0 <= i < |keys|
      ensures after[i] == want[i]
    {
      GroupAt(rows, keys, i);
      GroupAt(rows + [row], keys, i);
      RowsSnoc(rows, row, keys[i]);
    }
    assert after == want;
  }

  // ----- Order, permutation, idempotence -----

  lemma {:induction false} RowsConcat(a: seq<Row>, b: seq<Row>, key: Key)
    ensures RowsOf(a + b, key) == RowsOf(a, key) + RowsOf(b, key)
    decreases |b|
  {
    if b == [] {
      assert a + b == a;
    } else {
      var n := |b| - 1;
      RowsConcat(a, b[..n], key);
      assert a + b == (a + b[..n]) + [b[n]];
      RowsSnoc(a + b[..n], b[n], key);
    }
  }

  lemma {:induction false} RowsOfRows(rows: seq<Row>, key: Key, other: Key)
    ensures RowsOf(RowsOf(rows, key), other) == if key == other then RowsOf(rows, key) else []
    ensures forall row :: row in RowsOf(rows, key) ==> row.key == key
    decreases |rows|
  {
    if rows != [] {
      var n := |rows| - 1;
      RowsOfRows(rows[..n], key, other);
      RowsSnoc(RowsOf(rows[..n], key), rows[n], other);
    }
  }

  lemma FlattenLast(rows: seq<Row>, keys: seq<Key>)
    requires keys != []
    ensures var n := |keys| - 1;
            Flatten(GroupsFor(rows, keys)) == Flatten(GroupsFor(rows, keys[..n])) + RowsOf(rows, keys[n])
  {
    var before := GroupsFor(rows, keys[..|keys| - 1]);
    assert GroupsFor(rows, keys)[..|before|] == before;
  }

  lemma {:induction false} FlattenedRows(rows: seq<Row>, keys: seq<Key>, key: Key)
    requires DistinctKeys(keys)
    ensures RowsOf(Flatten(GroupsFor(rows, keys)), key) == if key in keys then RowsOf(rows, key) else []
    decreases |keys|
  {
    if keys != [] {
      var n := |keys| - 1;
      FlattenedRows(rows, keys[..n], key);
      FlattenLast(rows, keys);
      RowsConcat(Flatten(GroupsFor(rows, keys[..n])), RowsOf(rows, keys[n]), key);
      RowsOfRows(rows, keys[n], key);
    }
  }

  /** Each project's rows come out in their old order, and nothing else. */
  lemma FlatteningKeepsOrder(rows: seq<Row>, key: Key)
    ensures RowsOf(Flatten(Grouped(rows)), key) == RowsOf(rows, key)
  {
    KeysAreSeen(rows, key);
    FlattenedRows(rows, Keys(rows), key);
  }

  lemma {:induction false} CountByKey(rows: seq<Row>, row: Row)
    ensures multiset(RowsOf(rows, row.key))[row] == multiset(rows)[row]
    decreases |rows|
  {
    if rows != [] {
      var n := |rows| - 1;
      CountByKey(rows[..n], row);
      assert rows == rows[..n] + [rows[n]];
    }
  }

  lemma FlatteningIsAPermutation(rows: seq<Row>)
    ensures multiset(Flatten(Grouped(rows))) == multiset(rows)
  {
    forall row: Row
      ensures multiset(Flatten(Grouped(rows)))[row] == multiset(rows)[row]
    {
      FlatteningKeepsOrder(rows, row.key);
      CountByKey(rows, row);
      CountByKey(Flatten(Grouped(rows)), row);
    }
  }

  lemma {:induction false} KeysOfOneProject(a: seq<Row>, b: seq<Row>, key: Key)
    requires b != [] && forall row :: row in b ==> row.key == key
    ensures Keys(a + b) == if key in Keys(a) then Keys(a) else Keys(a) + [key]
    decreases |b|
  {
    var n := |b| - 1;
    assert a + b == (a + b[..n]) + [b[n]];
    assert b[n] in b;
    RowsSnoc(a + b[..n], b[n], key);
    if n == 0 {
      assert a + b[..n] == a;
    } else {
      KeysOfOneProject(a, b[..n], key);
    }
  }

  lemma {:induction false} FlattenedKeys(rows: seq<Row>, keys: seq<Key>)
    requires DistinctKeys(keys) && forall key :: key in keys ==> RowsOf(rows, key) != []
    ensures Keys(Flatten(GroupsFor(rows, keys))) == keys
    decreases |keys|
  {
    if keys != [] {
      var n := |keys| - 1;
      assert keys[n] in keys;
      FlattenedKeys(rows, keys[..n]);
      FlattenLast(rows, keys);
      RowsOfRows(rows, keys[n], keys[n]);
      KeysOfOneProject(Flatten(GroupsFor(rows, keys[..n])), RowsOf(rows, keys[n]), keys[n]);
    }
  }

  lemma FlatteningKeepsKeys(rows: seq<Row>)
    ensures DistinctKeys(Keys(rows)) && Keys(Flatten(Grouped(rows))) == Keys(rows)
  {
    forall key | key in Keys(rows)
      ensures RowsOf(rows, key) != []
    {
      KeysAreSeen(rows, key);
    }
    KeysAreSeen(rows, "");
    FlattenedKeys(rows, Keys(rows));
  }

  lemma {:induction false} SameRowsSameGroups(a: seq<Row>, b: seq<Row>, keys: seq<Key>)
    requires forall key :: RowsOf(a, key) == RowsOf(b, key)
    ensures GroupsFor(a, keys) == GroupsFor(b, keys)
    decreases |keys|
  {
    if keys != [] {
      SameRowsSameGroups(a, b, keys[..|keys| - 1]);
    }
  }

  /** Grouping the flattened rows gives the same groups: what is rendered flattens to
      exactly the rows the keyboard walks. */
  lemma GroupingIsIdempotent(rows: seq<Row>)
    ensures Grouped(Flatten(Grouped(rows))) == Grouped(rows)
    ensures Flatten(Grouped(Flatten(Grouped(rows)))) == Flatten(Grouped(rows))
  {
    FlatteningKeepsKeys(rows);
    forall key
      ensures RowsOf(Flatten(Grouped(rows)), key) == RowsOf(rows, key)
    {
      FlatteningKeepsOrder(rows, key);
    }
    SameRowsSameGroups(Flatten(Grouped(rows)), rows, Keys(rows));
  }

  // ----- When grouping moves nothing -----

  /** Between two rows of a project lie only rows of that project. */
  predicate Contiguous(rows: seq<Row>) {
    forall i, j, k :: 0 <= i < j < k < |rows| && rows[i].key == rows[k].key ==> rows[j].key == rows[i].key
  }

  lemma KeyIsSomewhere(rows: seq<Row>, key: Key) returns (i: nat)
    requires key in Keys(rows)
    ensures i < |rows| && rows[i].key == key
  {
    KeysAreSeen(rows, key);
    RowsOfRows(rows, key, key);
    RowsAreRows(rows, key);
    var row := RowsOf(rows, key)[0];
    assert row in RowsOf(rows, key);
    i :| 0 <= i < |rows| && rows[i] == row;
  }

  lemma {:induction false} RowsAreRows(rows: seq<Row>, key: Key)
    ensures forall row :: row in RowsOf(rows, key) ==> row in rows
    decreases |rows|
  {
    if rows != [] {
      RowsAreRows(rows[..|rows| - 1], key);
    }
  }

  lemma OneMoreProjectIsContiguous(a: seq<Row>, b: seq<Row>, key: Key)
    requires Contiguous(a) && RowsOf(a, key) == []
    requires forall row :: row in b ==> row.key == key
    ensures Contiguous(a + b)
  {
    forall i | 0 <= i < |a|
      ensures a[i].key != key
    {
      AbsentKey(a, key, i);
    }
  }

  lemma {:induction false} AbsentKey(rows: seq<Row>, key: Key, i: nat)
    requires RowsOf(rows, key) == [] && i < |rows|
    ensures rows[i].key != key
    decreases |rows|
  {
    if i < |rows| - 1 {
      AbsentKey(rows[..|rows| - 1], key, i);
    }
  }

  lemma {:induction false} FlattenedIsContiguous(rows: seq<Row>, keys: seq<Key>)
    requires DistinctKeys(keys)
    ensures Contiguous(Flatten(GroupsFor(rows, keys)))
    decreases |keys|
  {
    if keys != [] {
      var n := |keys| - 1;
      FlattenedIsContiguous(rows, keys[..n]);
      FlattenLast(rows, keys);
      FlattenedRows(rows, keys[..n], keys[n]);
      RowsOfRows(rows, keys[n], keys[n]);
      OneMoreProjectIsContiguous(Flatten(GroupsFor(rows, keys[..n])), RowsOf(rows, keys[n]), keys[n]);
    }
  }

  lemma {:induction false} LastKeyIsLast(rows: seq<Row>)
    requires Contiguous(rows) && rows != []
    ensures Keys(rows) != [] && Keys(rows)[|Keys(rows)| - 1] == rows[|rows| - 1].key
    decreases |rows|
  {
    var n := |rows| - 1;
    var before := rows[..n];
    if rows[n].key in Keys(before) {
      var i := KeyIsSomewhere(before, rows[n].key);
      assert before[i].key == before[n - 1].key;
      LastKeyIsLast(before);
    }
  }

  lemma {:induction false} ContiguousStays(rows: seq<Row>)
    requires Contiguous(rows)
    ensures Flatten(Grouped(rows)) == rows
    decreases |rows|
  {
    if rows != [] {
      var n := |rows| - 1;
      var before, row := rows[..n], rows[n];
      assert rows == before + [row];
      ContiguousStays(before);
      if row.key in Keys(before) {
        RowsSnoc(before, row, row.key);
        LastKeyIsLast(rows);
        KeysAreSeen(before, row.key);
        GrowsLastGroup(before, row, Keys(before));
      } else {
        AddsLastGroup(before, row);
      }
    }
  }

  lemma AddsLastGroup(rows: seq<Row>, row: Row)
    requires row.key !in Keys(rows)
    ensures Flatten(Grouped(rows + [row])) == Flatten(Grouped(rows)) + [row]
  {
    NewProjectGroups(rows, row);
    assert Grouped(rows + [row])[..|Grouped(rows)|] == Grouped(rows);
  }

  lemma GrowsLastGroup(rows: seq<Row>, row: Row, keys: seq<Key>)
    requires keys != [] && keys[|keys| - 1] == row.key && row.key !in keys[..|keys| - 1]
    ensures Flatten(GroupsFor(rows + [row], keys)) == Flatten(GroupsFor(rows, keys)) + [row]
  {
    var n := |keys| - 1;
    GroupsOfOthers(rows, row, keys[..n]);
    RowsSnoc(rows, row, row.key);
    FlattenLast(rows, keys);
    FlattenLast(rows + [row], keys);
    AppendAssociates(Flatten(GroupsFor(rows, keys[..n])), RowsOf(rows, row.key), row);
  }

  lemma AppendAssociates(a: seq<Row>, b: seq<Row>, row: Row)
    ensures a + (b + [row]) == a + b + [row]
  {
  }

  /** Grouping moves no row exactly if each project's rows are already together. */
  lemma GroupingIsIdentityIffContiguous(rows: seq<Row>)
    ensures Flatten(Grouped(rows)) == rows <==> Contiguous(rows)
  {
    KeysAreSeen(rows, "");
    FlattenedIsContiguous(rows, Keys(rows));
    if Contiguous(rows) {
      ContiguousStays(rows);
    }
  }

  // ----- Labels -----

  lemma {:induction false} FirstRowOf(rows: seq<Row>, key: Key) returns (i: nat)
    requires key in Keys(rows)
    ensures i < |rows| && rows[i].key == key && forall k :: 0 <= k < i ==> rows[k].key != key
    ensures RowsOf(rows, key) != [] && RowsOf(rows, key)[0] == rows[i]
    decreases |rows|
  {
    var n := |rows| - 1;
    assert rows == rows[..n] + [rows[n]];
    RowsSnoc(rows[..n], rows[n], key);
    if key in Keys(rows[..n]) {
      i := FirstRowOf(rows[..n], key);
    } else {
      i := n;
      KeysAreSeen(rows[..n], key);
      forall k | 0 <= k < n
        ensures rows[k].key != key
      {
        AbsentKey(rows[..n], key, k);
      }
    }
  }

  /** Each group is headed by the label of its project's first row. */
  lemma GroupIsHeadedByItsFirstRow(rows: seq<Row>, g: nat)
    requires g < |Grouped(rows)|
    ensures exists i :: 0 <= i < |rows| && rows[i].key == Grouped(rows)[g].key && Grouped(rows)[g].project == rows[i].project
                        && forall k :: 0 <= k < i ==> rows[k].key != rows[i].key
  {
    GroupsLength(rows, Keys(rows));
    GroupAt(rows, Keys(rows), g);
    var i := FirstRowOf(rows, Keys(rows)[g]);
  }
}
