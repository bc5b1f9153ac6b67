/**
 The project subset filter: from the rows of the projects table, the projects
 whose value in a chosen column equals a chosen type, in table order. Reading
 the table is left to the caller; the filter sees its rows.
 */
module ProjectSubset {

  /** One row of the projects table: the project and its value in the chosen column. */
  datatype Row = Row(project: string, value: string)

  /** The projects of `rows` whose column value is `kind`, in row order. */
  function Subset(rows: seq<Row>, kind: string): (r: seq<string>)
    ensures |r| <= |rows|
    ensures forall p :: p in r <==> exists i | 0 <= i < |rows| :: rows[i].project == p && rows[i].value == kind
  {
    if |rows| == 0 then []
    else
      var rest := Subset(rows[1..], kind);
      assert forall i | 1 <= i < |rows| :: rows[i] == rows[1..][i - 1];
      if rows[0].value == kind then [rows[0].project] + rest else rest
  }

  /** Filtering a table is filtering its two halves and joining the results. */
  lemma {:induction false} SubsetConcat(a: seq<Row>, b: seq<Row>, kind: string)
    ensures Subset(a + b, kind) == Subset(a, kind) + Subset(b, kind)
  {
    if |a| > 0 {
      SubsetConcat(a[1..], b, kind);
      assert (a + b)[1..] == a[1..] + b;
    } else {
      assert a + b == b;
    }
  }

  /** The filter keeps table order: of two matching rows, the earlier one's
      project comes first in the result. */
  lemma SubsetKeepsOrder(rows: seq<Row>, kind: string, i: nat, j: nat)
    requires i < j < |rows| && rows[i].value == kind && rows[j].value == kind
    ensures exists k, l | 0 <= k < l < |Subset(rows, kind)| ::
              Subset(rows, kind)[k] == rows[i].project && Subset(rows, kind)[l] == rows[j].project
  {
    var front := rows[..j];
    var back := rows[j..];
    assert rows == front + back;
    SubsetConcat(front, back, kind);
    assert front[i] == rows[i];
    var sf := Subset(front, kind);
    assert rows[i].project in sf;
    var k :| 0 <= k < |sf| && sf[k] == rows[i].project;
    assert back[0] == rows[j];
    assert Subset(back, kind)[0] == rows[j].project;
    assert Subset(rows, kind)[k] == rows[i].project;
    assert Subset(rows, kind)[|sf|] == rows[j].project;
  }

  /** The filter as a single pass over the rows, appending each matching project. */
  method DetermineProjectSubset(rows: seq<Row>, kind: string) returns (subset: seq<string>)
    ensures subset == Subset(rows, kind)
  {
    subset := [];
    var i := 0;
    while i < |rows|
      invariant 0 <= i <= |rows|
      invariant subset == Subset(rows[..i], kind)
    {
      SubsetConcat(rows[..i], [rows[i]], kind);
      assert rows[..i + 1] == rows[..i] + [rows[i]];
      if rows[i].value == kind {
        subset := subset + [rows[i].project];
      }
      i := i + 1;
    }
    assert rows[..i] == rows;
  }
}
