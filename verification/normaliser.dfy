/** The per-row pass of `readcsv` (DBHDD/NSDUH/FormatFields.py:13-22), over the
    rows `csv.reader` has already parsed. A row whose first field is exactly
    `"Order"`, or whose first field's four-character prefix is `"NOTE"`, has
    every newline in every field turned into a space; other rows pass through
    untouched. */
module Normaliser {
  import opened Wrappers
  import opened Strings

  type Row = seq<string>

  /** Python raises `IndexError` on `line[0]` of an empty row (a blank line);
      the error carries the position of that row. */
  datatype RowError = EmptyRow(index: nat)

  /** The trigger of line 17. `Prefix` is Python's `[:4]`, so a first field
      shorter than four characters never matches `"NOTE"`. */
  predicate Triggered(row: Row)
    requires |row| > 0
    ensures Triggered(row) <==> row[0] == "Order" || (|row[0]| >= 4 && row[0][..4] == "NOTE")
  {
    row[0] == "Order" || Prefix(row[0], 4) == "NOTE"
  }

  /** `' '.join(field.split('\n'))` of line 19: same length, every newline
      replaced by a space and every other character kept. */
  function Collapse(field: string): (r: string)
    ensures |r| == |field|
    ensures forall i :: 0 <= i < |field| ==> r[i] == (if field[i] == '\n' then ' ' else field[i])
    ensures '\n' !in r
  {
    SplitJoinReplaces(field, '\n', ' ');
    Join(" ", SplitOn(field, '\n'))
  }

  /** Lines 17-19 for one row. */
  function NormaliseRow(row: Row): (r: Row)
    requires |row| > 0
    ensures |r| == |row|
    ensures !Triggered(row) ==> r == row
    ensures Triggered(row) ==> forall i :: 0 <= i < |row| ==> r[i] == Collapse(row[i])
  {
    if Triggered(row) then seq(|row|, i requires 0 <= i < |row| => Collapse(row[i])) else row
  }

  /** The loop of lines 14-22: every row normalised, order kept, or the first
      empty row reported. */
  function NormaliseRows(rows: seq<Row>): (r: Result<seq<Row>, RowError>)
    ensures r.Success? <==> forall i :: 0 <= i < |rows| ==> |rows[i]| > 0
    ensures r.Success? ==> |r.value| == |rows|
    ensures r.Success? ==> forall i :: 0 <= i < |rows| ==> r.value[i] == NormaliseRow(rows[i])
    ensures r.Failure? ==> r.error.index < |rows| && |rows[r.error.index]| == 0
    ensures r.Failure? ==> forall j :: 0 <= j < r.error.index ==> |rows[j]| > 0
  {
    if |rows| == 0 then Success([])
    else if |rows[0]| == 0 then Failure(EmptyRow(0))
    else
      match NormaliseRows(rows[1..])
      case Success(rest) => Success([NormaliseRow(rows[0])] + rest)
      case Failure(EmptyRow(k)) => Failure(EmptyRow(k + 1))
  }

  /** Collapsing a field with no newline leaves it as it is. */
  lemma CollapseNoNewline(field: string)
    requires '\n' !in field
    ensures Collapse(field) == field
  {
    var r := Collapse(field);
    assert forall i :: 0 <= i < |field| ==> r[i] == field[i];
  }

  /** A triggered row stays triggered once collapsed: neither `"Order"` nor
      `"NOTE"` holds a newline, so collapsing keeps them. */
  lemma CollapseKeepsTrigger(row: Row)
    requires |row| > 0 && Triggered(row)
    ensures Triggered(NormaliseRow(row))
  {
    var f, g := row[0], NormaliseRow(row)[0];
    assert g == Collapse(f);
    if f == "Order" {
      CollapseNoNewline(f);
    } else {
      assert f[..4] == "NOTE";
      assert g[..4] == "NOTE" by {
        forall i | 0 <= i < 4
          ensures g[i] == "NOTE"[i]
        {
          assert f[i] == "NOTE"[i];
        }
      }
    }
  }

  /** Normalising a row twice is normalising it once. */
  lemma NormaliseRowIdempotent(row: Row)
    requires |row| > 0
    ensures NormaliseRow(NormaliseRow(row)) == NormaliseRow(row)
  {
    if Triggered(row) {
      CollapseKeepsTrigger(row);
      var r := NormaliseRow(row);
      forall i | 0 <= i < |r|
        ensures Collapse(r[i]) == r[i]
      {
        CollapseNoNewline(r[i]);
      }
    }
  }

  /** A second pass over `readcsv`'s output succeeds and changes nothing. */
  lemma NormaliseRowsIdempotent(rows: seq<Row>)
    requires NormaliseRows(rows).Success?
    ensures NormaliseRows(NormaliseRows(rows).value) == NormaliseRows(rows)
  {
    var out := NormaliseRows(rows).value;
    forall i | 0 <= i < |out|
      ensures |out[i]| > 0 && NormaliseRow(out[i]) == out[i]
    {
      NormaliseRowIdempotent(rows[i]);
    }
    var again := NormaliseRows(out).value;
    assert |again| == |out|;
    assert forall i :: 0 <= i < |out| ==> again[i] == out[i];
  }

  /** A triggered row keeps its shape: same number of fields, each of the
      same length, none holding a newline. */
  lemma TriggeredRowShape(row: Row)
    requires |row| > 0 && Triggered(row)
    ensures |NormaliseRow(row)| == |row|
    ensures forall i :: 0 <= i < |row| ==> |NormaliseRow(row)[i]| == |row[i]|
    ensures forall i :: 0 <= i < |row| ==> '\n' !in NormaliseRow(row)[i]
  {
  }

  /** `Collapse` is pinned down by its per-character contract. */
  lemma CollapseIs(field: string, expected: string)
    requires |expected| == |field|
    requires forall i :: 0 <= i < |field| ==> expected[i] == (if field[i] == '\n' then ' ' else field[i])
    ensures Collapse(field) == expected
  {
  }

  /** A triggered row normalises to `expected` when `expected` is the row
      with newlines replaced by spaces, field by field. */
  lemma CollapsedRow(row: Row, expected: Row)
    requires |row| > 0 && Triggered(row) && |expected| == |row|
    requires forall k :: 0 <= k < |row| ==> |expected[k]| == |row[k]|
    requires forall k, i :: 0 <= k < |row| && 0 <= i < |row[k]| ==>
               expected[k][i] == (if row[k][i] == '\n' then ' ' else row[k][i])
    ensures NormaliseRow(row) == expected
  {
    forall k | 0 <= k < |row|
      ensures NormaliseRow(row)[k] == expected[k]
    {
      CollapseIs(row[k], expected[k]);
    }
  }

  /** An `"Order"` row has its embedded newline collapsed. */
  lemma OrderRowExample()
    ensures NormaliseRow(["Order", "line1\nline2", "x"]) == ["Order", "line1 line2", "x"]
  {
    var row := ["Order", "line1\nline2", "x"];
    assert Triggered(row);
    CollapsedRow(row, ["Order", "line1 line2", "x"]);
  }

  /** A row starting with `"1"` is kept, newline and all. */
  lemma PlainRowExample()
    ensures NormaliseRow(["1", "a\nb", "c"]) == ["1", "a\nb", "c"]
  {
  }

  /** A `"NOTE"` prefix triggers; a shorter or differently cased one does not. */
  lemma NotePrefixExample()
    ensures NormaliseRow(["NOTE:\n1", "a\nb"]) == ["NOTE: 1", "a b"]
    ensures !Triggered(["NOT", "a\nb"]) && !Triggered(["Note", "a\nb"]) && !Triggered(["Orders"])
  {
    var row := ["NOTE:\n1", "a\nb"];
    assert Triggered(row) by {
      assert row[0][..4] == "NOTE";
    }
    CollapsedRow(row, ["NOTE: 1", "a b"]);
  }

  /** A blank line in the middle of the file is an error at its position. */
  lemma EmptyRowExample()
    ensures NormaliseRows([["1"], [], ["Order"]]) == Failure(EmptyRow(1))
  {
  }
}
