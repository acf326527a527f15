/** The list of tables the script reformats: every directory entry whose
    name ends in the three letters `csv`, prefixed by the root path, in
    listing order. The suffix is `csv`, not `.csv`, so `data_csv` is kept. */
module Tables {
  import opened Strings

  predicate IsCsvName(name: string)
  {
    EndsWith(name, "csv")
  }

  /** `[root + t for t in listing if t.endswith('csv')]` */
  function CsvTables(root: string, listing: seq<string>): (r: seq<string>)
    ensures |r| <= |listing|
    ensures forall p :: p in r ==> exists t :: t in listing && IsCsvName(t) && p == root + t
  {
    if |listing| == 0 then []
    else if IsCsvName(listing[0]) then [root + listing[0]] + CsvTables(root, listing[1..])
    else CsvTables(root, listing[1..])
  }

  /** The filter distributes over a listing split in two: entries keep their
      relative order. */
  lemma {:induction false} CsvTablesAppend(root: string, a: seq<string>, b: seq<string>)
    ensures CsvTables(root, a + b) == CsvTables(root, a) + CsvTables(root, b)
  {
    if |a| == 0 {
      assert a + b == b;
    } else {
      assert (a + b)[1..] == a[1..] + b;
      CsvTablesAppend(root, a[1..], b);
    }
  }

  /** Every `csv` entry of the listing gives a table path. */
  lemma {:induction false} CsvTablesComplete(root: string, listing: seq<string>)
    ensures forall t :: t in listing && IsCsvName(t) ==> root + t in CsvTables(root, listing)
  {
    if |listing| > 0 {
      CsvTablesComplete(root, listing[1..]);
      forall t | t in listing && IsCsvName(t)
        ensures root + t in CsvTables(root, listing)
      {
        if t != listing[0] {
          assert t in listing[1..];
        }
      }
    }
  }

  /** A single entry gives its path exactly when it ends in `csv`; with
      `CsvTablesAppend` this determines the list for every listing. */
  lemma CsvTablesSingle(root: string, t: string)
    ensures CsvTables(root, [t]) == if IsCsvName(t) then [root + t] else []
  {
    assert [t][1..] == [];
  }

  /** `os.listdir` giving `a.csv`, `b.txt` and `data_csv`: the text file is
      dropped and the other two are kept, in order. */
  lemma CsvTablesExample(root: string)
    ensures CsvTables(root, ["a.csv", "b.txt", "data_csv"]) == [root + "a.csv", root + "data_csv"]
  {
    assert !IsCsvName("b.txt") by { assert "b.txt"[2..] == "txt"; }
    assert IsCsvName("data_csv") by { assert "data_csv"[5..] == "csv"; }
    CsvTablesSingle(root, "a.csv");
    CsvTablesSingle(root, "b.txt");
    CsvTablesSingle(root, "data_csv");
    CsvTablesAppend(root, ["a.csv"], ["b.txt"]);
    CsvTablesAppend(root, ["a.csv", "b.txt"], ["data_csv"]);
    assert ["a.csv"] + ["b.txt"] == ["a.csv", "b.txt"];
    assert ["a.csv", "b.txt"] + ["data_csv"] == ["a.csv", "b.txt", "data_csv"];
  }
}
