/** `urlxlsx` (DBHDD/NSDUH/FormatFields.py:5-11): the workbook, already read,
    loses its first sheet (the table of contents) and every other sheet is
    written to a CSV file named after the second space-separated word of the
    sheet's name. The spreadsheet reader and the CSV serialiser are outside the
    model: a sheet's table is an opaque payload, and a write is recorded as the
    path it goes to together with that payload. */
module Splitter {
  import opened Wrappers
  import opened Strings
  import opened PyInt

  /** One sheet of the workbook: its name and its table. */
  datatype Sheet<P> = Sheet(name: string, data: P)

  /** One `to_csv` call: the path of the CSV file and the table written to it. */
  datatype Written<P> = Written(path: string, data: P)

  /** The exceptions `urlxlsx` can raise on a workbook it has read. */
  datatype SplitError =
    | NoSheets                                        // `list(...)[0]` on an empty workbook
    | MissingSheetNumber(name: string)                // `k.split(' ')[1]` with no space in `k`
    | SheetNumberNotInteger(name: string, token: string)  // `int(...)` on a non-integer word

  /** What a run leaves behind: the files written, in order, and the error
      that stopped it, if any. Files written before the error stay written. */
  datatype Exported<P> = Exported(written: seq<Written<P>>, failure: Option<SplitError>)

  /** A workbook read into a Python dict has no two sheets of the same name. */
  ghost predicate DistinctNames<P>(wb: seq<Sheet<P>>)
  {
    forall i, j :: 0 <= i < j < |wb| ==> wb[i].name != wb[j].name
  }

  /** `k.split(' ')[1]`: the second space-separated word of a sheet name. */
  function SheetToken(name: string): (r: Option<string>)
    ensures r.Some? <==> ' ' in name
    ensures r.Some? ==> ' ' !in r.value
  {
    var words := SplitOn(name, ' ');
    SplitJoin(name, ' ');
    if |words| < 2 then None else Some(words[1])
  }

  /** The file name of line 10 or 11 for a sheet number `n` written as `token`:
      the raw token is spliced in, with one `0` in front when `n < 10`. */
  function TableFile(n: int, token: string): string
  {
    if n < 10 then "2012_Tab0" + token + "_#.csv" else "2012_Tab" + token + "_#.csv"
  }

  /** The path a sheet is written to, or the exception its name raises. */
  function OutputPath(root: string, name: string): (r: Result<string, SplitError>)
  {
    match SheetToken(name)
    case None => Failure(MissingSheetNumber(name))
    case Some(t) =>
      match ParseInt(t)
      case None => Failure(SheetNumberNotInteger(name, t))
      case Some(n) => Success(root + TableFile(n, t))
  }

  /** A string framed by `a` and `b` starts with `a` and ends with `b`, and
      so does anything it is appended to. */
  lemma Framed(root: string, a: string, x: string, b: string)
    ensures root + a <= root + (a + x + b)
    ensures EndsWith(root + (a + x + b), b)
  {
    var w := root + (a + x + b);
    assert w[..|root + a|] == root + a;
    assert w[|w| - |b|..] == b;
  }

  /** Every file name of lines 10-11 starts `2012_Tab` and ends `_#.csv`. */
  lemma TableFileShape(root: string, n: int, t: string)
    ensures root + "2012_Tab" <= root + TableFile(n, t)
    ensures EndsWith(root + TableFile(n, t), "_#.csv")
  {
    if n < 10 {
      Framed(root, "2012_Tab0", t, "_#.csv");
      assert (root + "2012_Tab0")[..|root + "2012_Tab"|] == root + "2012_Tab";
    } else {
      Framed(root, "2012_Tab", t, "_#.csv");
    }
  }

  /** A name raises `IndexError` exactly when it has no space. A name with a
      space raises `ValueError` on its second word exactly when that word does
      not parse, and otherwise goes to the file that word and its value give.
      Every path written lies under `root`, starts `2012_Tab` and ends `_#.csv`. */
  lemma OutputPathShape(root: string, name: string)
    ensures OutputPath(root, name) == Failure(MissingSheetNumber(name)) <==> ' ' !in name
    ensures ' ' in name ==>
              (OutputPath(root, name).Failure? <==> ParseInt(SheetToken(name).value).None?)
    ensures ' ' in name && ParseInt(SheetToken(name).value).None? ==>
              OutputPath(root, name) == Failure(SheetNumberNotInteger(name, SheetToken(name).value))
    ensures ' ' in name && ParseInt(SheetToken(name).value).Some? ==>
              OutputPath(root, name) ==
              Success(root + TableFile(ParseInt(SheetToken(name).value).value, SheetToken(name).value))
    ensures OutputPath(root, name).Success? ==>
              root + "2012_Tab" <= OutputPath(root, name).value &&
              EndsWith(OutputPath(root, name).value, "_#.csv")
  {
    if OutputPath(root, name).Success? {
      var t := SheetToken(name).value;
      TableFileShape(root, ParseInt(t).value, t);
    }
  }

  /** The loop of lines 9-11 over the sheets left after the deletion: each
      sheet is written in order until one name raises. */
  function WriteSheets<P>(root: string, sheets: seq<Sheet<P>>): (r: Exported<P>)
    ensures |r.written| <= |sheets|
    ensures forall i :: 0 <= i < |r.written| ==>
              OutputPath(root, sheets[i].name) == Success(r.written[i].path) && r.written[i].data == sheets[i].data
    ensures r.failure.None? ==> |r.written| == |sheets|
    ensures r.failure.Some? ==>
              |r.written| < |sheets| && OutputPath(root, sheets[|r.written|].name) == Failure(r.failure.value)
  {
    if |sheets| == 0 then Exported([], None)
    else
      match OutputPath(root, sheets[0].name)
      case Failure(e) => Exported([], Some(e))
      case Success(path) =>
        var rest := WriteSheets(root, sheets[1..]);
        Exported([Written(path, sheets[0].data)] + rest.written, rest.failure)
  }

  /** `del d[k]` on the dict modelled as a sequence: every sheet named `k` goes. */
  function RemoveKey<P>(sheets: seq<Sheet<P>>, k: string): (r: seq<Sheet<P>>)
    ensures |r| <= |sheets|
    ensures forall i :: 0 <= i < |r| ==> r[i].name != k
  {
    if |sheets| == 0 then []
    else if sheets[0].name == k then RemoveKey(sheets[1..], k)
    else [sheets[0]] + RemoveKey(sheets[1..], k)
  }

  /** All of `urlxlsx` after the workbook is read (lines 7-11). */
  function Export<P>(root: string, wb: seq<Sheet<P>>): Exported<P>
  {
    if |wb| == 0 then Exported([], Some(NoSheets))
    else WriteSheets(root, RemoveKey(wb, wb[0].name))
  }

  /** Deleting a key keeps exactly the sheets with other names and adds none. */
  lemma {:induction false} RemoveKeyKeeps<P>(sheets: seq<Sheet<P>>, k: string)
    ensures forall i :: 0 <= i < |RemoveKey(sheets, k)| ==> RemoveKey(sheets, k)[i] in sheets
    ensures forall i :: 0 <= i < |sheets| && sheets[i].name != k ==> sheets[i] in RemoveKey(sheets, k)
  {
    if |sheets| > 0 {
      RemoveKeyKeeps(sheets[1..], k);
      var r := RemoveKey(sheets, k);
      forall i | 0 <= i < |r|
        ensures r[i] in sheets
      {
        if sheets[0].name != k && i == 0 {
        } else {
          var j := if sheets[0].name == k then i else i - 1;
          assert r[i] == RemoveKey(sheets[1..], k)[j];
          assert r[i] in sheets[1..];
        }
      }
      forall i | 0 <= i < |sheets| && sheets[i].name != k
        ensures sheets[i] in r
      {
        if i > 0 {
          assert sheets[i] == sheets[1..][i - 1];
        }
      }
    }
  }

  /** Removing a key no sheet has changes nothing. */
  lemma {:induction false} RemoveAbsentKey<P>(sheets: seq<Sheet<P>>, k: string)
    requires forall i :: 0 <= i < |sheets| ==> sheets[i].name != k
    ensures RemoveKey(sheets, k) == sheets
  {
    if |sheets| > 0 {
      RemoveAbsentKey(sheets[1..], k);
    }
  }

  /** With distinct names, deleting the first key drops exactly the first sheet. */
  lemma DropFirstSheet<P>(wb: seq<Sheet<P>>)
    requires |wb| > 0 && DistinctNames(wb)
    ensures RemoveKey(wb, wb[0].name) == wb[1..]
  {
    RemoveAbsentKey(wb[1..], wb[0].name);
  }

  /** The sheets written are the workbook's sheets after the first, in order,
      each under the path its name gives, up to the first name that raises;
      the run fails exactly when some sheet after the first has a bad name,
      and it fails on an empty workbook. */
  lemma ExportWritesAllButFirst<P>(root: string, wb: seq<Sheet<P>>)
    requires DistinctNames(wb)
    ensures |wb| == 0 ==> Export(root, wb) == Exported([], Some(NoSheets))
    ensures |wb| > 0 ==> |Export(root, wb).written| < |wb|
    ensures forall i :: 0 <= i < |Export(root, wb).written| ==>
              Export(root, wb).written[i].data == wb[i + 1].data &&
              OutputPath(root, wb[i + 1].name) == Success(Export(root, wb).written[i].path)
    ensures |wb| > 0 ==>
              (Export(root, wb).failure.None? <==> forall i :: 1 <= i < |wb| ==> OutputPath(root, wb[i].name).Success?)
    ensures |wb| > 0 && Export(root, wb).failure.None? ==> |Export(root, wb).written| == |wb| - 1
    ensures |wb| > 0 && Export(root, wb).failure.Some? ==>
              |Export(root, wb).written| + 1 < |wb| &&
              OutputPath(root, wb[|Export(root, wb).written| + 1].name) == Failure(Export(root, wb).failure.value)
  {
    if |wb| > 0 {
      DropFirstSheet(wb);
      var r := Export(root, wb);
      if r.failure.None? {
        forall i | 1 <= i < |wb|
          ensures OutputPath(root, wb[i].name).Success?
        {
          assert wb[i] == wb[1..][i - 1];
        }
      }
    }
  }

  /** The second word of `w + " " + t`, for a first word `w` without spaces. */
  lemma TokenOf(w: string, t: string)
    requires ' ' !in w && ' ' !in t
    ensures SheetToken(w + " " + t) == Some(t)
  {
    SplitAfterPrefix(w, ' ', t);
    SplitWithout(t, ' ');
  }

  /** A sheet named by a word and the decimal form of `n` goes to the file
      numbered `n`: one `0` in front below 10, negative numbers included, and
      none from 10 on. */
  lemma OutputPathOfNumber(root: string, w: string, n: int)
    requires ' ' !in w
    ensures OutputPath(root, w + " " + Show(n)) ==
              Success(root + ((if n < 10 then "2012_Tab0" else "2012_Tab") + Show(n) + "_#.csv"))
  {
    var t := Show(n);
    assert ' ' !in t by {
      forall i | 0 <= i < |t|
        ensures t[i] != ' '
      {
      }
    }
    TokenOf(w, t);
    ParseShow(n);
  }

  /** `a + x + b == a' + y + b` with `a == a' + p` forces `y == p + x`. */
  lemma Unwrap(a: string, a': string, p: string, x: string, y: string, b: string)
    requires a == a' + p
    requires a + x + b == a' + y + b
    ensures y == p + x
  {
    var s := a + x + b;
    assert y == s[|a'|..|s| - |b|];
    assert p + x == s[|a'|..|s| - |b|];
  }

  /** Distinct words that parse give distinct file names: a padded name and an
      unpadded one could only meet if one word were the other with a leading
      `0`, and a leading `0` does not change the number. */
  lemma TableFileInjective(ta: string, tb: string)
    requires ParseInt(ta).Some? && ParseInt(tb).Some?
    requires TableFile(ParseInt(ta).value, ta) == TableFile(ParseInt(tb).value, tb)
    ensures ta == tb
  {
    var na, nb := ParseInt(ta).value, ParseInt(tb).value;
    var padded, plain, tail := "2012_Tab0", "2012_Tab", "_#.csv";
    assert padded == plain + "0";
    if na < 10 && nb < 10 {
      Unwrap(padded, padded, "", ta, tb, tail);
      assert "" + ta == ta;
    } else if na >= 10 && nb >= 10 {
      Unwrap(plain, plain, "", ta, tb, tail);
      assert "" + ta == ta;
    } else if na < 10 {
      Unwrap(padded, plain, "0", ta, tb, tail);
      ParseLeadingZero(ta);
      assert false;
    } else {
      Unwrap(padded, plain, "0", tb, ta, tail);
      ParseLeadingZero(tb);
      assert false;
    }
  }

  /** Two sheets whose names parse go to the same file exactly when their
      second words are the same string: `"Tab 7"` and `"Table 7"` collide,
      `"Tab 7"` and `"Tab 07"` do not. */
  lemma SamePathIffSameToken(root: string, a: string, b: string)
    requires OutputPath(root, a).Success? && OutputPath(root, b).Success?
    ensures OutputPath(root, a) == OutputPath(root, b) <==> SheetToken(a) == SheetToken(b)
  {
    var ta, tb := SheetToken(a).value, SheetToken(b).value;
    if OutputPath(root, a) == OutputPath(root, b) {
      var fa, fb := TableFile(ParseInt(ta).value, ta), TableFile(ParseInt(tb).value, tb);
      assert root + fa == root + fb;
      assert fa == (root + fa)[|root|..];
      assert fb == (root + fb)[|root|..];
      TableFileInjective(ta, tb);
    }
  }

  /** A sheet named by a word, a space and a word that parses as `n` goes to
      the file that word and `n` give. */
  lemma SheetPath(root: string, w: string, t: string, n: int)
    requires ' ' !in w && ' ' !in t && ParseInt(t) == Some(n)
    ensures OutputPath(root, w + " " + t) == Success(root + TableFile(n, t))
  {
    TokenOf(w, t);
  }

  /** `"Tab 7"` is written to `2012_Tab07_#.csv`. */
  lemma PathExample7(root: string)
    ensures OutputPath(root, "Tab 7") == Success(root + "2012_Tab07_#.csv")
  {
    ParseShowNat(7);
    assert ShowNat(7) == "7";
    SheetPath(root, "Tab", "7", 7);
    assert "Tab" + " " + "7" == "Tab 7";
    assert TableFile(7, "7") == "2012_Tab07_#.csv";
  }

  /** `"Tab 12"` is written to `2012_Tab12_#.csv`. */
  lemma PathExample12(root: string)
    ensures OutputPath(root, "Tab 12") == Success(root + "2012_Tab12_#.csv")
  {
    ParseShowNat(12);
    assert ShowNat(12) == "12";
    SheetPath(root, "Tab", "12", 12);
    assert "Tab" + " " + "12" == "Tab 12";
    assert TableFile(12, "12") == "2012_Tab12_#.csv";
  }

  /** The raw word is spliced in: `"Tab 07"` gets a second leading zero. */
  lemma PathExampleLeadingZero(root: string)
    ensures OutputPath(root, "Tab 07") == Success(root + "2012_Tab007_#.csv")
  {
    ParseZeroPadded(7);
    assert "0" + ShowNat(7) == "07";
    SheetPath(root, "Tab", "07", 7);
    assert "Tab" + " " + "07" == "Tab 07";
    assert TableFile(7, "07") == "2012_Tab007_#.csv";
  }

  /** A negative number is below 10, so it is padded too. */
  lemma PathExampleNegative(root: string)
    ensures OutputPath(root, "Tab -3") == Success(root + "2012_Tab0-3_#.csv")
  {
    ParseShow(-3);
    assert Show(-3) == "-3";
    SheetPath(root, "Tab", "-3", -3);
    assert "Tab" + " " + "-3" == "Tab -3";
    assert TableFile(-3, "-3") == "2012_Tab0-3_#.csv";
  }

  /** A name without a space raises at the index. */
  lemma PathExampleNoSpace(root: string)
    ensures OutputPath(root, "TOC") == Failure(MissingSheetNumber("TOC"))
  {
  }

  /** A second word that is not a number raises at the parse; so does the
      empty second word a doubled space produces. */
  lemma PathExampleNotNumber(root: string)
    ensures OutputPath(root, "Tab x") == Failure(SheetNumberNotInteger("Tab x", "x"))
    ensures OutputPath(root, "Tab  7") == Failure(SheetNumberNotInteger("Tab  7", ""))
  {
    TokenOf("Tab", "x");
    assert "Tab" + " " + "x" == "Tab x";
    assert ParseInt("x") == None;
    SplitAfterPrefix("Tab", ' ', " 7");
    assert "Tab" + " " + " 7" == "Tab  7";
    SplitAfterPrefix("", ' ', "7");
    assert "" + " " + "7" == " 7";
  }

  /** Words after the second do not matter: the second word of
      `w + " " + t + " " + rest` is `t`. */
  lemma SecondWordOnly(w: string, t: string, rest: string)
    requires ' ' !in w && ' ' !in t
    ensures SheetToken(w + " " + t + " " + rest) == Some(t)
  {
    SplitAfterPrefix(w, ' ', t + " " + rest);
    assert w + " " + (t + " " + rest) == w + " " + t + " " + rest;
    SplitAfterPrefix(t, ' ', rest);
  }

  /** A name with more than two words goes where its second word sends it. */
  lemma ExtraWordsPath(root: string, w: string, t: string, rest: string, n: int)
    requires ' ' !in w && ' ' !in t && ParseInt(t) == Some(n)
    ensures OutputPath(root, w + " " + t + " " + rest) == Success(root + TableFile(n, t))
  {
    SecondWordOnly(w, t, rest);
  }

  /** Only the second word counts: `"Tab 7 cont"` goes where `"Tab 7"` goes. */
  lemma PathExampleExtraWord(root: string)
    ensures OutputPath(root, "Tab 7 cont") == Success(root + "2012_Tab07_#.csv")
  {
    ParseShowNat(7);
    assert ShowNat(7) == "7";
    ExtraWordsPath(root, "Tab", "7", "cont", 7);
    assert "Tab" + " " + "7" == "Tab 7";
    assert "Tab 7" + " " == "Tab 7 ";
    assert "Tab 7 " + "cont" == "Tab 7 cont";
    assert TableFile(7, "7") == "2012_Tab07_#.csv";
  }

  /** The path of a sheet named `"Tab "` and a natural number. */
  lemma TabPath(root: string, n: nat)
    ensures OutputPath(root, "Tab " + ShowNat(n)) == Success(root + TableFile(n, ShowNat(n)))
  {
    ParseShowNat(n);
    assert ' ' !in ShowNat(n) by {
      ShowNatDigits(n);
      assert forall i :: 0 <= i < |ShowNat(n)| ==> DigitOrJoiner(ShowNat(n), i);
    }
    SheetPath(root, "Tab", ShowNat(n), n);
    assert "Tab" + " " + ShowNat(n) == "Tab " + ShowNat(n);
  }

  lemma PathExample1(root: string)
    ensures OutputPath(root, "Tab 1") == Success(root + "2012_Tab01_#.csv")
  {
    TabPath(root, 1);
    assert "Tab " + ShowNat(1) == "Tab 1";
    assert TableFile(1, ShowNat(1)) == "2012_Tab01_#.csv";
  }

  lemma PathExample10(root: string)
    ensures OutputPath(root, "Tab 10") == Success(root + "2012_Tab10_#.csv")
  {
    TabPath(root, 10);
    assert "Tab " + ShowNat(10) == "Tab 10";
    assert TableFile(10, ShowNat(10)) == "2012_Tab10_#.csv";
  }

  /** Two sheets whose names both give a path are both written, in order. */
  lemma WriteTwo<P>(root: string, a: Sheet<P>, b: Sheet<P>, pa: string, pb: string)
    requires OutputPath(root, a.name) == Success(pa) && OutputPath(root, b.name) == Success(pb)
    ensures WriteSheets(root, [a, b]) == Exported([Written(pa, a.data), Written(pb, b.data)], None)
  {
    var last := [b];
    assert [a, b][1..] == last;
    assert last[1..] == [];
  }

  /** A three-sheet workbook whose first name is not repeated writes the
      other two sheets, when both of their names give a path. */
  lemma ExportThree<P>(root: string, toc: Sheet<P>, a: Sheet<P>, b: Sheet<P>, pa: string, pb: string)
    requires toc.name != a.name && toc.name != b.name
    requires OutputPath(root, a.name) == Success(pa) && OutputPath(root, b.name) == Success(pb)
    ensures Export(root, [toc, a, b]) == Exported([Written(pa, a.data), Written(pb, b.data)], None)
  {
    var wb := [toc, a, b];
    RemoveAbsentKey(wb[1..], toc.name);
    assert wb[1..] == [a, b];
    WriteTwo(root, a, b, pa, pb);
  }

  /** A workbook of a contents sheet, `"Tab 1"` and `"Tab 10"` yields exactly
      two files, `2012_Tab01_#.csv` and `2012_Tab10_#.csv`, and none for the
      contents sheet. */
  lemma ExportExample<P>(root: string, toc: P, one: P, ten: P)
    ensures Export(root, [Sheet("TOC", toc), Sheet("Tab 1", one), Sheet("Tab 10", ten)]) ==
              Exported([Written(root + "2012_Tab01_#.csv", one), Written(root + "2012_Tab10_#.csv", ten)], None)
  {
    PathExample1(root);
    PathExample10(root);
    assert "TOC"[1] != "Tab 1"[1];
    assert "TOC"[1] != "Tab 10"[1];
    ExportThree(root, Sheet("TOC", toc), Sheet("Tab 1", one), Sheet("Tab 10", ten),
                root + "2012_Tab01_#.csv", root + "2012_Tab10_#.csv");
  }
}
