# FormatFields: a Dafny model

`DBHDD/NSDUH/FormatFields.py` prepares the NSDUH 2012 state estimate tables.
First it splits a downloaded Excel workbook into one CSV file per table sheet.
Then it rewrites each CSV file so that the header rows (the row whose first
field is `Order`, and the footnote rows whose first field starts with `NOTE`)
no longer hold embedded line breaks.

The model has three parts, plus the Python built-ins they rest on:

- `Splitter` models `urlxlsx`. The workbook is an ordered sequence of
  `Sheet(name, data)`. The table payload `data` is a type parameter, because
  the model does nothing with it but pass it along. The first sheet (the
  table of contents) is deleted by key. Each remaining sheet is written under
  `root + "2012_Tab0" + t + "_#.csv"` when `int(t) < 10` and under
  `root + "2012_Tab" + t + "_#.csv"` otherwise, where `t` is
  `name.split(' ')[1]`. The outcome of a run is an `Exported` record. It holds
  the writes made, in order, each a `Written(path, data)`, and the exception
  that stopped the run, if any.
  Files written before a bad sheet name stay written.
- `Normaliser` models `readcsv` on rows already parsed by the CSV reader. In
  a triggered row every field becomes `' '.join(f.split('\n'))`. Every other
  row is kept as it is. An empty row (a blank line) makes `line[0]` raise, and
  the model reports the first such row by index.
- `Tables` models the list comprehension of line 35. Every directory entry
  whose name ends in the three letters `csv` becomes `root + name`, in listing
  order. The suffix is `csv` and not `.csv`, so an entry `data_csv` is kept.
- `Strings` holds Python's `str.split` with a one-character separator,
  `str.join`, `s[:n]` and `str.endswith`.
- `PyInt` holds Python's `int(s)` for base 10 as a partial parse. It skips
  surrounding whitespace, then reads an optional sign and ASCII digits with
  single underscores between digits. Below U+007F only tab, line feed,
  vertical tab, form feed, carriage return and space are skipped; the
  separators U+001C to U+001F are not, although `str.isspace` accepts them.
  From U+007F up, the characters `str.isspace` accepts are skipped. It also holds the
  decimal renderer used to state round trips.
- `Wrappers` holds `Option` and `Result`.

Python exceptions become values:

- `SplitError.NoSheets` is the `IndexError` of an empty workbook on line 7.
- `MissingSheetNumber` is the `IndexError` of a name without a space on line 10.
- `SheetNumberNotInteger` is the `ValueError` of `int()` on line 10.
- `RowError.EmptyRow` is the `IndexError` of `line[0]` on line 17.

Two consequences of the code are worth stating:

- The raw second word is spliced into the file name, not the number it
  parses to. Two sheets therefore share a file exactly when their second words
  are the same string (`SamePathIffSameToken`). `Tab 7` goes to
  `2012_Tab07_#.csv` and `Tab 07` goes to `2012_Tab007_#.csv`, so these two
  do not collide.
- The filter of line 35 tests the three letters `csv`, not the extension
  `.csv`, so an entry `data_csv` is processed too (`Tables.CsvTablesExample`).

## Model

| member | source | states |
|---|---|---|
| Strings.SplitOn | DBHDD/NSDUH/FormatFields.py:19 | Python's `s.split(c)` always has at least one piece; the rest of its contract is `SplitJoin` |
| Strings.Join | DBHDD/NSDUH/FormatFields.py:19 | Python's `sep.join(parts)`; no contract of its own, its contract is `SplitJoin` and `JoinReplace` |
| Strings.EndsWith | DBHDD/NSDUH/FormatFields.py:35 | Python's `s.endswith(suffix)`; a predicate without a contract, used by `Tables.IsCsvName` |
| Strings.SplitJoin | DBHDD/NSDUH/FormatFields.py:19 | joining the pieces of `s.split(c)` with `c` gives `s` back; no piece contains `c`; there is one piece exactly when `c` does not occur |
| Strings.SplitJoinReplaces | DBHDD/NSDUH/FormatFields.py:19 | `d.join(s.split(c))` equals `s` with every `c` replaced by `d` and every other character kept |
| Strings.JoinReplace | DBHDD/NSDUH/FormatFields.py:19 | joining pieces free of `c` with `d` equals joining them with `c` and then replacing `c` by `d` |
| Strings.ReplaceChar | DBHDD/NSDUH/FormatFields.py:19 | the reference replacement: same length, each `c` becomes `d`, every other character kept |
| Strings.SplitAfterPrefix | DBHDD/NSDUH/FormatFields.py:10 | splitting `a + c + b` where `a` has no `c` gives `a` followed by the pieces of `b` |
| Strings.SplitWithout | DBHDD/NSDUH/FormatFields.py:10 | a string without the separator splits into itself alone |
| Strings.Prefix | DBHDD/NSDUH/FormatFields.py:17 | Python's `s[:n]` is a prefix of `s` of length `min(n, len(s))` |
| PyInt.ParseInt | DBHDD/NSDUH/FormatFields.py:10 | `int(s)`, `None` for `ValueError`; no contract of its own, its contract is `ParseUnsigned`, `ParsePositive`, `ParseNegative` and `ParseNoNumber`, which together cover every input by the first character left after skipping whitespace, plus `ParseShow` and `ParseSeparatorExample` |
| PyInt.ParseSeparatorExample | DBHDD/NSDUH/FormatFields.py:10 | a number behind U+001C or before U+001F does not parse; one behind a tab or U+00A0 does |
| PyInt.ParseShow | DBHDD/NSDUH/FormatFields.py:10 | `int(str(n)) == n` for every integer `n` |
| PyInt.ParseShowNat | DBHDD/NSDUH/FormatFields.py:10 | the decimal digits of a natural number parse back to it |
| PyInt.ShowNatDigits | DBHDD/NSDUH/FormatFields.py:10 | the decimal digits of a natural number form a digit run `int()` accepts, of that value |
| PyInt.ParseZeroPadded | DBHDD/NSDUH/FormatFields.py:10 | a decimal rendering with an extra leading zero parses to the same number |
| PyInt.ParseLeadingZero | DBHDD/NSDUH/FormatFields.py:10 | whenever both `t` and `"0" + t` parse, they parse to the same integer |
| PyInt.ParseUnsigned | DBHDD/NSDUH/FormatFields.py:10 | a string that strips to something starting with a digit parses exactly when it is a valid digit run, to its value |
| PyInt.ParseNegative | DBHDD/NSDUH/FormatFields.py:10 | a string that strips to `-` followed by the rest parses exactly when the rest is a valid digit run, to its value negated |
| PyInt.ParsePositive | DBHDD/NSDUH/FormatFields.py:10 | a string that strips to `+` followed by the rest parses exactly when the rest is a valid digit run, to its value |
| PyInt.ParseNoNumber | DBHDD/NSDUH/FormatFields.py:10 | a string that strips to nothing, or to something starting with neither a digit nor a sign, does not parse (`ValueError`) |
| PyInt.ParseBlank | DBHDD/NSDUH/FormatFields.py:10 | an empty or all-whitespace string does not parse (`ValueError`) |
| PyInt.ParseUnderscore | DBHDD/NSDUH/FormatFields.py:10 | a string that strips to something starting with `_` does not parse |
| PyInt.StripUnchanged | DBHDD/NSDUH/FormatFields.py:10 | a string whose ends are not whitespace is unchanged by stripping |
| PyInt.ValueLeadingZero | DBHDD/NSDUH/FormatFields.py:10 | a leading zero digit does not change the value of a digit run |
| Normaliser.Triggered | DBHDD/NSDUH/FormatFields.py:17 | a row is rewritten exactly when its first field is `Order` or its first four characters are `NOTE` |
| Normaliser.Collapse | DBHDD/NSDUH/FormatFields.py:19 | `' '.join(f.split('\n'))` has the length of `f`, turns each newline into a space, keeps every other character, and contains no newline |
| Normaliser.NormaliseRow | DBHDD/NSDUH/FormatFields.py:17-19 | a row keeps its field count; an untriggered row is returned unchanged; each field of a triggered row is collapsed |
| Normaliser.NormaliseRows | DBHDD/NSDUH/FormatFields.py:13-22 | succeeds exactly when no row is empty; then it returns as many rows as it read, in order, row `i` depending only on input row `i`; otherwise it names the first empty row |
| Normaliser.CollapseNoNewline | DBHDD/NSDUH/FormatFields.py:19 | a field without a newline is unchanged by collapsing |
| Normaliser.CollapseKeepsTrigger | DBHDD/NSDUH/FormatFields.py:17-19 | a triggered row is still triggered after it is rewritten |
| Normaliser.NormaliseRowIdempotent | DBHDD/NSDUH/FormatFields.py:17-19 | rewriting a row twice is rewriting it once |
| Normaliser.NormaliseRowsIdempotent | DBHDD/NSDUH/FormatFields.py:13-22 | running `readcsv` again on its own output succeeds and changes nothing |
| Normaliser.TriggeredRowShape | DBHDD/NSDUH/FormatFields.py:19 | a triggered row keeps its field count and each field's length, and no field holds a newline |
| Normaliser.CollapsedRow | DBHDD/NSDUH/FormatFields.py:17-19 | a triggered row rewrites to the row whose characters are the input's with newlines replaced by spaces |
| Normaliser.OrderRowExample | DBHDD/NSDUH/FormatFields.py:17-19 | `["Order", "line1\nline2", "x"]` becomes `["Order", "line1 line2", "x"]` |
| Normaliser.PlainRowExample | DBHDD/NSDUH/FormatFields.py:17-21 | `["1", "a\nb", "c"]` is kept, newline and all |
| Normaliser.NotePrefixExample | DBHDD/NSDUH/FormatFields.py:17-19 | `["NOTE:\n1", "a\nb"]` becomes `["NOTE: 1", "a b"]`; `NOT`, `Note` and `Orders` do not trigger |
| Normaliser.EmptyRowExample | DBHDD/NSDUH/FormatFields.py:16-17 | a blank second line is an error at index 1 |
| Splitter.OutputPath | DBHDD/NSDUH/FormatFields.py:10-11 | the path a sheet goes to or the exception its name raises; no contract of its own, its contract is `OutputPathShape`, which settles every name, with `SheetPath` and `SamePathIffSameToken` |
| Splitter.TableFile | DBHDD/NSDUH/FormatFields.py:10-11 | the two format strings, chosen by `int(t) < 10`; no contract of its own, its contract is `TableFileShape` and `TableFileInjective` |
| Splitter.SheetToken | DBHDD/NSDUH/FormatFields.py:10 | `name.split(' ')[1]` exists exactly when the name has a space, and holds no space |
| Splitter.RemoveKey | DBHDD/NSDUH/FormatFields.py:7 | `del d[k]` leaves no sheet named `k` and never lengthens the workbook |
| Splitter.RemoveKeyKeeps | DBHDD/NSDUH/FormatFields.py:7 | `del d[k]` keeps every sheet with another name and adds none |
| Splitter.RemoveAbsentKey | DBHDD/NSDUH/FormatFields.py:7 | the model's key filter leaves a sequence with no sheet named `k` unchanged; `DropFirstSheet` applies it to the sheets after the first, since line 7 only deletes the first key, which is present |
| Splitter.DropFirstSheet | DBHDD/NSDUH/FormatFields.py:7 | with distinct names, deleting the first key removes exactly the first sheet and keeps the order of the rest |
| Splitter.WriteSheets | DBHDD/NSDUH/FormatFields.py:9-11 | the sheets are written in order, each with its own table under the path its name gives; the loop stops at the first name that raises, with that exception |
| Splitter.ExportWritesAllButFirst | DBHDD/NSDUH/FormatFields.py:5-11 | an empty workbook raises; otherwise the files written are the sheets after the first, in order, and the run completes exactly when every one of their names gives a path; a failing run stops at the first sheet after the writes made, with the exception that sheet's name raises |
| Splitter.Export | DBHDD/NSDUH/FormatFields.py:7-11 | `urlxlsx` after the workbook is read; it has no contract of its own, its contract is `ExportWritesAllButFirst` |
| Splitter.OutputPathShape | DBHDD/NSDUH/FormatFields.py:10-11 | a name raises `IndexError` exactly when it has no space; a name with a space raises `ValueError` on its second word exactly when that word does not parse, and otherwise goes to `root` plus the file that word and its value give; every path starts `root + "2012_Tab"` and ends `_#.csv` |
| Splitter.SecondWordOnly | DBHDD/NSDUH/FormatFields.py:10 | the second word of `w + " " + t + " " + rest` is `t`, whatever follows |
| Splitter.ExtraWordsPath | DBHDD/NSDUH/FormatFields.py:10-11 | a name with more than two words whose second word parses goes to the file that word and its value give |
| Splitter.PathExampleExtraWord | DBHDD/NSDUH/FormatFields.py:10 | `Tab 7 cont` goes to `2012_Tab07_#.csv`, like `Tab 7` |
| Splitter.TableFileShape | DBHDD/NSDUH/FormatFields.py:10-11 | both file name forms start `2012_Tab` and end `_#.csv` |
| Splitter.TokenOf | DBHDD/NSDUH/FormatFields.py:10 | the second word of `w + " " + t` is `t` when neither has a space |
| Splitter.SheetPath | DBHDD/NSDUH/FormatFields.py:10-11 | a sheet named `w + " " + t`, where `t` parses as `n`, goes to `root` plus the padded or unpadded name chosen by `n < 10` |
| Splitter.OutputPathOfNumber | DBHDD/NSDUH/FormatFields.py:10-11 | a sheet named by a word and `str(n)` goes to `2012_Tab0` + `str(n)` when `n < 10` and to `2012_Tab` + `str(n)` otherwise |
| Splitter.TabPath | DBHDD/NSDUH/FormatFields.py:10-11 | `"Tab " + str(n)` goes to the file of number `n` written as `str(n)` |
| Splitter.TableFileInjective | DBHDD/NSDUH/FormatFields.py:10-11 | two second words that parse give the same file name only when they are the same string |
| Splitter.SamePathIffSameToken | DBHDD/NSDUH/FormatFields.py:10-11 | two sheets whose names give paths share a file exactly when their second words are equal |
| Splitter.PathExample7 | DBHDD/NSDUH/FormatFields.py:10 | `Tab 7` goes to `2012_Tab07_#.csv` |
| Splitter.PathExample12 | DBHDD/NSDUH/FormatFields.py:11 | `Tab 12` goes to `2012_Tab12_#.csv` |
| Splitter.PathExample1 | DBHDD/NSDUH/FormatFields.py:10 | `Tab 1` goes to `2012_Tab01_#.csv` |
| Splitter.PathExample10 | DBHDD/NSDUH/FormatFields.py:11 | `Tab 10` goes to `2012_Tab10_#.csv`, the first unpadded name |
| Splitter.PathExampleLeadingZero | DBHDD/NSDUH/FormatFields.py:10 | `Tab 07` goes to `2012_Tab007_#.csv`: the raw word is spliced in |
| Splitter.PathExampleNegative | DBHDD/NSDUH/FormatFields.py:10 | `Tab -3` is below 10 and goes to `2012_Tab0-3_#.csv` |
| Splitter.PathExampleNoSpace | DBHDD/NSDUH/FormatFields.py:10 | `TOC` has no second word and raises `IndexError` |
| Splitter.PathExampleNotNumber | DBHDD/NSDUH/FormatFields.py:10 | `Tab x` raises `ValueError` on `x`; `Tab  7` raises on the empty second word |
| Splitter.WriteTwo | DBHDD/NSDUH/FormatFields.py:9-11 | two sheets whose names both give a path are both written, in order, each with its own table, and the loop completes |
| Splitter.ExportThree | DBHDD/NSDUH/FormatFields.py:7-11 | a three-sheet workbook whose first name is not repeated writes the other two sheets, in order, when both names give paths |
| Splitter.ExportExample | DBHDD/NSDUH/FormatFields.py:7-11 | a workbook `TOC`, `Tab 1`, `Tab 10` writes exactly `2012_Tab01_#.csv` and `2012_Tab10_#.csv` and completes |
| Tables.IsCsvName | DBHDD/NSDUH/FormatFields.py:35 | `t.endswith('csv')`; a predicate without a contract, its meaning is stated by `CsvTablesSingle` and `CsvTablesExample` |
| Tables.CsvTables | DBHDD/NSDUH/FormatFields.py:35 | every table path is `root` plus a listed entry that ends in `csv`; there are no more paths than entries |
| Tables.CsvTablesComplete | DBHDD/NSDUH/FormatFields.py:35 | every listed entry ending in `csv` gives a table path |
| Tables.CsvTablesAppend | DBHDD/NSDUH/FormatFields.py:35 | the filter of a listing split in two is the two filters concatenated, so listing order is kept |
| Tables.CsvTablesSingle | DBHDD/NSDUH/FormatFields.py:35 | one entry gives its path exactly when it ends in `csv` |
| Tables.CsvTablesExample | DBHDD/NSDUH/FormatFields.py:35 | `a.csv`, `b.txt`, `data_csv` give `root + "a.csv"` and `root + "data_csv"`, in that order |

## Left out

- Reading the workbook (`pd.read_excel` over the network, line 6) is left out. The model starts from the sheets it returns, in their order.
- Writing a sheet (`to_csv(..., index=False)`, lines 10-11) is left out. The model records the path and the sheet's payload instead. The payload is a type parameter. A write that fails (an `OSError`, for instance on a path holding a tab, which `Tab \t7` produces since `int()` skips the tab) is not modelled. So "the run completes exactly when every name gives a path" in `ExportWritesAllButFirst` holds of the model, not of a script whose writes can fail.
- The CSV reader and writer (lines 15 and 24-27) are left out. `readcsv` is modelled on rows already split into fields, and `writecsv` is left out entirely.
- Directory listing and file opening (`os.listdir`, `open`, lines 25, 35 and 38-40) are left out. The listing is a parameter of `Tables.CsvTables`.
- The hardcoded root path and URL and the driver loop (lines 29-40) are left out. The driver only chains the modelled parts through the file system.
- PyInt.ParseInt: Python's `int()` also accepts non-ASCII Unicode decimal digits. It also rejects strings longer than the interpreter's digit limit. Neither is modelled.
- Splitter.ExportWritesAllButFirst: assumes distinct sheet names. The names are keys of a Python dict, which cannot repeat.
