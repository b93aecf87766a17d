/** The CSV export of `generateCSV` (server/routes/analyze-token.ts): the
    text of the report, the generated file name and the download URL. The
    clock reading is an input and `Number#toFixed` is the function
    parameter `toFixed(value, digits)`; writing the file is left to the
    handler. */
module Report {
  import opened Api
  import opened Text

  /** The five column titles, in order. */
  const HeaderFields: seq<string> :=
    ["Date", "Price ($)", "Wallets in Profit", "Total Wallets", "% In Profit"]

  /** The header line: the titles separated by commas. */
  const Header: string :=
    "Date" + "," + "Price ($)" + "," + "Wallets in Profit" + "," + "Total Wallets" + "," + "% In Profit"

  /** Joining the column titles with commas, as the source builds the
      header, gives the header line. */
  lemma HeaderIsJoinedFields()
    ensures Join(HeaderFields, ',') == Header
  {
    var f := HeaderFields;
    var j4 := Join(f[4..], ',');
    assert j4 == "% In Profit" by {
      assert f[4..] == ["% In Profit"];
    }
    var j3 := Join(f[3..], ',');
    assert j3 == "Total Wallets" + "," + j4 by {
      assert f[3..] == ["Total Wallets"] + f[4..];
      JoinCons("Total Wallets", f[4..], ',');
    }
    var j2 := Join(f[2..], ',');
    assert j2 == "Wallets in Profit" + "," + j3 by {
      assert f[2..] == ["Wallets in Profit"] + f[3..];
      JoinCons("Wallets in Profit", f[3..], ',');
    }
    var j1 := Join(f[1..], ',');
    assert j1 == "Price ($)" + "," + j2 by {
      assert f[1..] == ["Price ($)"] + f[2..];
      JoinCons("Price ($)", f[2..], ',');
    }
    assert Join(f, ',') == "Date" + "," + j1 by {
      assert f == ["Date"] + f[1..];
      JoinCons("Date", f[1..], ',');
    }
  }

  /** No column title contains a separator. */
  lemma HeaderFieldsSafe()
    ensures forall k :: 0 <= k < |HeaderFields| ==> CellSafe(HeaderFields[k])
  {
    assert CellSafe("Date");
    assert CellSafe("Price ($)");
    assert CellSafe("Wallets in Profit");
    assert CellSafe("Total Wallets");
    assert CellSafe("% In Profit");
  }

  /** The five cells of one row: the date as is, the price to 4 decimals,
      the two counts as integers, the percentage to 2 decimals. */
  function RowFields(r: AnalysisResult, toFixed: (real, nat) -> string): (fs: seq<string>) {
    [r.date, toFixed(r.price, 4), NatToString(r.walletsInProfit),
     NatToString(r.totalWallets), toFixed(r.percentageInProfit, 2)]
  }

  function Row(r: AnalysisResult, toFixed: (real, nat) -> string): string {
    Join(RowFields(r, toFixed), ',')
  }

  /** The header followed by one row per result, in result order. */
  function Lines(results: seq<AnalysisResult>, toFixed: (real, nat) -> string): (ls: seq<string>)
    ensures |ls| == |results| + 1
    ensures ls[0] == Header
    ensures forall i :: 0 <= i < |results| ==> ls[i + 1] == Row(results[i], toFixed)
  {
    [Header] + seq(|results|, i requires 0 <= i < |results| => Row(results[i], toFixed))
  }

  /** The report text: the lines joined with `\n`, no trailing newline. */
  function Csv(results: seq<AnalysisResult>, toFixed: (real, nat) -> string): string {
    Join(Lines(results, toFixed), '\n')
  }

  /** The report opens with the header line, is just that line when there
      are no results, and ends with the last result's row rather than a
      line break. */
  lemma CsvShape(results: seq<AnalysisResult>, toFixed: (real, nat) -> string)
    ensures StartsWith(Csv(results, toFixed), Header)
    ensures |results| == 0 ==> Csv(results, toFixed) == Header
    ensures |results| > 0 ==> EndsWith(Csv(results, toFixed), Row(results[|results| - 1], toFixed))
  {
    var ls := Lines(results, toFixed);
    assert ls[0] == Header;
    assert ls[|ls| - 1] == if |results| == 0 then Header else Row(results[|results| - 1], toFixed);
  }

  /** A cell that cannot break the row or line structure. */
  predicate CellSafe(s: string) {
    ',' !in s && '\n' !in s
  }

  /** What the round trip needs of the inputs: dates free of separators
      (the source renders them as `YYYY-MM-DD HH:mm`) and a `toFixed` that
      never emits a comma or newline, as `Number#toFixed` does not. */
  ghost predicate Renderable(results: seq<AnalysisResult>, toFixed: (real, nat) -> string) {
    && (forall i :: 0 <= i < |results| ==> CellSafe(results[i].date))
    && (forall x, d :: CellSafe(toFixed(x, d)))
  }

  /** Reads a report back: split into lines, then every line into cells. */
  function ParseCsv(csv: string): (table: seq<seq<string>>)
    ensures |table| == |Split(csv, '\n')|
    ensures forall k :: 0 <= k < |table| ==> table[k] == Split(Split(csv, '\n')[k], ',')
  {
    var lines := Split(csv, '\n');
    seq(|lines|, i requires 0 <= i < |lines| => Split(lines[i], ','))
  }

  lemma DigitsAreSafe(s: string)
    requires AllDigits(s)
    ensures CellSafe(s)
  {
    forall i | 0 <= i < |s|
      ensures s[i] != ',' && s[i] != '\n'
    {
      assert IsDigit(s[i]);
    }
  }

  /** Joining safe cells with commas gives a line without newlines. */
  lemma {:induction false} JoinedCellsHaveNoNewline(cells: seq<string>)
    requires forall i :: 0 <= i < |cells| ==> CellSafe(cells[i])
    ensures '\n' !in Join(cells, ',')
    decreases |cells|
  {
    if |cells| > 1 {
      JoinedCellsHaveNoNewline(cells[1..]);
      var j := Join(cells, ',');
      var rest := Join(cells[1..], ',');
      assert j == cells[0] + [','] + rest;
      forall k | 0 <= k < |j|
        ensures j[k] != '\n'
      {
        if k < |cells[0]| {
          assert j[k] == cells[0][k];
        } else if k > |cells[0]| {
          assert j[k] == rest[k - |cells[0]| - 1];
        }
      }
    }
  }

  lemma RowCellsSafe(r: AnalysisResult, toFixed: (real, nat) -> string)
    requires CellSafe(r.date)
    requires forall x, d :: CellSafe(toFixed(x, d))
    ensures forall k :: 0 <= k < 5 ==> CellSafe(RowFields(r, toFixed)[k])
  {
    DigitsAreSafe(NatToString(r.walletsInProfit));
    DigitsAreSafe(NatToString(r.totalWallets));
  }

  /** No line of a renderable report contains a line break. */
  lemma LinesHaveNoNewline(results: seq<AnalysisResult>, toFixed: (real, nat) -> string)
    requires Renderable(results, toFixed)
    ensures forall i :: 0 <= i < |Lines(results, toFixed)| ==> '\n' !in Lines(results, toFixed)[i]
  {
    var ls := Lines(results, toFixed);
    forall i | 0 <= i < |ls|
      ensures '\n' !in ls[i]
    {
      if i == 0 {
        HeaderFieldsSafe();
        HeaderIsJoinedFields();
        JoinedCellsHaveNoNewline(HeaderFields);
      } else {
        var r := results[i - 1];
        RowCellsSafe(r, toFixed);
        JoinedCellsHaveNoNewline(RowFields(r, toFixed));
      }
    }
  }

  /** Every row splits back into its five cells. */
  lemma RowRoundTrip(r: AnalysisResult, toFixed: (real, nat) -> string)
    requires CellSafe(r.date)
    requires forall x, d :: CellSafe(toFixed(x, d))
    ensures Split(Row(r, toFixed), ',') == RowFields(r, toFixed)
  {
    RowCellsSafe(r, toFixed);
    SplitJoin(RowFields(r, toFixed), ',');
  }

  /** The header line splits back into the column titles. */
  lemma HeaderRoundTrip()
    ensures Split(Header, ',') == HeaderFields
  {
    HeaderFieldsSafe();
    HeaderIsJoinedFields();
    SplitJoin(HeaderFields, ',');
  }

  /** A renderable report splits back into its lines. */
  lemma CsvLines(results: seq<AnalysisResult>, toFixed: (real, nat) -> string)
    requires Renderable(results, toFixed)
    ensures Split(Csv(results, toFixed), '\n') == Lines(results, toFixed)
  {
    LinesHaveNoNewline(results, toFixed);
    SplitJoin(Lines(results, toFixed), '\n');
  }

  /** Every row line splits back into the cells of its result. */
  lemma RowsRoundTrip(results: seq<AnalysisResult>, toFixed: (real, nat) -> string)
    requires Renderable(results, toFixed)
    ensures forall i :: 0 <= i < |results| ==>
      Split(Lines(results, toFixed)[i + 1], ',') == RowFields(results[i], toFixed)
  {
    forall i | 0 <= i < |results|
      ensures Split(Lines(results, toFixed)[i + 1], ',') == RowFields(results[i], toFixed)
    {
      RowRoundTrip(results[i], toFixed);
    }
  }

  /** Parsing a report recovers the column titles and, for every result in
      order, its five cells. */
  lemma CsvRoundTrip(results: seq<AnalysisResult>, toFixed: (real, nat) -> string)
    requires Renderable(results, toFixed)
    ensures |ParseCsv(Csv(results, toFixed))| == |results| + 1
    ensures ParseCsv(Csv(results, toFixed))[0] == HeaderFields
    ensures forall i :: 0 <= i < |results| ==>
      ParseCsv(Csv(results, toFixed))[i + 1] == RowFields(results[i], toFixed)
  {
    CsvLines(results, toFixed);
    HeaderRoundTrip();
    RowsRoundTrip(results, toFixed);
  }

  /** The count cells of a parsed row read back as the counts. */
  lemma CountsRoundTrip(r: AnalysisResult, toFixed: (real, nat) -> string)
    ensures AllDigits(RowFields(r, toFixed)[2]) && ParseNat(RowFields(r, toFixed)[2]) == r.walletsInProfit
    ensures AllDigits(RowFields(r, toFixed)[3]) && ParseNat(RowFields(r, toFixed)[3]) == r.totalWallets
  {
    ParseNatToString(r.walletsInProfit);
    ParseNatToString(r.totalWallets);
  }

  const FilePrefix: string := "token_profit_"
  const FileExtension: string := ".csv"
  const DownloadRoute: string := "/api/download/"

  /** `token_profit_${tokenMint.slice(0, 8)}_${Date.now()}.csv`. */
  function Filename(tokenMint: string, nowMs: nat): string {
    FilePrefix + Prefix(tokenMint, 8) + "_" + NatToString(nowMs) + FileExtension
  }

  /** The generated name carries the extension the download route demands,
      and contains `..` exactly when the eight-character mint prefix does:
      the fixed pieces and the digits cannot form one. */
  lemma FilenameShape(tokenMint: string, nowMs: nat)
    ensures StartsWith(Filename(tokenMint, nowMs), FilePrefix)
    ensures EndsWith(Filename(tokenMint, nowMs), FileExtension)
    ensures HasDotDot(Filename(tokenMint, nowMs)) <==> HasDotDot(Prefix(tokenMint, 8))
  {
    var p := Prefix(tokenMint, 8);
    var digits := NatToString(nowMs);
    var f := Filename(tokenMint, nowMs);
    assert f == ((FilePrefix + p) + ("_" + digits)) + FileExtension;
    assert f[|f| - 4..] == FileExtension;
    assert f[..|FilePrefix|] == FilePrefix;

    NoDotNoDotDot(FilePrefix);
    DotDotAppend(FilePrefix, p);
    assert forall i :: 0 <= i < |digits| ==> ("_" + digits)[i + 1] == digits[i];
    NoDotNoDotDot("_" + digits);
    DotDotAppend(FilePrefix + p, "_" + digits);
    assert !HasDotDot(FileExtension);
    assert IsDigit(digits[|digits| - 1]);
    DotDotAppend((FilePrefix + p) + ("_" + digits), FileExtension);
  }

  lemma NoDotNoDotDot(s: string)
    requires '.' !in s
    ensures !HasDotDot(s)
  {
  }

  /** `/api/download/${filename}`. */
  function DownloadUrl(filename: string): (url: string)
    ensures StartsWith(url, DownloadRoute)
    ensures url[|DownloadRoute|..] == filename
  {
    DownloadRoute + filename
  }

  /** Reports generated at different clock readings get different names. */
  lemma FilenamesDistinctByTime(tokenMint: string, t1: nat, t2: nat)
    requires t1 != t2
    ensures Filename(tokenMint, t1) != Filename(tokenMint, t2)
  {
    var head := FilePrefix + Prefix(tokenMint, 8) + "_";
    var f1 := Filename(tokenMint, t1);
    var f2 := Filename(tokenMint, t2);
    assert f1 == head + NatToString(t1) + FileExtension;
    assert f2 == head + NatToString(t2) + FileExtension;
    if f1 == f2 {
      assert |NatToString(t1)| == |NatToString(t2)|;
      assert NatToString(t1) == f1[|head|..|f1| - 4];
      assert NatToString(t2) == f2[|head|..|f2| - 4];
      NatToStringInjective(t1, t2);
    }
  }
}
