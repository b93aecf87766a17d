/** The report download route (`handleDownload` in
    server/routes/download.ts). The data directory is the set of file names
    it holds; streaming the file is left out. Setting the attachment header
    runs the HTTP runtime's header-value check, which throws inside the
    route's `try` for a name with a character it refuses; the `catch`
    answers 500 with the thrown message. */
module Download {
  import opened Text

  /** The route's answer: a JSON error with a status, or the named file sent
      with the listed headers. */
  datatype DownloadReply =
    | Rejected(status: nat, error: string)
    | Serve(headers: seq<(string, string)>, file: string)

  const RequiredMessage: string := "Filename is required"
  const InvalidMessage: string := "Invalid filename"
  const NotFoundMessage: string := "File not found"
  /** The message of the error Node's `setHeader` throws for a refused
      character in the `Content-Disposition` value. */
  const HeaderErrorMessage: string := "Invalid character in header content [\"Content-Disposition\"]"

  /** A character Node accepts in a header value: tab, printable ASCII, or
      a code point from 0x80 to 0xFF. */
  predicate HeaderChar(c: char) {
    c == '\t' || (' ' <= c <= '~') || (0x80 <= c as int <= 0xFF)
  }

  /** Every character of `s` is accepted in a header value. */
  predicate HeaderSafe(s: string) {
    forall i :: 0 <= i < |s| ==> HeaderChar(s[i])
  }

  /** The first character a header value refuses, scanning left to right,
      or `|s|` when there is none. */
  function FirstRefused(s: string): (k: nat)
    ensures k <= |s|
    ensures forall i :: 0 <= i < k ==> HeaderChar(s[i])
    ensures k < |s| ==> !HeaderChar(s[k])
    ensures k == |s| <==> HeaderSafe(s)
    decreases |s|
  {
    if |s| == 0 then 0
    else if !HeaderChar(s[0]) then 0
    else 1 + FirstRefused(s[1..])
  }

  /** The security check: the name ends in `.csv` and has no `..`. */
  predicate Acceptable(filename: string) {
    EndsWith(filename, ".csv") && !Contains(filename, "..")
  }

  /** The headers a served report carries. */
  function ServeHeaders(filename: string): seq<(string, string)> {
    [("Content-Type", "text/csv"),
     ("Content-Disposition", "attachment; filename=\"" + filename + "\"")]
  }

  /** The checks in source order: presence, then name shape, then
      existence in the data directory, then the header-value check that
      setting the attachment header performs. */
  function HandleDownload(filename: string, existing: set<string>): (r: DownloadReply)
    ensures filename == "" ==> r == Rejected(400, RequiredMessage)
    ensures filename != "" && (!EndsWith(filename, ".csv") || HasDotDot(filename)) ==>
      r == Rejected(400, InvalidMessage)
    ensures filename != "" && EndsWith(filename, ".csv") && !HasDotDot(filename) ==>
      (if filename !in existing then r == Rejected(404, NotFoundMessage)
       else if HeaderSafe(filename) then r == Serve(ServeHeaders(filename), filename)
       else r == Rejected(500, HeaderErrorMessage))
    ensures r.Serve? <==>
      filename != "" && EndsWith(filename, ".csv") && !HasDotDot(filename) && filename in existing
      && HeaderSafe(filename)
    ensures r.Serve? ==> forall h :: h in r.headers ==> HeaderSafe(h.1)
  {
    ContainsDotDot(filename);
    if filename == "" then Rejected(400, RequiredMessage)
    else if !Acceptable(filename) then Rejected(400, InvalidMessage)
    else if filename !in existing then Rejected(404, NotFoundMessage)
    else if FirstRefused(filename) < |filename| then Rejected(500, HeaderErrorMessage)
    else
      HeaderSafeAppend("attachment; filename=\"", filename);
      HeaderSafeAppend("attachment; filename=\"" + filename, "\"");
      Serve(ServeHeaders(filename), filename)
  }

  /** Two strings a header value accepts concatenate to one it accepts,
      and a concatenation it accepts has two such halves. */
  lemma HeaderSafeAppend(a: string, b: string)
    ensures HeaderSafe(a + b) <==> HeaderSafe(a) && HeaderSafe(b)
  {
    if HeaderSafe(a + b) {
      forall i | 0 <= i < |a| ensures HeaderChar(a[i]) {
        assert (a + b)[i] == a[i];
      }
      forall i | 0 <= i < |b| ensures HeaderChar(b[i]) {
        assert (a + b)[|a| + i] == b[i];
      }
    }
    if HeaderSafe(a) && HeaderSafe(b) {
      forall i | 0 <= i < |a + b| ensures HeaderChar((a + b)[i]) {
        if i < |a| {
          assert (a + b)[i] == a[i];
        } else {
          assert (a + b)[i] == b[i - |a|];
        }
      }
    }
  }

  /** A name the shape check refuses gets the same answer whatever the
      data directory holds: existence is never consulted. */
  lemma RejectionIgnoresDirectory(filename: string, some: set<string>, other: set<string>)
    requires filename == "" || !EndsWith(filename, ".csv") || HasDotDot(filename)
    ensures HandleDownload(filename, some) == HandleDownload(filename, other)
    ensures HandleDownload(filename, some).Rejected? && HandleDownload(filename, some).status == 400
  {
  }

  /** A name that climbs out of the data directory is refused even when the
      directory has a file of that name. */
  lemma TraversalRefused(name: string, existing: set<string>)
    ensures HandleDownload("../" + name, existing) == Rejected(400, InvalidMessage)
  {
    var f := "../" + name;
    assert f[0] == '.' && f[1] == '.';
  }
}
