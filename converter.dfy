/** The TransientX to Fetch candidate-list converter: it reads the tab-separated
    candidate file TransientX writes and writes the comma-separated candidate
    list Fetch reads, one candidate per line. Every value is carried as text. */
module TransientxToFetch {

  import opened Text

  /** One candidate in Fetch's terms; every field is unparsed text. */
  datatype CandidateData = CandidateData(
    filFilename: String,
    snr: String,
    tcand: String,
    dm: String,
    width: String)

  /** The candidate time is not derived yet: every candidate carries this text. */
  const Placeholder: String := "PLACEHOLDER"

  // Columns of a TransientX candidate line, counted from 0: beam, candidate
  // number, timestamp, dm, width, snr, stop frequency, start frequency, png
  // file name, source id, filterbank file name.
  const DmColumn: nat := 3
  const WidthColumn: nat := 4
  const SnrColumn: nat := 5
  const FilFilenameColumn: nat := 10

  /** The ways a run ends without writing the Fetch file. */
  datatype Error =
    | Usage(exitStatus: int)      // wrong argument count: usage message, then exit
    | FileNotFound(path: String)  // the TransientX file does not exist
    | IndexOutOfRange             // a line has too few tab-separated fields

  datatype Result<T> = Ok(value: T) | Err(error: Error)

  // ---------------------------------------------------------------------------
  // arguments

  /** The two paths the command line names. */
  datatype Paths = Paths(transientxFilename: String, fetchFilename: String)

  /** The argument vector, program name first, must hold exactly two more entries;
      otherwise the program prints its usage and exits with status 1. */
  function ParseArguments(argv: seq<String>): (r: Result<Paths>)
    ensures r.Ok? <==> |argv| == 3
    ensures r.Ok? ==> [r.value.transientxFilename, r.value.fetchFilename] == argv[1..]
    ensures r.Err? ==> r.error == Usage(1)
  {
    if |argv| != 3 then Err(Usage(1)) else Ok(Paths(argv[1], argv[2]))
  }

  // ---------------------------------------------------------------------------
  // parsing

  /** One TransientX line, already stripped: split it on tabs and keep the
      filterbank file name, snr, dm and width columns. Reading column 10 of a
      line with fewer than 11 fields is an index error. */
  function ParseLine(text: String): (r: Result<CandidateData>)
    ensures r.Ok? <==> Count(text, '\t') >= FilFilenameColumn
    ensures r.Err? ==> r.error == IndexOutOfRange
    ensures r.Ok? ==> r.value.tcand == Placeholder
  {
    var fields := Split(text, '\t');
    if |fields| <= FilFilenameColumn then Err(IndexOutOfRange)
    else Ok(CandidateData(
      fields[FilFilenameColumn], fields[SnrColumn], Placeholder, fields[DmColumn], fields[WidthColumn]))
  }

  /** A line read from the file is accepted: stripped, it has at least the 11
      fields the filterbank file name column needs. */
  predicate LineParses(line: String)
  {
    Count(Strip(line), '\t') >= FilFilenameColumn
  }

  /** The result of stripping and parsing each line of `lines`, in order. */
  function LineResults(lines: seq<String>): (rs: seq<Result<CandidateData>>)
    ensures |rs| == |lines|
  {
    seq(|lines|, k requires 0 <= k < |lines| => ParseLine(Strip(lines[k])))
  }

  /** `r` gathers the per-line results `rs`: success exactly when every line
      succeeds, and then the candidates of the lines, in order. */
  ghost predicate Collects(rs: seq<Result<CandidateData>>, r: Result<seq<CandidateData>>)
  {
    && (r.Ok? <==> forall k :: 0 <= k < |rs| ==> rs[k].Ok?)
    && (r.Ok? ==> |r.value| == |rs| && forall k :: 0 <= k < |rs| ==> rs[k] == Ok(r.value[k]))
  }

  /** One step of gathering: the first line's result in front of the rest. */
  lemma CollectsCons(first: Result<CandidateData>, rs: seq<Result<CandidateData>>, rest: Result<seq<CandidateData>>)
    requires Collects(rs, rest)
    ensures Collects([first] + rs,
      if first.Err? then Err(first.error)
      else if rest.Err? then rest
      else Ok([first.value] + rest.value))
  {
    var all := [first] + rs;
    assert forall k :: 1 <= k < |all| ==> all[k] == rs[k - 1];
    if first.Err? {
      assert !all[0].Ok?;
    } else if rest.Err? {
      var j :| 0 <= j < |rs| && !rs[j].Ok?;
      assert !all[j + 1].Ok?;
    } else {
      var v := [first.value] + rest.value;
      assert forall k :: 1 <= k < |all| ==> v[k] == rest.value[k - 1];
    }
  }

  /** The per-line results gathered in order: the first failing line's error,
      or else the candidates of all lines. */
  function Gather(rs: seq<Result<CandidateData>>): (r: Result<seq<CandidateData>>)
    ensures Collects(rs, r)
    ensures r.Err? ==> Err(r.error) in rs
  {
    if rs == [] then Ok([])
    else
      var rest := Gather(rs[1..]);
      assert rs == [rs[0]] + rs[1..];
      CollectsCons(rs[0], rs[1..], rest);
      if rs[0].Err? then Err(rs[0].error)
      else if rest.Err? then rest
      else Ok([rs[0].value] + rest.value)
  }

  /** Gathered per-line results, restated line by line. */
  lemma CollectsLines(lines: seq<String>, r: Result<seq<CandidateData>>)
    requires Collects(LineResults(lines), r)
    requires r.Err? ==> Err(r.error) in LineResults(lines)
    ensures r.Ok? <==> forall k :: 0 <= k < |lines| ==> LineParses(lines[k])
    ensures r.Err? ==> r.error == IndexOutOfRange
    ensures r.Ok? ==> |r.value| == |lines|
    ensures r.Ok? ==> forall k :: 0 <= k < |lines| ==> Ok(r.value[k]) == ParseLine(Strip(lines[k]))
  {
    var rs := LineResults(lines);
    assert forall k :: 0 <= k < |lines| ==> (LineParses(lines[k]) <==> rs[k].Ok?);
    if r.Err? {
      var k :| 0 <= k < |rs| && rs[k] == Err(r.error);
      assert ParseLine(Strip(lines[k])).Err?;
    }
  }

  /** Every line of a file, stripped and parsed in order (the list
      comprehension of the source). The first line that fails ends the parse
      with its error. */
  function ParseLines(lines: seq<String>): (r: Result<seq<CandidateData>>)
    ensures r.Ok? <==> forall k :: 0 <= k < |lines| ==> LineParses(lines[k])
    ensures r.Err? ==> r.error == IndexOutOfRange
    ensures r.Ok? ==> |r.value| == |lines|
    ensures r.Ok? ==> forall k :: 0 <= k < |lines| ==> Ok(r.value[k]) == ParseLine(Strip(lines[k]))
  {
    var r := Gather(LineResults(lines));
    CollectsLines(lines, r);
    r
  }

  /** Every line of the file holding `content` is accepted. */
  predicate FileParses(content: String)
  {
    forall k :: 0 <= k < |ReadLines(content)| ==> LineParses(ReadLines(content)[k])
  }

  /** The TransientX file holding `content`: one candidate per line it reads. */
  function ParseFile(content: String): (r: Result<seq<CandidateData>>)
    ensures r.Ok? <==> FileParses(content)
    ensures r.Err? ==> r.error == IndexOutOfRange
    ensures r.Ok? ==> |r.value| == Count(content, '\n') + (if content != [] && content[|content| - 1] != '\n' then 1 else 0)
  {
    ReadLinesSpec(content);
    ParseLines(ReadLines(content))
  }

  // ---------------------------------------------------------------------------
  // writing

  /** The Fetch columns of a candidate, in Fetch's order. */
  function FetchFields(c: CandidateData): (f: seq<String>)
    ensures |f| == 5
  {
    [c.filFilename, c.snr, c.tcand, c.dm, c.width]
  }

  /** The Fetch line of a candidate: its fields joined by commas, then a newline. */
  function FetchLine(c: CandidateData): (l: String)
    ensures |l| > 0 && l[|l| - 1] == '\n'
  {
    Join(FetchFields(c), ',') + "\n"
  }

  /** The Fetch lines of the candidates, one per candidate, in order. */
  function FetchLines(data: seq<CandidateData>): (lines: seq<String>)
    ensures |lines| == |data|
  {
    seq(|data|, k requires 0 <= k < |data| => FetchLine(data[k]))
  }

  /** The whole Fetch file written for `data`: empty exactly when there are no
      candidates, and otherwise ending with the last candidate's newline. */
  function FetchText(data: seq<CandidateData>): (t: String)
    ensures t == [] <==> data == []
    ensures data != [] ==> t[|t| - 1] == '\n'
  {
    if data == [] then Concat(FetchLines(data))
    else
      var init, last := data[..|data| - 1], data[|data| - 1];
      assert FetchLines(data) == FetchLines(init) + [FetchLine(last)];
      ConcatAppend(FetchLines(init), FetchLine(last));
      Concat(FetchLines(data))
  }

  lemma FetchTextAppend(data: seq<CandidateData>, c: CandidateData)
    ensures FetchText(data + [c]) == FetchText(data) + FetchLine(c)
  {
    assert FetchLines(data + [c]) == FetchLines(data) + [FetchLine(c)];
    ConcatAppend(FetchLines(data), FetchLine(c));
  }

  /** A text file opened for writing: opening it empties it, each write appends. */
  class OutputFile {
    var contents: String

    constructor Open()
      ensures contents == []
    {
      contents := [];
    }

    method Write(s: String)
      modifies this
      ensures contents == old(contents) + s
    {
      contents := contents + s;
    }
  }

  /** Opens the Fetch file and writes one joined, newline-terminated line per
      candidate, in order. */
  method WriteFetchFile(data: seq<CandidateData>) returns (f: OutputFile)
    ensures fresh(f)
    ensures f.contents == FetchText(data)
  {
    f := new OutputFile.Open();
    for i := 0 to |data|
      invariant f.contents == FetchText(data[..i])
    {
      var candidate := data[i];
      var fetchData := [candidate.filFilename, candidate.snr, candidate.tcand, candidate.dm, candidate.width];
      f.Write(Join(fetchData, ',') + "\n");
      assert data[..i + 1] == data[..i] + [candidate];
      FetchTextAppend(data[..i], candidate);
    }
    assert data[..|data|] == data;
  }

  // ---------------------------------------------------------------------------
  // the program

  /** The file system as the program sees it: the contents of each existing path. */
  type FileSystem = map<String, String>

  /** The program's run: check the arguments, check that the TransientX file
      exists, parse all of it, and only then open and write the Fetch file.
      Any error ends the run with the file system as it was. */
  method Run(argv: seq<String>, fs: FileSystem) returns (r: Result<FileSystem>)
    ensures |argv| != 3 ==> r == Err(Usage(1))
    ensures |argv| == 3 && argv[1] !in fs ==> r == Err(FileNotFound(argv[1]))
    ensures r == Err(IndexOutOfRange) <==> |argv| == 3 && argv[1] in fs && !FileParses(fs[argv[1]])
    ensures r.Ok? ==> |argv| == 3 && argv[1] in fs
    ensures r.Ok? ==> r.value.Keys == fs.Keys + {argv[2]}
    ensures r.Ok? ==> forall p :: p in fs && p != argv[2] ==> r.value[p] == fs[p]
    ensures r.Ok? ==> var lines := ReadLines(fs[argv[1]]); var out := ReadLines(r.value[argv[2]]);
      && |out| == |lines|
      && forall k :: 0 <= k < |lines| ==> out[k] == FetchLine(ParseLine(Strip(lines[k])).value)
    ensures r.Ok? <==> |argv| == 3 && argv[1] in fs && FileParses(fs[argv[1]])
    ensures r.Ok? ==> r.value[argv[2]] == FetchText(ParseFile(fs[argv[1]]).value)
  {
    var args := ParseArguments(argv);
    if args.Err? {
      return Err(args.error);
    }
    var transientxFilename, fetchFilename := args.value.transientxFilename, args.value.fetchFilename;
    assert transientxFilename == argv[1..][0] && fetchFilename == argv[1..][1];
    if transientxFilename !in fs {
      return Err(FileNotFound(transientxFilename));
    }
    var content := fs[transientxFilename];
    var data := ParseFile(content);
    if data.Err? {
      return Err(data.error);
    }
    var f := WriteFetchFile(data.value);
    var written := f.contents;
    ConvertedLines(content);
    r := Ok(fs[fetchFilename := written]);
    assert r.value[argv[2]] == FetchText(data.value);
  }

  // ---------------------------------------------------------------------------
  // properties

  /** A TransientX line made of tab-free fields parses exactly when it has at
      least 11 of them, and then the candidate holds columns 10, 5, 3 and 4
      verbatim and the placeholder time. */
  lemma ParseLineFields(fields: seq<String>)
    requires |fields| >= 1
    requires forall k :: 0 <= k < |fields| ==> '\t' !in fields[k]
    ensures ParseLine(Join(fields, '\t')) ==
      if |fields| > FilFilenameColumn
      then Ok(CandidateData(fields[10], fields[5], Placeholder, fields[3], fields[4]))
      else Err(IndexOutOfRange)
  {
    SplitJoin(fields, '\t');
  }

  /** Fields after the eleventh do not affect the candidate. */
  lemma ExtraFieldsIgnored(fields: seq<String>, extra: seq<String>)
    requires |fields| > FilFilenameColumn
    requires forall k :: 0 <= k < |fields| ==> '\t' !in fields[k]
    requires forall k :: 0 <= k < |extra| ==> '\t' !in extra[k]
    ensures ParseLine(Join(fields + extra, '\t')) == ParseLine(Join(fields, '\t'))
  {
    var all := fields + extra;
    assert forall k :: 0 <= k < |all| ==> all[k] == if k < |fields| then fields[k] else extra[k - |fields|];
    ParseLineFields(all);
    ParseLineFields(fields);
  }

  /** A blank line splits to one empty field and is rejected. */
  lemma BlankLineRejected(line: String)
    requires AllWhitespace(line)
    ensures ParseLines([line]) == Err(IndexOutOfRange)
  {
    StripUnique(line, [], []);
    assert line + [] + [] == line;
  }

  /** Every parsed candidate carries the placeholder time. */
  lemma PlaceholderTime(content: String)
    requires ParseFile(content).Ok?
    ensures forall k :: 0 <= k < |ParseFile(content).value| ==> ParseFile(content).value[k].tcand == Placeholder
  {
    var lines := ReadLines(content);
    var data := ParseFile(content).value;
    forall k | 0 <= k < |data| ensures data[k].tcand == Placeholder {
      assert Ok(data[k]) == ParseLine(Strip(lines[k]));
    }
  }

  /** The sample candidate of the TransientX format, its eleven columns joined
      by tabs, parses to the filterbank file, snr, dm and width it names, and
      is written as the Fetch line `cand.fil,12.5,PLACEHOLDER,56.0,0.002`. */
  lemma SampleLine(fields: seq<String>)
    requires fields == ["1", "2", "2023-01-01", "56.0", "0.002", "12.5", "1500", "1200", "cand.png", "3", "cand.fil"]
    ensures ParseLine(Join(fields, '\t')) == Ok(CandidateData("cand.fil", "12.5", "PLACEHOLDER", "56.0", "0.002"))
    ensures FetchLine(ParseLine(Join(fields, '\t')).value) == "cand.fil,12.5,PLACEHOLDER,56.0,0.002\n"
  {
    ParseLineFields(fields);
    SampleFetchLine(ParseLine(Join(fields, '\t')).value);
  }

  /** The sample candidate's Fetch line. */
  lemma SampleFetchLine(c: CandidateData)
    requires c == CandidateData("cand.fil", "12.5", "PLACEHOLDER", "56.0", "0.002")
    ensures FetchLine(c) == "cand.fil,12.5,PLACEHOLDER,56.0,0.002\n"
  {
    FetchLineFormat(c);
    SampleSpelling(c.filFilename, c.snr, c.tcand, c.dm, c.width);
  }

  /** The sample's five columns, separated by commas and ended by a newline. */
  lemma SampleSpelling(f: String, s: String, t: String, d: String, w: String)
    requires f == "cand.fil" && s == "12.5" && t == "PLACEHOLDER" && d == "56.0" && w == "0.002"
    ensures f + [','] + s + [','] + t + [','] + d + [','] + w + "\n" == "cand.fil,12.5,PLACEHOLDER,56.0,0.002\n"
  {
  }

  /** A Fetch line spells out the five columns separated by commas. */
  lemma FetchLineFormat(c: CandidateData)
    ensures FetchLine(c) == c.filFilename + [','] + c.snr + [','] + c.tcand + [','] + c.dm + [','] + c.width + "\n"
  {
    var a, b, t, d, w := c.filFilename, c.snr, c.tcand, c.dm, c.width;
    JoinAppend([a], b, ',');
    assert [a] + [b] == [a, b];
    JoinAppend([a, b], t, ',');
    assert [a, b] + [t] == [a, b, t];
    JoinAppend([a, b, t], d, ',');
    assert [a, b, t] + [d] == [a, b, t, d];
    JoinAppend([a, b, t, d], w, ',');
    assert [a, b, t, d] + [w] == FetchFields(c);
  }

  /** A line read from a file holds no newline once stripped. */
  lemma StrippedLineHasNoNewline(l: String, isLast: bool)
    requires IsReadLine(l, isLast)
    ensures '\n' !in Strip(l)
  {
    if IsTerminatedLine(l) {
      var body := l[..|l| - 1];
      assert l == body + ['\n'];
      StripAppendWhitespace(body, '\n');
      StripExcludes(body, '\n');
    } else {
      StripExcludes(l, '\n');
    }
  }

  /** A candidate parsed from newline-free text has newline-free fields. */
  lemma ParsedFieldsHaveNoNewline(text: String)
    requires '\n' !in text
    requires ParseLine(text).Ok?
    ensures forall k :: 0 <= k < 5 ==> '\n' !in FetchFields(ParseLine(text).value)[k]
  {
    SplitExcludes(text, '\t', '\n');
  }

  /** A candidate whose fields hold no newline writes one complete line. */
  lemma FetchLineIsLine(c: CandidateData)
    requires forall k :: 0 <= k < 5 ==> '\n' !in FetchFields(c)[k]
    ensures IsTerminatedLine(FetchLine(c))
  {
    JoinExcludes(FetchFields(c), ',', '\n');
    var l := FetchLine(c);
    assert l[..|l| - 1] == Join(FetchFields(c), ',');
  }

  /** Round trip of one Fetch line: without its newline, splitting it on commas
      gives back the five Fetch fields in order, when none of them holds a comma. */
  lemma FetchLineRoundTrip(c: CandidateData)
    requires forall k :: 0 <= k < 5 ==> ',' !in FetchFields(c)[k]
    ensures |FetchLine(c)| > 0 && FetchLine(c)[|FetchLine(c)| - 1] == '\n'
    ensures Split(FetchLine(c)[..|FetchLine(c)| - 1], ',') == [c.filFilename, c.snr, c.tcand, c.dm, c.width]
  {
    var l := FetchLine(c);
    assert l[..|l| - 1] == Join(FetchFields(c), ',');
    SplitJoin(FetchFields(c), ',');
  }

  /** The Fetch file read back line by line gives one line per candidate, in order,
      when no field holds a newline. */
  lemma FetchTextLines(data: seq<CandidateData>)
    requires forall i, k :: 0 <= i < |data| && 0 <= k < 5 ==> '\n' !in FetchFields(data[i])[k]
    ensures ReadLines(FetchText(data)) == FetchLines(data)
  {
    var lines := FetchLines(data);
    forall i | 0 <= i < |lines| ensures IsTerminatedLine(lines[i]) {
      FetchLineIsLine(data[i]);
    }
    ReadLinesConcat(lines);
  }

  /** End to end: a TransientX file that parses turns into a Fetch file with as
      many lines as it has, line k being the Fetch line of its line k. */
  lemma ConvertedLines(content: String)
    requires ParseFile(content).Ok?
    ensures var lines := ReadLines(content); var data := ParseFile(content).value;
      && |data| == |lines|
      && ReadLines(FetchText(data)) == FetchLines(data)
      && forall k :: 0 <= k < |lines| ==> data[k] == ParseLine(Strip(lines[k])).value
  {
    var lines := ReadLines(content);
    var data := ParseFile(content).value;
    ReadLinesSpec(content);
    forall i, k | 0 <= i < |data| && 0 <= k < 5 ensures '\n' !in FetchFields(data[i])[k] {
      StrippedLineHasNoNewline(lines[i], i == |lines| - 1);
      assert Ok(data[i]) == ParseLine(Strip(lines[i]));
      ParsedFieldsHaveNoNewline(Strip(lines[i]));
    }
    FetchTextLines(data);
  }

  /** Strip runs before the split, and a tab is whitespace: a line whose
      filterbank file name column is empty loses its last tab and is rejected. */
  lemma EmptyFilenameRejected(fields: seq<String>)
    requires |fields| == FilFilenameColumn + 1
    requires forall k :: 0 <= k < |fields| ==> '\t' !in fields[k]
    requires fields[FilFilenameColumn] == []
    ensures ParseLine(Strip(Join(fields, '\t'))).Err?
  {
    var front := fields[..FilFilenameColumn];
    JoinAppend(front, [], '\t');
    assert front + [[]] == fields;
    var s := Join(front, '\t');
    assert Join(fields, '\t') == s + ['\t'];
    StripAppendWhitespace(s, '\t');
    JoinCount(front, '\t');
    StripCount(s, '\t');
  }

  lemma {:induction false} JoinAppend(parts: seq<String>, last: String, sep: char)
    requires |parts| >= 1
    ensures Join(parts + [last], sep) == Join(parts, sep) + [sep] + last
  {
    var all := parts + [last];
    assert all[1..] == parts[1..] + [last];
    if |parts| > 1 {
      JoinAppend(parts[1..], last, sep);
    }
  }

  /** Strip keeps a slice of its argument, so it cannot add occurrences. */
  lemma StripCount(s: String, c: char)
    ensures Count(Strip(s), c) <= Count(s, c)
  {
    var pre, post := StripDecompose(s);
    CountAppend(pre, Strip(s), c);
    CountAppend(pre + Strip(s), post, c);
  }
}
