# TransientX to Fetch candidate converter, modelled in Dafny

`cands_transientx_to_fetch.py` converts a TransientX single-pulse candidate
file into an input file for Fetch. It takes two command-line arguments (the
TransientX file and the Fetch file to write). It reads the TransientX file
line by line, strips each line, and splits it on tabs. From the columns it
keeps the filterbank file name (column 10), the signal-to-noise ratio
(column 5), the dispersion measure (column 3) and the width (column 4). The
candidate time is always the text `PLACEHOLDER`. For each candidate it writes
one comma-separated line `fil_filename,snr,tcand,dm,width` to the Fetch file.

The project has two modules:

- `Text` (`text.dfy`) contains the Python string operations the converter
  uses, written out and specified:
  - `str.split` with one separator (`Split`);
  - `sep.join` (`Join`);
  - `str.strip` with no argument, over Python's whitespace characters (`Strip`);
  - `readlines` on a text file (`ReadLines`);
  - writing a sequence of lines (`Concat`).
  Their properties are proved: the split/join round trip, that strip is
  idempotent and unique, and that reading back written lines returns them.
- `TransientxToFetch` (`converter.dfy`) contains:
  - the candidate record;
  - argument handling;
  - line and file parsing;
  - the output file (a class whose `Write` appends);
  - `WriteFetchFile`, a method whose loop appends one line per candidate;
  - `Run`, the whole program where `main` does: arguments, existence check, parse, write.

The file system is a value `map<String, String>` from paths to contents,
passed to `Run`, and `Run` returns the new map. A Python exception or a call
to `sys.exit` becomes an `Err` result:
- `Usage(1)` for a wrong argument count;
- `FileNotFound(path)` for a missing input;
- `IndexOutOfRange` for a line with too few columns.

On every error the file system is left as it was. A parse error stops the
program before the output file is opened, as in the source.

The source and its docstrings agree on the column layout. One consequence
of the code worth knowing: the line is stripped before it is split, and a tab
is whitespace. So empty columns at either end of a line are lost and the
columns shift. A line whose last column (the filterbank file name) is empty
therefore fails with an index error (`EmptyFilenameRejected`). The model
follows the code.

## Model

| member | source | states |
|---|---|---|
| TransientxToFetch.ParseArguments | cands_transientx_to_fetch.py:19-24 | succeeds exactly when there are three argv entries (program name plus two), returning argv[1:] as the input and output paths; otherwise the usage error with exit status 1 |
| TransientxToFetch.ParseLine | cands_transientx_to_fetch.py:32-56 | succeeds exactly when the text has at least ten tabs (eleven columns); otherwise the index error; the candidate time is always PLACEHOLDER |
| TransientxToFetch.ParseLineFields | cands_transientx_to_fetch.py:48-56 | for tab-free columns joined by tabs, the record holds columns 10, 5, 3 and 4 as file name, snr, dm and width when there are more than ten columns, and the index error otherwise |
| TransientxToFetch.ExtraFieldsIgnored | cands_transientx_to_fetch.py:48-56 | columns after the eleventh do not change the parsed record |
| TransientxToFetch.SampleLine | cands_transientx_to_fetch.py:32-75 | a concrete eleven-column TransientX line parses to the file name cand.fil, snr 12.5, dm 56.0 and width 0.002, and that candidate is written as the Fetch line `cand.fil,12.5,PLACEHOLDER,56.0,0.002` |
| TransientxToFetch.SampleFetchLine | cands_transientx_to_fetch.py:64-75 | the sample candidate's Fetch line is `cand.fil,12.5,PLACEHOLDER,56.0,0.002` followed by a newline |
| TransientxToFetch.EmptyFilenameRejected | cands_transientx_to_fetch.py:48-51 | a stripped eleven-column line whose last column is empty has lost that column and fails with the index error |
| TransientxToFetch.LineResults | cands_transientx_to_fetch.py:61 | one result per line: the line stripped and parsed |
| TransientxToFetch.Gather | cands_transientx_to_fetch.py:61 | the list comprehension's outcome over the per-line results: success exactly when every line succeeds, then the candidates in line order; a failure carries the error of one of the lines |
| TransientxToFetch.CollectsCons | cands_transientx_to_fetch.py:61 | evaluating the first line before the rest: its error wins, otherwise its candidate goes in front of the rest's |
| TransientxToFetch.CollectsLines | cands_transientx_to_fetch.py:61 | gathered results restated per line: success exactly when every line is accepted, the error is the index error, and candidate k is line k stripped and parsed |
| TransientxToFetch.ParseLines | cands_transientx_to_fetch.py:61 | each line is stripped and parsed; the list succeeds exactly when every line parses, has one record per line in order, and fails with the index error otherwise |
| TransientxToFetch.BlankLineRejected | cands_transientx_to_fetch.py:48-51 | a line that is only whitespace (an empty line included) makes the parse fail with the index error |
| TransientxToFetch.ParseFile | cands_transientx_to_fetch.py:59-61 | reads the content as readlines does and parses every line; succeeds exactly when every line parses, with as many records as the file has lines |
| TransientxToFetch.PlaceholderTime | cands_transientx_to_fetch.py:53 | every record parsed from a file has the candidate time PLACEHOLDER |
| TransientxToFetch.ConvertedLines | cands_transientx_to_fetch.py:61 | a parsed file has one record per line, record k is line k stripped and parsed, and the Fetch text of those records reads back as exactly their Fetch lines |
| TransientxToFetch.FetchFields | cands_transientx_to_fetch.py:67-73 | the five Fetch columns of a candidate (their order and content are stated by FetchLineFormat) |
| TransientxToFetch.FetchLine | cands_transientx_to_fetch.py:75 | every Fetch line is non-empty and ends with a newline |
| TransientxToFetch.FetchText | cands_transientx_to_fetch.py:66-75 | the written Fetch file is empty exactly when there are no candidates, and otherwise ends with a newline; its lines are stated by FetchTextLines |
| TransientxToFetch.FetchLineFormat | cands_transientx_to_fetch.py:67-75 | a Fetch line is file name, snr, tcand, dm and width separated by commas and ended by a newline |
| TransientxToFetch.FetchLineRoundTrip | cands_transientx_to_fetch.py:67-75 | when no column holds a comma, the Fetch line ends in a newline and splitting the rest on commas gives back the five columns in order |
| TransientxToFetch.FetchLineIsLine | cands_transientx_to_fetch.py:75 | when no column holds a newline, a Fetch line is exactly one newline-terminated line |
| TransientxToFetch.StrippedLineHasNoNewline | cands_transientx_to_fetch.py:61 | a line produced by readlines has no newline left once stripped |
| TransientxToFetch.ParsedFieldsHaveNoNewline | cands_transientx_to_fetch.py:48-56 | a record parsed from newline-free text has no newline in any of its Fetch columns |
| TransientxToFetch.FetchTextLines | cands_transientx_to_fetch.py:66-75 | when no column holds a newline, reading back the written Fetch text gives one line per candidate, in order |
| TransientxToFetch.FetchLines | cands_transientx_to_fetch.py:66-75 | one Fetch line per candidate |
| TransientxToFetch.FetchTextAppend | cands_transientx_to_fetch.py:66-75 | writing one more candidate appends exactly its Fetch line |
| TransientxToFetch.WriteFetchFile | cands_transientx_to_fetch.py:64-75 | returns a newly opened file whose contents are the Fetch lines of all candidates in order; the loop keeps the invariant that the file holds the lines of the candidates written so far |
| TransientxToFetch.OutputFile.Write | cands_transientx_to_fetch.py:75 | appends the text to the file's contents |
| TransientxToFetch.OutputFile.Open | cands_transientx_to_fetch.py:65 | opening for writing starts with empty contents |
| TransientxToFetch.Run | cands_transientx_to_fetch.py:78-83 | usage error for a wrong argument count; file-not-found for a missing input; index error exactly when the input exists but a line does not parse; a run with three arguments, an existing input and a file whose lines all parse succeeds; then only the output path is created or replaced, its contents are the Fetch text of the parsed candidates, and its line k is the Fetch line of input line k |
| TransientxToFetch.StripCount | cands_transientx_to_fetch.py:61 | stripping never adds occurrences of a character |
| TransientxToFetch.JoinAppend | cands_transientx_to_fetch.py:75 | joining one more part appends the separator and that part |
| Text.Split | cands_transientx_to_fetch.py:48 | str.split: one more part than there are separators, no part holds the separator, and joining the parts gives back the text |
| Text.SplitAtSeparator | cands_transientx_to_fetch.py:48 | splitting at the first separator gives the separator-free prefix followed by the split of the rest |
| Text.SplitJoin | cands_transientx_to_fetch.py:48 | split after join returns the separator-free parts |
| Text.SplitExcludes | cands_transientx_to_fetch.py:48 | a character absent from the text is absent from every part |
| Text.Join | cands_transientx_to_fetch.py:75 | `sep.join`: joining two or more parts puts a separator in the text; the separator count and the round trip are stated by JoinCount and SplitJoin |
| Text.JoinCount | cands_transientx_to_fetch.py:75 | joining separator-free parts puts exactly one separator between neighbours |
| Text.JoinExcludes | cands_transientx_to_fetch.py:75 | a character other than the separator that is in no part is not in the joined text |
| Text.Count | cands_transientx_to_fetch.py:48 | the number of occurrences is bounded by the length and is zero exactly when the character is absent |
| Text.CountAppend | cands_transientx_to_fetch.py:48 | occurrences in a concatenation add up |
| Text.FirstIndex | cands_transientx_to_fetch.py:48 | the index of the first occurrence of a character that is present |
| Text.Strip | cands_transientx_to_fetch.py:61 | str.strip(): the result is no longer than the text and is empty or starts and ends with non-whitespace |
| Text.LeadingWhitespace | cands_transientx_to_fetch.py:61 | the length of the longest whitespace prefix |
| Text.TrailingWhitespace | cands_transientx_to_fetch.py:61 | the length of the longest whitespace suffix |
| Text.StripDecompose | cands_transientx_to_fetch.py:61 | the text is its stripped form surrounded by whitespace only |
| Text.StripUnique | cands_transientx_to_fetch.py:61 | whitespace around a text with non-whitespace ends is exactly what strip removes |
| Text.StripIdempotent | cands_transientx_to_fetch.py:61 | stripping twice is stripping once |
| Text.StripAppendWhitespace | cands_transientx_to_fetch.py:61 | a trailing whitespace character (the newline readlines keeps) does not change the stripped line |
| Text.StripExcludes | cands_transientx_to_fetch.py:61 | stripping adds no character |
| Text.ReadLines | cands_transientx_to_fetch.py:61 | `readlines`: no lines exactly for an empty file; the lines themselves are stated by ReadLinesSpec |
| Text.ReadLinesSpec | cands_transientx_to_fetch.py:61 | readlines: the lines concatenate to the content, every line but the last ends in its only newline, and there is one line per newline plus one for an unterminated tail |
| Text.ReadLinesConcat | cands_transientx_to_fetch.py:61 | reading back newline-terminated lines, written one after another, returns them |
| Text.ReadLinesPrepend | cands_transientx_to_fetch.py:61 | a terminated line in front of the content is read as its own first line |
| Text.ConcatAppend | cands_transientx_to_fetch.py:75 | writing one more part appends it |

## Left out

- `fit_cluster.py` is a separate plotting and fitting script and is not part of this model.
- File I/O: the file system is a map from paths to text. Opening, reading, writing and closing are taken to succeed, except that a missing input gives `FileNotFound`. Permissions, directories and a path that exists but is not a regular file are not modelled.
- Text encoding, and Python's universal-newline translation (`\r\n` and a lone `\r` read as `\n`), are not modelled. Content is the text after decoding, with `\n` as the only line break.
- The usage message printed by `parse_arguments` is not modelled; only the exit status 1 is.
- Python's traceback and exit status for an uncaught `FileNotFoundError` or `IndexError` are modelled only as the `Err` value `Run` returns.
- An output path equal to the input path: the source truncates the input only after reading it, and the model overwrites the map entry in the same order.
- The loop in `write_fetch_file` appends to an open file. The model appends to the `contents` field of an `OutputFile` object. Buffering and partial writes are not modelled.
