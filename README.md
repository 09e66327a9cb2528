# Election results crawler — a Dafny model

The program crawls the Central Election Commission's site region by region. It descends
the tree of region pages, reading each page's links (`get_regions`). It stops at pages
that link to a subject's election-commission site (a leaf). From each leaf's precinct
table it extracts one `;`-separated record per precinct (`parse_uics`), with one retry.
A visited set `urls` keeps the nested recursion from entering a page twice
(`parse_region`). The main block writes the 27-column header and then crawls every
region of the root page. A reader, `load_data`, reads such a file back. It drops the
header, filters by region and by precinct number, and keeps field 2 and the last seven
fields as integers.

The crawler appears twice in the repository, identically. `parser.py:21-119` is
`elections.py:24-122`, three lines further down. The main block `parser.py:120-133`
is `elections.py:174-187`, fifty-four lines further down. The table below cites
`parser.py` for the crawler and `elections.py` for `load_data`.

The model has these modules:

- `Text`: the Python string operations the code relies on. These are `startswith`,
  `in`, `join`, `split(c)`, `split()`, `str(int)` and Python 2 `int(str)`, which strips
  surrounding white space itself. The pairs that have an inverse come with their round
  trips: `split(c)` after `join`, and `int` after `str`.
- `Errors`: the exceptions as values (`Failure`) and `Result`.
- `Table`: one attempt of `parse_uics`, as a function (`Attempt`) and as a method
  (`Extract`). The method does the two deletions and the width-checking loop, and is
  proved to return what `Attempt` returns.
- `Regions`: `get_regions` and the commission-link query of `parse_region`.
- `Crawl`: the crawl engine. The functions `Uics`, `Region`, `Children`, `Roots` and
  `Driver` say what each call does to the crawler's state (`World`). The class
  `Crawler` keeps that state in fields (`visited` is `urls`, `out` is the output
  stream). Its methods `ParseUics`, `ParseRegion` (with its child loop in
  `ParseChildren`) and `Run` are proved to end in exactly the state the functions give.
- `CrawlFacts`: what the crawl guarantees. This covers the bounded retry, leaves, no
  nested revisits, that every child and every root link is reached, that only
  extraction texts are written, and a small site on which the driver crawls a page
  twice.
- `Loader`: `load_data`'s selection, on lines already split at `;`.
- `Pipeline`: the crawler's output read back by `load_data`.

The network is a parameter, `Crawl.Env`, with three parts:

- `site` maps region addresses to pages. An address outside it fails to fetch.
- `fetch(url, n)` gives the commission page seen by the n-th table request. A retry
  can therefore see a different page.
- `accepts(n)` says whether the n-th write to the output succeeds.

## Model

| member | source | states |
|---|---|---|
| Text.Split | elections.py:128 | `str.split` on one character always yields at least one field |
| Text.SplitJoin | parser.py:83 | splitting a `;`-join of parts free of `;` gives back exactly those parts |
| Text.JoinFree | parser.py:86 | a join of parts and a separator that all lack a character lacks it too |
| Text.Digits | parser.py:83 | `str` of a non-negative integer is digits without a leading zero |
| Text.ValueOfDigits | parser.py:83 | the digits `str` writes read back as the same number |
| Text.ParseStr | parser.py:83 | `int(str(v)) == v` for every integer, negative ones included |
| Text.ParseNegative | parser.py:83 | `int` of `-` followed by the digits of n is -n |
| Text.StripSurrounding | elections.py:142 | `int()` strips only surrounding white space: every text is white space, its stripped text, and white space, in that order |
| Text.StripNoSpace | elections.py:142 | text with no surrounding white space is left as it is |
| Text.ParseIntPadded | elections.py:142 | white space around a text does not change what `int()` reads from it |
| Text.ParseSpacedSign | elections.py:142 | Python 2 `int()` skips white space between the sign and the digits: `- n` reads as -n and `+ n` as n |
| Text.ParseIntLetter | elections.py:132 | a text that opens with a letter is not an integer |
| Text.ParseInt | elections.py:142 | Python 2 `int()`: a text it reads holds a digit; `ParseStr`, `ParseNegative`, `ParseIntPadded`, `ParseSpacedSign` and `ParseIntLetter` state what it accepts and rejects |
| Text.Words | elections.py:140 | `str.split()` yields non-empty words without white space, no more words than characters |
| Text.WordsAppend | elections.py:140 | a space between two texts separates their words: the words of `a + " " + b` are the words of `a` followed by those of `b` |
| Text.Ints | parser.py:69 | `[int(j) for j in texts]` succeeds exactly when every text is an integer, and then holds their values in order |
| Table.ParseRows | parser.py:69-70 | every row's bold cells become integers, row by row, or the attempt fails when any cell is not an integer |
| Table.MetricsIndex | parser.py:72-76 | after `del data[19]` and then `del data[0]`, exactly 25 rows remain, and metric row k is original row k+1 below 18 and original row k+2 from 18 on |
| Table.SourceOnto | parser.py:73-76 | every original row other than 0 and 19 becomes some metric row |
| Table.Zip | parser.py:81 | `zip(*rows)` has no more tuples than the shortest row, and each tuple holds one element of every row; `ZipTransposes` gives the exact transpose |
| Table.ZipTransposes | parser.py:81 | `zip(*rows)` of rows of equal width n has n tuples, and tuple j holds element j of every row |
| Table.Attempt | parser.py:56-84 | a successful attempt had a first table with rows, and yields one line per precinct label; `AttemptOkIff` and `AttemptLines` give when it succeeds and what it yields |
| Table.AttemptOkIff | parser.py:56-84 | an attempt succeeds exactly when the first matching table has 27 rows and all bold cells are integers, rows 0 and 19 have no bold cells, and every other row has as many cells as row 0 has labels |
| Table.AttemptLines | parser.py:81-84 | a successful attempt yields one line per label, and line j is `name;label_j;` followed by the 25 metric values of column j |
| Table.Record | parser.py:83 | a record split at `;` gives back the name, the label and the values' decimal forms when the name and the label hold no `;` |
| Table.RecordFields | parser.py:83 | a record line has 27 fields when split at `;`: the name, the label, and the 25 values as `str` writes them |
| Table.StrNoSeparator | parser.py:83 | `str` of an integer holds neither `;` nor a newline |
| Table.Output | parser.py:86 | what one attempt writes always ends in a newline; `Pipeline.OutputLines` reads its lines back |
| Table.NoLabelsWritesNewline | parser.py:86 | a well-formed table with no precinct labels writes a lone newline |
| Table.Extract | parser.py:60-84 | the attempt with its in-place deletions and width-checking loop returns what `Attempt` specifies |
| Regions.CommissionLinks | parser.py:110-112 | the hrefs of exactly the anchors whose text is the commission-site phrase, all of them |
| Regions.CommissionLinksAppend | parser.py:110-112 | document order and count: the links of two runs of anchors are the first run's links followed by the second's |
| Regions.CommissionLinksOne | parser.py:110-112 | one anchor yields its href exactly when its text is the commission-site phrase and it has an href, and nothing otherwise |
| Regions.ChildName | parser.py:100-102 | a child's name is its text under an empty parent, and otherwise the parent's name, ` - ` and the text |
| Regions.GetRegions | parser.py:97-103 | no more links than anchors, each under the crawl prefix |
| Regions.GetRegionsOkIff | parser.py:99-102 | `get_regions` fails exactly on a page with an anchor without href, or with a kept anchor without text |
| Regions.GetRegionsAppend | parser.py:102-103 | document order: the links of two runs of anchors are the first run's links followed by the second's |
| Regions.GetRegionsKeeps | parser.py:102-103 | every anchor under the crawl prefix yields its link, named after the parent and its text |
| Regions.GetRegionsSound | parser.py:102-103 | every link comes from an anchor under the crawl prefix, named after the parent and the anchor text |
| Crawl.Put | parser.py:86 | a write appends its text when the stream accepts it, and otherwise fails and leaves the output as it was |
| Crawl.Once | parser.py:58-86 | one attempt makes exactly one table request and at most one write, touches neither `urls` nor the log, writes nothing when it fails and one text when it succeeds; `CrawlFacts.OnceWrites` says which text |
| Crawl.Uics | parser.py:52-94 | `parse_uics` touches neither `urls` nor the log, a failure leaves the output as it was, and it makes one table request, or with `retry` one or two |
| Crawl.Region | parser.py:106-119 | `parse_region` enters `url` and then only regions not yet visited, each once, and only appends to the output; `CrawlFacts.RegionBranchCovers` gives the converse, that a branch page's links all end up visited |
| Crawl.Children | parser.py:117-119 | the child loop enters only regions not visited when they are reached, each once, and only appends to the output; `CrawlFacts.ChildrenCovers` gives the converse |
| Crawl.Roots | parser.py:130-131 | the driver loop only grows `urls` and only appends to the output; `CrawlFacts.RootsEntersEach` gives that it enters every root link |
| Crawl.Header | parser.py:22-49 | the header is written from the 27 column names and ends its line; `Pipeline.HeaderFields` reads its 27 fields back |
| Crawl.Driver | parser.py:128-131 | the header is the first thing written, and a refused header write ends the program with nothing written |
| Crawl.EnteredFresh | parser.py:108 | entering an unvisited address and then fresh regions enters fresh regions |
| Crawl.EnteredTrans | parser.py:117-119 | fresh entries from one state to the next chain across consecutive calls |
| Crawl.Crawler.constructor | parser.py:18-19 | nothing is visited or written at program start |
| Crawl.Crawler.Write | parser.py:86 | the write changes the crawler's state exactly as `Put` says |
| Crawl.Crawler.ParseUics | parser.py:52-94 | the method, with its recursive retry, ends in the state and outcome `Uics` gives |
| Crawl.Crawler.ParseRegion | parser.py:106-119 | the method, with the `urls` update before the fetch, ends in the state and outcome `Region` gives |
| Crawl.Crawler.ParseChildren | parser.py:117-119 | the loop over a branch page's children, which skips those in `urls` and stops at the first failure, ends in the state and outcome `Children` gives |
| Crawl.Crawler.Run | parser.py:128-131 | the main block ends in the state and outcome `Driver` gives |
| CrawlFacts.OnceWrites | parser.py:58-86 | one attempt makes one table request, and on success it has written exactly that page's output |
| CrawlFacts.UicsWrites | parser.py:88-92 | a successful `parse_uics` wrote once, exactly what an immediate success on its last page writes, and a failed one wrote nothing |
| CrawlFacts.TwoFailuresPropagate | parser.py:91-92 | two failed attempts propagate the second failure, after two requests, with nothing written |
| CrawlFacts.MalformedTwiceFails | parser.py:60-79 | a page that breaks the table checks on both requests fails `parse_uics` with the second page's failure and writes nothing |
| CrawlFacts.RegionLeaf | parser.py:108-115 | a page with commission-site links is a leaf: the region is entered first and no child is; more than one link fails, and exactly one runs `parse_uics` on it with the region's name; an unfetchable page fails after its url is added |
| CrawlFacts.RegionEntersOnce | parser.py:108-119 | below the top, no region is entered twice: the regions entered after `url` are distinct, differ from `url` and were not visited before |
| CrawlFacts.ExtractsTrans | parser.py:117-119 | appending extraction texts across consecutive calls appends only extraction texts |
| CrawlFacts.UicsExtracts | parser.py:83-86 | `parse_uics` appends only the text of a successful extraction |
| CrawlFacts.RegionExtracts | parser.py:106-119 | every text `parse_region` writes is the output of some successful extraction |
| CrawlFacts.ChildrenExtracts | parser.py:117-119 | every text the child loop writes is the output of some successful extraction |
| CrawlFacts.RootsExtracts | parser.py:130-131 | every text the driver loop writes is the output of some successful extraction |
| CrawlFacts.ChildrenCovers | parser.py:117-119 | when the child loop ends normally, every child from the current one on is in `urls`: crawled by the loop or visited before it was reached |
| CrawlFacts.RegionBranchCovers | parser.py:115-119 | when `parse_region` on a branch page ends normally, every region the page links to is in `urls` |
| CrawlFacts.RootsEntersEach | parser.py:130-131 | the driver loop only appends to the log, and when it ends normally it has entered every root link from the current one on, whatever `urls` held |
| CrawlFacts.DriverCrawlsRoots | parser.py:128-131 | a run that ends normally has entered every region the root page links to |
| CrawlFacts.DriverOutput | parser.py:128-131 | the output is empty exactly when the header write is refused; otherwise the header comes first and every later text is an extraction's, including when the crawl fails |
| CrawlFacts.ExampleRegionA | parser.py:117-119 | on the sample site, crawling A enters A and then B beneath it |
| CrawlFacts.ExampleRegionB | parser.py:113-119 | on the sample site, page B, which has no links, enters its own region and nothing else |
| CrawlFacts.ExampleRoots | parser.py:130-131 | on the sample site, the driver loop enters A, B beneath A, and then B again |
| CrawlFacts.DriverRecrawlsRootChild | parser.py:130-131 | the driver loop does not consult `urls`: a root region already reached beneath another is crawled again |
| Loader.Body | elections.py:131-134 | an empty file or a first line with fewer than four fields fails; otherwise the first line is dropped exactly when its fourth field is not an integer, and kept otherwise |
| Loader.ByRegion | elections.py:136-137 | the region filter succeeds exactly when no region is given or every line has a first field, and never yields more lines than it is given; `ByRegionMembers` says which lines it keeps |
| Loader.ByRegionMembers | elections.py:136-137 | a successful region filter keeps exactly the lines that match: none is given, or the first field contains it |
| Loader.PrecinctNumber | elections.py:140 | a precinct number is read only from a line with a second field of at least two words, the second longer than one character; `PrecinctNumberOfLabel` reads `УИК №n` as n |
| Loader.ByPrecinct | elections.py:139-140 | the precinct filter succeeds exactly when no precinct is given or every line's precinct number can be read, and never yields more lines than it is given; `ByPrecinctMembers` says which lines it keeps |
| Loader.ByPrecinctMembers | elections.py:139-140 | a successful precinct filter keeps exactly the lines whose precinct number is in `uics`, or every line when `uics` is empty |
| Loader.ByRegionAppend | elections.py:136-137 | the region filter keeps order and repetitions: filtering two runs of lines gives the first run's kept lines followed by the second's |
| Loader.ByRegionOne | elections.py:136-137 | a single line is kept exactly when no region is given or its first field contains the region, and a line without fields fails |
| Loader.ByPrecinctAppend | elections.py:139-140 | the precinct filter keeps order and repetitions: filtering two runs of lines gives the first run's kept lines followed by the second's |
| Loader.ByPrecinctOne | elections.py:139-140 | a single line is kept exactly when no precincts are given or its number is one of them, and a number that cannot be read fails |
| Loader.Picked | elections.py:142 | a line of at least nine fields maps to field 2 followed by its last seven fields |
| Loader.Numbers | elections.py:142 | a line's numbers are the integer values of its picked fields, in order, and exist exactly when every picked field is an integer |
| Loader.AllNumbers | elections.py:142-143 | every kept line becomes its integers, in order, or the load fails when one is not an integer |
| Loader.ByRegionAll | elections.py:136-137 | lines that all match the region are all kept, in order |
| Loader.ByRegionNone | elections.py:136-137 | lines none of which matches a non-empty region are all dropped |
| Loader.LabelWords | elections.py:140 | `split()` of the label `УИК №` and digits gives two words, `УИК` and `№` with the digits |
| Loader.PrecinctNumberOfLabel | elections.py:140 | the precinct label `УИК №n` yields the number n |
| Loader.LoadData | elections.py:125-143 | an empty file fails, and a load yields at most one row per line of the file, each of at most eight numbers; `Pipeline.LoadCrawlerOutput` gives the rows read back from the crawler's output |
| Pipeline.SplitLines | elections.py:128 | the lines of a text hold no newline |
| Pipeline.OutputLines | elections.py:128 | the lines of a written output are the lines written |
| Pipeline.OutputAppend | parser.py:86 | two consecutive outputs read as one output of all their lines |
| Pipeline.ColumnsOneField | parser.py:22-49 | no column name holds a `;` or a line break |
| Pipeline.HeaderFields | parser.py:128 | the header is one line, its fields read back at `;` are exactly the 27 column names, and the fourth is not an integer |
| Pipeline.HeaderDropped | elections.py:131-134 | the crawler's header is a line `load_data` drops |
| Pipeline.RecordReadsBack | elections.py:142-143 | `load_data` reads a record back as its registered-voter count and its seven party counts |
| Pipeline.RecordOneLine | parser.py:83 | a record is a single line when its name and label are |
| Pipeline.RecordsFile | elections.py:127-129 | a file of a header and records reads back as the header's fields and then each record's fields |
| Pipeline.LoadRegionLines | elections.py:131-143 | lines of one region, after a header, load as all their numbers when the region matches and as nothing otherwise |
| Pipeline.LoadRecords | elections.py:125-143 | any one-line header whose fourth field is not an integer, followed by one leaf's output, loads back as that leaf's selected values when its name contains the region, and as nothing otherwise |
| Pipeline.LoadCrawlerOutput | elections.py:125-143 | the crawler's header followed by one leaf's output loads back as that leaf's selected values when its name contains the region, and as nothing otherwise |
| Pipeline.LoadEmptyPage | elections.py:125-143 | a one-line header whose fourth field is not an integer, followed by the lone newline of a leaf without precincts, loads with an error when no region is given and as nothing otherwise |

## Quirks of the code the model keeps

- `assert len(table), 1` (parser.py:61) checks only that some table matches: the
  length is the asserted value and 1 is the message. The first table is used.
- `assert len(rows), 27` (parser.py:65) likewise checks only that there are rows.
  Exactly 27 rows are required only by `assert len(data) == 27` (parser.py:72).
- The write at parser.py:86 is inside the `try`, so a refused write is retried with
  the whole attempt.
- Each record holds 25 values after the name and the label, under 27 column names.
- The driver loop (parser.py:130-131) does not consult `urls`, so a root region
  reached beneath another is crawled again (`CrawlFacts.DriverRecrawlsRootChild`).

## Left out

- Fetching pages over HTTP, the cp1251 decoding, lxml parsing and the XPath queries
  are left out. A region page is its anchors (`Regions.Page`). A commission page is
  the rows of every table the data-table selector matches (`Table.Doc`), each row
  being its `td/nobr` and `td/nobr/b` texts. Neither XPath `text()` against `a.text`
  nor mixed content is modelled.
- Opening, encoding and closing the output file, and `sys.argv`, are left out. The
  output is a sequence of written texts, one per write.
- The logging calls are left out, except the entry message of `parse_region`. That
  one is kept as `World.log`, so that "entered once" can be stated.
- A refused write is atomic in the model: it writes nothing. A partial write is not
  modelled.
- Transport errors are not told apart from parse errors. A missing region page fails
  on its first request and is not retried, as in the code.
- Text.ParseInt: white space and digits are ASCII only. Python 2 `int()` on unicode
  text also accepts other Unicode digits and spaces. White space between the sign and
  the digits is skipped, as Python 2 does.
- Text.Words: `split()` splits on ASCII white space only.
- Pipeline.SplitLines: `splitlines()` is modelled as splitting at `\n` only. Python
  also splits at `\r`, `\x0b`, `\x0c`, `\x1c`-`\x1e`, `\x85` and the Unicode line
  separators.
- The column names are written as concatenations of short literal pieces. Their
  values are unchanged.
- The reading of the file from disk and its UTF-8 decoding, and the conversion to a
  numpy array, are left out. `load_data` is modelled on the text and on split lines.
- `presence_split`, `party_split`, `plot2` and all of `plots.py` are left out. They
  are float arithmetic and plotting over the loaded numbers.
- `uics` in `load_data` is modelled as a set of integers. The source accepts any
  container that supports `in`.
- There is no concurrency in the code, and none is modelled.
