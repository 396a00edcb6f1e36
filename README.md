# foundation-xml-cnv: the copy-number mapping core in Dafny

The converter reads a FoundationOne XML genomic report, already parsed
into nested dictionaries, and turns every copy-number alteration of its
`variant-report` section into a flat copy-number record:

- the sample id from the record's own `dna-evidence/@sample`;
- the gene and copy number;
- a status code derived from `@equivocal` and `@type`;
- the chromosome, start and end taken from `@position` (`chr:start-end`);
- a bag of attributes.

This project models that core (`src/convert.py`): `calculate_status`,
`gather_attributes` and the driver `extract_copy_numbers`.

- `wrappers.dfy`, module `Wrappers`: `Option`, which marks an optional key
  of a parsed XML element.
- `py_str.dfy`, module `PyStr`: Python's `str.split(sep)` for a
  one-character separator, with `join` as its inverse. Both round trips are
  proved, along with the piece count and the condition under which index
  `[1]` exists.
- `seqs.dfy`, module `Seqs`: element-wise conversion of a list in order. This
  is what a `for` loop that appends one result per element builds.
- `convert.dfy`, module `Convert`:
  - the parsed report as datatypes. A key the code tests for presence is an
    `Option`. The one-or-many arity of the `copy-number-alteration` child is a
    datatype case (`NoChild | Single | Many`). The three ways the section can
    be empty (`Absent | NoneValue | Present(NoChild)`) follow the code's two
    nested `if`s.
  - the status decision table and the attribute map, as functions.
  - position splitting, modelled with the two `split` calls and the `[0]`/`[1]`
    indexing the code uses.
  - the driver, as a method with the source's loop that appends to a list. It
    is proved equal to the specification function `Extract`, and the
    properties of the result are proved about `Extract`.

The sample id comes only from the record's own `dna-evidence/@sample`, and the
attributes bag holds only `number-of-exons` and `partial amplification`.

## Model

| member | source | states |
|---|---|---|
| `Convert.CalculateStatus` | src/convert.py:19-32 | The table read backwards. The result is one of gain, amplification, loss, partial_loss or "". It is "" exactly when the type is not amplification, loss or partial amplification. It is gain exactly for partial amplification, or for amplification with equivocal "true". It is amplification, loss or partial_loss exactly for the matching type and flag. |
| `Convert.PartialAmplificationIgnoresEquivocal` | src/convert.py:28-29 | A partial amplification is a gain whatever the equivocal flag is. |
| `Convert.StatusDependsOnlyOnTrueFlag` | src/convert.py:20-27 | The flag matters only through whether it equals "true": two flags that agree on that give the same status for every type. |
| `Convert.StatusTestCases` | test/convert_tests.py:190-197 | The seven cases of the status unit test, including "" for the unknown type "fred". |
| `Convert.GatherAttributes` | src/convert.py:35-42 | The keys are a subset of {number-of-exons, partial amplification}. number-of-exons is present exactly when the record has an exon count, and its value is that count unchanged. partial amplification is present exactly when `@type` is present and equals "partial amplification", and its value is True. |
| `Convert.ExonCountAddsOnlyItsKey` | src/convert.py:37-38 | Giving a record an exon count adds exactly the number-of-exons entry to the bag and leaves every other entry unchanged. |
| `Convert.AttributesEmptyWhenNothingToRecord` | src/convert.py:35-42 | Without an exon count and without type partial amplification, the bag is empty. |
| `PyStr.Split` | src/convert.py:60-62 | `split` always gives at least one piece, so index `[0]` never fails. |
| `PyStr.SplitJoinsBack` | src/convert.py:60-62 | No piece contains the separator, and joining the pieces with the separator gives back the input. |
| `PyStr.SplitJoin` | src/convert.py:60-62 | The other round trip: splitting the join of separator-free pieces gives back those pieces. |
| `PyStr.SplitCount` | src/convert.py:60-62 | There is one more piece than there are separators. |
| `PyStr.SeveralPiecesIffSeparator` | src/convert.py:61-62 | Index `[1]` exists exactly when the separator occurs. |
| `Convert.PositionSplittableIff` | src/convert.py:60-62 | The driver's splits succeed without IndexError exactly when the position has a ':' and its second ':'-piece has a '-'. |
| `Convert.ParsePositionSplits` | src/convert.py:60-62 | The chromosome, start and end taken from a position have no separators in them. The position begins with "chromosome:start-end", and that prefix is either the whole string or is followed by a further ':' or '-'. |
| `Convert.SplitsIntoUnique` | src/convert.py:60-62 | Those conditions fix the three fields uniquely. So the previous row describes the split completely. |
| `Convert.ParsePositionOfParts` | src/convert.py:60-62 | A position "c:s-e", with one ':' and one '-' after it, splits into chromosome c, start s and end e, all kept as strings. |
| `Convert.ParsePosition` | src/convert.py:60-62 | The chromosome is piece `[0]` of the ':'-split, and start and end are pieces `[0]` and `[1]` of the '-'-split of its piece `[1]`, defined when `PositionSplittable` holds. It has no contract of its own: `ParsePositionSplits` and `SplitsIntoUnique` characterise its result completely, and `ParsePositionOfParts` gives it on "c:s-e". |
| `Convert.ParsePositionExample` | test/convert_tests.py:95 | "chr12:58093932-58188144" gives chr12, 58093932 and 58188144. |
| `Convert.Alterations` | src/convert.py:49-53 | The records the driver walks: none for an absent or None section or a missing child, one for a single mapping, and the list otherwise. It has no contract of its own: `ExtractEmptyWithoutAlterations` and `ExtractSingleAsList` state the empty cases and the single-to-list step through `Extract`. |
| `Convert.ToCopyNumber` | src/convert.py:56-63 | The record literal built for one alteration. It has no contract of its own: `ToCopyNumberOfParts` gives it field by field for a position "c:s-e", and `ExtractPreservesOrder` relates each field to its input. |
| `Convert.Extract` | src/convert.py:45-67 | The value `extract_copy_numbers` returns, as a function. It has no contract of its own: `ExtractCopyNumbers` is proved equal to it, and `ExtractPreservesOrder`, `ExtractConcat`, `ExtractEmptyWithoutAlterations` and `ExtractSingleAsList` state its properties. |
| `Convert.ExtractCopyNumbers` | src/convert.py:45-67 | The driver's loop, with its nested presence checks and the step that turns a single child into a list. It returns exactly `Extract` of the report. |
| `Convert.ConvertedExtends` | src/convert.py:55-65 | One more loop iteration appends the output record of the next input record to the list. |
| `Convert.ExtractEmptyWithoutAlterations` | src/convert.py:47-51 | If `copy-number-alterations` is absent, is None, or has no `copy-number-alteration` child, the result is `{'CopyNumbers': []}`. |
| `Convert.ExtractSingleAsList` | src/convert.py:52-53 | A single child mapping gives the same result as a one-element list holding it. |
| `Convert.ExtractPreservesOrder` | src/convert.py:55-65 | There is one output record per input record, at the same index. Record k comes from input record k alone: its sample id from that record's own `dna-evidence/@sample`, its gene and copy number, the status of its flag and type, the split of its position and its attributes. |
| `Convert.ExtractConcat` | src/convert.py:55-65 | The result for a concatenated list is the result for the first part followed by the result for the second, so input order is kept. |
| `Convert.ToCopyNumberOfParts` | src/convert.py:56-63 | A record whose position reads "c:s-e" gives an output record with chromosome c, start s and end e. Its other fields come from the record. |
| `Convert.ExtractFiveStatuses` | test/convert_tests.py:185-188 | Take five records typed amplification, amplification (equivocal), loss, loss (equivocal) and partial amplification (equivocal). They give five records in the same order, with statuses amplification, gain, loss, partial_loss and gain. |

## Left out

- `read_xml` (reading the file and XML parsing by `xmltodict`): file I/O and an external parser. The model starts from the parsed report.
- `write_copy_numbers_to_cnv`: CSV output through Python's `csv` module and the `repr` of a dict. The model has no CSV writer.
- `main` and its argument parsing: command-line plumbing.
- Logging calls, including the error logged for an unknown type: they have no effect on results.
- Parsing `@copy-number` to a float with `float(format(...))`: floating point. The model keeps the copy number as its source text, and a non-numeric copy number (a ValueError) is not modelled.
- Exceptions on malformed records (KeyError, IndexError): these are preconditions, not error results.
  - `Convertible` requires `@type`, `dna-evidence/@sample` and a position whose two splits succeed.
  - `@gene`, `@position`, `@copy-number` and `@equivocal` are plain fields of `RawAlteration`, so a record missing one of them cannot be represented.
  - A report without `variant-report`, and a child that is None or not a mapping (a TypeError), are not represented either.
- Keys of an alteration that the code never reads (`@ratio`, `@status`): not part of `RawAlteration`.
- Insertion order of the attributes dict: a Dafny `map` has no order. The order shows only in the CSV writer's `repr`, which is left out.
- Convert.ExtractFiveStatuses: states the statuses and the count of the end-to-end case for any five records of those types. It does not compare whole records against the test's literal expected dictionary. The fields of each record are covered for every input by `ExtractPreservesOrder`.
