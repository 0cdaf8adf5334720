# Pay-statement field extraction, modelled in Dafny

This project models the text-to-record core of the paycheck OCR processor
(`paycheck_ocr.py`). The processor gets the text of a pay statement and
turns it into a paycheck record: nine money fields, a pay period, a pay
date, four money fields it never reads, and the source tag `"OCR"`.

For each field the processor keeps an ordered list of regular expressions,
each with one capture group. It lower-cases the text and tries the
patterns in order. The first pattern that matches anywhere decides the
field, and its first match is used:

* **Money fields** (`extract_field`): the capture is passed to
  `clean_amount`. That function gives 0 for the empty string. Otherwise it
  strips surrounding whitespace, deletes every `,` and `$`, and reads the
  rest with `float()`, giving 0 where `float()` fails.
* **The pay date** (`extract_date`): a capture that splits on `/` into
  three parts `m/d/y` becomes `y-zfill(m,2)-zfill(d,2)`. Any other capture
  is kept as it is.
* **The pay period** (`extract_pay_period`): the capture is kept as it is.

With no match at all, or with a field name missing from the table, the
result is 0 or the empty string.

Modules, one file each:

* `options.dfy` (`Options`): the `Option` type.
* `pystr.dfy` (`PyStr`): the Python string built-ins the core uses.
  - `str.strip()`, over the full set of characters for which
    `str.isspace()` holds.
  - `str.lower()`.
  - `str.split(sep)` with its inverse `Join`.
  - `str.zfill(width)`, including its handling of a leading sign.
  - The character deletion `re.sub(r'[,$]', '', s)`.
  - Decimal digit strings read as numbers.
* `amounts.dfy` (`Amounts`): `clean_amount`.
* `dates.dfy` (`Dates`): the date rewriting in `extract_date`.
* `patterns.dfy` (`PatternTable`): the pattern table.
  - Its eleven keys are the constructors of `Field`.
  - `Key` gives each key's name and `Lookup` goes from a name to its field.
  - `PatternsFor` is the dictionary's `get(name, [])`.
  - The regular expressions are copied verbatim.
* `extraction.dfy` (`Extraction`): the find-first loop and the three
  extractors.
* `statement.dfy` (`Statement`): the record `process_file` builds.

Two library services are parameters, bundled in `Extraction.Runtime`, and
are not defined here:

* `findall`: `re.findall(pattern, text, re.IGNORECASE)` for a one-group
  pattern. It returns the group's capture for every match, left to right.
* `toFloat`: Python's `float()` on a string. `None` stands for the
  `ValueError` it raises.

The results about values take what these services guarantee as explicit
hypotheses:

* `FloatReadsDecimals`: `float("")` fails, and a plain two-place decimal
  `[0-9]*\.[0-9]{2}` is read exactly.
* `AmountCaptures`: every capture of a money pattern has the group's shape
  `[0-9,]+\.[0-9]{2}`.
* `DateCaptures`: every capture of a pay-date pattern has the shape
  `[0-9]{1,2}/[0-9]{1,2}/[0-9]{4}`.
* `PeriodCaptures`: every capture of a pay-period pattern is two such dates
  joined by `\s*-\s*`.

A note on idempotence: cleaning an amount is *not* idempotent in general.
For any digit `d`, `", d"` cleans to `" d"`, and cleaning that again gives `"d"`, because
stripping happens before deletion. The model proves the exact statement:

* A second cleaning only strips again.
* Cleaning is idempotent exactly when the first pass leaves no whitespace
  at the ends.
* That always holds for captures of the amount patterns.

## Model

| member | source | states |
|---|---|---|
| PyStr.Strip | paycheck_ocr.py:132 | `str.strip()` yields a string with no whitespace at either end, no longer than the input |
| PyStr.StripIsSlice | paycheck_ocr.py:132 | the stripped string is a contiguous slice of the input, starting where the leading whitespace ends |
| PyStr.StripCutsSpace | paycheck_ocr.py:132 | everything strip() cuts off on either side of that slice is whitespace |
| PyStr.StripFixpoint | paycheck_ocr.py:132 | stripping leaves a string unchanged if and only if it has no whitespace at its ends |
| PyStr.StripIdempotent | paycheck_ocr.py:132 | stripping twice is stripping once |
| PyStr.Lower | paycheck_ocr.py:141 | lower-casing keeps the length, maps each character by ASCII case folding, and leaves no upper-case ASCII letter |
| PyStr.LowerIdempotent | paycheck_ocr.py:141 | lower-casing a lower-cased text changes nothing |
| PyStr.Without | paycheck_ocr.py:132 | deleting a set of characters leaves none of them and never lengthens the string |
| PyStr.WithoutNothing | paycheck_ocr.py:132 | deleting characters that do not occur returns the string unchanged |
| PyStr.WithoutKeepsOrigin | paycheck_ocr.py:132 | every character that survives the deletion occurs in the input |
| PyStr.WithoutConcat | paycheck_ocr.py:132 | deletion distributes over concatenation |
| PyStr.WithoutIdempotent | paycheck_ocr.py:132 | deleting the same characters a second time changes nothing |
| PyStr.Split | paycheck_ocr.py:163 | `split('/')` gives one more part than there are separators, no part holds a separator, and joining the parts with the separator gives back the input |
| PyStr.SplitJoin | paycheck_ocr.py:163 | splitting the join of separator-free parts gives back exactly those parts |
| PyStr.ZFill | paycheck_ocr.py:166 | `zfill(width)` pads to `width` with ASCII `'0'` digits on the left, placed after a leading `+` or `-` sign (strings at least `width` long are unchanged), keeping the input as a suffix or, after the sign, the unsigned rest |
| PyStr.ZFillKeepsOut | paycheck_ocr.py:166 | zero-filling introduces no character other than `0` |
| PyStr.ZFillDigits | paycheck_ocr.py:166 | zero-filling a digit string keeps it a digit string denoting the same number |
| PyStr.DigitsValueConcat | paycheck_ocr.py:134 | reading the digits of `a + b` is reading `a` shifted left by the length of `b`, plus reading `b` |
| Amounts.Clean | paycheck_ocr.py:131-132 | the string handed to `float()` holds no `,` or `$` and is no longer than the input |
| Amounts.CleanAmount | paycheck_ocr.py:126-136 | the empty string gives 0; a string `float()` rejects after cleaning gives 0; otherwise the result is `float()` of the cleaned string |
| Amounts.CleanTwice | paycheck_ocr.py:131-132 | cleaning a cleaned string only strips it again |
| Amounts.CleanIdempotentIff | paycheck_ocr.py:131-132 | cleaning is idempotent on an input exactly when its first cleaning has no whitespace at the ends |
| Amounts.CleanNotAlwaysIdempotent | paycheck_ocr.py:131-132 | for every digit d, `", d"` cleans to `" d"`, which cleans to `"d"` |
| Amounts.CleanCapture | paycheck_ocr.py:126-136 | the cleaning of any amount capture only deletes commas and yields a plain two-place decimal whose value in cents is the capture's digits read as one number |
| Amounts.CleanCaptureIdempotent | paycheck_ocr.py:131-132 | cleaning an amount capture twice is cleaning it once |
| Amounts.CleanAmountOfCapture | paycheck_ocr.py:126-136 | on any amount capture, conversion succeeds and the result is the capture's cents divided by 100, never negative |
| Dates.ReformatDate | paycheck_ocr.py:160-169 | a match without exactly two `/` is returned unchanged; one with exactly two comes back without any `/` |
| Dates.ReformatThreeParts | paycheck_ocr.py:163-166 | `m/d/y` with slash-free parts splits into exactly `[m, d, y]` and is rebuilt as `y-zfill(m,2)-zfill(d,2)` |
| Dates.ReformatCapture | paycheck_ocr.py:160-166 | every pay-date capture becomes a ten-character `YYYY-MM-DD` string holding the year as written and the month and day values as written |
| PatternTable.Key | paycheck_ocr.py:20-73 | the dictionary keys, with no contract of their own: one per field, as written in the table; LookupKey proves that each names exactly its own field |
| PatternTable.Patterns | paycheck_ocr.py:20-73 | the table itself, with no contract: the expressions of each field, verbatim and in the order they are tried: 4 for gross_amount, 3 for net_amount, 2 each for federal_tax and state_tax, 3 for social_security, 2 for medicare, 3 each for employee_401k, employer_401k_match and health_insurance, 2 for pay_period and 3 for pay_date |
| PatternTable.Lookup | paycheck_ocr.py:20-73 | a name found in the table is the key of the field returned |
| PatternTable.LookupKey | paycheck_ocr.py:20-73 | the eleven keys are distinct: every field is found under its own key |
| PatternTable.PatternsFor | paycheck_ocr.py:140 | `get(name, [])`: a name missing from the table has no patterns |
| Extraction.FirstMatch | paycheck_ocr.py:143-148 | the find-first loop gives nothing exactly when no pattern matches |
| Extraction.FirstMatchSelects | paycheck_ocr.py:143-148 | the first pattern with any match decides the result, which is that pattern's first match |
| Extraction.FirstMatchHasWinner | paycheck_ocr.py:143-148 | whenever the loop gives a result, some pattern is the first to match and the result is its first match |
| Extraction.FirstMatchIgnoresLater | paycheck_ocr.py:143-148 | once a pattern matches, patterns after it never change the result |
| Extraction.FirstMatchSkipsBarren | paycheck_ocr.py:143-150 | patterns that match nothing are passed over as if absent |
| Extraction.ExtractField | paycheck_ocr.py:138-150 | an unknown field name, or no match of any of its patterns, gives 0 |
| Extraction.ExtractDate | paycheck_ocr.py:152-171 | an unknown field name, or no match of any of its patterns, gives the empty string |
| Extraction.ExtractPayPeriod | paycheck_ocr.py:173-183 | no match of any pay-period pattern gives the empty string |
| Extraction.ExtractFieldSelects | paycheck_ocr.py:138-150 | a money field is the cleaned first match of the first pattern that matches |
| Extraction.ExtractDateSelects | paycheck_ocr.py:152-171 | a date field is the reformatted first match of the first pattern that matches |
| Extraction.ExtractPayPeriodSelects | paycheck_ocr.py:173-183 | the pay period is the first match of the first pay-period pattern that matches |
| Extraction.ExtractionIgnoresCase | paycheck_ocr.py:141 | all three extractors give the same result on a text and on its lower-cased form |
| Extraction.FirstMatchIsCapture | paycheck_ocr.py:143-148 | the loop's result is the first capture of one of the patterns it was given |
| Extraction.ExtractAmountInCents | paycheck_ocr.py:138-150 | a money field is 0 when nothing matches, and otherwise the first capture's cents divided by 100; it is never negative |
| Extraction.ExtractPayDateIso | paycheck_ocr.py:152-171 | the pay date is empty exactly when no pay-date pattern matches, and is otherwise the reformatting of the first capture, in `YYYY-MM-DD` form |
| Extraction.ExtractPayPeriodShape | paycheck_ocr.py:173-183 | the pay period is empty exactly when no pay-period pattern matches, and is otherwise the first capture as it stands: two dates joined by a dash |
| Statement.BuildRecord | paycheck_ocr.py:207-226 | the local tax, other pre-tax deductions, garnishments and other post-tax deductions are always 0, and the source system is `"OCR"` |
| Statement.MoneyFieldInCents | paycheck_ocr.py:138-150 | every money field the processor reads is a non-negative whole number of cents |
| Statement.RecordAmountsInCents | paycheck_ocr.py:207-226 | all thirteen money fields of the record are non-negative whole numbers of cents |
| Statement.RecordDatesShaped | paycheck_ocr.py:207-226 | the record's pay date is empty or `YYYY-MM-DD`, and its pay period is empty or two dates joined by a dash |
| Statement.RecordIgnoresCase | paycheck_ocr.py:207-226 | the record depends on the text only up to letter case |
| Statement.RecordWhenNothingMatches | paycheck_ocr.py:207-226 | a text in which no pattern of the table matches gives the record of zeros and empty strings tagged `"OCR"` |

## Left out

- Text acquisition is not modelled, because it is I/O and calls into external libraries. This covers PDF text extraction, OCR of images and PDF pages, and PDF-to-image conversion (`paycheck_ocr.py:75-124`).
- The start of `process_file` is not modelled. That covers the file-existence check, the dispatch on file suffix, the PDF fallback to OCR, and the error raised for empty text (`paycheck_ocr.py:187-204`). The model starts from the extracted text.
- The command-line entry point `main` and its JSON output (`paycheck_ocr.py:228-245`) are not modelled, because they are I/O.
- The regular-expression engine is not modelled. `findall` is a parameter. What the capture groups guarantee is stated as hypotheses (`AmountCaptures`, `DateCaptures`, `PeriodCaptures`) rather than derived from the expressions.
- Python's `float()` is not modelled in general. It is a parameter whose only assumed behaviour is `FloatReadsDecimals`.
- Amounts are exact rationals (`real`). Binary floating-point rounding of the decimal is not captured.
- Amounts.CleanAmountOfCapture: states the exact value CaptureCents/100, where Python gives the nearest double to it, and `inf` for a capture of more than about 309 integer digits; `FloatParse` yields reals, so it cannot express `inf` or `nan`.
- PyStr.Lower: folds only the ASCII letters A-Z, and `findall` is handed this ASCII-folded statement text. Python's `str.lower()` also folds non-ASCII capitals, sometimes into several code points (`'İ'.lower()` is `"i̇"`), so on text with such capitals the length of the lowered text and what the case-insensitive patterns match can differ from the model's. Full Unicode case mapping is out of scope and this difference is accepted.
- The `try`/`except` around the date reformatting (`paycheck_ocr.py:162-168`) is not modelled. Nothing inside it can raise for a string, so the handler is unreachable.
- Dates.ReformatCapture: does not check that the month and day are a real calendar date. The processor does not check this either.
- `test_ocr.py` prints extraction results for a sample text. It states no property beyond those in the table above.
