# Auto-Receipts, modelled in Dafny

Auto-Receipts is a small web application. A user adds photos of receipts. A
server endpoint sends each photo to a vision model and receives free text
that should hold a JSON receipt. The endpoint recovers the JSON object from
that text, validates it against a schema, and answers with the receipt or a
status code and an error message. The browser keeps the list of uploads. It
exports the finished ones as a CSV file or an Excel sheet with ten fixed
Turkish columns (`NO`, `FIS NO`, `TARİH`, ... `Vergi No`).

This project models that pipeline and proves properties of it:

| module | models |
|---|---|
| `ExtractJson` | `extractJsonObject`: trim, direct parse, fence stripping, the `{`…`}` slice, the two thrown errors |
| `JsNumber` | `Number` on text made only of digits, `.` and `-`, as an exact decimal |
| `ReceiptSchema` | the `num` coercion and the `ReceiptSchema` validator as a function from JSON to `Valid(receipt)` or `Invalid(issues)`, plus the receipt written back as JSON |
| `CsvCells` | `csvEscape`, and a reader of the CSV dialect it writes (used only to state the round trip) |
| `ExportDates` | `pad2` and `normalizeDateDmy`, with the regular expression as a leftmost-match scanner |
| `Exporters` | `asRecord`, `getKey`, `buildRows` (an array insertion sort, the row literal, the column-filling loop), the CSV text, the sheet rows and both file-name rules |
| `Page` | `asRecord` and `pick` of the page, `lineCount`, and the item-list updates (upload, completion, delete, the export filter) |
| `TranscribeRoute` | the `POST` handler's decision: guards, status codes, the credential-expiry classifier |
| `Text`, `Wrappers`, `JsonValue`, `Db` | `trim`, `indexOf`, `lastIndexOf`, `toLowerCase`, `includes`, `String(n)`; `Option`/`Result`; the JSON tree; `StoredReceiptItem` |

JSON is the datatype `Json`. Objects are maps from keys to values. An absent
key (`undefined`) is `None`, and `null` is the value `JNull`, so the two stay
distinct. `JSON.parse` and `JSON.stringify` are function parameters
(`ExtractJson.Parser`, `stringify`). Every property proved holds for any
parser and any serialiser.

`getKey`, `pick`, the sort and the column-filling loop are loops in the
source. They are methods with loop invariants here: `Exporters.GetKey`,
`Page.Pick`, `Exporters.InsertAt`, `Exporters.SortedCopy`,
`Exporters.FillMissing` and `Exporters.BuildRows`. Each is proved equal to a
specification function, and the properties are lemmas about those functions.

Three behaviours of the code are easy to misread:
- Amounts are not read in a locale-aware way. The code deletes every
  character other than a digit, `.` and `-`, then applies `Number`. So
  `1,234.56` reads as 1234.56 but `1.234,56` reads as 1.23456
  (`ReceiptSchema.ThousandsCommaDeleted`, `ReceiptSchema.DecimalCommaMisread`).
- The export has a fixed list of ten columns. No tax-rate column is
  discovered from the data.
- The export does not keep the list's order. It sorts by upload time
  (`createdAt`) first.

## Model

| member | source | states |
|---|---|---|
| ExtractJson.Extract | src/lib/extractJson.ts:1-26 | Blank input fails with "Model returned empty output", and nothing else does. A reply that parses after trimming is returned as is, object or not. "Could not locate a JSON object" is raised exactly when the unfenced text has no `{` before a `}`. Otherwise the candidate's parse decides, and its failure is passed on. |
| ExtractJson.DropJsonTags | src/lib/extractJson.ts:14 | `replace(/```json/gi, "```")`: each fence followed by `json` in any letter case loses its tag, scanning left to right; never longer than its input. DropJsonTagsIdentity and DropJsonTagsWrapped state what it does to plain and fenced replies. |
| ExtractJson.DropFences | src/lib/extractJson.ts:15 | `replace(/```/g, "")`: every fence is deleted, scanning left to right; never longer than its input. DropFencesNoFence, DropFencesHead, DropFencesIdentity and DropClosingFence state its contract. |
| ExtractJson.Unfence | src/lib/extractJson.ts:13-16 | The fallback text holds no three backticks, so no fence of either kind survives. |
| ExtractJson.DropFencesNoFence | src/lib/extractJson.ts:15 | Deleting every fence left to right cannot join backticks into a new fence. |
| ExtractJson.DropFencesHead | src/lib/extractJson.ts:15 | A backtick, or two, at the head of the output come from backticks at the head of the input. |
| ExtractJson.DropJsonTagsIdentity | src/lib/extractJson.ts:14 | Text with no tagged fence (in any letter case) is left unchanged by the first replacement. |
| ExtractJson.DropFencesIdentity | src/lib/extractJson.ts:15 | Text with no fence is left unchanged by the second replacement. |
| ExtractJson.DropClosingFence | src/lib/extractJson.ts:15 | A closing fence after fence-free text is deleted, and nothing else is. |
| ExtractJson.DropJsonTagsWrapped | src/lib/extractJson.ts:14 | In a fenced reply only the opening fence can carry a `json` tag, and that tag is dropped. |
| ExtractJson.Candidate | src/lib/extractJson.ts:18-24 | No candidate exactly when no `{` stands before a `}`. Otherwise the candidate starts with `{`, ends with `}`, and occurs in the text with no `{` before it and no `}` after it: it runs from the first `{` to the last `}`. |
| ExtractJson.ParseCandidate | src/lib/extractJson.ts:25 | `JSON.parse(candidate)`: the parser's value, or its failure passed on as a parse error; Extract's last ensures clause states it. |
| ExtractJson.UnfenceWrapped | src/lib/extractJson.ts:13-16 | The fallback text of an object wrapped in a plain or `json`-tagged fence, with whitespace around it, is the object. |
| ExtractJson.UnfenceBare | src/lib/extractJson.ts:13-24 | The fallback text and the candidate of a bare object are the object. |
| ExtractJson.ExtractAfterFailedParse | src/lib/extractJson.ts:6-25 | Text that does not parse as it is, whose fallback text is one object, gives that object's parse. |
| ExtractJson.ExtractOwnTrim | src/lib/extractJson.ts:2-7 | A bare object that parses is returned by the direct parse. |
| ExtractJson.FenceTolerance | src/lib/extractJson.ts:13-25 | Wrapping a fence-free object in a fence (plain or tagged `json` in any case) gives the same result as the bare object. |
| Text.IsWhitespace | src/lib/extractJson.ts:2 | The characters `String.prototype.trim` removes: the ECMAScript WhiteSpace and LineTerminator sets, `U+FEFF` included. Trim, TrimEmptyIff and TrimPadded are stated in terms of it. |
| Text.Trim | src/lib/extractJson.ts:2 | The trimmed text neither starts nor ends with whitespace. |
| Text.TrimEmptyIff | src/lib/extractJson.ts:2-3 | Trimming gives empty text exactly when the input is whitespace only. |
| Text.TrimPadded | src/lib/extractJson.ts:2 | Trimming removes exactly the whitespace around a core that neither starts nor ends with whitespace. |
| Text.TrimIdempotent | src/lib/exporters.ts:37 | Trimming twice is trimming once. |
| Text.IndexOf | src/lib/extractJson.ts:18 | -1 exactly when the character is absent; otherwise its first position. |
| Text.LastIndexOf | src/lib/extractJson.ts:19 | -1 exactly when the character is absent; otherwise its last position. |
| Text.Contains | src/app/api/transcribe/route.ts:59-64 | `includes` holds exactly when the phrase occurs at some position. |
| Text.ContainsInContext | src/app/api/transcribe/route.ts:59-64 | An occurrence stays an occurrence whatever text surrounds it. |
| Text.Lower | src/app/api/transcribe/route.ts:57 | Lower-casing keeps the length and maps each character on its own; no upper-case ASCII letter remains. |
| Text.LowerIdempotent | src/app/api/transcribe/route.ts:57 | Lower-casing twice is lower-casing once. |
| Text.LowerAppend | src/app/api/transcribe/route.ts:57 | Lower-casing distributes over concatenation. |
| Text.NatToString | src/lib/exporters.ts:50 | `String(n)` gives decimal digits, one digit exactly below 10, and no leading zero. |
| Text.NatToStringRoundTrip | src/lib/exporters.ts:50 | Reading back the decimal text of `n` gives `n`. |
| JsNumber.NumberOf | src/lib/receiptSchema.ts:5 | `Number` applied to text of digits, `.` and `-`: `""` is 0, and otherwise the value of a decimal literal with an optional leading `-`, or no finite number. NumberOfDefined, NumberOfDigits, NumberOfDecimal and NumberOfNegated state its contract. |
| JsNumber.UnsignedDecimalDefined | src/lib/receiptSchema.ts:5 | Unsigned text reads as a number exactly when it has no `-`, at most one `.`, and some digit. |
| JsNumber.NumberOfDefined | src/lib/receiptSchema.ts:5-6 | `Number` on cleaned text is finite exactly when the text is empty, or is an optional leading `-` followed by text with no `-`, at most one `.` and some digit. |
| JsNumber.NumberOfDigits | src/lib/receiptSchema.ts:5 | Digits alone read as their decimal value. |
| JsNumber.NumberOfDecimal | src/lib/receiptSchema.ts:5 | Digits, a point and digits read as integer part plus fraction. |
| JsNumber.NumberOfNegated | src/lib/receiptSchema.ts:5 | A leading `-` negates the value, and an invalid text stays invalid. |
| ReceiptSchema.Clean | src/lib/receiptSchema.ts:5 | The cleaned text holds only digits, `.` and `-`, and is no longer than the input. |
| ReceiptSchema.CleanKeeps | src/lib/receiptSchema.ts:5 | A character survives cleaning exactly when it is in the input and is a digit, `.` or `-`. |
| ReceiptSchema.CleanIdentity | src/lib/receiptSchema.ts:5 | Text already made of number characters is unchanged, so cleaning is idempotent. |
| ReceiptSchema.CleanAppend | src/lib/receiptSchema.ts:5 | Cleaning distributes over concatenation. |
| ReceiptSchema.CleanDropsComma | src/lib/receiptSchema.ts:5 | A comma between number characters is deleted, and nothing else is. |
| ReceiptSchema.Num | src/lib/receiptSchema.ts:3-6 | A number passes as itself. A string passes exactly when its cleaned text is a finite `Number`, and then its value is `Number` of the cleaned text. Any other value fails with one union issue, and a failing string with one not-finite issue at the path. |
| ReceiptSchema.OptNum | src/lib/receiptSchema.ts:34-38 | `num.optional()`: an absent amount passes as absent; a present one passes exactly when `num` does, with `num`'s value. |
| ReceiptSchema.OptString | src/lib/receiptSchema.ts:15-17 | An optional string accepts absence or a string (the value kept as is), and rejects `null` and every other value with one type issue. |
| ReceiptSchema.MinString | src/lib/receiptSchema.ts:14 | A required string passes exactly when present, a string, and at least one character long, with no trimming. |
| ReceiptSchema.ValidateMerchant | src/lib/receiptSchema.ts:12-18 | An accepted merchant came from an object and has a non-empty name; a rejection always has issues. |
| ReceiptSchema.ValidateTransaction | src/lib/receiptSchema.ts:21-29 | An accepted transaction came from an object; a rejection always has issues. |
| ReceiptSchema.ValidateTotals | src/lib/receiptSchema.ts:32-39 | Accepted totals came from an object. Every amount that fails makes the totals fail, and its issue is reported. |
| ReceiptSchema.ValidateLineItem | src/lib/receiptSchema.ts:44-49 | An accepted line item came from an object and has a non-empty description; a rejection always has issues. |
| ReceiptSchema.Collect | src/lib/receiptSchema.ts:42-53 | An array passes exactly when every element passes, giving the elements' values in order. |
| ReceiptSchema.CollectReports | src/lib/receiptSchema.ts:42-51 | One failing element fails the array, and all of its issues are reported. |
| ReceiptSchema.LineItemChecks | src/lib/receiptSchema.ts:42-50 | Each element of `line_items` is checked as a line item at its own index. |
| ReceiptSchema.NoteCheck | src/lib/receiptSchema.ts:53 | A note passes exactly when it is a string, kept as is. |
| ReceiptSchema.NoteChecks | src/lib/receiptSchema.ts:53 | Each element of `notes` is checked at its own index. |
| ReceiptSchema.DocType | src/lib/receiptSchema.ts:10 | An absent `document_type` defaults to `receipt`. A present one passes exactly when it is one of the three names. |
| ReceiptSchema.Lift | src/lib/receiptSchema.ts:19 | `.optional()` on a present value passes exactly when the inner check passes, with the same issues. |
| ReceiptSchema.LineItemsField | src/lib/receiptSchema.ts:42-51 | An absent `line_items` defaults to the empty list. |
| ReceiptSchema.NotesField | src/lib/receiptSchema.ts:53 | An absent `notes` defaults to the empty list. |
| ReceiptSchema.Validate | src/lib/receiptSchema.ts:8-55 | The top level is strict. A result is valid only for an object with no unknown key. An unknown key always fails, with one issue naming every unknown key. A failure always has issues. |
| ReceiptSchema.ValidateDefaults | src/lib/receiptSchema.ts:10-53 | Absent `document_type`, `line_items` and `notes` take their defaults. `merchant`, `transaction` and `totals` are present in the receipt exactly when present in the input. |
| ReceiptSchema.NullRejected | src/lib/receiptSchema.ts:8-55 | `null` is not absence: any schema key holding `null` fails the receipt. |
| ReceiptSchema.ValidConforms | src/lib/receiptSchema.ts:14-45 | Whatever validation accepts has a non-empty merchant name and non-empty line-item descriptions. |
| ReceiptSchema.DocTypeRoundTrip | src/lib/receiptSchema.ts:10 | Each document type's name reads back as that type. |
| ReceiptSchema.MerchantRoundTrip | src/lib/receiptSchema.ts:12-18 | A merchant with a non-empty name, written as JSON, validates back to itself. |
| ReceiptSchema.MerchantAccepts | src/lib/receiptSchema.ts:12-18 | An object whose four merchant fields are right is accepted with exactly those fields, whatever else it holds. |
| ReceiptSchema.TransactionRoundTrip | src/lib/receiptSchema.ts:21-29 | A transaction written as JSON validates back to itself. |
| ReceiptSchema.TransactionAccepts | src/lib/receiptSchema.ts:21-29 | An object whose six transaction fields are strings or absent is accepted with exactly those fields. |
| ReceiptSchema.OptNumOfNumber | src/lib/receiptSchema.ts:3-6 | An amount written as a JSON number, or left out, passes `num` as itself. |
| ReceiptSchema.TotalsRoundTrip | src/lib/receiptSchema.ts:32-39 | Totals written as JSON numbers validate back to themselves. |
| ReceiptSchema.TotalsAccepts | src/lib/receiptSchema.ts:32-39 | An object whose five amounts pass `num` (numbers, text such as `"₺1.234,56"`, or absent) is accepted with exactly the values `num` gives. |
| ReceiptSchema.LineItemRoundTrip | src/lib/receiptSchema.ts:44-49 | A line item with a non-empty description, written as JSON, validates back to itself. |
| ReceiptSchema.LineItemAccepts | src/lib/receiptSchema.ts:44-49 | An object whose description is non-empty and whose amounts pass `num` is accepted with that description and the values `num` gives. |
| ReceiptSchema.CollectAllPass | src/lib/receiptSchema.ts:42-53 | When every element's check passes, the array gives back exactly the elements. |
| ReceiptSchema.LineItemsRoundTrip | src/lib/receiptSchema.ts:42-51 | A list of line items with non-empty descriptions, written as a JSON array, validates back to itself. |
| ReceiptSchema.NotesRoundTrip | src/lib/receiptSchema.ts:53 | A list of notes written as a JSON array validates back to itself. |
| ReceiptSchema.ValidateAccepts | src/lib/receiptSchema.ts:8-55 | An object with no unknown key, whose every field passes, is accepted with exactly those fields. |
| ReceiptSchema.ToJsonFields | src/lib/receiptSchema.ts:8-55 | A receipt written as JSON uses only schema keys, and each key holds that field's JSON. |
| ReceiptSchema.RoundTrip | src/lib/receiptSchema.ts:8-55 | A receipt whose required strings are non-empty, written as JSON and validated again, is itself. |
| ReceiptSchema.ValidatedRoundTrip | src/lib/receiptSchema.ts:8-55 | Whatever validation accepts, written back as JSON, is accepted again unchanged. |
| ReceiptSchema.MerchantStripsUnknown | src/lib/receiptSchema.ts:12-18 | An unknown key in `merchant` is dropped, not rejected: adding one changes nothing. |
| ReceiptSchema.TransactionStripsUnknown | src/lib/receiptSchema.ts:21-29 | An unknown key in `transaction` changes nothing. |
| ReceiptSchema.TotalsStripsUnknown | src/lib/receiptSchema.ts:32-39 | An unknown key in `totals` changes nothing. |
| ReceiptSchema.LineItemStripsUnknown | src/lib/receiptSchema.ts:44-49 | An unknown key in a line item changes nothing. |
| ReceiptSchema.TopIssuesInclude | src/lib/receiptSchema.ts:8-55 | The issues of every top-level field are among the receipt's issues. |
| ReceiptSchema.BadLineItemFails | src/lib/receiptSchema.ts:42-51 | One invalid line item fails the whole receipt, and its issues are reported at its index. |
| ReceiptSchema.BadAmountsReported | src/lib/receiptSchema.ts:32-39 | Every failing amount of `totals` fails the receipt and is reported, however many fail. |
| ReceiptSchema.EmptyNameTooSmall | src/lib/receiptSchema.ts:14 | An empty merchant name fails as too small. |
| ReceiptSchema.SpaceDescriptionAccepted | src/lib/receiptSchema.ts:45 | A description of one space passes: `min(1)` does not trim. |
| ReceiptSchema.ThousandsCommaDeleted | src/lib/receiptSchema.ts:5 | `"1,234.56"` is read as 1234.56. |
| ReceiptSchema.DecimalCommaMisread | src/lib/receiptSchema.ts:5 | `"1.234,56"` is read as 1.23456: a decimal comma is deleted too. |
| ReceiptSchema.NoDigitsIsZero | src/lib/receiptSchema.ts:5-6 | Text without number characters cleans to `""`, which is accepted as 0. |
| ReceiptSchema.CurrencySignDropped | src/lib/receiptSchema.ts:5 | A currency sign is deleted: `"$-12"` is read as -12. |
| ReceiptSchema.MalformedAmountsFail | src/lib/receiptSchema.ts:5-6 | `"12-3"` and `"1.2.3"` are not finite, and fail. |
| CsvCells.CellText | src/lib/exporters.ts:4-5 | The cell's text: `""` for undefined and null, a string as it is, and `JSON.stringify` of anything else. EscapeShape states it. |
| CsvCells.Escape | src/lib/exporters.ts:6-7 | Quotes the text and doubles its quotes exactly when it holds `"`, `,`, LF or CR, and otherwise leaves it unchanged. EscapeShape and ReadCellEscaped state its contract. |
| CsvCells.CsvEscape | src/lib/exporters.ts:3-8 | `csvEscape`: Escape of CellText. EscapeShape states the cases and ReadCellEscaped the round trip. |
| CsvCells.DoubleQuotes | src/lib/exporters.ts:6 | Doubling never shortens the text and adds nothing but quotes. |
| CsvCells.EscapeShape | src/lib/exporters.ts:3-8 | `null` and `undefined` escape to `""`. A text is left unchanged exactly when it has none of `"`, `,`, CR, LF. It is quoted exactly when it has one of them. |
| CsvCells.ReadQuotedDoubled | src/lib/exporters.ts:6 | Removing the closing quote and halving the doubled quotes gives the original text back. |
| CsvCells.ReadCellEscaped | src/lib/exporters.ts:3-8 | Every escaped cell reads back as its text, whatever follows it at a cell boundary. |
| CsvCells.ReadRecordEscaped | src/lib/exporters.ts:102 | A line of escaped cells joined by `,` reads back as those cells. |
| CsvCells.ReadRecordsEscaped | src/lib/exporters.ts:101-104 | Lines of escaped cells joined by LF read back as the records. |
| Exporters.AsRecord | src/lib/exporters.ts:18-20 | The exporters' `asRecord`: an object value's fields, and nothing for undefined, null, arrays and other values. NonObjectReceipt states what a row then holds. |
| Exporters.KeyValue | src/lib/exporters.ts:22-29 | No record gives `""`. Otherwise the value of the first key whose value is defined, not `null` and not `""`, or `""` when no key qualifies; never `null`. |
| Exporters.GetKey | src/lib/exporters.ts:22-29 | The search loop returns what `KeyValue` specifies. |
| Exporters.FalsyValuesKept | src/lib/exporters.ts:26 | `0` and `false` are returned, not skipped. |
| Exporters.SortByCreated | src/lib/exporters.ts:59 | The stable ascending sort by `createdAt`, built by insertion; keeps the length. SortIsPermutation, SortIsStable and StableSortUnique state its contract, and SortedCopy computes it. |
| Exporters.InsertKeepsItems | src/lib/exporters.ts:59 | Inserting an item adds exactly that item. |
| Exporters.InsertSorted | src/lib/exporters.ts:59 | Inserting into a list ordered by upload time keeps it ordered. |
| Exporters.SortIsPermutation | src/lib/exporters.ts:59 | The sort orders by upload time and keeps every item, as often as before. |
| Exporters.InsertStable | src/lib/exporters.ts:59 | Insertion puts the new item after every item of its own upload time. |
| Exporters.SortIsStable | src/lib/exporters.ts:59 | The items of any one upload time keep their input order. |
| Exporters.SortedGroupsDetermine | src/lib/exporters.ts:59 | Two ordered lists whose items agree group by group are equal. |
| Exporters.StableSortUnique | src/lib/exporters.ts:59 | Any ordered list that keeps each group's order is the sort's result, so every stable ascending sort agrees with it. |
| Exporters.InsertAt | src/lib/exporters.ts:59 | One pass of the array insertion sort inserts the next item into the sorted prefix and leaves the rest of the array alone. |
| Exporters.SortedCopy | src/lib/exporters.ts:59 | Sorting a copy in an array gives the stable sort of the items; the items themselves are a value and are not changed. |
| Exporters.MapIndexed | src/lib/exporters.ts:74 | `map` with an index: same length, element `i` is the callback on element `i` and `i`. |
| Exporters.MapIndexedSnoc | src/lib/exporters.ts:74 | Mapping one more element adds its image at the end. |
| Exporters.RowLiteral | src/lib/exporters.ts:78-89 | The object literal `r` with its ten keys. RowLiteralKeys, RowLiteralNumber and RowLiteralComplete state its contract. |
| Exporters.RowOf | src/lib/exporters.ts:74-93 | The row for the item at position `idx`: NO is `idx + 1`, TARİH the normalised date, the other columns `getKey` over their key lists. RowHasColumns, NonObjectReceipt and BuildRow state its contract. |
| Exporters.RowLiteralKeys | src/lib/exporters.ts:78-89 | The object literal's keys are exactly the ten columns. |
| Exporters.RowLiteralNumber | src/lib/exporters.ts:79 | `NO` holds the row number given. |
| Exporters.RowLiteralComplete | src/lib/exporters.ts:78-89 | A literal of non-`null` values holds every column with a non-`null` value. |
| Exporters.FillMissing | src/lib/exporters.ts:92 | The filled row has the row's keys and every column. The row's own values are kept, and each added column holds `""`. |
| Exporters.BuildRow | src/lib/exporters.ts:74-94 | The callback of `sorted.map` builds the row `RowOf` specifies. |
| Exporters.BuildRows | src/lib/exporters.ts:57-97 | `buildRows` returns the ten columns and the rows of the sorted items. |
| Exporters.RowHasColumns | src/lib/exporters.ts:75-93 | Every row has exactly the ten columns, and `NO` is its position plus one. |
| Exporters.RowsOfItems | src/lib/exporters.ts:57-97 | One row per item. The rows follow upload order, and the sorted items are a permutation of the items. Row `i` is built from the `i`-th sorted item, has exactly the ten columns, and has `NO` = `i + 1`. |
| Exporters.RowsShape | src/lib/exporters.ts:74-94 | Each row of any list has exactly the ten columns, and is numbered from 1. |
| Exporters.NonObjectReceipt | src/lib/exporters.ts:18-29 | A missing, array or non-object receipt gives `""` in every column but `NO`. |
| Exporters.CsvLine | src/lib/exporters.ts:102 | One CSV line: the escaped cells of the row in column order, joined by `,`. LineIsEscaped states it. |
| Exporters.CsvText | src/lib/exporters.ts:101-104 | The CSV text: a byte order mark, the header, then one line per row, joined by LF. CsvReadsBack and CsvOfItems state its round trip. |
| Exporters.CsvReadsBack | src/lib/exporters.ts:99-104 | The CSV text starts with the byte order mark. After it, the text reads back as the header and then each row's cell texts in column order. |
| Exporters.CsvOfItems | src/lib/exporters.ts:99-104 | The CSV of a list of items reads back as the ten columns, then row by row in upload order, the cell texts. |
| Exporters.HeaderIsEscaped | src/lib/exporters.ts:101 | A header of names needing no quotes is its own escaped line. |
| Exporters.LineIsEscaped | src/lib/exporters.ts:102 | A CSV line is the escaped line of its cell texts. |
| Exporters.ColumnsPlain | src/lib/exporters.ts:61-72 | No column name needs quoting. |
| Exporters.OrEmpty | src/lib/exporters.ts:123 | `r[c] ?? ""`: `""` for undefined and null, otherwise the value. SheetMatchesRows shows it never fires on built rows. |
| Exporters.SheetRows | src/lib/exporters.ts:123 | The array of arrays: the header, then each row's values in column order. SheetMatchesRows and SheetOfCompleteRows state its contract. |
| Exporters.SheetMatchesRows | src/lib/exporters.ts:116-123 | The sheet has a header and one line per item. The header is the column names. Each cell is the row's own value, since `?? ""` never fires, and has the same text as its CSV cell. |
| Exporters.RowsComplete | src/lib/exporters.ts:74-94 | Every row holds every column, and none of them is `null`. |
| Exporters.RowComplete | src/lib/exporters.ts:74-94 | A row holds every column, and none of them is `null`. |
| Exporters.SheetOfCompleteRows | src/lib/exporters.ts:123 | For rows holding every column with a non-`null` value, the array of arrays is exactly their values in column order. |
| Exporters.CsvFileName | src/lib/exporters.ts:109 | The CSV download name. CsvFileNameRule and SuffixLetterCase state its contract. |
| Exporters.XlsxFileName | src/lib/exporters.ts:136 | The Excel download name. XlsxFileNameRule and SuffixLetterCase state its contract. |
| Exporters.CsvFileNameRule | src/lib/exporters.ts:109 | The CSV name starts with the given name and ends with `.csv`. It equals the name exactly when the name already ends with `.csv`, letter case included. Applying the rule twice is applying it once. |
| Exporters.XlsxFileNameRule | src/lib/exporters.ts:136 | The same holds for `.xlsx`, compared after lower-casing. |
| Exporters.SuffixLetterCase | src/lib/exporters.ts:136 | The two rules differ on an upper-case suffix: `a.CSV` gets `.csv`, `a.XLSX` is kept. |
| ExportDates.Pad2 | src/lib/exporters.ts:31-33 | At least two digits with value `n`, and exactly `String(n)` from 10 on. |
| ExportDates.FullYear | src/lib/exporters.ts:53 | A year below 100 gets 2000 added; others are kept. |
| ExportDates.MatchAt | src/lib/exporters.ts:41 | The groups of a match are digit runs of length 1-4, 1-2 and 1-4. |
| ExportDates.MatchAtSound | src/lib/exporters.ts:41 | What the scanner matches has the pattern's shape. |
| ExportDates.MatchAtComplete | src/lib/exporters.ts:41 | Wherever the text has the pattern's shape, the scanner matches there with those first two groups. The third group extends the shape's third group, and equals it when the shape reaches the end of the text. |
| ExportDates.Find | src/lib/exporters.ts:41 | No match exactly when the pattern matches nowhere; otherwise the leftmost match. |
| ExportDates.FindAtStart | src/lib/exporters.ts:41 | A match at the start is the leftmost one. |
| ExportDates.NormalizeDate | src/lib/exporters.ts:35-55 | `normalizeDateDmy`: `""` for a non-string, otherwise NormalizeTrimmed of the trimmed text. NotTextIsEmpty, NoMatchKept, WholeDate, MatchedDate, SeparatorsIrrelevant, YearFirstMeetsDayFirst, NormalizeIdempotent and YearFirstFlips state its contract. |
| ExportDates.NormalizeTrimmed | src/lib/exporters.ts:38-42 | Blank text gives `""`, text with no match is returned as it is, and otherwise the leftmost match is reformatted. NoMatchKept, MatchedDate and TrimmedText state its contract. |
| ExportDates.Reformat | src/lib/exporters.ts:44-47 | The three digit groups read as numbers and arranged; the finiteness check of :47 always passes on digit runs of at most four digits. WholeDate and MatchedDate state it. |
| ExportDates.Arrange | src/lib/exporters.ts:49-54 | `DD/MM/YYYY` from year-first numbers when the first is at least 1900, otherwise from day-first numbers with a two-digit year completed. ArrangeCentury, TwoDigitYear, RereadCell, ArrangeStable and YearFirstFlips state its contract. |
| ExportDates.NotTextIsEmpty | src/lib/exporters.ts:36-38 | A non-string or blank input gives `""`. |
| ExportDates.NoMatchKept | src/lib/exporters.ts:41-42 | Text without the pattern is returned trimmed and otherwise unchanged. |
| ExportDates.WholeDate | src/lib/exporters.ts:41-54 | A text of the pattern's shape is arranged from its three numbers. |
| ExportDates.MatchedDate | src/lib/exporters.ts:41-54 | A text matched at its start is normalised as that match. |
| ExportDates.TrimmedText | src/lib/exporters.ts:37 | Text with no surrounding whitespace is normalised as it is. |
| ExportDates.SeparatorsIrrelevant | src/lib/exporters.ts:41-54 | `05.03.2024`, `05-03-2024` and `05/03/2024` give the same cell. |
| ExportDates.YearFirstMeetsDayFirst | src/lib/exporters.ts:49-54 | A year-first and a day-first writing of the same date give the same cell. |
| ExportDates.TwoDigitYear | src/lib/exporters.ts:52-54 | A two-digit year is this century's: `05.03.24` gives the cell of `05.03.2024`. |
| ExportDates.ArrangeCentury | src/lib/exporters.ts:53-54 | A day-first date with a year below 100 is that date with 2000 added to the year. |
| ExportDates.RereadCell | src/lib/exporters.ts:35-55 | A written cell, read again, is taken apart into the numbers it was written from. |
| ExportDates.ArrangeStable | src/lib/exporters.ts:35-55 | A written cell normalises to itself unless both outer numbers are at least 1900. |
| ExportDates.YearFirstFlips | src/lib/exporters.ts:49-50 | When both outer numbers are at least 1900, normalising again swaps them. |
| ExportDates.NormalizeIdempotent | src/lib/exporters.ts:35-55 | Normalising twice is normalising once, except for the case `YearFirstFlips` describes. |
| Page.IsRecord | src/app/page.tsx:15-17 | The page's `asRecord` admits a value exactly when it is an object or an array; undefined, null, strings, numbers and booleans are refused. PickStops and PickArrayIndex state its effect. |
| Page.Member | src/app/page.tsx:25 | `rec[p]`: an object's field, or an array's element when `p` is a canonical index (ArrayIndex), else undefined. PickOne and PickArrayIndex state it. |
| Page.ArrayIndex | src/app/page.tsx:25 | A property name indexes an array only when it is a non-empty run of decimal digits. |
| Page.SplitDots | src/app/page.tsx:20 | `split(".")` gives at least one piece. The pieces have no dot, and joining them with dots gives the text back. |
| Page.SplitJoin | src/app/page.tsx:20 | Splitting undoes joining by dots, for pieces without a dot. |
| Page.SplitConcat | src/app/page.tsx:20 | Splitting `p + "." + q` is splitting `p`, then `q`. |
| Page.Pick | src/app/page.tsx:19-28 | The loop over the pieces returns the path lookup `PickPath` specifies. |
| Page.PickPath | src/app/page.tsx:19-28 | `pick` as a recursion over the path's pieces: undefined as soon as a value is not a record. Pick computes it, and PickPathAppend, PickCompose, PickStops and PickOne state its contract. |
| Page.PickPathAppend | src/app/page.tsx:21-27 | A lookup along `p + q` is the lookup along `q` from where `p` leads. |
| Page.PickCompose | src/app/page.tsx:19-28 | `pick(o, p + "." + q)` is `pick(pick(o, p), q)`. |
| Page.PickStops | src/app/page.tsx:23-24 | A lookup stops with `undefined` at anything that is not an object or an array. |
| Page.PickArrayIndex | src/app/page.tsx:15-16 | This page's `asRecord` admits arrays, so a decimal piece indexes into an array. |
| Page.PickOne | src/app/page.tsx:22-26 | A path of one piece is one member lookup. |
| Page.LineCount | src/app/page.tsx:218-219 | The line count shown on a card. LineCountCases states it. |
| Page.LineCountCases | src/app/page.tsx:218-219 | The count is the length of `line_items` when it is an array, and 0 otherwise. |
| Page.FilterKeeps | src/app/page.tsx:36 | A filter keeps exactly the accepted items, each as often as before. |
| Page.FilterAppend | src/app/page.tsx:36 | Filtering keeps the order: filtering a concatenation filters each part. |
| Page.Exportable | src/app/page.tsx:36 | `items.filter((i) => i.status === "done")`. ExportableItems, FilterKeeps and FilterAppend state its contract. |
| Page.ExportableItems | src/app/page.tsx:36 | The export list is exactly the items whose transcription is done, each as often as in the list. |
| Page.NewItem | src/app/page.tsx:91-98 | The `base` item: the given id, time, name and size, the type or `image/*` when empty, status processing, no receipt and no error. UploadPrepends states it. |
| Page.Upload | src/app/page.tsx:102 | The optimistic update that puts the new item first. UploadPrepends states its contract. |
| Page.UploadPrepends | src/app/page.tsx:91-102 | An upload puts one new processing item, with no receipt and no error, in front of the unchanged list. |
| Page.Merge | src/app/page.tsx:114 | `{ ...p, ...updated }`: the update's fields, keeping the old item's receipt or error where the update has none. CompleteOnlyMatching states it. |
| Page.Complete | src/app/page.tsx:113-122 | The list update after a reply: items with the id are merged with the update and the rest are unchanged. CompleteOnlyMatching states its contract. |
| Page.CompleteOnlyMatching | src/app/page.tsx:113-122 | Completion keeps the list's length and every item with another id. An item with the id becomes done with the receipt, or failed with the message; the field the update lacks keeps its value. |
| Page.Delete | src/app/page.tsx:146 | `prev.filter((p) => p.id !== id)`. DeleteRemoves states its contract. |
| Page.DeleteRemoves | src/app/page.tsx:146 | Delete removes every item with the id and keeps every other item, as often as before. |
| TranscribeRoute.Respond | src/app/api/transcribe/route.ts:13-79 | `POST`, from what reading the form, the model call and `JSON.parse` give. GuardsFirst, OnlyOkPath, Status422, FormErrorCaught, ReplyErrorCaught, ExtractionErrorCaught and EmptyReply state its contract. |
| TranscribeRoute.Guard | src/app/api/transcribe/route.ts:18-31 | The three guards in order: 400, 400 and 413, or no rejection. GuardsFirst states exactly when each one fires. |
| TranscribeRoute.Caught | src/app/api/transcribe/route.ts:53-77 | The `catch` block. CaughtNeverOk states its contract. |
| TranscribeRoute.IsAuthExpired | src/app/api/transcribe/route.ts:57-64 | True exactly when the lower-cased message contains one of the six phrases. |
| TranscribeRoute.GuardsFirst | src/app/api/transcribe/route.ts:18-31 | A missing file gives 400, a non-image type 400, and a size above 8 MiB 413, in that order; exactly 8 MiB passes. A rejected upload's response does not depend on the model's reply. |
| TranscribeRoute.OnlyOkPath | src/app/api/transcribe/route.ts:42-52 | `ok: true` exactly when the guards pass, the reply arrives, extraction succeeds and validation accepts. The receipt sent is the validated one. |
| TranscribeRoute.Status422 | src/app/api/transcribe/route.ts:43-50 | 422 answers a schema mismatch and nothing else. |
| TranscribeRoute.CaughtNeverOk | src/app/api/transcribe/route.ts:53-77 | A caught value is never a success. It is 401 with the fixed credential guidance exactly when its message (the `Error`'s message, or "Unknown error") names an expired credential, and otherwise 500 carrying that message verbatim. |
| TranscribeRoute.FormErrorCaught | src/app/api/transcribe/route.ts:14-77 | An error thrown by `req.formData()` is answered with 401 or with a verbatim 500 by the same classifier, whatever the model would have replied. |
| TranscribeRoute.ReplyErrorCaught | src/app/api/transcribe/route.ts:36-77 | An error thrown by the model call after the guards pass is answered with 401 when its message names an expired credential, and otherwise with 500 carrying the message. |
| TranscribeRoute.ExpiredSessionIs401 | src/app/api/transcribe/route.ts:36-74 | A model call that throws an `ExpiredTokenException` message is answered with 401 and the guidance. |
| TranscribeRoute.ExtractionErrorCaught | src/app/api/transcribe/route.ts:53-77 | An extraction error is caught, not a 422. It gives 401 when its message names an expired credential, and otherwise 500 with the message verbatim. |
| TranscribeRoute.EmptyReply | src/app/api/transcribe/route.ts:42-77 | A blank model reply gives 500 with "Model returned empty output". |
| TranscribeRoute.NonErrorThrown | src/app/api/transcribe/route.ts:54 | A thrown value that is not an `Error` gives 500 with "Unknown error". |
| TranscribeRoute.AuthCaseInsensitive | src/app/api/transcribe/route.ts:57 | The classifier ignores letter case. |
| TranscribeRoute.ExpiredTokenException | src/app/api/transcribe/route.ts:57-64 | A message holding `ExpiredTokenException`, in its own letter case, counts as expired. |
| TranscribeRoute.NoAuthPhrase | src/app/api/transcribe/route.ts:57-64 | A message with neither `x` nor `a`, in either case, is not an expired credential. |

## Left out

- `JSON.parse` and `JSON.stringify` are parameters. The model does not describe the JSON grammar or the serialiser's output. Every property holds for any parser and any serialiser.
- Numbers are exact reals. IEEE-754 rounding, overflow to infinity and `-0` are not modelled. `Number` is modelled only on text of digits, `.` and `-`, which is all the cleaning leaves. `NumberOf` reads `"-"` and `"."` as not finite and `""` as 0, as `Number` does.
- JSON objects are maps. Key insertion order and prototype keys such as `constructor` or `__proto__` are not modelled. A lookup only finds keys the object holds.
- Zod's issue texts and `z.prettifyError` are not modelled. An issue is a path and a code, and only the presence of the issues is stated.
- The `details` field of the 422 response is not modelled.
- Text.Lower: lower-cases ASCII letters and the Kelvin sign (U+212A) only. That is enough for the six ASCII phrases and for the `.xlsx` suffix, which no other character can lower-case into.
- Exporters.SortedCopy: a stable insertion sort stands in for the engine's `Array.prototype.sort`. The language requires that sort to be stable, and `Exporters.StableSortUnique` shows that every stable ascending sort by `createdAt` gives the same list.
- ExportDates.NormalizeIdempotent: excludes dates whose two outer numbers are both at least 1900. `ExportDates.YearFirstFlips` states what happens to them instead.
- Exporters.CsvReadsBack: requires column names that need no quoting, as the header is joined without escaping. `Exporters.ColumnsPlain` shows the real columns qualify.
- The Blob, object URL and anchor-click steps of `downloadCsv` and `downloadExcel`, and the `xlsx` writer itself (`aoa_to_sheet`, `book_new`, `write`), are I/O and a library not shown. The model stops at the CSV text and at the array of arrays handed to the writer.
- `formatIso` in src/lib/exporters.ts is unused and depends on `Date`.
- src/lib/db.ts beyond the `StoredReceiptItem` type is IndexedDB I/O. That includes the newest-first order of `dbListItems`.
- src/lib/bedrock.ts (the model call) and src/lib/prompt.ts (a constant prompt) are not part of this model. The reply or the thrown value of the model call is an input of `TranscribeRoute.Respond`.
- `req.formData()`, `file.arrayBuffer()`, the base64 encoding and the `mediaType` fallback are inputs or are left out.
- The page's rendering, the hydration and preview-URL effects, `fetch`, `crypto.randomUUID`, `Date.now`, the export base name built from the date, and the locale-formatted dates and sizes are UI, clock and I/O. The new item's id and time are parameters of `Page.NewItem`.
- The page's `onAddFiles` image filter and its sequential awaits are not modelled. Only the list updates and the export filter are.
- Concurrency between overlapping uploads (the order in which `setItems` callbacks run) is not modelled. Each update is a function on the list it is given.
