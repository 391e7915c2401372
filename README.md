# Real-time quote snapshot, modelled in Dafny

`realtime_stock_price.py` polls the TWSE/TPEX real-time quote endpoint for a
list of stock codes. It pairs each code with its venue (`tse` or `otc`) and
cuts the pairs into requests of at most 50. Each request gets up to three
attempts with back-off, and every failure goes to an in-memory error log.
The response's `msgArray` entries are decoded into flat quote rows: 15 base
fields plus a five-level bid/ask ladder. The rows become a table whose
columns are always the fixed 35-column schema.

This project models that core and proves what it promises. The modules
follow the program's structure:

| module | file | what it models |
|---|---|---|
| `Wrappers` | wrappers.dfy | `Option` |
| `Text` | text.dfy | the string and number primitives the code relies on (`str(int)`, `split`, `strip`, `replace(",", "")`, ASCII `upper`, zero-padded fields) |
| `ErrorLog` | errorlog.dfy | `ErrorLogger`: a class with a `records` buffer that `Log` appends to and `FlushToFile` drains |
| `Batching` | batching.dfy | `MARKET_MAP`, `decide_market`, `chunked`, `build_ex_ch` |
| `Decoders` | decoders.dfy | `to_float`, `to_int`, `split_levels`, `split_sizes`, `parse_datetime` |
| `Quotes` | quotes.dfy | the 35-column schema and `parse_msg_item` |
| `Http` | http.dfy | `http_get`, a retry loop, specified by the recursive function `Retry` |
| `Snapshot` | snapshot.dfy | `parse_json_response` and `fetch_once`: the batch loop and the table |

How the model represents the program:
- A message item is a `map<string, string>`. A row is a `Dict`: its keys in
  insertion order plus a map from key to `Cell` (`Null`, text, real or int).
- The columns are the `Column` datatype. `ColumnName` spells each one as the
  Python key, and `Quotes.ColumnNameInjective` proves that no two columns
  share a name.
- The network is a parameter. For request `b` with query parameters `p`,
  `net(b, p)` gives what each of its three attempts returns: a status and a
  body, or an exception's type name and message.
- A body is either a JSON object or text that does not decode.
- The clock is a parameter. One `now` string stamps every record of a call,
  and the UTC offset that `isoformat` appends is a parameter too.
- Sleeps are returned as a sequence of durations in seconds, in order.

Behaviours of the code a reader might not expect, which the model keeps:
- `http_get` sleeps after every failed attempt, including the third, so an
  all-failure call sleeps 0.5 + 1.0 + 2.0 seconds (`Http.RetryGivesUp`).
- `fetch_once` pauses only after a batch it parsed. A batch it skips (no
  response, a body that does not decode, or an empty JSON object) is
  followed at once by the next request (`Snapshot.BatchSkipped`,
  `Snapshot.BatchPause`).
- An empty JSON object (`{}`) is skipped like a failed parse, but leaves no
  record.

Other behaviours kept as the code has them:
- The bid side reads keys `a`/`f` and the ask side reads `b`/`g`.
- `to_float` keeps commas, so `"1,000"` gives `None`, while `to_int` deletes
  them.
- The time field is `t`, or `%` when `t` is missing or empty.
- Only the first five ladder levels are kept.

## Model

| member | source | states |
|---|---|---|
| `ErrorLog.FormatRecord` | realtime_stock_price.py:94-96 | a record line is the six fields joined by space-pipe-space separators: its length is the sum of the fields' lengths plus 15 |
| `ErrorLog.FormatRecordFields` | realtime_stock_price.py:96 | splitting a record at the pipe character gives back the timestamp, the upper-cased level, code, step, message and context, in order (when no field holds a pipe) |
| `ErrorLog.ErrorLogger.constructor` | realtime_stock_price.py:90-91 | a new logger has an empty buffer |
| `ErrorLog.ErrorLogger.Log` | realtime_stock_price.py:93-98 | appends exactly one formatted line and changes nothing else |
| `ErrorLog.ErrorLogger.FlushToFile` | realtime_stock_price.py:100-108 | writes each buffered line followed by a newline, in order; writes nothing when the buffer is empty; leaves the buffer empty |
| `ErrorLog.FileLinesSplit` | realtime_stock_price.py:105-107 | the written text, split at newlines, gives back the records followed by one trailing empty string |
| `Batching.DecideMarketVenues` | realtime_stock_price.py:115-123 | the venue is `otc` if and only if the code is `3008`, and `tse` otherwise |
| `Batching.Chunked` | realtime_stock_price.py:128-129 | every chunk is non-empty and holds at most `n` elements; all chunks but the last hold exactly `n`; a negative `n` gives no chunks |
| `Batching.ChunkedFlatten` | realtime_stock_price.py:128-129 | concatenating the chunks gives back the list |
| `Batching.ChunkedCount` | realtime_stock_price.py:128-129 | the number of chunks is the ceiling of `len/n`: none for an empty list |
| `Batching.ChunkedExample` | realtime_stock_price.py:128-129 | 120 elements in chunks of 50 give sizes 50, 50 and 20 |
| `Batching.BuildExCh` | realtime_stock_price.py:131-132 | the filter for no pairs is empty, and for one pair it is `venue_code.tw` |
| `Batching.BuildExChChannels` | realtime_stock_price.py:131-132 | splitting the filter at the pipe character gives one `venue_code.tw` segment per pair, in order |
| `Decoders.ToFloat` | realtime_stock_price.py:157-163 | a missing value gives `None`; an empty, `-` or `N/A` token (after stripping) gives `None`; a token holding a comma never decodes |
| `Decoders.ToInt` | realtime_stock_price.py:165-171 | a missing value gives `None`; after deleting commas and stripping, the sentinels give `None` |
| `Decoders.ToIntIsTruncatedToFloat` | realtime_stock_price.py:165-171 | `to_int` is `to_float` on the comma-free token, truncated toward zero |
| `Decoders.Trunc` | realtime_stock_price.py:170 | truncation toward zero, on both signs |
| `Decoders.PlainNumeralDecodes` | realtime_stock_price.py:157-171 | a string of digits decodes to its value under both decoders |
| `Decoders.NumeralDecodes` | realtime_stock_price.py:157-171 | `str(n)` decodes back to `n` under both decoders |
| `Decoders.DecimalDecodes` | realtime_stock_price.py:157-163 | `whole.frac` decodes to its exact decimal value |
| `Decoders.GroupedDecodes` | realtime_stock_price.py:157-171 | a number written with thousands commas decodes to itself under `to_int`; from 1000 up, `to_float` rejects it |
| `Decoders.SegmentsCover` | realtime_stock_price.py:173-177 | the kept ladder segments are non-empty, hold no `_`, and together spell the token without its `_` separators |
| `Decoders.SplitLevels` | realtime_stock_price.py:173-174 | a missing or empty ladder token gives no levels |
| `Decoders.SplitSizes` | realtime_stock_price.py:176-177 | a missing or empty ladder token gives no sizes |
| `Decoders.LadderSizesRoundTrip` | realtime_stock_price.py:176-177 | a ladder of sizes written the provider's way (each followed by `_`) decodes to the same sizes, in order |
| `Decoders.LadderLevelsRoundTrip` | realtime_stock_price.py:173-174 | a ladder of whole-number prices written the provider's way decodes to the same prices, in order |
| `Decoders.DecimalLadderRoundTrip` | realtime_stock_price.py:173-174 | a ladder of decimal prices `whole.frac` written the provider's way (`119.50_120.00_`) decodes to each exact price, in order |
| `Decoders.Strptime` | realtime_stock_price.py:182 | it only ever yields a valid calendar date and time |
| `Decoders.ParseDateTime` | realtime_stock_price.py:179-185 | the result exists if and only if both fields are present, in the fixed `YYYYMMDD` and `HH:MM:SS` forms, and name a real moment; it is then `YYYY-MM-DDT` + the time + the offset |
| `Decoders.ParseDateTimeAcceptsValid` | realtime_stock_price.py:179-185 | every valid moment, written in the provider's format, is accepted and rendered in ISO form |
| `Decoders.CompactReadsBack` | realtime_stock_price.py:182 | writing a valid moment in the provider's format and reading it back gives the same moment |
| `Decoders.SelfTestLevels` | realtime_stock_price.py:264 | `split_levels("1_2_")` is `[1.0, 2.0]` |
| `Decoders.SelfTestSizes` | realtime_stock_price.py:265 | `split_sizes("10_20_")` is `[10, 20]` |
| `Decoders.SelfTestSentinel` | realtime_stock_price.py:266 | `to_float("-")` is `None` |
| `Decoders.SelfTestGrouping` | realtime_stock_price.py:267 | `to_int("1,000")` is `1000` |
| `Decoders.SelfTestTimestamp` | realtime_stock_price.py:268-269 | `parse_datetime("20250919", "13:30:00")` is `2025-09-19T13:30:00` followed by the offset |
| `Quotes.ColumnsDistinct` | realtime_stock_price.py:230-231 | the schema has 35 columns, none repeated |
| `Quotes.ColumnsMembers` | realtime_stock_price.py:230-231 | the schema holds every base column and each side's levels 1 to 5, and nothing else |
| `Quotes.ColumnNamesDistinct` | realtime_stock_price.py:230-231 | the 35 column names are distinct strings |
| `Quotes.ColumnNameInjective` | realtime_stock_price.py:188-210 | two columns with the same name are the same column |
| `Quotes.ParseMsgItem` | realtime_stock_price.py:187-211 | the row built key by key equals the row `MsgRow` describes |
| `Quotes.MsgRowKeys` | realtime_stock_price.py:187-211 | a row has exactly the schema's 35 keys, in schema order |
| `Quotes.MsgRowBase` | realtime_stock_price.py:188-204 | every base field is read from its own provider key, by the decoder its kind calls for |
| `Quotes.MsgRowLevel` | realtime_stock_price.py:205-210 | level `i` of the bid prices comes from `a`, bid sizes from `f`, ask prices from `b` and ask sizes from `g`, each at index `i - 1`, or `None` past the end |
| `Quotes.MsgRowLast` | realtime_stock_price.py:198 | `last` is `to_float` of `z` |
| `Quotes.MsgRowVolume` | realtime_stock_price.py:201 | `vol` is `to_int` of `v` |
| `Quotes.MsgRowTime` | realtime_stock_price.py:203 | `time` is `t` when it is present and non-empty, and `%` otherwise |
| `Quotes.MsgRowTimestamp` | realtime_stock_price.py:189 | `ts` is `parse_datetime(d, t or %)`, and `None` when either field is missing |
| `Quotes.MsgRowEmpty` | realtime_stock_price.py:187-211 | an empty item gives a row of 35 `None`s |
| `Quotes.SelfTestLast` | realtime_stock_price.py:270-272 | with `z` = `"118.5"`, `last` is 118.5 |
| `Quotes.SelfTestBook` | realtime_stock_price.py:270-272 | with `a` = `"119_120_"` and `b` = `"118_117_"`, `bid_px_1` is 119.0 and `ask_px_1` is 118.0 |
| `Http.Retry` | realtime_stock_price.py:134-145 | at most three failures are recorded, with exactly one pause per failure |
| `Http.HttpGet` | realtime_stock_price.py:134-145 | the loop returns the body, records and pauses that `Retry` specifies |
| `Http.RetrySucceeds` | realtime_stock_price.py:134-145 | a body is returned if and only if some attempt answered 200; it is the first such answer's body, and every earlier attempt failed |
| `Http.RetryRecords` | realtime_stock_price.py:134-145 | record `i` belongs to failed attempt `i` and carries the attempt number `i + 1`; pause `i` is `RETRY_BACKOFF[i]` |
| `Http.RetryThirdTime` | realtime_stock_price.py:134-145 | two failures and then a 200 give the third body, two records, and pauses of 0.5 s then 1.0 s |
| `Http.RetryGivesUp` | realtime_stock_price.py:134-145 | three failures give `None`, three records and pauses of 0.5, 1.0 and 2.0 seconds |
| `Http.BadStatusRecord` | realtime_stock_price.py:140 | a bad status is logged at WARN as `status_code=<n>`, with the attempt number as context |
| `Http.ExceptionRecord` | realtime_stock_price.py:141-142 | an exception is logged at ERROR as `<type>: <message>`, with the attempt number as context |
| `Snapshot.ParseJsonResponse` | realtime_stock_price.py:147-155 | a decodable body is returned unchanged and logs nothing; otherwise the result is `None` and there is one PARSE record |
| `Snapshot.Pause` | realtime_stock_price.py:228 | the pause is `max(interval, 0.2)`: at least both, and equal to one of them |
| `Snapshot.ParseItems` | realtime_stock_price.py:226-227 | one row per entry, in order |
| `Snapshot.FetchBatch` | realtime_stock_price.py:220-228 | one pass of the batch loop yields the rows, pauses and records `BatchHarvest` specifies |
| `Snapshot.FetchBatches` | realtime_stock_price.py:219-228 | the batch loop yields the rows, pauses and records of every batch, in batch order |
| `Snapshot.FetchOnce` | realtime_stock_price.py:216-234 | the table's columns are the 35 of the schema, in order, even with no rows; its rows are the decoded entries of every parsed batch, in batch-then-item order; the pauses and log records are those of the batches in order |
| `Snapshot.Assemble` | realtime_stock_price.py:229-234 | the columns are the schema, in order, whatever the rows; rows that already hold the schema are kept unchanged |
| `Snapshot.RowsSchematic` | realtime_stock_price.py:226-234 | every row of a snapshot holds exactly the schema's columns |
| `Snapshot.BatchSkipped` | realtime_stock_price.py:221-224 | a batch with no response, an undecodable body or an empty object adds no rows and no pause of its own; an undecodable body adds one PARSE record |
| `Snapshot.BatchParsed` | realtime_stock_price.py:225-228 | a parsed batch yields its `msgArray` entries, and its last pause is at least 0.2 s |
| `Snapshot.BatchPause` | realtime_stock_price.py:221-228 | a batch pauses after `http_get` if and only if its body decoded to a non-empty object |
| `Snapshot.RowsNeedAnswer` | realtime_stock_price.py:221-227 | rows come only from an attempt that answered 200 with a JSON object, and they are that object's entries |
| `Snapshot.GatherPrefix` | realtime_stock_price.py:219-228 | later batches only append rows, records and pauses |
| `Snapshot.GatherAllFail` | realtime_stock_price.py:219-228 | when every attempt fails, there are no rows, and three records and three pauses per request |
| `Snapshot.BatchesCover` | realtime_stock_price.py:217-219 | the requests cover every code once, in order, with its venue; at most 50 per request; as few requests as that allows |
| `Snapshot.FetchedNothing` | realtime_stock_price.py:216-234 | no codes means no request, no record, no pause and no row |

## Left out

- Network, JSON decoding and HTTP headers: the network is a parameter, and a body is already classified as a JSON object or undecodable text. The request timeout has no model; a timeout is one more exception an attempt can return.
- JSON documents that are not objects (a list or a number at the top level), and a `msgArray` that is not a list of string-valued objects: the model's `Document` holds an optional list of items, and an item maps keys to strings.
- `resp.json()` falling back to `json.loads(resp.text)`: both are one decoding step in the model.
- Floating point: decoded numbers are exact reals. The numeral grammar covers an optional sign, digits and an optional fraction. Exponents, `inf`, `nan` and underscores in numerals have no model, and neither does `to_int` raising on an infinite value.
- `parse_datetime`: only the fixed-width forms (`YYYYMMDD`, `HH:MM:SS`) are accepted. `strptime`'s leniency (non-padded fields, surrounding whitespace) is not modelled; such inputs give `None` here.
- Time zones: the UTC offset is a parameter, and the fallback that chooses the Asia/Taipei zone is not part of this model.
- The console line `log` prints is not modelled. A record's context is taken as already rendered by `json.dumps`; an empty context is written as `{}`.
- `flush_to_file` returns the text it would append instead of opening the dated log file.
- `datetime.now`: every record of one call carries the same `now`, given as a parameter.
- `time.sleep`: pauses are returned as durations and no time passes.
- Text.Upper: upper-cases ASCII letters only, where Python's `str.upper` maps all of Unicode; the program logs only the levels `warn` and `error`.
- Batching.Chunked: requires a non-zero chunk size. For a size of 0, Python's `range` raises `ValueError`, which is not modelled; `fetch_once` always passes 50.
- Ladder prices with a sign or an exponent are not covered by a round-trip lemma; `Decoders.DecimalLadderRoundTrip` covers unsigned `whole.frac` prices.
- pandas: the table is its columns plus its rows.
- Snapshot.Assemble: the column selection `df[base+levels]` is modelled only by the columns it yields. The ensures does not state the row contents for rows that lack schema columns, because every row `parse_msg_item` builds holds all 35 (`Snapshot.RowsSchematic`).
- `append_csv`, `write_excel`, `run_once`, the command-line entry point and the historical-bars code are outside this model.
