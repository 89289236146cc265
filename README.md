# cattoy log tables, modelled in Dafny

cattoy exposes gzip-compressed Apache logs to SQLite as two virtual tables.
`access_log` reads NCSA combined logs with a trailing `%D`. `error_log` reads httpd error logs.
Both tables run the same engine:

- a cursor fetches one line at a time into a 4096-byte buffer and trims trailing CR and LF bytes;
- a scanner splits the line into a fixed number of raw fields (10 or 3) and records each as a
  (pointer, size) slot, where size -1 means absent;
- derived slots are then filled in: timestamp parts at fixed offsets, the request's method and
  url, the client's host, and the message;
- `xColumn` turns a slot into a value: NULL for a negative size, `atoi` for the numeric columns,
  a reversed-octet integer for the IP address, a month number with a text fallback, the epoch
  from `strptime` and `mktime`, and otherwise the slot's bytes;
- `trimquote` strips one optional quote from each end of the table's file name.

The model is organised as follows.

- `CString` holds the C library pieces the engine relies on: `strchr`, the NUL-or-byte search
  and `atoi`.
- `GzStream` holds the decompressed file as a byte sequence with a read position, and `gzgets`
  on it.
- `LineFetch` is the pure specification of one line fetch (`Fetch`, `Discard`, `TrimEnd`) and of
  a whole pass over the file (`Rows`).
- `FieldScan` covers the field loop (`Next`, `Tokenize`), the IP conversion and the month table.
- `AccessLog` and `ErrorLog` give each table's slot table (`Slots`) and column value (`Column`).
- `TrimQuote` covers the file-name helper.
- `LogCursor.Cursor` is the imperative cursor. It is a class with the C struct's fields:
  - the stream and its position, and zlib's sticky read error `readError`;
  - `row` and `eof`;
  - the line buffer as an `array<char>` of 4096 and `lineLen`;
  - the lazy-scan flag `linePtrsValid`;
  - `line_ptrs`/`line_size` as one `array<Slot>`.

  Its methods are proved against the pure functions above.

The two C files differ only in field count, derived columns and column switch. The cursor is
therefore one class parameterised by a `Format`. Rows below cite `access_log.c` for shared code
and `error_log.c` for what only the error log does. The shared code sits at these lines in the
two files:

| code | access_log.c | error_log.c |
|---|---|---|
| trimquote | 89-113 | 87-111 |
| cursor struct | 115-128 | 113-126 |
| get_line | 130-173 | 128-171 |
| scanline: clearing and field loop | 180-208 | 178-206 |
| scanline: derived slots | 210-249 | 208-256 |
| open | 301-323 | 308-330 |
| filter | 334-344 | 341-351 |
| next | 346-349 | 353-356 |
| eof | 351-354 | 358-361 |
| rowid | 356-360 | 363-367 |
| column: lazy scan and NULL | 366-372 | 375-381 |
| column: IP conversion | 375-393 | 384-402 |
| column: month | 394-411 | 403-420 |
| column: atoi cases | 412-420 | 421-427 |
| column: text | 424-425 | 445-446 |

Facts about the code, as the model states them:

- The address `192.168.1.4` converts to 67217600, not 67414720 (`FieldScan.IpValueExample`).
- `row` is incremented by every fetch, including the fetch that reaches end of file and any
  fetch after it.

## Model

| member | source | states |
|---|---|---|
| CString.FindOrEnd | access_log.c:199-203 | the first index at or after `from` holding the byte, or the end of the line when there is none (strchr with strlen standing in for NULL) |
| CString.Strchr | access_log.c:199 | strchr: finds exactly when the byte occurs at or after `from`, and then at its first such index |
| CString.FindOrEndSkips | access_log.c:199-203 | no byte before the found index equals the searched byte |
| CString.FindOrEndAt | access_log.c:199-203 | any index that holds the byte (or is the end) and has no earlier occurrence is the search's result |
| CString.AtoiOfNatText | access_log.c:419 | atoi round trip: the decimal text of n followed by a non-digit reads back as n |
| CString.AtoiOfNegative | access_log.c:419 | atoi of `-` followed by the decimal text of n is -n |
| CString.AtoiSkipsBlanks | access_log.c:419 | atoi skips leading white space |
| CString.AtoiOfNonNumeric | access_log.c:419 | atoi of text that does not start with a digit (after an optional sign) is 0 |
| CString.AtoiOfTwoDigits | access_log.c:419 | two digits followed by a non-digit give their two-digit value, the reading the time columns rely on |
| GzStream.Gets | access_log.c:137 | gzgets: a chunk is non-empty, at most size-1 bytes, and ends in LF, fills the buffer, or ends at a clean end of file; no data with eof exactly at a clean end; no data without eof only on a broken stream |
| GzStream.GetsStopsAtNewline | access_log.c:137 | a chunk holds no LF before its last byte |
| GzStream.ChunkEndBeforeNewline | access_log.c:137 | with an LF ahead, gzgets stops just after it, or after size-1 bytes if that comes first |
| GzStream.ChunkEndAtEnd | access_log.c:137 | with no LF ahead, gzgets reads to the end of the data or fills the buffer |
| LineFetch.TrimEnd | access_log.c:168-171 | the trim removes only CR and LF bytes, and removes all of the trailing ones |
| LineFetch.Discard | access_log.c:149-165 | the discard loop: the stream only moves forward; eof is set only at a clean end; failure happens only on a broken stream; otherwise it stops just after a CR or LF |
| LineFetch.Fetch | access_log.c:135-173 | one fetch: no line leaves the stream where it was; a line is shorter than the buffer and moves the stream forward; eof only at a clean end |
| LineFetch.FetchNoData | access_log.c:138-145 | a NULL first read sets eof exactly at a clean end and fails exactly otherwise, never both |
| LineFetch.FetchLine | access_log.c:137-171 | a fetched line is the bytes read, less trailing CR and LF, and holds no LF; when the chunk did not end in one, it is the whole chunk cut at 4095 bytes or at the end of data |
| LineFetch.FetchLineCut | access_log.c:148-166 | a chunk not ending in CR or LF is kept whole; the rest of the line is discarded, and the chunk is 4095 bytes or the file ended |
| LineFetch.DiscardAtEnd | access_log.c:153-156 | discarding at a clean end of file sets eof |
| LineFetch.RowsAtCleanEnd | access_log.c:138-140 | at a clean end of file no more rows come |
| LineFetch.FetchTerminated | access_log.c:137-171 | a line shorter than the buffer and ending in LF is fetched trimmed, and the next fetch starts after the LF |
| LineFetch.FetchPlainLine | access_log.c:137-171 | a line without CR or LF bytes, followed by LF, is fetched unchanged |
| LineFetch.RowsOfJoin | access_log.c:334-349 | a stream that begins with LF-terminated plain lines yields those lines, in order, before the rest |
| LineFetch.LogRoundTrip | access_log.c:334-349 | round trip: joining plain lines with LF and scanning the result gives back exactly those lines without error |
| LineFetch.FetchUnterminatedLast | access_log.c:148-156 | a last line without a newline takes the overflow path, sets eof, and is never delivered as a row |
| LineFetch.DiscardShortRun | access_log.c:152-164 | a line rest shorter than 1023 bytes is discarded by one read |
| LineFetch.DiscardLongRun | access_log.c:152-164 | a longer rest is discarded 1023 bytes at a time |
| LineFetch.DiscardToNewline | access_log.c:149-165 | the discard loop stops just after the next LF |
| LineFetch.FetchOverlong | access_log.c:146-166 | a line longer than the buffer is cut to 4095 bytes, and the next fetch starts on the following line |
| LineFetch.FetchSplitCrLf | access_log.c:146-171 | a CR landing on byte 4095 ends the read, so the LF after it is fetched as an extra empty line |
| LineFetch.FetchCrLf | access_log.c:168-171 | a CRLF line is fetched without both bytes |
| FieldScan.FieldAt | access_log.c:191-206 | a field opened by `"` or `[` excludes the opener; its slice ends before the first closer or at the line end, and the scan moves on to the next space or the end |
| FieldScan.Next | access_log.c:187-207 | one pass of the field loop: skip spaces; at the end of the line there is no field; otherwise the field lies after the start and inside the line |
| FieldScan.Tokenize | access_log.c:187-208 | at most n fields; when fewer are found, the scan stopped at the end of the line |
| FieldScan.TokenizeDelimited | access_log.c:191-205 | every recorded field holds no closer and ends at its closer or at the end of the line |
| FieldScan.DelimitedBytes | access_log.c:199-205 | a recorded slice lies inside the line with non-negative length, and its bytes avoid its closer |
| FieldScan.TokenizeAfter | access_log.c:189 | fields start at or after the scan start, strictly after it when spaces lead |
| FieldScan.TokenizeOrdered | access_log.c:204-207 | fields are disjoint and in line order, with a gap of at least one byte between them |
| FieldScan.TokenizeBeforeStop | access_log.c:206-207 | every field ends at or before where the scan pointer stopped |
| FieldScan.NextWalk | access_log.c:206 | after a field the scan pointer walks to the next space or the end of the line |
| FieldScan.TokenizeLastWalk | access_log.c:206-207 | after the last field the scan stops at the first space after it |
| FieldScan.RawSlots | access_log.c:181-205 | the cleared table with the found fields recorded in order; every other slot absent |
| FieldScan.SlotText | access_log.c:424-425 | a set slot's text has the slot's size |
| FieldScan.OctetSum | access_log.c:375-391 | the octet loop and its accumulation compute the reversed-octet value |
| FieldScan.IpValueOfOctets | access_log.c:380-390 | the value is ((c3*256 + c2)*256 + c1)*256 + c0, with each c the atoi at successive `.` searches from the host start |
| FieldScan.NextOctetAfterNumeral | access_log.c:382-385 | after a numeral and a `.`, the next octet starts just past the dot |
| FieldScan.IpValueExample | access_log.c:375-391 | `192.168.1.4` converts to 67217600 |
| FieldScan.IpValueWithoutDots | access_log.c:380-390 | with no `.` left, the component repeats: the value is atoi times 16843009 |
| FieldScan.IpValueOfTwoParts | access_log.c:380-390 | `a.b` gives b*16843008 + a, since the second component repeats in the upper three places |
| FieldScan.MonthNumber | access_log.c:395-408 | the month if-chain returns m in 1..12 exactly when the bytes start with the m-th name, and none when no name matches |
| FieldScan.MonthNumberOfName | access_log.c:396-407 | each of Jan..Dec maps to its number |
| FieldScan.MonthValue | access_log.c:394-411 | month column: 1..12 when the three bytes are a month name, else those three bytes as text |
| FieldScan.NovemberAt | access_log.c:406 | `Nov` reads as 11 |
| AccessLog.Timed | access_log.c:218-228 | the time split changes only slots 11..17 and keeps the table inside the line |
| AccessLog.RequestSlots | access_log.c:231-242 | the request split changes only slots 18 and 19 and keeps the table inside the line |
| AccessLog.FieldsReadable | access_log.c:187-208 | the ten scanned slots all lie inside the line |
| AccessLog.Slots | access_log.c:175-250 | the scanner's table has 21 slots, all inside the line; the month slot is absent or 3 bytes wide |
| AccessLog.DerivedKeeps | access_log.c:210-246 | derived slots leave the scanned fields alone; slot 10 copies slot 0, and slot 20 is the whole line |
| AccessLog.Cell | access_log.c:369-425 | NULL exactly for a negative size; a text value has the slot's size |
| AccessLog.Column | access_log.c:362-427 | a column is NULL exactly when the scan left its slot with a negative size |
| AccessLog.ScannedColumn | access_log.c:181-208 | fields the line never reached read as NULL; columns 5 and 6 are atoi at the field start; the others are the field text up to its closer |
| AccessLog.IpColumn | access_log.c:213-214 | ip_int is NULL for an empty line, else the reversed-octet value of the first field |
| AccessLog.LineColumn | access_log.c:245-246 | the hidden line column is the whole trimmed line |
| AccessLog.DerivedTime | access_log.c:218-228 | slots 11..17 are set from the timestamp exactly when field 3 is present with at least 20 bytes |
| AccessLog.TimeColumns | access_log.c:218-228 | with field 3 of 20 or more bytes at t, the day, hour, minute, second and year are atoi at t, t+12, t+15, t+18 and t+7; the month name is the 3 bytes at t+3 and the month its number |
| AccessLog.NoTimeColumns | access_log.c:218 | without such a timestamp all seven time columns are NULL |
| AccessLog.TimestampColumns | access_log.c:216-228 | `04/Nov/2014:00:26:42 -0500` gives 4, `Nov`, 11, 2014, 0, 26, 42 |
| AccessLog.RequestColumns | access_log.c:231-242 | the method and url columns are those two slices of the line, or NULL when the space is missing |
| AccessLog.NoRequestColumns | access_log.c:231-232 | without a request field both are NULL |
| AccessLog.DashRequest | access_log.c:231-242 | a request of `"-"` yields method `-"` and url equal to the status text, since the search runs past the field |
| AccessLog.DashBytes | access_log.c:413 | a bytes field of `-` reads as 0 |
| ErrorLog.ScanFits | error_log.c:185-217 | on a line the scanner is defined for, the three fields are found and the message start lies inside the line |
| ErrorLog.SlotsOf | error_log.c:179-253 | the table after the derived writes: 15 slots inside the line; the month slot is absent or 3 wide; the first slot is set |
| ErrorLog.SlotsSound | error_log.c:208-253 | every slot the scanner writes lies inside the line or is the static empty string |
| ErrorLog.Slots | error_log.c:173-257 | error_log_scanline's table for a line |
| ErrorLog.StampText | error_log.c:430-431 | the timestamp copy is at most 24 bytes |
| ErrorLog.Cell | error_log.c:378-446 | NULL exactly for a negative size; a text value has the slot's size |
| ErrorLog.Column | error_log.c:369-448 | a column is NULL exactly when the scan left its slot with a negative size |
| ErrorLog.LeadColumn | error_log.c:185-206 | the date and level columns are their bracketed fields' text |
| ErrorLog.ClientColumn | error_log.c:208-213 | the client column is the third field when it starts with `client`, else empty text |
| ErrorLog.MessageColumn | error_log.c:215-217 | the message is everything from one byte past where the field scan stopped to the end of the line |
| ErrorLog.LineColumn | error_log.c:251-253 | the hidden line column is the whole trimmed line |
| ErrorLog.EpochColumn | error_log.c:248-249 | time_epoch is never NULL: it is the parsed time of the first 24 bytes of field 0, or -1 |
| ErrorLog.ClientHostSlot | error_log.c:222-228 | remote_host is the bytes strictly between the first space and the first `]` after the client field's start |
| ErrorLog.NoHostSlot | error_log.c:223-228 | without a client or without a space before the `]`, remote_host stays absent |
| ErrorLog.RemoteHostColumns | error_log.c:222-232 | remote_host is that slice, and remote_host_int is its reversed-octet value |
| ErrorLog.NoHostColumn | error_log.c:223-232 | otherwise both host columns are NULL |
| ErrorLog.TimePartColumn | error_log.c:237-246 | day, year, hour, minute and second are atoi at offsets 8, 20, 11, 14 and 17 of field 0 when it has 20 or more bytes |
| ErrorLog.MonthColumns | error_log.c:240-241 | time_mon_s is the three bytes at offset 4; time_mon is their month number or that text |
| ErrorLog.NoTimeColumn | error_log.c:237 | with a short or missing field 0 all seven time columns are NULL |
| ErrorLog.ClientHostExample | error_log.c:222-232 | `[client 208.65.89.219]` gives remote_host `208.65.89.219` and remote_host_int 3680059856 |
| ErrorLog.ExampleHostValue | error_log.c:384-400 | `208.65.89.219` converts to 3680059856 |
| ErrorLog.UnbracketedThird | error_log.c:204-205 | after an unbracketed third field the scan stops at the first space after it |
| ErrorLog.DebugLineMessage | error_log.c:208-217 | in `[Tue Nov 04 13:14:32 2014] [debug] proxy_util.c(1852): proxy: worker already initialized`, the message is `proxy: worker already initialized`; the token is lost |
| TrimQuote.Unquoted | access_log.c:89-113 | at most one byte comes off each end |
| TrimQuote.WrappedName | access_log.c:97-107 | a name between two quotes, alike or not, comes out unchanged |
| TrimQuote.BareName | access_log.c:97-107 | a name without quotes at its ends is copied unchanged |
| TrimQuote.StripsAtMostOne | access_log.c:97-107 | the name is the kept bytes with the stripped quotes put back; only quote characters are stripped |
| TrimQuote.DoubledQuotes | access_log.c:97-101 | doubled quotes lose only their outer layer, so trimming is not idempotent |
| TrimQuote.LoneQuote | access_log.c:97-107 | a lone quote leaves nothing |
| TrimQuote.WrittenBytes | access_log.c:105-110 | as written, the bytes stored are the kept bytes plus a terminator only when something was kept |
| TrimQuote.BareNameOverrun | access_log.c:95-110 | as written, an unquoted name stores one byte more than its malloc'd length |
| TrimQuote.EmptyUnterminated | access_log.c:105-110 | as written, `""` and `'` store no bytes, so the result has no terminator |
| TrimQuote.Trim | access_log.c:89-113 | the copy loop writes the unquoted name followed by a NUL into a buffer one byte longer than the name |
| LogCursor.FirstRow | access_log.c:340-343 | the fetch after the rewind starts the pass over Rows of the whole file |
| LogCursor.NextRow | access_log.c:346-349 | each xNext delivers the current line and moves on or ends the pass; the stream never moves back |
| LogCursor.SkipSpaces | access_log.c:189 | the space-skipping loop stops at a non-space or the end and does not change the field found |
| LogCursor.WalkToSpace | access_log.c:206 | the end-walking loop stops at the next space or the end |
| LogCursor.NextField | access_log.c:188-206 | one pass of the field loop's body finds a field exactly when Next does, and the same one |
| LogCursor.Opener | access_log.c:188-198 | a `"` or `[` is skipped and selects its closer; any other byte selects space |
| LogCursor.StrchrOrEnd | access_log.c:199-203 | strchr with strlen standing in for NULL |
| LogCursor.ErrorSlotsAssembled | error_log.c:208-253 | the scanner's writes after the field loop, in source order, produce the error table |
| LogCursor.AccessValue | access_log.c:374-425 | the column switch on a set slot gives the access table's value |
| LogCursor.ErrorValue | error_log.c:383-446 | the column switch on a set slot, including the epoch, gives the error table's value |
| LogCursor.Cursor.constructor | access_log.c:301-323 | open: the stream is positioned at the file's start, the line buffer and slot arrays are newly allocated, and filter has not run yet; the model starts with the scan flag clear, where the code leaves it unset |
| LogCursor.OpenAndScan | access_log.c:301-360 | opening a table on a file and scanning it delivers exactly Rows of the file from its start, numbered 1, 2, 3, ... |
| LogCursor.Cursor.GetLine | access_log.c:130-173 | row goes up by one and the scan flag clears on every fetch; the stream, eof, return code and buffer become what Fetch says, except that while zlib holds a read error from an earlier fetch the fetch fails at once and nothing moves; a failed fetch leaves that error set; eof is only ever set, never cleared |
| LogCursor.Cursor.GzGets | access_log.c:137-154 | gzgets returns NULL without eof while a read error is pending, otherwise reads as Gets says; a NULL that is not the end of the file sets the error, which is never cleared |
| LogCursor.Cursor.Seek | access_log.c:340 | gzseek to the start moves the stream to position 0, except while a read error is pending, when zlib refuses and the stream stays |
| LogCursor.Cursor.ReadChunk | access_log.c:146-171 | after a first read of bytes up to e, the buffer holds the fetched line, the stream and eof are as Fetch says, and the read error is set exactly when the fetch failed |
| LogCursor.Cursor.Filter | access_log.c:334-344 | xFilter rewinds, sets row 0 and eof 0 and fetches, so the first row id is 1; after an earlier read error zlib refuses the rewind and the fetch fails at once, leaving the error set |
| LogCursor.Cursor.Next | access_log.c:346-349 | xNext is one fetch, failing at once while a read error is pending |
| LogCursor.Cursor.Eof | access_log.c:351-354 | xEof reports the eof flag, which is set only at a clean end of file |
| LogCursor.Cursor.Rowid | access_log.c:356-360 | xRowid reports the row counter |
| LogCursor.Cursor.FullScan | access_log.c:334-360 | a scan driven as SQLite drives it delivers exactly Rows of the rewound file, fails exactly when it does, numbers rows 1, 2, 3, ..., and leaves the file's bytes and ending as they were; with a read error pending from before, it delivers no row and fails; the read error is set afterwards exactly when the pass failed |
| LogCursor.Cursor.ScanTwice | access_log.c:334-360 | after a pass that reached the end of the file, xFilter restarts the scan and a second pass delivers the same rows and ROWIDs from 1 without error; after a pass that failed, zlib's error is sticky and the second pass delivers no row and fails |
| LogCursor.Cursor.Step | access_log.c:346-360 | one row of that scan: its ROWID and text, then xNext and xEof |
| LogCursor.Cursor.Clear | access_log.c:180-184 | every slot is cleared to NULL with size -1 |
| LogCursor.Cursor.ScanFields | access_log.c:186-208 | the field loop records exactly Tokenize's fields in order and leaves the pointer where Tokenize stops |
| LogCursor.Cursor.AccessDerived | access_log.c:210-246 | the derived writes of access_log_scanline give the access table from the scanned one |
| LogCursor.Cursor.AccessTime | access_log.c:216-228 | the time split as Timed |
| LogCursor.Cursor.AccessRequest | access_log.c:230-242 | the request split as RequestSlots |
| LogCursor.Cursor.ErrorDerived | error_log.c:208-253 | the derived writes of error_log_scanline give the error table |
| LogCursor.Cursor.ErrorClient | error_log.c:208-213 | a third field not starting with `client` becomes the static empty string |
| LogCursor.Cursor.ErrorHost | error_log.c:222-232 | remote_host and its copy are set as HostSlot |
| LogCursor.Cursor.ErrorTime | error_log.c:234-246 | the time split as TimeSlot |
| LogCursor.Cursor.ScanLine | access_log.c:175-250 | after the scan the flag is set and the slot array is the format's table for the line in the buffer |
| LogCursor.Cursor.ScanAccess | access_log.c:175-250 | access_log_scanline leaves the access table in the slots |
| LogCursor.Cursor.ScanError | error_log.c:173-257 | error_log_scanline leaves the error table in the slots |
| LogCursor.Cursor.Column | access_log.c:362-427 | xColumn scans only when the flag is clear, and returns the format's Column value; a second read on the same row leaves the slots unchanged |
| LogCursor.Cursor.TakeChunk | access_log.c:146-171 | the chunk is copied and trimmed; the rest of an over-long line is discarded as Discard says |
| LogCursor.Cursor.Load | access_log.c:137 | gzgets copies the chunk's bytes into the buffer |
| LogCursor.Cursor.SkipRest | access_log.c:149-165 | the discard loop leaves the stream, eof and failure as Discard says, and the read error set exactly when it failed |
| LogCursor.Cursor.TrimLine | access_log.c:168-171 | the trim loop leaves the buffer holding the line less its trailing CR and LF bytes, and line_len its length |

## Left out

- The SQLite glue is not modelled: connect, disconnect, bestindex, rename, close, the module
  tables, the extension entry point and the `sqlite3_result_*` calls. Column values are the
  datatype `Value` (Null, Int or Text) instead.
- zlib is not modelled. `gzopen`, `gzgets`, `gzseek`, `gzeof` and `gzclose` work on a
  decompressed byte sequence with a read position. A stream whose `Ending` is `Broken` stands
  for one whose reads fail past its good data, which gives the `rc = -1` branches. zlib's error
  state is kept as the cursor's `readError`: a failed read sets it, and the code never calls
  `gzclearerr`, so from then on every `gzgets` fails at once and `gzseek` does not move.
  `GzStream.Gets` and the `LineFetch` functions describe reads from a stream with no error
  pending. A truncated gzip member reads as a clean end of file.
- The epoch's value is not modelled: `strptime` and `mktime` depend on the locale and the time
  zone. They are the parameter `parseTime`. A failed parse gives -1, as in the code.
- The 32-bit truncation of `sqlite3_result_int` is not modelled. It affects the epoch, `atoi`
  overflow and the int64 IP value. Integers are unbounded.
- Lines are NUL-free. Embedded NUL bytes would cut `strlen`, `strchr` and `atoi` short in ways
  the model does not follow.
- ErrorLog.Slots: requires `Defined`, which excludes three paths of `error_log_scanline` that the
  model does not follow, two of them undefined behaviour:
  - a line with fewer than three fields, where `strncmp` reads a NULL third pointer;
  - a scan that reached the end of the line before a space after the third field. The code then
    reads `message` from one byte past the line's NUL, which is whatever the buffer holds there.
    For a line trimmed of CR or LF that byte is a NUL, so the message is empty. For a line that
    was cut, or the unterminated last line, it is a stale byte of an earlier line. For a
    4095-byte line it is past the end of the buffer. The model holds only the line, not the
    bytes behind it, so it excludes all these lines, the empty-message case included;
  - a client field with a space but no `]`, where the host length comes from a NULL pointer.
- ErrorLog.Column: requires `Defined`, for the same reason.
- LogCursor.Cursor.ScanError: requires `Defined`, for the same reason.
- LogCursor.Cursor.Column: requires `Defined` for the error format, and requires that xFilter has
  run. Open leaves `row`, `eof` and the scan flag uninitialised, and SQLite always filters before
  reading.
- LogCursor.Cursor.Next: requires that xFilter has run, for the same reason.
- LogCursor.Cursor.Eof: requires that xFilter has run, for the same reason.
- LogCursor.Cursor.Rowid: requires that xFilter has run, for the same reason.
- LogCursor.Cursor.TrimLine: the trim loop stops at the start of the buffer. On a line made only
  of CR and LF bytes, the code reads the byte before the buffer. `LineFetch.TrimEnd` stops there
  too.
- ErrorLog.StampText: the `memcpy` of 24 bytes from field 0 is cut at the end of the line. The
  code copies whatever follows in the buffer, or copies from NULL when field 0 is absent.
- The year slices are guarded only by a timestamp of 20 bytes, although they need 24. Their
  `atoi` runs over the rest of the line as in the code, but the model does not follow a slice
  past the line's end.
- TrimQuote.Trim: requires a non-empty name. On an empty one the code reads the byte before it
  (`q_str[q_str_len - 1]`) and copies into `malloc(0)`. `First`, `Past`, `Unquoted` and
  `WrittenBytes` carry the same requirement.
- `FullScan` is not a function of the code. It models the loop SQLite runs over xFilter, xEof,
  xRowid and xNext, so that the pass as a whole can be stated.

## Findings

| source | as written | input that shows it | evidently intended | confidence | as-written member | corrected member |
|---|---|---|---|---|---|---|
| access_log.c:95,105-110 (also error_log.c:93,103-108) | `malloc(len)`, then the kept bytes and a NUL are written; with nothing stripped that is len+1 bytes | file name `abc`: four bytes written into a three-byte buffer | a buffer with room for the terminator | not executed | TrimQuote.BareNameOverrun | TrimQuote.Trim |
| access_log.c:110 (also error_log.c:108) | the NUL is written only when `j > 0` | file name `""` or `'`: nothing is written, so the returned string has no terminator | an empty, terminated string | not executed | TrimQuote.EmptyUnterminated | TrimQuote.Trim |
