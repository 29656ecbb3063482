# New-bill controller of the expense-bill front end, in Dafny

This project models `NewBill`, the controller behind the employee's "new
expense bill" form. It covers the controller's own state: `file`,
`fileUrl`, `fileName` and `billId`. It also covers the two things it writes
on the page: the warning's `hidden` class and the file input's value.
Finally it keeps a trace of what the controller asks of the outside world:
navigations to the bill list, `create` and `update` calls on the store, and
logged errors.

- `js_parse_int.dfy` (module `JsParseInt`) gives JavaScript's `parseInt`
  without a radix, following section 19.2.5 of ECMA-262 (13th edition). It
  skips leading white space, reads an optional sign, switches to radix 16
  on a `0x`/`0X` prefix, takes the longest digit prefix, and gives NaN when
  that prefix is empty. It also gives `||` on the resulting numbers. Its
  partner is a decimal rendering of integers, and `parseInt` is proved to
  read that rendering back.
- `file_path.dfy` (module `FilePath`) holds the two string tests of
  `handleChangeFile`. The first is the regular expression
  `/\.(jpg|JPG|jpeg|JPEG|png|PNG)$/`, stated as "some dot is followed by an
  alternative and the end of the name". The second is `value.split(/\\/g)`
  followed by taking the last piece. The split is proved to be inverted by
  the join. The last piece is characterised as the part after the last
  backslash.
- `bill.dfy` (module `BillRecord`) builds the bill record from the form
  strings, the session e-mail and the controller's file fields. `amount` is
  `parseInt(amount)` and `pct` is `parseInt(pct) || 20`. `status` is
  `"pending"`.
- `new_bill.dfy` (module `NewBillContainer`) holds the controller. Each
  handler and each promise settlement is a transition function on a value of
  the controller's state. Lemmas state what the handlers promise. Class
  `NewBill` keeps that state in fields. Its methods `HandleChangeFile`,
  `HandleSubmit` and `UpdateBill` are proved to perform exactly those
  transitions, and so are the four continuations `OnCreateResolved`,
  `OnCreateRejected`, `OnUpdateResolved` and `OnUpdateRejected`.

Promises are explicit. Issuing `create` or `update` records a pending request
with the continuation the source registers. The environment settles it later
by calling the matching continuation. There is no concurrency: every step runs
to completion.

The model follows the code as written, including:

- The extension check is not case-insensitive. `.png` and `.PNG` are
  accepted; `.Png` is rejected.
- The file name is split on backslash only. A `/` separator is not split.
- A rejected file does not clear an earlier accepted `file`/`fileName`. It
  only shows the warning and empties the input.
- The record sent to `update` is not merged with the result of `create`: it
  carries the `fileUrl` the controller held at submit time. On a first
  submission that is null. The returned URL is stored only in the controller's
  `fileUrl` field.
- Without a store, the submit handler throws at `this.store.bills()`. That
  happens before it navigates, so it neither navigates nor calls the store. A
  session without a user also throws, at `JSON.parse(null).email`.

## Model

| member | source | states |
|---|---|---|
| `JsParseInt.ParseInt` | src/containers/NewBill.js:49-52 | `parseInt` without a radix, after section 19.2.5 of ECMA-262: it gives a number only when a decimal digit follows the leading white space and the optional sign; `ParseIntDecimal` shows it reads back the decimal rendering of every integer |
| `JsParseInt.Or` | src/containers/NewBill.js:52 | JavaScript's `or` operator on numbers, as in the percentage default: the result is one of the operands, truthy exactly when one of them is; the left one whenever that is truthy, and the right one otherwise (`NaN` or 0 on the left gives the right operand, even when it is falsy too) |
| `JsParseInt.TrimStart` | src/containers/NewBill.js:49 | the part of the argument `parseInt` reads: a suffix that does not start with white space, with only white space cut off |
| `JsParseInt.ParseIntDecimal` | src/containers/NewBill.js:49 | `parseInt` returns `n` for the decimal rendering of any integer `n`, also when a non-digit such as `.5` follows; after a non-zero rendering even `x` stops the digits (`"12x"` gives 12) |
| `JsParseInt.ParseIntDigits` | src/containers/NewBill.js:49-52 | white space, an optional `+` or `-`, a non-empty run of decimal digits (leading zeros allowed) and then a non-digit: `parseInt` gives the digits' value, negated after `-`; only a lone `0` before `x`/`X` is excluded, since that starts a hexadecimal number |
| `JsParseInt.ParseIntIgnoresLeadingWhiteSpace` | src/containers/NewBill.js:49 | leading white space never changes what `parseInt` returns |
| `JsParseInt.ParseIntNaN` | src/containers/NewBill.js:49 | an input with no digit after the white space and sign gives NaN |
| `BillRecord.Pct` | src/containers/NewBill.js:52 | the percentage (`parseInt` of the field, or 20 when that is falsy) is never NaN and never 0; it is the parsed number when that is non-zero, and 20 after NaN or 0 |
| `BillRecord.PctOfDecimal` | src/containers/NewBill.js:52 | a typed integer `n` gives `n` as the percentage, except 0, which gives 20 |
| `BillRecord.PctOfEmpty` | src/containers/NewBill.js:52 | an empty percentage field gives 20 |
| `BillRecord.BuildBill` | src/containers/NewBill.js:45-57 | the record built at submit time has status `"pending"`, the session e-mail, the file fields given, and a percentage that is never NaN or 0; `BuildBillFields` states every other field |
| `BillRecord.BuildBillFields` | src/containers/NewBill.js:45-57 | the record has status `"pending"` and the session e-mail; `amount` is `parseInt` of the amount field; the percentage is never NaN or 0; the file fields are those given; the other form strings are copied |
| `FilePath.MatchesImagePattern` | src/containers/NewBill.js:25 | the regular expression test on the file name; a matching name is at least four characters long with a dot four or five characters from its end; `MatchesImagePatternIff` characterises it exactly |
| `FilePath.MatchesImagePatternIff` | src/containers/NewBill.js:25 | a name matches the image pattern if and only if it ends with `.jpg`, `.JPG`, `.jpeg`, `.JPEG`, `.png` or `.PNG` |
| `FilePath.MatchPositionUnique` | src/containers/NewBill.js:25 | a name matches at only one position, so exactly one extension makes it acceptable |
| `FilePath.ImagePatternAccepts` | src/containers/NewBill.js:25 | `justif.png` and `scan.JPEG` are accepted |
| `FilePath.ImagePatternRejects` | src/containers/NewBill.js:25 | `justif.webp` and the mixed-case `justif.Png` are rejected |
| `FilePath.SplitBackslash` | src/containers/NewBill.js:27 | splitting on backslash gives at least one piece, and no piece contains a backslash |
| `FilePath.JoinSplit` | src/containers/NewBill.js:27 | joining the pieces with backslashes gives back the split value |
| `FilePath.SplitJoin` | src/containers/NewBill.js:27 | splitting a join of backslash-free pieces gives back the pieces |
| `FilePath.LastSegment` | src/containers/NewBill.js:27-28 | the derived file name is a suffix of the input value with no backslash; it is the whole value or starts right after a backslash |
| `FilePath.LastSegmentAfterSeparator` | src/containers/NewBill.js:27-28 | for a value `prefix\name` with a backslash-free `name`, the derived file name is `name` |
| `FilePath.LastSegmentWithoutSeparator` | src/containers/NewBill.js:27-28 | for a value without a backslash, the derived file name is the whole value |
| `FilePath.LastSegmentExample` | src/containers/NewBill.js:27-28 | the browser value `C:\fakepath\justif.png` gives `justif.png` |
| `NewBillContainer.Init` | src/containers/NewBill.js:13-16 | a new controller has null `file`, `fileUrl`, `fileName` and `billId`, nothing pending and an empty trace, and satisfies the state invariant |
| `NewBillContainer.ChangeFile` | src/containers/NewBill.js:19-36 | a change event preserves the invariant: `file` and `fileName` are set together, only by an accepted file, and the name has no backslash |
| `NewBillContainer.ChangeFileNoFile` | src/containers/NewBill.js:20-25 | with an empty file list the handler throws on `file.name`: only the input's value, set by the browser, is new; `file`, `fileName`, the warning and the trace stay as they were |
| `NewBillContainer.ChangeFileAccepted` | src/containers/NewBill.js:25-30 | on an accepted file the warning is hidden and `file` is the selected file; `fileName` is the part of the value after its last backslash and holds no backslash; nothing else changes |
| `NewBillContainer.ChangeFileRejected` | src/containers/NewBill.js:31-35 | on a rejected file the warning is shown and the input is cleared; `file`, `fileName` and everything else stay as they were |
| `NewBillContainer.LastAccepted` | src/containers/NewBill.js:25 | the chosen selection is accepted and belongs to the sequence; when there is none, no selection of the sequence is accepted |
| `NewBillContainer.LastAcceptedIsMostRecent` | src/containers/NewBill.js:25 | the chosen selection is the most recent accepted one: it sits at a position after which no selection is accepted |
| `NewBillContainer.LastSelectionWins` | src/containers/NewBill.js:25-35 | after any sequence of change events, `file` and `fileName` come from the most recent accepted selection; when none was accepted they keep their earlier values |
| `NewBillContainer.FreshSelections` | src/containers/NewBill.js:13-15 | from a new controller, `fileName` is the name from the last accepted selection, or null when none was accepted |
| `NewBillContainer.WebpThenPng` | src/containers/NewBill.js:25-30 | selecting `justif.webp` and then `justif.png` leaves `fileName` `justif.png`, the png as `file`, and the warning hidden |
| `NewBillContainer.Submit` | src/containers/NewBill.js:37-75 | a submission preserves the state invariant |
| `NewBillContainer.SubmitThrowsChangesNothing` | src/containers/NewBill.js:39-59 | without a session user or a store, the submit handler changes nothing: no navigation and no store call |
| `NewBillContainer.SubmitIssuesCreateThenNavigates` | src/containers/NewBill.js:41-74 | a submission issues `create` with the file and e-mail, then navigates to the bill list exactly once and issues no `update`; the record kept for later has status `"pending"`, the session e-mail and the controller's `fileUrl`/`fileName` at submit time; the file fields, `billId`, the warning and the input are unchanged |
| `NewBillContainer.UpdateBillStep` | src/containers/NewBill.js:79-89 | `updateBill` without a store changes nothing; with one it issues a single `update` keyed by `billId` with the given record, as a new awaited request; it preserves the invariant |
| `NewBillContainer.CreateResolved` | src/containers/NewBill.js:67-71 | the `create` continuation preserves the invariant |
| `NewBillContainer.CreateResolvedIssuesUpdate` | src/containers/NewBill.js:67-70 | when `create` resolves, `billId` becomes the key and `fileUrl` the returned URL; one `update` is issued with `selector` equal to the key and the record captured at submit time; there is no navigation; the request no longer awaits `create` and the new one awaits `update`; `file`, `fileName`, the warning and the input are unchanged. In any reachable state a pending `create` implies a store, so the update always follows |
| `NewBillContainer.CreateRejected` | src/containers/NewBill.js:72 | the `create` error handler preserves the invariant |
| `NewBillContainer.CreateRejectedLogsOnly` | src/containers/NewBill.js:72 | when `create` rejects, the error is logged; no `update` is issued, there is no navigation, no field changes, and the request is no longer pending |
| `NewBillContainer.UpdateResolved` | src/containers/NewBill.js:84-86 | the `update` continuation preserves the invariant |
| `NewBillContainer.UpdateResolvedNavigates` | src/containers/NewBill.js:84-86 | when `update` resolves, the controller navigates to the bill list a second time, issues no `update`, the request is no longer pending, and `file`, `fileName`, `fileUrl` and `billId` are unchanged |
| `NewBillContainer.UpdateRejected` | src/containers/NewBill.js:87 | the `update` error handler ends the pending request and preserves the invariant |
| `NewBillContainer.UpdateRejectedLogsOnly` | src/containers/NewBill.js:87 | when `update` rejects, the error is logged; there is no navigation, no further `update`, no field changes, and the request is no longer pending |
| `NewBillContainer.SubmitThenCreateResolved` | src/containers/NewBill.js:45-70 | submit followed by a resolved `create` gives the trace: create, one navigation, then an update keyed by the returned key; the updated record has the pre-submit `fileUrl`/`fileName`, while the controller now holds the returned URL |
| `NewBillContainer.SubmitThenCreateRejected` | src/containers/NewBill.js:59-74 | submit followed by a rejected `create` gives the trace: create, one navigation, one logged error, and no `update` |
| `NewBillContainer.NewBill.constructor` | src/containers/NewBill.js:5-18 | the fields start as the initial state, which satisfies the invariant |
| `NewBillContainer.NewBill.HandleChangeFile` | src/containers/NewBill.js:19-36 | updates the fields exactly as `ChangeFile` does, keeps the invariant, and throws exactly when no file is selected |
| `NewBillContainer.NewBill.HandleSubmit` | src/containers/NewBill.js:37-75 | updates the fields exactly as `Submit` does, keeps the invariant, and throws exactly when the session user or the store is missing |
| `NewBillContainer.NewBill.UpdateBill` | src/containers/NewBill.js:79-89 | updates the fields exactly as `UpdateBillStep` does and keeps the invariant |
| `NewBillContainer.NewBill.OnCreateResolved` | src/containers/NewBill.js:67-71 | performs the `create` continuation, `CreateResolved`, and keeps the invariant |
| `NewBillContainer.NewBill.OnCreateRejected` | src/containers/NewBill.js:72 | performs `CreateRejected` and keeps the invariant |
| `NewBillContainer.NewBill.OnUpdateResolved` | src/containers/NewBill.js:84-86 | performs `UpdateResolved` and keeps the invariant |
| `NewBillContainer.NewBill.OnUpdateRejected` | src/containers/NewBill.js:87 | performs `UpdateRejected` and keeps the invariant |

## Left out

- DOM plumbing is left out: `querySelector`, `addEventListener`, `preventDefault` and `classList`. The page is reduced to the boolean `warningHidden` and the string `inputValue`. The change event's `e.target` is taken to be the file input.
- The form values and the session `user` record are parameters. `FormData` becomes the abstract `CreateRequest`, and the `JSON.stringify`d record is the `Bill` value itself.
- `console.error` becomes an `ErrorLogged` entry in the trace.
- The `Logout` collaborator built in the constructor is left out. `src/containers/Logout.js` is not part of this model.
- `src/constants/routes.js` is not part of this model. `ROUTES_PATH["Bills"]` is the abstract route `BillsRoute`.
- The store is left out. Its `create`/`update` results and rejections are inputs to the continuation steps. A store with more than these two calls is not modelled.
- JsParseInt.ParseInt: numbers are unbounded integers. The model leaves out the rounding of large values to IEEE-754 doubles, the at-most-20-significant-digits rule, and the difference between `-0` and `0`. Both zeros are falsy, so `Pct` is unaffected.
- The browser's own handling of `<input type="number">` values is left out. The model starts from the strings the controls hold.
- The bill list controller, its date formatting, sorting and error classification, and the views are left out. Their source is not part of this model.
- The test files are used as evidence only. Their handler tests select `justif.webp` (rejected) and `justif.png` (accepted). The model adds `scan.JPEG`, the mixed-case `justif.Png` (in `ImagePatternAccepts` and `ImagePatternRejects`) and the two selections in a row (`WebpThenPng`).
