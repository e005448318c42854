# Dire Tracksuit storefront: orders, operator decisions, countdown and checkout

This project is a Dafny model of the order pipeline of a small single-product storefront. It covers four parts:

- **The checkout page.** A three-step wizard holds the shipping details and the payment proof. It gives each order a random `KDF-NNNNN` number and posts the order form to `POST /api/orders`.
- **`POST /api/orders`.** This route validates the form and uploads the proof to the `payment-proofs` bucket. It inserts the order into the `orders` table as `pending` and announces it to the operator chat with Confirm and Reject buttons, whose payloads are `confirm_<n>` and `reject_<n>`.
- **`POST /api/orders/telegram/callback`.** This route splits the pressed button's payload on `_`, loads the order and sets its status to `confirmed` or `rejected`. It then edits the operator message and mails the buyer.
- **The countdown widget.** Once a second it turns the milliseconds left to its target into hours, minutes and seconds. It stops at zero and shows each field zero-padded to two digits.

Modules:

- `Text`: JavaScript's `split`, `toString`, `padStart`, `\s` and capitalisation.
- `Orders`: the table and bucket both routes share, as the class `OrderDatabase`.
- `OrderSubmission`: the order route.
- `DecisionCallback`: the callback route.
- `Countdown`: the widget, as the class `CountdownTimer`.
- `Checkout`: the page, as the class `CheckoutPage`.

Calls to the database, the storage service, the chat service and the mailer are not modelled. Their outcomes enter the handlers as parameters:

- For reading the order form and for the upload, insert, notification, message-edit and mail calls, an optional error message.
- For the callback's lookup and update, a flag saying the call failed. Neither route uses the message of those two errors.
- The public-URL scheme of the bucket and the insert time. `Math.random` enters as an integer `k` in `[0, 90000)`. Clock readings enter as millisecond integers.

The callback route splits the payload at every `_` and keeps pieces 0 and 1. So `confirm_A_B` decides order `A`, not `A_B`. `DecisionCallback.PayloadTruncatedAtUnderscore` states this.

## Model

| member | source | states |
|---|---|---|
| Text.Split | app/api/orders/telegram/callback/route.ts:75 | `split` on one character gives one more piece than there are separators, and no piece contains the separator |
| Text.JoinSplit | app/api/orders/telegram/callback/route.ts:75 | joining the pieces of a split with the separator gives back the original string |
| Text.SplitJoin | app/api/orders/telegram/callback/route.ts:75 | splitting a join of separator-free pieces gives back exactly those pieces |
| Text.SplitLeadingPieces | app/api/orders/telegram/callback/route.ts:75 | a string with two or more pieces starts with the first two joined by the separator, followed by its end or another separator |
| Text.NatToString | app/checkout/page.tsx:30-31 | `toString` of a non-negative integer: at least one character, every one a digit; `Text.NatToStringValue`, `Text.NatToStringLeadingDigit` and `Text.NatToStringLength` state its value, leading digit and length |
| Text.NatToStringValue | app/checkout/page.tsx:30-31 | the decimal text of a number reads back as that number |
| Text.NatToStringLeadingDigit | app/checkout/page.tsx:30-31 | the decimal text of a positive number does not start with `0` |
| Text.NatToStringLength | app/checkout/page.tsx:30-31 | a number from 10^k to 10^(k+1)-1 prints as k+1 characters |
| Text.IntToString | components/countdown-timer.tsx:43 | `toString` of an integer: a `-` before the digits of a negative value; `Text.NatToStringValue` and `Text.NatToStringLength` state the digits |
| Text.IsJsWhitespace | app/api/orders/route.ts:110-111 | the `\s` class of the e-mail regular expression, JavaScript's white space and line terminators; `OrderSubmission.EmailShapeMatchesRegex` uses it on both sides |
| Text.Capitalize | app/api/orders/route.ts:42 | `charAt(0).toUpperCase() + slice(1)` for an ASCII first letter; `Orders.StatusLabels` gives its value on the three status names |
| Text.PadStart | components/countdown-timer.tsx:43 | `padStart` gives length max(width, the input's length), ends with the input, and is fill characters before it |
| Text.LeadingZerosValue | components/countdown-timer.tsx:43-51 | leading zeros keep a digit string all digits and do not change its value |
| Orders.StatusName | app/api/orders/route.ts:156 | the `status` column text `pending`, `confirmed` or `rejected`; `OrderSubmission.NewOrderRowFromForm` fixes `pending` for a new row and `DecisionCallback.NewStatusFor` maps the actions to the other two |
| Orders.StatusLabel | app/api/orders/route.ts:42 | the status with its first letter upper-cased, as the operator messages show it; its three values are given by `Orders.StatusLabels` |
| Orders.StatusLabels | app/api/orders/route.ts:42 | the message labels of the three statuses are `Pending`, `Confirmed` and `Rejected` |
| Orders.WithStatus | app/api/orders/telegram/callback/route.ts:94-97 | the update keeps the row count, changes no column except `status`, and sets `status` exactly on the rows with the given order number |
| Orders.Matching | app/api/orders/telegram/callback/route.ts:82-86 | the filtered rows come from the table and carry the order number, and there are some exactly when some row has it |
| Orders.MatchingComplete | app/api/orders/telegram/callback/route.ts:82-86 | every row with the order number is among the filtered rows |
| Orders.MatchingOnly | app/api/orders/telegram/callback/route.ts:82-86 | when exactly one row has the order number, the filter yields exactly that row |
| Orders.MatchingTwo | app/api/orders/telegram/callback/route.ts:82-86 | two distinct rows with the order number give the filter at least two rows |
| Orders.SelectSingle | app/api/orders/telegram/callback/route.ts:82-90 | `.single()` yields a row of the table with the requested order number; it yields that row when it is the only one with the number, and nothing when no row or two distinct rows have it |
| Orders.WithStatusIdempotent | app/api/orders/telegram/callback/route.ts:94-97 | applying the same status update twice leaves the table as one application does |
| Orders.WithStatusLastWins | app/api/orders/telegram/callback/route.ts:82-101 | with no guard on the current status, a second decision on an order overrides the first |
| Orders.Urls | app/api/orders/route.ts:136-139 | the public URLs of the stored objects, one per object in bucket order, each the URL of its object |
| Orders.UrlsAfterUpload | app/api/orders/route.ts:127-139 | after an upload the URLs are the previous ones followed by the new object's URL |
| Orders.ProofsStoredAfterSubmit | app/api/orders/route.ts:126-158 | uploading a proof and inserting a row whose proof URL is that object's public URL keeps every row's proof backed by a stored object |
| Orders.ProofsStoredAfterUpdate | app/api/orders/telegram/callback/route.ts:94-97 | a status update keeps every row's proof backed by a stored object |
| Orders.OrderDatabase.Upload | app/api/orders/route.ts:127-129 | a successful upload adds the key to the bucket and changes nothing else |
| Orders.OrderDatabase.Insert | app/api/orders/route.ts:164 | a successful insert appends exactly one row, with no uniqueness check, and leaves the existing rows unchanged |
| Orders.OrderDatabase.UpdateStatus | app/api/orders/telegram/callback/route.ts:94-97 | the table becomes the status-only update of every row with the order number |
| OrderSubmission.ErrorStatus | app/api/orders/route.ts:77-182 | the three validation failures answer 400; an unreadable form and upload, insert and notification failures answer 500 |
| OrderSubmission.RequiredPresent | app/api/orders/route.ts:105 | none of the eleven fields is falsy; `OrderSubmission.Validate` states that its failure is exactly the missing-fields error |
| OrderSubmission.MatchesEmailRegex | app/api/orders/route.ts:111 | a character-level reading of the regular expression; `OrderSubmission.EmailShapeMatchesRegex` proves it equal to the shape check |
| OrderSubmission.EmailShapeMatchesRegex | app/api/orders/route.ts:111-115 | `/^[^\s@]+@[^\s@]+\.[^\s@]+$/` matches exactly the addresses with no white space, exactly one `@`, a non-empty local part, and a `.` in the domain that is neither its first nor its last character |
| OrderSubmission.EmailShapeGivesMatch | app/api/orders/route.ts:111-115 | an address of the described shape matches the regular expression |
| OrderSubmission.MatchGivesEmailShape | app/api/orders/route.ts:111-115 | an address the regular expression matches has the described shape |
| OrderSubmission.Validate | app/api/orders/route.ts:105-121 | the result is the missing-fields error exactly when one of the eleven fields is falsy, and the e-mail error exactly when all are present but the address is malformed; the `isNaN` error is never returned; a pass keeps the address, the order number and the proof file and has a non-zero amount |
| OrderSubmission.ValidationErrorsAre400 | app/api/orders/route.ts:105-121 | validation fails exactly when a field is falsy or the regular expression does not match, and every such failure answers 400 |
| OrderSubmission.StorageKey | app/api/orders/route.ts:126-138 | the object key `orderNumber-fileName`; `OrderSubmission.StorageKeyInjective` shows it determines both parts |
| OrderSubmission.StorageKeyInjective | app/api/orders/route.ts:126-138 | for order numbers of one length, equal object keys mean equal order numbers and file names |
| OrderSubmission.NewOrderRow | app/api/orders/route.ts:144-158 | the inserted row; `OrderSubmission.NewOrderRowFromForm` states its columns |
| OrderSubmission.NewOrderRowFromForm | app/api/orders/route.ts:144-158 | the inserted row copies every form field into its column, zip code included, with the given proof URL and status `pending` |
| OrderSubmission.CallbackPayload | app/api/orders/route.ts:57-58 | `action_orderNumber`; `DecisionCallback.PayloadRoundTrip` shows the callback route reads it back |
| OrderSubmission.DecisionKeyboard | app/api/orders/route.ts:54-61 | the keyboard has exactly two buttons, with payloads `confirm_` + n and `reject_` + n |
| OrderSubmission.OrderNotification | app/api/orders/route.ts:32-61 | the notification shows the inserted order, its proof link and the label `Pending`, with the two decision payloads for its order number |
| OrderSubmission.SubmitOrder | app/api/orders/route.ts:74-184 | an unreadable form, a validation failure or an upload failure returns its error with the table and bucket unchanged. Otherwise the proof is stored under the form's `orderNumber-fileName`. An insert failure leaves the table unchanged. Otherwise exactly the form's pending row is appended and announced. Every outcome keeps all proof links backed by stored objects |
| DecisionCallback.ParseCallbackData | app/api/orders/telegram/callback/route.ts:75-79 | an accepted payload yields a non-empty, `_`-free action and order number, and starts with `action_orderNumber` followed by its end or a further `_` |
| DecisionCallback.ParseCallbackDataIff | app/api/orders/telegram/callback/route.ts:75-79 | a payload parses to `(a, n)` if and only if a and n are non-empty and `_`-free and the payload starts with `a_n` followed by its end or a further `_` |
| DecisionCallback.PayloadRoundTrip | app/api/orders/telegram/callback/route.ts:75 | `action_n` parses back to exactly that action and n whenever both are non-empty and contain no `_` |
| DecisionCallback.PayloadTruncatedAtUnderscore | app/api/orders/telegram/callback/route.ts:75 | an order number containing `_` is read back only up to its first `_` |
| DecisionCallback.NoSeparatorRefused | app/api/orders/telegram/callback/route.ts:75-79 | a payload without `_`, such as `garbled`, is refused |
| DecisionCallback.EmptyActionRefused | app/api/orders/telegram/callback/route.ts:75-79 | a payload starting with `_`, such as `_KDF-1`, is refused |
| DecisionCallback.EmptyOrderNumberRefused | app/api/orders/telegram/callback/route.ts:75-79 | a payload whose order-number piece is empty, such as `confirm_`, is refused |
| DecisionCallback.NewStatusFor | app/api/orders/telegram/callback/route.ts:93 | the action `confirm` maps to `confirmed`, and every other action maps to `rejected` |
| DecisionCallback.KeyboardDecides | app/api/orders/route.ts:57-58 | both announced buttons parse back to their own action and order number, and they set `confirmed` and `rejected` respectively |
| DecisionCallback.DecisionEmail | app/api/orders/telegram/callback/route.ts:120-151 | the mail goes to the stored order's address; the confirmed subject and template are chosen exactly when the new status is `confirmed`, and the rejected subject exactly when it is `rejected` |
| DecisionCallback.CallbackErrorStatus | app/api/orders/telegram/callback/route.ts:61-157 | a missing `callback_query` or bad payload answers 400, an unknown order 404, and every other failure 500 |
| DecisionCallback.ResolveCallback | app/api/orders/telegram/callback/route.ts:63-90 | a failed lookup never resolves; a resolved callback had a JSON body with `callback_query`, a message and a payload that parses to its decision, and its order is a stored row with the decided number |
| DecisionCallback.UnknownOrderIsNotFound | app/api/orders/telegram/callback/route.ts:82-90 | a well-formed payload naming an order number no row has is answered 404 |
| DecisionCallback.DuplicateOrderIsNotFound | app/api/orders/telegram/callback/route.ts:82-90 | a well-formed payload naming an order number that two distinct rows carry is answered as not found |
| DecisionCallback.LookupErrorIsNotFound | app/api/orders/telegram/callback/route.ts:82-90 | a failed lookup answers a well-formed payload as not found, even when its order is stored |
| DecisionCallback.StoredOrderResolves | app/api/orders/telegram/callback/route.ts:63-90 | a message and a payload `a_n` with a and n non-empty and `_`-free, where exactly one row has n and the lookup succeeds, resolve to that message, the decision (a, n) and that row |
| DecisionCallback.ButtonsDecideStoredOrder | app/api/orders/telegram/callback/route.ts:75-97 | when the lookup succeeds, pressing Confirm or Reject for an order stored once resolves to that order and sets its row to `confirmed` or `rejected` respectively |
| DecisionCallback.MalformedRequestsRefused | app/api/orders/telegram/callback/route.ts:63-79 | a body that is not JSON, has no `callback_query`, lacks the message or the payload, or has a payload that does not parse gets its own error |
| DecisionCallback.MatchingAfterUpdate | app/api/orders/telegram/callback/route.ts:82-97 | after the update, the rows matching the order number are the same rows with the new status |
| DecisionCallback.ReplayResolvesAgain | app/api/orders/telegram/callback/route.ts:82-101 | when both lookups succeed, replaying a decided callback resolves again to its order with the new status, and a second update leaves the table as the first left it |
| DecisionCallback.HandleCallback | app/api/orders/telegram/callback/route.ts:61-157 | every failure up to and including the lookup, a failed lookup call among them, returns its error with no update, edit or mail. A failed update changes nothing. Otherwise only the status of the matching rows changes, the message edit shows the new status, and the decision mail follows unless the edit failed. The bucket is untouched |
| Countdown.Decompose | components/countdown-timer.tsx:30-32 | for a positive difference the hours are non-negative, and the minutes and seconds lie in [0, 60) |
| Countdown.DecomposeReconstructs | components/countdown-timer.tsx:30-32 | with r = hours·3600000 + minutes·60000 + seconds·1000, r ≤ d < r + 1000 |
| Countdown.DecomposeWholeSeconds | components/countdown-timer.tsx:30-32 | the decomposed hours·3600 + minutes·60 + seconds are the whole seconds of d |
| Countdown.Remaining | components/countdown-timer.tsx:22-34 | a difference of at most zero shows `{0, 0, 0}`; a positive one shows its whole seconds in range |
| Countdown.RemainingMonotone | components/countdown-timer.tsx:22-34 | a smaller difference never shows more total seconds |
| Countdown.FirstTickNeverGrows | components/countdown-timer.tsx:10-34 | the first tick after mounting shows no more time than the initial `{hours, 0, 0}` |
| Countdown.CountdownTimer.constructor | components/countdown-timer.tsx:10-18 | the initial state is `{hours, 0, 0}` with the interval running and the target `hours` after mounting |
| Countdown.CountdownTimer.Tick | components/countdown-timer.tsx:20-35 | a running tick shows the time left as decomposed and clears the interval exactly when none is left; once cleared, no tick changes the zeros |
| Countdown.TwoDigits | components/countdown-timer.tsx:43-51 | `toString().padStart(2, "0")` of a field; `Countdown.TwoDigitsValue` states its length and value |
| Countdown.TwoDigitsValue | components/countdown-timer.tsx:43-51 | the padded text has length max(2, digit count), reads back as the value, and gains exactly one leading `0` if and only if the value is 0-9 |
| Checkout.NextStepValue | app/checkout/page.tsx:45-50 | `nextStep` adds one to a step below 3, leaves any other step unchanged, and keeps it in 1..3 |
| Checkout.PrevStepValue | app/checkout/page.tsx:52-57 | `prevStep` subtracts one from a step above 1, leaves any other step unchanged, and keeps it in 1..3 |
| Checkout.StepAfterInRange | app/checkout/page.tsx:14-57 | from 1..3, any sequence of `nextStep`/`prevStep` calls stays in 1..3 |
| Checkout.NextPrevInverse | app/checkout/page.tsx:45-57 | away from the ends, going back undoes going forward and going forward undoes going back |
| Checkout.OrderNumberFor | app/checkout/page.tsx:29-32 | the order number is `KDF-` followed by five digits, the first non-zero, denoting 10000 + k, and contains no `_` |
| Checkout.CheckoutOrderDecidable | app/checkout/page.tsx:30-31 | both buttons announced for any checkout order number parse back to that order and its action |
| Checkout.OrderRequest | app/checkout/page.tsx:74-87 | the posted form carries the page's order number, `amount` 600000, the proof, and each of the eight page fields (first and last name, e-mail, phone, address, city, state, zip code) under its own name |
| Checkout.OrderRequestAccepted | app/checkout/page.tsx:74-87 | the order route accepts a checkout request exactly when the order number and all eight fields are non-empty and the e-mail matches the regular expression |
| Checkout.CheckoutPage.constructor | app/checkout/page.tsx:14-27 | the page starts on step 1 with the eight fields empty, no proof, no order number and no loading |
| Checkout.CheckoutPage.AssignOrderNumber | app/checkout/page.tsx:29-32 | the mount effect sets the order number for the random draw |
| Checkout.CheckoutPage.HandleInputChange | app/checkout/page.tsx:34-37 | only the field named by `id` changes; every other field keeps its value |
| Checkout.CheckoutPage.HandleFileChange | app/checkout/page.tsx:39-43 | the proof becomes the first file when there is one and is otherwise unchanged |
| Checkout.CheckoutPage.NextStep | app/checkout/page.tsx:45-50 | the step becomes `nextStep`'s value and stays in 1..3 |
| Checkout.CheckoutPage.PrevStep | app/checkout/page.tsx:52-57 | the step becomes `prevStep`'s value and stays in 1..3 |
| Checkout.CheckoutPage.HandleStep1Submit | app/checkout/page.tsx:59-62 | submitting the shipping form moves the wizard forward |
| Checkout.CheckoutPage.HandleStep2Submit | app/checkout/page.tsx:64-92 | with no proof, no request is made and `step` and `isLoading` are unchanged; otherwise loading starts and the request is the page's order |
| Checkout.CheckoutPage.ReceiveOrderResponse | app/checkout/page.tsx:94-102 | loading stops, and the step advances only when the response is ok |

## Left out

- The module-load configuration checks and all logging are left out. They are configuration and output only.
- The texts of the operator messages are left out: the Markdown, `toLocaleString` amounts and `id-ID` dates. The notification and the edit carry the order and the status label they show.
- The e-mail HTML is left out. The two templates are modelled by the order fields each one shows.
- `parseFloat` is modelled as an optional integer, with `None` for NaN. Fractional and exponent forms are not modelled.
- The storage, database, chat and mail clients are modelled only by their outcomes. In particular, the storage service refusing a key that already exists is one of the upload errors. A throw of `sendTelegramNotification`, including its missing-token check, is the notification error.
- The row the insert returns is taken to be the row sent; database-side defaults are not modelled.
- `editTelegramMessage` does not look at the HTTP status of its request, so only a throw counts as an edit error.
- A callback body whose `message` or `data` is missing makes the route throw and answer 500 (`MissingQueryField`); the shape of the thrown error is not modelled.
- Concurrent requests are out of scope. The model is sequential, so races between two callbacks for one order are not modelled.
- Countdown.CountdownTimer.constructor: the target is mount time plus `hours`·3600000 ms. `setHours` across a daylight-saving change is not modelled.
- Interval scheduling, clearing the interval on unmount, and re-running the effect when the prop changes are left out. These are timing and framework behaviour.
- Countdown.CountdownTimer.Tick: the "display never grows" property is proved as `RemainingMonotone` over the differences the ticks read. It is not a postcondition of one call.
- Text.Capitalize: only `a`-`z` are upper-cased, whereas `toUpperCase` also maps non-ASCII letters (`ü` to `Ü`). The three status names are ASCII.
- The JSX, the `alert` calls, `window.scrollTo`, the disabled state of the submit button and `getLocation` are left out. They are rendering and browser APIs.
- Checkout.CheckoutPage.ReceiveOrderResponse advances from the current step. The page's handler uses the step captured when it was invoked, and the two differ only if the step changed while the request was in flight.
- A `fetch` or `response.json()` that throws in the second step is not modelled. The page does not catch it and leaves `isLoading` set.
