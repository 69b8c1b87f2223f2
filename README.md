# ohmysmtp: message builder and response classifier

A Dafny model of the core of the `ohmysmtp` Rust client for a
transactional-email HTTP service (`src/lib.rs`):

- **`EmailBuilder`** (`email.dfy`): the `Email` record (two required
  addresses, nine optional fields), `Default`, `Email::new` and the `with_*`
  setters. A setter takes the message by value, assigns one field (two for
  the body setters) and returns it, so each setter is a pure function on an
  `Email` datatype. A `Setter` datatype describes one call, and
  `Apply`/`ApplyAll` describe a chain of calls. The lemmas state the builder's
  rules:
  - the text and HTML bodies exclude each other, and every built message has
    exactly one body;
  - the last setter of a field wins;
  - the list setters replace the list, and every setter is idempotent;
  - calls that write different fields commute;
  - every field no call writes is left untouched.
- **`SendStatus`** (`response.dfy`): the `Error` enum and the `read_status`
  classifier in `send_email`. It maps a status code and a body that may be
  unreadable (`Option<string>`) to `Ok` or one error. The 400 and 403
  trigger phrases are also given as ordered rule tables (`BadRequestRules`,
  `ForbiddenRules`), read first-match-wins by `FirstMatch`. Lemmas prove the
  classifier agrees with those tables, and from that the exact precedence: a
  rule's error is reported if and only if its phrase occurs and no earlier
  phrase does. The dispatch on the transport's result is `SendOutcome`.
- **`Text`** (`text.dfy`): `Contains`, the case-sensitive substring test
  (proved equal to "occurs at some position"), and `NatToDecimal`, the
  `to_string` of a status code (proved to round-trip through `DecimalValue`,
  hence injective).
- **`Wrappers`** (`wrappers.dfy`): `Option`.

The model follows `src/lib.rs` as written:
- the error variants keep the code's names (`FromAddrNotParseable`,
  `ToAddrBlocked`, `FromAddrNotEqualToRegisteredDomain`, ...);
- a `File` holds raw `bytes` with no encoder;
- there is no `with_attachment`, `with_tag` or `InvalidEmail`.

## Model

| member | source | states |
|---|---|---|
| `EmailBuilder.Default` | src/lib.rs:49-65 | empty `from` and `to`; every optional field absent |
| `EmailBuilder.New` | src/lib.rs:67-75 | the given `from` and `to`, `textbody = Some(body)`, every other optional field absent |
| `EmailBuilder.WithHtml` | src/lib.rs:76-81 | `htmlbody = Some(h)`, `textbody = None`, every other field unchanged |
| `EmailBuilder.WithTextBody` | src/lib.rs:82-87 | `textbody = Some(t)`, `htmlbody = None`, every other field unchanged |
| `EmailBuilder.WithCc` | src/lib.rs:88-92 | `cc = Some(x)`, every other field unchanged |
| `EmailBuilder.WithBcc` | src/lib.rs:93-97 | `bcc = Some(x)`, every other field unchanged |
| `EmailBuilder.WithSubject` | src/lib.rs:98-102 | `subject = Some(x)`, every other field unchanged |
| `EmailBuilder.WithReplyTo` | src/lib.rs:103-107 | `replyto = Some(x)`, every other field unchanged |
| `EmailBuilder.WithListUnsubscribe` | src/lib.rs:108-112 | `list_unsubscribe = Some(x)`, every other field unchanged |
| `EmailBuilder.WithAttachments` | src/lib.rs:113-117 | `attachments = Some(list)` (the whole list), every other field unchanged |
| `EmailBuilder.WithTags` | src/lib.rs:118-122 | `tags = Some(list)` (the whole list), every other field unchanged |
| `EmailBuilder.Apply` | src/lib.rs:76-122 | any setter writes exactly its own fields with the prescribed values; a body setter leaves exactly one body present |
| `EmailBuilder.ApplyAllAppend` | src/lib.rs:76-122 | running two chains one after the other is running their concatenation |
| `EmailBuilder.LastWriterWins` | src/lib.rs:76-122 | after a chain, each field holds what the last call writing it left, or its starting value if no call writes it |
| `EmailBuilder.UntouchedField` | src/lib.rs:88-122 | a field no call in a chain writes keeps its value |
| `EmailBuilder.ChainKeepsOneBody` | src/lib.rs:76-87 | "exactly one of text and HTML body" is preserved by every chain of setters |
| `EmailBuilder.BuiltEmailHasOneBody` | src/lib.rs:67-87 | `Email::new` followed by any chain of setters has exactly one body |
| `EmailBuilder.Overwrite` | src/lib.rs:76-122 | a setter whose fields cover an earlier setter's fields erases that earlier call |
| `EmailBuilder.SetterIdempotent` | src/lib.rs:76-122 | applying a setter twice with the same argument equals applying it once |
| `EmailBuilder.ListSettersReplace` | src/lib.rs:113-122 | `with_tags(a).with_tags(b) == with_tags(b)`, and the same for attachments |
| `EmailBuilder.LastBodySetterWins` | src/lib.rs:76-87 | `with_html(h).with_text_body(t) == with_text_body(t)` and the reverse |
| `EmailBuilder.SettersCommute` | src/lib.rs:88-122 | two setters writing disjoint fields give the same message in either order |
| `Text.Contains` | src/lib.rs:146-177 | true exactly when the phrase occurs at some position of the body (case-sensitive) |
| `Text.NatToDecimal` | src/lib.rs:163 | a non-empty digit string, with a leading '0' only for zero |
| `Text.DecimalRoundTrip` | src/lib.rs:163 | reading the decimal string back gives the status code |
| `Text.NatToDecimalInjective` | src/lib.rs:182 | distinct codes have distinct decimal strings |
| `SendStatus.ReadStatus` | src/lib.rs:142-192 | `Ok` if and only if status 200; never `TooManyToAddrs` or `NetworkError`; an `Other` carries the body if readable, else the code in decimal |
| `SendStatus.FirstMatch` | src/lib.rs:146-179 | the index returned is the first rule whose phrase occurs; none returned only when no phrase occurs |
| `SendStatus.TablesHaveDistinctErrors` | src/lib.rs:144-180 | the 400 and 403 phrase lists map to distinct errors, none of them `Other` |
| `SendStatus.BadRequestFollowsTable` | src/lib.rs:144-161 | the 400 branch equals the 400 rule table read first-match-wins |
| `SendStatus.ForbiddenFollowsTable` | src/lib.rs:166-180 | the 403 branch equals the 403 rule table read first-match-wins |
| `SendStatus.ClassifyByExact` | src/lib.rs:144-180 | a rule's error is reported if and only if that rule is the first whose phrase occurs |
| `SendStatus.ClassifyByFallback` | src/lib.rs:161-180 | the body is reported as `Other` if and only if no phrase occurs |
| `SendStatus.BadRequestPrecedence` | src/lib.rs:144-161 | status 400: the k-th error is reported if and only if the k-th phrase occurs and no earlier one does |
| `SendStatus.ForbiddenPrecedence` | src/lib.rs:166-180 | status 403: the k-th error is reported if and only if the k-th phrase occurs and no earlier one does |
| `SendStatus.BadRequestFallback` | src/lib.rs:144-161 | status 400: `Other(body)` if and only if no 400 phrase occurs |
| `SendStatus.ForbiddenFallback` | src/lib.rs:166-180 | status 403: `Other(body)` if and only if no 403 phrase occurs |
| `SendStatus.InvalidApiBeatsInvalidAddress` | src/lib.rs:146-153 | a 400 body with both "Invalid API" and "is invalid" gives `InvalidApiToken` |
| `SendStatus.InvalidApiTokenExample` | src/lib.rs:146-147 | status 400 with body "Invalid API token" gives `InvalidApiToken` |
| `SendStatus.FixedCodesIgnoreBody` | src/lib.rs:142-192 | 200, 401, 406, 429, 500 give `Ok`, `MissingApiToken`, `InvalidRequestFormat`, `RateLimit`, `NoContent` for any body |
| `SendStatus.UnreadableBodyGivesCode` | src/lib.rs:163-191 | any other code with an unreadable body gives `Other` of the code in decimal, distinct per code |
| `SendStatus.UnknownCodeGivesBody` | src/lib.rs:187-191 | an unlisted code with a readable body gives `Other(body)` |
| `SendStatus.SendOutcome` | src/lib.rs:193-208 | `NetworkError` if and only if the transport failed (carrying its error); `Ok` if and only if a response with status 200 came back |
| `SendStatus.ResponseKindIrrelevant` | src/lib.rs:199-206 | a success response and an error-status response with the same code and body are classified alike, by `read_status` |

## Left out

- HTTP transport (`ureq::post`, headers, `send_string`): network I/O. The
  transport's result is the input of `SendOutcome`. Its error is the
  opaque `TransportError`, and why a body is unreadable is not modelled.
- JSON serialisation of the message (`SerJson`/`DeJson`): generated by a
  library that is not part of this model, so the request body sent is not
  modelled, and `SendOutcome` does not take the message.
- `OhMySmtp::new` only stores the API key. The lint attributes are not
  behaviour.
- `File` is an opaque record. There is no attachment encoder, `FileType`
  table, `with_attachment` or `with_tag` in `src/lib.rs`.
- The optional address pre-validation and its `InvalidEmail` error are not
  part of `src/lib.rs`. Neither is the API that `tests/tests.rs` targets.
- Strings are sequences of characters. Rust's `contains` works on UTF-8
  bytes, which gives the same answer for valid text.
