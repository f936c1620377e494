# Pipedrive person sync: path engine, field mapper and error classifier

This project models the pure core of a small tool that syncs one contact record
into the Pipedrive CRM. The core has two parts, both written as Dafny functions
over immutable values.

- **The dotted-path engine and field mapper** (`src/utils/Utils.ts`).
  - `getNestedObjectValue` reads a value out of a nested JSON document at a path such as `contact.first`.
  - `setNestedObjectValue` writes one, creating or overwriting the intermediate objects on the way.
  - `mapInputDataToPerson` drives both from an ordered table of `{inputKey, pipedriveKey}` rules. It builds the person record, checks the required `name` first, and wraps `email` and `phone` as `[{value, primary: true}]`.
- **The error classifier** (`src/errors/pipedriveErrorHandler.ts`).
  - `handlePipedriveApiError` turns any failure of an HTTP call into a `PipedriveApiError` with a message, an optional status and details. It tries the connection codes first, then the timeout codes, then the HTTP status of an Axios error; anything else is "unexpected".
  - Three wrappers fix the operation label: "person search", "person creation" and "person update".

Modules, one per file:

| file | module | contents |
|---|---|---|
| `wrappers.dfy` | `Wrappers` | `Option` (with `None` for JavaScript `undefined`) and `Result` |
| `json.dfy` | `Json` | the JSON value type, JavaScript falsiness, `String(v)`, the decimal form of numbers and canonical array-index keys |
| `paths.dfy` | `Paths` | path normalisation: the `.`/`..` guards, `trim`, `split('.')`, dropping empty pieces |
| `nested.dfy` | `Nested` | the getter and the setter, their round trip and their frame properties |
| `mapper.dfy` | `Mapper` | `mapInputDataToPerson`, the name check, last-write-wins |
| `errors.dfy` | `PipedriveErrors` | `PipedriveApiError`, the classifier, the three wrappers, and a reading of the outcome back from the message |

Partners used in the contracts:

- **Paths.** The keys of a path (`Paths.Segments`) are characterised by `Paths.SpelledAs`: whitespace padding, an optional framing dot on each side, and the keys joined by dots. `Paths.SegmentsOfSpelling` and `Paths.SpellingOfSegments` prove that the two agree in both directions.
- **Writes.** The setter is related to the getter by the round trip `Nested.GetAfterSet` and by frame lemmas. The mapper's loop is re-expressed as a list of nested writes (`Mapper.Write`), and its key set and last-write-wins facts are proved over that list.
- **Classifier.** It is compared with a separate priority classification (`PipedriveErrors.Classify`, over `PipedriveErrors.Kind`). `PipedriveErrors.KindOfMessage` reads the outcome back from the message text, and `PipedriveErrors.MessageDeterminesKind` proves that it gets it right.

## Model

| member | source | states |
|---|---|---|
| `Json.NatToString` | src/utils/Utils.ts:149-159 | the decimal form `String(n)` gives a number: digits only, no superfluous leading zero, and their value is `n` |
| `Json.CanonicalDigitsRoundTrip` | src/utils/Utils.ts:47-51 | every canonical digit string is the printed form of its own value |
| `Json.ParseIndexRoundTrip` | src/utils/Utils.ts:47-51 | an array-index key and the index it names determine each other, in both directions, for indices below 2^32 - 1 |
| `Json.ParseIndex` | src/utils/Utils.ts:47-51 | only keys naming an index below 2^32 - 1 address array elements |
| `Json.FalsyValues` | src/utils/Utils.ts:135 | the falsy values `!x` rejects are exactly `null`, `false`, `0` and `""`, plus `undefined` for a possibly missing value |
| `Json.IntToString` | src/utils/Utils.ts:149-159 | an integer prints as canonical decimal digits denoting it, after a `-` when it is negative |
| `Json.StringifyNumber` | src/utils/Utils.ts:149-159 | `String(n)` of a number is its decimal form, which for an index below 2^32 - 1 is the array-index key naming that index; `String(s)` of a string is `s` |
| `Paths.Trim` | src/utils/Utils.ts:22 | `trim()` removes only whitespace, only from the two ends, and leaves no whitespace at either end |
| `Paths.TrimPadded` | src/utils/Utils.ts:22 | trimming removes exactly the whitespace padding around a string that has no whitespace at its ends |
| `Paths.TrimPadding` | src/utils/Utils.ts:22 | every string is its trimmed form padded with whitespace on both sides |
| `Paths.Split` | src/utils/Utils.ts:28 | `split('.')` yields at least one piece, and no piece contains a dot |
| `Paths.JoinSplit` | src/utils/Utils.ts:28 | joining the pieces of a split with dots gives back the string |
| `Paths.SplitJoin` | src/utils/Utils.ts:28 | splitting the join of dot-free pieces gives back the pieces |
| `Paths.SplitAroundDot` | src/utils/Utils.ts:28 | splitting `a.b` gives the pieces of `a` followed by the pieces of `b` |
| `Paths.RemoveEmpty` | src/utils/Utils.ts:31 | the filter keeps exactly the non-empty pieces |
| `Paths.RemoveEmptyConcat` | src/utils/Utils.ts:31 | the filter distributes over concatenation |
| `Paths.NoPiecesIffAllDots` | src/utils/Utils.ts:28-35 | no non-empty piece remains exactly when the trimmed path consists only of dots |
| `Paths.HasDoubleDotConcat` | src/utils/Utils.ts:17 | `..` occurs in `a + b` exactly when it occurs in `a`, in `b`, or across the seam |
| `Paths.JoinShape` | src/utils/Utils.ts:17-31 | dotted keys start with the first key's first character, end with the last key's last character, and never contain `..` |
| `Paths.Segments` | src/utils/Utils.ts:11-35 | an accepted path yields at least one key, and every key is non-empty and dot-free |
| `Paths.SplitFramed` | src/utils/Utils.ts:28 | a leading or trailing dot adds exactly one empty piece at that end |
| `Paths.KeysOfFramed` | src/utils/Utils.ts:28-31 | the framing dots' empty pieces are filtered away |
| `Paths.SpellingIsNotRejected` | src/utils/Utils.ts:11-19 | a path spelled from valid keys is never empty, `.`, `..` or one containing `..` |
| `Paths.SegmentsOfSpelling` | src/utils/Utils.ts:11-35 | every spelling of keys, with or without padding or framing dots, is accepted and addresses exactly those keys: `a.b`, `.a.b.` and ` a.b ` all address `["a", "b"]` |
| `Paths.SplitPiecesNonEmpty` | src/utils/Utils.ts:28-31 | with no `..` and no dot at either end, every piece is non-empty |
| `Paths.TrimmedAcceptedPath` | src/utils/Utils.ts:17-35 | an accepted trimmed path is its dotted keys framed by at most one dot on each side |
| `Paths.AcceptedTrimmed` | src/utils/Utils.ts:17-35 | an accepted path has a non-empty trimmed form, free of `..` and not only dots, whose non-empty pieces are the keys |
| `Paths.SpellingOfSegments` | src/utils/Utils.ts:17-35 | every accepted path spells the keys it yields (the converse of `Paths.SegmentsOfSpelling`), so inner spaces such as `a. b` stay inside keys |
| `Paths.SegmentsNoneIff` | src/utils/Utils.ts:11-35 | a path is rejected exactly when it is `.` or `..`, contains `..`, or trims to only dots (including empty and blank paths) |
| `Paths.SegmentsOfJoin` | src/utils/Utils.ts:22-31 | plain dotted keys address those keys |
| `Nested.Child` | src/utils/Utils.ts:41-51 | only objects and arrays can be stepped into, and an object step succeeds exactly when the key is present |
| `Nested.Walk` | src/utils/Utils.ts:37-54 | a walk that takes a step and succeeds started at an object or array in which the first key was found |
| `Nested.GetOfSpelling` | src/utils/Utils.ts:5-55 | on a root that is neither `null` nor `undefined`, every spelling of keys (padded, framed by single dots, or plain) reads the walk along exactly those keys |
| `Nested.WalkConcat` | src/utils/Utils.ts:40-54 | walking `a + b` is walking `a` and then `b` from where it ended |
| `Nested.WalkStops` | src/utils/Utils.ts:40-54 | the walk gives `undefined` as soon as it meets a missing key, or a scalar or `null` with keys still to follow |
| `Nested.GetRejects` | src/utils/Utils.ts:6-35 | `undefined` for a `null`/`undefined` root, the empty path, `.`, `..`, any path containing `..`, a blank path and an all-dots path |
| `Nested.ChildObject` | src/utils/Utils.ts:95-106 | the writer descends into the object already there, and otherwise into a fresh empty one; it never invents content |
| `Nested.SetPath` | src/utils/Utils.ts:85-110 | writing adds exactly the path's first key at the top level, and every other top-level key keeps its value |
| `Nested.Set` | src/utils/Utils.ts:58-111 | a rejected path leaves the root as it was; otherwise the top-level keys gain the path's first key |
| `Nested.WalkAfterSetPath` | src/utils/Utils.ts:86-110 | after a write, reading at and below the written path reads the written value |
| `Nested.GetAfterSet` | src/utils/Utils.ts:58-111 | round trip: `get(set(o, p, v), p) == v` for every accepted path `p` |
| `Nested.SetPathFrame` | src/utils/Utils.ts:89-110 | a path that leaves the written path at an existing object reads as before, so siblings along the way are kept |
| `Nested.FreshFrame` | src/utils/Utils.ts:92-97 | inside a freshly created intermediate, any other path reads `undefined` |
| `Nested.SetPathReplaces` | src/utils/Utils.ts:89-104 | where the written path passes through a missing key, `null`, scalar or array, that value is replaced by `{}`, so other paths through it read `undefined` |
| `Nested.AtWalk` | src/utils/Utils.ts:40-54 | a value stored along objects is what the walk reads there |
| `Nested.SetPathAt` | src/utils/Utils.ts:106-110 | after a write the value sits at the end of its path, reached through objects only |
| `Nested.AtPreserved` | src/utils/Utils.ts:89-110 | a later write along a path unrelated to `p` (neither a prefix of the other) keeps what was stored at `p` |
| `Nested.SetOverwritesScalar` | src/utils/Utils.ts:100-103 | `set({a: 5}, "a.b", 1)` gives `{a: {b: 1}}` |
| `Mapper.FindNameMapping` | src/utils/Utils.ts:127 | finds the first mapping whose target is `name`, or reports that none has it |
| `Mapper.MapInputDataToPerson` | src/utils/Utils.ts:114-168 | a falsy input fails with "Input data is required"; a table with no `name` target fails with the missing-name-mapping error; a success is the result of applying every mapping in order |
| `Mapper.MapNameCheck` | src/utils/Utils.ts:133-137 | with a name mapping, mapping succeeds exactly when its path reads a truthy value; otherwise it fails naming that path |
| `Mapper.ContactListKeepsText` | src/utils/Utils.ts:150-159 | the `email`/`phone` entry keeps only the text of the value: two values give the same entry exactly when `String` prints them alike |
| `Mapper.Apply` | src/utils/Utils.ts:140-164 | one loop iteration never drops a key; when the mapping writes, its value is then read back at its target, and otherwise the record is unchanged |
| `Mapper.ApplyAll` | src/utils/Utils.ts:139-165 | after the loop, the last mapping's write is read back at its target |
| `Mapper.ApplyIsWrite` | src/utils/Utils.ts:140-164 | each loop iteration performs one nested write: `email` and `phone` as one-key paths holding the wrapped list, others at their dotted target; nothing for `undefined` |
| `Mapper.ApplyAllIsPerformAll` | src/utils/Utils.ts:139-165 | the loop is the in-order sequence of those writes starting from `{}` |
| `Mapper.WriteOf` | src/utils/Utils.ts:141-164 | a write always has a non-empty path |
| `Mapper.WriteOfDefined` | src/utils/Utils.ts:141-164 | a mapping writes exactly when its value is defined and its target accepted, and it writes along that target |
| `Mapper.PerformAllKeys` | src/utils/Utils.ts:124-165 | the writes starting from `{}` leave exactly the top-level keys the writes start with |
| `Mapper.PerformAllLastWrite` | src/utils/Utils.ts:139-165 | a write survives every later write along an unrelated path |
| `Mapper.ApplyAllKeys` | src/utils/Utils.ts:124-165 | the record has exactly the top-level keys of the mappings that read a defined value (`null` included) and have an accepted target |
| `Mapper.WriteOfKey` | src/utils/Utils.ts:141-164 | a mapping's write starts with key `k` exactly when it reads a defined value and its target starts with `k` |
| `Mapper.ApplyAllLastWrite` | src/utils/Utils.ts:139-165 | last write wins: a mapping's value stays at its target unless a later mapping writes to a path containing or extending that target |
| `Mapper.MapKeys` | src/utils/Utils.ts:124-167 | the keys of a successful mapping are exactly those written by mappings whose value is defined |
| `Mapper.MapLastWriteWins` | src/utils/Utils.ts:139-167 | reading the result at a mapping's target gives what that mapping wrote, when no later mapping overwrites it |
| `Mapper.MapContactLastWins` | src/utils/Utils.ts:148-160 | the last defined `email` (or `phone`) mapping decides that key, as `[{value: String(v), primary: true}]` |
| `Mapper.MissingEmailSkipped` | src/utils/Utils.ts:143-146 | a name mapping plus an email mapping whose value is missing gives just `{name}` |
| `Mapper.PhoneWrapped` | src/utils/Utils.ts:155-160 | a name mapping plus a `phone` mapping reading `"555-1234"` gives `{name, phone: [{value: "555-1234", primary: true}]}` |
| `Mapper.NameFirst` | src/utils/Utils.ts:127-140 | a two-entry table whose first entry reads a truthy name succeeds, and that entry writes `name` first |
| `PipedriveErrors.Classify` | src/errors/pipedriveErrorHandler.ts:16-109 | a connection or timeout code decides the outcome; an error is unexpected exactly when it has neither code and is not an Axios error, and its outcome comes from the response exactly when it has neither code and is one |
| `PipedriveErrors.BadRequestText` | src/errors/pipedriveErrorHandler.ts:56-58 | a 400 reports the body's `error` field whenever the body is an object having one, and the Axios message otherwise |
| `PipedriveErrors.UnexpectedText` | src/errors/pipedriveErrorHandler.ts:105 | an unexpected error reports its message, or the error itself printed, the latter exactly when the message is missing, empty or already that text |
| `PipedriveErrors.HandlePipedriveApiError` | src/errors/pipedriveErrorHandler.ts:16-110 | an outcome taken from an HTTP response carries the response's status, which may be undefined, and its body; connection, timeout and unexpected errors carry no status and the original error as details |
| `PipedriveErrors.MessageSpelling` | src/errors/pipedriveErrorHandler.ts:16-110 | every message is the outcome's opening words, the operation, then the outcome's tail: the response's `error` field or the Axios message for a 400, the status for an unlisted one, `message` or the error itself when it is unexpected |
| `PipedriveErrors.AxiosSpelling` | src/errors/pipedriveErrorHandler.ts:35-109 | the same for errors without a connection or timeout code |
| `PipedriveErrors.ExplainedStatusSpelling` | src/errors/pipedriveErrorHandler.ts:65-93 | the same for 404, 500 and 503 |
| `PipedriveErrors.MessageNamesOperation` | src/errors/pipedriveErrorHandler.ts:16-110 | every message contains the operation label, right after the opening words |
| `PipedriveErrors.KindAmong` | src/errors/pipedriveErrorHandler.ts:18-100 | reading a message back yields an outcome whose opening words start the message |
| `PipedriveErrors.LeadsExclusive` | src/errors/pipedriveErrorHandler.ts:18-100 | no outcome's opening words start another outcome's message |
| `PipedriveErrors.KindAmongFinds` | src/errors/pipedriveErrorHandler.ts:18-100 | a message is read back as the outcome whose opening it starts with |
| `PipedriveErrors.MessageDeterminesKind` | src/errors/pipedriveErrorHandler.ts:16-110 | the message alone tells which outcome the classifier chose |
| `PipedriveErrors.SameMessageSameKind` | src/errors/pipedriveErrorHandler.ts:16-110 | two errors reported with the same message were classified alike, whatever the operations |
| `PipedriveErrors.CodesOutrankStatus` | src/errors/pipedriveErrorHandler.ts:17-33 | a connection code or a timeout code decides the outcome, with no status, whatever Axios status the error also carries |
| `PipedriveErrors.HandlePersonSearchError` | src/errors/pipedriveErrorHandler.ts:113-115 | the message reports the outcome during "person search" |
| `PipedriveErrors.HandlePersonCreateError` | src/errors/pipedriveErrorHandler.ts:119-121 | the message reports the outcome during "person creation" |
| `PipedriveErrors.HandlePersonUpdateError` | src/errors/pipedriveErrorHandler.ts:125-127 | the message reports the outcome during "person update" |
| `PipedriveErrors.WrappersDistinguishOperations` | src/errors/pipedriveErrorHandler.ts:113-127 | the three wrappers report the same error under three different messages |

`PipedriveErrors.Classify` is the reference classification, written as a list of priorities:

1. a connection code (`ENOTFOUND`, `ECONNREFUSED`, `ENETUNREACH`);
2. a timeout code (`ECONNABORTED`, `ETIMEDOUT`);
3. not an Axios error, which makes the error unexpected;
4. the status: 401, 403, 400, 404, 429, 500 or 503;
5. any other status.

`PipedriveErrors.Kind.Lead` holds each outcome's fixed opening words, for example "Rate limit exceeded during ". `PipedriveErrors.Tail` holds the rest of the message, for example ": Too many requests" for 429.

## Left out

- `src/controllers/pipedriveController.ts` is not part of this model. It does HTTP I/O through Axios: the base URL, headers, and the search/create/update calls. Every failure in it is routed through the classifier, which is modelled.
- `src/index.ts` is not part of this model. It covers environment loading, logging, sequencing of the network calls and the process exit code.
- Mapper.ApplyAll: the setter updates its argument in place, and a value read from the input is stored by reference (src/utils/Utils.ts:110 and 163). A later write below such a key therefore goes into the input document itself (line 106), and later reads at line 141 see it. Here the setter returns an updated copy and the input never changes. The outputs can differ once a copied input object is written below: when a later mapping re-reads the changed input object (line 141), or when that object is stored under two keys. A write below it that nothing reads again gives the same record in both.
  - Example: input `{n: "Jo", contact: {first: "A"}}` with mappings `n→name`, `contact→c`, `contact.first→c.copy`, `contact.copy→z` gives `z: "A"` in the source, and no `z` here.
  - Example: mappings `n→name`, `contact→a`, `contact→b`, `n→a.x` give `b` an `x` in the source, because `a` and `b` hold the same object.
  - Example: mappings `n→name`, `contact→c`, `n→c.first`, `contact.first→email` give `email: [{value: "Jo", primary: true}]` in the source, because line 141 re-reads the changed `contact.first`; here the email holds `"A"`.
  - Mapper.MapKeys, Mapper.ApplyAllKeys, Mapper.ApplyAllLastWrite, Mapper.MapLastWriteWins and Mapper.MapContactLastWins describe the source only when no mapping writes below a key that holds an object copied from the input.
- Nested.SetPath: an array met as an intermediate is replaced by `{}`. The source instead descends into the array or attaches a property to it; this model does not have arrays with string properties.
- Nested.Child: `key in obj` in the source also finds inherited properties such as `toString` or `constructor`. Here only an object's own keys and an array's indices and `length` are found.
- Nested.SetPath: the same `in` test in the setter (src/utils/Utils.ts:95) finds `__proto__` in every object. So `set(p, "__proto__", v)` replaces the prototype instead of adding a key, and `set(p, "__proto__.x", v)` writes into `Object.prototype` (line 106). Here `__proto__` is an ordinary own key, and Mapper.ApplyAllKeys counts it as one.
- Json.Value: numbers are integers. Fractions, `NaN`, `-0` and infinities are not modelled.
- Json.Stringify: numbers of 1e21 or more are printed in plain digits, where JavaScript switches to exponent notation.
- Json.NatToString: numbers are unbounded integers, while JavaScript numbers are doubles. Above 2^53 a double is not exact, and `String(x)` prints the shortest digits that round-trip, padded with zeros (`String(2**60)` is `"1152921504606847000"`). So Json.NatToString, Json.IntToString and Json.StringifyNumber agree with `String(n)` only for |n| ≤ 2^53. This reaches `String(inputValue)` for `email`/`phone` (src/utils/Utils.ts:151 and 157) and the text of a 400 (src/errors/pipedriveErrorHandler.ts:60).
- Paths.Trim: strings are sequences of Unicode scalar values, whereas JavaScript strings are UTF-16 code units. A key or value holding a lone surrogate (JSON `"\uD800"`) cannot be represented. No proved property depends on this: `.` and every character `trim()` removes lie in the Basic Multilingual Plane.
- Mapper.MapInputDataToPerson: the "Mappings must be an array" error cannot arise, because the table is a typed sequence. Non-string paths (`typeof path !== 'string'`) cannot arise either.
- Nested.Set: the `!obj` guard of the setter cannot fire, because the root is always an object (the mapper's record).
- PipedriveErrors.HandlePipedriveApiError: several JavaScript behaviours are not modelled.
  - A `null` or `undefined` error, which would make the source throw when it reads `.code`.
  - Codes and messages that are not strings: the message is an optional string, with `undefined` printed as "undefined".
  - What `${error}` prints is taken as given (`asString`).
  - The `name` field is the constant "PipedriveApiError"; the inherited `Error` stack is not modelled.
- Mapper.MapInputDataToPerson: only a falsy name is rejected (`!personName`, src/utils/Utils.ts:135), so a truthy non-string name such as `1` or `{}` passes the mapper. The orchestrator (src/index.ts:62-64) rejects a non-string name after mapping, but it is not part of this model; see `Mapper.MapNameCheck`.
