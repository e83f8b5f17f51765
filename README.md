# Rise CLI core: project descriptor validation and account-API response classification

This project models, in Dafny, two decision components of the Rise command-line client (written in Go):

- **The project descriptor** (`project/project.go`). A `Project` record holds a name, a path and three feature flags. `ValidateName` first checks the name's length in bytes, then matches it against the pattern `(?m)(^[a-z0-9][a-z0-9\-]{1,61}[a-z0-9]$)`. `ValidatePath` rejects absolute paths, then classifies what `os.Stat` reports. `DefaultDomain` joins the name, a dot and the configured base domain.
- **The account client** (`client/users/users.go`). `Create` and `Confirm` send one request each. They turn its outcome into `nil` or an application error `{code, cause, message, retryable}`, whose code is one of `request_failed`, `unexpected_error` and `validation_failed`.

All of this code is pure once its inputs are made explicit. It is modelled as datatypes, functions and lemmas:

- `wrappers.dfy`: `Option` (with `None` for Go's `nil`), `Result`, and `Cause`, a Go error value from outside the model known only by its text.
- `text.dfy`: the string facts the code relies on. Go's `len` is the UTF-8 byte length (`ByteLength`). `strings.Contains` is `Contains`, proved equal to "occurs at some offset". Splitting at `'\n'` is `LineEnd`/`Lines`, with a join round trip.
- `project.dfy`: the descriptor, its error values, the name pattern, and the three validations and derivations.
- `users.dfy`: the transport outcome, the application error, `Create` and `Confirm`.

Inputs that the Go code reads from the environment are parameters here:
- the file system's answer for a path (`StatResult`);
- the configured base domain;
- the outcome of the HTTP request (`Outcome`);
- the message renderer `util.ValidationErrorsToString` (`render`).

## How the name pattern is modelled

The pattern is compiled with the multi-line flag, and `MatchString` accepts a match anywhere in the string. So `^` matches at the start of the text or just after a `'\n'`, and `$` matches at the end of the text or just before a `'\n'`. `RegexMatches` states this directly: some span `s[i..j]` has both anchors satisfied and fits `[a-z0-9][a-z0-9\-]{1,61}[a-z0-9]` (`LineMatches`). `MatchString` is a recursive scanner that tries each line in turn. `MatchStringIsRegexMatch` proves the two equal. Because the character classes exclude `'\n'`, a name of the right byte length passes as soon as ONE of its lines fits the pattern. The model keeps this behaviour (see Findings).

## Model

| member | source | states |
|---|---|---|
| Text.ByteLength | project/project.go:43 | Go's `len`: the UTF-8 byte count, between the character count and four times it, equal to it exactly for ASCII strings |
| Text.ByteLengthConcat | project/project.go:38 | the byte length of a concatenation is the sum of the byte lengths |
| Text.ByteLengthRepeat | project/project_test.go:44 | `n` copies of one character take `n` times its UTF-8 width in bytes |
| Text.ContainsFindsOccurrence | client/users/users.go:84 | whenever `strings.Contains` succeeds, the substring occurs at some offset |
| Text.OccurrenceIsContained | client/users/users.go:84 | an occurrence at any offset makes `strings.Contains` succeed |
| Text.Contains | client/users/users.go:84 | `strings.Contains`, a scan from the left; no contract of its own, equal to "occurs at some offset" by `ContainsIff` |
| Text.ContainsIff | client/users/users.go:84 | `strings.Contains(s, sub)` holds exactly when `sub` occurs somewhere in `s` |
| Text.LineEnd | project/project.go:27 | the index of the first `'\n'`, or the length when there is none |
| Text.Lines | project/project.go:27 | splitting at `'\n'` gives at least one line and no line contains `'\n'` |
| Text.JoinLinesOfLines | project/project.go:27 | joining the lines with `'\n'` gives back the original string |
| Text.Repeat | project/project_test.go:44 | `n` copies of one character |
| Project.Message | project/project.go:29-34 | the texts of the five error values; no contract of its own; a passed-through stat error keeps its text by `StatErrorPassesThrough` |
| Project.LineMatchesHasNoNewline | project/project.go:27 | no span the pattern accepts contains a line break |
| Project.ShiftMatch | project/project.go:27 | a match in the text after a line break is a match in the whole text at the shifted position |
| Project.MatchString | project/project.go:47 | `projectNameRe.MatchString`, the line scanner `ValidateName` runs; no contract of its own, equal to `RegexMatches` by `MatchStringIsRegexMatch` and to "some line fits" by `MatchStringSomeLine` |
| Project.MatchStringSound | project/project.go:27 | a line the scanner accepts is a span where the multi-line pattern matches |
| Project.MatchStringComplete | project/project.go:27 | every span where the multi-line pattern matches is found by the scanner |
| Project.MatchStringIsRegexMatch | project/project.go:27 | `MatchString` holds exactly when the multi-line pattern matches somewhere in the name |
| Project.MatchStringSomeLine | project/project.go:27 | the pattern matches exactly when one of the `'\n'`-separated lines fits it whole |
| Project.SingleLineMatch | project/project.go:27 | for a name without a line break, the pattern must match the whole name |
| Project.ValidateName | project/project.go:42-52 | only nil, ErrNameInvalidLength or ErrNameInvalid; ErrNameInvalidLength exactly when the byte length is below 3 or above 63; nil exactly when the length is in range and the multi-line pattern matches |
| Project.DefaultDomain | project/project.go:37-39 | for any name, valid or not: the domain starts with the name, then a dot, then ends with the base domain; its byte length is the name's plus one plus the base domain's |
| Project.DefaultDomainDeterminesName | project/project.go:37-39 | under one base domain, two projects get the same default domain exactly when their names are equal |
| Project.IsAbs | project/project.go:56 | `filepath.IsAbs` on Unix, which is `strings.HasPrefix(path, "/")`; no contract of its own; `ValidatePath` and `PathExamples` are stated with it |
| Project.ValidatePath | project/project.go:55-73 | an absolute path gives ErrPathNotRelative; for a relative path, nil exactly for a directory, ErrPathNotExist exactly for not-exist, ErrPathNotDir exactly for a non-directory, and any other stat error returned unchanged; never a name error |
| Project.AbsolutePathIgnoresStat | project/project.go:56-58 | for an absolute path the result is ErrPathNotRelative whatever the file system reports |
| Project.StatErrorPassesThrough | project/project.go:60-66 | on a relative path, a stat error other than not-exist is returned unchanged by `ValidatePath` and reported with its own text |
| Project.MultiLineNameAccepted | project/project.go:27 | the name `"Bad\nabc"`, with an upper-case letter and a line break, passes `ValidateName` |
| Project.LineMatchesIsAscii | project/project.go:27 | a name the whole pattern matches is ASCII, so its byte length equals its length |
| Project.ValidateNameWholeString | project/project.go:42-52 | same length check; nil exactly when the whole name fits the pattern, so an accepted name holds only lower-case letters, digits and hyphens |
| Project.WholeStringAgreesOnOneLine | project/project.go:42-52 | on names without a line break, `ValidateName` and the whole-string check agree |
| Project.MultiLineNameRejected | project/project.go:42-52 | the whole-string check rejects `"Bad\nabc"` with ErrNameInvalid |
| Project.SingleLineName | project/project.go:42-52 | a one-line ASCII name of 3 to 63 characters is accepted exactly when the whole name fits the pattern, otherwise ErrNameInvalid |
| Project.AcceptedNames | project/project_test.go:36-38 | "abc", "good-one" and "hello-world--foobar" are accepted |
| Project.RejectedNames | project/project_test.go:39-45 | "Bad-One", "-abc", "abc-", "good one" and "good&one" give ErrNameInvalid |
| Project.NamesOfWrongLength | project/project_test.go:43-44 | "aa" and 64 copies of "a" give ErrNameInvalidLength |
| Project.ShortNonAsciiName | project/project.go:43-49 | "完成" has 2 characters but 6 bytes: it passes the length check and gives ErrNameInvalid |
| Project.LongNonAsciiName | project/project.go:43-45 | 22 copies of "完" are 66 bytes: ErrNameInvalidLength, although the name has only 22 characters |
| Project.DefaultDomainExamples | project/project_test.go:61-63 | with base domain "test.dev": "aaa", "foo-1" and "完成" give "aaa.test.dev", "foo-1.test.dev" and "完成.test.dev" |
| Project.PathExamples | project/project_test.go:95-123 | an absolute path gives ErrPathNotRelative; a missing path gives ErrPathNotExist, a file gives ErrPathNotDir, a directory gives nil |
| Users.CodeString | client/users/users.go:15-19 | the string constant of each error code; no contract of its own; one distinct string per code by `CodeStringInjective` |
| Users.CodeStringInjective | client/users/users.go:15-19 | the three code strings are pairwise distinct |
| Users.Create | client/users/users.go:33-55 | nil exactly for a 201 with a decodable body; request_failed exactly for a transport error, which it keeps as cause with an empty message; validation_failed exactly for a decodable 422 whose `error` is "invalid_params", with nil cause and the rendered message; otherwise unexpected_error with an empty message and the decode error as cause when decoding failed; validation_failed never retryable, every other code retryable |
| Users.InvalidParams | client/users/users.go:47 | `j["error"] == "invalid_params"`: the key is present and holds that JSON string; no contract of its own; `Create`'s contract is stated with it |
| Users.Confirm | client/users/users.go:70-91 | nil exactly for a 200, whatever the body; request_failed exactly for a transport error, keeping it as cause; validation_failed exactly for a 422 whose body text contains the marker, with the fixed message; a body-read failure gives unexpected_error with the read error as cause; other 422 bodies give unexpected_error carrying the body text; other statuses give unexpected_error with nil cause; validation_failed never retryable, every other code retryable |
| Users.ConfirmWrongCode | client/users/users.go:84-85 | any 422 whose body text contains "invalid email or confirmation_code" at some offset gives validation_failed with the fixed message, not retryable, whatever the decoded view of the body is |
| Users.WrongCodeBodyCarriesMarker | client/users/users.go:84 | the JSON error body `{"error":"invalid_params","error_description":"invalid email or confirmation_code"}` contains the marker, so `ConfirmWrongCode` applies to it |
| Users.ConfirmIgnoresConfirmedField | client/users/users.go:74-91 | a 200 whose body says `"confirmed": false` still gives nil |

## Findings

| source | as written | input that shows it | evidently intended | confidence | as-written member | corrected member |
|---|---|---|---|---|---|---|
| project/project.go:27 | the name pattern is compiled with the multi-line flag and `MatchString` accepts a match anywhere, so a name passes when any one of its lines fits | `"Bad\nabc"` (7 bytes): the line `abc` fits, so the name is accepted despite the upper-case letters and the line break | the whole name fits the pattern, as the ErrNameInvalid text says: only lower-case letters, digits and hyphens | medium; not executed | Project.MultiLineNameAccepted | Project.ValidateNameWholeString |

`ValidateName` keeps the as-written behaviour, because it is the behaviour of the code. `ValidateNameWholeString` is the whole-string check. `WholeStringAgreesOnOneLine` proves the two agree on every name without a line break.

## Left out

- `Save`, `Load` and `Delete` (project/project.go:76-104): thin wrappers over file creation, JSON encoding and file removal. The file system and `encoding/json` are not part of this model. `LoadDefault` does not exist in the code.
- The real file system behind `os.Stat`. `ValidatePath` takes the stat answer as a `StatResult`, with `os.IsNotExist` already applied: `NotExist`, `OtherErr(e)`, `IsFile` (an existing non-directory) or `IsDir`.
- `filepath.IsAbs` is modelled as on Unix (a leading `/`). Windows volume names and `\` separators are not modelled.
- `config.DefaultDomain` is a parameter of `DefaultDomain`. It is not a global.
- Building and sending the HTTP requests (client/users/users.go:22-31, 59-68): the form encoding, `config.Host`, headers and the `goreq` library. These are network I/O and a foreign library, so the request's outcome is an input (`Outcome`).
- Reading and JSON-decoding the response body. `Body` holds both views of it, the text and the decoded object, and each can fail. The two are given independently: no consistency between them is assumed, because the decoder is foreign code. JSON numbers are `real` (float64 rounding is not modelled).
- `util.ValidationErrorsToString` is not part of this model. It is the parameter `render` of `Create`. `apperror.New` is the plain record constructor `AppError`.
- The console output `fmt.Println` at client/users/users.go:48.
- Go strings that are not valid UTF-8. Names and body texts are sequences of Unicode scalar values. For valid UTF-8, `Contains` and the ASCII-only name pattern give the same answer on characters as Go does on bytes.
- Project.ValidateName: "does not change the Project" holds by construction, since `Project` is an immutable value here. The Go method has a pointer receiver but writes no field.
- tr/tr.go (a static table of display strings) and rise.go (command wiring) are not part of this model.
