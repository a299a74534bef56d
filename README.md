# Create-request URL form, modelled in Dafny

This model covers the "Create New Request" form component. The form keeps a list of URL rows and a parallel list of error messages. Each URL is checked against an anchored HTTP(S) pattern. Four handlers act on the two lists: edit a row, add a row, remove the last row, and submit.

The model has three modules:

- `UrlPattern` (`url_pattern.dfy`) covers the pattern `^(https?:\/\/)([\w.-]+)([\w.,@?^=%&:;#~+\/-]*)?$`. It has:
  - ASCII character classes (`\w` is `[A-Za-z0-9_]`, because the regular expression has no `u` flag);
  - the language the pattern denotes, `InUrlLanguage`: some split into a scheme, one or more host characters, and zero or more path characters;
  - a deterministic hand-written matcher, `TestUrlPattern`;
  - a proof that the matcher accepts exactly that language.
- `UrlValidator` (`url_validator.dfy`) covers the message computation of `validateUrls`: one message per URL, index by index.
- `CreateRequest` (`create_request_form.dfy`) covers the component's state. Class `Form` has the two fields `urlList` and `errorMessages` and one method per handler. Each handler is a single atomic step: it reads the state from before the call, as a React closure does, and writes both fields. `Form.Valid()` is the state invariant every handler keeps:
  - at least one row;
  - as many messages as rows, or one fewer;
  - one fewer only while every row and every message is still empty, which only happens before any edit, removal or submit;
  - every message on show is either `""` or the correct message for its row.

  A few client methods run the form through short event sequences: mount then submit; add then remove; add, type `ftp://bad` into the second row, then submit; type a good URL then submit twice; type a good URL, add a row, then submit.

The submit handler's comment on source line 52 ("Check if there are any error messages before submitting") says the gate should test the messages that `validateUrls` has just computed on line 51. Line 53 instead tests the `errorMessages` value captured when the handler was created, i.e. the messages from before the call (see Findings). `Form.HandleSubmit` models the code as written. `Form.HandleSubmitIntended` models the behaviour the comment describes.

## Model

| member | source | states |
|---|---|---|
| `UrlPattern.SchemeLength` | src/components/CreateRequestMainComponent.tsx:37 | The scheme group `https?:\/\/` matches at most one prefix of any string, of length 7 or 8, and that prefix is `http://` or `https://` in lower case. |
| `UrlPattern.HostCharIsPathChar` | src/components/CreateRequestMainComponent.tsx:37 | Every character of the host class `[\w.-]` is in the path class. |
| `UrlPattern.UrlPatternDecomposition` | src/components/CreateRequestMainComponent.tsx:36-42 | A string matches the anchored pattern (some scheme/host/path split exists) iff it is `http://` or `https://`, then one host character, then only path characters. So backtracking across the host/path boundary never changes the verdict. |
| `UrlPattern.EmptyNotInUrlLanguage` | src/components/CreateRequestMainComponent.tsx:37 | The empty string does not match the pattern. |
| `UrlPattern.AcceptedExamples` | src/components/CreateRequestMainComponent.tsx:36-42 | `https://example.com/video1` and `http://a` match. |
| `UrlPattern.RejectsWithoutLowerH` | src/components/CreateRequestMainComponent.tsx:36-42 | A non-empty string whose first character is not a lower-case `h` does not match: it cannot start with either scheme. |
| `UrlPattern.RejectedExamples` | src/components/CreateRequestMainComponent.tsx:36-42 | `example.com` (no scheme), `HTTP://example.com` (the scheme is case-sensitive) and `ftp://bad` (another scheme) do not match. |
| `UrlPattern.RejectsBareScheme` | src/components/CreateRequestMainComponent.tsx:36-42 | `http://` and `https://` do not match (the host needs one character or more). |
| `UrlPattern.RejectsSpace` | src/components/CreateRequestMainComponent.tsx:36-42 | Every string with a space at any position fails to match, because a space is in neither the scheme, the host class nor the path class. |
| `UrlValidator.UrlMessage` | src/components/CreateRequestMainComponent.tsx:34-46 | Each message is one of `""`, `"URL cannot be empty."` and `"Please enter a valid URL."`. The second comes exactly for the empty string. `""` comes exactly for a non-empty string in the pattern's language. The third comes exactly for a non-empty string outside it. |
| `UrlValidator.ValidationMessages` | src/components/CreateRequestMainComponent.tsx:33-46 | The message list has the length of the URL list, and entry `i` is the message for `urls[i]`. |
| `UrlValidator.MessageDependsOnlyOnItsUrl` | src/components/CreateRequestMainComponent.tsx:34-46 | Two URL lists that agree at index `i` get the same message at index `i`: there is no cross-entry rule. |
| `UrlValidator.ValidationMessagesAppend` | src/components/CreateRequestMainComponent.tsx:34-46 | Validating `a + b` gives the messages of `a` followed by those of `b`. |
| `UrlValidator.NoErrorsIffAllValid` | src/components/CreateRequestMainComponent.tsx:39-53 | The messages of a list are all `""` (the `every` test of the gate) iff every URL of the list is non-empty and matches the pattern. |
| `UrlValidator.ValidationScenarios` | src/components/CreateRequestMainComponent.tsx:33-46 | `["https://example.com/video1"]` validates to `[""]`. `["", "ftp://bad"]` validates to `["URL cannot be empty.", "Please enter a valid URL."]`. |
| `CreateRequest.Form.constructor` | src/components/CreateRequestMainComponent.tsx:11-12 | On mount the form has one blank row and no messages, and the state invariant holds. |
| `CreateRequest.Form.ValidateUrls` | src/components/CreateRequestMainComponent.tsx:33-48 | Replaces the messages by the validation of the given list and leaves the URL list unchanged. |
| `CreateRequest.Form.HandleUrlChange` | src/components/CreateRequestMainComponent.tsx:14-19 | For an existing row `index`: sets that row to the new string and leaves every other row unchanged. The messages become the validation of the updated list. The invariant is kept. |
| `CreateRequest.Form.HandleAddUrl` | src/components/CreateRequestMainComponent.tsx:21-24 | Appends exactly one `""` row and one `""` message, keeps all earlier entries of both, and keeps the invariant. |
| `CreateRequest.Form.HandleRemoveUrl` | src/components/CreateRequestMainComponent.tsx:26-31 | With more than one row: removes exactly the last row and keeps the rest. The messages become all `""`, one per remaining row, without re-validation. The invariant is kept. |
| `CreateRequest.Form.HandleSubmit` | src/components/CreateRequestMainComponent.tsx:50-57 | The URL list never changes. The list is handed on (logged) exactly when the messages from *before* the call are all `""`. Afterwards the messages are the validation of the URL list. The invariant is kept. |
| `CreateRequest.Form.HandleSubmitIntended` | src/components/CreateRequestMainComponent.tsx:50-57 | The corrected submit: the list is handed on exactly when every URL in it is accepted. Otherwise as `HandleSubmit`. |
| `CreateRequest.SubmitRightAfterMount` | src/components/CreateRequestMainComponent.tsx:11-57 | Mount and then submit: the blank list `[""]` is handed on, while the messages now shown are `["URL cannot be empty."]`. |
| `CreateRequest.SubmitIntendedRightAfterMount` | src/components/CreateRequestMainComponent.tsx:11-57 | The same sequence with the corrected gate hands nothing on. |
| `CreateRequest.AddThenRemove` | src/components/CreateRequestMainComponent.tsx:11-31 | Mount, add, remove: one blank row with one `""` message. |
| `CreateRequest.TwoBadRows` | src/components/CreateRequestMainComponent.tsx:11-57 | Mount, add, type `ftp://bad` into row 2: the messages are `["URL cannot be empty.", "Please enter a valid URL."]`, and the next submit hands nothing on. |
| `CreateRequest.OneGoodRow` | src/components/CreateRequestMainComponent.tsx:11-57 | Type `https://example.com/video1` into the only row, then submit twice: both submits hand on that one-row list. |
| `CreateRequest.AddAfterGoodRow` | src/components/CreateRequestMainComponent.tsx:11-57 | A good first row, then a new blank row: the submit hands on a list that contains an empty URL. |

## Left out

- Rendering (elements, styling, icons, placeholders, and the conditional display of the delete icon and of the error text) is presentation only. From it the model keeps just the rule that removal is offered only while there is more than one row.
- The close button has no handler, so it has no behaviour to model.
- The log call in the submit handler is output. `HandleSubmit` returns `Submitted(urls)` where the component logs the list, and `Suppressed` where it does nothing.
- React's state scheduling and re-rendering are approximated by the snapshot rule: each handler reads the state from before the call and writes its new state in one step. Interleavings of several events within one render are not modelled.
- JavaScript `RegExp` in general is not modelled; this one pattern is written out over character classes. JavaScript strings are UTF-16 code units and Dafny strings are sequences of Unicode characters. The verdict does not depend on this, because every character outside ASCII is in neither class.
- `CreateRequest.Form.HandleUrlChange`: requires an existing row index. The component only passes indices of existing rows. Assigning past the end of a JavaScript array would grow it instead.
- `CreateRequest.Form.HandleRemoveUrl`: requires more than one row, because that is the only case in which the component offers the remove button. Popping the only row would leave an empty list.

## Findings

| source | as written | input that shows it | evidently intended | confidence | as-written member | corrected member |
|---|---|---|---|---|---|---|
| src/components/CreateRequestMainComponent.tsx:50-57 | The gate `errorMessages.every(...)` reads the messages captured before `validateUrls(urlList)` ran, so it ignores the validation just done. | Mount the form and submit at once: the gate tests `[]` and logs `[""]`, although that validation yields `["URL cannot be empty."]`. Or: type a good URL, add a row, submit: a list with an empty URL is logged. | Submit only when the messages just computed are all empty, i.e. when every URL is accepted (as the comment on line 52 says). | high; not executed | `CreateRequest.Form.HandleSubmit`, shown by `CreateRequest.SubmitRightAfterMount` and `CreateRequest.AddAfterGoodRow` | `CreateRequest.Form.HandleSubmitIntended`, shown by `CreateRequest.SubmitIntendedRightAfterMount` |
