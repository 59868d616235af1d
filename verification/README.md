# Verified model of the portfolio site's forms and list joining

This project models the three pieces of real logic in a personal portfolio
site (a Next.js application):

- the **contact form** (`src/app/contact/form.tsx`): a three-field schema
  (`messageBy`, `emailAddress`, `message`), the payload handed to the
  `sendEmail` server action, the toast shown for its answer, and the submit
  cycle: validate, send only valid values, keep the button disabled while
  sending, clear the fields after a successful submit;
- the **guestbook form** (`src/app/guestbook/form.tsx`): the same cycle
  with one field (`entry`) and an asymmetric toast: the server's text on
  success, a fixed destructive message on failure;
- the **"currently focused on learning" sentence** of the About page
  (`src/app/about/components/about-me-section.tsx`): items separated by
  `", "`, with `" and "` before the last one.

Modules:

| file | module | what it holds |
|---|---|---|
| `optional.dfy` | `Optional` | `Option`, for toast keys a call may leave out |
| `outcome.dfy` | `Outcome` | the server action's `{ok, data}` answer and the toast record |
| `schema.dfy` | `Schema` | the two zod string rules used (`min`, `email`), the field-error map (first failing rule per field), `Validate` |
| `submission.dfy` | `Submission` | the submit cycle shared by both forms (`values`, `submitting`, `errors`, the log of `dispatched` values) and event traces over it |
| `contact.dfy` | `ContactForm` | `contactSchema`, defaults, payload, toast, the contact cycle |
| `guestbook.dfy` | `GuestbookForm` | `guestBookSchema`, defaults, payload, toast, button icon, the guestbook cycle |
| `learning_focus.dfy` | `LearningFocus` | the separator rule, the rendered text, an independent English-list `Join`, and lemmas tying them together |

Modelling choices:

- Strings are `seq<char>`, and each `char` is used as an abstract UTF-16
  code unit, so zod's `.min(n)` (a check on JavaScript `.length`) is
  `|s| >= n`. A Dafny `char` is a Unicode scalar value, so a Dafny literal
  with a character outside the Basic Multilingual Plane counts as one unit
  where JavaScript counts two; such literals do not follow the convention.
- The email rule is zod's internal regular expression. It is not modelled:
  every operation that needs it takes a parameter `isEmail: string -> bool`.
- The server actions are oracles. Their `{ok, data}` answer is an input
  (`Outcome.Response`), and `data` is a string.
- react-hook-form is reduced to its observable contract. A press of the
  submit button validates. Invalid values only record field errors. Valid
  values are logged in `dispatched` and the form becomes `submitting`. A
  press while `submitting` does nothing, because the button is disabled.
  When the handler settles, `submitting` ends. If the library's
  `isSubmitSuccessful` flag is set, the reset effect restores the defaults.
  That flag is an input of `Settle`: the model does not derive it from
  `response.ok`.

Behaviour as written:

- The contact message rule rejects fewer than 30 code units, but its message
  says "Message must be atleast 20 characters.". Both are kept verbatim.
- No field is trimmed; a guestbook entry of spaces only is accepted.
- The contact toast carries the server's text and has no variant, for `ok`
  true or false.
- Focus moves to `messageBy` once, on mount. Nothing refocuses after a
  successful submit.
- The reset depends only on the library's `isSubmitSuccessful` flag, and
  both handlers return normally on `ok: false`. The model states the reset
  for a set flag, and that values are untouched for an unset flag. It does
  not state what the flag is after `ok: false`.

## Model

| member | source | states |
|---|---|---|
| Schema.ErrorKeys | src/app/contact/form.tsx:22-32 | a field is in the error map iff one of its rules fails |
| Schema.Errors | src/app/contact/form.tsx:22-32 | every field with a failing rule is in the resolver's error map (the exact key set and messages are `ErrorKeys` and `ErrorMessage`) |
| Schema.ErrorMessage | src/app/contact/form.tsx:22-32 | a failing field's error is the message of its first failing rule |
| Schema.Validate | src/app/contact/form.tsx:22-32 | Valid iff every rule holds; otherwise a non-empty map holding exactly the failing fields, each with its first failing rule's message |
| ContactForm.Validate | src/app/contact/form.tsx:22-32 | Valid iff name length ≥ 2, the address is an email and message length ≥ 30; the error map holds exactly the failing fields, each with its literal message (the message rule's text says 20) |
| ContactForm.Checks | src/app/contact/form.tsx:22-32 | `contactSchema` checks every field of the form exactly once, each against its own value |
| ContactForm.Defaults | src/app/contact/form.tsx:39-43 | every field's default value is `""` |
| ContactForm.RejectsShortInput | src/app/contact/form.tsx:22-32 | "J", "bad", "short" yields all three errors with their exact texts |
| ContactForm.DefaultsInvalid | src/app/contact/form.tsx:39-43 | the all-empty defaults fail at least on `messageBy` and `message` |
| ContactForm.ToPayload | src/app/contact/form.tsx:59-66 | `message` becomes `body`, the other two fields keep their names, `action` is "contact"; the values can be read back from the payload |
| ContactForm.PayloadInjective | src/app/contact/form.tsx:59-66 | two values give the same payload only if they are equal: nothing is dropped |
| ContactForm.Notify | src/app/contact/form.tsx:68-72 | the toast title is `response.data`; neither branch sets a description or a variant |
| ContactForm.NotifyIgnoresOk | src/app/contact/form.tsx:68-72 | the toast for `ok: true` equals the toast for `ok: false` with the same text |
| ContactForm.Mount | src/app/contact/form.tsx:37-44 | the mounted form has all fields `""`, is not submitting and has sent nothing |
| ContactForm.Submit | src/app/contact/form.tsx:77 | a press sends the current values iff not submitting and all three rules hold; otherwise nothing is sent and, when not submitting, the errors are exactly the failing fields, each with its literal message |
| ContactForm.Complete | src/app/contact/form.tsx:48-52 | after settling the form is no longer submitting; a successful submit resets every field to `""` |
| ContactForm.SentPayloadsAreValid | src/app/contact/form.tsx:58-77 | after any trace of events from mount, every payload sent satisfies all three rules and has action "contact" |
| ContactForm.DoublePressSendsOnce | src/app/contact/form.tsx:48-120 | typing valid values, pressing twice and settling successfully sends exactly once and leaves the fields empty |
| Submission.Submit | src/app/contact/form.tsx:77 | a press while disabled changes nothing; otherwise the values are logged as dispatched iff they validate, and invalid values record the validator's errors |
| Submission.Settle | src/app/contact/form.tsx:48-52 | settling re-enables the button and keeps the log; the reset flag restores the defaults and clears errors; without the flag values are untouched |
| Submission.Init | src/app/contact/form.tsx:37-46 | a mounted form holds its default values, has no errors, is not submitting and has sent nothing |
| Submission.Step | src/app/contact/form.tsx:77-120 | typing replaces the values only; only a press on an enabled button with valid values dispatches, and it dispatches the current values; a settlement re-enables the button, and a successful one restores the defaults |
| Submission.Run | src/app/contact/form.tsx:77-120 | over any trace the dispatch log only grows, and a trace ending in a settlement leaves the button enabled |
| Submission.RunDispatchesOnlyValid | src/app/contact/form.tsx:77 | no trace of inputs, presses and settlements hands an invalid value to the handler |
| Submission.MountedFormDispatchesOnlyValid | src/app/guestbook/form.tsx:62 | from a freshly mounted form, every dispatched value is valid |
| Submission.NoDispatchWhileInFlight | src/app/contact/form.tsx:120 | while a submission is pending, no input or press dispatches again and the form stays submitting |
| Submission.DispatchesAtMostPresses | src/app/guestbook/form.tsx:62 | the dispatch log only grows, by at most one entry per press |
| GuestbookForm.Validate | src/app/guestbook/form.tsx:21-23 | Valid iff the entry is non-empty; the empty entry yields exactly "Message must be atleast 1 character." |
| GuestbookForm.Checks | src/app/guestbook/form.tsx:21-23 | `guestBookSchema` checks the entry exactly once, against the entry's value |
| GuestbookForm.Defaults | src/app/guestbook/form.tsx:30-32 | the default entry is `""` |
| GuestbookForm.WhitespaceEntryAccepted | src/app/guestbook/form.tsx:22 | an entry of one or more spaces is valid (no trimming) |
| GuestbookForm.DefaultsInvalid | src/app/guestbook/form.tsx:30-32 | the default entry `""` is invalid with the entry error |
| GuestbookForm.Payload | src/app/guestbook/form.tsx:45 | the entry is sent unchanged |
| GuestbookForm.Notify | src/app/guestbook/form.tsx:44-57 | on failure the fixed title, description and destructive variant; on success the server's text as title, with no description and no variant |
| GuestbookForm.FailureIgnoresData | src/app/guestbook/form.tsx:47-52 | the failure toast does not depend on `response.data` |
| GuestbookForm.DestructiveIffFailed | src/app/guestbook/form.tsx:47-56 | the toast is destructive exactly when `ok` is false |
| GuestbookForm.DiffersFromContactOnFailure | src/app/guestbook/form.tsx:47-56 | both forms show the same toast on success and different toasts on failure |
| GuestbookForm.Mount | src/app/guestbook/form.tsx:28-33 | the mounted form has an empty entry, is not submitting and has sent nothing |
| GuestbookForm.ButtonIcon | src/app/guestbook/form.tsx:81-87 | the spinner shows exactly while the button is disabled |
| GuestbookForm.Submit | src/app/guestbook/form.tsx:62 | a press sends the entry unchanged iff it is non-empty and nothing is pending; an empty entry records the entry error |
| GuestbookForm.Complete | src/app/guestbook/form.tsx:38-42 | after settling the send icon is back; a successful submit empties the entry |
| GuestbookForm.SavedEntriesNonEmpty | src/app/guestbook/form.tsx:44-62 | after any trace from mount, no empty entry was ever sent |
| LearningFocus.Separator | src/app/about/components/about-me-section.tsx:44-45 | the separator is one of `""`, `", "`, `" and "`; it is empty exactly after the last item and `" and "` exactly after index n-2 |
| LearningFocus.Fragments | src/app/about/components/about-me-section.tsx:41-47 | one fragment per item |
| LearningFocus.Render | src/app/about/components/about-me-section.tsx:41-47 | the rendered sentence is the English list of the items |
| LearningFocus.FragmentShape | src/app/about/components/about-me-section.tsx:43-45 | each fragment starts with its item; the last has no separator, index n-2 has `" and "`, every earlier one `", "` |
| LearningFocus.SuffixRendersAsJoin | src/app/about/components/about-me-section.tsx:41-47 | every suffix of the rendered fragments reads as the English list of the same suffix of items |
| LearningFocus.RenderIsJoin | src/app/about/components/about-me-section.tsx:41-47 | the rendered sentence equals the independently defined English list `Join` |
| LearningFocus.SmallLists | src/app/about/components/about-me-section.tsx:41-47 | zero, one, two and three items render as "", "a", "a and b", "a, b and c" |
| LearningFocus.JoinLength | src/app/about/components/about-me-section.tsx:41-47 | the text's length is the items' total length plus the separators' total length (0, 5, or 5+2(n-2) for n items) |
| LearningFocus.ItemPosition | src/app/about/components/about-me-section.tsx:41-47 | item `i` sits in the text right after the earlier items and their separators, and is followed by the separator of its index |
| LearningFocus.FragmentsItemPosition | src/app/about/components/about-me-section.tsx:41-47 | the same placement, stated on the concatenated fragments the map produces |
| LearningFocus.JoinOrder | src/app/about/components/about-me-section.tsx:41-47 | the text starts with the first item and ends with the last |

## Left out

- react-hook-form internals: how `isSubmitSuccessful` is computed, re-validation on change after a first submit, focusing the first invalid field, and `formState` bookkeeping. Only the contract above is modelled.
- The email format: zod's regular expression is not part of this model. It is the parameter `isEmail`.
- The server actions `sendEmail` and `saveGuestbookEntry`: external I/O. Their answer is an input, and an answer whose `data` is `undefined` is not modelled.
- ContactForm.Notify: a rejected `sendEmail` promise makes `handleOnSubmit` throw before its toast call, so no toast is shown. That path is not modelled: `Notify` covers only resolved answers. The no-reset half of it is the `Resolve(false)` event.
- GuestbookForm.Notify: a rejected `saveGuestbookEntry` promise makes `handleOnSubmit` throw before either toast call, so no toast is shown. That path is not modelled: `Notify` covers only resolved answers. The no-reset half of it is the `Resolve(false)` event.
- Whether values survive an `ok: false` answer: this depends on the library's `isSubmitSuccessful` flag, which is an input here.
- Toast rendering and the process-wide toast queue, JSX markup, styling, icons other than the spinner/send choice, and the focus on `messageBy` at mount: UI concerns with no logic to verify.
- The other pages (`src/config/config.ts`, `src/app/projects/page.tsx`, `src/components/section/repositories.tsx`, the blog page): constant data and list rendering over a remote fetcher.
- React's `key={item}` warning for duplicate items is not modelled; duplicates render like any other item.
