/**
 * The guestbook form: one text field checked by `guestBookSchema`, a submit
 * handler that passes the entry to the `saveGuestbookEntry` server action,
 * and an asymmetric toast: the action's text on success, a fixed
 * destructive message on failure.
 */
module GuestbookForm {
  import opened Optional
  import Schema
  import Submission
  import ContactForm
  import opened Outcome

  datatype Values = Values(entry: string)

  datatype Field = Entry

  const EntryMessage := "Message must be atleast 1 character."

  /** `guestBookSchema`: the entry must have at least one code unit. No trimming. */
  function Checks(v: Values): (cs: seq<Schema.FieldCheck<Field>>)
    ensures forall i :: 0 <= i < |cs| ==> cs[i].value == v.entry
    ensures Schema.Checked(cs, Entry)
    ensures forall i, j :: 0 <= i < j < |cs| ==> cs[i].field != cs[j].field
  {
    var cs := [Schema.FieldCheck(Entry, Schema.MinLength(1, EntryMessage), v.entry)];
    assert cs[0].field == Entry;
    cs
  }

  function Validate(v: Values): (r: Schema.Validation<Field>)
    ensures r.Valid? <==> |v.entry| >= 1
    ensures r.Invalid? <==> v.entry == []
    ensures r.Invalid? ==> r.errors == map[Entry := "Message must be atleast 1 character."]
  {
    var checks := Checks(v);
    assert Schema.FirstFailure(checks, 0, s => true) <==> |v.entry| < 1;
    Schema.Validate(checks, s => true)
  }

  /** Blank text is still text: an entry made only of spaces is accepted. */
  lemma WhitespaceEntryAccepted(n: nat)
    requires n >= 1
    ensures Validate(Values(seq(n, _ => ' '))).Valid?
  {
  }

  /** `defaultValues`: the entry is empty. */
  function Defaults(): (v: Values)
    ensures v.entry == ""
  {
    Values("")
  }

  lemma DefaultsInvalid()
    ensures Validate(Defaults()) == Schema.Invalid(map[Entry := "Message must be atleast 1 character."])
  {
  }

  /** The argument `handleOnSubmit` passes to `saveGuestbookEntry`. */
  function Payload(v: Values): (entry: string)
    ensures Values(entry) == v
  {
    v.entry
  }

  const FailureTitle := "Something went wrong."
  const FailureDescription := "Your post was not saved. Please try again."

  /** The toast `handleOnSubmit` emits for the action's answer. */
  function Notify(response: Response): (t: Toast)
    ensures !response.ok ==> t == Toast("Something went wrong.", Some("Your post was not saved. Please try again."), Some(Destructive))
    ensures response.ok ==> t.title == response.data && t.description == None && t.variant == None
  {
    if !response.ok then Toast(FailureTitle, Some(FailureDescription), Some(Destructive))
    else Toast(response.data, None, None)
  }

  /** On failure the server's text is never shown. */
  lemma FailureIgnoresData(a: string, b: string)
    ensures Notify(Response(false, a)) == Notify(Response(false, b))
  {
  }

  /** The toast is destructive exactly when the action failed. */
  lemma DestructiveIffFailed(response: Response)
    ensures Notify(response).variant == Some(Destructive) <==> !response.ok
  {
  }

  /** The two forms agree on success and differ on failure, where the
      contact form echoes the server's text without a description. */
  lemma DiffersFromContactOnFailure(data: string)
    ensures Notify(Response(false, data)) != ContactForm.Notify(Response(false, data))
    ensures Notify(Response(true, data)) == ContactForm.Notify(Response(true, data))
  {
  }

  type Cycle = Submission.Cycle<Values, Field>

  function Mount(): (c: Cycle)
    ensures c.values.entry == "" && !c.submitting && c.dispatched == []
  {
    Submission.Init(Defaults())
  }

  /** The icon inside the submit button. */
  datatype Icon = Spinner | SendArrow

  function ButtonIcon(c: Cycle): (i: Icon)
    ensures i == Spinner <==> Submission.SubmitDisabled(c)
  {
    if c.submitting then Spinner else SendArrow
  }

  /** A press of the submit button: a non-empty entry is sent unchanged,
      an empty one records the error, a pending save ignores the press. */
  function Submit(c: Cycle): (r: Cycle)
    ensures c.submitting ==> r == c
    ensures |r.dispatched| > |c.dispatched| <==> !c.submitting && |c.values.entry| >= 1
    ensures |r.dispatched| > |c.dispatched| ==> Payload(r.dispatched[|c.dispatched|]) == c.values.entry
    ensures c.dispatched <= r.dispatched && |r.dispatched| <= |c.dispatched| + 1
    ensures !c.submitting && c.values.entry == [] ==> r.errors == map[Entry := "Message must be atleast 1 character."]
  {
    Submission.Submit(c, Validate)
  }

  /** The pending save has settled; a successful submit empties the entry. */
  function Complete(c: Cycle, successful: bool): (r: Cycle)
    requires c.submitting
    ensures !r.submitting && ButtonIcon(r) == SendArrow
    ensures successful ==> r.values.entry == ""
  {
    Submission.Settle(c, successful, Defaults())
  }

  /** Whatever the user does after mounting, no empty entry is ever saved. */
  lemma SavedEntriesNonEmpty(events: seq<Submission.Event<Values>>)
    ensures var c := Submission.Run(Mount(), events, Validate, Defaults());
      forall i :: 0 <= i < |c.dispatched| ==> Payload(c.dispatched[i]) != ""
  {
    Submission.MountedFormDispatchesOnlyValid(Defaults(), events, Validate);
  }
}
