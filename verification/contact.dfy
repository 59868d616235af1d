/**
 * The contact form: three text fields checked by `contactSchema`, a submit
 * handler that sends them to the `sendEmail` server action, and a toast that
 * shows whatever text the action answered with.
 */
module ContactForm {
  import opened Optional
  import Schema
  import Submission
  import opened Outcome

  datatype Values = Values(messageBy: string, emailAddress: string, message: string)

  datatype Field = MessageBy | EmailAddress | Message

  /** The messages of `contactSchema`, verbatim. The message rule's threshold
      is 30 code units although its text speaks of 20. */
  const NameMessage := "Name must be atleast 2 characters."
  const EmailMessage := "Email must be a valid email address."
  const BodyMessage := "Message must be atleast 20 characters."

  /** The value of the input registered under `f`. */
  function ValueOf(v: Values, f: Field): string {
    match f
    case MessageBy => v.messageBy
    case EmailAddress => v.emailAddress
    case Message => v.message
  }

  /** `contactSchema`, one rule per field, in declaration order: every field
      is checked exactly once, against its own value. */
  function Checks(v: Values): (cs: seq<Schema.FieldCheck<Field>>)
    ensures forall f: Field :: Schema.Checked(cs, f)
    ensures forall i, j :: 0 <= i < j < |cs| ==> cs[i].field != cs[j].field
    ensures forall i :: 0 <= i < |cs| ==> cs[i].value == ValueOf(v, cs[i].field)
  {
    var cs :=
      [ Schema.FieldCheck(MessageBy, Schema.MinLength(2, NameMessage), v.messageBy),
        Schema.FieldCheck(EmailAddress, Schema.Email(EmailMessage), v.emailAddress),
        Schema.FieldCheck(Message, Schema.MinLength(30, BodyMessage), v.message) ];
    assert forall f: Field :: Schema.Checked(cs, f) by {
      forall f: Field ensures Schema.Checked(cs, f) {
        var i := match f case MessageBy => 0 case EmailAddress => 1 case Message => 2;
        assert cs[i].field == f;
      }
    }
    cs
  }

  /** The resolver's verdict on the current values. */
  function Validate(v: Values, isEmail: string -> bool): (r: Schema.Validation<Field>)
    ensures r.Valid? <==> |v.messageBy| >= 2 && isEmail(v.emailAddress) && |v.message| >= 30
    ensures r.Invalid? ==>
      && (MessageBy in r.errors <==> |v.messageBy| < 2)
      && (EmailAddress in r.errors <==> !isEmail(v.emailAddress))
      && (Message in r.errors <==> |v.message| < 30)
    ensures r.Invalid? && MessageBy in r.errors ==> r.errors[MessageBy] == "Name must be atleast 2 characters."
    ensures r.Invalid? && EmailAddress in r.errors ==> r.errors[EmailAddress] == "Email must be a valid email address."
    ensures r.Invalid? && Message in r.errors ==> r.errors[Message] == "Message must be atleast 20 characters."
  {
    var checks := Checks(v);
    assert Schema.FirstFailure(checks, 0, isEmail) <==> |v.messageBy| < 2;
    assert Schema.FirstFailure(checks, 1, isEmail) <==> !isEmail(v.emailAddress);
    assert Schema.FirstFailure(checks, 2, isEmail) <==> |v.message| < 30;
    Schema.Validate(checks, isEmail)
  }

  /** `defaultValues`: every field empty. */
  function Defaults(): (v: Values)
    ensures forall f: Field :: ValueOf(v, f) == ""
  {
    Values("", "", "")
  }

  /** The freshly mounted form fails on the name and the message, whatever
      the email rule says of the empty string. */
  lemma DefaultsInvalid(isEmail: string -> bool)
    ensures Validate(Defaults(), isEmail).Invalid?
    ensures MessageBy in Validate(Defaults(), isEmail).errors
    ensures Message in Validate(Defaults(), isEmail).errors
  {
  }

  /** The record `handleOnSubmit` passes to `sendEmail`. */
  datatype Payload = Payload(emailAddress: string, body: string, messageBy: string, action: string)

  function ToPayload(v: Values): (p: Payload)
    ensures p.action == "contact"
    ensures Values(p.messageBy, p.emailAddress, p.body) == v
  {
    Payload(v.emailAddress, v.message, v.messageBy, "contact")
  }

  /** Nothing of the form is lost on the way out: distinct values give distinct payloads. */
  lemma PayloadInjective(a: Values, b: Values)
    ensures ToPayload(a) == ToPayload(b) <==> a == b
  {
    if ToPayload(a) == ToPayload(b) {
      assert Values(ToPayload(a).messageBy, ToPayload(a).emailAddress, ToPayload(a).body) == a;
    }
  }

  /** The toast `handleOnSubmit` emits for the action's answer. Both branches
      show the answer's text and set neither a description nor a variant. */
  function Notify(response: Response): (t: Toast)
    ensures t.title == response.data
    ensures t.description == None && t.variant == None
  {
    if !response.ok then Toast(response.data, None, None)
    else Toast(response.data, None, None)
  }

  /** The toast does not tell success from failure. */
  lemma NotifyIgnoresOk(data: string)
    ensures Notify(Response(true, data)) == Notify(Response(false, data))
  {
  }

  type Cycle = Submission.Cycle<Values, Field>

  /** The form as mounted. */
  function Mount(): (c: Cycle)
    ensures c.values == Values("", "", "") && !c.submitting && c.dispatched == []
  {
    Submission.Init(Defaults())
  }

  /** A press of "Send": values reach `sendEmail` only when all three rules
      hold, and never while a previous send is pending. */
  function Submit(c: Cycle, isEmail: string -> bool): (r: Cycle)
    ensures c.submitting ==> r == c
    ensures r.dispatched == c.dispatched || r.dispatched == c.dispatched + [c.values]
    ensures r.dispatched != c.dispatched <==>
      !c.submitting && |c.values.messageBy| >= 2 && isEmail(c.values.emailAddress) && |c.values.message| >= 30
    ensures !c.submitting ==>
      && (MessageBy in r.errors <==> |c.values.messageBy| < 2)
      && (EmailAddress in r.errors <==> !isEmail(c.values.emailAddress))
      && (Message in r.errors <==> |c.values.message| < 30)
    ensures !c.submitting && MessageBy in r.errors ==> r.errors[MessageBy] == "Name must be atleast 2 characters."
    ensures !c.submitting && EmailAddress in r.errors ==> r.errors[EmailAddress] == "Email must be a valid email address."
    ensures !c.submitting && Message in r.errors ==> r.errors[Message] == "Message must be atleast 20 characters."
  {
    Submission.Submit(c, v => Validate(v, isEmail))
  }

  /** The pending send has settled; a successful submit clears every field. */
  function Complete(c: Cycle, successful: bool): (r: Cycle)
    requires c.submitting
    ensures !r.submitting && r.dispatched == c.dispatched
    ensures successful ==> r.values == Values("", "", "")
  {
    Submission.Settle(c, successful, Defaults())
  }

  /** Whatever the user does after mounting, every payload sent passes `contactSchema`. */
  lemma SentPayloadsAreValid(events: seq<Submission.Event<Values>>, isEmail: string -> bool)
    ensures var c := Submission.Run(Mount(), events, v => Validate(v, isEmail), Defaults());
      forall i :: 0 <= i < |c.dispatched| ==>
        var p := ToPayload(c.dispatched[i]);
        |p.messageBy| >= 2 && isEmail(p.emailAddress) && |p.body| >= 30 && p.action == "contact"
  {
    Submission.MountedFormDispatchesOnlyValid(Defaults(), events, v => Validate(v, isEmail));
  }

  /** A short name, a malformed address and a short message give all three errors and no send. */
  lemma RejectsShortInput(isEmail: string -> bool)
    requires !isEmail("bad")
    ensures Validate(Values("J", "bad", "short"), isEmail) ==
      Schema.Invalid(map[MessageBy := "Name must be atleast 2 characters.",
                         EmailAddress := "Email must be a valid email address.",
                         Message := "Message must be atleast 20 characters."])
  {
    var r := Validate(Values("J", "bad", "short"), isEmail);
    assert r.errors.Keys == {MessageBy, EmailAddress, Message};
  }

  /** Typing valid values and pressing "Send" twice before the answer arrives
      sends them once; a successful settle then clears the form. */
  lemma DoublePressSendsOnce(v: Values, isEmail: string -> bool)
    requires |v.messageBy| >= 2 && isEmail(v.emailAddress) && |v.message| >= 30
    ensures var c := Submission.Run(Mount(),
        [Submission.Input(v), Submission.Press, Submission.Press, Submission.Resolve(true)],
        u => Validate(u, isEmail), Defaults());
      c.dispatched == [v] && c.values == Values("", "", "") && !c.submitting
  {
    var validate := u => Validate(u, isEmail);
    var events := [Submission.Input(v), Submission.Press, Submission.Press, Submission.Resolve(true)];
    var c0 := Mount();
    var c1 := Submission.Step(c0, events[0], validate, Defaults());
    assert c1.values == v && !c1.submitting && c1.dispatched == [];
    var c2 := Submission.Step(c1, events[1], validate, Defaults());
    assert c2.submitting && c2.dispatched == [v];
    var c3 := Submission.Step(c2, events[2], validate, Defaults());
    assert c3 == c2;
    var c4 := Submission.Step(c3, events[3], validate, Defaults());
    assert c4.values == Defaults() && !c4.submitting && c4.dispatched == [v];
    assert Submission.Run(c4, events[4..], validate, Defaults()) == c4;
    assert Submission.Run(c3, events[3..], validate, Defaults()) == c4 by { assert events[3..][1..] == events[4..]; }
    assert Submission.Run(c2, events[2..], validate, Defaults()) == c4 by { assert events[2..][1..] == events[3..]; }
    assert Submission.Run(c1, events[1..], validate, Defaults()) == c4 by { assert events[1..][1..] == events[2..]; }
  }
}
