/**
 * The submit cycle both forms run through `form.handleSubmit(handler)`:
 * pressing the submit button validates the current values; invalid values
 * only record their field errors, valid ones are handed to the handler and
 * the form stays `submitting` until the handler settles. While submitting,
 * the submit button is disabled, so a further press does nothing. Once the
 * handler settles, the effect watching `isSubmitSuccessful` resets the form.
 *
 * `dispatched` is the log of the values handed to the handler, oldest first.
 */
module Submission {
  import Schema

  datatype Cycle<V, F> = Cycle(values: V, submitting: bool, errors: map<F, string>, dispatched: seq<V>)

  /** A freshly mounted form: its default values, nothing submitted. */
  function Init<V, F>(defaults: V): (c: Cycle<V, F>)
    ensures c.values == defaults && !SubmitDisabled(c) && |c.dispatched| == 0 && |c.errors| == 0
  {
    Cycle(defaults, false, map[], [])
  }

  /** The submit button's `disabled={isSubmitting}`. */
  predicate SubmitDisabled<V, F>(c: Cycle<V, F>) {
    c.submitting
  }

  /** A press of the submit button. */
  function Submit<V, F>(c: Cycle<V, F>, validate: V -> Schema.Validation<F>): (r: Cycle<V, F>)
    ensures SubmitDisabled(c) ==> r == c
    ensures |r.dispatched| > |c.dispatched| <==> !SubmitDisabled(c) && validate(c.values).Valid?
    ensures r.dispatched == c.dispatched || r.dispatched == c.dispatched + [c.values]
    ensures r.values == c.values
    ensures r.submitting <==> SubmitDisabled(c) || validate(c.values).Valid?
    ensures !SubmitDisabled(c) && validate(c.values).Invalid? ==> r.errors == validate(c.values).errors
  {
    if c.submitting then c
    else
      match validate(c.values)
      case Valid => c.(submitting := true, errors := map[], dispatched := c.dispatched + [c.values])
      case Invalid(errors) => c.(errors := errors)
  }

  /** The handler has settled. `successful` is the library's `isSubmitSuccessful`
      flag, which decides whether the reset effect fires. */
  function Settle<V, F>(c: Cycle<V, F>, successful: bool, defaults: V): (r: Cycle<V, F>)
    requires SubmitDisabled(c)
    ensures !SubmitDisabled(r)
    ensures r.dispatched == c.dispatched
    ensures successful ==> r.values == defaults && r.errors == map[]
    ensures !successful ==> r.values == c.values
  {
    if successful then Cycle(defaults, false, map[], c.dispatched)
    else c.(submitting := false)
  }

  /** What can happen to a mounted form: the user types, presses submit, or
      the pending handler settles. */
  datatype Event<V> = Input(values: V) | Press | Resolve(successful: bool)

  function Step<V, F>(c: Cycle<V, F>, e: Event<V>, validate: V -> Schema.Validation<F>, defaults: V): (r: Cycle<V, F>)
    ensures e.Input? ==> r.values == e.values && r.submitting == c.submitting && r.dispatched == c.dispatched
    ensures |r.dispatched| > |c.dispatched| <==> e.Press? && !SubmitDisabled(c) && validate(c.values).Valid?
    ensures r.dispatched == c.dispatched || r.dispatched == c.dispatched + [c.values]
    ensures e.Resolve? ==> !SubmitDisabled(r)
    ensures e.Resolve? && e.successful && SubmitDisabled(c) ==> r.values == defaults
  {
    match e
    case Input(v) => c.(values := v)
    case Press => Submit(c, validate)
    case Resolve(s) => if c.submitting then Settle(c, s, defaults) else c
  }

  function Run<V, F>(c: Cycle<V, F>, events: seq<Event<V>>, validate: V -> Schema.Validation<F>, defaults: V): (r: Cycle<V, F>)
    ensures c.dispatched <= r.dispatched
    ensures |events| > 0 && events[|events| - 1].Resolve? ==> !SubmitDisabled(r)
    decreases |events|
  {
    if |events| == 0 then c
    else Run(Step(c, events[0], validate, defaults), events[1..], validate, defaults)
  }

  /** Every value ever handed to the handler passed validation. */
  ghost predicate AllDispatchedValid<V, F>(c: Cycle<V, F>, validate: V -> Schema.Validation<F>) {
    forall i :: 0 <= i < |c.dispatched| ==> validate(c.dispatched[i]).Valid?
  }

  /** No sequence of events hands an invalid value to the handler. */
  lemma {:induction false} RunDispatchesOnlyValid<V, F>(c: Cycle<V, F>, events: seq<Event<V>>, validate: V -> Schema.Validation<F>, defaults: V)
    requires AllDispatchedValid(c, validate)
    ensures AllDispatchedValid(Run(c, events, validate, defaults), validate)
    decreases |events|
  {
    if |events| > 0 {
      var next := Step(c, events[0], validate, defaults);
      assert AllDispatchedValid(next, validate);
      RunDispatchesOnlyValid(next, events[1..], validate, defaults);
    }
  }

  /** Whatever happens after mounting, only valid values reach the handler. */
  lemma MountedFormDispatchesOnlyValid<V, F>(defaults: V, events: seq<Event<V>>, validate: V -> Schema.Validation<F>)
    ensures AllDispatchedValid(Run(Init(defaults), events, validate, defaults), validate)
  {
    RunDispatchesOnlyValid(Init(defaults), events, validate, defaults);
  }

  /** While a submission is in flight, no input and no press dispatches again:
      the form stays submitting with the same log until the handler settles. */
  lemma {:induction false} NoDispatchWhileInFlight<V, F>(c: Cycle<V, F>, events: seq<Event<V>>, validate: V -> Schema.Validation<F>, defaults: V)
    requires c.submitting
    requires forall i :: 0 <= i < |events| ==> !events[i].Resolve?
    ensures Run(c, events, validate, defaults).submitting
    ensures Run(c, events, validate, defaults).dispatched == c.dispatched
    decreases |events|
  {
    if |events| > 0 {
      var next := Step(c, events[0], validate, defaults);
      assert forall i :: 0 <= i < |events[1..]| ==> events[1..][i] == events[i + 1];
      NoDispatchWhileInFlight(next, events[1..], validate, defaults);
    }
  }

  /** Number of presses in a trace. */
  function Presses<V>(events: seq<Event<V>>): nat {
    if |events| == 0 then 0
    else (if events[0].Press? then 1 else 0) + Presses(events[1..])
  }

  /** Each dispatch is caused by a press: the log grows by at most one entry per press. */
  lemma {:induction false} DispatchesAtMostPresses<V, F>(c: Cycle<V, F>, events: seq<Event<V>>, validate: V -> Schema.Validation<F>, defaults: V)
    ensures |Run(c, events, validate, defaults).dispatched| <= |c.dispatched| + Presses(events)
    ensures c.dispatched <= Run(c, events, validate, defaults).dispatched
    decreases |events|
  {
    if |events| > 0 {
      var next := Step(c, events[0], validate, defaults);
      DispatchesAtMostPresses(next, events[1..], validate, defaults);
    }
  }
}
