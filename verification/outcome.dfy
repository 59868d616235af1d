/**
 * The values that cross the boundary of a form: the `{ok, data}` record a
 * server action resolves to, and the toast a submit handler emits.
 */
module Outcome {
  import opened Optional

  /** What `sendEmail` / `saveGuestbookEntry` resolve to. A not-ok result is
      an ordinary value, never an exception. */
  datatype Response = Response(ok: bool, data: string)

  /** The toast variants of the UI kit; an unset variant renders as the default one. */
  datatype Variant = Default | Destructive

  /** The argument of a `toast({...})` call: a title, and an optional
      description and variant (None when the call leaves the key out). */
  datatype Toast = Toast(title: string, description: Option<string>, variant: Option<Variant>)
}
