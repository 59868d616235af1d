/**
 * The string rules of a zod object schema and the error map a form resolver
 * builds from them: every field that breaks a rule is reported with the
 * message of the FIRST rule it breaks; a field that breaks none is absent.
 */
module Schema {

  /** One rule on a string field: `z.string().min(min, {message})` or
      `z.string().email({message})`. Lengths are JavaScript `.length`, i.e.
      the number of UTF-16 code units, which is `|value|` over `seq<char>`. */
  datatype Rule =
    | MinLength(min: nat, message: string)
    | Email(message: string)

  /** A rule applied to the current value of one field. */
  datatype FieldCheck<F> = FieldCheck(field: F, rule: Rule, value: string)

  /** The outcome of validating a whole form: no error at all, or the
      errors of the failing fields. The form's values pass through unchanged
      (no rule of either schema transforms its input). */
  datatype Validation<F> = Valid | Invalid(errors: map<F, string>)

  /** Whether `value` satisfies `rule`. The email format is zod's own regular
      expression, which is not part of this model: it is the parameter `isEmail`. */
  predicate Holds(rule: Rule, value: string, isEmail: string -> bool) {
    match rule
    case MinLength(min, _) => |value| >= min
    case Email(_) => isEmail(value)
  }

  predicate Passes<F>(c: FieldCheck<F>, isEmail: string -> bool) {
    Holds(c.rule, c.value, isEmail)
  }

  /** Some rule of `checks` applies to field `f`. */
  predicate Checked<F(==)>(checks: seq<FieldCheck<F>>, f: F) {
    exists i :: 0 <= i < |checks| && checks[i].field == f
  }

  /** Check `i` is the first failing check of its field. */
  predicate FirstFailure<F(==)>(checks: seq<FieldCheck<F>>, i: nat, isEmail: string -> bool)
    requires i < |checks|
  {
    && !Passes(checks[i], isEmail)
    && forall j :: 0 <= j < i && checks[j].field == checks[i].field ==> Passes(checks[j], isEmail)
  }

  /** The field errors of `checks`, evaluated in declaration order: an
      earlier failure of a field overrides a later one. */
  function Errors<F(==)>(checks: seq<FieldCheck<F>>, isEmail: string -> bool): (r: map<F, string>)
    ensures forall i :: 0 <= i < |checks| && !Passes(checks[i], isEmail) ==> checks[i].field in r
  {
    if |checks| == 0 then map[]
    else
      var rest := Errors(checks[1..], isEmail);
      assert forall i :: 1 <= i < |checks| ==> checks[i] == checks[1..][i - 1];
      if Passes(checks[0], isEmail) then rest
      else rest[checks[0].field := checks[0].rule.message]
  }

  /** Some check of field `f` fails. */
  predicate SomeFailure<F(==)>(checks: seq<FieldCheck<F>>, f: F, isEmail: string -> bool) {
    exists i :: 0 <= i < |checks| && checks[i].field == f && !Passes(checks[i], isEmail)
  }

  /** A field has an error exactly when one of its checks fails. */
  lemma {:induction false} ErrorKeys<F>(checks: seq<FieldCheck<F>>, isEmail: string -> bool, f: F)
    ensures f in Errors(checks, isEmail) <==> SomeFailure(checks, f, isEmail)
    decreases |checks|
  {
    if |checks| > 0 {
      var tail := checks[1..];
      ErrorKeys(tail, isEmail, f);
      if SomeFailure(tail, f, isEmail) {
        var i :| 0 <= i < |tail| && tail[i].field == f && !Passes(tail[i], isEmail);
        assert checks[i + 1] == tail[i];
      }
      if SomeFailure(checks, f, isEmail) && !(checks[0].field == f && !Passes(checks[0], isEmail)) {
        var i :| 0 <= i < |checks| && checks[i].field == f && !Passes(checks[i], isEmail);
        assert i > 0 && tail[i - 1] == checks[i];
      }
    }
  }

  /** The error of a field is the message of its first failing check. */
  lemma {:induction false} ErrorMessage<F>(checks: seq<FieldCheck<F>>, isEmail: string -> bool, i: nat)
    requires i < |checks| && FirstFailure(checks, i, isEmail)
    ensures checks[i].field in Errors(checks, isEmail)
    ensures Errors(checks, isEmail)[checks[i].field] == checks[i].rule.message
    decreases |checks|
  {
    var tail := checks[1..];
    if i > 0 {
      assert tail[i - 1] == checks[i];
      forall j | 0 <= j < i - 1 && tail[j].field == tail[i - 1].field
        ensures Passes(tail[j], isEmail)
      {
        assert tail[j] == checks[j + 1];
      }
      ErrorMessage(tail, isEmail, i - 1);
      assert checks[0].field == checks[i].field ==> Passes(checks[0], isEmail);
    }
  }

  /** Validation of a whole form: Valid exactly when every check passes. */
  function Validate<F(==,!new)>(checks: seq<FieldCheck<F>>, isEmail: string -> bool): (r: Validation<F>)
    ensures r.Valid? <==> forall i :: 0 <= i < |checks| ==> Passes(checks[i], isEmail)
    ensures r.Invalid? ==> r.errors != map[]
    ensures r.Invalid? ==> forall f :: f in r.errors <==> SomeFailure(checks, f, isEmail)
    ensures r.Invalid? ==> forall i :: 0 <= i < |checks| && FirstFailure(checks, i, isEmail) ==>
      checks[i].field in r.errors && r.errors[checks[i].field] == checks[i].rule.message
  {
    var errors := Errors(checks, isEmail);
    if errors == map[] then
      assert forall i :: 0 <= i < |checks| ==> Passes(checks[i], isEmail) by {
        forall i | 0 <= i < |checks| ensures Passes(checks[i], isEmail) {
          ErrorKeys(checks, isEmail, checks[i].field);
        }
      }
      Valid
    else
      assert exists i :: 0 <= i < |checks| && !Passes(checks[i], isEmail) by {
        var f :| f in errors;
        ErrorKeys(checks, isEmail, f);
      }
      assert forall f :: f in errors <==> SomeFailure(checks, f, isEmail) by {
        forall f ensures f in errors <==> SomeFailure(checks, f, isEmail) {
          ErrorKeys(checks, isEmail, f);
        }
      }
      assert forall i :: 0 <= i < |checks| && FirstFailure(checks, i, isEmail) ==>
          checks[i].field in errors && errors[checks[i].field] == checks[i].rule.message by {
        forall i | 0 <= i < |checks| && FirstFailure(checks, i, isEmail)
          ensures checks[i].field in errors && errors[checks[i].field] == checks[i].rule.message
        {
          ErrorMessage(checks, isEmail, i);
        }
      }
      Invalid(errors)
  }
}
