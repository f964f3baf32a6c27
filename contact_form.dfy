/** `ContactForm` (components/contact-form.tsx:23-65) and the server action it calls,
    `sendMessage` (app/actions/contact.ts:7-35): the validation schema, the form data
    built from the accepted values, the server's own check, and what a submission does to
    the busy flag, the form and the toast. The e-mail rule of the validation library is a
    parameter; the database insert is a boolean outcome. */
module ContactForm {
  import opened Wrappers
  import ThemeColors

  /** The three form fields. */
  datatype Values = Values(name: string, email: string, message: string)

  /** `defaultValues`. */
  const Defaults: Values := Values("", "", "")

  const NameTooShort: string := "O nome deve ter pelo menos 2 caracteres."
  const InvalidEmail: string := "Por favor, insira um e-mail v\U{E1}lido."
  const MessageTooShort: string := "A mensagem deve ter pelo menos 10 caracteres."

  /** The length the schema's `min` compares: UTF-16 code units, so a character outside
      the Basic Multilingual Plane counts twice. */
  function Utf16Length(s: string): (n: nat)
    ensures |s| <= n <= 2 * |s|
  {
    if s == [] then 0
    else (if s[0] as int > 0xFFFF then 2 else 1) + Utf16Length(s[1..])
  }

  /** The messages `formSchema` reports, in field order; empty when the values are
      accepted. */
  function FieldErrors(v: Values, isEmail: string -> bool): seq<(string, string)> {
    Rule(Utf16Length(v.name) < 2, "name", NameTooShort)
    + Rule(!isEmail(v.email), "email", InvalidEmail)
    + Rule(Utf16Length(v.message) < 10, "message", MessageTooShort)
  }

  /** One field's report: its message when its rule fails. */
  function Rule(fails: bool, field: string, message: string): (r: seq<(string, string)>)
    ensures forall p :: p in r <==> fails && p == (field, message)
  {
    if fails then [(field, message)] else []
  }

  predicate Accepted(v: Values, isEmail: string -> bool) {
    FieldErrors(v, isEmail) == []
  }

  /** Each field is rejected exactly when its own rule fails, with that rule's message. */
  lemma FieldRules(v: Values, isEmail: string -> bool)
    ensures ("name", NameTooShort) in FieldErrors(v, isEmail) <==> Utf16Length(v.name) < 2
    ensures ("email", InvalidEmail) in FieldErrors(v, isEmail) <==> !isEmail(v.email)
    ensures ("message", MessageTooShort) in FieldErrors(v, isEmail) <==> Utf16Length(v.message) < 10
    ensures Accepted(v, isEmail) <==>
      Utf16Length(v.name) >= 2 && isEmail(v.email) && Utf16Length(v.message) >= 10
  {
    assert "name" != "email" && "name" != "message" && "email" != "message";
  }

  /** The empty defaults fail the name rule and the message rule. */
  lemma DefaultsRejected(isEmail: string -> bool)
    ensures ("name", NameTooShort) in FieldErrors(Defaults, isEmail)
    ensures ("message", MessageTooShort) in FieldErrors(Defaults, isEmail)
    ensures !Accepted(Defaults, isEmail)
  {
    FieldRules(Defaults, isEmail);
  }

  /** `FormData`: the appended pairs, in order. */
  type FormData = seq<(string, string)>

  function FormDataOf(v: Values): FormData {
    [("name", v.name), ("email", v.email), ("message", v.message)]
  }

  /** `formData.get(key)`: the first value appended under `key`, if any. */
  function Get(fd: FormData, key: string): (r: Option<string>)
    ensures r.None? <==> forall i :: 0 <= i < |fd| ==> fd[i].0 != key
    ensures r.Some? ==> exists i :: 0 <= i < |fd| && fd[i] == (key, r.value) && forall j :: 0 <= j < i ==> fd[j].0 != key
  {
    if fd == [] then None
    else if fd[0].0 == key then Some(fd[0].1)
    else
      var r := Get(fd[1..], key);
      assert forall i :: 1 <= i < |fd| ==> fd[i] == fd[1..][i - 1];
      if r.Some? then
        var i :| 0 <= i < |fd[1..]| && fd[1..][i] == (key, r.value) && forall j :: 0 <= j < i ==> fd[1..][j].0 != key;
        assert fd[i + 1] == (key, r.value) && forall j :: 0 <= j < i + 1 ==> fd[j].0 != key;
        r
      else r
  }

  /** The form data carries the three values as entered, under their own keys and no
      other. */
  lemma FormDataCarries(v: Values)
    ensures Get(FormDataOf(v), "name") == Some(v.name)
    ensures Get(FormDataOf(v), "email") == Some(v.email)
    ensures Get(FormDataOf(v), "message") == Some(v.message)
    ensures forall key :: key != "name" && key != "email" && key != "message" ==> Get(FormDataOf(v), key).None?
  {
    var fd := FormDataOf(v);
    assert fd[1..] == [("email", v.email), ("message", v.message)];
    assert fd[1..][1..] == [("message", v.message)];
    assert "name" != "email" && "name" != "message" && "email" != "message";
    assert Get(fd[1..][1..], "message") == Some(v.message);
    assert Get(fd[1..], "message") == Some(v.message);
    assert Get(fd[1..], "email") == Some(v.email);
    forall key | key != "name" && key != "email" && key != "message"
      ensures Get(fd, key).None?
    {
      assert fd[0].0 != key && fd[1].0 != key && fd[2].0 != key;
    }
  }

  /** What the server action answers. */
  datatype SendResult = SendResult(success: bool, error: Option<string>)

  const AllFieldsRequired: string := "Todos os campos s\U{E3}o obrigat\U{F3}rios."
  const SendFailed: string := "Erro ao enviar mensagem. Tente novamente."

  /** `!value` on `formData.get(key) as string`: a missing key or an empty value. */
  predicate Blank(fd: FormData, key: string) {
    Get(fd, key).None? || Get(fd, key).value == ""
  }

  /** `sendMessage`: every field is required; `insertOk` is whether the insert into the
      messages table went through (and the page revalidation after it did not throw).
      The contact counter update swallows its own errors, so it cannot fail the action. */
  function SendMessage(fd: FormData, insertOk: bool): (r: SendResult)
    ensures r.success <==> !Blank(fd, "name") && !Blank(fd, "email") && !Blank(fd, "message") && insertOk
    ensures !r.success ==> r.error.Some?
  {
    if Blank(fd, "name") || Blank(fd, "email") || Blank(fd, "message") then
      SendResult(false, Some(AllFieldsRequired))
    else if !insertOk then SendResult(false, Some(SendFailed))
    else SendResult(true, None)
  }

  /** Values the schema accepts are never refused by the server's check, as long as the
      e-mail rule rejects the empty string: the only failure left is the insert's. */
  lemma AcceptedPassesServerCheck(v: Values, isEmail: string -> bool, insertOk: bool)
    requires !isEmail("")
    requires Accepted(v, isEmail)
    ensures SendMessage(FormDataOf(v), insertOk) ==
      (if insertOk then SendResult(true, None) else SendResult(false, Some(SendFailed)))
  {
    FieldRules(v, isEmail);
    FormDataCarries(v);
    assert v.name != [] && v.message != [];
  }

  /** A toast: success or error, with its text. */
  datatype Toast = Success(text: string) | Failure(text: string)

  /** How the awaited `sendMessage(formData)` settles: with an answer, or by throwing
      (the server action's transport fails, or `createClient()` throws before the
      action's `try`). */
  datatype Reply = Answered(result: SendResult) | Threw

  /** What one `onSubmit` does: the values `isSubmitting` takes in order, the toast (if
      any), and the form's values afterwards. */
  datatype Submission = Submission(busy: seq<bool>, toast: Option<Toast>, after: Values)

  /** `onSubmit`, given the values and how the server action settled. Nothing guards the
      `await`, so when it throws, `setIsSubmitting(false)` is never reached. */
  function OnSubmit(v: Values, reply: Reply): Submission {
    match reply
    case Threw => Submission([true], None, v)
    case Answered(result) =>
      if result.success then Submission([true, false], Some(Success("Mensagem enviada com sucesso!")), Defaults)
      else Submission([true, false], Some(Failure(ThemeColors.Or(result.error, "Erro ao enviar mensagem."))), v)
  }

  /** The form is busy while the message is sent and idle once an answer arrives; a
      success clears the form, a failure keeps what was typed and shows the server's
      error, or a generic one when it gives none. When the action throws, the form stays
      busy, keeps its values and shows no toast. */
  lemma SubmitOutcome(v: Values, reply: Reply)
    ensures OnSubmit(v, reply).busy == (if reply.Answered? then [true, false] else [true])
    ensures reply.Threw? ==> OnSubmit(v, reply).after == v && OnSubmit(v, reply).toast.None?
    ensures reply.Answered? && reply.result.success ==>
      OnSubmit(v, reply).after == Defaults && OnSubmit(v, reply).toast == Some(Success("Mensagem enviada com sucesso!"))
    ensures reply.Answered? && !reply.result.success ==>
      OnSubmit(v, reply).after == v && OnSubmit(v, reply).toast.Some? && OnSubmit(v, reply).toast.value.Failure?
    ensures reply.Answered? && !reply.result.success && reply.result.error.Some? && reply.result.error.value != "" ==>
      OnSubmit(v, reply).toast == Some(Failure(reply.result.error.value))
    ensures reply.Answered? && !reply.result.success && (reply.result.error.None? || reply.result.error.value == "") ==>
      OnSubmit(v, reply).toast == Some(Failure("Erro ao enviar mensagem."))
  {
  }

  /** `form.handleSubmit(onSubmit)`: rejected values show their field errors and send
      nothing; accepted values are sent. `delivered` is whether the action settles with
      an answer rather than throwing. */
  datatype Outcome = Rejected(errors: seq<(string, string)>) | Submitted(submission: Submission)

  function HandleSubmit(v: Values, isEmail: string -> bool, insertOk: bool, delivered: bool): Outcome {
    if !Accepted(v, isEmail) then Rejected(FieldErrors(v, isEmail))
    else Submitted(OnSubmit(v, if delivered then Answered(SendMessage(FormDataOf(v), insertOk)) else Threw))
  }

  /** End to end: accepted values are cleared exactly when the action answers and the
      insert succeeds, the form stays busy exactly when the action throws, and the "all
      fields are required" error never reaches the user. */
  lemma SubmitEndToEnd(v: Values, isEmail: string -> bool, insertOk: bool, delivered: bool)
    requires !isEmail("")
    ensures !Accepted(v, isEmail) ==> HandleSubmit(v, isEmail, insertOk, delivered).Rejected?
    ensures Accepted(v, isEmail) ==>
      && HandleSubmit(v, isEmail, insertOk, delivered).Submitted?
      && (HandleSubmit(v, isEmail, insertOk, delivered).submission.after == Defaults <==> (delivered && insertOk) || v == Defaults)
      && (HandleSubmit(v, isEmail, insertOk, delivered).submission.busy == [true] <==> !delivered)
      && HandleSubmit(v, isEmail, insertOk, delivered).submission.toast != Some(Failure(AllFieldsRequired))
  {
    if Accepted(v, isEmail) {
      AcceptedPassesServerCheck(v, isEmail, insertOk);
    }
  }
}
