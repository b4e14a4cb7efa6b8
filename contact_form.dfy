/** The submit handler of the contact form (main.js:105-133): validation in
    a fixed order, then a simulated send that disables the button for
    1500 ms, after which a success notification is shown, the form is reset
    and the button restored. The 1500 ms timer is an event. */
module ContactForm {
  import opened EmailPattern
  import opened Notifications

  const SendLatencyMs := 1500

  const RequiredFields: seq<string> := ["nombre", "email", "servicio", "mensaje"]
  const MissingFieldsMessage: string := "Por favor complete todos los campos obligatorios."
  const InvalidEmailMessage: string := "Por favor ingrese un email v\U{E1}lido."
  const SentMessage: string := "\U{A1}Mensaje enviado con \U{E9}xito! Nos pondremos en contacto a la brevedad."
  const SendingText: string := "Enviando..."

  /** `data[name]` is truthy: the field was submitted and is not empty. */
  predicate Filled(data: map<string, string>, name: string) {
    name in data && data[name] != ""
  }

  datatype Verdict = MissingFields | InvalidEmail | Accepted

  /** The two checks of the handler, in the handler's order. */
  function Validate(data: map<string, string>): (v: Verdict)
    ensures v == MissingFields <==> exists name :: name in RequiredFields && !Filled(data, name)
    ensures v == InvalidEmail <==> (forall name :: name in RequiredFields ==> Filled(data, name))
                                   && "email" in data && !EmailShape(data["email"])
    ensures v == Accepted <==> (forall name :: name in RequiredFields ==> Filled(data, name))
                               && "email" in data && EmailShape(data["email"])
  {
    if !Filled(data, "nombre") || !Filled(data, "email") || !Filled(data, "servicio") || !Filled(data, "mensaje") then
      MissingFields
    else
      EmailRegexShape(data["email"]);
      if !MatchesEmailRegex(data["email"]) then InvalidEmail else Accepted
  }

  /** A draft with an empty name is refused as incomplete, though its
      e-mail is well formed. */
  lemma EmptyNameRejected()
    ensures Validate(map["nombre" := "", "email" := "a@b.com", "servicio" := "x", "mensaje" := "hi"])
            == MissingFields
  {
  }

  /** A complete draft whose e-mail has no '@' is refused for the e-mail. */
  lemma MalformedEmailRejected()
    ensures Validate(map["nombre" := "Ana", "email" := "not-an-email", "servicio" := "x", "mensaje" := "hi"])
            == InvalidEmail
  {
    var data := map["nombre" := "Ana", "email" := "not-an-email", "servicio" := "x", "mensaje" := "hi"];
    assert forall name :: name in RequiredFields ==> Filled(data, name);
    var email := "not-an-email";
    assert forall j :: 0 <= j < |email| ==> email[j] != '@';
    assert !EmailShape(email);
  }

  /** A complete draft with a well-formed e-mail is accepted. */
  lemma WellFormedDraftAccepted()
    ensures Validate(map["nombre" := "Ana", "email" := "a@b.com", "servicio" := "x", "mensaje" := "hi"])
            == Accepted
  {
    var data := map["nombre" := "Ana", "email" := "a@b.com", "servicio" := "x", "mensaje" := "hi"];
    assert forall name :: name in RequiredFields ==> Filled(data, name);
    assert FirstAt("a@b.com") == 1;
    assert "a@b.com"[2..][1..4][0] == '.';
  }

  /** The submit button. */
  datatype Button = Button(text: string, disabled: bool)

  /** The form as the handler sees it: the field values, the button, and the
      pending 1500 ms timers, each holding the text it captured as
      `originalText`, in the order they fire. */
  datatype FormState = FormState(fields: map<string, string>, button: Button, pending: seq<string>)

  /** What a step asks of the notification slot. */
  datatype Effect = NoNotification | Notify(message: string, kind: Kind)

  /** The notification slot after an effect. */
  function ApplyEffect(s: Slot, e: Effect): Slot {
    match e
    case NoNotification => s
    case Notify(message, kind) => ShowStep(s, message, kind)
  }

  /** The submit event. */
  function SubmitStep(f: FormState): (FormState, Effect) {
    match Validate(f.fields)
    case MissingFields => (f, Notify(MissingFieldsMessage, Error))
    case InvalidEmail => (f, Notify(InvalidEmailMessage, Error))
    case Accepted =>
      (FormState(f.fields, Button(SendingText, true), f.pending + [f.button.text]), NoNotification)
  }

  /** The earliest pending 1500 ms timer fires; `defaults` are the values
      `form.reset()` restores. */
  function SendDoneStep(f: FormState, defaults: map<string, string>): (FormState, Effect)
    requires f.pending != []
  {
    (FormState(defaults, Button(f.pending[0], false), f.pending[1..]), Notify(SentMessage, Success))
  }

  /** A rejected submit shows its error and touches nothing else: fields,
      button and timers stay as they were. A missing field is reported
      whatever the e-mail holds. */
  lemma RejectedSubmitChangesNothing(f: FormState)
    requires Validate(f.fields) != Accepted
    ensures SubmitStep(f).0 == f
    ensures SubmitStep(f).1 == Notify(if Validate(f.fields) == MissingFields then MissingFieldsMessage
                                      else InvalidEmailMessage, Error)
    ensures (exists name :: name in RequiredFields && !Filled(f.fields, name))
            ==> SubmitStep(f).1.message == MissingFieldsMessage
  {
  }

  /** The button is idle: enabled, and no send is pending. */
  predicate Idle(f: FormState) {
    !f.button.disabled && f.pending == []
  }

  /** An accepted submit from an idle form disables the button under
      "Enviando..."; when the delay ends the button is
      enabled with its original text again, the fields are reset, and one
      success notification is shown. */
  lemma SubmitRoundTrip(f: FormState, defaults: map<string, string>)
    requires Idle(f) && Validate(f.fields) == Accepted
    ensures var (sending, e1) := SubmitStep(f);
            sending.button == Button(SendingText, true) && sending.fields == f.fields
            && e1 == NoNotification && sending.pending != []
            && SendDoneStep(sending, defaults) == (FormState(defaults, f.button, []), Notify(SentMessage, Success))
  {
    var sending := SubmitStep(f).0;
    assert sending.pending == [f.button.text];
    assert sending.pending[1..] == [];
    assert f.button == Button(f.button.text, false);
  }

  /** While a send is pending the button stays disabled under
      "Enviando...": a further submit, accepted or rejected, keeps it so
      (editing a field changes only `fields`, see `Input`). */
  lemma StaysDisabledWhileSending(f: FormState)
    requires f.pending != [] && f.button == Button(SendingText, true)
    ensures SubmitStep(f).0.button == Button(SendingText, true)
    ensures f.pending <= SubmitStep(f).0.pending
  {
  }

  /** Exactly the success notification is mounted once the send completes. */
  lemma SendShowsOneSuccess(f: FormState, defaults: map<string, string>, s: Slot)
    requires f.pending != [] && Inv(s)
    ensures ApplyEffect(s, SendDoneStep(f, defaults).1).mounted == [Notification(s.nextId, SentMessage, Success)]
  {
  }

  /** The form, its submit button and its pending timers, updated in place. */
  class ContactFormController {
    var fields: map<string, string>
    var text: string
    var disabled: bool
    var pending: seq<string>
    /** The values `form.reset()` restores. */
    const defaults: map<string, string>
    const center: NotificationCenter

    function State(): FormState
      reads this
    {
      FormState(fields, Button(text, disabled), pending)
    }

    constructor (center: NotificationCenter, defaults: map<string, string>, text: string)
      ensures this.center == center && this.defaults == defaults
      ensures State() == FormState(defaults, Button(text, false), [])
    {
      this.center := center;
      this.defaults := defaults;
      fields := defaults;
      this.text := text;
      disabled := false;
      pending := [];
    }

    /** The user types `value` into the field `name`. */
    method Input(name: string, value: string)
      modifies this
      ensures State() == old(State()).(fields := old(fields)[name := value])
    {
      fields := fields[name := value];
    }

    /** The submit event. */
    method Submit()
      requires center.Valid()
      modifies this, center
      ensures center.Valid()
      ensures State() == SubmitStep(old(State())).0
      ensures center.State() == ApplyEffect(old(center.State()), SubmitStep(old(State())).1)
    {
      var data := fields;
      if !Filled(data, "nombre") || !Filled(data, "email") || !Filled(data, "servicio") || !Filled(data, "mensaje") {
        var shown := center.Show(MissingFieldsMessage, Error);
        return;
      }
      if !MatchesEmailRegex(data["email"]) {
        var shown := center.Show(InvalidEmailMessage, Error);
        return;
      }
      var originalText := text;
      text := SendingText;
      disabled := true;
      pending := pending + [originalText];
    }

    /** The earliest pending 1500 ms timer fires. */
    method SendDone()
      requires center.Valid() && pending != []
      modifies this, center
      ensures center.Valid()
      ensures State() == SendDoneStep(old(State()), defaults).0
      ensures center.State() == ApplyEffect(old(center.State()), SendDoneStep(old(State()), defaults).1)
    {
      var shown := center.Show(SentMessage, Success);
      fields := defaults;
      text := pending[0];
      disabled := false;
      pending := pending[1..];
    }
  }
}
