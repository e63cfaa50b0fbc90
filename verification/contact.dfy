/**
 The Contact screen's message form: a Send button guarded by the required
 fields, a "Message Sent" alert, and clearing the form when the alert's OK is
 pressed. Nothing is actually sent.
 */
module Contact {
  import opened Wrappers

  datatype ContactForm = ContactForm(name: string, email: string, subject: string, message: string, showingAlert: bool)

  /** The form as it opens. */
  const InitialContact: ContactForm := ContactForm("", "", "", "", false)

  /**
   Send is enabled exactly when name, e-mail and message are filled in; the subject
   is optional. The opening form cannot be sent.
   */
  predicate CanSend(f: ContactForm): (r: bool)
    ensures f == InitialContact ==> !r
  {
    f.name != "" && f.email != "" && f.message != ""
  }

  /** The subject field never affects the Send button. */
  lemma SubjectOptional(f: ContactForm, subject: string)
    ensures CanSend(f.(subject := subject)) == CanSend(f)
  {
  }

  /** `sendMessage`: only shows the alert. */
  function SendMessage(f: ContactForm): (r: ContactForm)
    ensures r.showingAlert
    ensures r.(showingAlert := f.showingAlert) == f
  {
    f.(showingAlert := true)
  }

  /** `clearForm`: empties the four text fields and nothing else. */
  function ClearForm(f: ContactForm): (r: ContactForm)
    ensures r.name == "" && r.email == "" && r.subject == "" && r.message == ""
    ensures r.showingAlert == f.showingAlert
    ensures !CanSend(r)
  {
    f.(name := "", email := "", subject := "", message := "")
  }

  /** Clearing twice is the same as clearing once. */
  lemma ClearFormIdempotent(f: ContactForm)
    ensures ClearForm(ClearForm(f)) == ClearForm(f)
  {
  }

  /** Pressing the alert's OK dismisses it and clears the form. */
  function AcknowledgeAlert(f: ContactForm): (r: ContactForm)
    ensures r == InitialContact
  {
    ClearForm(f).(showingAlert := false)
  }

  /** One user interaction with the form. */
  datatype ContactEvent =
    | EditName(text: string)
    | EditEmail(text: string)
    | EditSubject(text: string)
    | EditMessage(text: string)
    | PressSend
    | PressOK

  /** An interaction; a disabled Send button does nothing, and OK exists only while the alert shows. */
  function Step(f: ContactForm, e: ContactEvent): ContactForm {
    match e
    case EditName(t) => f.(name := t)
    case EditEmail(t) => f.(email := t)
    case EditSubject(t) => f.(subject := t)
    case EditMessage(t) => f.(message := t)
    case PressSend => if CanSend(f) then SendMessage(f) else f
    case PressOK => if f.showingAlert then AcknowledgeAlert(f) else f
  }

  function Run(f: ContactForm, events: seq<ContactEvent>): ContactForm
    decreases |events|
  {
    if |events| == 0 then f
    else Run(Step(f, events[0]), events[1..])
  }

  /** The four text fields of the form. */
  datatype Field = Name | Email | Subject | Message

  function FieldText(f: ContactForm, field: Field): string {
    match field
    case Name => f.name
    case Email => f.email
    case Subject => f.subject
    case Message => f.message
  }

  /** The text an event types into `field`, if it edits that field. */
  function EditedText(e: ContactEvent, field: Field): Option<string> {
    match (e, field)
    case (EditName(t), Name) => Some(t)
    case (EditEmail(t), Email) => Some(t)
    case (EditSubject(t), Subject) => Some(t)
    case (EditMessage(t), Message) => Some(t)
    case _ => None
  }

  /** The text of the last edit of `field` among `events`, or `start` when there is none. */
  function LastTyped(start: string, events: seq<ContactEvent>, field: Field): string
    decreases |events|
  {
    if |events| == 0 then start
    else LastTyped(EditedText(events[0], field).GetOr(start), events[1..], field)
  }

  /**
   The typed text is lost only through OK: after any run of interactions without
   OK, each field holds what it held at the start or the text of its last edit.
   */
  lemma {:induction false} FieldsKeptUntilOK(f: ContactForm, events: seq<ContactEvent>, field: Field)
    requires forall k :: 0 <= k < |events| ==> events[k] != PressOK
    ensures FieldText(Run(f, events), field) == LastTyped(FieldText(f, field), events, field)
    decreases |events|
  {
    if |events| > 0 {
      FieldsKeptUntilOK(Step(f, events[0]), events[1..], field);
    }
  }

  /** A run without OK and without edits of a field leaves that field as it was. */
  lemma {:induction false} UntouchedFieldKept(f: ContactForm, events: seq<ContactEvent>, field: Field)
    requires forall k :: 0 <= k < |events| ==> events[k] != PressOK && EditedText(events[k], field).None?
    ensures FieldText(Run(f, events), field) == FieldText(f, field)
    decreases |events|
  {
    if |events| > 0 {
      UntouchedFieldKept(Step(f, events[0]), events[1..], field);
    }
  }

  /** Sending a complete message and pressing OK returns the form to its opening state. */
  lemma SendThenOK(f: ContactForm)
    requires CanSend(f)
    ensures Run(f, [PressSend, PressOK]) == InitialContact
  {
    assert [PressSend, PressOK][1..] == [PressOK];
  }
}
