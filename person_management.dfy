/**
  The person-management component: the validation that guards creating and
  updating a person, and the per-person update forms of which at most one is
  open at a time.
*/
module PersonManagement {
  import opened Persons
  import opened FormValidators

  /** The three values of a person form (first name, last name, email). */
  datatype Form = Form(firstName: string, lastName: string, email: string)

  const NameMessage: string := "Es müssen mindestens 3 Zeichen enthalten sein."
  const EmailEmptyMessage: string := "Email darf nicht leer sein."
  const EmailPatternMessage: string := "Gültige Email-Adresse eingeben."

  /** What submitting a form does: show one alert, or send the person to the service. */
  datatype Decision = Alert(message: string) | Submit(person: Person)

  /** The email control accepts the text. */
  predicate ValidEmail(s: string) {
    |s| > 0 && EmailPatternMatches(s)
  }

  /**
    The checks `addPerson` and `updatePerson` run on a form, in their order:
    both names first, then `required` on the email, then its pattern.
  */
  function Decide(f: Form): (d: Decision)
    ensures d == Alert(NameMessage) <==> !ValidName(f.firstName) || !ValidName(f.lastName)
    ensures d == Alert(EmailEmptyMessage) <==>
              ValidName(f.firstName) && ValidName(f.lastName) && f.email == ""
    ensures d == Alert(EmailPatternMessage) <==>
              ValidName(f.firstName) && ValidName(f.lastName) && f.email != "" && !EmailPatternMatches(f.email)
    ensures d.Submit? <==> ValidName(f.firstName) && ValidName(f.lastName) && ValidEmail(f.email)
    ensures d.Submit? ==> d.person == Person(0, f.firstName, f.lastName, f.email)
  {
    NameRule(f.firstName);
    NameRule(f.lastName);
    EmailRule(f.email);
    if ControlInvalid(NameValidators, f.firstName) || ControlInvalid(NameValidators, f.lastName) then
      Alert(NameMessage)
    else if ControlInvalid(EmailValidators, f.email) then
      if RequiredError in Errors(EmailValidators, f.email) then Alert(EmailEmptyMessage)
      else Alert(EmailPatternMessage)
    else
      Submit(Person(0, f.firstName, f.lastName, f.email))
  }

  /** `createPersonForm`: a form with three empty controls, which fails on the name rule. */
  function CreatePersonForm(): (f: Form)
    ensures f.firstName == [] && f.lastName == [] && f.email == []
    ensures Decide(f) == Alert(NameMessage)
  {
    Form("", "", "")
  }

  /** Empty fields raise the name message, not the email one. */
  lemma DecideEmptyForm()
    ensures Decide(Form("", "", "")) == Alert(NameMessage)
  {
  }

  /** An empty last name raises the name message whatever the email. */
  lemma DecideEmptyLastName(email: string)
    ensures Decide(Form("Joe", "", email)) == Alert(NameMessage)
  {
  }

  /** An email without `@` raises the pattern message. */
  lemma DecideEmailWithoutAt()
    ensures Decide(Form("Joe", "Doe", "john.doemail.de")) == Alert(EmailPatternMessage)
  {
    var e := "john.doemail.de";
    assert ValidName("Joe") && ValidName("Doe");
    assert forall i :: 0 <= i < |e| ==> e[i] != '@';
  }

  /** A well-formed form is submitted as a person with id 0 and the form's values. */
  lemma DecideValidForm()
    ensures Decide(Form("John", "Doe", "john.doe@mail.de"))
         == Submit(Person(0, "John", "Doe", "john.doe@mail.de"))
  {
    assert ValidName("John") && ValidName("Doe");
    assert EmailSplitAt("john.doe@mail.de", 8, 13);
  }

  /** The form of the update test is submitted with its new last name. */
  lemma DecideUpdatedForm()
    ensures Decide(Form("John", "Updated", "john.doe@mail.de"))
         == Submit(Person(0, "John", "Updated", "john.doe@mail.de"))
  {
    assert ValidName("John") && ValidName("Updated");
    assert EmailSplitAt("john.doe@mail.de", 8, 13);
  }

  /** Valid names and an empty email raise the empty-email message. */
  lemma DecideEmptyEmail()
    ensures Decide(Form("John", "Doe", "")) == Alert(EmailEmptyMessage)
  {
    assert ValidName("John") && ValidName("Doe");
  }

  /**
    The character before the top-level domain is not required to be a dot:
    an address whose domain holds no dot at all passes.
  */
  lemma DomainWithoutDotPasses()
    ensures Decide(Form("John", "Doe", "john@mailde")).Submit?
  {
    assert ValidName("John") && ValidName("Doe");
    assert EmailSplitAt("john@mailde", 4, 8);
  }

  // ---------------------------------------------------------------------------
  // Update forms

  /** The update-form bookkeeping: the open form's id (0 for none) and the forms by person id. */
  datatype EditState = EditState(openFormId: int, personForms: map<int, Form>)

  /** At most one update form is open, and an open form exists. */
  predicate SingleOpen(s: EditState) {
    s.openFormId == 0 || s.openFormId in s.personForms
  }

  /** `toggleUpdateForm`: close the form if it is the open one, open it otherwise, and blank it. */
  function Toggle(s: EditState, id: int): (r: EditState)
    requires id in s.personForms
    ensures s.openFormId == id ==> r.openFormId == 0
    ensures s.openFormId != id ==> r.openFormId == id
    ensures r.personForms.Keys == s.personForms.Keys
    ensures r.personForms[id] == CreatePersonForm()
    ensures forall k :: k in s.personForms && k != id ==> r.personForms[k] == s.personForms[k]
    ensures SingleOpen(r)
  {
    EditState(if s.openFormId == id then 0 else id, s.personForms[id := CreatePersonForm()])
  }

  /** `getPersonForm`: create a blank form for `id` when there is none yet. */
  function GetOrCreate(s: EditState, id: int): (r: EditState)
    ensures r.openFormId == s.openFormId
    ensures r.personForms.Keys == s.personForms.Keys + {id}
    ensures id in s.personForms ==> r == s
    ensures id !in s.personForms ==> r.personForms[id] == CreatePersonForm()
    ensures forall k :: k in s.personForms ==> r.personForms[k] == s.personForms[k]
    ensures SingleOpen(s) ==> SingleOpen(r)
  {
    if id in s.personForms then s else s.(personForms := s.personForms[id := CreatePersonForm()])
  }

  /** `cancelPersonUpdate`: close whatever form is open and discard the form of `id`. */
  function Cancel(s: EditState, id: int): (r: EditState)
    ensures r.openFormId == 0
    ensures r.personForms.Keys == s.personForms.Keys - {id}
    ensures forall k :: k in r.personForms ==> r.personForms[k] == s.personForms[k]
    ensures SingleOpen(r)
  {
    EditState(0, s.personForms - {id})
  }

  /** Getting a form twice creates it at most once. */
  lemma GetOrCreateIdempotent(s: EditState, id: int)
    ensures GetOrCreate(GetOrCreate(s, id), id) == GetOrCreate(s, id)
  {
  }

  /**
    Toggling the same form twice blanks it and leaves it open only if it was
    open before; any other open form ends up closed.
  */
  lemma ToggleTwice(s: EditState, id: int)
    requires id in s.personForms
    ensures Toggle(Toggle(s, id), id)
         == EditState(if s.openFormId == id then id else 0, s.personForms[id := CreatePersonForm()])
  {
  }

  /**
    A successful update of the open form closes it and leaves it blank, which
    is what the component's update test observes.
  */
  lemma SuccessfulUpdateCloses(s: EditState, id: int)
    requires id in s.personForms && s.openFormId == id
    ensures Toggle(s, id).openFormId == 0
    ensures Toggle(s, id).personForms[id] == Form("", "", "")
  {
  }

  /**
    The component. Only the state its operations change is kept; the list of
    persons is refreshed from the service and is not part of this model.
  */
  class PersonManagementComponent {
    var openFormId: int
    var personForms: map<int, Form>
    /** The create form's values. */
    var personForm: Form

    function Sessions(): EditState
      reads this
    {
      EditState(openFormId, personForms)
    }

    ghost predicate Valid()
      reads this
    {
      SingleOpen(Sessions())
    }

    constructor ()
      ensures Valid()
      ensures openFormId == 0 && personForms == map[] && personForm == CreatePersonForm()
    {
      openFormId := 0;
      personForms := map[];
      personForm := CreatePersonForm();
    }

    /** `addPerson`: validate the create form; on success the person to send has id 0. */
    method AddPerson() returns (d: Decision)
      ensures d == Decide(personForm)
    {
      if ControlInvalid(NameValidators, personForm.firstName)
        || ControlInvalid(NameValidators, personForm.lastName) {
        return Alert(NameMessage);
      }
      if ControlInvalid(EmailValidators, personForm.email) {
        if RequiredError in Errors(EmailValidators, personForm.email) {
          return Alert(EmailEmptyMessage);
        } else {
          return Alert(EmailPatternMessage);
        }
      }
      d := Submit(Person(0, personForm.firstName, personForm.lastName, personForm.email));
    }

    /**
      `updatePerson(id)`: validate the form of `id`. A failure changes nothing;
      on success the person is sent and, once the service answers, the form
      is toggled.
    */
    method UpdatePerson(id: int) returns (d: Decision)
      requires id in personForms
      modifies this
      ensures d == Decide(old(personForms[id]))
      ensures d.Alert? ==> Sessions() == old(Sessions())
      ensures d.Submit? ==> Sessions() == Toggle(old(Sessions()), id)
      ensures personForm == old(personForm)
      ensures old(Valid()) ==> Valid()
    {
      var f := personForms[id];
      if ControlInvalid(NameValidators, f.firstName) || ControlInvalid(NameValidators, f.lastName) {
        return Alert(NameMessage);
      }
      if ControlInvalid(EmailValidators, f.email) {
        if RequiredError in Errors(EmailValidators, f.email) {
          return Alert(EmailEmptyMessage);
        } else {
          return Alert(EmailPatternMessage);
        }
      }
      d := Submit(Person(0, f.firstName, f.lastName, f.email));
      ToggleUpdateForm(id);
    }

    /** `toggleUpdateForm(id)`; the source fails when `id` has no form. */
    method ToggleUpdateForm(id: int)
      requires id in personForms
      modifies this
      ensures Sessions() == Toggle(old(Sessions()), id)
      ensures personForm == old(personForm)
      ensures Valid()
    {
      if openFormId == id {
        openFormId := 0;
      } else {
        openFormId := id;
      }
      personForms := personForms[id := CreatePersonForm()];
    }

    /** `isOpen(id)`. */
    method IsOpen(id: int) returns (b: bool)
      ensures b <==> openFormId == id
      ensures b && id != 0 && Valid() ==> id in personForms
    {
      b := openFormId == id;
    }

    /** `getPersonForm(id)`: the form of `id`, created blank on first use. */
    method GetPersonForm(id: int) returns (f: Form)
      modifies this
      ensures Sessions() == GetOrCreate(old(Sessions()), id)
      ensures f == personForms[id]
      ensures personForm == old(personForm)
      ensures old(Valid()) ==> Valid()
    {
      if id !in personForms {
        personForms := personForms[id := CreatePersonForm()];
      }
      f := personForms[id];
    }

    /** `cancelPersonUpdate(id)`. */
    method CancelPersonUpdate(id: int)
      modifies this
      ensures Sessions() == Cancel(old(Sessions()), id)
      ensures personForm == old(personForm)
      ensures Valid()
    {
      openFormId := 0;
      personForms := personForms - {id};
    }
  }
}
