/**
  The component's test scenarios, replayed against the contracts of the
  component and of the in-memory service: what a client can conclude from
  the specifications alone. Each successful submission is handed to the
  service, as the subscription does under the in-memory service.
*/
module Walkthrough {
  import opened Persons
  import opened FormValidators
  import opened PersonManagement
  import opened MockService

  /** Creating John Doe stores him under id 1; invalid forms store nothing. */
  method CreateScenario() {
    var component := new PersonManagementComponent();
    var service := new PersonServiceMock();

    component.personForm := Form("Joe", "", "john.doe@mail.de");
    var d := component.AddPerson();
    DecideEmptyLastName("john.doe@mail.de");
    assert d == Alert(NameMessage);

    component.personForm := Form("Joe", "Doe", "john.doemail.de");
    d := component.AddPerson();
    DecideEmailWithoutAt();
    assert d == Alert(EmailPatternMessage);

    component.personForm := Form("John", "Doe", "john.doe@mail.de");
    d := component.AddPerson();
    DecideValidForm();
    var created := service.AddPerson(d.person);
    assert service.mockPersons == [Person(1, "John", "Doe", "john.doe@mail.de")];
  }

  /** An update with an empty email alerts and leaves the form open and as entered. */
  method FailedUpdateScenario() {
    var component := new PersonManagementComponent();
    component.personForms := map[1 := Form("John", "Doe", "")];
    component.openFormId := 1;
    var d := component.UpdatePerson(1);
    DecideEmptyEmail();
    assert d == Alert(EmailEmptyMessage);
    assert component.openFormId == 1;
    assert component.personForms[1] == Form("John", "Doe", "");
  }

  /**
    Updating the open form of person 1 with a new last name closes and blanks
    the form, and the service then holds the new last name under id 1.
  */
  method UpdateScenario() {
    var service := new PersonServiceMock();
    var created := service.AddPerson(Person(0, "John", "Doe", "john.doe@mail.de"));

    var component := new PersonManagementComponent();
    component.personForms := map[1 := Form("John", "Updated", "john.doe@mail.de")];
    component.openFormId := 1;
    var d := component.UpdatePerson(1);
    DecideUpdatedForm();
    assert component.openFormId == 0;
    assert component.personForms[1] == Form("", "", "");

    var r := service.UpdatePerson(1, d.person);
    assert service.mockPersons == [Person(1, "John", "Updated", "john.doe@mail.de")];
  }

  /** Deleting the only person empties the table; deleting again changes nothing. */
  method DeleteScenario() {
    var service := new PersonServiceMock();
    var created := service.AddPerson(Person(0, "John", "Doe", "john.doe@mail.de"));
    service.DeletePerson(created.id);
    assert service.mockPersons == [];
    service.DeletePerson(created.id);
    assert service.mockPersons == [];
  }
}
