/** `EventCard`: one event in a list, with either the administrator's edit and delete
    buttons or the visitor's register button. */
module EventCard {
  const UPCOMING := "upcoming"

  const FULLY_BOOKED := "Fully Booked"
  const REGISTRATION_CLOSED := "Registration Closed"
  const REGISTER := "Register"

  /** The fields of the frontend `Event` the card reads. */
  datatype CardEvent = CardEvent(
    id: string, title: string, description: string, date: string, location: string,
    status: string, registered: int, capacity: int)

  /** The buttons at the foot of the card, each with the event id its click passes on. */
  datatype CardActions =
    | AdminButtons(editId: string, deleteId: string)
    | RegisterButton(registerId: string, disabled: bool, text: string)

  /** The label the register button shows: fullness is checked before the status. */
  function RegisterLabel(e: CardEvent): (r: string)
    ensures r == FULLY_BOOKED <==> e.registered >= e.capacity
    ensures r == REGISTRATION_CLOSED <==> e.registered < e.capacity && e.status != UPCOMING
    ensures r == REGISTER <==> e.registered < e.capacity && e.status == UPCOMING
  {
    if e.registered >= e.capacity then FULLY_BOOKED
    else if e.status != UPCOMING then REGISTRATION_CLOSED
    else REGISTER
  }

  /** The buttons: an administrator (an absent `isAdmin` counts as false) gets edit and
      delete for this event and no register button; anyone else gets the register
      button, disabled unless the event is upcoming and has a free place. */
  function Actions(e: CardEvent, isAdmin: bool): (r: CardActions)
    ensures r.AdminButtons? <==> isAdmin
    ensures r.AdminButtons? ==> r.editId == e.id && r.deleteId == e.id
    ensures r.RegisterButton? ==> r.registerId == e.id && r.text == RegisterLabel(e)
    ensures r.RegisterButton? ==> (r.disabled <==> e.status != UPCOMING || e.registered >= e.capacity)
  {
    if isAdmin then AdminButtons(e.id, e.id)
    else RegisterButton(e.id, e.status != UPCOMING || e.registered >= e.capacity, RegisterLabel(e))
  }

  /** The button reads "Register" exactly when it can be clicked, and a disabled button
      always says why. */
  lemma LabelMatchesButton(e: CardEvent)
    ensures var a := Actions(e, false);
      a.RegisterButton? && (a.text == REGISTER <==> !a.disabled)
      && (a.disabled ==> a.text in {FULLY_BOOKED, REGISTRATION_CLOSED})
  {
  }

  /** One more registration can only close registration: a card that is disabled stays
      disabled. */
  lemma RegistrationOnlyCloses(e: CardEvent)
    ensures Actions(e, false).disabled ==> Actions(e.(registered := e.registered + 1), false).disabled
    ensures Actions(e.(registered := e.registered + 1), false).text == REGISTER ==>
      Actions(e, false).text == REGISTER
  {
  }
}
