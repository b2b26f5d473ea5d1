/** The web client's add-station form. Submitting validates the four text
    fields, creates the station, posts its first price under the id the
    creation returned, then notifies the parent and clears the form. The
    outcomes of the two HTTP requests are inputs; what the handler does to
    the outside world (alerts, requests, callback, error log) is recorded,
    in order, in `effects`. */
module AddStation {

  datatype Form = Form(name: string, latitude: string, longitude: string, price: string)

  const EmptyForm := Form("", "", "", "")

  datatype Field = NameField | LatitudeField | LongitudeField | PriceField

  /** An observable action of the handler. Request bodies carry the raw
      field text; the client converts it with `parseFloat`. */
  datatype Effect =
    | Alert(message: string)
    | PostStation(name: string, latitude: string, longitude: string)
    | PostPrice(stationId: int, price: string)
    | NotifySuccess
    | LogError(message: string)

  /** The outcome of `POST /stations`: the created station's id, a non-OK
      response, or a thrown error (network failure, undecodable body). */
  datatype CreateOutcome = Created(id: int) | CreateRejected | CreateThrew(message: string)

  /** The outcome of `POST /stations/{id}/prices`. */
  datatype PriceOutcome = PriceAccepted | PriceRejected | PriceThrew(message: string)

  const FillInMessage := "Please fill in all fields"
  const CreateFailedMessage := "Failed to create station"
  const PriceFailedMessage := "Failed to add price"

  /** The guard of `submit`: some field is exactly the empty string. */
  predicate HasEmptyField(f: Form) {
    f.name == "" || f.latitude == "" || f.longitude == "" || f.price == ""
  }

  /** The guard compares with the empty string only, so a form whose fields
      are all whitespace passes it. */
  lemma WhitespaceFieldsPassGuard(f: Form)
    requires |f.name| > 0 && |f.latitude| > 0 && |f.longitude| > 0 && |f.price| > 0
    ensures !HasEmptyField(f)
  {
  }

  class AddStationModal {
    var form: Form
    var effects: seq<Effect>

    constructor ()
      ensures form == EmptyForm && effects == []
    {
      form := EmptyForm;
      effects := [];
    }

    /** An input's `onChange`: replaces one field. */
    method Edit(field: Field, value: string)
      modifies this`form
      ensures form == match field
        case NameField => old(form).(name := value)
        case LatitudeField => old(form).(latitude := value)
        case LongitudeField => old(form).(longitude := value)
        case PriceField => old(form).(price := value)
    {
      match field
      case NameField => form := form.(name := value);
      case LatitudeField => form := form.(latitude := value);
      case LongitudeField => form := form.(longitude := value);
      case PriceField => form := form.(price := value);
    }

    /** `submit`. */
    method Submit(created: CreateOutcome, priced: PriceOutcome)
      modifies this
      // a blank field: only the alert, no request, the form is kept
      ensures HasEmptyField(old(form)) ==>
                form == old(form) && effects == old(effects) + [Alert(FillInMessage)]
      // otherwise the station request comes first, with the form's values
      ensures !HasEmptyField(old(form)) ==>
                |effects| > |old(effects)|
                && effects[..|old(effects)| + 1]
                   == old(effects) + [PostStation(old(form).name, old(form).latitude, old(form).longitude)]
      // a failed creation: no price request, no notification, the form is kept
      ensures !HasEmptyField(old(form)) && created.CreateRejected? ==>
                form == old(form)
                && effects == old(effects) + [PostStation(old(form).name, old(form).latitude, old(form).longitude),
                                              LogError(CreateFailedMessage)]
      ensures !HasEmptyField(old(form)) && created.CreateThrew? ==>
                form == old(form)
                && effects == old(effects) + [PostStation(old(form).name, old(form).latitude, old(form).longitude),
                                              LogError(created.message)]
      // a created station: the price request targets the returned id
      ensures !HasEmptyField(old(form)) && created.Created? ==>
                |effects| == |old(effects)| + 3
                && effects[|old(effects)| + 1] == PostPrice(created.id, old(form).price)
      // a failed price request: no notification, the form is kept
      ensures !HasEmptyField(old(form)) && created.Created? && priced.PriceRejected? ==>
                form == old(form) && effects[|old(effects)| + 2] == LogError(PriceFailedMessage)
      ensures !HasEmptyField(old(form)) && created.Created? && priced.PriceThrew? ==>
                form == old(form) && effects[|old(effects)| + 2] == LogError(priced.message)
      // full success: the parent is notified, then the form is cleared
      ensures !HasEmptyField(old(form)) && created.Created? && priced.PriceAccepted? ==>
                form == EmptyForm && effects[|old(effects)| + 2] == NotifySuccess
      // the parent is notified only when both requests succeeded
      ensures NotifySuccess in effects[|old(effects)|..] <==>
                !HasEmptyField(old(form)) && created.Created? && priced.PriceAccepted?
    {
      if HasEmptyField(form) {
        effects := effects + [Alert(FillInMessage)];
        return;
      }
      effects := effects + [PostStation(form.name, form.latitude, form.longitude)];
      match created {
        case CreateRejected =>
          effects := effects + [LogError(CreateFailedMessage)];
        case CreateThrew(message) =>
          effects := effects + [LogError(message)];
        case Created(id) =>
          effects := effects + [PostPrice(id, form.price)];
          match priced {
            case PriceRejected =>
              effects := effects + [LogError(PriceFailedMessage)];
            case PriceThrew(message) =>
              effects := effects + [LogError(message)];
            case PriceAccepted =>
              effects := effects + [NotifySuccess];
              form := EmptyForm;
          }
      }
    }
  }
}
