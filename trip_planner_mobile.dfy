/** The mobile client's trip-planner modal (React Native). It holds the start and destination
    text; submitting passes both to `onPlanTrip` unchanged, clears them and
    closes the modal, provided neither is blank. The parent's callbacks are
    recorded, in order, in `calls`. */
module MobileTripPlanner {
  import opened Text
  import opened TripPlanning

  class TripPlannerModal {
    var start: string
    var destination: string
    var calls: seq<Callback>

    constructor ()
      ensures start == "" && destination == "" && calls == []
    {
      start := "";
      destination := "";
      calls := [];
    }

    method SetStart(text: string)
      modifies this`start
      ensures start == text
    {
      start := text;
    }

    method SetDestination(text: string)
      modifies this`destination
      ensures destination == text
    {
      destination := text;
    }

    /** `handleSubmit`. */
    method HandleSubmit()
      modifies this
      ensures !CanSubmit(old(start), old(destination)) ==>
                start == old(start) && destination == old(destination) && calls == old(calls)
      ensures CanSubmit(old(start), old(destination)) ==>
                calls == old(calls) + [PlanTrip(old(start), old(destination)), Close]
                && start == "" && destination == ""
    {
      if Trim(start) != "" && Trim(destination) != "" {
        calls := calls + [PlanTrip(start, destination)];
        start := "";
        destination := "";
        calls := calls + [Close];
      }
    }
  }
}
