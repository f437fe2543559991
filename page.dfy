/** The state of the page: the trip list, the notification feed and the
    profile held by the top-level component, and the post-a-trip modal with
    its form and error message. Each setter call replaces one slot. */
module Page {
  import opened Trips
  import FlightNumber
  import Feed
  import Profile
  import Lists

  class App {
    var trips: seq<Trip>
    var notifications: seq<Feed.Notification>
    var profile: Profile.UserProfile

    /** Every social network keeps its switch. No contract relies on it,
        since `Profile.ToggleSocial` also handles a missing key; it is an
        invariant the setters keep. */
    ghost predicate Valid()
      reads this
    {
      Profile.AllSwitches(profile.socials)
    }

    /** The page as it loads; the mock trips depend on the clock and are
        passed in. */
    constructor (initialTrips: seq<Trip>)
      ensures Valid()
      ensures trips == initialTrips
      ensures notifications == Feed.InitialNotifications
      ensures profile == Profile.InitialProfile
    {
      trips := initialTrips;
      notifications := Feed.InitialNotifications;
      profile := Profile.InitialProfile;
    }

    /** `onAdd`: the new trip goes in front of the list. */
    method AddTrip(t: Trip)
      requires Valid()
      modifies this
      ensures Valid()
      ensures trips == [t] + old(trips)
      ensures notifications == old(notifications) && profile == old(profile)
    {
      trips := [t] + trips;
    }

    /** `onMarkRead`. */
    method MarkRead(id: int)
      requires Valid()
      modifies this
      ensures Valid()
      ensures notifications == Feed.MarkRead(old(notifications), id)
      ensures UnreadCount() <= old(UnreadCount())
      ensures trips == old(trips) && profile == old(profile)
    {
      Feed.MarkReadCount(notifications, id);
      notifications := Feed.MarkRead(notifications, id);
    }

    /** `onClearAll` ("Mark all read"). */
    method MarkAllRead()
      requires Valid()
      modifies this
      ensures Valid()
      ensures notifications == Feed.MarkAllRead(old(notifications))
      ensures UnreadCount() == 0 && !ShowBellDot()
      ensures trips == old(trips) && profile == old(profile)
    {
      notifications := Feed.MarkAllRead(notifications);
      Feed.MarkAllReadClears(old(notifications));
    }

    /** `toggleSocial`: flip one switch of the profile. */
    method ToggleSocial(key: Social)
      requires Valid()
      modifies this
      ensures Valid()
      ensures profile == old(profile).(socials := Profile.ToggleSocial(old(profile).socials, key))
      ensures trips == old(trips) && notifications == old(notifications)
    {
      Profile.ToggleKeepsAllSwitches(profile.socials, key);
      profile := profile.(socials := Profile.ToggleSocial(profile.socials, key));
    }

    /** The "N New" badge of the notification centre. */
    function UnreadCount(): (n: nat)
      reads this
      ensures n <= |notifications|
    {
      Feed.UnreadCount(notifications)
    }

    /** The red dot on the bell. */
    function ShowBellDot(): (b: bool)
      reads this
      ensures b <==> UnreadCount() > 0
    {
      Feed.BellIffUnread(notifications);
      Feed.HasUnread(notifications)
    }

    /** "Your Active Itinerary". */
    function MyTrips(): (r: seq<Trip>)
      reads this
      ensures forall t :: t in r <==> t in trips && IsMine(t)
    {
      Trips.MyTrips(trips)
    }
  }

  /** The post-a-trip modal: its form and its error line. */
  class AddTripModal {
    var form: TripForm
    var error: string

    /** The selected categories never repeat, and the companion flag stays
        off: the form has no input for it. */
    ghost predicate Valid()
      reads this
    {
      Lists.NoDup(form.categories) && !form.isCompanion
    }

    constructor ()
      ensures Valid()
      ensures form == EmptyForm && error == ""
    {
      form := EmptyForm;
      error := "";
    }

    /** A category button of the form. */
    method ToggleCategory(c: Category)
      requires Valid()
      modifies this
      ensures Valid()
      ensures form == old(form).(categories := Trips.ToggleCategory(old(form).categories, c))
      ensures error == old(error)
    {
      Trips.ToggleKeepsNoDup(form.categories, c);
      form := form.(categories := Trips.ToggleCategory(form.categories, c));
    }

    /** Typing in the flight-number field also clears the error line. */
    method EditFlightNumber(fn: string)
      requires Valid()
      modifies this
      ensures Valid()
      ensures form == old(form).(flightNumber := fn) && error == ""
    {
      form := form.(flightNumber := fn);
      error := "";
    }

    /** `handleSubmit`: on a bad flight number set the error and add nothing;
        when the date and time do not parse, `toISOString` throws and nothing
        changes; otherwise prepend the new trip to the page's list and reset
        the form. `id` stands for the clock reading and `departure` for the
        parsed date and time. */
    method Submit(app: App, id: int, departure: Option<int>) returns (added: bool)
      requires Valid() && app.Valid()
      modifies this, app
      ensures Valid() && app.Valid()
      ensures added <==> FlightNumber.ValidFlightNumber(old(form).flightNumber) && departure.Some?
      ensures !FlightNumber.ValidFlightNumber(old(form).flightNumber) ==>
                error == InvalidFlightMessage && form == old(form)
      ensures FlightNumber.ValidFlightNumber(old(form).flightNumber) && departure.None? ==>
                error == old(error) && form == old(form)
      ensures !added ==> app.trips == old(app.trips)
      ensures added ==> app.trips == [NewTrip(old(form), id, departure.value)] + old(app.trips)
      ensures added ==> app.trips[0].remaining == app.trips[0].capacity == old(form).capacity
      ensures added ==> !app.trips[0].isCompanion
      ensures added ==> app.MyTrips() == [app.trips[0]] + Trips.MyTrips(old(app.trips))
      ensures added ==> form == EmptyForm && error == ""
      ensures app.notifications == old(app.notifications) && app.profile == old(app.profile)
    {
      match Trips.Submit(form, id, departure)
      case Rejected(e) =>
        error := e;
        added := false;
      case Aborted =>
        added := false;
      case Accepted(t) =>
        Trips.PostedTripLeadsMyTrips(form, id, departure.value, app.trips);
        app.AddTrip(t);
        form := EmptyForm;
        error := "";
        added := true;
    }
  }
}
