/** Trips as the page holds them: the post-a-trip form, the trip it turns
    into, the category toggle of the form, and the "my trips" view. */
module Trips {
  import opened Lists
  import FlightNumber

  /** The fixed category vocabulary offered by the form. */
  datatype Category = Documents | Electronics | Clothing | Food | Gifts | Other

  const AllCategories: seq<Category> := [Documents, Electronics, Clothing, Food, Gifts, Other]

  /** The form shows one button per entry of `AllCategories`: every category
      is offered, and none twice. */
  lemma CategoryButtons()
    ensures forall c: Category :: c in AllCategories
    ensures NoDup(AllCategories)
  {
    forall c: Category ensures c in AllCategories {
      match c
      case Documents => assert AllCategories[0] == c;
      case Electronics => assert AllCategories[1] == c;
      case Clothing => assert AllCategories[2] == c;
      case Food => assert AllCategories[3] == c;
      case Gifts => assert AllCategories[4] == c;
      case Other => assert AllCategories[5] == c;
    }
  }

  /** The social networks a profile can be linked to. */
  datatype Social = LinkedIn | Facebook | Instagram

  datatype User = User(
    name: string,
    level: int,
    rating: real,
    tripsCompleted: int,
    isVerified: bool,
    socials: seq<Social>)

  /** The form state. `capacity` is the text of the number input, kept as typed. */
  datatype TripForm = TripForm(
    from: string,
    to: string,
    date: string,
    time: string,
    capacity: string,
    categories: seq<Category>,
    isCompanion: bool,
    flightNumber: string)

  /** A posted trip: the form's fields, plus the departure instant (whole
      milliseconds), an id, the remaining space and the poster. */
  datatype Trip = Trip(
    id: int,
    user: User,
    from: string,
    to: string,
    date: string,
    time: string,
    departureTime: int,
    capacity: string,
    remaining: string,
    categories: seq<Category>,
    isCompanion: bool,
    flightNumber: string)

  /** The form as it opens and as it is reset after a successful post. */
  const EmptyForm: TripForm := TripForm("", "", "", "12:00", "", [], false, "")

  const InvalidFlightMessage: string := "Please enter a valid flight number (e.g., EK202)"

  /** Every trip posted from the form is attributed to this fixed profile. */
  function Poster(): User {
    User("Ketan Saxena", 4, 5.0, 12, true, [LinkedIn, Instagram])
  }

  // ---------------------------------------------------------------------
  // The category toggle

  /** Remove every occurrence of a selected category, or append an unselected one. */
  function ToggleCategory(cats: seq<Category>, c: Category): (r: seq<Category>)
    ensures c in r <==> c !in cats
    ensures forall x :: x in cats && x != c ==> x in r
    ensures forall x :: x in r ==> x in cats || x == c
    ensures c !in cats ==> r == cats + [c]
    ensures c in cats ==> r == Without(cats, c)
  {
    if c in cats then Without(cats, c) else cats + [c]
  }

  /** Toggling an unselected category twice restores the list exactly. */
  lemma ToggleTwiceAbsent(cats: seq<Category>, c: Category)
    requires c !in cats
    ensures ToggleCategory(ToggleCategory(cats, c), c) == cats
  {
    WithoutConcat(cats, [c], c);
    WithoutAbsent(cats, c);
    assert Without([c], c) == [];
  }

  /** Toggling a selected category twice moves it to the end. */
  lemma ToggleTwicePresent(cats: seq<Category>, c: Category)
    requires c in cats
    ensures ToggleCategory(ToggleCategory(cats, c), c) == Without(cats, c) + [c]
  {
  }

  /** Deselecting removes the category and keeps the others in their order. */
  lemma ToggleRemovesInPlace(before: seq<Category>, c: Category, after: seq<Category>)
    requires c !in before && c !in after
    ensures ToggleCategory(before + [c] + after, c) == before + after
  {
    var s := before + [c] + after;
    assert s[|before|] == c;
    WithoutOnce(before, c, after);
  }

  /** Toggling keeps a duplicate-free selection duplicate-free and changes
      its length by one. */
  lemma ToggleKeepsNoDup(cats: seq<Category>, c: Category)
    requires NoDup(cats)
    ensures NoDup(ToggleCategory(cats, c))
    ensures |ToggleCategory(cats, c)| == if c in cats then |cats| - 1 else |cats| + 1
  {
    if c in cats {
      WithoutNoDup(cats, c);
      WithoutLength(cats, c);
      NoDupCount(cats, c);
    } else {
      AppendNoDup(cats, c);
    }
  }

  // ---------------------------------------------------------------------
  // Submitting the form

  datatype Option<T> = None | Some(value: T)

  /** The outcome of `handleSubmit`. `Aborted` is the exception thrown by
      `toISOString` when the date and time do not make a valid instant:
      nothing is added and no state changes. */
  datatype Submission = Rejected(error: string) | Aborted | Accepted(trip: Trip)

  /** The trip built from an accepted form: the form's fields, its remaining
      space equal to its capacity, and the fixed poster. */
  function NewTrip(form: TripForm, id: int, departureTime: int): (t: Trip)
    ensures t.remaining == t.capacity == form.capacity
    ensures t.flightNumber == form.flightNumber && t.categories == form.categories
    ensures t.isCompanion == form.isCompanion
    ensures t.from == form.from && t.to == form.to && t.date == form.date && t.time == form.time
    ensures t.id == id && t.departureTime == departureTime && t.user == Poster()
  {
    Trip(id, Poster(), form.from, form.to, form.date, form.time, departureTime,
         form.capacity, form.capacity, form.categories, form.isCompanion, form.flightNumber)
  }

  /** Submitting the form: reject a filled-in flight number that does not
      match the pattern; otherwise parse the date and time, which either
      fails (`departure` is `None`) or gives the instant the trip carries. */
  function Submit(form: TripForm, id: int, departure: Option<int>): (r: Submission)
    ensures r.Rejected? <==> form.flightNumber != [] && !FlightNumber.MatchesPattern(FlightNumber.Upper(form.flightNumber))
    ensures r.Rejected? ==> r.error == InvalidFlightMessage
    ensures r.Aborted? <==> FlightNumber.ValidFlightNumber(form.flightNumber) && departure.None?
    ensures r.Accepted? <==> FlightNumber.ValidFlightNumber(form.flightNumber) && departure.Some?
    ensures r.Accepted? ==> r.trip.remaining == r.trip.capacity == form.capacity
    ensures r.Accepted? ==> r.trip.flightNumber == form.flightNumber
    ensures r.Accepted? ==> r.trip.id == id && r.trip.departureTime == departure.value
  {
    if !FlightNumber.ValidFlightNumber(form.flightNumber) then Rejected(InvalidFlightMessage)
    else if departure.None? then Aborted
    else Accepted(NewTrip(form, id, departure.value))
  }

  /** A lower-case flight number is accepted and stored as typed. */
  lemma LowerCaseStoredAsTyped(form: TripForm, id: int, departureTime: int)
    requires form.flightNumber == "ek202"
    ensures Submit(form, id, Some(departureTime)).Accepted?
    ensures Submit(form, id, Some(departureTime)).trip.flightNumber == "ek202"
  {
    FlightNumber.AcceptsLowerCase();
  }

  // ---------------------------------------------------------------------
  // "My trips"

  predicate IsPrefix(p: string, s: string) {
    |p| <= |s| && s[..|p|] == p
  }

  /** `s.includes(sub)`. */
  predicate Contains(s: string, sub: string)
    decreases |s|
  {
    IsPrefix(sub, s) || (s != [] && Contains(s[1..], sub))
  }

  /** Contains holds exactly when `sub` starts at some position of `s`. */
  lemma {:induction false} ContainsIff(s: string, sub: string)
    ensures Contains(s, sub) <==> exists i :: 0 <= i <= |s| && IsPrefix(sub, s[i..])
    decreases |s|
  {
    if Contains(s, sub) && !IsPrefix(sub, s) {
      ContainsIff(s[1..], sub);
      var i :| 0 <= i <= |s[1..]| && IsPrefix(sub, s[1..][i..]);
      assert s[1..][i..] == s[i + 1..];
    }
    if Contains(s, sub) && IsPrefix(sub, s) {
      assert s[0..] == s;
    }
    if exists i :: 0 <= i <= |s| && IsPrefix(sub, s[i..]) {
      var i :| 0 <= i <= |s| && IsPrefix(sub, s[i..]);
      if i == 0 {
        assert s[0..] == s;
      } else {
        assert s[1..][i - 1..] == s[i..];
        ContainsIff(s[1..], sub);
      }
    }
  }

  /** The trips shown under "Your Active Itinerary". */
  predicate IsMine(t: Trip) {
    Contains(t.user.name, "Ketan")
  }

  function MyTrips(trips: seq<Trip>): (r: seq<Trip>)
    ensures |r| <= |trips|
    ensures forall t :: t in r ==> t in trips && IsMine(t)
    ensures forall t :: t in trips && IsMine(t) ==> t in r
  {
    if trips == [] then []
    else (if IsMine(trips[0]) then [trips[0]] else []) + MyTrips(trips[1..])
  }

  /** The view keeps the order of the trip list. */
  lemma {:induction false} MyTripsConcat(a: seq<Trip>, b: seq<Trip>)
    ensures MyTrips(a + b) == MyTrips(a) + MyTrips(b)
  {
    if a == [] {
      assert a + b == b;
    } else {
      assert (a + b)[1..] == a[1..] + b;
      MyTripsConcat(a[1..], b);
    }
  }

  lemma PosterIsMine(t: Trip)
    requires t.user == Poster()
    ensures IsMine(t)
  {
    assert IsPrefix("Ketan", "Ketan Saxena");
  }

  /** A trip just posted from the form heads the "my trips" view, followed
      by the trips that were there before. */
  lemma PostedTripLeadsMyTrips(form: TripForm, id: int, departureTime: int, trips: seq<Trip>)
    ensures MyTrips([NewTrip(form, id, departureTime)] + trips)
            == [NewTrip(form, id, departureTime)] + MyTrips(trips)
  {
    var t := NewTrip(form, id, departureTime);
    PosterIsMine(t);
    assert ([t] + trips)[1..] == trips;
  }
}
