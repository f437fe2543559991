# GetMyStuff page logic in Dafny

GetMyStuff is a courier marketplace: travellers post their flights with spare
luggage space, and senders browse them. The whole application is one React
page, `app/page.tsx`. Apart from rendering, it holds a small amount of logic,
and this project models that logic and proves properties about it:

- the **departure label** of a trip card. It turns the time left before a
  flight into words ("Leaving in 1 day, 6 hours") and an urgency colour
  (module `Departure`, with number printing in `Decimal`);
- the **flight-number gate** of the post-a-trip form. It is a recogniser for
  `^[A-Z]{2,3}\d{1,4}$`, applied to the upper-cased entry (module
  `FlightNumber`);
- the **post-a-trip form**: the category toggle, building the trip, and
  prepending it to the trip list (modules `Trips` and `Lists`, and class
  `Page.AddTripModal`);
- the **notification feed**: mark one read, mark all read, the unread badge
  and the bell dot (module `Feed`);
- the **profile switches** for the social networks (module `Profile`);
- the **derived views**: "my trips" (module `Trips`) and avatar initials
  (module `Names`);
- the page's **state slots** `trips`, `notifications` and `userProfile`, which
  setters replace wholesale. Class `Page.App` holds them, and one method
  stands for each modelled setter call.

All instants are whole milliseconds. The current time is a parameter: it is
an argument of `Departure.DepartureLabel`, and the trip id and the parse result of the
departure date and time (absent when they make an invalid Date) are arguments of
`Page.AddTripModal.Submit`.

Facts about the code that the model follows:

- The page has no search, ranking, capacity booking or release, and no id or
  capacity checks. The search inputs and the Search and Contact buttons are
  not wired to anything (`app/page.tsx:309-312`, `387`).
- The day form always writes "hours", so 25 hours reads "1 day, 1 hours"
  (`app/page.tsx:73`).
- Notifications are of two kinds, travel and social (`app/page.tsx:54-55`).
- "Mark read" clears every item carrying the id (`app/page.tsx:475`).
- The form has no input for `isCompanion`. It starts and is reset as `false`
  (`app/page.tsx:260`, `271`), so a posted trip always carries `false`; the
  modal's invariant `Page.AddTripModal.Valid` keeps the flag off.

The functions that model each computation:

- `getDepartureLabel` (`app/page.tsx:65-77`) is `Departure.DepartureLabel`,
  built from `Departure.LeavingText` and `Departure.HoursColor`.
- The flight-number gate (`app/page.tsx:265`) is
  `FlightNumber.ValidFlightNumber`, which applies `FlightNumber.MatchesPattern`
  to `FlightNumber.Upper` of the entry.
- `handleSubmit` (`app/page.tsx:263-273`) is `Trips.Submit`, which builds
  the trip with `Trips.NewTrip`; `toggleCategory` (`app/page.tsx:274`) is
  `Trips.ToggleCategory`.
- The avatar initials (`app/page.tsx:323`) are `Names.Initials`; the profile
  avatar is `Names.ProfileInitials`.
- The badge and the bell dot are `Feed.UnreadCount` and `Feed.HasUnread`;
  the two "mark read" actions are `Feed.MarkRead` and `Feed.MarkAllRead`.
- "My trips" (`app/page.tsx:528-529`) is `Trips.MyTrips`, filtering with
  `Trips.Contains` for `includes`.
- `toggleSocial` (`app/page.tsx:137-142`) is `Profile.ToggleSocial`.

## Model

| member | source | states |
|---|---|---|
| Decimal.ParseNatToString | app/page.tsx:73 | A whole number printed into the label text reads back as the same number. |
| Decimal.NatToStringInjective | app/page.tsx:73 | Two numbers print the same text exactly when they are equal. |
| Departure.DepartedIff | app/page.tsx:69 | The label is exactly {"Departed", "text-gray-400"} iff the departure is before now. The grey colour appears only then, so a zero gap is not departed. |
| Departure.LeavingNow | app/page.tsx:68-76 | A zero gap gives "Leaving in 0 hours" in the most urgent colour. |
| Departure.ColorTiers | app/page.tsx:69-76 | For a flight not yet gone: under 3 h (in ms) gives text-red-800 font-bold, 3 h to under 12 h gives text-red-500 font-bold, 12 h or more gives text-amber-600 font-bold. Each holds in both directions. |
| Departure.UrgencyOfHours | app/page.tsx:74-76 | Under 3 whole hours ranks 2, under 12 ranks 1, the rest 0. |
| Departure.HoursMonotone | app/page.tsx:70 | Rounding down to whole hours preserves the order of two non-negative gaps. |
| Departure.UrgencyMonotone | app/page.tsx:69-76 | For a fixed departure, a later `now` before departure never gives a less urgent colour. |
| Departure.DaysAreAmber | app/page.tsx:70-76 | A label for 24 whole hours or more, the day form, is always amber. |
| Departure.LeavingTextInjective | app/page.tsx:70-73 | Different whole-hour counts always give different "Leaving in …" texts, including across the day and hour forms. |
| Departure.TextDeterminesHours | app/page.tsx:69-73 | For flights not yet gone, two labels have the same text iff the floor of hours until departure is the same. |
| Departure.WholeHours | app/page.tsx:70 | A gap of exactly k hours is labelled from k whole hours. |
| Departure.OneHour | app/page.tsx:73-74 | 1 h gives "Leaving in 1 hour" (singular), dark red. |
| Departure.TwoHours | app/page.tsx:73-74 | 2 h gives "Leaving in 2 hours", dark red. |
| Departure.RoundsDown | app/page.tsx:69-74 | 3 h minus 1 ms still gives "Leaving in 2 hours": hours are rounded down. |
| Departure.TenHours | app/page.tsx:73-75 | 10 h gives "Leaving in 10 hours", red. |
| Departure.OneDayOneHours | app/page.tsx:70-76 | 25 h gives "Leaving in 1 day, 1 hours", amber: "hours" stays plural in the day form. |
| Departure.OneDaySixHours | app/page.tsx:70-76 | 30 h gives "Leaving in 1 day, 6 hours", amber. |
| Departure.TwoDays | app/page.tsx:70-76 | 48 h gives "Leaving in 2 days", with no hours part when the remainder is 0. |
| Departure.TwoDaysSevenHours | app/page.tsx:70-76 | 55 h gives "Leaving in 2 days, 7 hours". |
| FlightNumber.Upper | app/page.tsx:265 | Upper-casing keeps the length and maps each character by ASCII upper-casing. |
| FlightNumber.LeadingLetters | app/page.tsx:265 | Gives the length of the longest prefix of capital letters A-Z. |
| FlightNumber.MatchesPatternIff | app/page.tsx:265 | The greedy recogniser accepts a string iff it is 2 or 3 capital letters followed by 1 to 4 digits. |
| FlightNumber.UpperKeepsClass | app/page.tsx:265 | The upper-cased entry splits into k capital letters and 1 to 4 digits exactly when the typed entry splits into k letters of either case and 1 to 4 digits. |
| FlightNumber.ValidFlightNumberIff | app/page.tsx:265 | The submit check passes exactly when the field is empty or holds 2 or 3 letters of either case followed by 1 to 4 digits. |
| FlightNumber.CaseInsensitive | app/page.tsx:265 | An entry and its upper-cased form are accepted or rejected alike. |
| FlightNumber.AcceptedShape | app/page.tsx:265 | An accepted non-empty entry has 3 to 7 characters, each an ASCII letter of either case or a digit. |
| FlightNumber.EmptyPasses | app/page.tsx:265 | An empty flight number skips the check. |
| FlightNumber.AcceptsUpperCase | app/page.tsx:265 | "EK202" passes. |
| FlightNumber.AcceptsLowerCase | app/page.tsx:265 | "ek202" passes. |
| FlightNumber.AcceptsLongest | app/page.tsx:265 | "ABC1234" (3 letters, 4 digits) passes. |
| FlightNumber.RejectsOneLetter | app/page.tsx:265 | "E2" fails. |
| FlightNumber.RejectsNoDigits | app/page.tsx:265 | "EK" fails. |
| FlightNumber.RejectsFiveDigits | app/page.tsx:265 | "EK12345" fails. |
| FlightNumber.RejectsFourLetters | app/page.tsx:265 | "ABCD12" fails. |
| FlightNumber.RejectsTrailingLetter | app/page.tsx:265 | "EK20A" fails: nothing may follow the digits. |
| Lists.Without | app/page.tsx:274 | `filter(c => c !== cat)` leaves no `cat`, keeps every other element, and adds nothing. |
| Lists.WithoutConcat | app/page.tsx:274 | Filtering distributes over concatenation, so the survivors keep their order. |
| Trips.ToggleCategory | app/page.tsx:274 | The toggled category is present afterwards iff it was absent before. Every other category keeps its membership. An absent category is appended at the end. A present one is filtered out, and the others keep their order. |
| Trips.ToggleTwiceAbsent | app/page.tsx:274 | Toggling an absent category twice gives back the original list exactly. |
| Trips.ToggleTwicePresent | app/page.tsx:274 | Toggling a present category twice removes all its copies and appends one at the end. |
| Trips.ToggleRemovesInPlace | app/page.tsx:274 | Deselecting `c` from `before + [c] + after` gives `before + after`, in order. |
| Trips.ToggleKeepsNoDup | app/page.tsx:274 | A duplicate-free selection stays duplicate-free. Its length goes down or up by exactly one. |
| Trips.CategoryButtons | app/page.tsx:45 | The category buttons offer every category, each once. |
| Trips.NewTrip | app/page.tsx:270 | A posted trip has remaining equal to capacity. Its from, to, date, time, categories, flight number and companion flag are copied from the form. It carries the given id and departure and the fixed poster profile. |
| Trips.Submit | app/page.tsx:265-270 | A submission is rejected iff the flight number is non-empty and its upper-cased form does not match. A rejection carries the error message. It aborts iff the flight number passes but the date and time do not parse. It is accepted iff both pass. An accepted trip has remaining equal to capacity, its flight number as typed, and the parsed instant. |
| Trips.LowerCaseStoredAsTyped | app/page.tsx:265-270 | A form with "ek202" is accepted, and the trip keeps "ek202", not "EK202". |
| Trips.ContainsIff | app/page.tsx:528 | `includes(sub)` holds iff `sub` starts at some position of the string. |
| Trips.MyTrips | app/page.tsx:528-529 | "My trips" holds exactly the trips whose user name includes "Ketan", and is no longer than the list. |
| Trips.MyTripsConcat | app/page.tsx:528-529 | The view distributes over concatenation, so it keeps the order of the trip list. |
| Trips.PosterIsMine | app/page.tsx:270 | A trip by the fixed poster "Ketan Saxena" is one of "my trips". |
| Trips.PostedTripLeadsMyTrips | app/page.tsx:270 | After a trip built from the form is prepended, "my trips" is that trip followed by the previous view. |
| Feed.MarkRead | app/page.tsx:475 | Only items with the clicked id lose their unread flag. Length, order and every other field are kept. |
| Feed.MarkAllRead | app/page.tsx:476 | Every unread flag is cleared. Length, order and every other field are kept. |
| Feed.UnreadCount | app/page.tsx:399 | The badge count never exceeds the number of notifications. |
| Feed.BellIffUnread | app/page.tsx:399-470 | The bell dot (`some`) shows iff the badge count (`filter().length`) is positive. |
| Feed.MarkReadUnknownId | app/page.tsx:475 | Marking an id that no notification carries changes nothing. |
| Feed.MarkReadIdempotent | app/page.tsx:475 | Marking the same id twice is the same as marking it once. |
| Feed.MarkReadCommutes | app/page.tsx:475 | Two clicks give the same feed in either order. |
| Feed.MarkReadCount | app/page.tsx:399-475 | Marking never raises the badge. It lowers the badge iff some unread item carries the id. |
| Feed.MarkAllReadClears | app/page.tsx:399-476 | After "mark all read" the badge is 0 and the bell dot is off. |
| Feed.MarkEachIsMarkAll | app/page.tsx:475-476 | Clicking each notification in turn gives the same feed as "mark all read". |
| Feed.MarkAllReadExample | app/page.tsx:476 | Two unread and one read: the badge goes from 2 to 0, and the three items stay in order. |
| Feed.InitialFeed | app/page.tsx:53-56 | The initial feed shows a badge of 2 and the bell dot. |
| Names.Split | app/page.tsx:323 | `split(' ')` gives at least one piece, and no piece contains a space. |
| Names.SplitJoin | app/page.tsx:323 | Joining the pieces with single spaces gives back the name. |
| Names.InitialsAreWordStarts | app/page.tsx:323 | The initials are exactly the characters that begin a word: not a space, and first or right after a space. |
| Names.DoubledSpaceIgnored | app/page.tsx:323 | A doubled space makes an empty piece. It adds no initial. |
| Names.LeadingSpaceIgnored | app/page.tsx:323 | A leading space makes an empty first piece. It adds no initial. |
| Names.ProfileInitialsAgree | app/page.tsx:163 | For names without spaces, the profile avatar (`firstName[0]` and `lastName[0]`) matches the trip-card initials. |
| Names.InitialsOfPosterName | app/page.tsx:323 | "Ketan Saxena" gives "KS". |
| Names.InitialsOfEmptyName | app/page.tsx:323 | An empty name gives no initials. |
| Profile.ToggleSocial | app/page.tsx:137-142 | The switch for `key` flips, and a missing key reads as off so it turns on. Every other switch is kept. No key is lost. |
| Profile.ToggleSocialTwice | app/page.tsx:137-142 | Flipping a present switch twice restores the switches. |
| Profile.ToggleSocialCommutes | app/page.tsx:137-142 | Flipping two different switches gives the same result in either order. |
| Profile.ToggleKeepsAllSwitches | app/page.tsx:137-142 | When every network has a switch, it still does after a flip, with the same keys. |
| Profile.InitialProfileHasAllSwitches | app/page.tsx:434-438 | The initial profile has a switch for LinkedIn, Facebook and Instagram. |
| Page.App.constructor | app/page.tsx:429-438 | The page starts with the given trips, the two initial notifications and the initial profile. |
| Page.App.AddTrip | app/page.tsx:445 | `onAdd`: the new trip becomes element 0, and the old list follows unchanged. Nothing else changes. |
| Page.App.MarkRead | app/page.tsx:475 | The feed becomes `Feed.MarkRead` of the old feed, and the badge does not go up. Trips and profile are unchanged. |
| Page.App.MarkAllRead | app/page.tsx:476 | The feed becomes `Feed.MarkAllRead` of the old feed. The badge is 0 and the bell dot is off afterwards. |
| Page.App.ToggleSocial | app/page.tsx:137-142 | Only the profile's switches change, by `Profile.ToggleSocial`. Every network keeps a switch. |
| Page.App.UnreadCount | app/page.tsx:399 | The badge of the current feed never exceeds its length. |
| Page.App.ShowBellDot | app/page.tsx:470 | The bell dot shows iff the badge count is positive. |
| Page.App.MyTrips | app/page.tsx:528-529 | The itinerary holds exactly the current trips whose user name includes "Ketan". |
| Page.AddTripModal.constructor | app/page.tsx:260-261 | The modal opens with the empty form (time "12:00") and no error. |
| Page.AddTripModal.ToggleCategory | app/page.tsx:274 | Only the form's categories change, by `Trips.ToggleCategory`. They stay duplicate-free. |
| Page.AddTripModal.EditFlightNumber | app/page.tsx:289 | Typing sets the flight number and clears the error. |
| Page.AddTripModal.Submit | app/page.tsx:263-273 | A trip is added iff the flight number passes and the date and time parse. On a bad flight number the error is set and the form and trip list are unchanged. On a parse failure nothing changes: form, error and trip list stay as they were. On success the trip is prepended with remaining equal to capacity and the companion flag off, it heads "my trips", and the form and error are reset. |

## Left out

- Rendering: JSX, CSS classes, icons, and the open or closed flags of modals, sidebar and notification panel. These are presentation only, as are the mode switch and the sidebar's edit mode.
- The clock: `new Date()` in the label and `Date.now()` as trip id are parameters. The mock trips come from `getRelativeDate`, which reads the clock, so the `Page.App` constructor takes the initial trips as an argument.
- Date parsing and formatting (`toISOString` of the form's date and time, `toLocaleDateString` in the itinerary): these are locale- and time-zone-dependent library calls. The result of parsing is a parameter of `Page.AddTripModal.Submit`: `None` stands for an invalid Date, on which `toISOString` throws and the submit is aborted. Which date and time texts make an invalid Date is not modelled. The label of an unparsable date (NaN arithmetic) is not modelled.
- `setTimeout` in the support modal: asynchronous UI timing, with nothing to prove.
- The browser's `required` checks on the form inputs, which run before `handleSubmit`: the model lets any form reach the flight-number check, and an empty date reaches the parse, which then fails.
- The other form fields (from, to, date, time, capacity) and the profile name inputs only replace one field with the typed text. They are not modelled.
- Departure.DepartureLabel: uses exact integer floor division of the gap. The floating-point division of the source could round differently only for gaps of more than about 10^5 years.
- Decimal.NatToString: prints plain digits. JavaScript switches to exponent notation at 10^21 and above.
- FlightNumber.Upper: upper-cases ASCII letters only. Full Unicode `toUpperCase` also maps characters such as 'ı' to 'I' and 'ſ' to 'S', so the source accepts some non-ASCII entries that the model rejects.
- Names.FirstChars: takes the first character of a piece, where JavaScript takes the first UTF-16 code unit. The two differ for characters outside the Basic Multilingual Plane.
- Capacity and remaining space are kept as the text typed into the number input. Number semantics, such as the mock data's 3.5 kg, are not modelled.
- Search, ranking, and capacity booking or release: the source has no code for them. The search inputs, the Search button and the Contact button are not wired to anything.
