/** Bookings of photo shoots: a customer's open bookings never overlap. Times in milliseconds. */
module Booking {
  import opened Wrappers

  const HOUR: int := 1000 * 60 * 60
  const DAY: int := 24 * HOUR

  datatype Status = Requested | Accepted | Denied | Successed | Failed

  /** `photographer` owns the package the booking was made from, if it still exists. */
  datatype Booking = Booking(user: nat, photographer: Option<nat>, start: int, end: int, status: Status)

  datatype Package = Package(photographer: nat, enabled: bool)

  datatype State = State(now: int, bookings: seq<Booking>)

  datatype Error =
    | NotFound | PackageNotFound | NotBelong | NotInValidState | NotInRequestedState
    | CannotBookOwnedPackage | PackageDisabled | BothStartEndDateMustSpecify
    | StartDateTooEarly | EndBeforeStart | ShorterThanThreeHours | ExistBookingWithSelectedDate

  datatype Outcome = Done(state: State) | Refused(error: Error)

  predicate Open(b: Booking) {
    b.status == Requested || b.status == Accepted
  }

  /** None when the dates are acceptable. */
  function ValidateStartEndDate(now: int, start: int, end: int): Option<Error> {
    if start - now < DAY then Some(StartDateTooEarly)
    else if end - start < 0 then Some(EndBeforeStart)
    else if end - start < 3 * HOUR then Some(ShorterThanThreeHours)
    else None
  }

  predicate Overlaps(b: Booking, user: nat, start: int, end: int) {
    b.user == user && Open(b) && b.start <= end && b.end >= start
  }

  predicate AnyOverlap(bookings: seq<Booking>, user: nat, start: int, end: int) {
    exists i :: 0 <= i < |bookings| && Overlaps(bookings[i], user, start, end)
  }

  function RequestBooking(s: State, user: nat, package: Option<Package>, start: int, end: int): Outcome {
    if package.None? then Refused(PackageNotFound)
    else if package.value.photographer == user then Refused(CannotBookOwnedPackage)
    else if !package.value.enabled then Refused(PackageDisabled)
    else
      match ValidateStartEndDate(s.now, start, end)
      case Some(e) => Refused(e)
      case None =>
        if AnyOverlap(s.bookings, user, start, end) then Refused(ExistBookingWithSelectedDate)
        else Done(s.(bookings := s.bookings
               + [Booking(user, Some(package.value.photographer), start, end, Requested)]))
  }

  /** None when the photographer may act on the booking. */
  function Checked(s: State, photographer: nat, id: nat): Option<Error> {
    if id >= |s.bookings| then Some(NotFound)
    else if s.bookings[id].photographer.None? then Some(PackageNotFound)
    else if s.bookings[id].photographer.value != photographer then Some(NotBelong)
    else None
  }

  function WithDates(s: State, id: nat, start: int, end: int): State
    requires id < |s.bookings|
  {
    s.(bookings := s.bookings[id := s.bookings[id].(start := start, end := end)])
  }

  /** Both dates, or neither when only the note changes. */
  function UpdateById(s: State, photographer: nat, id: nat, start: Option<int>, end: Option<int>): Outcome {
    if start.Some? != end.Some? then Refused(BothStartEndDateMustSpecify)
    else if Checked(s, photographer, id).Some? then Refused(Checked(s, photographer, id).value)
    else if !Open(s.bookings[id]) then Refused(NotInValidState)
    else if start.None? then Done(s)
    else
      match ValidateStartEndDate(s.now, start.value, end.value)
      case Some(e) => Refused(e)
      case None =>
        // the booking itself is among those looked at
        if AnyOverlap(s.bookings, s.bookings[id].user, start.value, end.value) then
          Refused(ExistBookingWithSelectedDate)
        else Done(WithDates(s, id, start.value, end.value))
  }

  function Decide(s: State, photographer: nat, id: nat, from: Status, to: Status, wrong: Error): Outcome {
    if Checked(s, photographer, id).Some? then Refused(Checked(s, photographer, id).value)
    else if s.bookings[id].status != from then Refused(wrong)
    else Done(s.(bookings := s.bookings[id := s.bookings[id].(status := to)]))
  }

  datatype Event =
    | Tick(ms: nat)
    | EvRequest(user: nat, package: Option<Package>, start: int, end: int)
    | EvUpdate(photographer: nat, id: nat, newStart: Option<int>, newEnd: Option<int>)
    | EvAccept(photographer: nat, id: nat)
    | EvDeny(photographer: nat, id: nat)
    | EvPaid(photographer: nat, id: nat)
    | EvPackageRemoved(id: nat)

  function Step(s: State, e: Event): Outcome {
    match e
    case Tick(ms) => Done(s.(now := s.now + ms))
    case EvRequest(user, package, start, end) => RequestBooking(s, user, package, start, end)
    case EvUpdate(photographer, id, start, end) => UpdateById(s, photographer, id, start, end)
    case EvAccept(photographer, id) => Decide(s, photographer, id, Requested, Accepted, NotInRequestedState)
    case EvDeny(photographer, id) => Decide(s, photographer, id, Requested, Denied, NotInRequestedState)
    case EvPaid(photographer, id) => Decide(s, photographer, id, Accepted, Successed, NotInValidState)
    case EvPackageRemoved(id) =>
      if id < |s.bookings| then
        Done(s.(bookings := s.bookings[id := s.bookings[id].(photographer := None)]))
      else Refused(NotFound)
  }

  function Next(s: State, e: Event): State {
    match Step(s, e) case Done(t) => t case Refused(_) => s
  }

  function Run(s: State, events: seq<Event>): State
    decreases |events|
  {
    if events == [] then s else Run(Next(s, events[0]), events[1..])
  }

  const INITIAL: State := State(0, [])

  // ---- open bookings are apart ----

  predicate Apart(b: Booking, c: Booking) {
    b.end < c.start || c.end < b.start
  }

  /** A customer's open bookings are pairwise disjoint closed intervals of at least three hours. */
  ghost predicate Scheduled(bookings: seq<Booking>) {
    && (forall i: nat | i < |bookings| :: Open(bookings[i]) ==> bookings[i].end - bookings[i].start >= 3 * HOUR)
    && (forall i: nat, j: nat | i < |bookings| && j < |bookings| && i != j ::
          Open(bookings[i]) && Open(bookings[j]) && bookings[i].user == bookings[j].user ==>
            Apart(bookings[i], bookings[j]))
  }

  lemma BookedScheduled(bookings: seq<Booking>, b: Booking)
    requires Scheduled(bookings) && b.end - b.start >= 3 * HOUR
    requires !AnyOverlap(bookings, b.user, b.start, b.end)
    ensures Scheduled(bookings + [b])
  {
    var more := bookings + [b];
    forall i: nat, j: nat | i < |more| && j < |more| && i != j
      && Open(more[i]) && Open(more[j]) && more[i].user == more[j].user
      ensures Apart(more[i], more[j])
    {
      assert i < |bookings| ==> !Overlaps(bookings[i], b.user, b.start, b.end);
      assert j < |bookings| ==> !Overlaps(bookings[j], b.user, b.start, b.end);
    }
  }

  lemma RebookedScheduled(bookings: seq<Booking>, id: nat, b: Booking)
    requires Scheduled(bookings) && id < |bookings| && b.user == bookings[id].user
    requires b.end - b.start >= 3 * HOUR && !AnyOverlap(bookings, b.user, b.start, b.end)
    ensures Scheduled(bookings[id := b])
  {
    var more := bookings[id := b];
    forall i: nat, j: nat | i < |more| && j < |more| && i != j
      && Open(more[i]) && Open(more[j]) && more[i].user == more[j].user
      ensures Apart(more[i], more[j])
    {
      assert !Overlaps(bookings[i], b.user, b.start, b.end) && !Overlaps(bookings[j], b.user, b.start, b.end);
    }
  }

  lemma StepScheduled(s: State, e: Event)
    requires Scheduled(s.bookings)
    ensures Scheduled(Next(s, e).bookings)
  {
    if Step(s, e).Done? {
      match e
      case EvRequest(user, package, start, end) => BookedScheduled(s.bookings, Next(s, e).bookings[|s.bookings|]);
      case EvUpdate(photographer, id, start, end) =>
        if start.Some? {
          RebookedScheduled(s.bookings, id, s.bookings[id].(start := start.value, end := end.value));
        }
      case _ =>
    }
  }

  lemma {:induction false} RunScheduled(s: State, events: seq<Event>)
    requires Scheduled(s.bookings)
    ensures Scheduled(Run(s, events).bookings)
    decreases |events|
  {
    if events == [] {
    } else {
      StepScheduled(s, events[0]);
      RunScheduled(Next(s, events[0]), events[1..]);
    }
  }

  /** In every run of requests, reschedules, decisions and payments the open bookings stay apart. */
  lemma BookingsStayApart(events: seq<Event>)
    ensures Scheduled(Run(INITIAL, events).bookings)
  {
    RunScheduled(INITIAL, events);
  }

  /** A request is accepted exactly when it is for an enabled package of somebody else, starts a day
      ahead, and the result keeps the customer's schedule; it adds the requested booking. */
  lemma RequestAcceptedExactly(s: State, user: nat, package: Option<Package>, start: int, end: int)
    requires Scheduled(s.bookings)
    ensures RequestBooking(s, user, package, start, end).Done?
       <==> package.Some? && package.value.enabled && package.value.photographer != user
            && start - s.now >= 1000 * 60 * 60 * 24
            && Scheduled(s.bookings + [Booking(user, Some(package.value.photographer), start, end, Requested)])
    ensures RequestBooking(s, user, package, start, end).Done? ==>
      Next(s, EvRequest(user, package, start, end))
        == s.(bookings := s.bookings + [Booking(user, Some(package.value.photographer), start, end, Requested)])
    ensures forall ms: nat :: Next(s, Tick(ms)) == s.(now := s.now + ms)
  {
    if package.Some? {
      var b := Booking(user, Some(package.value.photographer), start, end, Requested);
      var more := s.bookings + [b];
      if AnyOverlap(s.bookings, user, start, end) {
        var i :| 0 <= i < |s.bookings| && Overlaps(s.bookings[i], user, start, end);
        assert more[i] == s.bookings[i] && more[|s.bookings|] == b;
      } else {
        if ValidateStartEndDate(s.now, start, end).Some? {
          assert more[|s.bookings|] == b;
        } else if package.value.photographer != user && package.value.enabled {
          BookedScheduled(s.bookings, b);
        }
      }
    }
  }

  /** The customer has no open booking, this one included, that meets the closed interval. */
  predicate Free(s: State, user: nat, start: int, end: int) {
    forall i :: 0 <= i < |s.bookings| && s.bookings[i].user == user
      && (s.bookings[i].status == Requested || s.bookings[i].status == Accepted)
      ==> s.bookings[i].end < start || end < s.bookings[i].start
  }

  predicate OwnedBy(s: State, photographer: nat, id: nat) {
    id < |s.bookings| && s.bookings[id].photographer == Some(photographer)
  }

  /** One booking is replaced and nothing else is changed. */
  predicate OnlyBooking(s: State, s': State, id: nat, b: Booking) {
    id < |s.bookings| && s' == s.(bookings := s.bookings[id := b])
  }

  /** A booking is moved exactly when its photographer asks while it is open, with both dates, a day
      ahead, three hours long and free of the customer's open bookings; it gets those dates. */
  lemma MovedExactly(s: State, photographer: nat, id: nat, start: int, end: int)
    ensures var e := EvUpdate(photographer, id, Some(start), Some(end));
      && (Step(s, e).Done? <==>
            OwnedBy(s, photographer, id) && (s.bookings[id].status == Requested || s.bookings[id].status == Accepted)
            && start - s.now >= 1000 * 60 * 60 * 24 && end - start >= 1000 * 60 * 60 * 3
            && Free(s, s.bookings[id].user, start, end))
      && (Step(s, e).Done? ==> OnlyBooking(s, Next(s, e), id, s.bookings[id].(start := start, end := end)))
    ensures Step(s, EvUpdate(photographer, id, Some(start), None)).Refused?
    ensures Step(s, EvUpdate(photographer, id, None, Some(end))).Refused?
    ensures Next(s, EvUpdate(photographer, id, None, None)) == s
  {
    if OwnedBy(s, photographer, id) && AnyOverlap(s.bookings, s.bookings[id].user, start, end) {
      var i :| 0 <= i < |s.bookings| && Overlaps(s.bookings[i], s.bookings[id].user, start, end);
    }
  }

  /** A booking is accepted or denied exactly when its photographer asks while it is requested, and
      paid when it is accepted; only its status changes. */
  lemma DecidedExactly(s: State, e: Event)
    requires e.EvAccept? || e.EvDeny? || e.EvPaid?
    ensures Step(s, e).Done? <==>
      OwnedBy(s, e.photographer, e.id) && s.bookings[e.id].status == if e.EvPaid? then Accepted else Requested
    ensures Step(s, e).Done? ==>
      OnlyBooking(s, Next(s, e), e.id, s.bookings[e.id].(
        status := if e.EvAccept? then Accepted else if e.EvDeny? then Denied else Successed))
  {
  }

  // ---- the life of a booking ----

  /** What may become of a booking in one step, and on whose request. */
  predicate Lawful(b: Booking, c: Booking, e: Event) {
    || c == b
    || (e.EvPackageRemoved? && c == b.(photographer := None))
    || (e.EvUpdate? && b.photographer == Some(e.photographer) && Open(b) && c == b.(start := c.start, end := c.end))
    || (e.EvAccept? && b.photographer == Some(e.photographer) && b.status == Requested && c == b.(status := Accepted))
    || (e.EvDeny? && b.photographer == Some(e.photographer) && b.status == Requested && c == b.(status := Denied))
    || (e.EvPaid? && b.photographer == Some(e.photographer) && b.status == Accepted && c == b.(status := Successed))
  }

  lemma StepLawful(s: State, e: Event, i: nat)
    requires i < |s.bookings|
    ensures i < |Next(s, e).bookings| && Lawful(s.bookings[i], Next(s, e).bookings[i], e)
  {
  }

  /** A booking that is denied or paid keeps its status, customer and dates for ever. */
  lemma {:induction false} ClosedForEver(s: State, events: seq<Event>, i: nat)
    requires i < |s.bookings| && !Open(s.bookings[i])
    ensures i < |Run(s, events).bookings|
    ensures Run(s, events).bookings[i] == s.bookings[i].(photographer := Run(s, events).bookings[i].photographer)
    decreases |events|
  {
    if events == [] {
    } else {
      StepLawful(s, events[0], i);
      ClosedForEver(Next(s, events[0]), events[1..], i);
    }
  }

  // ---- how many fit ----

  predicate Inside(b: Booking, user: nat, from: int, to: int) {
    Open(b) && b.user == user && from <= b.start && b.end <= to
  }

  lemma {:induction false} LatestExists(bookings: seq<Booking>, ids: set<nat>) returns (last: nat)
    requires ids != {} && forall i :: i in ids ==> i < |bookings|
    ensures last in ids && forall i :: i in ids ==> bookings[i].start <= bookings[last].start
    decreases |ids|
  {
    var i :| i in ids;
    if ids == {i} {
      last := i;
    } else {
      var rest := LatestExists(bookings, ids - {i});
      last := if bookings[rest].start < bookings[i].start then i else rest;
    }
  }

  /** Open bookings of one customer inside a window take at least three hours of it each. */
  lemma {:induction false} FewFitInWindow(bookings: seq<Booking>, user: nat, ids: set<nat>, from: int, to: int)
    requires Scheduled(bookings) && from <= to
    requires forall i :: i in ids ==> i < |bookings| && Inside(bookings[i], user, from, to)
    ensures |ids| * (3 * HOUR) <= to - from
    decreases |ids|
  {
    if ids == {} {
    } else {
      var last := LatestExists(bookings, ids);
      var rest := ids - {last};
      assert |rest| == |ids| - 1;
      forall i | i in rest ensures Inside(bookings[i], user, from, bookings[last].start) {
        assert Apart(bookings[i], bookings[last]);
      }
      FewFitInWindow(bookings, user, rest, from, bookings[last].start);
    }
  }

  /** In every run, no window of a given length holds more than a third of it in hours. */
  lemma WindowsAreBounded(events: seq<Event>, user: nat, ids: set<nat>, from: int, to: int)
    requires from <= to
    requires forall i :: i in ids ==>
      i < |Run(INITIAL, events).bookings| && Inside(Run(INITIAL, events).bookings[i], user, from, to)
    ensures |ids| <= (to - from) / (3 * HOUR)
  {
    BookingsStayApart(events);
    FewFitInWindow(Run(INITIAL, events).bookings, user, ids, from, to);
  }

  class BookingService {
    var now: int
    var bookings: seq<Booking>

    function View(): State
      reads this
    {
      State(now, bookings)
    }

    constructor ()
      ensures View() == INITIAL
    {
      now, bookings := 0, [];
    }

    predicate Follows(step: Outcome, before: State, error: Option<Error>)
      reads this
    {
      match step
      case Done(s) => error.None? && View() == s
      case Refused(e) => error == Some(e) && View() == before
    }

    method FindOverlap(user: nat, start: int, end: int) returns (found: bool)
      ensures found <==> AnyOverlap(bookings, user, start, end)
    {
      var i := 0;
      while i < |bookings|
        invariant i <= |bookings|
        invariant forall j :: 0 <= j < i ==> !Overlaps(bookings[j], user, start, end)
      {
        if Overlaps(bookings[i], user, start, end) { return true; }
        i := i + 1;
      }
      found := false;
    }

    method RequestBooking(user: nat, package: Option<Package>, start: int, end: int) returns (error: Option<Error>)
      modifies this
      ensures Follows(Step(old(View()), EvRequest(user, package, start, end)), old(View()), error)
    {
      if package.None? { return Some(PackageNotFound); }
      if package.value.photographer == user { return Some(CannotBookOwnedPackage); }
      if !package.value.enabled { return Some(PackageDisabled); }
      var invalid := ValidateStartEndDate(now, start, end);
      if invalid.Some? { return invalid; }
      var overlap := FindOverlap(user, start, end);
      if overlap { return Some(ExistBookingWithSelectedDate); }
      bookings := bookings + [Booking(user, Some(package.value.photographer), start, end, Requested)];
      error := None;
    }

    method UpdateById(photographer: nat, id: nat, start: Option<int>, end: Option<int>) returns (error: Option<Error>)
      modifies this
      ensures Follows(Step(old(View()), EvUpdate(photographer, id, start, end)), old(View()), error)
    {
      if start.Some? != end.Some? { return Some(BothStartEndDateMustSpecify); }
      var wrong := Checked(View(), photographer, id);
      if wrong.Some? { return wrong; }
      if !Open(bookings[id]) { return Some(NotInValidState); }
      if start.Some? {
        var invalid := ValidateStartEndDate(now, start.value, end.value);
        if invalid.Some? { return invalid; }
        var overlap := FindOverlap(bookings[id].user, start.value, end.value);
        if overlap { return Some(ExistBookingWithSelectedDate); }
        bookings := bookings[id := bookings[id].(start := start.value, end := end.value)];
      }
      error := None;
    }

    method Accept(photographer: nat, id: nat) returns (error: Option<Error>)
      modifies this
      ensures Follows(Step(old(View()), EvAccept(photographer, id)), old(View()), error)
    {
      var wrong := Checked(View(), photographer, id);
      if wrong.Some? { return wrong; }
      if bookings[id].status != Requested { return Some(NotInRequestedState); }
      bookings := bookings[id := bookings[id].(status := Accepted)];
      error := None;
    }

    method Deny(photographer: nat, id: nat) returns (error: Option<Error>)
      modifies this
      ensures Follows(Step(old(View()), EvDeny(photographer, id)), old(View()), error)
    {
      var wrong := Checked(View(), photographer, id);
      if wrong.Some? { return wrong; }
      if bookings[id].status != Requested { return Some(NotInRequestedState); }
      bookings := bookings[id := bookings[id].(status := Denied)];
      error := None;
    }

    method UpdateBookingToPaid(photographer: nat, id: nat) returns (error: Option<Error>)
      modifies this
      ensures Follows(Step(old(View()), EvPaid(photographer, id)), old(View()), error)
    {
      var wrong := Checked(View(), photographer, id);
      if wrong.Some? { return wrong; }
      if bookings[id].status != Accepted { return Some(NotInValidState); }
      bookings := bookings[id := bookings[id].(status := Successed)];
      error := None;
    }
  }
}
