/** The stored counter of how much photo storage a user takes, next to the photos themselves. */
module Quota {
  import opened Wrappers

  datatype Photo = Photo(photographer: nat, size: nat, deleted: bool)

  datatype User = User(photoQuotaUsage: int, maxPhotoQuota: nat)

  datatype State = State(users: seq<User>, photos: seq<Photo>)

  datatype Error = NotFound | RunOutPhotoQuota | NotBelongPhoto

  datatype Outcome = Done(state: State) | Refused(error: Error)

  /** The three uploads that count: a photo, a photo left on the file system, a booking photo. */
  function Upload(s: State, user: nat, size: nat): Outcome {
    if user >= |s.users| then Refused(NotFound)
    else
      var u := s.users[user];
      if u.photoQuotaUsage + size >= u.maxPhotoQuota then Refused(RunOutPhotoQuota)
      else Done(s.(photos := s.photos + [Photo(user, size, false)],
                   users := s.users[user := u.(photoQuotaUsage := u.photoQuotaUsage + size)]))
  }

  /** The second version of the booking upload creates the photo and leaves the counter alone. */
  function UploadUncounted(s: State, user: nat, size: nat): Outcome {
    if user >= |s.users| then Refused(NotFound)
    else Done(s.(photos := s.photos + [Photo(user, size, false)]))
  }

  function ReducedUsage(usage: int, quota: nat): int {
    if usage - quota > 0 then usage - quota else 0
  }

  /** Deletion by the photographer (also from a booking), or by the manager (None). */
  function Delete(s: State, deleter: Option<nat>, photo: nat): Outcome {
    if photo >= |s.photos| || s.photos[photo].deleted then Refused(NotFound)
    else
      var p := s.photos[photo];
      if deleter.Some? && p.photographer != deleter.value then Refused(NotBelongPhoto)
      else if p.photographer >= |s.users| then Refused(NotFound)
      else
        var u := s.users[p.photographer];
        Done(s.(photos := s.photos[photo := p.(deleted := true)],
                users := s.users[p.photographer :=
                           u.(photoQuotaUsage := ReducedUsage(u.photoQuotaUsage, p.size))]))
  }

  function SetLimit(s: State, user: nat, limit: nat): Outcome {
    if user >= |s.users| then Refused(NotFound)
    else Done(s.(users := s.users[user := s.users[user].(maxPhotoQuota := limit)]))
  }

  datatype Event =
    | Register(limit: nat)
    | EvUpload(user: nat, size: nat)
    | EvUploadUncounted(user: nat, size: nat)
    | EvDelete(deleter: Option<nat>, photo: nat)
    | EvSetLimit(user: nat, limit: nat)

  function Step(s: State, e: Event): Outcome {
    match e
    case Register(limit) => Done(s.(users := s.users + [User(0, limit)]))
    case EvUpload(user, size) => Upload(s, user, size)
    case EvUploadUncounted(user, size) => UploadUncounted(s, user, size)
    case EvDelete(deleter, photo) => Delete(s, deleter, photo)
    case EvSetLimit(user, limit) => SetLimit(s, user, limit)
  }

  function Next(s: State, e: Event): State {
    match Step(s, e) case Done(t) => t case Refused(_) => s
  }

  function Run(s: State, events: seq<Event>): State
    decreases |events|
  {
    if events == [] then s else Run(Next(s, events[0]), events[1..])
  }

  const INITIAL: State := State([], [])

  // ---- the counter against the photos ----

  function LiveSize(p: Photo, user: nat): nat {
    if p.photographer == user && !p.deleted then p.size else 0
  }

  /** Total size of a photographer's photos that are not deleted. */
  function TotalLive(photos: seq<Photo>, user: nat): nat {
    if photos == [] then 0
    else TotalLive(photos[..|photos| - 1], user) + LiveSize(photos[|photos| - 1], user)
  }

  lemma TotalAppend(photos: seq<Photo>, p: Photo, user: nat)
    ensures TotalLive(photos + [p], user) == TotalLive(photos, user) + LiveSize(p, user)
  {
    assert (photos + [p])[..|photos|] == photos;
  }

  lemma {:induction false} TotalUpdate(photos: seq<Photo>, i: nat, p: Photo, user: nat)
    requires i < |photos|
    ensures TotalLive(photos[i := p], user)
         == TotalLive(photos, user) - LiveSize(photos[i], user) + LiveSize(p, user)
  {
    var n := |photos| - 1;
    if i < n {
      TotalUpdate(photos[..n], i, p, user);
      assert photos[i := p][..n] == photos[..n][i := p];
    } else {
      assert photos[i := p][..n] == photos[..n];
    }
  }

  lemma {:induction false} TotalHolds(photos: seq<Photo>, i: nat, user: nat)
    requires i < |photos|
    ensures LiveSize(photos[i], user) <= TotalLive(photos, user)
  {
    if i == |photos| - 1 {
    } else {
      TotalHolds(photos[..|photos| - 1], i, user);
    }
  }

  /** Usage lies between nothing and what is really stored. */
  predicate Accounted(s: State, user: nat) {
    user < |s.users| ==> 0 <= s.users[user].photoQuotaUsage <= TotalLive(s.photos, user)
  }

  predicate Exact(s: State, user: nat) {
    user < |s.users| ==> s.users[user].photoQuotaUsage == TotalLive(s.photos, user)
  }

  /** A user's photos were uploaded by an account that exists. */
  predicate PhotosOwned(s: State) {
    forall i :: 0 <= i < |s.photos| ==> s.photos[i].photographer < |s.users|
  }

  lemma NoPhotosYet(s: State, user: nat)
    requires PhotosOwned(s) && user >= |s.users|
    ensures TotalLive(s.photos, user) == 0
  {
    NobodysPhotos(s.photos, user);
  }

  lemma {:induction false} NobodysPhotos(photos: seq<Photo>, user: nat)
    requires forall i :: 0 <= i < |photos| ==> photos[i].photographer != user
    ensures TotalLive(photos, user) == 0
  {
    if photos == [] {
    } else {
      NobodysPhotos(photos[..|photos| - 1], user);
    }
  }

  lemma StepAccounted(s: State, e: Event, user: nat)
    requires PhotosOwned(s) && Accounted(s, user)
    ensures PhotosOwned(Next(s, e)) && Accounted(Next(s, e), user)
    ensures Exact(s, user) && !e.EvUploadUncounted? ==> Exact(Next(s, e), user)
    ensures e.Register? ==> Next(s, e) == s.(users := s.users + [User(0, e.limit)])
    ensures e.EvSetLimit? && e.user < |s.users| ==>
              Next(s, e) == s.(users := s.users[e.user := User(s.users[e.user].photoQuotaUsage, e.limit)])
  {
    if Step(s, e).Done? {
      match e
      case Register(limit) => if user == |s.users| { NoPhotosYet(s, user); }
      case EvUpload(u, size) => TotalAppend(s.photos, Photo(u, size, false), user);
      case EvUploadUncounted(u, size) => TotalAppend(s.photos, Photo(u, size, false), user);
      case EvDelete(deleter, photo) =>
        TotalHolds(s.photos, photo, user);
        TotalUpdate(s.photos, photo, s.photos[photo].(deleted := true), user);
      case EvSetLimit(u, limit) =>
    }
  }

  lemma {:induction false} RunAccounted(s: State, events: seq<Event>, user: nat)
    requires PhotosOwned(s) && Accounted(s, user)
    ensures Accounted(Run(s, events), user)
    ensures Exact(s, user) && (forall e :: e in events ==> !e.EvUploadUncounted?) ==>
              Exact(Run(s, events), user)
    decreases |events|
  {
    if events == [] {
    } else {
      assert events[0] in events;
      StepAccounted(s, events[0], user);
      RunAccounted(Next(s, events[0]), events[1..], user);
    }
  }

  /** In every run the counter is never negative and never more than the live photos take; without
      uncounted uploads it is exactly what they take. */
  lemma UsageIsAccounted(events: seq<Event>, user: nat)
    ensures Accounted(Run(INITIAL, events), user)
    ensures (forall e :: e in events ==> !e.EvUploadUncounted?) ==> Exact(Run(INITIAL, events), user)
  {
    RunAccounted(INITIAL, events, user);
  }

  /** In every run the usage is below the limit right after each counted upload. Without uncounted
      uploads so is what the photographer's live photos take, and an upload is refused only when it
      would not be. */
  lemma UploadsStayBelowLimit(before: seq<Event>, user: nat, size: nat)
    requires user < |Run(INITIAL, before).users|
    ensures var s, e := Run(INITIAL, before), EvUpload(user, size);
      var limit, counted := s.users[user].maxPhotoQuota, forall x :: x in before ==> !x.EvUploadUncounted?;
      && (Step(s, e).Done? ==> Next(s, e).users[user].photoQuotaUsage < limit)
      && (counted ==> (Step(s, e).Done? <==> TotalLive(s.photos, user) + size < limit))
      && (counted && Step(s, e).Done? ==> TotalLive(Next(s, e).photos, user) < limit)
      && (Step(s, e).Done? ==>
            Next(s, e).users[user].photoQuotaUsage == s.users[user].photoQuotaUsage + size
            && TotalLive(Next(s, e).photos, user) == TotalLive(s.photos, user) + size)
  {
    UsageIsAccounted(before, user);
    TotalAppend(Run(INITIAL, before).photos, Photo(user, size, false), user);
  }

  /** A photo is deleted exactly when it is live and its photographer or the manager asks; it no longer
      counts among its photographer's live photos, and nobody else's total changes. */
  lemma DeletedExactly(s: State, deleter: Option<nat>, photo: nat, user: nat)
    requires PhotosOwned(s)
    ensures var e := EvDelete(deleter, photo);
      && (Step(s, e).Done? <==>
            photo < |s.photos| && !s.photos[photo].deleted
            && (deleter.Some? ==> deleter.value == s.photos[photo].photographer))
      && (Step(s, e).Done? ==>
            TotalLive(Next(s, e).photos, user)
              == TotalLive(s.photos, user) - if s.photos[photo].photographer == user then s.photos[photo].size else 0)
  {
    if photo < |s.photos| {
      TotalUpdate(s.photos, photo, s.photos[photo].(deleted := true), user);
    }
  }

  /** Deleting a counted photo restores what its upload took. */
  lemma DeleteUndoesUpload(s: State, user: nat, size: nat, deleter: Option<nat>)
    requires PhotosOwned(s) && Accounted(s, user) && user < |s.users| && Upload(s, user, size).Done?
    requires deleter.Some? ==> deleter.value == user
    ensures var t := Next(Upload(s, user, size).state, EvDelete(deleter, |s.photos|));
      t.users == s.users && TotalLive(t.photos, user) == TotalLive(s.photos, user)
  {
    var p := Photo(user, size, false);
    TotalAppend(s.photos, p, user);
    TotalUpdate(s.photos + [p], |s.photos|, p.(deleted := true), user);
  }

  /** An uncounted upload does leave the counter behind the photos. */
  lemma UncountedUploadGoesUnseen(s: State, user: nat, size: nat)
    requires PhotosOwned(s) && Exact(s, user) && user < |s.users|
    ensures Exact(Next(s, EvUploadUncounted(user, size)), user) <==> size == 0
  {
    TotalAppend(s.photos, Photo(user, size, false), user);
  }

  class Store {
    var users: seq<User>
    var photos: seq<Photo>

    function View(): State
      reads this
    {
      State(users, photos)
    }

    constructor ()
      ensures View() == INITIAL
    {
      users, photos := [], [];
    }

    method UploadPhoto(user: nat, size: nat) returns (error: Option<Error>)
      modifies this
      ensures View() == Next(old(View()), EvUpload(user, size))
      ensures error == match Step(old(View()), EvUpload(user, size)) case Done(_) => None case Refused(e) => Some(e)
    {
      if user >= |users| { return Some(NotFound); }
      var newUsageQuota := users[user].photoQuotaUsage + size;
      if newUsageQuota >= users[user].maxPhotoQuota { return Some(RunOutPhotoQuota); }
      photos := photos + [Photo(user, size, false)];
      users := users[user := users[user].(photoQuotaUsage := newUsageQuota)];
      error := None;
    }

    method UpdatePhotoQuota(user: nat, quota: nat)
      requires user < |users|
      modifies this`users
      ensures users == old(users)[user :=
        old(users)[user].(photoQuotaUsage := ReducedUsage(old(users)[user].photoQuotaUsage, quota))]
    {
      var usage := users[user].photoQuotaUsage;
      if usage - quota > 0 {
        users := users[user := users[user].(photoQuotaUsage := users[user].photoQuotaUsage - quota)];
      } else {
        users := users[user := users[user].(photoQuotaUsage := 0)];
      }
    }

    method DeleteById(deleter: Option<nat>, photo: nat) returns (error: Option<Error>)
      modifies this
      ensures View() == Next(old(View()), EvDelete(deleter, photo))
      ensures error == match Step(old(View()), EvDelete(deleter, photo)) case Done(_) => None case Refused(e) => Some(e)
    {
      if photo >= |photos| || photos[photo].deleted { return Some(NotFound); }
      var p := photos[photo];
      if deleter.Some? && p.photographer != deleter.value { return Some(NotBelongPhoto); }
      if p.photographer >= |users| { return Some(NotFound); }
      photos := photos[photo := p.(deleted := true)];
      UpdatePhotoQuota(p.photographer, p.size);
      error := None;
    }
  }
}
