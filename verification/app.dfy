/**
  The main application shell (App.tsx): per-user hydration from the key/value store,
  the persist-everything effect, the background-removal queue, and the collection
  handlers the views call. The refs `isAiWorking`, `nextAllowedRequestTime` and
  `isHydrated` are fields of one object; time and the outcome of the external call are
  inputs.
*/
module App {
  import opened Wrappers
  import opened Types
  import Seqs
  import Ids
  import Strings
  import Storage

  /** What the application writes to the store, by shape. `OtherValue` is anything else. */
  datatype Stored =
    | ItemList(items: seq<ClosetItem>)
    | OutfitList(outfits: seq<Outfit>)
    | CalendarRecord(dates: CalendarMap)
    | ProfileRecord(profile: UserProfile)
    | SessionRecord(account: UserAccount)
    | OtherValue

  /** The four per-user collections held in memory. */
  datatype Snapshot = Snapshot(items: seq<ClosetItem>, outfits: seq<Outfit>, calendar: CalendarMap, profile: UserProfile)

  const SessionKey: string := "current-session"
  const CooldownMs: int := 5000
  const UploadProgress: int := 10
  const StartedProgress: int := 20
  const DoneProgress: int := 100

  const OwlTeeUrl: string := "https://images.unsplash.com/photo-1576566588028-4147f3842f27?auto=format&fit=crop&q=80&w=400"

  /** `INITIAL_ITEMS`: the starter closet of a user with nothing stored. */
  const InitialItems: seq<ClosetItem> := [
    ClosetItem("1", "Yellow Owl Tee", Tops, ["Summer \U{1F49B}", "Casual"], "Yellow", "Summer",
      Some("Pair with blue denim shorts or comfortable joggers."), OwlTeeUrl, OwlTeeUrl,
      None, Some(false), Some(100))
  ]

  /** The profile before any user is loaded. */
  const EmptyProfile: UserProfile := UserProfile("", Some(""), Some(""))

  // ---------------------------------------------------------------------------
  // Hydration and persistence

  /**
    `loadUserData`'s fallbacks: items must be an array (else the starter closet), outfits an
    array (else none), the calendar an object (else empty), and a missing profile becomes
    one named after the user.
  */
  function Hydrate(savedItems: Option<Stored>, savedOutfits: Option<Stored>, savedCalendar: Option<Stored>,
                   savedProfile: Option<Stored>, username: string): (s: Snapshot)
    ensures s.items == if savedItems.Some? && savedItems.value.ItemList? then savedItems.value.items else InitialItems
    ensures s.outfits == if savedOutfits.Some? && savedOutfits.value.OutfitList? then savedOutfits.value.outfits else []
    ensures s.calendar == if savedCalendar.Some? && savedCalendar.value.CalendarRecord? then savedCalendar.value.dates else map[]
    ensures s.profile == if savedProfile.Some? && savedProfile.value.ProfileRecord? then savedProfile.value.profile
                         else UserProfile(username, Some(""), Some(""))
  {
    Snapshot(
      match savedItems { case Some(ItemList(xs)) => xs case _ => InitialItems },
      match savedOutfits { case Some(OutfitList(os)) => os case _ => [] },
      match savedCalendar { case Some(CalendarRecord(m)) => m case _ => map[] },
      match savedProfile { case Some(ProfileRecord(p)) => p case _ => UserProfile(username, Some(""), Some("")) })
  }

  /** What a hydration of `username` reads from the store contents `data`. */
  function Loaded(data: map<Storage.Key, Stored>, username: string): Snapshot {
    Hydrate(Storage.Read(data, Storage.ItemsStore, username), Storage.Read(data, Storage.OutfitsStore, username),
            Storage.Read(data, Storage.CalendarStore, username), Storage.Read(data, Storage.ProfileStore, username),
            username)
  }

  /** The store contents after `persist`: the four collections under the user's name, then the session. */
  function Persisted(data: map<Storage.Key, Stored>, account: UserAccount, s: Snapshot): (r: map<Storage.Key, Stored>)
  {
    var u := account.username;
    var d1 := Storage.Write(data, Storage.ItemsStore, u, ItemList(s.items));
    var d2 := Storage.Write(d1, Storage.OutfitsStore, u, OutfitList(s.outfits));
    var d3 := Storage.Write(d2, Storage.CalendarStore, u, CalendarRecord(s.calendar));
    var d4 := Storage.Write(d3, Storage.ProfileStore, u, ProfileRecord(s.profile));
    Storage.Write(d4, Storage.UserStore, SessionKey, SessionRecord(account))
  }

  /** A user with nothing stored starts with the starter closet and a profile named after them. */
  lemma FreshUserDefaults(data: map<Storage.Key, Stored>, username: string)
    requires forall store :: (store, username) !in data
    ensures Loaded(data, username) == Snapshot(InitialItems, [], map[], UserProfile(username, Some(""), Some("")))
  {
  }

  /** Persisting and then hydrating the same user gives back exactly what was persisted. */
  lemma PersistThenLoad(data: map<Storage.Key, Stored>, account: UserAccount, s: Snapshot)
    ensures Loaded(Persisted(data, account, s), account.username) == s
  {
  }

  /** Persisting one user's data leaves every key of another user's collections as it was. */
  lemma PersistedElsewhere(data: map<Storage.Key, Stored>, other: UserAccount, s: Snapshot, store: string, username: string)
    requires other.username != username && store != Storage.UserStore
    ensures Storage.Read(Persisted(data, other, s), store, username) == Storage.Read(data, store, username)
  {
    var u := other.username;
    var d1 := Storage.Write(data, Storage.ItemsStore, u, ItemList(s.items));
    var d2 := Storage.Write(d1, Storage.OutfitsStore, u, OutfitList(s.outfits));
    var d3 := Storage.Write(d2, Storage.CalendarStore, u, CalendarRecord(s.calendar));
    var d4 := Storage.Write(d3, Storage.ProfileStore, u, ProfileRecord(s.profile));
    Storage.OtherKeysUntouched(d4, Storage.UserStore, SessionKey, SessionRecord(other), store, username);
    Storage.OtherKeysUntouched(d3, Storage.ProfileStore, u, ProfileRecord(s.profile), store, username);
    Storage.OtherKeysUntouched(d2, Storage.CalendarStore, u, CalendarRecord(s.calendar), store, username);
    Storage.OtherKeysUntouched(d1, Storage.OutfitsStore, u, OutfitList(s.outfits), store, username);
    Storage.OtherKeysUntouched(data, Storage.ItemsStore, u, ItemList(s.items), store, username);
  }

  /** Persisting for another user does not disturb what one user reads back. */
  lemma PersistOtherUser(data: map<Storage.Key, Stored>, other: UserAccount, s: Snapshot, username: string)
    requires other.username != username
    ensures Loaded(Persisted(data, other, s), username) == Loaded(data, username)
  {
    Storage.StoreNamesDistinct();
    PersistedElsewhere(data, other, s, Storage.ItemsStore, username);
    PersistedElsewhere(data, other, s, Storage.OutfitsStore, username);
    PersistedElsewhere(data, other, s, Storage.CalendarStore, username);
    PersistedElsewhere(data, other, s, Storage.ProfileStore, username);
  }

  /** Switching from user A to user B and back to A restores A's collections as A last persisted them. */
  lemma {:induction false} SwitchRoundTrip(data: map<Storage.Key, Stored>, a: UserAccount, sa: Snapshot, b: UserAccount, sb: Snapshot)
    requires a.username != b.username
    ensures Loaded(Persisted(Persisted(data, a, sa), b, sb), a.username) == sa
  {
    PersistOtherUser(Persisted(data, a, sa), b, sb, a.username);
    PersistThenLoad(data, a, sa);
  }

  // ---------------------------------------------------------------------------
  // The background-removal queue

  /**
    `items.find(i => i.isProcessing && (i.processingProgress || 0) < 100)`, as an index:
    the first pending item in array order, if any.
  */
  function FirstPending(items: seq<ClosetItem>): (r: Option<nat>)
    ensures r.Some? ==> r.value < |items| && items[r.value].IsPending()
    ensures r.Some? ==> forall j :: 0 <= j < r.value ==> !items[j].IsPending()
    ensures r.None? <==> forall j :: 0 <= j < |items| ==> !items[j].IsPending()
  {
    if items == [] then None
    else if items[0].IsPending() then Some(0)
    else match FirstPending(items[1..]) {
      case None => None
      case Some(k) => Some(k + 1)
    }
  }

  /** `prev.map(i => i.id === id ? { ...i, processingProgress: p } : i)`. */
  function WithProgress(items: seq<ClosetItem>, id: string, p: int): (r: seq<ClosetItem>)
    ensures |r| == |items|
    ensures forall j :: 0 <= j < |items| ==>
      r[j] == if items[j].id == id then items[j].(processingProgress := Some(p)) else items[j]
  {
    Seqs.UpdateWhere(items, (i: ClosetItem) => i.id == id, (i: ClosetItem) => i.(processingProgress := Some(p)))
  }

  /** The item once its background removal has ended: the new image only on success. */
  function Finished(item: ClosetItem, cleaned: Option<string>): (r: ClosetItem)
    ensures r.isProcessing == Some(false) && r.processingProgress == Some(DoneProgress)
    ensures r.imageUrl == if cleaned.Some? then cleaned.value else item.imageUrl
    ensures r.(imageUrl := item.imageUrl, isProcessing := item.isProcessing, processingProgress := item.processingProgress) == item
  {
    match cleaned
    case Some(url) => item.(imageUrl := url, isProcessing := Some(false), processingProgress := Some(DoneProgress))
    case None => item.(isProcessing := Some(false), processingProgress := Some(DoneProgress))
  }

  /** Both completion updates of `processQueue`, applied to every entry with the processed id. */
  function Completed(items: seq<ClosetItem>, id: string, cleaned: Option<string>): (r: seq<ClosetItem>)
    ensures |r| == |items|
    ensures forall j :: 0 <= j < |items| ==> r[j] == if items[j].id == id then Finished(items[j], cleaned) else items[j]
  {
    Seqs.UpdateWhere(items, (i: ClosetItem) => i.id == id, (i: ClosetItem) => Finished(i, cleaned))
  }

  /** The data-model invariant: an item that is not processing has progress 100. */
  predicate Settled(item: ClosetItem) {
    item.isProcessing == Some(false) ==> item.processingProgress == Some(DoneProgress)
  }

  predicate AllSettled(items: seq<ClosetItem>) {
    forall j :: 0 <= j < |items| ==> Settled(items[j])
  }

  predicate UniqueIds(items: seq<ClosetItem>) {
    forall i, j :: 0 <= i < j < |items| ==> items[i].id != items[j].id
  }

  /** Whether a tick starts a job: all guards pass and a pending item exists. */
  predicate CanStart(booting: bool, loggedIn: bool, hydrated: bool, busy: bool,
                     items: seq<ClosetItem>, now: int, nextAllowed: int)
  {
    !booting && loggedIn && hydrated && !busy && FirstPending(items).Some? && now >= nextAllowed
  }

  /**
    Bumping the chosen item to 20 leaves it pending, so without the busy flag the next
    scan would choose the same item again.
  */
  lemma {:induction false} StartKeepsChoice(items: seq<ClosetItem>)
    requires UniqueIds(items)
    requires FirstPending(items).Some?
    ensures FirstPending(WithProgress(items, items[FirstPending(items).value].id, StartedProgress)) == FirstPending(items)
  {
    var k := FirstPending(items).value;
    var r := WithProgress(items, items[k].id, StartedProgress);
    assert r[k].IsPending();
    forall j | 0 <= j < k ensures !r[j].IsPending() {
      assert r[j] == items[j];
    }
    FirstPendingUnique(r, k);
  }

  /** `FirstPending` is determined by its contract. */
  lemma FirstPendingUnique(items: seq<ClosetItem>, k: nat)
    requires k < |items| && items[k].IsPending()
    requires forall j :: 0 <= j < k ==> !items[j].IsPending()
    ensures FirstPending(items) == Some(k)
  {
  }

  /** After completion nothing with the processed id is pending, and those entries satisfy the invariant. */
  lemma CompletionSettles(items: seq<ClosetItem>, id: string, cleaned: Option<string>)
    ensures forall j :: 0 <= j < |items| && items[j].id == id ==>
      !Completed(items, id, cleaned)[j].IsPending() && Settled(Completed(items, id, cleaned)[j])
    ensures AllSettled(items) ==> AllSettled(Completed(items, id, cleaned))
  {
  }

  /** A start-and-finish cycle on position `k` keeps every item settled. */
  lemma TickSettles(items: seq<ClosetItem>, k: nat, cleaned: Option<string>)
    requires k < |items| && AllSettled(items)
    ensures AllSettled(Completed(WithProgress(items, items[k].id, StartedProgress), items[k].id, cleaned))
  {
    var id := items[k].id;
    var mid := WithProgress(items, id, StartedProgress);
    var after := Completed(mid, id, cleaned);
    forall j | 0 <= j < |after| ensures Settled(after[j]) {
      if items[j].id != id {
        assert mid[j] == items[j];
      }
    }
  }

  /** A cycle on the first pending position `k` leaves nothing pending up to and including `k`. */
  lemma TickClearsPrefix(items: seq<ClosetItem>, k: nat, cleaned: Option<string>)
    requires UniqueIds(items) && k < |items|
    requires forall j :: 0 <= j < k ==> !items[j].IsPending()
    ensures var after := Completed(WithProgress(items, items[k].id, StartedProgress), items[k].id, cleaned);
            forall j :: 0 <= j <= k ==> !after[j].IsPending()
  {
    var id := items[k].id;
    var mid := WithProgress(items, id, StartedProgress);
    var after := Completed(mid, id, cleaned);
    forall j | 0 <= j <= k ensures !after[j].IsPending() {
      if j < k {
        assert mid[j] == items[j] && after[j] == items[j];
      }
    }
  }

  /** A full start-and-finish cycle keeps the invariant, and the next job is a later item or none. */
  lemma QueueAdvances(items: seq<ClosetItem>, cleaned: Option<string>)
    requires UniqueIds(items)
    requires FirstPending(items).Some?
    ensures var k := FirstPending(items).value;
            var after := Completed(WithProgress(items, items[k].id, StartedProgress), items[k].id, cleaned);
            && (AllSettled(items) ==> AllSettled(after))
            && (FirstPending(after).None? || FirstPending(after).value > k)
  {
    var k := FirstPending(items).value;
    TickClearsPrefix(items, k, cleaned);
    if AllSettled(items) {
      TickSettles(items, k, cleaned);
    }
  }

  /** `item-${Date.now()}-${i}`. */
  function UploadId(now: nat, i: nat): string {
    Ids.Tagged("item-" + Ids.NatToString(now) + "-", i)
  }

  /** One garment the classifier found in an uploaded photo. */
  datatype DetectedInfo = DetectedInfo(name: string, category: Category, tags: seq<string>, color: string,
                                       season: string, suggestion: string)

  /** The items built from one upload: queued for background removal, showing the original photo. */
  function UploadedItems(infos: seq<DetectedInfo>, image: string, now: nat): (r: seq<ClosetItem>)
    ensures |r| == |infos|
    ensures forall i :: 0 <= i < |r| ==>
      && r[i].id == UploadId(now, i)
      && r[i].name == infos[i].name && r[i].category == infos[i].category && r[i].tags == infos[i].tags
      && r[i].color == infos[i].color && r[i].season == infos[i].season && r[i].suggestion == Some(infos[i].suggestion)
      && r[i].imageUrl == image && r[i].originalImageUrl == image && r[i].customAttributes.None?
      && r[i].isProcessing == Some(true) && r[i].processingProgress == Some(UploadProgress)
      && r[i].IsPending()
  {
    seq(|infos|, i requires 0 <= i < |infos| =>
      ClosetItem(UploadId(now, i), infos[i].name, infos[i].category, infos[i].tags, infos[i].color,
        infos[i].season, Some(infos[i].suggestion), image, image, None, Some(true), Some(UploadProgress)))
  }

  /** Items from one upload have distinct ids. */
  lemma UploadIdsDistinct(now: nat, i: nat, j: nat)
    requires i != j
    ensures UploadId(now, i) != UploadId(now, j)
  {
    if UploadId(now, i) == UploadId(now, j) {
      Ids.TaggedInjective("item-" + Ids.NatToString(now) + "-", i, j);
    }
  }

  class WardrobeApp {
    var isBooting: bool
    var currentUser: Option<UserAccount>
    var items: seq<ClosetItem>
    var outfits: seq<Outfit>
    var calendarMap: CalendarMap
    var userProfile: UserProfile
    /** `isAiWorking`: a background-removal call is in flight. */
    var isAiWorking: bool
    var nextAllowedRequestTime: int
    var isHydrated: bool
    /** The id of the item whose call is in flight (the `itemToProcess` the callback captured). */
    var inFlight: Option<string>

    /** At most one call is in flight, and the busy flag says whether there is one. */
    ghost predicate Valid()
      reads this
    {
      isAiWorking <==> inFlight.Some?
    }

    function State(): Snapshot
      reads this
    {
      Snapshot(items, outfits, calendarMap, userProfile)
    }

    constructor ()
      ensures Valid()
      ensures isBooting && currentUser.None? && !isHydrated && !isAiWorking && nextAllowedRequestTime == 0
      ensures State() == Snapshot([], [], map[], EmptyProfile)
    {
      isBooting := true;
      currentUser := None;
      items := [];
      outfits := [];
      calendarMap := map[];
      userProfile := EmptyProfile;
      isAiWorking := false;
      nextAllowedRequestTime := 0;
      isHydrated := false;
      inFlight := None;
    }

    /** The user-change effect with no user: forget everything in memory. */
    method ResetSession()
      modifies this
      ensures Valid() == old(Valid())
      ensures !isHydrated && State() == Snapshot([], [], map[], EmptyProfile)
      ensures currentUser == old(currentUser) && isBooting == old(isBooting)
      ensures isAiWorking == old(isAiWorking) && inFlight == old(inFlight)
      ensures nextAllowedRequestTime == old(nextAllowedRequestTime)
    {
      isHydrated := false;
      items := [];
      outfits := [];
      calendarMap := map[];
      userProfile := EmptyProfile;
    }

    /** `loadUserData`: read the user's four records and apply the fallbacks; then hydrated. */
    method LoadUserData(db: Storage.Database<Stored>)
      requires Valid() && db.Valid() && currentUser.Some?
      modifies this, db
      ensures Valid() && db.Valid() && db.data == old(db.data)
      ensures currentUser == old(currentUser) && isBooting == old(isBooting)
      ensures isHydrated && State() == Loaded(db.data, currentUser.value.username)
      ensures isAiWorking == old(isAiWorking) && inFlight == old(inFlight)
      ensures nextAllowedRequestTime == old(nextAllowedRequestTime)
    {
      var userId := currentUser.value.username;
      isHydrated := false;
      var savedItems := db.Get(Storage.ItemsStore, userId);
      var savedOutfits := db.Get(Storage.OutfitsStore, userId);
      var savedCalendar := db.Get(Storage.CalendarStore, userId);
      var savedProfile := db.Get(Storage.ProfileStore, userId);
      var s := Hydrate(savedItems.value, savedOutfits.value, savedCalendar.value, savedProfile.value, userId);
      items := s.items;
      outfits := s.outfits;
      calendarMap := s.calendar;
      userProfile := s.profile;
      isHydrated := true;
    }

    /** The effect that runs whenever `currentUser` changes. */
    method OnUserChanged(db: Storage.Database<Stored>)
      requires Valid() && db.Valid()
      modifies this, db
      ensures Valid() && db.Valid() && db.data == old(db.data)
      ensures currentUser.None? ==> !isHydrated && State() == Snapshot([], [], map[], EmptyProfile)
      ensures currentUser.Some? ==> isHydrated && State() == Loaded(db.data, currentUser.value.username)
      ensures currentUser == old(currentUser) && isBooting == old(isBooting)
      ensures isAiWorking == old(isAiWorking) && inFlight == old(inFlight)
      ensures nextAllowedRequestTime == old(nextAllowedRequestTime)
    {
      if currentUser.None? {
        ResetSession();
      } else {
        LoadUserData(db);
      }
    }

    /** `bootApp`: restore the saved session when it names a user, then leave the splash screen. */
    method Boot(db: Storage.Database<Stored>)
      requires Valid() && db.Valid()
      modifies this, db
      ensures Valid() && db.Valid() && db.data == old(db.data) && !isBooting
      ensures var saved := Storage.Read(db.data, Storage.UserStore, SessionKey);
              var restored := saved.Some? && saved.value.SessionRecord? && saved.value.account.username != "";
              && currentUser == (if restored then Some(saved.value.account) else old(currentUser))
              && (restored ==> isHydrated && State() == Loaded(db.data, saved.value.account.username))
              && (!restored ==> isHydrated == old(isHydrated) && State() == old(State()))
      ensures isAiWorking == old(isAiWorking) && inFlight == old(inFlight)
      ensures nextAllowedRequestTime == old(nextAllowedRequestTime)
    {
      var saved := db.Get(Storage.UserStore, SessionKey);
      match saved.value {
        case Some(SessionRecord(acc)) =>
          if acc.username != "" {
            currentUser := Some(acc);
            OnUserChanged(db);
          }
        case _ =>
      }
      isBooting := false;
    }

    /** `handleLogin`: any non-blank name becomes the current user (no password). */
    method Login(input: string, now: nat, db: Storage.Database<Stored>)
      requires Valid() && db.Valid()
      modifies this, db
      ensures Valid() && db.Valid() && db.data == old(db.data)
      ensures Strings.Trim(input) == [] ==> currentUser == old(currentUser) && State() == old(State())
      ensures Strings.Trim(input) != [] ==>
        && currentUser == Some(UserAccount("u-" + Ids.NatToString(now), Strings.Trim(input), None))
        && isHydrated && State() == Loaded(db.data, Strings.Trim(input))
      ensures Strings.Trim(input) == [] ==> isHydrated == old(isHydrated)
      ensures isBooting == old(isBooting) && isAiWorking == old(isAiWorking) && inFlight == old(inFlight)
      ensures nextAllowedRequestTime == old(nextAllowedRequestTime)
    {
      var username := Strings.Trim(input);
      if username == [] {
        return;
      }
      currentUser := Some(UserAccount("u-" + Ids.NatToString(now), username, None));
      OnUserChanged(db);
    }

    /** `handleLogout` (once confirmed): only the saved session record is deleted; the user's data stays stored. */
    method Logout(db: Storage.Database<Stored>)
      requires Valid() && db.Valid()
      modifies this, db
      ensures Valid() && db.Valid()
      ensures db.data == Storage.Erase(old(db.data), Storage.UserStore, SessionKey)
      ensures currentUser.None? && !isHydrated && State() == Snapshot([], [], map[], EmptyProfile)
      ensures isBooting == old(isBooting) && isAiWorking == old(isAiWorking) && inFlight == old(inFlight)
      ensures nextAllowedRequestTime == old(nextAllowedRequestTime)
    {
      isHydrated := false;
      var _ := db.Delete(Storage.UserStore, SessionKey);
      currentUser := None;
      OnUserChanged(db);
    }

    /** The persist effect: nothing is written while booting, logged out, or not yet hydrated. */
    method Persist(db: Storage.Database<Stored>)
      requires Valid() && db.Valid()
      modifies db
      ensures db.Valid()
      ensures isBooting || currentUser.None? || !isHydrated ==> db.data == old(db.data)
      ensures !isBooting && currentUser.Some? && isHydrated ==>
        db.data == Persisted(old(db.data), currentUser.value, State())
    {
      if isBooting || currentUser.None? || !isHydrated {
        return;
      }
      var userId := currentUser.value.username;
      var _ := db.Put(Storage.ItemsStore, userId, ItemList(items));
      var _ := db.Put(Storage.OutfitsStore, userId, OutfitList(outfits));
      var _ := db.Put(Storage.CalendarStore, userId, CalendarRecord(calendarMap));
      var _ := db.Put(Storage.ProfileStore, userId, ProfileRecord(userProfile));
      var _ := db.Put(Storage.UserStore, SessionKey, SessionRecord(currentUser.value));
    }

    /**
      The first half of a queue tick: when every guard passes, mark busy, remember the
      first pending item and bump its progress to 20.
    */
    method BeginJob(now: int) returns (started: bool)
      requires Valid()
      modifies this`isAiWorking, this`inFlight, this`items
      ensures Valid()
      ensures started == CanStart(old(isBooting), old(currentUser).Some?, old(isHydrated), old(isAiWorking),
                                  old(items), now, old(nextAllowedRequestTime))
      ensures started ==> var k := FirstPending(old(items)).value;
        && isAiWorking && inFlight == Some(old(items)[k].id)
        && items == WithProgress(old(items), old(items)[k].id, StartedProgress)
      ensures !started ==> items == old(items) && isAiWorking == old(isAiWorking) && inFlight == old(inFlight)
      ensures outfits == old(outfits) && calendarMap == old(calendarMap) && userProfile == old(userProfile)
      ensures nextAllowedRequestTime == old(nextAllowedRequestTime) && currentUser == old(currentUser)
      ensures isBooting == old(isBooting) && isHydrated == old(isHydrated)
    {
      var pick := FirstPending(items);
      if !CanStart(isBooting, currentUser.Some?, isHydrated, isAiWorking, items, now, nextAllowedRequestTime) {
        return false;
      }
      StartJob(pick.value);
      started := true;
    }

    /** Marks the busy flag, records item `k` as in flight and bumps its progress to 20. */
    method StartJob(k: nat)
      requires Valid() && !isAiWorking && k < |items|
      modifies this`isAiWorking, this`inFlight, this`items
      ensures Valid() && isAiWorking && inFlight == Some(old(items)[k].id)
      ensures items == WithProgress(old(items), old(items)[k].id, StartedProgress)
    {
      var chosen := items[k];
      isAiWorking := true;
      inFlight := Some(chosen.id);
      items := WithProgress(items, chosen.id, StartedProgress);
    }

    /**
      The second half: the call for the in-flight item has ended at `doneAt` with the
      cleaned image or an error. The cooldown is advanced only on success.
    */
    method FinishJob(cleaned: Option<string>, doneAt: int)
      requires Valid() && inFlight.Some?
      modifies this
      ensures Valid() && !isAiWorking && inFlight.None?
      ensures items == Completed(old(items), old(inFlight).value, cleaned)
      ensures nextAllowedRequestTime == if cleaned.Some? then doneAt + CooldownMs else old(nextAllowedRequestTime)
      ensures outfits == old(outfits) && calendarMap == old(calendarMap) && userProfile == old(userProfile)
      ensures currentUser == old(currentUser) && isBooting == old(isBooting) && isHydrated == old(isHydrated)
    {
      var id := inFlight.value;
      items := Completed(items, id, cleaned);
      if cleaned.Some? {
        nextAllowedRequestTime := doneAt + CooldownMs;
      }
      isAiWorking := false;
      inFlight := None;
    }

    /** One whole `processQueue` run: start at `now`, end at `doneAt` with `cleaned`. */
    method ProcessQueue(now: int, cleaned: Option<string>, doneAt: int) returns (started: bool)
      requires Valid()
      modifies this
      ensures Valid() && (!started ==> isAiWorking == old(isAiWorking) && inFlight == old(inFlight))
      ensures started == CanStart(old(isBooting), old(currentUser).Some?, old(isHydrated), old(isAiWorking),
                                  old(items), now, old(nextAllowedRequestTime))
      ensures started ==> var id := old(items)[FirstPending(old(items)).value].id;
        && !isAiWorking && inFlight.None?
        && items == Completed(WithProgress(old(items), id, StartedProgress), id, cleaned)
        && nextAllowedRequestTime == if cleaned.Some? then doneAt + CooldownMs else old(nextAllowedRequestTime)
      ensures !started ==> items == old(items) && nextAllowedRequestTime == old(nextAllowedRequestTime)
      ensures outfits == old(outfits) && calendarMap == old(calendarMap) && userProfile == old(userProfile)
      ensures currentUser == old(currentUser) && isBooting == old(isBooting) && isHydrated == old(isHydrated)
    {
      started := BeginJob(now);
      if started {
        FinishJob(cleaned, doneAt);
      }
    }

    /** `handleFileUpload` after classification: the new items go first, queued for background removal. */
    method Upload(infos: Option<seq<DetectedInfo>>, image: string, now: nat)
      modifies this`items
      ensures items == if infos.Some? then UploadedItems(infos.value, image, now) + old(items) else old(items)
    {
      if infos.Some? {
        items := UploadedItems(infos.value, image, now) + items;
      }
    }

    /** `handleDeleteItem`. */
    method DeleteItem(id: string)
      modifies this`items
      ensures items == Seqs.RemoveById(old(items), ItemId, id)
    {
      items := Seqs.RemoveById(items, ItemId, id);
    }

    /** The closet's `onUpdateItem`: replace the entries with the edited item's id. */
    method UpdateItem(item: ClosetItem)
      modifies this`items
      ensures items == Seqs.ReplaceById(old(items), ItemId, item)
    {
      items := Seqs.ReplaceById(items, ItemId, item);
    }

    /** `handleSaveOutfit`. */
    method SaveOutfit(outfit: Outfit)
      modifies this`outfits
      ensures outfits == [outfit] + old(outfits)
    {
      outfits := [outfit] + outfits;
    }

    /** The gallery's `onUpdateOutfit`. */
    method UpdateOutfit(outfit: Outfit)
      modifies this`outfits
      ensures outfits == Seqs.ReplaceById(old(outfits), OutfitId, outfit)
    {
      outfits := Seqs.ReplaceById(outfits, OutfitId, outfit);
    }

    /** The gallery's `onDeleteOutfit`: the calendar is not touched, so dates may keep the deleted id. */
    method DeleteOutfit(id: string)
      modifies this`outfits
      ensures outfits == Seqs.RemoveById(old(outfits), OutfitId, id)
    {
      outfits := Seqs.RemoveById(outfits, OutfitId, id);
    }

    /** `onSetTodayOutfit`: today's date (an input here) now maps to the outfit. */
    method SetTodayOutfit(today: string, id: string)
      modifies this`calendarMap
      ensures calendarMap == old(calendarMap)[today := id]
    {
      calendarMap := calendarMap[today := id];
    }
  }
}
