/**
 * The landing page (components/Dashboard.tsx): the role-scoped complaint list,
 * the figures on the stat cards, the recent-activity list and its empty
 * state, and the room a complaint is shown as coming from. Everything here is
 * derived from the component's props; the page holds no state.
 */
module Dashboard {
  import opened Types
  import opened Seqs
  import Layout

  /** The recent-activity list shows at most this many entries (`slice(0, 4)`). */
  const RECENT_LIMIT: nat := 4

  predicate IsAdmin(user: User) {
    user.role == Admin
  }

  // ---------------------------------------------------------------------------
  // Role-scoped complaints and the issue count (lines 17, 24)
  // ---------------------------------------------------------------------------

  /** The filter of line 17: complaints filed by the resident with this id. */
  function FiledBy(id: string): Complaint -> bool {
    (c: Complaint) => c.residentId == id
  }

  /** The filter of line 24: complaints that are not resolved. */
  const IsActive: Complaint -> bool := (c: Complaint) => c.status != Resolved

  /**
   * The value `relevantComplaints` of line 17: every complaint for an admin;
   * for a resident exactly the complaints filed under their own id, in the
   * original order. The component computes it but renders nothing from it:
   * the admin's list and the Active Issues card read all complaints.
   */
  function RelevantComplaints(user: User, complaints: seq<Complaint>): (visible: seq<Complaint>)
    ensures IsAdmin(user) ==> visible == complaints
    ensures !IsAdmin(user) ==> IsSubsequence(visible, complaints)
    ensures !IsAdmin(user) ==>
      forall c :: c in visible <==> c in complaints && c.residentId == user.id
  {
    if IsAdmin(user) then complaints else Filter(FiledBy(user.id), complaints)
  }

  /** For a resident, the value keeps every copy of each of their complaints and nothing else. */
  lemma RelevantComplaintsMultiplicity(user: User, complaints: seq<Complaint>, c: Complaint)
    requires !IsAdmin(user)
    ensures multiset(RelevantComplaints(user, complaints))[c]
         == if c.residentId == user.id then multiset(complaints)[c] else 0
  {
    FilterMultiplicity(FiledBy(user.id), complaints, c);
  }

  /** A resident's value never holds another's complaint; the admin's and the filer's do. */
  lemma ComplaintsAreScoped(a: User, b: User, admin: User, complaints: seq<Complaint>, c: Complaint)
    requires a.id != b.id && !IsAdmin(b) && IsAdmin(admin)
    requires c in complaints && c.residentId == a.id
    ensures c !in RelevantComplaints(b, complaints)
    ensures c in RelevantComplaints(admin, complaints)
    ensures !IsAdmin(a) ==> c in RelevantComplaints(a, complaints)
  {
  }

  /** The "Active Issues" figure: how many complaints are not yet resolved. */
  function ActiveIssues(complaints: seq<Complaint>): (n: nat)
    ensures n <= |complaints|
    ensures n == 0 <==> forall c :: c in complaints ==> c.status == Resolved
  {
    var active := Filter(IsActive, complaints);
    assert active != [] ==> active[0] in active;
    |active|
  }

  /** Open and resolved complaints together make up the whole list. */
  lemma {:induction false} ActiveIssuesPartition(complaints: seq<Complaint>)
    ensures ActiveIssues(complaints) + |Filter((c: Complaint) => c.status == Resolved, complaints)| == |complaints|
  {
    if complaints != [] {
      ActiveIssuesPartition(complaints[1..]);
      assert Filter(IsActive, complaints)
          == (if complaints[0].status != Resolved then [complaints[0]] else []) + Filter(IsActive, complaints[1..]);
    }
  }

  /** Adding a complaint raises the count by one exactly when it is not resolved; a newly filed one is pending. */
  lemma ActiveIssuesAppend(complaints: seq<Complaint>, c: Complaint)
    ensures ActiveIssues(complaints + [c]) == ActiveIssues(complaints) + (if c.status == Pending then 1 else 0)
  {
    FilterConcat(IsActive, complaints, [c]);
    assert Filter(IsActive, [c]) == (if c.status != Resolved then [c] else []) + Filter(IsActive, []);
  }

  // ---------------------------------------------------------------------------
  // Stat cards (lines 18, 21-31) and the room banner (line 40)
  // ---------------------------------------------------------------------------

  /** The "Your Room" card: the room number, or 'Pending' when none is assigned (line 27). */
  function YourRoomCard(roomNumber: string): (text: string)
    ensures text == "Pending" <==> roomNumber == ""
    ensures roomNumber != "" ==> |text| == 4 + |roomNumber| && text[..4] == "No. " && text[4..] == roomNumber
  {
    if roomNumber != "" then
      var text := "No. " + roomNumber;
      assert text[0] != "Pending"[0];
      text
    else "Pending"
  }

  /**
   * The numbers on the stat cards. The resident's "Meal Plan" and "PG Status"
   * cards show fixed text and are left out, as are icons and colours.
   */
  datatype StatCards =
    | AdminCards(occupiedRooms: nat, totalRooms: nat, totalResidents: nat, activeIssues: nat, notices: nat)
    | ResidentCards(yourRoom: string, newNotices: nat)

  function Stats(user: User, complaints: seq<Complaint>, notices: seq<Notice>,
                 residents: seq<User>, totalRooms: nat): (cards: StatCards)
    ensures cards.AdminCards? <==> IsAdmin(user)
    ensures cards.AdminCards? ==>
      && cards.occupiedRooms == |residents|
      && cards.totalResidents == cards.occupiedRooms
      && cards.totalRooms == totalRooms
      && cards.activeIssues == ActiveIssues(complaints)
      && cards.activeIssues <= |complaints|
      && (cards.activeIssues == 0 <==> forall c :: c in complaints ==> c.status == Resolved)
      && cards.notices == |notices|
    ensures cards.ResidentCards? ==>
      && cards.yourRoom == YourRoomCard(user.roomNumber)
      && (cards.yourRoom == "Pending" <==> user.roomNumber == "")
      && cards.newNotices == |notices|
  {
    var occupiedRooms := |residents|;
    if IsAdmin(user) then
      AdminCards(occupiedRooms, totalRooms, |residents|, ActiveIssues(complaints), |notices|)
    else
      ResidentCards(YourRoomCard(user.roomNumber), |notices|)
  }

  /**
   * The warning asking the user to set a room number (line 40): shown to a
   * resident exactly when their "Your Room" card would read 'Pending'.
   */
  predicate ShowsRoomBanner(user: User): (shown: bool)
    ensures shown <==> !IsAdmin(user) && YourRoomCard(user.roomNumber) == "Pending"
  {
    !IsAdmin(user) && user.roomNumber == ""
  }

  /** The banner appears exactly when the resident's "Your Room" card reads 'Pending'. */
  lemma RoomBannerMatchesCard(user: User, complaints: seq<Complaint>, notices: seq<Notice>,
                              residents: seq<User>, totalRooms: nat)
    ensures ShowsRoomBanner(user) <==>
      var cards := Stats(user, complaints, notices, residents, totalRooms);
      cards.ResidentCards? && cards.yourRoom == "Pending"
  {
  }

  // ---------------------------------------------------------------------------
  // Recent activity (lines 63-92)
  // ---------------------------------------------------------------------------

  /** The list under "Global Issues" (admin) or "Recent Updates" (resident). */
  datatype Activity = ComplaintFeed(complaints: seq<Complaint>) | NoticeFeed(notices: seq<Notice>)

  function FeedLength(feed: Activity): nat {
    match feed
    case ComplaintFeed(cs) => |cs|
    case NoticeFeed(ns) => |ns|
  }

  /**
   * The admin sees the first four complaints of the whole list (not only
   * their own), anyone else the first four notices.
   */
  function RecentActivity(user: User, complaints: seq<Complaint>, notices: seq<Notice>): (feed: Activity)
    ensures feed.ComplaintFeed? <==> IsAdmin(user)
    ensures FeedLength(feed) <= RECENT_LIMIT
    ensures feed.ComplaintFeed? ==>
      |feed.complaints| == (if |complaints| < RECENT_LIMIT then |complaints| else RECENT_LIMIT) &&
      feed.complaints == complaints[..|feed.complaints|]
    ensures feed.NoticeFeed? ==>
      |feed.notices| == (if |notices| < RECENT_LIMIT then |notices| else RECENT_LIMIT) &&
      feed.notices == notices[..|feed.notices|]
  {
    if IsAdmin(user) then ComplaintFeed(Take(complaints, RECENT_LIMIT)) else NoticeFeed(Take(notices, RECENT_LIMIT))
  }

  /**
   * "No recent activity." (line 92) tests the role's whole list; it shows
   * exactly when the recent list above it has no entry.
   */
  predicate ShowsEmptyState(user: User, complaints: seq<Complaint>, notices: seq<Notice>): (shown: bool)
    ensures shown <==> FeedLength(RecentActivity(user, complaints, notices)) == 0
  {
    (if IsAdmin(user) then |complaints| else |notices|) == 0
  }

  // ---------------------------------------------------------------------------
  // The room a complaint comes from (line 76)
  // ---------------------------------------------------------------------------

  /** Where `residents.find(r => r.id === id)` stops: the first match, or `|residents|` when there is none. */
  function FindIndex(residents: seq<User>, id: string): (k: nat)
    ensures k <= |residents|
    ensures forall j :: 0 <= j < k ==> residents[j].id != id
    ensures k < |residents| ==> residents[k].id == id
  {
    if residents == [] then 0
    else if residents[0].id == id then 0
    else 1 + FindIndex(residents[1..], id)
  }

  /**
   * "From Room ...": the room number of the first resident whose id is the
   * complaint's, or '?' when there is no such resident or their room is blank.
   */
  function ComplaintRoom(residents: seq<User>, complaint: Complaint): (room: string)
    ensures room != ""
    ensures (forall u :: u in residents ==> u.id != complaint.residentId) ==> room == "?"
    ensures room != "?" ==>
      exists i :: (0 <= i < |residents| &&
        residents[i].id == complaint.residentId && residents[i].roomNumber == room &&
        forall j :: 0 <= j < i ==> residents[j].id != complaint.residentId)
    ensures forall i :: (0 <= i < |residents| && residents[i].id == complaint.residentId &&
      (forall j :: 0 <= j < i ==> residents[j].id != complaint.residentId)) ==>
        room == if residents[i].roomNumber != "" then residents[i].roomNumber else "?"
  {
    var k := FindIndex(residents, complaint.residentId);
    if k < |residents| && residents[k].roomNumber != "" then residents[k].roomNumber else "?"
  }

  /** With unique ids, a complaint shows its filer's room whenever one is assigned. */
  lemma ComplaintRoomOfFiler(residents: seq<User>, complaint: Complaint, i: nat)
    requires i < |residents| && residents[i].id == complaint.residentId
    requires forall j, k :: 0 <= j < k < |residents| ==> residents[j].id != residents[k].id
    ensures ComplaintRoom(residents, complaint) == if residents[i].roomNumber != "" then residents[i].roomNumber else "?"
  {
    var k := FindIndex(residents, complaint.residentId);
    assert k == i;
  }

  // ---------------------------------------------------------------------------
  // Navigation from the dashboard (lines 64, 105)
  // ---------------------------------------------------------------------------

  /**
   * "See Detail" opens the complaints (admin) or the notice board (resident):
   * the screen behind the list it sits above, and one the user's sidebar offers.
   */
  function DetailTarget(user: User): (tab: string)
    ensures tab == "complaints" <==> RecentActivity(user, [], []).ComplaintFeed?
    ensures RecentActivity(user, [], []).NoticeFeed? ==> tab == "notices"
    ensures tab in Layout.NavIds(user.role)
  {
    Layout.SharedScreens(user.role);
    if IsAdmin(user) then "complaints" else "notices"
  }

  /** Every screen the dashboard links to is one the user's sidebar offers, whatever the role. */
  lemma DashboardLinksAreReachable(user: User)
    ensures forall tab :: tab in [DetailTarget(user), "chat"] ==> tab in Layout.NavIds(user.role)
  {
    Layout.SharedScreens(user.role);
  }
}
