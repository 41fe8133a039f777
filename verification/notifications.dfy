/**
 The notifications screen: a collection of notification records, the three
 store mutations (mark one as read, mark all as read, delete), the tab filter
 with its two pseudo-tabs "all" and "unread", and the header counts, which are
 always taken over the whole collection.
 */
module Notifications {
  import opened Seqs

  datatype Kind = Success | Warning | Error | Info

  datatype Category = System | Security | Billing | Users

  datatype Notification = Notification(
    id: int,
    kind: Kind,
    title: string,
    message: string,
    timestamp: string,
    isRead: bool,
    category: Category)

  /** The string a category carries in the source; the tab values are compared against it. */
  function CategoryName(c: Category): string {
    match c
    case System => "system"
    case Security => "security"
    case Billing => "billing"
    case Users => "users"
  }

  lemma CategoryNameInjective(c: Category, d: Category)
    ensures CategoryName(c) == CategoryName(d) <==> c == d
  {
  }

  /** The six seeded notifications the screen starts with. */
  const Seed: seq<Notification> := [
    Notification(1, Success, "Payment Received", "Payment of $299.00 received from Acme Corp",
                 "2 minutes ago", false, Billing),
    Notification(2, Info, "New User Registration", "Alice Johnson has joined your organization",
                 "15 minutes ago", false, Users),
    Notification(3, Warning, "High Server Load", "Server CPU usage is at 85%. Consider scaling up.",
                 "1 hour ago", true, System),
    Notification(4, Error, "Failed Login Attempt", "Multiple failed login attempts detected from IP 192.168.1.1",
                 "2 hours ago", false, Security),
    Notification(5, Success, "Backup Completed", "Daily backup completed successfully (2.4 GB)",
                 "3 hours ago", true, System),
    Notification(6, Info, "System Update Available", "Version 2.1.0 is now available for installation",
                 "1 day ago", true, System)
  ]

  function IdOf(n: Notification): int { n.id }

  /** No two records share an id. */
  ghost predicate UniqueIds(s: seq<Notification>) {
    KeysDistinct(s, IdOf)
  }

  /** Some record carries `id`. */
  ghost predicate HasId(s: seq<Notification>, id: int) {
    exists n :: n in s && n.id == id
  }

  predicate IsUnread(n: Notification) { !n.isRead }

  function WithId(id: int): Notification -> bool { (n: Notification) => n.id == id }

  function WithoutId(id: int): Notification -> bool { (n: Notification) => n.id != id }

  function UnreadWithId(id: int): Notification -> bool { (n: Notification) => n.id == id && !n.isRead }

  function InCategory(c: Category): Notification -> bool { (n: Notification) => n.category == c }

  /** The same records, except that records in `before` may have become read in `after`. */
  ghost predicate ReadMonotone(before: seq<Notification>, after: seq<Notification>) {
    forall x :: x in after ==> x in before || (x.isRead && x.(isRead := false) in before)
  }

  // ---------------------------------------------------------------------------
  // Store mutations
  // ---------------------------------------------------------------------------

  /** `markAsRead(id)`: every record with that id becomes read; nothing else changes. */
  function MarkAsRead(s: seq<Notification>, id: int): (r: seq<Notification>)
    ensures |r| == |s|
    ensures forall i :: 0 <= i < |s| && s[i].id == id ==> r[i].isRead
    ensures forall i :: 0 <= i < |s| && s[i].id != id ==> r[i] == s[i]
    ensures forall i :: 0 <= i < |s| ==> r[i].(isRead := s[i].isRead) == s[i]
  {
    seq(|s|, i requires 0 <= i < |s| => if s[i].id == id then s[i].(isRead := true) else s[i])
  }

  /** `markAllAsRead()`: every record becomes read; only `isRead` changes; order is kept. */
  function MarkAllAsRead(s: seq<Notification>): (r: seq<Notification>)
    ensures |r| == |s|
    ensures forall i :: 0 <= i < |r| ==> r[i].isRead
    ensures forall i :: 0 <= i < |r| ==> r[i].(isRead := s[i].isRead) == s[i]
  {
    seq(|s|, i requires 0 <= i < |s| => s[i].(isRead := true))
  }

  /** `deleteNotification(id)`: drop every record with that id, keeping the others in order. */
  function DeleteNotification(s: seq<Notification>, id: int): (r: seq<Notification>)
    ensures |r| <= |s|
    ensures forall n :: n in r ==> n in s && n.id != id
    ensures forall n :: n in s && n.id != id ==> n in r
    ensures IsSubseq(r, s)
    ensures |r| == CountWhere(s, WithoutId(id))
  {
    FilterIsSubseq(s, WithoutId(id));
    FilterLength(s, WithoutId(id));
    Filter(s, WithoutId(id))
  }

  lemma MarkAllAsReadIdempotent(s: seq<Notification>)
    ensures MarkAllAsRead(MarkAllAsRead(s)) == MarkAllAsRead(s)
  {
  }

  /** Deleting an id that no record carries leaves the collection as it was. */
  lemma DeleteAbsentIsNoOp(s: seq<Notification>, id: int)
    requires !HasId(s, id)
    ensures DeleteNotification(s, id) == s
  {
    FilterAllPass(s, WithoutId(id));
  }

  /** With unique ids, exactly one record carries a present id and none an absent one. */
  lemma {:induction false} UniqueIdCount(s: seq<Notification>, id: int)
    requires UniqueIds(s)
    ensures CountWhere(s, WithId(id)) == if HasId(s, id) then 1 else 0
    decreases |s|
  {
    if |s| > 0 {
      var t := s[1..];
      assert UniqueIds(t) by {
        forall i, j | 0 <= i < j < |t| ensures IdOf(t[i]) != IdOf(t[j]) {
          assert t[i] == s[i + 1] && t[j] == s[j + 1];
        }
      }
      UniqueIdCount(t, id);
      if s[0].id == id {
        forall k | 0 <= k < |t| ensures !WithId(id)(t[k]) {
          assert t[k] == s[k + 1];
          assert IdOf(s[0]) != IdOf(s[k + 1]);
        }
        assert s[0] in s;
      } else {
        assert HasId(s, id) ==> HasId(t, id) by {
          if HasId(s, id) {
            var n :| n in s && n.id == id;
            var k :| 0 <= k < |s| && s[k] == n;
            assert k != 0 && t[k - 1] == n;
          }
        }
        assert HasId(t, id) ==> HasId(s, id) by {
          if HasId(t, id) {
            var n :| n in t && n.id == id;
            assert n in s;
          }
        }
      }
    }
  }

  lemma DeleteKeepsUniqueIds(s: seq<Notification>, id: int)
    ensures UniqueIds(s) ==> UniqueIds(DeleteNotification(s, id))
  {
    if UniqueIds(s) {
      FilterKeepsKeysDistinct(s, WithoutId(id), IdOf);
    }
  }

  /** With unique ids, deleting a present id shrinks the collection by exactly one. */
  lemma DeletePresentShrinksByOne(s: seq<Notification>, id: int)
    requires UniqueIds(s) && HasId(s, id)
    ensures |DeleteNotification(s, id)| == |s| - 1
  {
    FilterLength(s, WithoutId(id));
    CountComplement(s, WithId(id), WithoutId(id));
    UniqueIdCount(s, id);
  }

  /** Marking a record read lowers the unread count by the number of unread records carrying that id. */
  lemma {:induction false} MarkAsReadUnreadCount(s: seq<Notification>, id: int)
    ensures CountWhere(MarkAsRead(s, id), IsUnread) + CountWhere(s, UnreadWithId(id))
         == CountWhere(s, IsUnread)
    decreases |s|
  {
    if |s| > 0 {
      MarkAsReadUnreadCount(s[1..], id);
      assert MarkAsRead(s, id)[1..] == MarkAsRead(s[1..], id);
    }
  }

  /** With unique ids, marking an unread record read lowers the unread count by exactly one. */
  lemma MarkUnreadAsReadDecrements(s: seq<Notification>, id: int)
    requires UniqueIds(s)
    requires exists n :: n in s && n.id == id && !n.isRead
    ensures UnreadCount(MarkAsRead(s, id)) == UnreadCount(s) - 1
  {
    MarkAsReadUnreadCount(s, id);
    CountMonotone(s, UnreadWithId(id), WithId(id));
    UniqueIdCount(s, id);
    var n :| n in s && n.id == id && !n.isRead;
    var k :| 0 <= k < |s| && s[k] == n;
    assert UnreadWithId(id)(s[k]);
  }

  /** `markAllAsRead` has the same effect as marking every present id read, one by one. */
  function MarkEach(s: seq<Notification>, ids: seq<int>): seq<Notification>
    decreases |ids|
  {
    if |ids| == 0 then s else MarkEach(MarkAsRead(s, ids[0]), ids[1..])
  }

  lemma {:induction false} MarkEachEffect(s: seq<Notification>, ids: seq<int>)
    ensures |MarkEach(s, ids)| == |s|
    ensures forall i :: 0 <= i < |s| ==>
      MarkEach(s, ids)[i] == if s[i].id in ids then s[i].(isRead := true) else s[i]
    decreases |ids|
  {
    if |ids| > 0 {
      var s' := MarkAsRead(s, ids[0]);
      MarkEachEffect(s', ids[1..]);
      forall i | 0 <= i < |s|
        ensures MarkEach(s, ids)[i] == if s[i].id in ids then s[i].(isRead := true) else s[i]
      {
        assert s'[i].id == s[i].id;
        assert s[i].id in ids <==> s[i].id == ids[0] || s[i].id in ids[1..];
      }
    }
  }

  function Ids(s: seq<Notification>): seq<int> {
    seq(|s|, i requires 0 <= i < |s| => s[i].id)
  }

  lemma MarkAllIsMarkEachId(s: seq<Notification>)
    ensures MarkAllAsRead(s) == MarkEach(s, Ids(s))
  {
    MarkEachEffect(s, Ids(s));
    forall i | 0 <= i < |s| ensures s[i].id in Ids(s) {
      assert Ids(s)[i] == s[i].id;
    }
  }

  // ---------------------------------------------------------------------------
  // Tab filter and counts
  // ---------------------------------------------------------------------------

  /** Whether tab `tab` shows record `n`: "all" shows everything, "unread" (checked before the categories) the unread ones, any other value the records of the category of that name. */
  predicate TabAdmits(tab: string, n: Notification) {
    if tab == "all" then true
    else if tab == "unread" then !n.isRead
    else CategoryName(n.category) == tab
  }

  function TabPredicate(tab: string): Notification -> bool { (n: Notification) => TabAdmits(tab, n) }

  function InTab(tab: string): Notification -> bool { (n: Notification) => CategoryName(n.category) == tab }

  /** `filterNotifications(tab)`. */
  function FilterNotifications(ns: seq<Notification>, tab: string): (r: seq<Notification>)
    ensures |r| <= |ns|
    ensures forall n :: n in r <==> n in ns && TabAdmits(tab, n)
  {
    if tab == "all" then ns
    else if tab == "unread" then Filter(ns, IsUnread)
    else Filter(ns, InTab(tab))
  }

  /** The three branches of the tab filter are one order-preserving filter by `TabAdmits`. */
  lemma FilterNotificationsIsFilter(ns: seq<Notification>, tab: string)
    ensures FilterNotifications(ns, tab) == Filter(ns, TabPredicate(tab))
  {
    if tab == "all" {
      FilterAllPass(ns, TabPredicate(tab));
    } else if tab == "unread" {
      FilterCongruent(ns, IsUnread, TabPredicate(tab));
    } else {
      FilterCongruent(ns, InTab(tab), TabPredicate(tab));
    }
  }

  /** The "all" tab shows the collection unchanged. */
  lemma AllTabIsIdentity(ns: seq<Notification>)
    ensures FilterNotifications(ns, "all") == ns
  {
  }

  /** The "unread" tab shows exactly the unread records, in their original order. */
  lemma UnreadTabExact(ns: seq<Notification>, r: seq<Notification>)
    ensures r == FilterNotifications(ns, "unread") <==>
      (IsSubseq(r, ns) && (forall n :: n in r ==> !n.isRead) && |r| == CountWhere(ns, IsUnread))
  {
    FilterCharacterisation(ns, IsUnread, r);
  }

  /** A category tab shows exactly the records of that category, in their original order. */
  lemma CategoryTabExact(ns: seq<Notification>, c: Category, r: seq<Notification>)
    ensures r == FilterNotifications(ns, CategoryName(c)) <==>
      (IsSubseq(r, ns) && (forall n :: n in r ==> n.category == c) && |r| == CountWhere(ns, InCategory(c)))
  {
    FilterCongruent(ns, InTab(CategoryName(c)), InCategory(c));
    FilterCharacterisation(ns, InCategory(c), r);
  }

  /** A tab value that is neither a pseudo-tab nor a category name shows nothing. */
  lemma UnknownTabIsEmpty(ns: seq<Notification>, tab: string)
    requires tab != "all" && tab != "unread"
    requires forall c: Category :: CategoryName(c) != tab
    ensures FilterNotifications(ns, tab) == []
  {
    FilterLength(ns, InTab(tab));
  }

  /** `unreadCount`: the number of unread records in the whole collection. */
  function UnreadCount(ns: seq<Notification>): (k: nat)
    ensures k == CountWhere(ns, IsUnread)
    ensures k == |FilterNotifications(ns, "unread")|
    ensures k == 0 <==> forall n :: n in ns ==> n.isRead
  {
    FilterLength(ns, IsUnread);
    |Filter(ns, IsUnread)|
  }

  /** The per-category header counts, e.g. `notifications.filter(n => n.category === 'security').length`. */
  function CategoryCount(ns: seq<Notification>, c: Category): (k: nat)
    ensures k == CountWhere(ns, InCategory(c))
    ensures k == |FilterNotifications(ns, CategoryName(c))|
  {
    FilterLength(ns, InCategory(c));
    FilterCongruent(ns, InTab(CategoryName(c)), InCategory(c));
    |Filter(ns, InCategory(c))|
  }

  /** The four categories partition the collection. */
  lemma {:induction false} CategoryCountsPartition(ns: seq<Notification>)
    ensures CountWhere(ns, InCategory(System)) + CountWhere(ns, InCategory(Security))
          + CountWhere(ns, InCategory(Billing)) + CountWhere(ns, InCategory(Users)) == |ns|
    decreases |ns|
  {
    if |ns| > 0 {
      CategoryCountsPartition(ns[1..]);
    }
  }

  lemma MarkAllAsReadClearsUnread(s: seq<Notification>)
    ensures UnreadCount(MarkAllAsRead(s)) == 0
  {
  }

  // ---------------------------------------------------------------------------
  // Screen state
  // ---------------------------------------------------------------------------

  datatype NotificationsState = NotificationsState(notifications: seq<Notification>, selectedTab: string)

  /** The screen on mount: the seed collection, tab "all". */
  function Init(): (st: NotificationsState)
    ensures st.notifications == Seed && st.selectedTab == "all"
  {
    NotificationsState(Seed, "all")
  }

  datatype Action = MarkRead(id: int) | MarkAllRead | Delete(id: int) | SelectTab(tab: string)

  /** One user event. Tab changes never touch the collection; mutations never touch the tab. */
  function Step(st: NotificationsState, a: Action): (st': NotificationsState)
    ensures a.SelectTab? ==> st'.notifications == st.notifications && st'.selectedTab == a.tab
    ensures !a.SelectTab? ==> st'.selectedTab == st.selectedTab
    ensures a.MarkRead? ==> st'.notifications == MarkAsRead(st.notifications, a.id)
    ensures a.MarkAllRead? ==> st'.notifications == MarkAllAsRead(st.notifications)
    ensures a.Delete? ==> st'.notifications == DeleteNotification(st.notifications, a.id)
    ensures ReadMonotone(st.notifications, st'.notifications)
    ensures UniqueIds(st.notifications) ==> UniqueIds(st'.notifications)
  {
    match a
    case MarkRead(id) =>
      var r := MarkAsRead(st.notifications, id);
      assert forall i :: 0 <= i < |r| ==> IdOf(r[i]) == IdOf(st.notifications[i]);
      st.(notifications := r)
    case MarkAllRead =>
      var r := MarkAllAsRead(st.notifications);
      assert forall i :: 0 <= i < |r| ==> IdOf(r[i]) == IdOf(st.notifications[i]);
      st.(notifications := r)
    case Delete(id) =>
      DeleteKeepsUniqueIds(st.notifications, id);
      st.(notifications := DeleteNotification(st.notifications, id))
    case SelectTab(tab) =>
      st.(selectedTab := tab)
  }

  /** Applies events in order. */
  function Run(st: NotificationsState, actions: seq<Action>): NotificationsState
    decreases |actions|
  {
    if |actions| == 0 then st else Run(Step(st, actions[0]), actions[1..])
  }

  /** Ids stay unique in every state reachable from the seed. */
  lemma {:induction false} RunKeepsUniqueIds(st: NotificationsState, actions: seq<Action>)
    requires UniqueIds(st.notifications)
    ensures UniqueIds(Run(st, actions).notifications)
    decreases |actions|
  {
    if |actions| > 0 {
      RunKeepsUniqueIds(Step(st, actions[0]), actions[1..]);
    }
  }

  datatype NotificationsView = NotificationsView(
    total: nat,
    unread: nat,
    security: nat,
    system: nat,
    showMarkAll: bool,
    visible: seq<Notification>,
    showEmpty: bool)

  /** What the screen derives from its state on every render. */
  function Render(st: NotificationsState): (v: NotificationsView)
    ensures v.total == |st.notifications|
    ensures v.unread == CountWhere(st.notifications, IsUnread)
    ensures v.security == CountWhere(st.notifications, InCategory(Security))
    ensures v.system == CountWhere(st.notifications, InCategory(System))
    ensures v.showMarkAll <==> exists n :: n in st.notifications && !n.isRead
    ensures forall n :: n in v.visible <==> n in st.notifications && TabAdmits(st.selectedTab, n)
    ensures IsSubseq(v.visible, st.notifications)
    ensures |v.visible| == CountWhere(st.notifications, TabPredicate(st.selectedTab))
    ensures v.showEmpty <==> forall n :: n in st.notifications ==> !TabAdmits(st.selectedTab, n)
  {
    var unread := UnreadCount(st.notifications);
    var visible := FilterNotifications(st.notifications, st.selectedTab);
    FilterNotificationsIsFilter(st.notifications, st.selectedTab);
    FilterIsSubseq(st.notifications, TabPredicate(st.selectedTab));
    FilterLength(st.notifications, TabPredicate(st.selectedTab));
    assert |visible| > 0 ==> visible[0] in visible;
    NotificationsView(
      |st.notifications|,
      unread,
      CategoryCount(st.notifications, Security),
      CategoryCount(st.notifications, System),
      unread > 0,
      visible,
      |visible| == 0)
  }

  /** Choosing a tab changes only the visible list: every header count stays as it was. */
  lemma SelectTabKeepsCounts(st: NotificationsState, t: string)
    ensures Render(Step(st, SelectTab(t))).total == Render(st).total
    ensures Render(Step(st, SelectTab(t))).unread == Render(st).unread
    ensures Render(Step(st, SelectTab(t))).security == Render(st).security
    ensures Render(Step(st, SelectTab(t))).system == Render(st).system
    ensures Render(Step(st, SelectTab(t))).showMarkAll == Render(st).showMarkAll
    ensures Render(Step(st, SelectTab(t))).visible == FilterNotifications(st.notifications, t)
  {
  }

  /** The seed: six records with ids 1..6. */
  lemma SeedIds()
    ensures |Seed| == 6
    ensures forall i :: 0 <= i < |Seed| ==> Seed[i].id == i + 1
    ensures UniqueIds(Seed)
  {
  }

  lemma SeedReadFlags()
    ensures |Seed| == 6
    ensures !Seed[0].isRead && !Seed[1].isRead && Seed[2].isRead
    ensures !Seed[3].isRead && Seed[4].isRead && Seed[5].isRead
  {
  }

  /** The last three seed-shaped records: only the first of them is unread. */
  lemma UnreadOfLastThree(s: seq<Notification>)
    requires |s| == 6 && !s[3].isRead && s[4].isRead && s[5].isRead
    ensures Filter(s[3..], IsUnread) == [s[3]]
  {
    assert s[6..] == [];
    FilterFromDrop(s, 5, IsUnread, []);
    FilterFromDrop(s, 4, IsUnread, []);
    FilterFromKeep(s, 3, IsUnread, []);
  }

  /** The first three seed-shaped records: unread, unread, read, in front of whatever the rest filters to. */
  lemma UnreadOfFirstThree(s: seq<Notification>, rest: seq<Notification>)
    requires |s| == 6 && !s[0].isRead && !s[1].isRead && s[2].isRead
    requires Filter(s[3..], IsUnread) == rest
    ensures Filter(s, IsUnread) == [s[0]] + ([s[1]] + rest)
  {
    FilterFromDrop(s, 2, IsUnread, rest);
    FilterFromKeep(s, 1, IsUnread, rest);
    FilterFromKeep(s, 0, IsUnread, [s[1]] + rest);
    assert s[0..] == s;
  }

  /** Any six records read/unread like the seed filter to their 1st, 2nd and 4th record. */
  lemma UnreadOfSixShaped(s: seq<Notification>)
    requires |s| == 6
    requires !s[0].isRead && !s[1].isRead && s[2].isRead && !s[3].isRead && s[4].isRead && s[5].isRead
    ensures Filter(s, IsUnread) == [s[0], s[1], s[3]]
  {
    UnreadOfLastThree(s);
    UnreadOfFirstThree(s, [s[3]]);
    assert [s[0]] + ([s[1]] + [s[3]]) == [s[0], s[1], s[3]];
  }

  /** On the seed, the "unread" tab shows records 1, 2 and 4, in that order. */
  lemma SeedUnreadTab()
    ensures FilterNotifications(Seed, "unread") == [Seed[0], Seed[1], Seed[3]]
  {
    SeedReadFlags();
    UnreadOfSixShaped(Seed);
  }

  /** On the seed, three records are unread. */
  lemma SeedUnreadCount()
    ensures UnreadCount(Seed) == 3
  {
    SeedUnreadTab();
  }

  /** Scenario: on the "unread" tab, marking all as read empties the list and hides the button. */
  lemma MarkAllOnUnreadTabScenario()
    ensures var v := Render(Run(Init(), [SelectTab("unread"), MarkAllRead]));
      v.visible == [] && v.showEmpty && !v.showMarkAll && v.unread == 0 && v.total == 6
  {
    var st := Run(Init(), [SelectTab("unread"), MarkAllRead]);
    assert st == Step(Step(Init(), SelectTab("unread")), MarkAllRead);
    MarkAllAsReadClearsUnread(Seed);
  }
}
