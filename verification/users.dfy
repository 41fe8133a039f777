/**
 The users screen: a fixed list of user records, a case-insensitive search by
 name or e-mail, header counts taken over the whole list, the avatar fallback
 (initials) and the block/unblock menu label.
 */
module Users {
  import opened Seqs
  import opened Text

  datatype Role = AdminRole | EditorRole | UserRole

  datatype Status = Active | Inactive | Blocked

  datatype User = User(
    id: int,
    name: string,
    email: string,
    avatar: string,
    role: Role,
    status: Status,
    lastLogin: string,
    signupDate: string,
    phone: string)

  const Alice := User(1, "Alice Johnson", "alice.johnson@example.com", "", AdminRole, Active,
                      "2 hours ago", "Jan 15, 2024", "+1 (555) 123-4567")
  const Bob := User(2, "Bob Smith", "bob.smith@example.com", "", UserRole, Active,
                    "1 day ago", "Jan 10, 2024", "+1 (555) 234-5678")
  const Carol := User(3, "Carol Davis", "carol.davis@example.com", "", EditorRole, Inactive,
                      "1 week ago", "Dec 22, 2023", "+1 (555) 345-6789")
  const David := User(4, "David Wilson", "david.wilson@example.com", "", UserRole, Blocked,
                      "2 weeks ago", "Dec 18, 2023", "+1 (555) 456-7890")
  const Eva := User(5, "Eva Brown", "eva.brown@example.com", "", UserRole, Active,
                    "3 hours ago", "Jan 20, 2024", "+1 (555) 567-8901")

  /** The five users the screen lists. */
  const Seed: seq<User> := [Alice, Bob, Carol, David, Eva]

  // ---------------------------------------------------------------------------
  // Search
  // ---------------------------------------------------------------------------

  /** The search test of one user: the lower-cased term occurs somewhere in the lower-cased name or e-mail; the empty term matches everyone. */
  function MatchesSearch(u: User, term: string): (m: bool)
    ensures m <==> Occurs(Lower(u.name), Lower(term)) || Occurs(Lower(u.email), Lower(term))
    ensures term == "" ==> m
  {
    ContainsEmpty(Lower(u.name));
    Contains(Lower(u.name), Lower(term)) || Contains(Lower(u.email), Lower(term))
  }

  function Matching(term: string): User -> bool { (u: User) => MatchesSearch(u, term) }

  /** `filteredUsers`: the users matching the search term, in list order. */
  function FilterUsers(users: seq<User>, term: string): (r: seq<User>)
    ensures |r| <= |users|
    ensures forall u :: u in r <==> u in users && MatchesSearch(u, term)
    ensures IsSubseq(r, users)
    ensures |r| == CountWhere(users, Matching(term))
  {
    FilterIsSubseq(users, Matching(term));
    FilterLength(users, Matching(term));
    Filter(users, Matching(term))
  }

  /** The empty search term keeps every user, in order. */
  lemma EmptySearchKeepsAll(users: seq<User>)
    ensures FilterUsers(users, "") == users
  {
    FilterAllPass(users, Matching(""));
  }

  /** The search ignores the case of the term. */
  lemma SearchIgnoresTermCase(users: seq<User>, term: string)
    ensures FilterUsers(users, term) == FilterUsers(users, Lower(term))
  {
    LowerIdempotent(term);
    FilterCongruent(users, Matching(term), Matching(Lower(term)));
  }

  // ---------------------------------------------------------------------------
  // Header counts
  // ---------------------------------------------------------------------------

  predicate IsActive(u: User) { u.status == Active }

  predicate IsBlocked(u: User) { u.status == Blocked }

  /** `activeUsers`. */
  function ActiveUsers(users: seq<User>): (k: nat)
    ensures k == CountWhere(users, IsActive)
    ensures k == 0 <==> forall u :: u in users ==> u.status != Active
  {
    FilterLength(users, IsActive);
    |Filter(users, IsActive)|
  }

  /** `blockedUsers`. */
  function BlockedUsers(users: seq<User>): (k: nat)
    ensures k == CountWhere(users, IsBlocked)
    ensures k == 0 <==> forall u :: u in users ==> u.status != Blocked
  {
    FilterLength(users, IsBlocked);
    |Filter(users, IsBlocked)|
  }

  /** A user is never both active and blocked, so the two counts fit in the total. */
  lemma ActivePlusBlockedAtMostTotal(users: seq<User>)
    ensures ActiveUsers(users) + BlockedUsers(users) <= |users|
  {
    CountDisjoint(users, IsActive, IsBlocked);
  }

  /** The literal test `signupDate.includes('Jan 2024')`. */
  predicate SignupMatchesJan2024Literal(u: User) { Contains(u.signupDate, "Jan 2024") }

  /** `newUsersThisMonth`, as the source computes it. */
  function NewUsersThisMonthAsWritten(users: seq<User>): (k: nat)
    ensures k == CountWhere(users, SignupMatchesJan2024Literal)
  {
    FilterLength(users, SignupMatchesJan2024Literal);
    |Filter(users, SignupMatchesJan2024Literal)|
  }

  /** A "Mon DD, YYYY" date never includes "Jan 2024": its comma sits in every 8-character window. */
  lemma DateOmitsJan2024(d: string)
    requires |d| == 12 && d[6] == ','
    ensures !Contains(d, "Jan 2024")
  {
    NotContainsByBlocker(d, "Jan 2024", 6);
  }

  lemma SeedSignupDates()
    ensures |Seed| == 5
    ensures Seed[0].signupDate == "Jan 15, 2024" && Seed[1].signupDate == "Jan 10, 2024"
    ensures Seed[2].signupDate == "Dec 22, 2023" && Seed[3].signupDate == "Dec 18, 2023"
    ensures Seed[4].signupDate == "Jan 20, 2024"
  {
  }

  /** Every seeded signup date is twelve characters long with a comma at position 6. */
  lemma SeedDatesShaped()
    ensures |Seed| == 5
    ensures forall i :: 0 <= i < |Seed| ==> |Seed[i].signupDate| == 12 && Seed[i].signupDate[6] == ','
  {
    SeedSignupDates();
  }

  /** On the seed the literal test counts nobody. */
  lemma NewUsersThisMonthAsWrittenSeedIsZero()
    ensures NewUsersThisMonthAsWritten(Seed) == 0
  {
    SeedDatesShaped();
    forall i | 0 <= i < |Seed| ensures !SignupMatchesJan2024Literal(Seed[i]) {
      DateOmitsJan2024(Seed[i].signupDate);
    }
    assert CountWhere(Seed, SignupMatchesJan2024Literal) == 0;
  }

  /** A signup date of the form "Jan DD, 2024". */
  predicate SignedUpInJanuary2024(u: User) {
    StartsWith(u.signupDate, "Jan ") && EndsWith(u.signupDate, ", 2024")
  }

  /** `newUsersThisMonth` as evidently intended: the users who signed up in January 2024. */
  function NewUsersThisMonth(users: seq<User>): (k: nat)
    ensures k == CountWhere(users, SignedUpInJanuary2024)
    ensures k == 0 <==> forall u :: u in users ==> !SignedUpInJanuary2024(u)
  {
    FilterLength(users, SignedUpInJanuary2024);
    |Filter(users, SignedUpInJanuary2024)|
  }

  /** The last three of five users: two earlier signups, then one in January 2024. */
  lemma JanuaryOfLastThree(s: seq<User>)
    requires |s| == 5 && !SignedUpInJanuary2024(s[2]) && !SignedUpInJanuary2024(s[3]) && SignedUpInJanuary2024(s[4])
    ensures Filter(s[2..], SignedUpInJanuary2024) == [s[4]]
  {
    assert s[5..] == [];
    FilterFromKeep(s, 4, SignedUpInJanuary2024, []);
    FilterFromDrop(s, 3, SignedUpInJanuary2024, [s[4]]);
    FilterFromDrop(s, 2, SignedUpInJanuary2024, [s[4]]);
  }

  /** The first two of five users both signed up in January 2024, in front of whatever the rest filters to. */
  lemma JanuaryOfFirstTwo(s: seq<User>, rest: seq<User>)
    requires |s| == 5 && SignedUpInJanuary2024(s[0]) && SignedUpInJanuary2024(s[1])
    requires Filter(s[2..], SignedUpInJanuary2024) == rest
    ensures Filter(s, SignedUpInJanuary2024) == [s[0]] + ([s[1]] + rest)
  {
    FilterFromKeep(s, 1, SignedUpInJanuary2024, rest);
    FilterFromKeep(s, 0, SignedUpInJanuary2024, [s[1]] + rest);
    assert s[0..] == s;
  }

  /** Five users of whom the 1st, 2nd and 5th signed up in January 2024. */
  lemma JanuaryOfFiveShaped(s: seq<User>)
    requires |s| == 5
    requires SignedUpInJanuary2024(s[0]) && SignedUpInJanuary2024(s[1])
    requires !SignedUpInJanuary2024(s[2]) && !SignedUpInJanuary2024(s[3]) && SignedUpInJanuary2024(s[4])
    ensures Filter(s, SignedUpInJanuary2024) == [s[0], s[1], s[4]]
  {
    JanuaryOfLastThree(s);
    JanuaryOfFirstTwo(s, [s[4]]);
    assert [s[0]] + ([s[1]] + [s[4]]) == [s[0], s[1], s[4]];
  }

  /** On the seed, Alice, Bob and Eva signed up in January 2024. */
  lemma SeedJanuarySignups()
    ensures Filter(Seed, SignedUpInJanuary2024) == [Seed[0], Seed[1], Seed[4]]
    ensures NewUsersThisMonth(Seed) == 3
  {
    SeedSignupDates();
    JanuaryOfFiveShaped(Seed);
  }

  // ---------------------------------------------------------------------------
  // Row rendering
  // ---------------------------------------------------------------------------

  /** A piece of a split that holds at least one character. */
  predicate IsWord(w: string) { |w| > 0 }

  /** When no piece is empty, keeping the words keeps every piece. */
  lemma AllWordsKept(words: seq<string>)
    ensures (forall w :: w in words ==> |w| > 0) ==> Filter(words, IsWord) == words
  {
    if forall w :: w in words ==> |w| > 0 {
      FilterAllPass(words, IsWord);
    }
  }

  /** One step of `FirstChars`: the head word's initial, if any, goes in front of the tail's initials. */
  lemma FirstCharsStep(words: seq<string>, rest: string)
    requires |words| > 0
    requires |rest| == |Filter(words[1..], IsWord)|
    requires forall i :: 0 <= i < |rest| ==> |Filter(words[1..], IsWord)[i]| > 0 && rest[i] == Filter(words[1..], IsWord)[i][0]
    ensures var r := (if |words[0]| > 0 then [words[0][0]] else "") + rest;
      |r| == |Filter(words, IsWord)| && forall i :: 0 <= i < |r| ==> |Filter(words, IsWord)[i]| > 0 && r[i] == Filter(words, IsWord)[i][0]
  {
  }

  /**
   First character of every non-empty word, in word order: the `i`-th character is the
   first character of the `i`-th non-empty word (an empty word yields nothing, as
   `undefined` joins to the empty string).
   */
  function FirstChars(words: seq<string>): (r: string)
    ensures |r| == |Filter(words, IsWord)|
    ensures forall i :: 0 <= i < |r| ==> |Filter(words, IsWord)[i]| > 0 && r[i] == Filter(words, IsWord)[i][0]
    ensures (forall w :: w in words ==> |w| > 0) ==>
      |r| == |words| && forall i :: 0 <= i < |words| ==> r[i] == words[i][0]
    ensures forall c :: c in r ==> exists w :: w in words && |w| > 0 && c == w[0]
    decreases |words|
  {
    AllWordsKept(words);
    if |words| == 0 then ""
    else
      var rest := FirstChars(words[1..]);
      FirstCharsStep(words, rest);
      (if |words[0]| > 0 then [words[0][0]] else "") + rest
  }

  /**
   The avatar fallback `name.split(' ').map(n => n[0]).join('')`: the first letters of the
   space-separated words of the name, in order, one per word when no word is empty.
   */
  function AvatarInitials(name: string): (r: string)
    ensures var words := Split(name, ' ');
      |r| == |Filter(words, IsWord)| &&
      forall i :: 0 <= i < |r| ==> |Filter(words, IsWord)[i]| > 0 && r[i] == Filter(words, IsWord)[i][0]
    ensures var words := Split(name, ' ');
      (forall w :: w in words ==> |w| > 0) ==>
        |r| == |words| && forall i :: 0 <= i < |words| ==> r[i] == words[i][0]
    ensures |r| <= CountChar(name, ' ') + 1
    ensures forall c :: c in r ==> c in name && c != ' '
  {
    var words := Split(name, ' ');
    var r := FirstChars(words);
    forall c | c in r ensures c in name && c != ' ' {
      var w :| w in words && |w| > 0 && c == w[0];
      assert w[0] in w;
    }
    r
  }

  /** When no word is empty (single spaces, none leading or trailing) there is one initial per word. */
  lemma InitialsOnePerWord(name: string)
    requires forall w :: w in Split(name, ' ') ==> |w| > 0
    ensures |AvatarInitials(name)| == CountChar(name, ' ') + 1
  {
  }

  /** "Alice Johnson" splits into its two names. */
  lemma AliceWords()
    ensures Split("Alice Johnson", ' ') == ["Alice", "Johnson"]
  {
    var words := ["Alice", "Johnson"];
    assert words[1..] == ["Johnson"];
    assert Join(words, ' ') == "Alice" + [' '] + "Johnson" == "Alice Johnson";
    assert ' ' !in words[0] && ' ' !in words[1];
    SplitJoin(words, ' ');
  }

  lemma AliceFirstChars()
    ensures FirstChars(["Alice", "Johnson"]) == "AJ"
  {
    var words := ["Alice", "Johnson"];
    assert words[1..] == ["Johnson"] && words[1..][1..] == [];
  }

  lemma AliceInitials()
    ensures AvatarInitials("Alice Johnson") == "AJ"
  {
    AliceWords();
    AliceFirstChars();
  }

  /** The last menu entry of a row: "Unblock User" exactly for blocked users. */
  function BlockActionLabel(u: User): (text: string)
    ensures text == "Unblock User" <==> u.status == Blocked
    ensures text == "Block User" <==> u.status != Blocked
  {
    if u.status == Blocked then "Unblock User" else "Block User"
  }

  // ---------------------------------------------------------------------------
  // Screen state
  // ---------------------------------------------------------------------------

  /** The search term; the selection has no setter that is ever called, so it stays empty. */
  datatype UsersState = UsersState(searchTerm: string, selectedUsers: seq<int>)

  function Init(): (st: UsersState)
    ensures st.searchTerm == "" && st.selectedUsers == []
  {
    UsersState("", [])
  }

  /** Typing in the search box replaces the term and nothing else. */
  function SetSearchTerm(st: UsersState, term: string): (st': UsersState)
    ensures st'.searchTerm == term && st'.selectedUsers == st.selectedUsers
  {
    st.(searchTerm := term)
  }

  datatype UsersView = UsersView(
    total: nat,
    active: nat,
    blocked: nat,
    newThisMonth: nat,
    visible: seq<User>,
    showBulkActions: bool)

  /**
   What the screen derives on every render, as the source computes it. The four header
   counts read only the seed list, never the search term; "New This Month" is the literal
   `includes('Jan 2024')` count.
   */
  function Render(st: UsersState): (v: UsersView)
    ensures v.total == |Seed|
    ensures v.active == CountWhere(Seed, IsActive)
    ensures v.blocked == CountWhere(Seed, IsBlocked)
    ensures v.newThisMonth == CountWhere(Seed, SignupMatchesJan2024Literal)
    ensures forall u :: u in v.visible <==> u in Seed && MatchesSearch(u, st.searchTerm)
    ensures IsSubseq(v.visible, Seed) && |v.visible| == CountWhere(Seed, Matching(st.searchTerm))
    ensures |v.visible| <= v.total
    ensures v.showBulkActions <==> |st.selectedUsers| > 0
  {
    UsersView(
      |Seed|,
      ActiveUsers(Seed),
      BlockedUsers(Seed),
      NewUsersThisMonthAsWritten(Seed),
      FilterUsers(Seed, st.searchTerm),
      |st.selectedUsers| > 0)
  }

  /** The screen as evidently intended: identical, except that "New This Month" counts the January 2024 signups. */
  function RenderIntended(st: UsersState): (v: UsersView)
    ensures v.newThisMonth == CountWhere(Seed, SignedUpInJanuary2024)
    ensures v == Render(st).(newThisMonth := v.newThisMonth)
  {
    Render(st).(newThisMonth := NewUsersThisMonth(Seed))
  }

  /** On the seed the card shows 0 as written and 3 as intended. */
  lemma NewThisMonthCard(st: UsersState)
    ensures Render(st).newThisMonth == 0
    ensures RenderIntended(st).newThisMonth == 3
  {
    NewUsersThisMonthAsWrittenSeedIsZero();
    SeedJanuarySignups();
  }

  /** Header counts do not move while the user types. */
  lemma HeaderCountsIgnoreSearch(st: UsersState, term: string)
    ensures var v, v' := Render(st), Render(SetSearchTerm(st, term));
      v'.total == v.total && v'.active == v.active && v'.blocked == v.blocked
      && v'.newThisMonth == v.newThisMonth
      && forall u :: u in v'.visible <==> u in Seed && MatchesSearch(u, term)
  {
  }

  /** Scenario: "alice" finds Alice Johnson. */
  lemma SearchAliceFindsAlice()
    ensures Seed[0] in FilterUsers(Seed, "alice")
  {
    assert Lower("alice") == "alice";
    assert Lower(Seed[0].name)[..5] == "alice";
  }
}
