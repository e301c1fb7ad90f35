/** The `Leaderboard` page: ranking the users by the selected tab, the rank
    icon and colour of each position, the rendered statistic and its label,
    and the initials shown when a photo is missing. Ratings are held in
    tenths (4.9 is 49). */
module Leaderboard {

  import opened Text
  import Seqs
  import Sorting

  datatype LeaderboardUser = LeaderboardUser(
    id: string,
    name: string,
    photoUrl: string,
    location: string,
    totalSessions: nat,
    ratingTenths: nat,
    creditsEarned: nat,
    studentsTaught: nat,
    skillsMastered: nat,
    streakDays: nat,
    badges: nat)

  /** The fixed board the page shows, as listed (photo links shortened to
      their file names). */
  const MockLeaderboard: seq<LeaderboardUser> := [
    LeaderboardUser("1", "Sarah Chen", "/images/portrait.jpg", "San Francisco, CA", 156, 49, 2340, 89, 8, 45, 12),
    LeaderboardUser("2", "Marcus Johnson", "photo-1507003211169-0a1dd7228f2d", "Madrid, Spain", 203, 48, 3050, 124, 6, 32, 15),
    LeaderboardUser("3", "Emma Wilson", "photo-1438761681033-6461ffad8d80", "London, UK", 134, 47, 2010, 67, 5, 28, 9),
    LeaderboardUser("4", "Alex Kumar", "photo-1472099645785-5658abf4ff4e", "Mumbai, India", 98, 46, 1470, 45, 7, 21, 8),
    LeaderboardUser("5", "Lisa Zhang", "photo-1544005313-94ddf0286df2", "Toronto, Canada", 87, 49, 1305, 52, 4, 19, 7),
    LeaderboardUser("6", "David Park", "photo-1500648767791-00dcc994a43e", "Seoul, South Korea", 76, 48, 1140, 38, 6, 15, 6)
  ]

  /** The four tabs. */
  const Tabs: seq<string> := ["sessions", "rating", "credits", "students"]

  predicate Ranked(criteria: string)
  {
    criteria in Tabs
  }

  /** The figure a tab ranks by; anything else falls back to sessions. */
  function StatKey(criteria: string): LeaderboardUser -> int
  {
    if criteria == "rating" then (u: LeaderboardUser) => u.ratingTenths
    else if criteria == "credits" then (u: LeaderboardUser) => u.creditsEarned
    else if criteria == "students" then (u: LeaderboardUser) => u.studentsTaught
    else (u: LeaderboardUser) => u.totalSessions
  }

  /** `getSortedUsers`: for a known tab, the users from largest figure to
      smallest with ties in listing order; for any other value, the list as
      given. */
  function SortedUsers(users: seq<LeaderboardUser>, criteria: string): (r: seq<LeaderboardUser>)
    ensures multiset(r) == multiset(users)
    ensures !Ranked(criteria) ==> r == users
    ensures Ranked(criteria) ==>
              && (forall i, j :: 0 <= i < j < |r| ==> StatKey(criteria)(r[i]) >= StatKey(criteria)(r[j]))
              && (forall k :: Sorting.KeyClass(r, StatKey(criteria), k) == Sorting.KeyClass(users, StatKey(criteria), k))
  {
    if Ranked(criteria) then
      Sorting.SortDescSpec(users, StatKey(criteria));
      Sorting.SortDesc(users, StatKey(criteria))
    else
      users
  }

  /** The user in first place has the largest figure of all. */
  lemma LeaderHasBest(users: seq<LeaderboardUser>, criteria: string, u: LeaderboardUser)
    requires Ranked(criteria)
    requires u in users
    ensures |SortedUsers(users, criteria)| > 0
    ensures StatKey(criteria)(SortedUsers(users, criteria)[0]) >= StatKey(criteria)(u)
  {
    var r := SortedUsers(users, criteria);
    assert u in multiset(users);
    assert u in r;
  }

  /** A user whose figure beats everyone else's is in first place. */
  lemma UniqueLeader(users: seq<LeaderboardUser>, criteria: string, i: nat)
    requires Ranked(criteria)
    requires i < |users|
    requires forall j :: 0 <= j < |users| && j != i ==> StatKey(criteria)(users[j]) < StatKey(criteria)(users[i])
    ensures SortedUsers(users, criteria)[0] == users[i]
  {
    var top := SortedUsers(users, criteria)[0];
    LeaderHasBest(users, criteria, users[i]);
    assert top in multiset(users);
    var j :| 0 <= j < |users| && users[j] == top;
  }

  /** On the fixed board Marcus Johnson leads on sessions. */
  lemma MockSessionsLeader()
    ensures SortedUsers(MockLeaderboard, "sessions")[0] == MockLeaderboard[1]
  {
    UniqueLeader(MockLeaderboard, "sessions", 1);
  }

  /** The two 4.9 ratings on the fixed board keep their listing order in
      the rating tab: Sarah Chen before Lisa Zhang. */
  lemma MockRatingTie()
    ensures Sorting.KeyClass(SortedUsers(MockLeaderboard, "rating"), StatKey("rating"), 49)
            == [MockLeaderboard[0], MockLeaderboard[4]]
  {
    var board := MockLeaderboard;
    var key := StatKey("rating");
    assert key == (u: LeaderboardUser) => u.ratingTenths;
    forall i | 0 <= i < 6 ensures board[i..][1..] == board[i + 1..] { }
    assert Sorting.KeyClass(board[6..], key, 49) == [];
    assert Sorting.KeyClass(board[5..], key, 49) == [];
    assert Sorting.KeyClass(board[4..], key, 49) == [board[4]];
    assert Sorting.KeyClass(board[3..], key, 49) == [board[4]];
    assert Sorting.KeyClass(board[2..], key, 49) == [board[4]];
    assert Sorting.KeyClass(board[1..], key, 49) == [board[4]];
    assert board[0..] == board;
    assert Sorting.KeyClass(board, key, 49) == [board[0], board[4]];
  }

  // ---------------------------------------------------------- rendering

  /** `toFixed(1)` of a rating held in tenths: whole part, a point, one
      digit. */
  function Fixed1(tenths: nat): (r: string)
    ensures |r| >= 3 && r[|r| - 2] == '.' && IsDigit(r[|r| - 1])
  {
    Decimal(tenths / 10) + "." + [DigitChar(tenths % 10)]
  }

  /** Reading a rendered rating back: split at the point, the whole part
      and the digit give the tenths again. */
  lemma Fixed1RoundTrip(tenths: nat)
    ensures var parts := Split(Fixed1(tenths), '.');
            && |parts| == 2 && AllDigits(parts[0]) && AllDigits(parts[1])
            && 10 * DigitsValue(parts[0]) + DigitsValue(parts[1]) == tenths
  {
    var whole := Decimal(tenths / 10);
    var digit := [DigitChar(tenths % 10)];
    assert '.' !in whole by {
      assert forall i :: 0 <= i < |whole| ==> IsDigit(whole[i]);
    }
    SplitHead(whole, digit, '.');
    SplitNoSep(digit, '.');
    assert Fixed1(tenths) == whole + ['.'] + digit;
    DecimalRoundTrip(tenths / 10);
    assert DigitsValue(digit) == 10 * DigitsValue(digit[..0]) + DigitValue(digit[0]);
  }

  /** `getStatValue`: the figure the tab ranks by, as shown. */
  function StatText(u: LeaderboardUser, criteria: string): (r: string)
    ensures |r| >= 1
  {
    if criteria == "rating" then Fixed1(u.ratingTenths)
    else Decimal(StatKey(criteria)(u))
  }

  /** The shown figure reads back as the figure the list is ranked by. */
  lemma StatTextReadsBack(u: LeaderboardUser, criteria: string)
    ensures criteria != "rating" ==>
              AllDigits(StatText(u, criteria)) && DigitsValue(StatText(u, criteria)) == StatKey(criteria)(u)
    ensures criteria == "rating" ==>
              var parts := Split(StatText(u, criteria), '.');
              |parts| == 2 && AllDigits(parts[0]) && AllDigits(parts[1])
              && 10 * DigitsValue(parts[0]) + DigitsValue(parts[1]) == StatKey(criteria)(u)
  {
    if criteria == "rating" {
      Fixed1RoundTrip(u.ratingTenths);
    } else {
      DecimalRoundTrip(StatKey(criteria)(u));
    }
  }

  /** `getStatLabel`: the tab's caption; anything else reads "Sessions". */
  function StatLabel(criteria: string): (r: string)
    ensures criteria !in Tabs ==> r == "Sessions"
    ensures Lower(r) == if criteria in Tabs then criteria else "sessions"
    ensures criteria in Tabs ==> |r| == |criteria| && 'A' <= r[0] <= 'Z' && r[1..] == criteria[1..]
  {
    if criteria == "rating" then "Rating"
    else if criteria == "credits" then "Credits"
    else if criteria == "students" then "Students"
    else "Sessions"
  }

  datatype RankIcon = Crown | Medal | Award | Numbered(position: nat)

  /** `getRankIcon`: a crown, a medal and an award for the podium, the
      number itself below it. */
  function IconFor(position: nat): (r: RankIcon)
    ensures r.Numbered? <==> !(1 <= position <= 3)
    ensures r.Numbered? ==> r.position == position
    ensures (position == 1 <==> r == Crown) && (position == 2 <==> r == Medal) && (position == 3 <==> r == Award)
  {
    match position
    case 1 => Crown
    case 2 => Medal
    case 3 => Award
    case _ => Numbered(position)
  }

  const FirstRankColor: string := "bg-gradient-to-r from-yellow-400 to-yellow-600"
  const SecondRankColor: string := "bg-gradient-to-r from-gray-300 to-gray-500"
  const ThirdRankColor: string := "bg-gradient-to-r from-amber-400 to-amber-600"
  const DefaultRankColor: string := "bg-gradient-to-r from-blue-400 to-blue-600"

  /** `getRankColor`: a colour of its own for each podium place, one shared
      colour for everyone else. */
  function ColorFor(position: nat): (r: string)
    ensures r == DefaultRankColor <==> !(1 <= position <= 3)
    ensures (position == 1 <==> r == FirstRankColor) && (position == 2 <==> r == SecondRankColor)
            && (position == 3 <==> r == ThirdRankColor)
  {
    match position
    case 1 => FirstRankColor
    case 2 => SecondRankColor
    case 3 => ThirdRankColor
    case _ => DefaultRankColor
  }

  /** Each podium place is told apart from the others and from the rest of
      the board, by its icon and by its colour alike. */
  lemma PodiumDistinct(p: nat, q: nat)
    requires 1 <= p <= 3 && p != q
    ensures IconFor(p) != IconFor(q) && ColorFor(p) != ColorFor(q)
  {
  }

  /** One card of the board. */
  datatype Row = Row(position: nat, user: LeaderboardUser, icon: RankIcon, color: string,
                     stat: string, caption: string, highlighted: bool)

  /** The board for a tab: the sorted users, numbered from 1, with the
      podium highlighted. */
  function Board(users: seq<LeaderboardUser>, tab: string): (rows: seq<Row>)
    ensures |rows| == |users|
    ensures forall i :: 0 <= i < |rows| ==>
              && rows[i].position == i + 1
              && rows[i].user == SortedUsers(users, tab)[i]
              && rows[i].highlighted == (i < 3)
              && rows[i].stat == StatText(rows[i].user, tab)
              && (rows[i].icon.Numbered? <==> i >= 3)
  {
    var sorted := SortedUsers(users, tab);
    seq(|sorted|, i requires 0 <= i < |sorted| =>
      Row(i + 1, sorted[i], IconFor(i + 1), ColorFor(i + 1), StatText(sorted[i], tab), StatLabel(tab), i + 1 <= 3))
  }

  // ---------------------------------------------------------- initials

  predicate NonEmpty(piece: string)
  {
    piece != ""
  }

  /** The avatar fallback: the first character of each space-separated
      piece of the name (an empty piece contributes nothing). */
  function Initials(name: string): (r: string)
    ensures |r| <= |Split(name, ' ')|
    ensures forall i :: 0 <= i < |r| ==> r[i] != ' '
    ensures var words := Seqs.Filter(Split(name, ' '), NonEmpty);
            |r| == |words| && forall i :: 0 <= i < |r| ==> |words[i]| > 0 && r[i] == words[i][0]
  {
    InitialsOf(Split(name, ' '))
  }

  /** One initial per non-empty piece: its first character, in order. */
  function InitialsOf(pieces: seq<string>): (r: string)
    requires forall j :: 0 <= j < |pieces| ==> ' ' !in pieces[j]
    ensures |r| <= |pieces|
    ensures forall i :: 0 <= i < |r| ==> r[i] != ' '
    ensures var words := Seqs.Filter(pieces, NonEmpty);
            |r| == |words| && forall i :: 0 <= i < |r| ==> |words[i]| > 0 && r[i] == words[i][0]
  {
    if |pieces| == 0 then ""
    else
      var head := if pieces[0] == "" then "" else [pieces[0][0]];
      head + InitialsOf(pieces[1..])
  }

  /** A name of non-empty words separated by single spaces gives one
      initial per word, in order. */
  lemma InitialsOfWords(words: seq<string>)
    requires |words| >= 1
    requires forall j :: 0 <= j < |words| ==> words[j] != "" && ' ' !in words[j]
    ensures |Initials(Join(words, ' '))| == |words|
    ensures forall j :: 0 <= j < |words| ==> Initials(Join(words, ' '))[j] == words[j][0]
  {
    SplitJoin(words, ' ');
    InitialsOfAll(words);
  }

  lemma {:induction false} InitialsOfAll(pieces: seq<string>)
    requires forall j :: 0 <= j < |pieces| ==> pieces[j] != "" && ' ' !in pieces[j]
    ensures |InitialsOf(pieces)| == |pieces|
    ensures forall j :: 0 <= j < |pieces| ==> InitialsOf(pieces)[j] == pieces[j][0]
  {
    if |pieces| > 0 {
      InitialsOfAll(pieces[1..]);
    }
  }
}
