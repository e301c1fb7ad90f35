# SkillSwap core in Dafny

SkillSwap is a peer-to-peer skill-exchange web app. Users spend and earn
credits, book sessions with teachers, swipe through suggested skill matches,
take part in a forum and community groups, and meet over video calls. Under the
user interface, the app is a set of small, deterministic state transitions over
in-memory lists. This project models those transitions as pure Dafny functions
over immutable records and proves their contracts.

- `common.dfy`: `Option`.
- `seqs.dfy`: the order-preserving filter behind `Array.prototype.filter`, the
  subsequence relation ("in original order"), and duplicate-freedom.
- `text.dfy`: the JavaScript string operations the app relies on. These are
  ASCII `toLowerCase`, `includes`, `trim` over the JavaScript white-space set,
  `split`/`join` on one character, `toString` and `Number` on non-negative
  integers, `padStart`, `replace(/\s+/g, '-')`, and a character-code string
  order.
- `sorting.dfy`: `Array.prototype.sort`, which is stable, modelled as a stable
  insertion sort. It comes with permutation, ordering and stability lemmas for
  descending numeric keys and ascending names.
- `credits.dfy` (`CreditContext`): the balance and its prepend-only
  transaction history.
- `bookings.dfy` (`BookingContext`): bookings, provider time slots, creating
  and cancelling bookings, offered slots, and meeting links.
- `auth.dfy` (`AuthContext`): sign-in, registration, sign-out and profile
  update. A map stands in for the browser's storage.
- `matching.dfy` (`SkillMatching`): pass, like and super-like over the match
  deck. A like spends credits from the ledger.
- `forum.dfy` (`Forum`): the search, category and sort of posts, creating a
  post, and voting.
- `skills.dfy` (`Skills`):
  - the deduplicated tag list;
  - the search, category and tag filter with its sorts;
  - tag toggling;
  - clearing the filters.
- `community.dfy` (`Community`): joining groups, registering for events, the
  capacity guard, and the join window.
- `leaderboard.dfy` (`Leaderboard`): the ranking by tab, the podium icons and
  colours, the shown statistic, and initials.
- `dashboard.dfy` (`Dashboard`): upcoming and completed sessions, the join
  window, and join/cancel.
- `booking_modal.dfy` (`BookingModal`): the booking form, its guard, the
  request it builds, and the reset after booking.
- `chat.dfy` (`ChatModal`): the greeting, the send guard with trimming, Enter
  to send, and the canned reply.
- `profile.dfy` (`UserProfile`): profile lookup, follow/unfollow, and hiding
  the controls on one's own profile.
- `video_call.dfy` (`VideoCall`): the controls, the timer and its `mm:ss`
  display, ending the call, and the meeting id.

Modelling choices:
- Timestamps are integers. Ratings are integers in tenths.
- Ids, the clock, the browser's date functions and the reply picked at random
  are parameters.
- The browser's `localStorage` is a map from key to user record, and JSON
  serialisation is the identity.

## Model

| member | source | states |
|---|---|---|
| Credits.Initial | src/contexts/CreditContext.tsx:21-30 | The ledger starts at 100 credits with exactly one earned entry of 100. |
| Credits.Earn | src/contexts/CreditContext.tsx:32-42 | The balance rises by exactly the amount, and one earned entry carrying that amount and reason is put in front of the unchanged history. |
| Credits.Spend | src/contexts/CreditContext.tsx:44-58 | Succeeds iff the balance covers the amount. On failure the ledger is unchanged. On success the balance drops by exactly the amount and one spent entry is prepended. A non-negative balance never turns negative. |
| Credits.EarnSpendPreserveBalance | src/contexts/CreditContext.tsx:32-58 | Both operations preserve "balance = sum earned − sum spent over the history". |
| Credits.RunFromInitial | src/contexts/CreditContext.tsx:21-58 | Any sequence of earns and spends from the initial ledger keeps the balance invariant. With non-negative earns it keeps the balance non-negative. |
| Credits.RunKeepsInvariant | src/contexts/CreditContext.tsx:32-58 | The same for any balanced starting ledger. |
| Bookings.Slug | src/contexts/BookingContext.tsx:84 | The slug has no white space and no upper-case letter. It is empty iff the skill name is. With its hyphens removed it equals the lower-cased name without white space or hyphens. A name without white space is only lower-cased. |
| Bookings.MeetingUrl | src/contexts/BookingContext.tsx:84 | The link is the Jitsi prefix, then the slug, then `-`, then the timestamp in decimal. Reading the digits back gives the timestamp. |
| Bookings.CreateBooking | src/contexts/BookingContext.tsx:79-97 | Exactly one booking is appended, carrying every requested field plus the given id, creation time and generated link. Exactly the slots starting at the booked time become unavailable, the rest are unchanged, and no slot becomes available. |
| Bookings.CancelBooking | src/contexts/BookingContext.tsx:99-107 | Only bookings with the id become cancelled. Length, every other booking and all slots are kept. |
| Bookings.CancelIdempotent | src/contexts/BookingContext.tsx:99-107 | Cancelling twice equals cancelling once. |
| Bookings.GetAvailableSlots | src/contexts/BookingContext.tsx:109-116 | Exactly the provider's available slots whose start begins with the date part, each with its multiplicity, in store order. |
| Bookings.FindBooking | src/contexts/BookingContext.tsx:119 | Finds the index of the first booking with the id, or reports that none has it. |
| Bookings.JoinMeeting | src/contexts/BookingContext.tsx:118-121 | Gives the link of the first booking with the id when that link is present and non-empty. Gives nothing when no booking has the id, or when the first such booking's link is absent or empty. |
| Bookings.JoinAfterCreate | src/contexts/BookingContext.tsx:79-121 | Joining a freshly created booking (fresh id) returns exactly its generated link. |
| Bookings.JoinUnaffectedByCancel | src/contexts/BookingContext.tsx:99-121 | Cancelling never changes what joining any booking returns. |
| Bookings.SlugRun | src/contexts/BookingContext.tsx:84 | A white-space-free word followed by a white-space run and then a non-space character contributes its lower-cased self and exactly one hyphen. The rest of the name is slugged independently. |
| Bookings.CreatedTimeNotOffered | src/contexts/BookingContext.tsx:90-116 | After a booking, no offered slot's start string equals the request's `scheduled_at`. |
| Bookings.OtherSlotStaysOffered | src/contexts/BookingContext.tsx:90-116 | A booking withdraws only slots whose start string is the request's `scheduled_at`. Every other slot offered before is still offered after. |
| Auth.FindByEmail | src/contexts/AuthContext.tsx:71 | Returns the first account with that e-mail, or nothing exactly when no account has it. |
| Auth.Login | src/contexts/AuthContext.tsx:69-78 | Succeeds iff a built-in account has the e-mail and the password is `password`. Success signs that account in and stores it under `skillswap-user`. Failure changes nothing. |
| Auth.Register | src/contexts/AuthContext.tsx:80-103 | Always succeeds. The new user has 100 credits, bronze rank, empty skill lists and one "Welcome" badge, and is stored. |
| Auth.Logout | src/contexts/AuthContext.tsx:105-108 | Signs out and removes the stored record, keeping every other stored key. |
| Auth.Restore | src/contexts/AuthContext.tsx:62-67 | On start-up the user is the stored record, if any. |
| Auth.UpdateProfile | src/contexts/AuthContext.tsx:110-116 | No-op when signed out. Otherwise applies the update and mirrors the result into the store. |
| Auth.ApplyOverridesExactly | src/contexts/AuthContext.tsx:112 | Every field the update gives is taken from it, and every field it leaves out is kept from the user. The empty update is the identity, and applying an update is idempotent. |
| Auth.ApplyUnchangedIff | src/contexts/AuthContext.tsx:112 | An update leaves the user unchanged iff every field it gives already has that value. |
| Auth.PersistenceRoundTrip | src/contexts/AuthContext.tsx:62-116 | After login, register, logout or update, restoring from storage yields the same signed-in user. |
| Auth.LoginExamples | src/contexts/AuthContext.tsx:37-78 | The built-in account signs in with `password`. A wrong password or an unknown e-mail does not. |
| Matching.RemoveMatch | src/pages/SkillMatching.tsx:158 | Exactly the matches with another id survive, with multiplicity and in order. An absent id changes nothing. |
| Matching.Pass | src/pages/SkillMatching.tsx:157-159 | Removes every card with the id. The other cards keep their multiplicity and order, and nothing is spent. |
| Matching.PaidRemove | src/pages/SkillMatching.tsx:145-171 | The match is removed iff the spend succeeds. On failure the deck and ledger are unchanged. |
| Matching.Like | src/pages/SkillMatching.tsx:145-155 | Removes the match iff 5 credits are spent, lowering the balance by exactly 5. The other cards keep their multiplicity and order. Otherwise nothing changes. |
| Matching.SuperLike | src/pages/SkillMatching.tsx:161-171 | The same with 15 credits. |
| Matching.PlayShrinksAndKeepsLedger | src/pages/SkillMatching.tsx:145-171 | Any sequence of actions only removes matches, keeping order, and keeps the ledger balanced and non-negative. |
| Forum.FilteredPosts | src/pages/Forum.tsx:115-134 | Exactly the posts matching search and category, with multiplicity. Non-increasing in the chosen key. Each group of equal keys stays in post order. |
| Forum.EmptySearchShowsAll | src/pages/Forum.tsx:117-119 | An empty search under category "All" lists every post. |
| Forum.ParseTags | src/pages/Forum.tsx:147 | The tags are the comma-split pieces, trimmed, with empties dropped, each as often as it occurs and in order. No tag is empty, contains a comma, or starts or ends with white space. |
| Forum.ParseTagsRoundTrip | src/pages/Forum.tsx:147 | Joining clean tags with commas and parsing them back gives the same tags. |
| Forum.CreatePost | src/pages/Forum.tsx:136-160 | Without a user, title, content or category, nothing changes. Otherwise one post is prepended with zero counters, unpinned, authored by the user, with the parsed tags, and the form is cleared. |
| Forum.CastVote | src/pages/Forum.tsx:162-172 | An up vote adds one upvote, and a down vote one downvote, to posts with the id. Nothing else changes. |
| Forum.VotesCommuteAndMoveScore | src/pages/Forum.tsx:162-172 | Votes commute, and each moves the post's score by exactly ±1. |
| SkillsCatalog.FlattenMembers | src/pages/Skills.tsx:147-153 | The flattened tag list holds exactly the tags of some skill. |
| SkillsCatalog.AllTags | src/pages/Skills.tsx:147-153 | The deduplication of the flattened tag lists: every tag of every skill exactly once, in order of first appearance. |
| SkillsCatalog.AddTags | src/pages/Skills.tsx:149-151 | Adding one skill's tags to the set turns the deduplication of the tags seen so far into the deduplication with that skill's tags appended. |
| Seqs.DedupSpec | src/pages/Skills.tsx:148-152 | `Array.from(new Set(...))` has no duplicates and the same members as its input, and lists them in order of their first occurrence in the input. |
| SkillsCatalog.FilteredSkills | src/pages/Skills.tsx:157-185 | Exactly the passing skills, with multiplicity. Sorted descending by rating ("rating") or by reviews ("popular"), ascending by name ("alphabetical"), in each case with ties in catalogue order. Catalogue order otherwise. |
| SkillsCatalog.ToggleTag | src/pages/Skills.tsx:190-196 | Adds an absent tag at the end. Removes a present one, with every other tag kept in its multiplicity and order. No other tag changes membership, and a duplicate-free list stays duplicate-free. |
| SkillsCatalog.ToggleTwice | src/pages/Skills.tsx:190-196 | Toggling twice restores membership, and restores the list itself when the tag was absent. |
| SkillsCatalog.ClearAll | src/pages/Skills.tsx:402-406 | Search emptied, category "All", no tags, sort kept. |
| SkillsCatalog.ClearTags | src/pages/Skills.tsx:279 | Only the selected tags are cleared. |
| SkillsCatalog.ClearAllShowsEverything | src/pages/Skills.tsx:157-168 | After clearing all filters every skill is listed. |
| Community.JoinGroup | src/pages/Community.tsx:152-157 | Groups with the id flip `isJoined`, and their member count moves by exactly one in the same direction. Every other group and field is unchanged. |
| Community.JoinGroupTwice | src/pages/Community.tsx:152-157 | Joining and leaving restores every group. |
| Community.RegisterEvent | src/pages/Community.tsx:160-170 | Events with the id flip `isRegistered`, and their participant count moves by exactly ±1 in the matching direction. Everything else is unchanged. |
| Community.RegisterEventTwice | src/pages/Community.tsx:160-170 | Registering and leaving restores every event. |
| Community.RegisterKeepsCapacity | src/pages/Community.tsx:396 | Pressing an enabled register button never takes an event past its capacity. |
| Community.CanJoinWindow | src/pages/Community.tsx:321 | The join window is open iff registered and strictly within 1,800,000 ms of the event, symmetrically. |
| Community.JoinEventLink | src/pages/Community.tsx:172-176 | A link is opened iff it is present and non-empty. |
| Leaderboard.SortedUsers | src/pages/Leaderboard.tsx:144-158 | Always a permutation. For the four tabs, non-increasing in the tab's figure with ties in listing order. For anything else, the list as given. |
| Leaderboard.LeaderHasBest | src/pages/Leaderboard.tsx:144-158 | First place has a figure at least that of every user. |
| Leaderboard.UniqueLeader | src/pages/Leaderboard.tsx:144-158 | A user who beats everyone else is first. |
| Leaderboard.MockSessionsLeader | src/pages/Leaderboard.tsx:34-113 | On the built-in board Marcus Johnson leads the sessions tab. |
| Leaderboard.MockRatingTie | src/pages/Leaderboard.tsx:34-113 | The two 4.9 ratings keep listing order: Sarah Chen before Lisa Zhang. |
| Leaderboard.Fixed1 | src/pages/Leaderboard.tsx:165 | `toFixed(1)` ends in a point and one digit. |
| Leaderboard.Fixed1RoundTrip | src/pages/Leaderboard.tsx:165 | Splitting the rendered rating at the point gives back the rating in tenths. |
| Leaderboard.StatTextReadsBack | src/pages/Leaderboard.tsx:160-173 | The figure shown reads back as the figure the tab ranks by. |
| Leaderboard.StatLabel | src/pages/Leaderboard.tsx:175-188 | A tab's label is its name capitalised: the same length, an upper-case first letter, and the rest of the name unchanged. Anything else reads "Sessions". |
| Leaderboard.IconFor | src/pages/Leaderboard.tsx:115-126 | Place 1 and only place 1 gets the crown, place 2 the medal and place 3 the award. Every other position shows its number. |
| Leaderboard.ColorFor | src/pages/Leaderboard.tsx:128-139 | Places 1, 2 and 3, and only they, get the yellow, gray and amber gradients respectively. Every other place gets the shared blue default. |
| Leaderboard.PodiumDistinct | src/pages/Leaderboard.tsx:115-139 | A podium place differs from every other place in both icon and colour. |
| Leaderboard.Board | src/pages/Leaderboard.tsx:259-261 | Row i shows the i-th ranked user at position i+1. The first three are highlighted, and only positions past 3 show a number. |
| Leaderboard.InitialsOfWords | src/pages/Leaderboard.tsx:276 | A name of single-space-separated words gives exactly one initial per word, in order. |
| Leaderboard.Initials | src/pages/Leaderboard.tsx:276 | One initial per non-empty space-separated piece of the name: that piece's first character, in order. No initial is a space. |
| Leaderboard.InitialsOf | src/pages/Leaderboard.tsx:276 | Over any space-free pieces: one initial per non-empty piece, its first character, in order. |
| Dashboard.UserBookings | src/pages/Dashboard.tsx:40-42 | Exactly the bookings where the user learns or teaches, each as often as stored, in order. |
| Dashboard.Upcoming | src/pages/Dashboard.tsx:44-46 | Exactly the user's scheduled bookings later than now, each as often as stored, in order. |
| Dashboard.Completed | src/pages/Dashboard.tsx:48 | Exactly the user's completed bookings, each as often as stored, in order. |
| Dashboard.UpcomingCompletedDisjoint | src/pages/Dashboard.tsx:44-48 | No booking is both upcoming and completed. |
| Dashboard.Recent | src/pages/Dashboard.tsx:218 | The first five completed sessions, or all of them when fewer. |
| Dashboard.Render | src/pages/Dashboard.tsx:27-48 | Access is denied iff no one is signed in. Otherwise the stat cards show the user's credits, rank, completed count and badge count next to the lists. The recent list holds the first five completed sessions, or all of them when there are fewer. |
| Dashboard.OtherParty | src/pages/Dashboard.tsx:150-151 | The other party is the learner when the user teaches and the teacher otherwise. It is never the user when the two differ. |
| Dashboard.JoinButtonWindow | src/pages/Dashboard.tsx:153-154 | On an upcoming session the join button shows iff the session is today and starts within the next thirty minutes. |
| Dashboard.JoinLink | src/pages/Dashboard.tsx:50-55 | Opens the link of the first booking with the id when that link is present and non-empty. Opens nothing for an unknown id. |
| Dashboard.UpcomingIsFilter | src/pages/Dashboard.tsx:40-46 | The upcoming list equals a single filter over all bookings: the user's bookings that are scheduled and in the future. |
| Dashboard.CancelLeavesUpcoming | src/pages/Dashboard.tsx:57-59 | After cancelling, the upcoming list is the old one with the bookings of that id filtered out. Order and multiplicity are kept. |
| BookingModal.Minutes | src/components/BookingModal.tsx:109-111 | The durations offered are 30, 60 and 120 minutes. |
| BookingModal.DurationParses | src/components/BookingModal.tsx:57 | `parseInt` of the chosen option is its minutes, and distinct options have distinct values. |
| BookingModal.OfferedSlots | src/components/BookingModal.tsx:33-35 | Nothing without a date. Otherwise exactly the teacher's open slots on the picked date's ISO day, each as often as stored, in store order. |
| BookingModal.ParseTime | src/components/BookingModal.tsx:49 | A time parses iff it has at least two colon-separated parts and both read as numbers. |
| BookingModal.ParseClockText | src/components/BookingModal.tsx:150 | Every `HH:mm` time the select offers parses back to its hours and minutes. |
| BookingModal.HandleBooking | src/components/BookingModal.tsx:37-67 | Refuses without a user, then without a date or time, changing nothing. Otherwise builds a request with learner = user, the teacher, the skill, the picked time, the chosen minutes, status scheduled and the notes. It then closes the form and clears date, time and notes, keeping the duration. |
| BookingModal.BookOfferedTime | src/components/BookingModal.tsx:37-67 | Booking an offered time succeeds for a signed-in user. Afterwards no offered slot's start string equals the request's `scheduled_at`. |
| BookingModal.BookedSlotStaysOffered | src/components/BookingModal.tsx:47-57 | The request's time carries milliseconds. A slot whose start has no `.` is therefore still offered after it is booked. |
| Chat.Opened | src/components/ChatModal.tsx:38-47 | Exactly one system message, naming the recipient, and an empty draft. |
| Chat.Send | src/components/ChatModal.tsx:49-63 | Ignored without a user or with a blank draft. Otherwise appends exactly one text message from the user with the trimmed draft, and clears the draft. |
| Chat.SendTwice | src/components/ChatModal.tsx:49-63 | A second send right after a send does nothing. |
| Chat.KeyPress | src/components/ChatModal.tsx:90-95 | Enter without Shift sends. Any other key does not. |
| Chat.Reply | src/components/ChatModal.tsx:65-87 | Appends one of the canned replies from the recipient and keeps the draft. |
| Chat.SendKeepsClean | src/components/ChatModal.tsx:50-57 | Sending keeps every text message non-empty and free of surrounding white space. |
| Chat.OpenedClean | src/components/ChatModal.tsx:38-47 | A freshly opened dialog already satisfies the cleanliness invariant. |
| Chat.ReplyKeepsClean | src/components/ChatModal.tsx:78-87 | Appending a canned reply keeps every text message non-empty and free of surrounding white space. |
| UserProfile.Lookup | src/pages/UserProfile.tsx:157 | A missing or empty id finds nothing. An own key finds its profile. Any other key inherited from `Object.prototype`, such as "constructor", finds that inherited member. Every other id finds nothing. |
| UserProfile.LookupFindsOwnId | src/pages/UserProfile.tsx:61-150 | The built-in profiles are filed under their own ids. |
| UserProfile.InitialFollow | src/pages/UserProfile.tsx:158-159 | The follow flag and follower count start from the profile. |
| UserProfile.ToggleFollow | src/pages/UserProfile.tsx:174-177 | Flips the flag. The count moves +1 on follow and −1 on unfollow. |
| UserProfile.ToggleFollowInvolution | src/pages/UserProfile.tsx:174-177 | Toggling twice restores flag and count. Any number of toggles keeps the count of other followers and depends only on its parity. |
| UserProfile.Render | src/pages/UserProfile.tsx:157-235 | "User Not Found" iff the id is missing, empty, or neither an own nor an inherited key. An inherited key passes the guard, and the render then throws. Otherwise the controls show iff the viewer is not the owner. |
| VideoCall.Opened | src/components/VideoCall.tsx:29-33 | The call opens with camera and microphone on, no sharing, chat hidden, and timer zero. |
| VideoCall.Tick | src/components/VideoCall.tsx:36-44 | The timer advances by one second only while open. |
| VideoCall.ToggleLaws | src/components/VideoCall.tsx:138-165 | Each control flips its own flag only. Pressing twice undoes it, and different controls commute. |
| VideoCall.FormatDuration | src/components/VideoCall.tsx:46-50 | `mm:ss`: a colon before exactly two second digits, with at least two minute digits. |
| VideoCall.FormatDurationReadsBack | src/components/VideoCall.tsx:46-50 | Reading back gives seconds under 60, and 60·minutes + seconds equals the elapsed time. |
| VideoCall.OpenedTicksReadBack | src/components/VideoCall.tsx:29-50 | After n ticks from opening, the controls are as opened and the counter is n. The header reads back as n seconds. |
| VideoCall.EndCall | src/components/VideoCall.tsx:52-55 | The timer resets to zero and the call closes, with the controls kept. |
| VideoCall.NoTickAfterEnd | src/components/VideoCall.tsx:36-55 | Once the call has ended, a timer tick leaves it at zero. |
| VideoCall.JoinExternal | src/components/VideoCall.tsx:57-60 | Opens the meeting link and ends the call. |
| VideoCall.MeetingId | src/components/VideoCall.tsx:246 | The meeting id is the slash-free tail after the last slash, or the whole link. |
| VideoCall.MeetingIdOfBooking | src/components/VideoCall.tsx:246 | For a booking's link whose skill has no slash, the id is `skillswap-`, then the slug, then `-`, then the timestamp. |

## Left out

- `src/pages/Index.tsx`, `src/components/Layout.tsx` and `src/App.tsx` are not part of this model. They are a marketing page, the navigation shell and the route table, with no behaviour beyond layout.
- Rendering is not modelled: JSX, styling, icons and dialog open/close wiring. The model keeps only the values the markup shows.
- Timers are reduced to explicit steps. The video-call interval is the step `VideoCall.Tick`. The two-second chat reply delay is dropped, and the reply happens when `Chat.Reply` is applied. The match alerts' `setTimeout` is dropped.
- Randomness is a parameter: the chat reply index is passed in.
- Browser I/O is not modelled. `window.open` is the returned link, and `alert` and `toast` are outcome values or are dropped.
- `localStorage` is a map and JSON serialisation is the identity.
- Date parsing and formatting are abstract. Date-fns `format`, `toISOString`, `toDateString`, `setHours` and time zones become the parameters `millisOf`, `dayOf`, `isoOf` and `atTime`. Timestamps are integers.
- `Date.now()` ids are parameters, so their uniqueness is not modelled. `Bookings.JoinAfterCreate` assumes a fresh id instead.
- Ratings are integers in tenths and `toFixed(1)` is modelled on them. The app's floating-point values are not modelled.
- `localeCompare` is replaced by character-code order, and `toLowerCase` only lower-cases ASCII letters.
- Text.NumberOf: accepts only optionally space-padded digit strings, with `""` as 0. The signs, decimals, exponents and hex forms JavaScript's `Number` also accepts never reach it here, because the times and durations it parses come from the app's own selects.
- `BookingModal.HandleBooking`: a time that does not parse gives the outcome `InvalidTime`. In the app, `toISOString` throws on the resulting invalid date.
- The booking request omits `meeting_url`, because `createBooking` always overwrites it.
- React state batching and stale closures are not modelled. For example, two `spendCredits` calls in one render both read the same balance. Every operation is a sequential transition.
- The built-in data is modelled only where a property uses it: the leaderboard's users, the profiles and the login account. The forum posts, groups, events, skills, matches, bookings and time slots stay parameters. Image links are shortened to their file names.
- The video call's footer count of participants (`src/components/VideoCall.tsx:236`) is a single addition that is only displayed. It is not modelled.
- `createBooking` withdraws a slot only when the slot's start string is exactly equal to `scheduled_at` (`src/contexts/BookingContext.tsx:92`). The dialog builds `scheduled_at` with `toISOString()`, which always writes milliseconds (`…:00.000Z`, `src/components/BookingModal.tsx:56`). The built-in slots are written without them (`…:00Z`, `src/contexts/BookingContext.tsx:54`, `:61` and `:68`), so booking one of them leaves it offered. The model keeps the string comparison as written. `BookingModal.BookOfferedTime` therefore states only that no offered slot's start string equals the request's time. `BookingModal.BookedSlotStaysOffered` shows that a slot written without milliseconds stays offered.
- Community's `isToday` (`src/pages/Community.tsx:320`) is computed but never used, so `Community.CanJoinWindow` does not involve the day. Dashboard's `canJoin` does require it.
