/** The match deck of the `SkillMatching` page: passing, liking and
    super-liking remove a proposed match; the two likes cost credits and only
    remove the match when the ledger pays. */
module Matching {

  import Credits
  import Seqs

  datatype MatchType = Perfect | Good | Potential

  /** Ratings are kept in tenths (4.8 is 48). */
  datatype SkillMatch = SkillMatch(
    id: string,
    userId: string,
    userName: string,
    userPhoto: string,
    userLocation: string,
    skillOffering: string,
    skillSeeking: string,
    compatibilityScore: int,
    ratingTenths: int,
    sessionsCompleted: int,
    isOnline: bool,
    timezone: string,
    mutualInterests: seq<string>,
    matchType: MatchType)

  /** The page's match list together with the credit ledger it spends from. */
  datatype Deck = Deck(matches: seq<SkillMatch>, ledger: Credits.Ledger)

  const LikeCost: int := 5
  const SuperLikeCost: int := 15
  const LikeReason: string := "Skill match like"
  const SuperLikeReason: string := "Super like"

  /** `matches.filter(match => match.id !== matchId)`: every match with the
      id is gone, every other one stays, in order and with its multiplicity. */
  function RemoveMatch(ms: seq<SkillMatch>, matchId: string): (r: seq<SkillMatch>)
    ensures forall m :: m in r <==> m in ms && m.id != matchId
    ensures forall m :: multiset(r)[m] == if m.id != matchId then multiset(ms)[m] else 0
    ensures Seqs.IsSubseq(r, ms)
    ensures |r| <= |ms|
    ensures (forall i :: 0 <= i < |ms| ==> ms[i].id != matchId) ==> r == ms
  {
    Seqs.FilterSpec(ms, (m: SkillMatch) => m.id != matchId);
    Seqs.FilterAll(ms, (m: SkillMatch) => m.id != matchId);
    Seqs.Filter(ms, (m: SkillMatch) => m.id != matchId)
  }

  /** `handlePass`: removes the match and spends nothing. */
  function Pass(d: Deck, matchId: string): (r: Deck)
    ensures r.ledger == d.ledger
    ensures forall m :: multiset(r.matches)[m] == if m.id != matchId then multiset(d.matches)[m] else 0
    ensures forall m :: m in r.matches <==> m in d.matches && m.id != matchId
    ensures Seqs.IsSubseq(r.matches, d.matches)
  {
    Deck(RemoveMatch(d.matches, matchId), d.ledger)
  }

  /** The shared shape of both likes: pay `cost`, and only then remove. */
  function PaidRemove(d: Deck, matchId: string, cost: int, reason: string, txId: string, now: int): (r: (bool, Deck))
    ensures r.0 <==> d.ledger.credits >= cost
    ensures r.0 ==> r.1.matches == RemoveMatch(d.matches, matchId)
    ensures r.0 ==> r.1.ledger == Credits.Spend(d.ledger, cost, reason, txId, now).1
    ensures r.0 ==> r.1.ledger.credits == d.ledger.credits - cost
    ensures !r.0 ==> r.1 == d
  {
    var (paid, ledger) := Credits.Spend(d.ledger, cost, reason, txId, now);
    if paid then (true, Deck(RemoveMatch(d.matches, matchId), ledger)) else (false, d)
  }

  /** `handleLike`: removes the match only when 5 credits can be spent. */
  function Like(d: Deck, matchId: string, txId: string, now: int): (r: (bool, Deck))
    ensures r.0 <==> d.ledger.credits >= LikeCost
    ensures r.0 ==> r.1.ledger.credits == d.ledger.credits - LikeCost
    ensures r.0 ==> forall m :: multiset(r.1.matches)[m] == if m.id != matchId then multiset(d.matches)[m] else 0
    ensures r.0 ==> forall m :: m in r.1.matches <==> m in d.matches && m.id != matchId
    ensures r.0 ==> Seqs.IsSubseq(r.1.matches, d.matches)
    ensures !r.0 ==> r.1 == d
  {
    PaidRemove(d, matchId, LikeCost, LikeReason, txId, now)
  }

  /** `handleSuperLike`: removes the match only when 15 credits can be spent. */
  function SuperLike(d: Deck, matchId: string, txId: string, now: int): (r: (bool, Deck))
    ensures r.0 <==> d.ledger.credits >= SuperLikeCost
    ensures r.0 ==> r.1.ledger.credits == d.ledger.credits - SuperLikeCost
    ensures r.0 ==> forall m :: multiset(r.1.matches)[m] == if m.id != matchId then multiset(d.matches)[m] else 0
    ensures r.0 ==> forall m :: m in r.1.matches <==> m in d.matches && m.id != matchId
    ensures r.0 ==> Seqs.IsSubseq(r.1.matches, d.matches)
    ensures !r.0 ==> r.1 == d
  {
    PaidRemove(d, matchId, SuperLikeCost, SuperLikeReason, txId, now)
  }

  /** A button press on a match card, with the id and time a spend records. */
  datatype Action =
    | PassAction(matchId: string)
    | LikeAction(matchId: string, txId: string, now: int)
    | SuperLikeAction(matchId: string, txId: string, now: int)

  function Step(d: Deck, a: Action): Deck
  {
    match a
    case PassAction(id) => Pass(d, id)
    case LikeAction(id, tx, t) => Like(d, id, tx, t).1
    case SuperLikeAction(id, tx, t) => SuperLike(d, id, tx, t).1
  }

  function Play(d: Deck, actions: seq<Action>): Deck
    decreases |actions|
  {
    if |actions| == 0 then d else Play(Step(d, actions[0]), actions[1..])
  }

  /** Over any sequence of presses the deck only shrinks, what remains is a
      subsequence of the original deck, and a balanced, non-negative ledger
      stays balanced and non-negative. */
  lemma {:induction false} PlayShrinksAndKeepsLedger(d: Deck, actions: seq<Action>)
    requires Credits.Balanced(d.ledger) && d.ledger.credits >= 0
    ensures |Play(d, actions).matches| <= |d.matches|
    ensures Seqs.IsSubseq(Play(d, actions).matches, d.matches)
    ensures Credits.Balanced(Play(d, actions).ledger) && Play(d, actions).ledger.credits >= 0
    decreases |actions|
  {
    Seqs.SubseqRefl(d.matches);
    if |actions| > 0 {
      var a := actions[0];
      var next := Step(d, a);
      match a {
        case PassAction(id) =>
        case LikeAction(id, tx, t) =>
          Credits.EarnSpendPreserveBalance(d.ledger, LikeCost, LikeReason, tx, t);
        case SuperLikeAction(id, tx, t) =>
          Credits.EarnSpendPreserveBalance(d.ledger, SuperLikeCost, SuperLikeReason, tx, t);
      }
      PlayShrinksAndKeepsLedger(next, actions[1..]);
      Seqs.SubseqTrans(Play(next, actions[1..]).matches, next.matches, d.matches);
    }
  }
}
