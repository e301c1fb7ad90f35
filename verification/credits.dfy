/** The credit ledger of `CreditContext`: a balance and a transaction history
    to which new entries are prepended. The clock and the id generator are
    parameters (`now`, `id`). */
module Credits {

  datatype TxKind = Earned | Spent

  datatype Transaction = Transaction(id: string, kind: TxKind, amount: int, reason: string, timestamp: int)

  /** `credits` is the balance counter; `history` is newest first. */
  datatype Ledger = Ledger(credits: int, history: seq<Transaction>)

  const StartingCredits: int := 100
  const WelcomeReason: string := "Welcome bonus"

  /** The provider's initial state: 100 credits and the welcome entry. */
  function Initial(now: int): (l: Ledger)
    ensures l.credits == StartingCredits
    ensures |l.history| == 1 && l.history[0].kind == Earned && l.history[0].amount == StartingCredits
  {
    Ledger(StartingCredits, [Transaction("1", Earned, StartingCredits, WelcomeReason, now)])
  }

  /** The total a history records: earned amounts minus spent amounts. */
  function Net(history: seq<Transaction>): int
  {
    if |history| == 0 then 0
    else (match history[0].kind
          case Earned => history[0].amount
          case Spent => -history[0].amount) + Net(history[1..])
  }

  /** The counter agrees with the log. */
  predicate Balanced(l: Ledger)
  {
    l.credits == Net(l.history)
  }

  /** `earnCredits`: the balance rises by `amount` and one `Earned` entry is
      prepended; the older history is untouched. */
  function Earn(l: Ledger, amount: int, reason: string, id: string, now: int): (r: Ledger)
    ensures r.credits == l.credits + amount
    ensures |r.history| == |l.history| + 1 && r.history[1..] == l.history
    ensures r.history[0] == Transaction(id, Earned, amount, reason, now)
  {
    Ledger(l.credits + amount, [Transaction(id, Earned, amount, reason, now)] + l.history)
  }

  /** `spendCredits`: succeeds exactly when the balance covers `amount`; on
      success the balance drops by `amount` and one `Spent` entry is
      prepended, on failure nothing changes. */
  function Spend(l: Ledger, amount: int, reason: string, id: string, now: int): (r: (bool, Ledger))
    ensures r.0 <==> l.credits >= amount
    ensures !r.0 ==> r.1 == l
    ensures r.0 ==> r.1.credits == l.credits - amount
    ensures r.0 ==> |r.1.history| == |l.history| + 1 && r.1.history[1..] == l.history
    ensures r.0 ==> r.1.history[0] == Transaction(id, Spent, amount, reason, now)
    ensures l.credits >= 0 ==> r.1.credits >= 0
  {
    if l.credits >= amount then
      (true, Ledger(l.credits - amount, [Transaction(id, Spent, amount, reason, now)] + l.history))
    else
      (false, l)
  }

  /** Both operations keep the counter equal to the net of the log. */
  lemma EarnSpendPreserveBalance(l: Ledger, amount: int, reason: string, id: string, now: int)
    requires Balanced(l)
    ensures Balanced(Earn(l, amount, reason, id, now))
    ensures Balanced(Spend(l, amount, reason, id, now).1)
  {
    var e := Earn(l, amount, reason, id, now);
    assert e.history[1..] == l.history;
    var s := Spend(l, amount, reason, id, now).1;
    if s != l {
      assert s.history[1..] == l.history;
    }
  }

  /** One ledger operation, with the id and timestamp it is given. */
  datatype Op =
    | EarnOp(amount: int, reason: string, id: string, now: int)
    | SpendOp(amount: int, reason: string, id: string, now: int)

  /** Applies a sequence of operations in order. */
  function Run(l: Ledger, ops: seq<Op>): Ledger
    decreases |ops|
  {
    if |ops| == 0 then l
    else
      var next := match ops[0]
        case EarnOp(a, why, id, t) => Earn(l, a, why, id, t)
        case SpendOp(a, why, id, t) => Spend(l, a, why, id, t).1;
      Run(next, ops[1..])
  }

  /** Earning only non-negative amounts. */
  predicate EarnsNonNegative(ops: seq<Op>)
  {
    forall i :: 0 <= i < |ops| && ops[i].EarnOp? ==> ops[i].amount >= 0
  }

  /** From the initial state, any sequence of earns and spends leaves the
      counter equal to the net of the log; when nothing negative is earned,
      the balance never goes below zero. */
  lemma {:induction false} RunFromInitial(now: int, ops: seq<Op>)
    ensures Balanced(Run(Initial(now), ops))
    ensures EarnsNonNegative(ops) ==> Run(Initial(now), ops).credits >= 0
  {
    RunKeepsInvariant(Initial(now), ops);
  }

  lemma {:induction false} RunKeepsInvariant(l: Ledger, ops: seq<Op>)
    requires Balanced(l)
    ensures Balanced(Run(l, ops))
    ensures l.credits >= 0 && EarnsNonNegative(ops) ==> Run(l, ops).credits >= 0
    decreases |ops|
  {
    if |ops| > 0 {
      var op := ops[0];
      EarnSpendPreserveBalance(l, op.amount, op.reason, op.id, op.now);
      var next := match op
        case EarnOp(a, why, id, t) => Earn(l, a, why, id, t)
        case SpendOp(a, why, id, t) => Spend(l, a, why, id, t).1;
      RunKeepsInvariant(next, ops[1..]);
      if EarnsNonNegative(ops) {
        assert EarnsNonNegative(ops[1..]) by {
          forall i | 0 <= i < |ops[1..]| && ops[1..][i].EarnOp? ensures ops[1..][i].amount >= 0 {
            assert ops[1..][i] == ops[i + 1];
          }
        }
      }
    }
  }
}
