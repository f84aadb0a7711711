/** The core-token ledger under the system contract. */
module Token {
  import opened Outcomes
  import opened Sums
  import opened Chain

  /** Moves a positive amount between two accounts. */
  function Transfer(tokens: Tokens, from: Name, to: Name, amount: int): Result<Tokens> {
    if from == to then Failure(TransferToSelf) else
    :- Need(0 < amount, MustBePositive);
    :- Need(from in tokens, NoTokenBalance);
    :- Need(amount <= tokens[from], OverdrawnBalance);
    Success(tokens[from := tokens[from] - amount][to := At(tokens, to) + amount])
  }

  ghost predicate NoneOverdrawn(tokens: Tokens) {
    forall a :: a in tokens ==> 0 <= tokens[a]
  }

  /** A transfer succeeds exactly when the sender covers it; it moves the amount, changes no other
      account, overdraws no one and creates nothing. */
  lemma TransferMoves(tokens: Tokens, from: Name, to: Name, amount: int)
    requires NoneOverdrawn(tokens)
    ensures Transfer(tokens, from, to, amount).Success? <==> from != to && 0 < amount <= At(tokens, from)
    ensures from != to && 0 < amount <= At(tokens, from) ==>
      var after := Transfer(tokens, from, to, amount).value;
      && NoneOverdrawn(after)
      && At(after, from) == At(tokens, from) - amount
      && At(after, to) == At(tokens, to) + amount
      && (forall a :: a != from && a != to ==> At(after, a) == At(tokens, a))
      && Total(after) == Total(tokens)
  {
    if from != to && 0 < amount <= At(tokens, from) {
      var debited := tokens[from := tokens[from] - amount];
      TotalUpdate(tokens, from, tokens[from] - amount);
      TotalUpdate(debited, to, At(tokens, to) + amount);
    }
  }
}
