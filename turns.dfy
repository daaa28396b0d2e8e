/** One completed exchange, as kept in a connection's conversation history
    (the value class MessageDTO). */
module Turns {

  /** What the user sent and what the assistant answered. Equality is
      structural over both fields, as Lombok's @Data generates it. */
  datatype Turn = Turn(user: string, assistant: string)

  /** The two-argument constructor: it stores both strings as given, in
      their own fields. */
  function NewTurn(user: string, assistant: string): (t: Turn)
    ensures t.user == user
    ensures t.assistant == assistant
  {
    Turn(user, assistant)
  }

  /** Two turns are equal exactly when their user texts and their
      assistant texts are. */
  lemma TurnEquality(a: Turn, b: Turn)
    ensures a == b <==> a.user == b.user && a.assistant == b.assistant
  {
  }

  /** The constructor does not swap its arguments: building two turns
      that come out equal means they were built from the same pair. */
  lemma NewTurnInjective(u: string, a: string, u': string, a': string)
    ensures NewTurn(u, a) == NewTurn(u', a') <==> u == u' && a == a'
  {
  }
}
