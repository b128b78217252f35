/**
 * The process-wide state built when the application starts: an empty conversation
 * store, an empty set of in-flight message ids and the system instruction with the
 * tool names already filled in.
 */
module Startup {

  /** The three message classes the agent is given: SystemMessage, HumanMessage, AIMessage. */
  datatype Role = System | Human | Ai

  datatype Turn = Turn(role: Role, content: string)

  /** What a stored conversation may hold: user and assistant turns only, never the system turn. */
  predicate StoredTurns(h: seq<Turn>) {
    forall i :: 0 <= i < |h| ==> h[i].role != System
  }

  class AppState {
    /** Ids of messages accepted by the webhook whose background task has not finished. */
    var processingIds: set<string>
    /** Conversation per sender id. */
    var histories: map<string, seq<Turn>>
    /** The formatted system instruction, fixed for the life of the process. */
    const systemInstruction: string

    /** No stored conversation contains a system turn. */
    ghost predicate Valid()
      reads this
    {
      forall s :: s in histories ==> StoredTurns(histories[s])
    }

    /** `chat_histories.get(sender_id, [])`. */
    function History(sender: string): (h: seq<Turn>)
      reads this
      ensures sender in histories ==> h == histories[sender]
      ensures sender !in histories ==> h == []
    {
      if sender in histories then histories[sender] else []
    }

    constructor (systemInstruction: string)
      ensures this.systemInstruction == systemInstruction
      ensures processingIds == {} && histories == map[]
      ensures Valid()
    {
      this.systemInstruction := systemInstruction;
      processingIds := {};
      histories := map[];
    }
  }
}
