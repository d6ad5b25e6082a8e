/**
 * The chat store (src/backend/controllers/chatController.js): a module-level
 * history that `processChat` appends a user/ai pair to and trims to its newest
 * 1000 entries, and `getHistory`, which returns a suffix of it.
 */
module ChatController {
  import opened Js
  import opened Wrappers
  import Retention

  const MaxHistory: nat := 1000
  const DefaultLimit: int := 50
  const ReplyPrefix := "AI Response to: "

  datatype Sender = User | Ai

  /** The placeholder context attached to every reply; the confidence 0.95 is kept in hundredths. */
  datatype Context = Context(intent: string, confidenceHundredths: int)

  const PlaceholderContext := Context("placeholder", 95)

  /** An entry of the history; only `ai` entries carry a context. */
  datatype ChatEntry = ChatEntry(sender: Sender, message: string, timestamp: string, context: Option<Context>)

  /** The object `processChat` returns. */
  datatype ChatResponse = ChatResponse(message: string, timestamp: string, context: Context)

  /** The history entry `{ type: 'ai', ...response }`. */
  function AiEntry(response: ChatResponse): (e: ChatEntry)
    ensures e.sender == Ai && e.context == Some(response.context)
    ensures e.message == response.message && e.timestamp == response.timestamp
  {
    ChatEntry(Ai, response.message, response.timestamp, Some(response.context))
  }

  class ChatStore {
    var history: seq<ChatEntry>

    /** The retention rule keeps the history at no more than 1000 entries. */
    ghost predicate Valid()
      reads this
    {
      |history| <= MaxHistory
    }

    /** The store as the module starts it: `let chatHistory = []`. */
    constructor ()
      ensures history == [] && Valid()
    {
      history := [];
    }

    /**
     * `processChat(message)`. The two clock readings are parameters: `replyTime`
     * is read first, for the response, and `userTime` afterwards, for the user's entry.
     */
    method ProcessChat(message: string, replyTime: string, userTime: string) returns (response: ChatResponse)
      modifies this
      ensures response.message == ReplyPrefix + message
      ensures response.timestamp == replyTime && response.context == PlaceholderContext
      ensures history ==
        Retention.Trim(old(history) + [ChatEntry(User, message, userTime, None), AiEntry(response)], MaxHistory)
      ensures Valid()
      ensures |old(history)| + 2 <= MaxHistory ==>
        history == old(history) + [ChatEntry(User, message, userTime, None), AiEntry(response)]
      ensures |history| >= 2 && history[|history| - 2..] == [ChatEntry(User, message, userTime, None), AiEntry(response)]
      ensures GetHistory(Some(2)) == [ChatEntry(User, message, userTime, None), AiEntry(response)]
    {
      response := ChatResponse(ReplyPrefix + message, replyTime, PlaceholderContext);
      history := history + [ChatEntry(User, message, userTime, None)];
      history := history + [AiEntry(response)];
      if |history| > MaxHistory {
        history := SliceFrom(history, -(MaxHistory as int));
      }
      Retention.TrimKeepsNewestBatch(old(history), [ChatEntry(User, message, userTime, None), AiEntry(response)], MaxHistory);
    }

    /**
     * `getHistory(limit = 50)`, which returns `chatHistory.slice(-limit)`:
     * the newest `limit` entries for a positive limit, the whole history for
     * a limit of 0 (`slice(-0)` is `slice(0)`), and the history without its
     * first `-limit` entries for a negative limit.
     */
    function GetHistory(limit: Option<int>): (r: seq<ChatEntry>)
      reads this
      ensures |r| <= |history| && r == history[|history| - |r|..]
      ensures var n := limit.GetOr(DefaultLimit);
        && (0 < n ==> |r| == Min(n, |history|))
        && (n == 0 ==> r == history)
        && (n < 0 ==> |r| == |history| - Min(-n, |history|))
    {
      SliceFrom(history, -limit.GetOr(DefaultLimit))
    }
  }
}
