/**
 * `limitMessagesHistory`: the history sent to the language model is cut down to at most
 * `maxMessages` messages (10 at the call site), keeping the run of system messages at the
 * start and, after it, the most recent other messages.
 */
module ChatHistory {

  datatype Role = System | User | Assistant | Data

  datatype Message = Message(role: Role, content: string)

  /** `MAX_MESSAGES_HISTORY`. */
  const MaxMessagesHistory: int := 10

  /** The length of the run of system messages that starts the history. */
  function LeadingSystem(messages: seq<Message>): (k: nat)
    ensures k <= |messages|
    ensures forall i :: 0 <= i < k ==> messages[i].role == System
    ensures k == |messages| || messages[k].role != System
  {
    if messages == [] || messages[0].role != System then 0
    else 1 + LeadingSystem(messages[1..])
  }

  /** `s.slice(-n)` for `n > 0`: the last `n` elements, or all of them when there are fewer. */
  function Last(s: seq<Message>, n: nat): (r: seq<Message>)
    ensures |r| == if n <= |s| then n else |s|
  {
    if n <= |s| then s[|s| - n..] else s
  }

  /** The history `limitMessagesHistory(messages, maxMessages)` returns. */
  function Limited(messages: seq<Message>, maxMessages: int): seq<Message>
  {
    if |messages| <= maxMessages then messages
    else
      var k := LeadingSystem(messages);
      var remainingSlots := maxMessages - k;
      if remainingSlots <= 0 then messages[..k]
      else messages[..k] + Last(messages[k..], remainingSlots)
  }

  /** The truncation, with the loop that collects the leading system messages. */
  method LimitMessagesHistory(messages: seq<Message>, maxMessages: int) returns (r: seq<Message>)
    ensures r == Limited(messages, maxMessages)
  {
    if |messages| <= maxMessages {
      return messages;
    }
    var systemMessages: seq<Message> := [];
    var i := 0;
    while i < |messages| && messages[i].role == System
      invariant 0 <= i <= |messages|
      invariant systemMessages == messages[..i]
      invariant forall j :: 0 <= j < i ==> messages[j].role == System
    {
      systemMessages := systemMessages + [messages[i]];
      i := i + 1;
    }
    LeadingSystemUnique(messages, i);
    var remainingSlots := maxMessages - |systemMessages|;
    if remainingSlots <= 0 {
      return systemMessages;
    }
    var rest := messages[i..];
    var recentMessages := if remainingSlots <= |rest| then rest[|rest| - remainingSlots..] else rest;
    r := systemMessages + recentMessages;
  }

  /** The run is determined by where the first non-system message stands. */
  lemma LeadingSystemUnique(messages: seq<Message>, i: nat)
    requires i <= |messages| && (forall j :: 0 <= j < i ==> messages[j].role == System)
    requires i == |messages| || messages[i].role != System
    ensures i == LeadingSystem(messages)
  {
  }

  /**
   * What the truncation promises: a history that fits is returned as it is; otherwise the
   * result starts with the whole leading system run, is exactly that run when the run
   * alone fills `maxMessages`, and otherwise has exactly `maxMessages` messages; in every
   * case it is that run followed by a suffix of the rest, so a subsequence of the input.
   */
  lemma LimitedShape(messages: seq<Message>, maxMessages: int)
    ensures |messages| <= maxMessages ==> Limited(messages, maxMessages) == messages
    ensures var k := LeadingSystem(messages);
      Limited(messages, maxMessages)[..k] == messages[..k]
    ensures var k := LeadingSystem(messages);
      |messages| > maxMessages && k >= maxMessages ==> Limited(messages, maxMessages) == messages[..k]
    ensures var k := LeadingSystem(messages);
      |messages| > maxMessages && k < maxMessages ==> |Limited(messages, maxMessages)| == maxMessages
    ensures var k := LeadingSystem(messages);
      exists j :: k <= j <= |messages| && Limited(messages, maxMessages) == messages[..k] + messages[j..]
  {
    var k := LeadingSystem(messages);
    var r := Limited(messages, maxMessages);
    if |messages| <= maxMessages {
      assert r == messages[..k] + messages[k..];
    } else if maxMessages - k <= 0 {
      assert r == messages[..k] + messages[|messages|..];
    } else {
      var n: nat := maxMessages - k;
      var j := |messages| - n;
      assert messages[k..][|messages[k..]| - n..] == messages[j..];
      assert r == messages[..k] + messages[j..];
    }
  }

  /** Cutting a history that was already cut changes nothing. */
  lemma LimitedIdempotent(messages: seq<Message>, maxMessages: int)
    ensures Limited(Limited(messages, maxMessages), maxMessages) == Limited(messages, maxMessages)
  {
    var k := LeadingSystem(messages);
    var r := Limited(messages, maxMessages);
    if |messages| > maxMessages && k > maxMessages {
      assert r == messages[..k];
      LeadingSystemUnique(r, k);
      assert r[..k] == r;
    }
  }
}
