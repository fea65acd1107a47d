/** The conversation log (`autochip_scripts/conversation.py`): an ordered list of
    role-tagged messages that the generation loop appends to, prunes by index and
    hands to the model backends. The optional log-file mirror is not modelled. */
module ConversationLog {
  import opened Common
  import opened TextUtil

  /** One `{'role': role, 'content': content}` record. */
  datatype Message = Message(role: string, content: string)

  /** Python's `s[k:]` for any integer `k` (a negative `k` counts from the end). */
  function SliceFrom<T>(s: seq<T>, k: int): seq<T> {
    if k >= 0 then (if k <= |s| then s[k..] else [])
    else if -k <= |s| then s[|s| + k..]
    else s
  }

  /** The lines `role: content` that `__str__` joins. */
  function RenderedLines(ms: seq<Message>): (r: seq<string>)
    ensures |r| == |ms|
    ensures forall i :: 0 <= i < |ms| ==> r[i] == ms[i].role + ": " + ms[i].content
  {
    if |ms| == 0 then [] else [ms[0].role + ": " + ms[0].content] + RenderedLines(ms[1..])
  }

  predicate SingleLine(m: Message) {
    '\n' !in m.role && '\n' !in m.content
  }

  class Conversation {
    var messages: seq<Message>

    /** A new conversation holds no messages. */
    constructor ()
      ensures messages == []
    {
      messages := [];
    }

    /** Appends `{role, content}`; earlier messages are untouched. */
    method AddMessage(role: string, content: string)
      modifies this
      ensures messages == old(messages) + [Message(role, content)]
    {
      messages := messages + [Message(role, content)];
    }

    function GetMessages(): seq<Message>
      reads this
    {
      messages
    }

    /** `messages[-n:] if n <= len(messages) else messages`. */
    function GetLastNMessages(n: int): (r: seq<Message>)
      reads this
      ensures 1 <= n <= |messages| ==> r == messages[|messages| - n..]
      ensures n > |messages| ==> r == messages
      ensures n == 0 ==> r == messages
      ensures n < 0 ==> r == messages[if -n <= |messages| then -n else |messages|..]
    {
      if n <= |messages| then SliceFrom(messages, -n) else messages
    }

    /** Deletes message `index` when it exists; otherwise does nothing. */
    method RemoveMessage(index: int)
      modifies this
      ensures 0 <= index < |old(messages)| ==>
                messages == old(messages)[..index] + old(messages)[index + 1..]
      ensures !(0 <= index < |old(messages)|) ==> messages == old(messages)
    {
      if 0 <= index < |messages| {
        messages := messages[..index] + messages[index + 1..];
      }
    }

    /** Message `index` when it exists, `None` otherwise. */
    function GetMessage(index: int): (r: Option<Message>)
      reads this
      ensures r.Some? <==> 0 <= index < |messages|
      ensures r.Some? ==> r.value == messages[index]
    {
      if 0 <= index < |messages| then Some(messages[index]) else None
    }

    method ClearMessages()
      modifies this
      ensures messages == []
    {
      messages := [];
    }

    /** `__str__`: the `role: content` lines joined by newlines. */
    function ToString(): string
      reads this
    {
      Join("\n", RenderedLines(messages))
    }
  }

  /** With single-line messages, the rendering splits back into one line per message. */
  lemma ToStringLines(c: Conversation)
    requires |c.messages| > 0
    requires forall i :: 0 <= i < |c.messages| ==> SingleLine(c.messages[i])
    ensures Split(c.ToString()) == RenderedLines(c.messages)
  {
    var ms := c.messages;
    var lines := RenderedLines(ms);
    forall k | 0 <= k < |lines|
      ensures '\n' !in lines[k]
    {
      assert lines[k] == ms[k].role + ": " + ms[k].content;
    }
    SplitJoin(lines);
  }
}
