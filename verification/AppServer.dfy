/** The app-server client above the WebSocket: requests with ascending identifiers on one stream of
    messages, everything that is not the awaited answer kept aside as a notification. */
module AppServer {
  import opened Wrappers

  /** A message: its identifier, whether it carries a result or an error, and the rest. */
  datatype Rpc = Rpc(id: Option<int>, answer: bool, content: string)

  predicate Answers(m: Rpc, id: int) {
    m.id == Some(id) && m.answer
  }

  datatype Call = Request | Drain

  class Client {
    var nextId: int
    var notifications: seq<Rpc>
    var stream: seq<Rpc>

    constructor (stream: seq<Rpc>)
      ensures nextId == 1 && notifications == [] && this.stream == stream
    {
      nextId, notifications, this.stream := 1, [], stream;
    }

    /** The next message, unless the transport gives up. */
    method Receive() returns (m: Option<Rpc>)
      modifies `stream
      ensures m.Some? ==> [m.value] + stream == old(stream)
      ensures m.None? ==> stream == old(stream)
    {
      var gone: bool := *;
      if gone || stream == [] { return None; }
      m := Some(stream[0]);
      stream := stream[1..];
    }

    /** The answer to a new request is the first message that carries its identifier and an answer;
        all that came before it is kept, in order. Without an answer everything read is kept. */
    method Request() returns (answer: Option<Rpc>, ghost passed: nat)
      modifies this
      ensures nextId == old(nextId) + 1 && passed <= |old(stream)|
      ensures notifications == old(notifications) + old(stream)[..passed]
      ensures forall i :: 0 <= i < passed ==> !Answers(old(stream)[i], old(nextId))
      ensures answer.Some? ==>
        passed < |old(stream)| && answer.value == old(stream)[passed] && Answers(answer.value, old(nextId))
      ensures stream == old(stream)[passed + (if answer.Some? then 1 else 0)..]
    {
      var id := nextId;
      nextId := nextId + 1;
      passed := 0;
      while true
        invariant passed <= |old(stream)| && stream == old(stream)[passed..]
        invariant nextId == old(nextId) + 1 && notifications == old(notifications) + old(stream)[..passed]
        invariant forall i :: 0 <= i < passed ==> !Answers(old(stream)[i], id)
        decreases |stream|
      {
        var m := Receive();
        if m.None? { return None, passed; }
        assert m.value == old(stream)[passed];
        if Answers(m.value, id) { return m, passed; }
        notifications := notifications + [m.value];
        passed := passed + 1;
      }
    }

    /** Hand over the notifications and whatever else can be read now. They leave the client before
        the first read, so a read that fails takes them with it. */
    method DrainNotifications() returns (messages: Option<seq<Rpc>>, ghost taken: seq<Rpc>)
      modifies this
      ensures nextId == old(nextId) && notifications == []
      ensures old(notifications) <= taken && taken + stream == old(notifications) + old(stream)
      ensures messages.Some? ==> messages.value == taken
    {
      var collected := notifications;
      notifications := [];
      var readable: bool := *;
      while readable
        invariant nextId == old(nextId) && notifications == []
        invariant old(notifications) <= collected && collected + stream == old(notifications) + old(stream)
        decreases |stream|
      {
        var m := Receive();
        if m.None? { return None, collected; }
        collected := collected + [m.value];
        readable := *;
      }
      messages, taken := Some(collected), collected;
    }

    /** Over any run of calls every message ends in exactly one place: it answered a request, was
        handed over, still waits, has not been read, or was lost to a drain that failed. */
    method Converse(calls: seq<Call>) returns (answers: seq<Rpc>, delivered: seq<Rpc>, ghost lost: seq<Rpc>)
      modifies this
      ensures old(Open()) == Settled(answers, delivered, lost) + Open()
      ensures Ordered(answers, nextId)
      ensures (forall c :: c in calls ==> c.Request?) ==> lost == []
    {
      answers, delivered, lost := [], [], [];
      ghost var whole := Open();
      for k := 0 to |calls|
        invariant whole == Settled(answers, delivered, lost) + Open()
        invariant Ordered(answers, nextId)
        invariant (forall c :: c in calls ==> c.Request?) ==> lost == []
      {
        assert calls[k] in calls;
        ghost var settled, open := Settled(answers, delivered, lost), Open();
        if calls[k].Request? {
          var answer := RequestOnce();
          if answer.Some? {
            SettledMore(answers, delivered, lost, [answer.value]);
            Moves(settled, open, multiset{answer.value}, Open());
            OrderedMore(answers, nextId - 1, answer.value);
            answers := answers + [answer.value];
          }
        } else {
          var messages, taken := DrainOnce();
          SettledMore(answers, delivered, lost, taken);
          Moves(settled, open, multiset(taken), Open());
          if messages.Some? { delivered := delivered + messages.value; } else { lost := lost + taken; }
        }
      }
    }

    function Open(): multiset<Rpc>
      reads this
    {
      multiset(notifications) + multiset(stream)
    }

    method RequestOnce() returns (answer: Option<Rpc>)
      modifies this
      ensures nextId == old(nextId) + 1
      ensures answer.Some? ==> Answers(answer.value, old(nextId))
      ensures old(Open()) == Open() + if answer.Some? then multiset{answer.value} else multiset{}
    {
      ghost var passed;
      answer, passed := Request();
      ghost var some := if answer.Some? then [answer.value] else [];
      assert old(stream) == old(stream)[..passed] + (some + stream);
    }

    method DrainOnce() returns (messages: Option<seq<Rpc>>, ghost taken: seq<Rpc>)
      modifies this
      ensures nextId == old(nextId) && (messages.Some? ==> messages.value == taken)
      ensures old(Open()) == Open() + multiset(taken)
    {
      messages, taken := DrainNotifications();
      assert multiset(taken + stream) == multiset(old(notifications) + old(stream));
    }
  }

  /** Each answer belongs to another request than those before it, and to one already made. */
  predicate Ordered(answers: seq<Rpc>, nextId: int) {
    && (forall i :: 0 <= i < |answers| ==> answers[i].id.Some? && answers[i].id.value < nextId)
    && forall i, j :: 0 <= i < j < |answers| ==> answers[i].id.value < answers[j].id.value
  }

  function Settled(answers: seq<Rpc>, delivered: seq<Rpc>, lost: seq<Rpc>): multiset<Rpc> {
    multiset(answers) + multiset(delivered) + multiset(lost)
  }

  lemma SettledMore(answers: seq<Rpc>, delivered: seq<Rpc>, lost: seq<Rpc>, more: seq<Rpc>)
    ensures Settled(answers + more, delivered, lost) == Settled(answers, delivered, lost) + multiset(more)
    ensures Settled(answers, delivered + more, lost) == Settled(answers, delivered, lost) + multiset(more)
    ensures Settled(answers, delivered, lost + more) == Settled(answers, delivered, lost) + multiset(more)
  {
  }

  lemma Moves(settled: multiset<Rpc>, open: multiset<Rpc>, moved: multiset<Rpc>, left: multiset<Rpc>)
    requires open == left + moved
    ensures settled + open == (settled + moved) + left
  {
  }

  lemma OrderedMore(answers: seq<Rpc>, nextId: int, answer: Rpc)
    requires Ordered(answers, nextId) && Answers(answer, nextId)
    ensures Ordered(answers + [answer], nextId + 1)
  {
  }
}
