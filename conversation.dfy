/**
  The chat's message list. It only ever grows by appending a message at the
  end (`[...prev, message]`) and changes otherwise only by the extension of one
  message's content, written as a `prev.map` that rebuilds the list and
  replaces the message whose id matches.
*/
module Conversation {

  type Id = string

  datatype Role = User | System

  datatype Message = Message(id: Id, role: Role, content: string)

  function Ids(msgs: seq<Message>): set<Id> {
    set k | 0 <= k < |msgs| :: msgs[k].id
  }

  /** No two messages of the list share an id. */
  predicate UniqueIds(msgs: seq<Message>) {
    forall i, j :: 0 <= i < j < |msgs| ==> msgs[i].id != msgs[j].id
  }

  /** The callback given to `map`: the message with the target id gets the token appended. */
  function Extended(msg: Message, id: Id, token: string): (r: Message)
    ensures r.id == msg.id && r.role == msg.role && msg.content <= r.content
    ensures msg.id != id ==> r == msg
  {
    if msg.id == id then msg.(content := msg.content + token) else msg
  }

  /** `prev.map(...)` with `Extended`: one message out for every message in. */
  function ExtendById(msgs: seq<Message>, id: Id, token: string): (r: seq<Message>)
    ensures |r| == |msgs|
  {
    if msgs == [] then []
    else [Extended(msgs[0], id, token)] + ExtendById(msgs[1..], id, token)
  }

  /**
    The extension keeps the order, every id and role, and every message with
    another id; a message with the target id has its content followed by the token.
  */
  lemma {:induction false} ExtendFrame(msgs: seq<Message>, id: Id, token: string)
    ensures var r := ExtendById(msgs, id, token);
      && (forall k :: 0 <= k < |r| ==> r[k].id == msgs[k].id && r[k].role == msgs[k].role)
      && (forall k :: 0 <= k < |r| && msgs[k].id != id ==> r[k] == msgs[k])
      && (forall k :: 0 <= k < |r| && msgs[k].id == id ==> r[k].content == msgs[k].content + token)
  {
    if msgs != [] {
      ExtendFrame(msgs[1..], id, token);
      var r := ExtendById(msgs, id, token);
      forall k | 1 <= k < |r| ensures r[k] == ExtendById(msgs[1..], id, token)[k - 1] && msgs[k] == msgs[1..][k - 1] {
      }
    }
  }

  /** Extending by an id that no message carries leaves the list as it was. */
  lemma ExtendByAbsentId(msgs: seq<Message>, id: Id, token: string)
    requires id !in Ids(msgs)
    ensures ExtendById(msgs, id, token) == msgs
  {
    ExtendFrame(msgs, id, token);
    var r := ExtendById(msgs, id, token);
    forall k | 0 <= k < |msgs| ensures r[k] == msgs[k] {
      assert msgs[k].id in Ids(msgs);
    }
  }

  /** Two extensions of the same message in a row are one extension by both tokens in order. */
  lemma {:induction false} ExtendTwice(msgs: seq<Message>, id: Id, first: string, second: string)
    ensures ExtendById(ExtendById(msgs, id, first), id, second) == ExtendById(msgs, id, first + second)
  {
    if msgs != [] {
      var once := ExtendById(msgs, id, first);
      assert once[1..] == ExtendById(msgs[1..], id, first);
      ExtendTwice(msgs[1..], id, first, second);
      assert Extended(Extended(msgs[0], id, first), id, second) == Extended(msgs[0], id, first + second);
    }
  }

  /** Extension by the empty token changes nothing. */
  lemma ExtendByEmpty(msgs: seq<Message>, id: Id)
    ensures ExtendById(msgs, id, "") == msgs
  {
    ExtendFrame(msgs, id, "");
    var r := ExtendById(msgs, id, "");
    forall k | 0 <= k < |msgs| ensures r[k] == msgs[k] {
      if msgs[k].id == id {
        assert r[k].content == msgs[k].content;
      }
    }
  }

  /**
    When only the last message carries the id, extending appends the token to
    that message and leaves everything before it as it was.
  */
  lemma ExtendLast(prefix: seq<Message>, last: Message, token: string)
    requires last.id !in Ids(prefix)
    ensures ExtendById(prefix + [last], last.id, token) ==
      prefix + [last.(content := last.content + token)]
  {
    var msgs := prefix + [last];
    var r := ExtendById(msgs, last.id, token);
    ExtendFrame(msgs, last.id, token);
    forall k | 0 <= k < |prefix| ensures r[k] == prefix[k] {
      assert msgs[k] == prefix[k] && prefix[k].id in Ids(prefix);
    }
    assert msgs[|prefix|] == last;
  }

  /** Extension keeps the ids, so a list with unique ids keeps them unique. */
  lemma ExtendKeepsIdsUnique(msgs: seq<Message>, id: Id, token: string)
    requires UniqueIds(msgs)
    ensures UniqueIds(ExtendById(msgs, id, token))
    ensures Ids(ExtendById(msgs, id, token)) == Ids(msgs)
  {
    ExtendFrame(msgs, id, token);
    var r := ExtendById(msgs, id, token);
    forall x | x in Ids(r) ensures x in Ids(msgs) {
      var k :| 0 <= k < |r| && r[k].id == x;
      assert msgs[k].id == x;
    }
    forall x | x in Ids(msgs) ensures x in Ids(r) {
      var k :| 0 <= k < |msgs| && msgs[k].id == x;
      assert r[k].id == x;
    }
  }

  /** Appending a message adds exactly its id. */
  lemma IdsAppend(msgs: seq<Message>, msg: Message)
    ensures Ids(msgs + [msg]) == Ids(msgs) + {msg.id}
  {
    var r := msgs + [msg];
    forall x | x in Ids(r) ensures x in Ids(msgs) + {msg.id} {
      var k :| 0 <= k < |r| && r[k].id == x;
      if k < |msgs| { assert r[k] == msgs[k]; }
    }
    forall x | x in Ids(msgs) + {msg.id} ensures x in Ids(r) {
      if x == msg.id {
        assert r[|msgs|].id == x;
      } else {
        var k :| 0 <= k < |msgs| && msgs[k].id == x;
        assert r[k].id == x;
      }
    }
  }

  /** Appending a message whose id is new keeps the ids unique. */
  lemma AppendFreshKeepsIdsUnique(msgs: seq<Message>, msg: Message)
    requires UniqueIds(msgs) && msg.id !in Ids(msgs)
    ensures UniqueIds(msgs + [msg])
    ensures Ids(msgs + [msg]) == Ids(msgs) + {msg.id}
  {
    var r := msgs + [msg];
    forall i, j | 0 <= i < j < |r| ensures r[i].id != r[j].id {
      if j == |msgs| {
        assert r[i] == msgs[i] && msgs[i].id in Ids(msgs);
      }
    }
    IdsAppend(msgs, msg);
  }
}
