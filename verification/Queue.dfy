/** The rollup queue: draining notifications into distinct keys, deleting them once merged, and
    enqueueing keys (`rollup.py`). */
module Queue {
  import opened Prelude

  /** A notification, by the object key its body parses to, if any. */
  datatype Notification = Notification(key: Option<string>)

  /** Distinct keys in first-seen order. */
  function FirstSeen(received: seq<Notification>): seq<string> {
    if received == [] then []
    else
      var before, key := FirstSeen(received[..|received| - 1]), received[|received| - 1].key;
      if key.Some? && key.value !in before then before + [key.value] else before
  }

  ghost predicate Distinct<T>(s: seq<T>) {
    forall i, j | 0 <= i < j < |s| :: s[i] != s[j]
  }

  /** No key twice, none made up and none lost. */
  lemma {:induction false} FirstSeenIsExact(received: seq<Notification>)
    ensures Distinct(FirstSeen(received))
    ensures forall k :: k in FirstSeen(received) <==> Notification(Some(k)) in received
    ensures |FirstSeen(received)| <= |received|
  {
    if received != [] {
      FirstSeenIsExact(received[..|received| - 1]);
    }
  }

  lemma FirstSeenOneMore(received: seq<Notification>, n: Notification)
    ensures FirstSeen(received + [n])
         == if n.key.Some? && n.key.value !in FirstSeen(received) then FirstSeen(received) + [n.key.value] else FirstSeen(received)
  {
    assert (received + [n])[..|received|] == received;
  }

  /** Where a key was first seen. */
  ghost predicate FirstAt(received: seq<Notification>, key: string, p: nat) {
    && p < |received| && received[p].key == Some(key)
    && forall q | 0 <= q < p :: received[q].key != Some(key)
  }

  /** Keys come in the order in which they were first seen. */
  lemma {:induction false} FirstSeenInOrder(received: seq<Notification>, i: nat, j: nat) returns (p: nat, q: nat)
    requires i < j < |FirstSeen(received)|
    ensures p < q && FirstAt(received, FirstSeen(received)[i], p) && FirstAt(received, FirstSeen(received)[j], q)
  {
    var n := |received| - 1;
    var before := FirstSeen(received[..n]);
    FirstSeenIsExact(received[..n]);
    if j < |before| {
      p, q := FirstSeenInOrder(received[..n], i, j);
    } else {
      p := SeenSomewhere(received[..n], before[i]);
      q := n;
      assert Notification(Some(FirstSeen(received)[j])) !in received[..n];
      assert forall k | 0 <= k < n :: received[..n][k] == received[k];
    }
  }

  lemma {:induction false} SeenSomewhere(received: seq<Notification>, key: string) returns (p: nat)
    requires Notification(Some(key)) in received
    ensures FirstAt(received, key, p)
  {
    if received[0].key == Some(key) {
      p := 0;
    } else {
      var rest := SeenSomewhere(received[1..], key);
      p := rest + 1;
      assert forall q | 1 <= q < p :: received[q] == received[1..][q - 1];
    }
  }

  datatype Message = Message(handle: nat, body: Notification)

  function Bodies(messages: seq<Message>): (r: seq<Notification>)
    ensures |r| == |messages|
  {
    seq(|messages|, i requires 0 <= i < |messages| => messages[i].body)
  }

  function Handles(messages: seq<Message>): (r: seq<nat>)
    ensures |r| == |messages|
  {
    seq(|messages|, i requires 0 <= i < |messages| => messages[i].handle)
  }

  /** The handles are those of everything received in between, each once. */
  ghost predicate Captured(before: map<nat, Notification>, after: map<nat, Notification>, handles: seq<nat>) {
    && Distinct(handles)
    && after.Keys == before.Keys + (set h | h in handles)
    && (forall h | h in handles :: h !in before)
    && (forall h | h in before :: after[h] == before[h])
  }

  ghost function Received(after: map<nat, Notification>, handles: seq<nat>): seq<Notification>
    requires forall h | h in handles :: h in after
  {
    seq(|handles|, i requires 0 <= i < |handles| => after[handles[i]])
  }

  /** What is received is recorded under its handle, and what was visible is received or left. */
  ghost predicate Took(
    before: map<nat, Notification>, after: map<nat, Notification>, messages: seq<Message>,
    wasVisible: seq<Notification>, visible: seq<Notification>)
  {
    && Captured(before, after, Handles(messages))
    && Received(after, Handles(messages)) == Bodies(messages)
    && multiset(visible) + multiset(Bodies(messages)) == multiset(wasVisible)
  }

  lemma TookOneMore(
    before: map<nat, Notification>, after: map<nat, Notification>, messages: seq<Message>,
    wasVisible: seq<Notification>, visible: seq<Notification>, k: nat, handle: nat)
    requires Took(before, after, messages, wasVisible, visible) && k < |visible| && handle !in after
    ensures Took(before, after[handle := visible[k]], messages + [Message(handle, visible[k])],
              wasVisible, visible[..k] + visible[k + 1..])
  {
    var one, m, left := [Message(handle, visible[k])], after[handle := visible[k]], visible[..k] + visible[k + 1..];
    assert visible == visible[..k] + [visible[k]] + visible[k + 1..];
    assert Handles(one) == [handle] && Bodies(one) == [visible[k]] && Received(m, [handle]) == [visible[k]];
    TookMore(before, after, m, messages, one, wasVisible, visible, left);
  }

  lemma NothingTaken(inFlight: map<nat, Notification>, visible: seq<Notification>, maxKeys: int)
    ensures Took(inFlight, inFlight, [], visible, visible) && SeenIs({}, [], Bodies([]))
    ensures AskedAsNeeded([], Bodies([]), maxKeys) && Total([]) == 0
  {
  }

  lemma Together(taken: seq<Message>, messages: seq<Message>)
    ensures Bodies(taken + messages) == Bodies(taken) + Bodies(messages)
    ensures Handles(taken + messages) == Handles(taken) + Handles(messages)
  {
  }

  lemma CapturedMore(
    start: map<nat, Notification>, before: map<nat, Notification>, after: map<nat, Notification>, hs: seq<nat>, gs: seq<nat>)
    requires Captured(start, before, hs) && Captured(before, after, gs)
    ensures Captured(start, after, hs + gs)
    ensures Received(after, hs + gs) == Received(before, hs) + Received(after, gs)
  {
    assert forall h :: h in hs + gs <==> h in hs || h in gs;
    forall i, j | 0 <= i < j < |hs + gs| ensures (hs + gs)[i] != (hs + gs)[j] {
      if i < |hs| <= j {
        assert hs[i] in hs && gs[j - |hs|] in gs;
      }
    }
    var all, first, second := set h | h in hs + gs, set h | h in hs, set h | h in gs;
    assert all == first + second;
  }

  lemma TookMore(
    start: map<nat, Notification>, before: map<nat, Notification>, after: map<nat, Notification>,
    taken: seq<Message>, messages: seq<Message>,
    atStart: seq<Notification>, wasVisible: seq<Notification>, visible: seq<Notification>)
    requires Took(start, before, taken, atStart, wasVisible) && Took(before, after, messages, wasVisible, visible)
    ensures Took(start, after, taken + messages, atStart, visible)
  {
    Together(taken, messages);
    CapturedMore(start, before, after, Handles(taken), Handles(messages));
  }

  /** SQS takes and gives at most ten messages at a time, and refuses an empty batch. */
  const SQS_LIMIT := 10

  const RECEIVE_BATCH := 10
  const DELETE_BATCH := 10
  const SEND_BATCH := 10

  /** How many messages were asked for and received, and how many were visible then. */
  datatype Answer = Answer(asked: nat, received: nat, wereVisible: nat)

  function Total(answers: seq<Answer>): nat {
    if answers == [] then 0 else Total(answers[..|answers| - 1]) + answers[|answers| - 1].received
  }

  /** Each time as many were asked for as keys were still wanted, ten at the most. */
  ghost predicate AskedAsNeeded(answers: seq<Answer>, notes: seq<Notification>, maxKeys: int) {
    forall i | 0 <= i < |answers| ::
      && Total(answers[..i]) <= |notes|
      && answers[i].asked == Min(10, maxKeys - |FirstSeen(notes[..Total(answers[..i])])|)
  }

  /** Nothing stops a drain but the cap or an empty answer, and it stops at the first. */
  ghost predicate StoppedDuly(answers: seq<Answer>, keys: seq<string>, maxKeys: int) {
    && (forall i | 0 <= i < |answers| - 1 :: answers[i].received > 0)
    && (|keys| >= maxKeys || (answers != [] && answers[|answers| - 1].received == 0))
  }

  /** SQS never answers empty while a message is visible. */
  ghost predicate Prompt(answers: seq<Answer>) {
    forall i | 0 <= i < |answers| && answers[i].received == 0 :: answers[i].wereVisible == 0
  }

  lemma AskedOnceMore(answers: seq<Answer>, notes: seq<Notification>, more: seq<Notification>, maxKeys: int, wereVisible: nat)
    requires AskedAsNeeded(answers, notes, maxKeys) && Total(answers) == |notes|
    requires maxKeys - |FirstSeen(notes)| > 0
    ensures var all := answers + [Answer(Min(10, maxKeys - |FirstSeen(notes)|), |more|, wereVisible)];
            AskedAsNeeded(all, notes + more, maxKeys) && Total(all) == |notes + more|
  {
    hide FirstSeen;
    var all := answers + [Answer(Min(10, maxKeys - |FirstSeen(notes)|), |more|, wereVisible)];
    assert all[..|answers|] == answers;
    assert (notes + more)[..|notes|] == notes;
    forall i | 0 <= i < |answers|
      ensures all[..i] == answers[..i]
      ensures Total(all[..i]) <= |notes| && (notes + more)[..Total(all[..i])] == notes[..Total(all[..i])]
    {
      assert Total(answers[..i]) <= |notes|;
    }
  }

  class SqsQueue {
    var visible: seq<Notification>
    /** Received and neither deleted nor timed out, by receipt handle. */
    var inFlight: map<nat, Notification>
    var nextHandle: nat
    /** Everything asked of the queue so far, and what came of it. */
    ghost var answers: seq<Answer>

    ghost predicate Valid()
      reads this
    {
      forall h | h in inFlight :: h < nextHandle
    }

    constructor (waiting: seq<Notification>)
      ensures Valid() && visible == waiting && inFlight == map[] && answers == []
    {
      visible, inFlight, nextHandle, answers := waiting, map[], 0, [];
    }

    /** SQS returns whatever it likes of what is visible, up to `limit`; each message returned goes
        invisible under a handle of its own. */
    method Receive(limit: nat) returns (messages: seq<Message>)
      requires Valid() && 1 <= limit <= SQS_LIMIT
      modifies this
      ensures Valid() && |messages| <= limit && |messages| + |visible| == |old(visible)|
      ensures Took(old(inFlight), inFlight, messages, old(visible), visible)
      ensures answers == old(answers) + [Answer(limit, |messages|, |old(visible)|)]
    {
      var count: nat :| count <= limit && count <= |visible|;
      answers := answers + [Answer(limit, count, |visible|)];
      messages := [];
      while |messages| < count
        invariant Valid() && |messages| <= count && |messages| + |visible| == |old(visible)|
        invariant Took(old(inFlight), inFlight, messages, old(visible), visible)
        invariant answers == old(answers) + [Answer(limit, count, |old(visible)|)]
      {
        var k: nat :| k < |visible|;
        TookOneMore(old(inFlight), inFlight, messages, old(visible), visible, k, nextHandle);
        messages := messages + [Message(nextHandle, visible[k])];
        inFlight := inFlight[nextHandle := visible[k]];
        visible := visible[..k] + visible[k + 1..];
        nextHandle := nextHandle + 1;
      }
    }

    method DeleteBatch(handles: seq<nat>)
      requires Valid() && 1 <= |handles| <= SQS_LIMIT
      modifies this`inFlight
      ensures Valid() && inFlight == old(inFlight) - set h | h in handles
    {
      inFlight := inFlight - set h | h in handles;
    }

    method SendBatch(keys: seq<string>)
      requires 1 <= |keys| <= SQS_LIMIT
      modifies this`visible
      ensures visible == old(visible) + Notifications(keys)
    {
      visible := visible + Notifications(keys);
    }
  }

  function Notifications(keys: seq<string>): seq<Notification> {
    seq(|keys|, i requires 0 <= i < |keys| => Notification(Some(keys[i])))
  }

  /** `drain_keys`. It ends whatever SQS answers, even when every message repeats a key or has none, but
      not before the cap is reached or SQS answers empty; so if SQS gives what is visible, nothing
      visible is left short of the cap. */
  method DrainKeys(queue: SqsQueue, maxKeys: int) returns (keys: seq<string>, handles: seq<nat>)
    requires queue.Valid()
    modifies queue
    ensures queue.Valid()
    ensures Captured(old(queue.inFlight), queue.inFlight, handles)
    ensures keys == FirstSeen(Received(queue.inFlight, handles)) && (|keys| <= maxKeys || keys == [])
    ensures multiset(queue.visible) + multiset(Received(queue.inFlight, handles)) == old(multiset(queue.visible))
    ensures old(queue.answers) <= queue.answers
    ensures var asked := queue.answers[|old(queue.answers)|..];
            && StoppedDuly(asked, keys, maxKeys)
            && AskedAsNeeded(asked, Received(queue.inFlight, handles), maxKeys) && Total(asked) == |handles|
            && (Prompt(asked) ==> queue.visible == [] || |keys| >= maxKeys)
  {
    hide FirstSeen, Captured, Total, AskedAsNeeded, Handles, Bodies;
    keys, handles := [], [];
    var seen: set<string> := {};
    ghost var taken: seq<Message> := [];
    ghost var asked: seq<Answer> := [];
    NothingTaken(queue.inFlight, queue.visible, maxKeys);
    while |seen| < maxKeys
      invariant queue.Valid() && handles == Handles(taken)
      invariant Took(old(queue.inFlight), queue.inFlight, taken, old(queue.visible), queue.visible)
      invariant SeenIs(seen, keys, Bodies(taken)) && (|keys| <= maxKeys || keys == [])
      invariant queue.answers == old(queue.answers) + asked && forall i | 0 <= i < |asked| :: asked[i].received > 0
      invariant AskedAsNeeded(asked, Bodies(taken), maxKeys) && Total(asked) == |taken|
      decreases |queue.visible|
    {
      ghost var before, wasVisible := queue.inFlight, queue.visible;
      var messages := queue.Receive(Min(RECEIVE_BATCH, maxKeys - |seen|));
      TookMore(old(queue.inFlight), before, queue.inFlight, taken, messages, old(queue.visible), wasVisible, queue.visible);
      AskedOnceMore(asked, Bodies(taken), Bodies(messages), maxKeys, |wasVisible|);
      Together(taken, messages);
      asked := asked + [Answer(Min(RECEIVE_BATCH, maxKeys - |seen|), |messages|, |wasVisible|)];
      assert queue.answers == old(queue.answers) + asked;
      if messages == [] {
        assert taken + messages == taken;
        break;
      }
      seen, keys, handles := Absorb(messages, maxKeys, seen, keys, handles, Bodies(taken));
      taken := taken + messages;
    }
  }

  ghost predicate SeenIs(seen: set<string>, keys: seq<string>, received: seq<Notification>) {
    && keys == FirstSeen(received)
    && |seen| == |keys| && seen == set k | k in keys
  }

  lemma SeenOneMore(seen: set<string>, keys: seq<string>, received: seq<Notification>, messages: seq<Message>, i: nat)
    requires i < |messages| && SeenIs(seen, keys, received + Bodies(messages[..i]))
    ensures var key := messages[i].body.key;
            if key.Some? && key.value !in seen
            then SeenIs(seen + {key.value}, keys + [key.value], received + Bodies(messages[..i + 1]))
            else SeenIs(seen, keys, received + Bodies(messages[..i + 1]))
    ensures Handles(messages[..i + 1]) == Handles(messages[..i]) + [messages[i].handle]
  {
    var before := received + Bodies(messages[..i]);
    FirstSeenOneMore(before, messages[i].body);
    assert received + Bodies(messages[..i + 1]) == before + [messages[i].body];
  }

  /** The inner loop. Asked for no more than is needed, SQS cannot leave a message that the break
      skips. */
  method Absorb(
    messages: seq<Message>, maxKeys: int, seen0: set<string>, keys0: seq<string>, handles0: seq<nat>,
    ghost received: seq<Notification>)
    returns (seen: set<string>, keys: seq<string>, handles: seq<nat>)
    requires SeenIs(seen0, keys0, received) && 0 < |messages| <= maxKeys - |seen0|
    ensures SeenIs(seen, keys, received + Bodies(messages)) && |keys| <= maxKeys
    ensures handles == handles0 + Handles(messages)
  {
    seen, keys, handles := seen0, keys0, handles0;
    var i := 0;
    assert received + Bodies(messages[..0]) == received;
    while i < |messages|
      invariant 0 <= i <= |messages|
      invariant SeenIs(seen, keys, received + Bodies(messages[..i])) && |keys| <= |keys0| + i
      invariant handles == handles0 + Handles(messages[..i])
    {
      var message := messages[i];
      SeenOneMore(seen, keys, received, messages, i);
      handles := handles + [message.handle];
      if message.body.key.Some? && message.body.key.value !in seen {
        seen := seen + {message.body.key.value};
        keys := keys + [message.body.key.value];
      }
      i := i + 1;
      if |seen| >= maxKeys {
        assert i == |messages|;
        break;
      }
    }
    assert messages[..|messages|] == messages;
  }

  /** `_delete_messages`: ten at a time, all of them and nothing else. */
  method DeleteMessages(queue: SqsQueue, handles: seq<nat>)
    requires queue.Valid()
    modifies queue`inFlight
    ensures queue.Valid() && queue.inFlight == old(queue.inFlight) - set h | h in handles
  {
    var start := 0;
    while start < |handles|
      invariant 0 <= start && queue.Valid()
      invariant queue.inFlight == old(queue.inFlight) - set h | h in handles[..Min(start, |handles|)]
    {
      var end := Min(start + DELETE_BATCH, |handles|);
      assert handles[..end] == handles[..start] + handles[start..end];
      queue.DeleteBatch(handles[start..end]);
      start := start + DELETE_BATCH;
    }
    assert handles[..|handles|] == handles;
  }

  /** `_enqueue_keys`: ten at a time, all of them, in order. */
  method EnqueueKeys(queue: SqsQueue, keys: seq<string>)
    modifies queue`visible
    ensures queue.visible == old(queue.visible) + Notifications(keys)
  {
    var start := 0;
    while start < |keys|
      invariant 0 <= start
      invariant queue.visible == old(queue.visible) + Notifications(keys[..Min(start, |keys|)])
    {
      var end := Min(start + SEND_BATCH, |keys|);
      assert Notifications(keys[..end]) == Notifications(keys[..start]) + Notifications(keys[start..end]);
      queue.SendBatch(keys[start..end]);
      start := start + SEND_BATCH;
    }
    assert keys[..|keys|] == keys;
  }
}
