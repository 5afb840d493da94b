/** Every message reaches its device at least once, and nobody else. */
module Delivery {
  import opened Wrappers
  import opened Text
  import opened Protocol
  import opened Safety

  // --- At-least-once delivery ---------------------------------------------------------

  /** A broadcast goes to the devices of its service, any other message to its device. */
  predicate GoesTo(msg: ServiceMessage, topic: string) {
    topic == if msg.deviceId == "0a110a11-bca5-bca5-0a11-87dcb71a7f4d" then "v1/@devices/" + msg.serviceId
             else "v1/" + msg.deviceId + "/tasks"
  }

  /** A well-formed message the dispatch queue ever accepted is still on it, unchanged, or
      it has been published to the topic of its own device and its task marked. */
  lemma AtLeastOnce(ls: seq<Label>, s: State, mid: nat, msg: ServiceMessage)
    requires Exec(INITIAL, ls) == Some(s)
    requires mid in s.accepted && s.accepted[mid] == Encoded(msg)
    ensures (mid in s.queue && s.queue[mid].body == Encoded(msg)) ||
            ((exists topic :: Publication(topic, msg) in s.published && GoesTo(msg, topic)) &&
             (Key(msg.deviceId, msg.taskId), Dispatched) in s.writes)
  {
    InvAfter(ls, s);
    assert GoesTo(msg, PublicationOf(msg).topic);
  }

  /** Nothing but an accepted message is ever published, and only to its own topic. */
  lemma PublishesOnlyAccepted(ls: seq<Label>, s: State, p: Publication)
    requires Exec(INITIAL, ls) == Some(s) && p in s.published
    ensures GoesTo(p.msg, p.topic)
    ensures exists mid :: mid in s.accepted && s.accepted[mid] == Encoded(p.msg)
  {
    InvAfter(ls, s);
    assert AcceptedSomewhere(s, p.msg);
  }

  /** The state after the first `n` steps. */
  function After(ls: seq<Label>, n: nat): Option<State>
    requires n <= |ls|
  {
    Exec(INITIAL, ls[..n])
  }

  lemma AfterOneMore(ls: seq<Label>, n: nat)
    requires n < |ls| && After(ls, n + 1).Some?
    ensures After(ls, n).Some?
    ensures After(ls, n + 1) == Next(After(ls, n).value, ls[n])
  {
    assert ls[..n + 1] == ls[..n] + [ls[n]];
    ExecConcat(INITIAL, ls[..n], [ls[n]]);
    if After(ls, n).Some? {
      var s := After(ls, n).value;
      assert Exec(s, [ls[n]]) == match Next(s, ls[n]) { case None => None case Some(t) => Exec(t, []) };
    }
  }

  /** Every beginning of a run is a run. */
  lemma PrefixRuns(ls: seq<Label>, n: nat)
    requires n <= |ls| && Exec(INITIAL, ls).Some?
    ensures After(ls, n).Some?
  {
    ExecConcat(INITIAL, ls[..n], ls[n..]);
    assert ls[..n] + ls[n..] == ls;
  }

  /** Step `n` is goroutine `a` taking step `l` from `pc`. */
  predicate TookFrom(ls: seq<Label>, n: nat, a: nat, pc: Pc, l: Label)
    requires n <= |ls|
  {
    n < |ls| && ls[n] == l && After(ls, n).Some? && At(After(ls, n).value, a) == Some(pc)
  }

  /** The step that leads into a stage of the dispatch watcher. */
  predicate EnteredBy(from: Pc, l: Label, a: nat, to: Pc) {
    (from.Received? && to == Pc.Published(from.mid, from.msg) && l == Publish(a)) ||
    (from.Published? && to == Pc.Marked(from.mid, from.msg) && l == Mark(a))
  }

  lemma EntersStage(s: State, l: Label, a: nat, to: Pc)
    requires Next(s, l).Some? && (to.Published? || to.Marked?)
    requires At(Next(s, l).value, a) == Some(to) && At(s, a) != Some(to)
    ensures exists pc :: At(s, a) == Some(pc) && EnteredBy(pc, l, a, to)
  {
    if !IsBy(l, a) {
      OthersLeavePcOnce(s, l, a);
    } else {
      MovesOnce(s, l);
      assert At(s, a).Some? && EnteredBy(At(s, a).value, l, a, to);
    }
  }

  lemma MovesOnce(s: State, l: Label)
    requires Next(s, l).Some? && !l.ForeignSend? && !l.Redeliver? && !l.RemoveTask?
    ensures var to := At(Next(s, l).value, l.actor);
            to.Some? && (to.value.Published? || to.value.Marked?) ==>
              At(s, l.actor).Some? && EnteredBy(At(s, l.actor).value, l, l.actor, to.value)
  {
  }

  lemma {:induction false} StageHasEntry(ls: seq<Label>, n: nat, a: nat, to: Pc)
    returns (k: nat, from: Pc)
    requires n <= |ls| && After(ls, n).Some? && At(After(ls, n).value, a) == Some(to)
    requires to.Published? || to.Marked?
    ensures k < n && TookFrom(ls, k, a, from, ls[k]) && EnteredBy(from, ls[k], a, to)
    decreases n
  {
    assert n != 0 by {
      assert ls[..0] == [];
    }
    AfterOneMore(ls, n - 1);
    var s := After(ls, n - 1).value;
    if At(s, a) == Some(to) {
      k, from := StageHasEntry(ls, n - 1, a, to);
    } else {
      EntersStage(s, ls[n - 1], a, to);
      k, from := n - 1, At(s, a).value;
    }
  }

  /** A well-formed message leaves the queue only by the goroutine that, earlier in the run
      and in this order, published it and then marked its task dispatched. */
  lemma RemovedOnlyAfterPublishAndMark(ls: seq<Label>, n: nat, mid: nat)
    returns (publish: nat, mark: nat, a: nat)
    requires n < |ls| && After(ls, n + 1).Some?
    requires After(ls, n).Some? && mid in After(ls, n).value.queue && mid !in After(ls, n + 1).value.queue
    requires After(ls, n).value.queue[mid].body.Encoded?
    ensures publish < mark < n && ls[n] == Delete(a)
    ensures var msg := After(ls, n).value.queue[mid].body.msg;
            TookFrom(ls, publish, a, Received(mid, msg), Publish(a)) &&
            TookFrom(ls, mark, a, Pc.Published(mid, msg), Mark(a))
  {
    AfterOneMore(ls, n);
    var s := After(ls, n).value;
    InvAfter(ls[..n], s);
    var l := ls[n];
    LeavesQueueByDelete(s, l, mid);
    a := l.actor;
    assert PcInv(s, s.pcs[a]);
    var from;
    mark, from := StageHasEntry(ls, n, a, s.pcs[a]);
    publish, from := StageHasEntry(ls, mark, a, from);
  }

  lemma LeavesQueueByDelete(s: State, l: Label, mid: nat)
    requires Next(s, l).Some? && mid in s.queue && mid !in Next(s, l).value.queue
    ensures l.Delete? && l.actor in s.pcs
    ensures s.pcs[l.actor].ReceivedGarbage? || s.pcs[l.actor].Marked?
    ensures s.pcs[l.actor].mid == mid
  {
  }

  // --- One receiver at a time ---------------------------------------------------------

  predicate Hidden(s: State, mid: nat) {
    mid in s.accepted && (mid in s.queue ==> !s.queue[mid].visible)
  }

  lemma ReceiptHides(s: State, a: nat, mid: nat)
    requires Next(s, Receive(a, mid)).Some? && QueueInv(s)
    ensures !Hidden(s, mid) && Hidden(Next(s, Receive(a, mid)).value, mid)
  {
    assert DispatchStep(s, Receive(a, mid)).Some?;
  }

  lemma StaysHidden(s: State, l: Label, mid: nat)
    requires Next(s, l).Some? && Hidden(s, mid) && l != Redeliver(mid)
    ensures Hidden(Next(s, l).value, mid)
  {
  }

  lemma {:induction false} ShownByRedelivery(ls: seq<Label>, n: nat, m: nat, mid: nat) returns (r: nat)
    requires n <= m <= |ls| && After(ls, n).Some? && After(ls, m).Some?
    requires Hidden(After(ls, n).value, mid) && !Hidden(After(ls, m).value, mid)
    ensures n <= r < m && ls[r] == Redeliver(mid)
    decreases m
  {
    assert n != m;
    AfterOneMore(ls, m - 1);
    if ls[m - 1] == Redeliver(mid) {
      r := m - 1;
    } else {
      if Hidden(After(ls, m - 1).value, mid) {
        StaysHidden(After(ls, m - 1).value, ls[m - 1], mid);
      }
      r := ShownByRedelivery(ls, n, m - 1, mid);
    }
  }

  /** Over every run: between two receipts of a message, by whomever, its visibility timeout
      ran out. */
  lemma OneReceiverAtATime(ls: seq<Label>, i: nat, j: nat, a: nat, b: nat, mid: nat) returns (r: nat)
    requires i < j < |ls| && Exec(INITIAL, ls).Some? && ls[i] == Receive(a, mid) && ls[j] == Receive(b, mid)
    ensures i < r < j && ls[r] == Redeliver(mid)
  {
    PrefixRuns(ls, i + 1);
    PrefixRuns(ls, j + 1);
    AfterOneMore(ls, i);
    AfterOneMore(ls, j);
    InvAfter(ls[..i], After(ls, i).value);
    InvAfter(ls[..j], After(ls, j).value);
    ReceiptHides(After(ls, i).value, a, mid);
    ReceiptHides(After(ls, j).value, b, mid);
    r := ShownByRedelivery(ls, i + 1, j, mid);
  }

  // --- Topics -------------------------------------------------------------------------

  predicate DeviceIdShaped(id: string) {
    '/' !in id && '@' !in id
  }

  lemma DeviceTopicIsNotBroadcast(d: string)
    requires DeviceIdShaped(d)
    ensures ("v1/" + d + "/tasks")[3] != '@'
  {
    if d != "" {
      assert d[0] in d;
    }
  }

  lemma BroadcastTopicIsMarked(s: string)
    ensures DeviceTaskTopic(BROADCAST_DEVICE_UUID, s)[3] == '@'
  {
  }

  /** Two devices never share a topic, and no device listens on a broadcast topic. */
  lemma TopicsAreDisjoint(d1: string, s1: string, d2: string, s2: string)
    requires DeviceIdShaped(d1) && DeviceIdShaped(d2)
    requires DeviceTaskTopic(d1, s1) == DeviceTaskTopic(d2, s2)
    ensures d1 == d2
    ensures d1 == BROADCAST_DEVICE_UUID ==> s1 == s2
  {
    var t1, t2 := DeviceTaskTopic(d1, s1), DeviceTaskTopic(d2, s2);
    var prefix := "v1/@devices/";
    if d1 == BROADCAST_DEVICE_UUID && d2 == BROADCAST_DEVICE_UUID {
      assert s1 == t1[|prefix|..] == t2[|prefix|..] == s2;
    } else if d1 == BROADCAST_DEVICE_UUID {
      DeviceTopicIsNotBroadcast(d2);
      BroadcastTopicIsMarked(s1);
      assert false;
    } else if d2 == BROADCAST_DEVICE_UUID {
      DeviceTopicIsNotBroadcast(d1);
      BroadcastTopicIsMarked(s2);
      assert false;
    } else {
      assert |t1| == 3 + |d1| + 6 && |t2| == 3 + |d2| + 6;
      assert d1 == t1[3..3 + |d1|] && d2 == t2[3..3 + |d2|];
    }
  }
}
